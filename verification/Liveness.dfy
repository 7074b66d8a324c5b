/**
 * Is a session still open somewhere else? A fail-closed decision from the
 * process table, the open files and one file time.
 */
module LivenessProbe {
  import opened Wrappers

  type Path = string

  const START_EPSILON_SECS: nat := 60

  // ---------------------------------------------------------------- words and ids

  /** The words of an argument, split on white space. */
  function SplitWords(s: string, word: string): seq<string> {
    if s == "" then if word == "" then [] else [word]
    else if IsSpace(s[0]) then (if word == "" then [] else [word]) + SplitWords(s[1..], "")
    else SplitWords(s[1..], word + [s[0]])
  }

  function WordsOf(argv: seq<string>): seq<string> {
    if argv == [] then [] else SplitWords(argv[0], "") + WordsOf(argv[1..])
  }

  /** The parts between separators; one more than there are separators. */
  function Split(s: string, sep: char): (parts: seq<string>)
    ensures parts != []
  {
    if s == "" then [""]
    else
      var rest := Split(s[1..], sep);
      if s[0] == sep then [""] + rest else [[s[0]] + rest[0]] + rest[1..]
  }

  predicate IsHex(c: char) {
    '0' <= c <= '9' || 'a' <= c <= 'f' || 'A' <= c <= 'F'
  }

  predicate AllHex(s: string) {
    forall i :: 0 <= i < |s| ==> IsHex(s[i])
  }

  predicate GroupsFit(parts: seq<string>, lengths: seq<nat>) {
    if lengths == [] then parts == []
    else parts != [] && |parts[0]| == lengths[0] && AllHex(parts[0]) && GroupsFit(parts[1..], lengths[1..])
  }

  /** Five hexadecimal groups of 8, 4, 4, 4 and 12. */
  predicate IsUuidShaped(s: string) {
    GroupsFit(Split(s, '-'), [8, 4, 4, 4, 12])
  }

  function Join(parts: seq<string>): string
    requires parts != []
  {
    if |parts| == 1 then parts[0] else parts[0] + "-" + Join(parts[1..])
  }

  lemma {:induction false} SplitJoins(s: string)
    ensures Join(Split(s, '-')) == s
    ensures forall p :: p in Split(s, '-') ==> '-' !in p
  {
    if s != "" {
      SplitJoins(s[1..]);
      var rest := Split(s[1..], '-');
      if s[0] == '-' {
        assert ([""] + rest)[1..] == rest;
      } else {
        var head := [s[0]] + rest[0];
        assert ([head] + rest[1..])[1..] == rest[1..];
        assert rest[0] in rest;
      }
    }
  }

  lemma {:induction false} SplitHead(a: string, b: string)
    requires '-' !in a
    ensures Split(a + "-" + b, '-') == [a] + Split(b, '-')
  {
    if a == "" {
      assert (a + "-" + b)[1..] == b;
    } else {
      assert (a + "-" + b)[1..] == a[1..] + "-" + b;
      assert a[0] in a && forall c :: c in a[1..] ==> c in a;
      SplitHead(a[1..], b);
      var rest := [a[1..]] + Split(b, '-');
      assert rest[1..] == Split(b, '-') && [a[0]] + a[1..] == a;
    }
  }

  lemma {:induction false} SplitPlain(a: string)
    requires '-' !in a
    ensures Split(a, '-') == [a]
  {
    if a != "" {
      assert a[0] in a && forall c :: c in a[1..] ==> c in a;
      SplitPlain(a[1..]);
      assert [a[1..]][1..] == [] && [a[0]] + a[1..] == a;
    }
  }

  /** The shape character by character: dashes at 8, 13, 18 and 23, hexadecimal digits elsewhere. */
  predicate UuidByPosition(s: string) {
    |s| == 36 && forall i :: 0 <= i < 36 ==>
      if i in {8, 13, 18, 23} then s[i] == '-' else '0' <= s[i] <= '9' || 'a' <= s[i] <= 'f' || 'A' <= s[i] <= 'F'
  }

  lemma HexHasNoDash(s: string)
    requires AllHex(s)
    ensures '-' !in s
  {}

  lemma Cut(s: string, i: nat, j: nat)
    requires i <= j < |s| && s[j] == '-'
    ensures s[i..] == s[i..j] + "-" + s[j + 1..]
  {}

  lemma PartsByPosition(s: string)
    requires UuidByPosition(s)
    ensures |s| == 36 && s[8] == s[13] == s[18] == s[23] == '-'
    ensures AllHex(s[0..8]) && AllHex(s[9..13]) && AllHex(s[14..18]) && AllHex(s[19..23]) && AllHex(s[24..])
  {}

  /** Splitting at the first dash after a hexadecimal group. */
  lemma SplitGroup(s: string, i: nat, j: nat)
    requires i <= j < |s| && s[j] == '-' && AllHex(s[i..j])
    ensures Split(s[i..], '-') == [s[i..j]] + Split(s[j + 1..], '-')
  {
    HexHasNoDash(s[i..j]);
    Cut(s, i, j);
    SplitHead(s[i..j], s[j + 1..]);
  }

  lemma ShapeFromPositions(s: string)
    requires UuidByPosition(s)
    ensures IsUuidShaped(s)
  {
    PartsByPosition(s);
    hide UuidByPosition, AllHex, Split, GroupsFit;
    SplitGroup(s, 0, 8);
    SplitGroup(s, 9, 13);
    SplitGroup(s, 14, 18);
    SplitGroup(s, 19, 23);
    HexHasNoDash(s[24..]);
    SplitPlain(s[24..]);
    assert s[0..] == s;
    var parts := [s[0..8], s[9..13], s[14..18], s[19..23], s[24..]];
    assert Split(s, '-') == parts;
    FiveGroups(parts);
  }

  lemma FiveGroups(p: seq<string>)
    ensures GroupsFit(p, [8, 4, 4, 4, 12])
            <==> |p| == 5 && |p[0]| == 8 && |p[1]| == |p[2]| == |p[3]| == 4 && |p[4]| == 12
                 && AllHex(p[0]) && AllHex(p[1]) && AllHex(p[2]) && AllHex(p[3]) && AllHex(p[4])
  {
    var n: seq<nat> := [8, 4, 4, 4, 12];
    assert n[1..] == [4, 4, 4, 12] && n[1..][1..] == [4, 4, 12] && n[1..][1..][1..] == [4, 12];
    assert n[1..][1..][1..][1..] == [12] && n[1..][1..][1..][1..][1..] == [];
    GroupsFitAt(p, n);
  }

  lemma {:induction false} GroupsFitAt(p: seq<string>, lengths: seq<nat>)
    ensures GroupsFit(p, lengths) <==> |p| == |lengths| && forall i :: 0 <= i < |p| ==> |p[i]| == lengths[i] && AllHex(p[i])
  {
    if lengths != [] && p != [] {
      GroupsFitAt(p[1..], lengths[1..]);
      if |p| == |lengths| && forall i :: 0 <= i < |p| ==> |p[i]| == lengths[i] && AllHex(p[i]) {
        assert forall i :: 0 <= i < |p| - 1 ==> p[1..][i] == p[i + 1] && lengths[1..][i] == lengths[i + 1];
      }
      if GroupsFit(p, lengths) {
        assert forall i :: 1 <= i < |p| ==> p[i] == p[1..][i - 1] && lengths[i] == lengths[1..][i - 1];
      }
    }
  }

  lemma PositionsFromShape(s: string)
    requires IsUuidShaped(s)
    ensures UuidByPosition(s)
  {
    var p := Split(s, '-');
    FiveGroups(p);
    SplitJoins(s);
    JoinFive(p);
    var t := p[0] + "-" + (p[1] + "-" + (p[2] + "-" + (p[3] + "-" + p[4])));
    assert s == t && |t| == 36;
    hide IsUuidShaped, Split, Join, GroupsFit;
    forall i | 0 <= i < 36 ensures if i in {8, 13, 18, 23} then s[i] == '-' else IsHex(s[i]) {
      if i < 8 {
        assert t[i] == p[0][i];
      } else if 9 <= i < 13 {
        assert t[i] == p[1][i - 9];
      } else if 14 <= i < 18 {
        assert t[i] == p[2][i - 14];
      } else if 19 <= i < 23 {
        assert t[i] == p[3][i - 19];
      } else if i >= 24 {
        assert t[i] == p[4][i - 24];
      }
    }
  }

  lemma JoinFive(p: seq<string>)
    requires |p| == 5
    ensures Join(p) == p[0] + "-" + (p[1] + "-" + (p[2] + "-" + (p[3] + "-" + p[4])))
  {
    assert p[1..][1..] == p[2..] && p[2..][1..] == p[3..] && p[3..][1..] == p[4..];
    assert Join(p[4..]) == p[4] && Join(p[3..]) == p[3] + "-" + p[4];
    assert Join(p[2..]) == p[2] + "-" + Join(p[3..]) && Join(p[1..]) == p[1] + "-" + Join(p[2..]);
  }

  /** Grouping and position say the same. */
  lemma UuidShape(s: string)
    ensures IsUuidShaped(s) <==> UuidByPosition(s)
  {
    if IsUuidShaped(s) {
      PositionsFromShape(s);
    } else if UuidByPosition(s) {
      ShapeFromPositions(s);
    }
  }

  // ---------------------------------------------------------------- what a command line names

  predicate IsFlag(word: string) {
    word == "--resume" || word == "--session-id" || word == "-r"
  }

  /** The text after `<flag>=`. */
  function FlagValue(word: string): Option<string> {
    if "--resume=" <= word then Some(word[9..])
    else if "--session-id=" <= word then Some(word[13..])
    else if "-r=" <= word then Some(word[3..])
    else None
  }

  /** The ids found from here on, knowing whether a flag has just asked for a value. */
  function Ids(words: seq<string>, wantValue: bool): seq<string> {
    if words == [] then []
    else if wantValue && IsUuidShaped(words[0]) then [words[0]] + Ids(words[1..], false)
    else if IsFlag(words[0]) then Ids(words[1..], true)
    else if FlagValue(words[0]).Some? && IsUuidShaped(FlagValue(words[0]).value) then [FlagValue(words[0]).value] + Ids(words[1..], false)
    else Ids(words[1..], false)
  }

  datatype ProcInfo = ProcInfo(pid: nat, cwd: Option<Path>, argv: seq<string>, opaqueArgs: bool, started: Option<nat>) {
    function SessionIds(): seq<string> {
      Ids(WordsOf(argv), false)
    }

    predicate NamesASession() {
      SessionIds() != []
    }

    /** The CLI itself, by the file name of its first argument. */
    predicate IsClaude() {
      argv != [] && FileName(argv[0]) == Some("claude")
    }

    /** Positively in this directory, and on no session that its command line names. */
    predicate IsUnpinnedClaudeIn(dir: Path) {
      IsClaude() && !NamesASession() && cwd == Some(dir)
    }

    /** Could be on any session anywhere. */
    predicate IsUnlocatable() {
      opaqueArgs || (IsClaude() && !NamesASession() && cwd.None?)
    }
  }

  function Significant(parts: seq<string>): seq<string> {
    if parts == [] then []
    else if parts[0] == "" || parts[0] == "." then Significant(parts[1..])
    else [parts[0]] + Significant(parts[1..])
  }

  function LastName(parts: seq<string>): Option<string> {
    if parts == [] || parts[|parts| - 1] == ".." then None else Some(parts[|parts| - 1])
  }

  /** The last component of a path, unless that is the parent directory. */
  function FileName(path: string): Option<string> {
    LastName(Significant(Split(path, '/')))
  }

  lemma OneIdMore(out: seq<string>, rest: seq<string>)
    ensures forall id: string :: out + ([id] + rest) == out + [id] + rest
  {}

  lemma NoMoreIds()
    ensures Ids([], false) == [] && Ids([], true) == []
  {}

  lemma IdsStep(words: seq<string>, i: nat, wantValue: bool)
    requires i < |words|
    ensures var word, rest, v := words[i], words[i + 1..], FlagValue(words[i]);
            Ids(words[i..], wantValue)
            == if wantValue && IsUuidShaped(word) then [word] + Ids(rest, false)
               else if IsFlag(word) then Ids(rest, true)
               else if v.Some? && IsUuidShaped(v.value) then [v.value] + Ids(rest, false)
               else Ids(rest, false)
  {
    assert words[i..][0] == words[i] && words[i..][1..] == words[i + 1..];
    hide IsUuidShaped, FlagValue, IsFlag;
  }

  /** The command line read word by word. */
  method SessionIdsOf(p: ProcInfo) returns (out: seq<string>)
    ensures out == p.SessionIds()
  {
    out := [];
    var wantValue := false;
    var words := WordsOf(p.argv);
    assert words[0..] == words;
    ghost var all := Ids(words, false);
    NoMoreIds();
    assert [] + all == all;
    hide WordsOf, IsUuidShaped, FlagValue, IsFlag, Ids;
    for i := 0 to |words|
      invariant out + Ids(words[i..], wantValue) == all
    {
      var word := words[i];
      IdsStep(words, i, wantValue);
      OneIdMore(out, Ids(words[i + 1..], false));
      if wantValue {
        wantValue := false;
        if IsUuidShaped(word) {
          out := out + [word];
          continue;
        }
      }
      if IsFlag(word) {
        wantValue := true;
      } else {
        var v := FlagValue(word);
        if v.Some? && IsUuidShaped(v.value) {
          out := out + [v.value];
        }
      }
    }
    assert words[|words|..] == [] && out + [] == out;
  }

  /** A word that can be a flag or carry one is not shaped like an id. */
  lemma FlagsAreNoIds(word: string)
    requires IsFlag(word) || FlagValue(word).Some?
    ensures !IsUuidShaped(word)
  {
    UuidShape(word);
    if |word| == 36 {
      assert word[0] == '-';
      assert !IsHex(word[0]);
    }
  }

  /** The id stands right after a session flag, or is joined to one. */
  ghost predicate NamedAt(words: seq<string>, id: string, i: nat) {
    && i < |words|
    && ((i > 0 && (words[i - 1] == "--resume" || words[i - 1] == "--session-id" || words[i - 1] == "-r") && words[i] == id)
        || words[i] == "--resume=" + id || words[i] == "--session-id=" + id || words[i] == "-r=" + id)
  }

  /** The code's reading of flags is the literal one. */
  lemma FlagsSpelled(word: string, id: string)
    ensures IsFlag(word) <==> word == "--resume" || word == "--session-id" || word == "-r"
    ensures FlagValue(word) == Some(id) <==> word == "--resume=" + id || word == "--session-id=" + id || word == "-r=" + id
  {
    if "--session-id=" <= word {
      NotPrefix("--resume=", word, 2);
    }
    if "-r=" <= word {
      NotPrefix("--resume=", word, 1);
      NotPrefix("--session-id=", word, 1);
    }
    if FlagValue(word).Some? {
      var f := if "--resume=" <= word then "--resume=" else if "--session-id=" <= word then "--session-id=" else "-r=";
      assert word == f + word[|f|..];
    }
    assert "--resume=" <= "--resume=" + id && ("--resume=" + id)[9..] == id;
    assert "--session-id=" <= "--session-id=" + id && ("--session-id=" + id)[13..] == id;
    assert "-r=" <= "-r=" + id && ("-r=" + id)[3..] == id;
  }

  /** A name further on in the rest is a name one further on in the whole, and there is none besides but at the first two words. */
  lemma NamedFurtherOn(words: seq<string>, id: string)
    requires words != []
    ensures (exists i :: NamedAt(words, id, i))
            <==> (exists i :: NamedAt(words[1..], id, i)) || FlagValue(words[0]) == Some(id)
                 || (IsFlag(words[0]) && |words| > 1 && words[1] == id)
  {
    var rest := words[1..];
    FlagsSpelled(words[0], id);
    hide FlagValue, IsFlag;
    forall i: nat | NamedAt(words, id, i) && i > 0 ensures NamedAt(rest, id, i - 1) || (IsFlag(words[0]) && |words| > 1 && words[1] == id) {
      assert words[i] == rest[i - 1] && (i > 1 ==> words[i - 1] == rest[i - 2]);
    }
    forall i: nat | NamedAt(rest, id, i) ensures NamedAt(words, id, i + 1) {
      assert rest[i] == words[i + 1] && (i > 0 ==> rest[i - 1] == words[i]);
    }
    if FlagValue(words[0]) == Some(id) {
      assert NamedAt(words, id, 0);
    }
    if IsFlag(words[0]) && |words| > 1 && words[1] == id {
      assert NamedAt(words, id, 1);
    }
  }

  lemma FlagIsNoValue(word: string)
    requires IsFlag(word)
    ensures FlagValue(word).None?
  {
    if word == "--session-id" {
      NotPrefix("--resume=", word, 2);
    }
    if |word| > 2 {
      NotPrefix("-r=", word, 1);
    }
  }

  lemma NotPrefix(a: string, b: string, i: nat)
    requires i < |a| && i < |b| && a[i] != b[i]
    ensures !(a <= b)
  {}

  lemma {:induction false} IdsAreNamed(words: seq<string>, wantValue: bool, id: string)
    ensures id in Ids(words, wantValue) <==>
              IsUuidShaped(id) && ((wantValue && words != [] && words[0] == id) || exists i :: NamedAt(words, id, i))
  {
    hide IsUuidShaped, FlagValue, IsFlag, NamedAt;
    if words == [] {
      assert forall i :: !NamedAt(words, id, i) by { NothingNamed(id); }
    } else {
      var word, rest := words[0], words[1..];
      if IsFlag(word) || FlagValue(word).Some? {
        FlagsAreNoIds(word);
      }
      if IsFlag(word) {
        FlagIsNoValue(word);
      }
      NamedFurtherOn(words, id);
      assert |words| > 1 ==> rest[0] == words[1];
      IdsAreNamed(rest, IsFlag(word), id);
    }
  }

  lemma NothingNamed(id: string)
    ensures forall i :: !NamedAt([], id, i)
  {}

  ghost predicate Names(words: seq<string>, id: string) {
    UuidByPosition(id) && exists i :: NamedAt(words, id, i)
  }

  /** What a command line pins: the ids in a flag's position, and no others. */
  lemma PinnedExactly(p: ProcInfo, id: string)
    ensures id in p.SessionIds() <==> Names(WordsOf(p.argv), id)
  {
    UuidShape(id);
    IdsAreNamed(WordsOf(p.argv), false, id);
  }

  // ---------------------------------------------------------------- words

  /** White space separates words, wherever it is and however much of it there is. */
  lemma {:induction false} SplitAtSpace(a: string, c: char, b: string, word: string)
    requires c == ' ' || '\t' <= c <= '\r'
    ensures SplitWords(a + [c] + b, word) == SplitWords(a, word) + SplitWords(b, "")
    decreases |a|
  {
    var s := a + [c] + b;
    if a == "" {
      assert s[0] == c && s[1..] == b;
    } else {
      assert s[0] == a[0] && s[1..] == a[1..] + [c] + b;
      SplitAtSpace(a[1..], c, b, if IsSpace(a[0]) then "" else word + [a[0]]);
      if IsSpace(a[0]) {
        var first := if word == "" then [] else [word];
        assert first + (SplitWords(a[1..], "") + SplitWords(b, "")) == first + SplitWords(a[1..], "") + SplitWords(b, "");
      }
    }
  }

  /** Text without white space is one word. */
  lemma {:induction false} OneWord(w: string, word: string)
    requires forall i :: 0 <= i < |w| ==> !(w[i] == ' ' || '\t' <= w[i] <= '\r')
    ensures SplitWords(w, word) == if word + w == "" then [] else [word + w]
    decreases |w|
  {
    if w == "" {
      assert word + w == word;
    } else {
      assert word + w == (word + [w[0]]) + w[1..];
      OneWord(w[1..], word + [w[0]]);
    }
  }

  lemma {:induction false} WordsAppend(a: seq<string>, b: seq<string>)
    ensures WordsOf(a + b) == WordsOf(a) + WordsOf(b)
  {
    if a == [] {
      assert a + b == b;
    } else {
      assert (a + b)[1..] == a[1..] + b;
      WordsAppend(a[1..], b);
      assert SplitWords(a[0], "") + (WordsOf(a[1..]) + WordsOf(b)) == SplitWords(a[0], "") + WordsOf(a[1..]) + WordsOf(b);
    }
  }

  lemma WordsOfOne(arg: string)
    ensures WordsOf([arg]) == SplitWords(arg, "")
  {
    assert [arg][1..] == [] && SplitWords(arg, "") + [] == SplitWords(arg, "");
  }

  /** The words of `before` + `mid` + `after` when they are arguments of their own. */
  lemma WordsAround(before: seq<string>, mid: seq<string>, after: seq<string>)
    ensures WordsOf(before + mid + after) == WordsOf(before) + WordsOf(mid) + WordsOf(after)
  {
    WordsAppend(before + mid, after);
    WordsAppend(before, mid);
  }

  predicate SessionFlag(flag: string) {
    flag == "--resume" || flag == "--session-id" || flag == "-r"
  }

  predicate NoSpace(w: string) {
    forall i :: 0 <= i < |w| ==> !(w[i] == ' ' || '\t' <= w[i] <= '\r')
  }

  lemma IdNoSpace(id: string)
    requires UuidByPosition(id)
    ensures NoSpace(id) && id != ""
  {
    forall i | 0 <= i < |id| ensures !(id[i] == ' ' || '\t' <= id[i] <= '\r') {
      assert if i in {8, 13, 18, 23} then id[i] == '-' else IsHex(id[i]);
    }
  }

  lemma NoSpaceAppend(a: string, b: string)
    requires NoSpace(a) && NoSpace(b)
    ensures NoSpace(a + b)
  {}

  lemma IsOneWord(w: string)
    requires NoSpace(w) && w != ""
    ensures SplitWords(w, "") == [w]
  {
    OneWord(w, "");
    assert "" + w == w;
  }

  lemma PlainWords(flag: string, id: string)
    requires SessionFlag(flag) && UuidByPosition(id)
    ensures SplitWords(flag, "") == [flag] && SplitWords(id, "") == [id] && SplitWords(flag + "=" + id, "") == [flag + "=" + id]
  {
    IdNoSpace(id);
    assert NoSpace(flag) && flag != "" && NoSpace("=");
    hide UuidByPosition, SplitWords, NoSpace, SessionFlag;
    NoSpaceAppend(flag, "=");
    NoSpaceAppend(flag + "=", id);
    IsOneWord(flag);
    IsOneWord(id);
    IsOneWord(flag + "=" + id);
  }

  /** Words with a flag and the id after it, or the two joined, name the id. */
  lemma FlagNames(a: seq<string>, flag: string, id: string, b: seq<string>)
    requires SessionFlag(flag) && UuidByPosition(id)
    ensures Names(a + [flag, id] + b, id) && Names(a + [flag + "=" + id] + b, id)
  {
    assert NamedAt(a + [flag, id] + b, id, |a| + 1);
    assert NamedAt(a + [flag + "=" + id] + b, id, |a|);
  }

  /**
   * On the command line: whatever stands before and after, a session flag and a
   * uuid-shaped id pin the id, as two arguments, as one joined with `=`, and
   * either way as words in the middle of one argument, between any white space.
   */
  lemma CommandLinePins(p: ProcInfo, before: seq<string>, flag: string, id: string, after: seq<string>, x: string, c: char, d: char, e: char, y: string)
    requires SessionFlag(flag) && UuidByPosition(id)
    requires IsSpace(c) && IsSpace(d) && IsSpace(e)
    ensures p.argv == before + [flag, id] + after ==> id in p.SessionIds()
    ensures p.argv == before + [flag + "=" + id] + after ==> id in p.SessionIds()
    ensures p.argv == before + [x + [c] + flag + [d] + id + [e] + y] + after ==> id in p.SessionIds()
    ensures p.argv == before + [x + [c] + (flag + "=" + id) + [e] + y] + after ==> id in p.SessionIds()
  {
    hide SplitWords, WordsOf, Names, ProcInfo.SessionIds, UuidByPosition, SessionFlag;
    PinnedExactly(p, id);
    PlainWords(flag, id);
    var b, f, i, j, a := WordsOf(before), flag, id, flag + "=" + id, WordsOf(after);
    if p.argv == before + [flag, id] + after {
      WordsAround(before, [flag, id], after);
      assert [flag, id] == [flag] + [id];
      WordsAppend([flag], [id]);
      WordsOfOne(flag);
      WordsOfOne(id);
      assert WordsOf(p.argv) == b + [f, i] + a;
      FlagNames(b, f, i, a);
    }
    if p.argv == before + [flag + "=" + id] + after {
      WordsAround(before, [j], after);
      WordsOfOne(j);
      FlagNames(b, f, i, a);
    }
    if p.argv == before + [x + [c] + flag + [d] + id + [e] + y] + after {
      var arg := x + [c] + flag + [d] + id + [e] + y;
      WordsAround(before, [arg], after);
      WordsOfOne(arg);
      SplitAtSpace(x + [c] + flag + [d] + id, e, y, "");
      SplitAtSpace(x + [c] + flag, d, id, "");
      SplitAtSpace(x, c, flag, "");
      var u, v := SplitWords(x, ""), SplitWords(y, "");
      assert WordsOf(p.argv) == (b + u) + [f, i] + (v + a);
      FlagNames(b + u, f, i, v + a);
    }
    if p.argv == before + [x + [c] + (flag + "=" + id) + [e] + y] + after {
      var arg := x + [c] + j + [e] + y;
      WordsAround(before, [arg], after);
      WordsOfOne(arg);
      SplitAtSpace(x + [c] + j, e, y, "");
      SplitAtSpace(x, c, j, "");
      var u, v := SplitWords(x, ""), SplitWords(y, "");
      assert WordsOf(p.argv) == (b + u) + [j] + (v + a);
      FlagNames(b + u, f, i, v + a);
    }
  }

  // ---------------------------------------------------------------- which processes are the CLI

  /** What may follow a file name without being one: slashes, and `.` between or after them. */
  predicate Trail(t: string) {
    t == "" || (t[0] == '/' && Trail(t[1..])) || (|t| >= 2 && t[0] == '/' && t[1] == '.' && (|t| == 2 || t[2] == '/') && Trail(t[2..]))
  }

  lemma {:induction false} SplitAt(a: string, sep: char, b: string)
    ensures Split(a + [sep] + b, sep) == Split(a, sep) + Split(b, sep)
    decreases |a|
  {
    var s := a + [sep] + b;
    if a == "" {
      assert s[0] == sep && s[1..] == b;
    } else {
      assert s[0] == a[0] && s[1..] == a[1..] + [sep] + b;
      SplitAt(a[1..], sep, b);
      var x, y := Split(a[1..], sep), Split(b, sep);
      assert (x + y)[0] == x[0] && (x + y)[1..] == x[1..] + y;
      assert a[0] != sep ==> [[a[0]] + x[0]] + (x[1..] + y) == ([[a[0]] + x[0]] + x[1..]) + y;
      assert a[0] == sep ==> [""] + (x + y) == ([""] + x) + y;
    }
  }

  lemma {:induction false} SplitWhole(a: string, sep: char)
    requires sep !in a
    ensures Split(a, sep) == [a]
  {
    if a != "" {
      assert a[0] in a && forall c :: c in a[1..] ==> c in a;
      SplitWhole(a[1..], sep);
      assert [a[1..]][1..] == [] && [a[0]] + a[1..] == a;
    }
  }

  /** The index of the first slash, or the length. */
  function FirstSlash(s: string): (i: nat)
    ensures i <= |s| && '/' !in s[..i] && (i < |s| ==> s[i] == '/')
  {
    if s == "" || s[0] == '/' then 0
    else
      var i := FirstSlash(s[1..]) + 1;
      assert s[..i] == [s[0]] + s[1..][..i - 1];
      i
  }

  /** A path is its first part, or that part, a slash and the rest. */
  lemma FirstPart(path: string, i: nat)
    requires i <= |path| && '/' !in path[..i] && (i < |path| ==> path[i] == '/')
    ensures i == |path| ==> Split(path, '/') == [path]
    ensures i < |path| ==> Split(path, '/') == [path[..i]] + Split(path[i + 1..], '/')
  {
    hide Split;
    if i == |path| {
      assert path[..i] == path;
      SplitWhole(path, '/');
    } else {
      assert path == path[..i] + ['/'] + path[i + 1..];
      SplitWhole(path[..i], '/');
      SplitAt(path[..i], '/', path[i + 1..]);
    }
  }

  predicate Signifies(part: string) {
    part != "" && part != "."
  }

  lemma SignificantOne(part: string, rest: seq<string>)
    ensures Significant([part] + rest) == (if Signifies(part) then [part] else []) + Significant(rest)
    ensures Significant([part]) == if Signifies(part) then [part] else []
  {
    assert ([part] + rest)[1..] == rest && [part][1..] == [];
  }

  lemma SignificantParts(path: string, i: nat)
    requires i == FirstSlash(path)
    ensures var first := if Signifies(path[..i]) then [path[..i]] else [];
            Significant(Split(path, '/')) == if i == |path| then first else first + Significant(Split(path[i + 1..], '/'))
  {
    hide Split, Significant, FirstSlash;
    FirstPart(path, i);
    if i == |path| {
      assert path[..i] == path;
      SignificantOne(path, []);
    } else {
      SignificantOne(path[..i], Split(path[i + 1..], '/'));
    }
  }

  /** A part right after a slash can be in a trail only if it does not signify. */
  lemma TrailPart(t: string, i: nat)
    requires t != "" && t[0] == '/' && i == FirstSlash(t[1..])
    ensures Trail(t) <==> !Signifies(t[1..][..i]) && Trail(t[i + 1..])
  {
    var u := t[1..];
    assert t[i + 1..] == u[i..];
    if i == 0 {
      assert u[..0] == "" && t[1..] == t[i + 1..];
      assert |t| >= 2 ==> t[1] == u[0] == '/';
    } else {
      assert u[0] in u[..i] && t[1] == u[0] && t[1] != '/';
      if i == 1 {
        assert u[..i] == [u[0]] && (|t| == 2 || t[2] == u[1] == '/');
        assert t[1..] == u && !Trail(u);
        assert u[..i] == "." <==> u[0] == '.';
      } else {
        assert u[1] in u[..i] && t[2] == u[1] && t[2] != '/';
        assert u[..i] != "." && u[..i] != "";
        assert t[1..] == u && !Trail(u);
      }
    }
  }

  /** A trail is what has no parts that signify. */
  lemma {:induction false} TrailSignifiesNothing(t: string)
    requires t != "" && t[0] == '/'
    ensures Trail(t) <==> Significant(Split(t[1..], '/')) == []
    decreases |t|
  {
    var i := FirstSlash(t[1..]);
    TrailPart(t, i);
    SignificantParts(t[1..], FirstSlash(t[1..]));
    var rest := t[i + 1..];
    assert i < |t| - 1 ==> rest[1..] == t[1..][i + 1..] && rest[0] == t[1..][i];
    if i < |t| - 1 {
      TrailSignifiesNothing(rest);
    } else {
      assert rest == "" && Trail(rest);
    }
  }

  /** At k stands `claude`, between slashes or the ends, with no part after it that signifies. */
  predicate ClaudeAt(path: string, k: nat) {
    && k + 6 <= |path| && path[k..k + 6] == "claude" && (k == 0 || path[k - 1] == '/')
    && (k + 6 == |path| || path[k + 6] == '/') && Trail(path[k + 6..])
  }

  lemma ClaudeLater(path: string, i: nat, k: nat)
    requires i < |path| && path[i] == '/'
    ensures ClaudeAt(path[i + 1..], k) <==> ClaudeAt(path, i + 1 + k)
  {
    var rest := path[i + 1..];
    if k + 6 <= |rest| {
      assert rest[k..k + 6] == path[i + 1 + k..i + 1 + k + 6] && rest[k + 6..] == path[i + 1 + k + 6..];
      assert k > 0 ==> rest[k - 1] == path[i + 1 + k - 1];
      assert k + 6 < |rest| ==> rest[k + 6] == path[i + 1 + k + 6];
    }
  }

  lemma {:induction false} SlashBounds(path: string, j: nat)
    requires j < |path| && path[j] == '/'
    ensures FirstSlash(path) <= j
  {
    if j > 0 && path[0] != '/' {
      SlashBounds(path[1..], j - 1);
    }
  }

  /** The first part is `claude`, and nothing after it signifies. */
  predicate ClaudeLeads(path: string, i: nat) {
    i <= |path| && path[..i] == "claude" && (i == |path| || Significant(Split(path[i + 1..], '/')) == [])
  }

  /** Before the first slash it can stand only at the beginning. */
  lemma ClaudeFirst(path: string, i: nat, k: nat)
    requires i == FirstSlash(path) && k <= i
    ensures ClaudeAt(path, k) <==> k == 0 && ClaudeLeads(path, i)
  {
    hide Significant, Split;
    assert 0 < k ==> path[k - 1] == path[..i][k - 1] && path[k - 1] in path[..i];
    if i < |path| {
      TrailSignifiesNothing(path[i..]);
      assert path[i..][1..] == path[i + 1..];
    }
    if k == 0 && ClaudeAt(path, 0) {
      var c := path[0..6];
      assert forall j :: 0 <= j < 6 ==> path[j] == c[j] && c[j] != '/';
      assert i >= 6;
      if 6 < |path| {
        SlashBounds(path, 6);
      }
      assert i == 6 && path[..i] == c;
    }
    if path[..i] == "claude" {
      assert i == 6 && path[0..6] == path[..i];
      assert i == |path| ==> path[6..] == "";
    }
  }

  ghost predicate HasClaude(path: string) {
    exists k: nat :: ClaudeAt(path, k)
  }

  lemma ClaudeSomewhere(path: string, i: nat, k: nat)
    requires i == FirstSlash(path) && ClaudeAt(path, k)
    ensures ClaudeLeads(path, i) || (i < |path| && HasClaude(path[i + 1..]))
  {
    hide Split, Significant, ClaudeAt, FirstSlash, ClaudeLeads;
    if k <= i {
      ClaudeFirst(path, i, k);
    } else if i == |path| {
      NotPastTheEnd(path, k);
    } else {
      ClaudeLater(path, i, k - i - 1);
    }
  }

  lemma ClaudeFurtherOn(path: string, i: nat, k: nat)
    requires i < |path| && path[i] == '/' && ClaudeAt(path[i + 1..], k)
    ensures HasClaude(path)
  {
    hide ClaudeAt;
    ClaudeLater(path, i, k);
  }

  /** It stands at the beginning or after the first slash. */
  lemma ClaudePlaces(path: string, i: nat)
    requires i == FirstSlash(path)
    ensures HasClaude(path) <==> ClaudeLeads(path, i) || (i < |path| && HasClaude(path[i + 1..]))
  {
    ClaudeFirst(path, i, 0);
    hide Split, Significant, ClaudeAt, FirstSlash, ClaudeLeads;
    if HasClaude(path) {
      var k: nat :| ClaudeAt(path, k);
      ClaudeSomewhere(path, i, k);
    }
    if i < |path| && HasClaude(path[i + 1..]) {
      var rest := path[i + 1..];
      var k: nat :| ClaudeAt(rest, k);
      ClaudeFurtherOn(path, i, k);
    }
  }

  lemma LastOfTwo(part: string, later: seq<string>)
    ensures LastName(later) == Some("claude") ==> later != []
    ensures var first := if Signifies(part) then [part] else [];
            && LastName(first) == (if Signifies(part) && part != ".." then Some(part) else None)
            && (if later == [] then LastName(first + later) == LastName(first) else LastName(first + later) == LastName(later))
  {
    var first := if Signifies(part) then [part] else [];
    assert later == [] ==> first + later == first;
    assert later != [] ==> (first + later)[|first + later| - 1] == later[|later| - 1];
  }

  lemma FileNameParts(path: string, i: nat)
    requires i == FirstSlash(path)
    ensures FileName(path) == Some("claude") <==>
            ClaudeLeads(path, i) || (i < |path| && FileName(path[i + 1..]) == Some("claude"))
  {
    SignificantParts(path, i);
    assert Signifies("claude") && "claude" != "..";
    var later := if i < |path| then Significant(Split(path[i + 1..], '/')) else [];
    LastOfTwo(path[..i], later);
    var first := if Signifies(path[..i]) then [path[..i]] else [];
    assert first + [] == first;
    hide Split, Significant, FirstSlash, LastName, Signifies;
  }

  /** The file name is `claude` exactly if it stands somewhere as the last part that signifies. */
  lemma {:induction false} NamesClaude(path: string)
    ensures FileName(path) == Some("claude") <==> HasClaude(path)
    decreases |path|
  {
    var i := FirstSlash(path);
    ClaudePlaces(path, i);
    FileNameParts(path, i);
    hide FileName, HasClaude, ClaudeLeads;
    if i < |path| {
      NamesClaude(path[i + 1..]);
    }
  }

  lemma NotPastTheEnd(path: string, k: nat)
    requires k > |path|
    ensures !ClaudeAt(path, k)
  {}

  lemma BareClaude()
    ensures ClaudeAt("claude", 0)
  {
    var path := "claude";
    assert path[0..6] == "claude" && path[6..] == "";
  }

  lemma ClaudeUnder(dir: string)
    ensures ClaudeAt(dir + "/claude", |dir| + 1)
  {
    var path, k := dir + "/claude", |dir| + 1;
    assert path[k..k + 6] == "claude" && path[k - 1] == '/' && path[k + 6..] == "";
  }

  /** What is taken for the CLI: a first argument `claude`, or a path to it, also one with slashes after it; whatever the other arguments. */
  lemma ClaudeExactly(p: ProcInfo)
    ensures p.IsClaude() <==> p.argv != [] && exists k: nat :: ClaudeAt(p.argv[0], k)
    ensures forall dir: string, rest: seq<string> :: p.argv == ["claude"] + rest || p.argv == [dir + "/claude"] + rest ==> p.IsClaude()
  {
    if p.argv != [] {
      NamesClaude(p.argv[0]);
      hide FileName;
      BareClaude();
      assert p.argv[0] == "claude" ==> ClaudeAt(p.argv[0], 0);
      forall dir: string | p.argv[0] == dir + "/claude" ensures exists k: nat :: ClaudeAt(p.argv[0], k) {
        ClaudeUnder(dir);
      }
    }
  }

  // ---------------------------------------------------------------- the classifier

  datatype Live = Free | Live | Unknown
  datatype Reason = ThisSession | Undecidable | WrittenSinceStart
  datatype Verdict = Verdict(live: Live, reason: Option<Reason>)

  const FREE: Verdict := Verdict(Free, None)

  function Blocked(live: Live, reason: Reason): Verdict {
    Verdict(live, Some(reason))
  }

  datatype Threshold = All | Since(t: nat)

  function SatSub(a: nat, b: nat): nat {
    if a < b then 0 else a - b
  }

  ghost predicate SomeHere(procs: seq<ProcInfo>, dir: Path) {
    exists p :: p in procs && p.IsUnpinnedClaudeIn(dir)
  }

  ghost predicate AllDated(procs: seq<ProcInfo>, dir: Path) {
    forall p :: p in procs && p.IsUnpinnedClaudeIn(dir) ==> p.started.Some?
  }

  /** t is the earliest start among the unpinned processes here. */
  ghost predicate Earliest(procs: seq<ProcInfo>, dir: Path, t: nat) {
    && (exists p :: p in procs && p.IsUnpinnedClaudeIn(dir) && p.started == Some(t))
    && forall p :: p in procs && p.IsUnpinnedClaudeIn(dir) ==> p.started.Some? && t <= p.started.value
  }

  /** What the threshold must be, given the processes. */
  ghost predicate ThresholdFor(procs: seq<ProcInfo>, dir: Path, r: Option<Threshold>) {
    if !SomeHere(procs, dir) then r == None
    else if !AllDated(procs, dir) then r == Some(All)
    else r.Some? && r.value.Since? && exists e :: Earliest(procs, dir, e) && r.value.t == SatSub(e, START_EPSILON_SECS)
  }

  /** The earliest start, before the margin. */
  function EarliestStart(procs: seq<ProcInfo>, dir: Path): (r: Option<Threshold>)
    ensures r.None? <==> !SomeHere(procs, dir)
    ensures r == Some(All) <==> SomeHere(procs, dir) && !AllDated(procs, dir)
    ensures r.Some? && r.value.Since? ==> Earliest(procs, dir, r.value.t)
  {
    if procs == [] then None
    else
      var rest := EarliestStart(procs[1..], dir);
      FirstOrRest(procs, dir);
      if !procs[0].IsUnpinnedClaudeIn(dir) then rest
      else if procs[0].started.None? then Some(All)
      else if rest.None? then Some(Since(procs[0].started.value))
      else if rest.value.All? then rest
      else Some(Since(Min(rest.value.t, procs[0].started.value)))
  }

  lemma FirstOrRest(procs: seq<ProcInfo>, dir: Path)
    requires procs != []
    ensures forall p :: p in procs <==> p == procs[0] || p in procs[1..]
  {}

  function ThresholdOf(procs: seq<ProcInfo>, dir: Path): (r: Option<Threshold>)
    ensures ThresholdFor(procs, dir, r)
  {
    var e := EarliestStart(procs, dir);
    if e.Some? && e.value.Since? then Some(Since(SatSub(e.value.t, START_EPSILON_SECS))) else e
  }

  lemma ThresholdUnique(procs: seq<ProcInfo>, dir: Path, a: Option<Threshold>, b: Option<Threshold>)
    requires ThresholdFor(procs, dir, a) && ThresholdFor(procs, dir, b)
    ensures a == b
  {
    if SomeHere(procs, dir) && AllDated(procs, dir) {
      var d :| Earliest(procs, dir, d) && a.value.t == SatSub(d, START_EPSILON_SECS);
      var e :| Earliest(procs, dir, e) && b.value.t == SatSub(e, START_EPSILON_SECS);
      assert d == e;
    }
  }

  /** The process table, whether it could be walked, and the transcripts some process has open. */
  datatype LiveProbe = LiveProbe(procs: seq<ProcInfo>, ok: bool, holders: set<Path>) {

    ghost predicate Pinned(uuid: string) {
      exists p :: p in procs && uuid in p.SessionIds()
    }

    ghost predicate Unplaced() {
      exists p: ProcInfo :: p in procs && p.IsUnlocatable()
    }

    /** The decision, signal by signal. */
    ghost function Verdict(uuid: string, jsonl: Path, dir: Path, modified: Option<nat>): Verdict {
      if jsonl in holders then Blocked(Live, ThisSession)
      else if !ok then Blocked(Unknown, Undecidable)
      else if Pinned(uuid) then Blocked(Live, ThisSession)
      else if Unplaced() then Blocked(Unknown, Undecidable)
      else
        match ThresholdOf(procs, dir)
        case None => FREE
        case Some(All) => Blocked(Unknown, Undecidable)
        case Some(Since(t)) =>
          if modified.None? then Blocked(Unknown, Undecidable)
          else if modified.value < t then FREE
          else Blocked(Unknown, WrittenSinceStart)
    }

    /** The earliest start decides; one that cannot be read loses the threshold. */
    method BlockThreshold(dir: Path) returns (r: Option<Threshold>)
      ensures r == ThresholdOf(procs, dir)
    {
      var earliest: Option<nat> := None;
      var any := false;
      hide ProcInfo.IsUnpinnedClaudeIn;
      for i := 0 to |procs|
        invariant any == earliest.Some?
        invariant any <==> SomeHere(procs[..i], dir)
        invariant earliest.Some? ==> Earliest(procs[..i], dir, earliest.value)
      {
        var p := procs[i];
        OneMore(procs, dir, i);
        if p.IsUnpinnedClaudeIn(dir) {
          any := true;
          if p.started.None? {
            ThresholdUnique(procs, dir, Some(All), ThresholdOf(procs, dir));
            return Some(All);
          }
          earliest := Some(if earliest.Some? then Min(earliest.value, p.started.value) else p.started.value);
        }
      }
      assert procs[..|procs|] == procs;
      r := if !any then None else if earliest.None? then Some(All) else Some(Since(SatSub(earliest.value, START_EPSILON_SECS)));
      assert earliest.Some? ==> Earliest(procs, dir, earliest.value);
      ThresholdUnique(procs, dir, r, ThresholdOf(procs, dir));
    }

    method NamesSession(uuid: string) returns (found: bool)
      ensures found == Pinned(uuid)
    {
      for i := 0 to |procs|
        invariant forall j :: 0 <= j < i ==> uuid !in procs[j].SessionIds()
      {
        var ids := SessionIdsOf(procs[i]);
        if uuid in ids {
          assert procs[i] in procs;
          return true;
        }
      }
      found := false;
    }

    method AnyUnlocatable() returns (found: bool)
      ensures found == Unplaced()
    {
      hide ProcInfo.IsUnlocatable;
      for i := 0 to |procs|
        invariant forall j :: 0 <= j < i ==> !procs[j].IsUnlocatable()
      {
        if procs[i].IsUnlocatable() {
          assert procs[i] in procs;
          return true;
        }
      }
      found := false;
    }

    /** The verdict, and whether the file time was asked for: only when it can change the answer. */
    method Classify(uuid: string, jsonl: Path, dir: Path, modified: Option<nat>) returns (v: Verdict, asked: bool)
      ensures v == Verdict(uuid, jsonl, dir, modified)
      ensures !asked ==> forall other :: Verdict(uuid, jsonl, dir, other) == v
      ensures asked ==> exists p :: p in procs && p.IsUnpinnedClaudeIn(dir) && p.started.Some?
    {
      asked := false;
      if jsonl in holders {
        return Blocked(Live, ThisSession), false;
      }
      if !ok {
        return Blocked(Unknown, Undecidable), false;
      }
      var named := NamesSession(uuid);
      if named {
        return Blocked(Live, ThisSession), false;
      }
      var unplaced := AnyUnlocatable();
      if unplaced {
        return Blocked(Unknown, Undecidable), false;
      }
      var threshold := BlockThreshold(dir);
      hide ThresholdOf;
      match threshold {
        case None => v := FREE;
        case Some(All) => v := Blocked(Unknown, Undecidable);
        case Some(Since(t)) =>
          asked := true;
          v := if modified.None? then Blocked(Unknown, Undecidable)
               else if modified.value < t then FREE
               else Blocked(Unknown, WrittenSinceStart);
      }
    }
  }

  lemma OneMore(procs: seq<ProcInfo>, dir: Path, i: nat)
    requires i < |procs|
    ensures forall p :: p in procs[..i + 1] <==> p in procs[..i] || p == procs[i]
    ensures procs[i] in procs
  {
    assert procs[..i + 1] == procs[..i] + [procs[i]];
  }

  // ---------------------------------------------------------------- main results

  /** Every unpinned process here has a readable start, and the file is older than each by more than a minute. */
  ghost predicate OlderThanAll(procs: seq<ProcInfo>, dir: Path, modified: Option<nat>) {
    forall p :: p in procs && p.IsUnpinnedClaudeIn(dir) ==>
      p.started.Some? && modified.Some? && modified.value + 60 < p.started.value
  }

  /** Free exactly when every signal is cleared. */
  lemma FreeExactly(probe: LiveProbe, uuid: string, jsonl: Path, dir: Path, modified: Option<nat>)
    ensures probe.Verdict(uuid, jsonl, dir, modified).live.Free?
            <==> jsonl !in probe.holders && probe.ok && !probe.Pinned(uuid) && !probe.Unplaced()
                 && OlderThanAll(probe.procs, dir, modified)
    ensures probe.Verdict(uuid, jsonl, dir, modified).reason.None? <==> probe.Verdict(uuid, jsonl, dir, modified).live.Free?
    ensures probe.Verdict(uuid, jsonl, dir, modified).live.Live?
            <==> jsonl in probe.holders || (probe.ok && probe.Pinned(uuid))
  {
    hide ProcInfo.IsUnpinnedClaudeIn, LiveProbe.Pinned, LiveProbe.Unplaced;
    var r := ThresholdOf(probe.procs, dir);
    assert ThresholdFor(probe.procs, dir, r);
    hide ThresholdOf;
    if r.Some? && r.value.Since? {
      var e :| Earliest(probe.procs, dir, e) && r.value.t == SatSub(e, START_EPSILON_SECS);
    }
  }

  /**
   * A session resumed by any process that the table shows is live: whatever else
   * the command line holds, wherever the process runs and before it has written a
   * byte.
   */
  lemma ResumedElsewhereIsLive(probe: LiveProbe, p: ProcInfo, before: seq<string>, flag: string, id: string, after: seq<string>,
                               jsonl: Path, dir: Path, modified: Option<nat>)
    requires p in probe.procs && probe.ok && SessionFlag(flag) && UuidByPosition(id)
    requires p.argv == before + [flag, id] + after || p.argv == before + [flag + "=" + id] + after
    ensures probe.Verdict(id, jsonl, dir, modified) == Verdict(Live, Some(ThisSession))
  {
    CommandLinePins(p, before, flag, id, after, "", ' ', ' ', ' ', "");
    assert probe.Pinned(id);
  }

  /** The verdict, with its reason, depends only on which processes there are, not on their order or repetition. */
  lemma OrderDoesNotMatter(a: LiveProbe, b: LiveProbe, uuid: string, jsonl: Path, dir: Path, modified: Option<nat>)
    requires a.ok == b.ok && a.holders == b.holders && forall p :: p in a.procs <==> p in b.procs
    ensures a.Verdict(uuid, jsonl, dir, modified) == b.Verdict(uuid, jsonl, dir, modified)
  {
    hide ProcInfo.IsUnpinnedClaudeIn, ProcInfo.IsUnlocatable, ProcInfo.SessionIds;
    assert forall e :: Earliest(a.procs, dir, e) <==> Earliest(b.procs, dir, e);
    assert ThresholdFor(b.procs, dir, ThresholdOf(a.procs, dir));
    ThresholdUnique(b.procs, dir, ThresholdOf(a.procs, dir), ThresholdOf(b.procs, dir));
    hide ThresholdOf;
  }

  /** Seeing more processes or more open files, or a later write, never frees a session. */
  lemma MoreNeverFrees(a: LiveProbe, b: LiveProbe, uuid: string, jsonl: Path, dir: Path, earlier: Option<nat>, later: Option<nat>)
    requires (forall p :: p in a.procs ==> p in b.procs) && a.holders <= b.holders && (b.ok ==> a.ok)
    requires later.Some? ==> earlier.Some? && earlier.value <= later.value
    requires b.Verdict(uuid, jsonl, dir, later).live.Free?
    ensures a.Verdict(uuid, jsonl, dir, earlier).live.Free?
  {
    FreeExactly(a, uuid, jsonl, dir, earlier);
    FreeExactly(b, uuid, jsonl, dir, later);
    hide LiveProbe.Verdict, ProcInfo.IsUnpinnedClaudeIn, ProcInfo.IsUnlocatable, ProcInfo.SessionIds;
  }

  // ---------------------------------------------------------------- against the world

  /** A CLI process as it really is: its command line, its directory, when it started. */
  datatype Actual = Actual(argv: seq<string>, dir: Path, start: nat)

  /**
   * A table entry is an honest view of a process: unreadable parts are marked
   * so, and a measured start is at most the margin later than the true one.
   */
  predicate SeenAs(h: Actual, p: ProcInfo) {
    p.opaqueArgs
    || (p.argv == h.argv && (p.cwd.None? || p.cwd == Some(h.dir))
        && (p.started.Some? ==> p.started.value <= h.start + START_EPSILON_SECS))
  }

  function Bare(h: Actual): ProcInfo {
    ProcInfo(0, Some(h.dir), h.argv, false, Some(h.start))
  }

  /** The process is a CLI on this session: pinned to it, or unpinned in its directory. */
  ghost predicate OnSession(h: Actual, uuid: string, dir: Path) {
    Bare(h).IsClaude() && (uuid in Bare(h).SessionIds() || (!Bare(h).NamesASession() && h.dir == dir))
  }

  /**
   * Soundness: while any visible CLI process is on the session, and an unpinned
   * one has written the transcript since it started, the session is not free.
   */
  lemma NeverFreeWhileHeld(probe: LiveProbe, uuid: string, jsonl: Path, dir: Path, modified: Option<nat>, h: Actual, written: nat)
    requires OnSession(h, uuid, dir) && exists p :: p in probe.procs && SeenAs(h, p)
    requires uuid in Bare(h).SessionIds() || h.start <= written
    requires modified.Some? ==> written <= modified.value
    ensures !probe.Verdict(uuid, jsonl, dir, modified).live.Free?
  {
    FreeExactly(probe, uuid, jsonl, dir, modified);
    var p :| p in probe.procs && SeenAs(h, p);
    assert !p.opaqueArgs ==> p.SessionIds() == Bare(h).SessionIds() && p.IsClaude() == Bare(h).IsClaude();
    hide LiveProbe.Verdict, ProcInfo.SessionIds, ProcInfo.IsClaude;
    if p.opaqueArgs || (p.cwd.None? && !p.NamesASession()) {
      assert p.IsUnlocatable();
    } else if uuid in p.SessionIds() {
      assert probe.Pinned(uuid);
    } else {
      assert p.IsUnpinnedClaudeIn(dir);
    }
  }

  /**
   * The residual hole, exactly: with one unpinned CLI here, placed and dated,
   * the session is free if and only if its transcript is older than that start
   * by more than the margin. So a session resumed but not yet written to is
   * missed, and so is one written to if the measured start is late enough.
   */
  lemma LonePlacedProcess(uuid: string, jsonl: Path, dir: Path, modified: nat, p: ProcInfo, start: nat)
    requires p.IsUnpinnedClaudeIn(dir) && !p.opaqueArgs && p.started == Some(start)
    ensures LiveProbe([p], true, {}).Verdict(uuid, jsonl, dir, Some(modified)).live.Free? <==> modified + 60 < start
  {
    var probe := LiveProbe([p], true, {});
    FreeExactly(probe, uuid, jsonl, dir, Some(modified));
    assert p in probe.procs;
    assert !probe.Pinned(uuid) && !probe.Unplaced();
    hide LiveProbe.Verdict;
  }
}
