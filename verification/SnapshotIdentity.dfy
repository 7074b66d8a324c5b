/**
 * The identity of a transcript snapshot: its stat, the one "same content"
 * predicate, and the cheap tail scan that must agree with the full scan.
 *
 * A record parser is a parameter: `uuid(line)` is the uuid of the record on that
 * line, None when the line is blank, malformed or carries none.
 */
module SnapshotIdentity {
  import opened Wrappers

  datatype Stat = Stat(bytes: nat, lines: nat, lastUuid: Option<string>)

  predicate SameContent(a: Stat, b: Stat) {
    && a.lines == b.lines
    && (if a.lastUuid.Some? && b.lastUuid.Some? then a.lastUuid == b.lastUuid else a.bytes == b.bytes)
  }

  /**
   * Same content is reflexive and symmetric, never holds of different line counts
   * or of different last uuids, and is transitive among snapshots that all carry a
   * uuid and among those that all lack one.
   */
  lemma SameContentLaws(a: Stat, b: Stat, c: Stat)
    ensures SameContent(a, a)
    ensures SameContent(a, b) <==> SameContent(b, a)
    ensures SameContent(a, b) ==> a.lines == b.lines && (a.lastUuid.Some? && b.lastUuid.Some? ==> a.lastUuid == b.lastUuid)
    ensures a.lastUuid.Some? == b.lastUuid.Some? == c.lastUuid.Some? && SameContent(a, b) && SameContent(b, c) ==> SameContent(a, c)
  {}

  /** Two different transcripts, each the same as a uuid-less third. */
  lemma SameContentNotTransitive() returns (a: Stat, b: Stat, c: Stat)
    ensures SameContent(a, b) && SameContent(b, c) && !SameContent(a, c)
  {
    a, b, c := Stat(9, 1, Some("x")), Stat(9, 1, None), Stat(9, 1, Some("y"));
  }

  // ---------------------------------------------------------------- lines

  /** The index of the first newline at or after i, or the length. */
  function FindNewline(s: string, i: nat): (r: nat)
    requires i <= |s|
    ensures i <= r <= |s|
    ensures forall j :: i <= j < r ==> s[j] != '\n'
    ensures r < |s| ==> s[r] == '\n'
    decreases |s| - i
  {
    if i == |s| || s[i] == '\n' then i else FindNewline(s, i + 1)
  }

  function StripCr(line: string): string {
    if line != [] && line[|line| - 1] == '\r' then line[..|line| - 1] else line
  }

  /** The lines of a text: split after newlines, the terminator dropped, no empty line after the last one. */
  function Lines(s: string): seq<string>
    decreases |s|
  {
    if s == [] then []
    else
      var e := FindNewline(s, 0);
      if e == |s| then [s]
      else [StripCr(s[..e])] + Lines(s[e + 1..])
  }

  /** The last line of the list that yields a uuid, searched from the end. */
  function LastUuid(lines: seq<string>, uuid: string -> Option<string>): Option<string> {
    if lines == [] then None
    else
      var last := lines[|lines| - 1];
      if !Blank(last) && uuid(last).Some? then uuid(last)
      else LastUuid(lines[..|lines| - 1], uuid)
  }

  function CountNonBlank(lines: seq<string>): nat {
    if lines == [] then 0 else (if Blank(lines[0]) then 0 else 1) + CountNonBlank(lines[1..])
  }

  /** The stat of a whole transcript. */
  function JsonlStat(text: string, uuid: string -> Option<string>): Stat {
    Stat(|text|, CountNonBlank(Lines(text)), LastUuid(Lines(text), uuid))
  }

  /** The tail of the file the window scan looks at, its possibly cut first line dropped. */
  function Tail(text: string, window: nat): string {
    var start := if |text| >= window then |text| - window else 0;
    var adj := if start >= 1 then start - 1 else 0;
    var buf := text[adj..];
    if start > 0 then
      var nl := FindNewline(buf, 0);
      if nl < |buf| then buf[nl + 1..] else []
    else buf
  }

  /** The last uuid found by reading only a window at the end of the file. */
  function TailLastUuid(text: string, window: nat, uuid: string -> Option<string>): Option<string> {
    LastUuid(Lines(Tail(text, window)), uuid)
  }

  // ---------------------------------------------------------------- growth

  lemma {:induction false} CountAppend(a: seq<string>, b: seq<string>)
    ensures CountNonBlank(a + b) == CountNonBlank(a) + CountNonBlank(b)
  {
    if a == [] {
      assert a + b == b;
    } else {
      assert (a + b)[1..] == a[1..] + b;
      CountAppend(a[1..], b);
    }
  }

  /** A text of nothing but white space is blank lines only; any other has a record. */
  lemma {:induction false} RecordsIn(more: string)
    ensures CountNonBlank(Lines(more)) == 0 <==> forall i :: 0 <= i < |more| ==> more[i] == ' ' || '\t' <= more[i] <= '\r'
    decreases |more|
  {
    if more != [] {
      var e := FindNewline(more, 0);
      if e == |more| {
        assert [more][1..] == [];
      } else {
        var first, rest := StripCr(more[..e]), more[e + 1..];
        assert ([first] + Lines(rest))[1..] == Lines(rest);
        assert Blank(first) <==> Blank(more[..e]);
        assert more == more[..e] + [more[e]] + rest;
        RecordsIn(rest);
        if Blank(more) {
          assert forall i :: 0 <= i < e ==> more[..e][i] == more[i];
          assert forall i :: 0 <= i < |rest| ==> rest[i] == more[e + 1 + i];
        }
        if Blank(more[..e]) && Blank(rest) {
          assert forall i :: 0 <= i < |more| ==> more[i] == if i < e then more[..e][i] else if i == e then '\n' else rest[i - e - 1];
        }
      }
    }
  }

  lemma {:induction false} BlankHasNoUuid(lines: seq<string>, uuid: string -> Option<string>)
    requires CountNonBlank(lines) == 0
    ensures LastUuid(lines, uuid).None?
  {
    if lines != [] {
      var init, last := lines[..|lines| - 1], lines[|lines| - 1];
      assert lines == init + [last];
      CountAppend(init, [last]);
      assert [last][1..] == [];
      BlankHasNoUuid(init, uuid);
    }
  }

  /** A text cut after a newline has the records of both parts, and the last uuid of the later one that has one. */
  lemma StatAppend(text: string, more: string, uuid: string -> Option<string>)
    requires text == [] || text[|text| - 1] == '\n'
    ensures var a, b, c := JsonlStat(text, uuid), JsonlStat(more, uuid), JsonlStat(text + more, uuid);
            c == Stat(a.bytes + b.bytes, a.lines + b.lines, if b.lastUuid.Some? then b.lastUuid else a.lastUuid)
  {
    LinesSplit(text, more);
    CountAppend(Lines(text), Lines(more));
    LastUuidAppend(Lines(text), Lines(more), uuid);
  }

  /** One record, written out: it adds one line, and its uuid is the last if it has one; a carriage return is not part of it. */
  lemma OneRecord(line: string, cr: string, uuid: string -> Option<string>)
    requires '\n' !in line && (line == [] || line[|line| - 1] != '\r') && (cr == "" || cr == "\r")
    ensures (exists i :: 0 <= i < |line| && !(line[i] == ' ' || '\t' <= line[i] <= '\r')) ==>
              JsonlStat(line + cr + "\n", uuid) == Stat(|line| + |cr| + 1, 1, uuid(line))
  {
    var e := |line| + |cr|;
    var text := line + cr + "\n";
    FindNewlineIsFirst(text, 0, e);
    assert text[..e] == line + cr && text[e + 1..] == [] && [line][1..] == [];
    assert StripCr(line + cr) == line by {
      assert cr != "" ==> (line + cr)[..e - 1] == line;
      assert cr == "" ==> line + cr == line;
    }
    assert Lines(text) == [line] + Lines([]) == [line];
    assert [line][..0] == [] && LastUuid([], uuid) == None;
    if i :| 0 <= i < |line| && !(line[i] == ' ' || '\t' <= line[i] <= '\r') {
      assert !Blank(line);
      assert CountNonBlank([line]) == 1;
      assert LastUuid([line], uuid) == uuid(line);
    }
  }

  /**
   * A transcript that grew is a different one, whatever the new records carry,
   * exactly unless only white space was added and a uuid tells that it is the same.
   */
  lemma GrowthShows(text: string, more: string, uuid: string -> Option<string>)
    requires text == [] || text[|text| - 1] == '\n'
    ensures SameContent(JsonlStat(text, uuid), JsonlStat(text + more, uuid))
            <==> (forall i :: 0 <= i < |more| ==> more[i] == ' ' || '\t' <= more[i] <= '\r')
                 && (more == [] || JsonlStat(text, uuid).lastUuid.Some?)
  {
    StatAppend(text, more, uuid);
    RecordsIn(more);
    if JsonlStat(more, uuid).lines == 0 {
      BlankHasNoUuid(Lines(more), uuid);
    }
  }

  // ---------------------------------------------------------------- agreement

  lemma {:induction false} FindNewlineIsFirst(s: string, i: nat, e: nat)
    requires i <= e < |s| && s[e] == '\n' && forall j :: i <= j < e ==> s[j] != '\n'
    ensures FindNewline(s, i) == e
    decreases e - i
  {
    if i < e {
      FindNewlineIsFirst(s, i + 1, e);
    }
  }

  /** Cutting a text just after a newline cuts its list of lines. */
  lemma {:induction false} LinesSplit(a: string, b: string)
    requires a == [] || a[|a| - 1] == '\n'
    ensures Lines(a + b) == Lines(a) + Lines(b)
    decreases |a|
  {
    if a == [] {
      assert a + b == b;
    } else {
      var e := FindNewline(a, 0);
      FindNewlineIsFirst(a + b, 0, e);
      assert (a + b)[..e] == a[..e];
      assert (a + b)[e + 1..] == a[e + 1..] + b;
      var rest := a[e + 1..];
      assert rest != [] ==> rest[|rest| - 1] == a[|a| - 1];
      LinesSplit(rest, b);
    }
  }

  lemma {:induction false} LastUuidAppend(a: seq<string>, b: seq<string>, uuid: string -> Option<string>)
    ensures LastUuid(a + b, uuid) == if LastUuid(b, uuid).Some? then LastUuid(b, uuid) else LastUuid(a, uuid)
    decreases |b|
  {
    if b == [] {
      assert a + b == a;
    } else {
      assert (a + b)[..|a + b| - 1] == a + b[..|b| - 1];
      LastUuidAppend(a, b[..|b| - 1], uuid);
    }
  }

  /** The scanned tail is a suffix of the file that starts on a line boundary. */
  lemma TailStartsALine(text: string, window: nat) returns (cut: nat)
    ensures cut <= |text| && Tail(text, window) == text[cut..]
    ensures cut == 0 || text[cut - 1] == '\n' || cut == |text|
    ensures window >= |text| ==> cut == 0
    ensures window < |text| && text[|text| - window - 1] == '\n' ==> cut == |text| - window
    ensures window < |text| ==> forall j :: |text| - window - 1 <= j < cut - 1 ==> text[j] != '\n'
    ensures |text| - window <= cut
  {
    if window >= |text| {
      cut := 0;
    } else {
      var adj := |text| - window - 1;
      var nl := FindNewline(text[adj..], 0);
      cut := if adj + nl < |text| then adj + nl + 1 else |text|;
      assert forall j :: adj <= j < adj + nl ==> text[j] == text[adj..][j - adj];
      assert adj + nl < |text| ==> text[adj..][nl] == text[adj + nl];
    }
  }

  /** A file that does not end in a newline still splits before its unterminated last line. */
  lemma {:induction false} LinesPrefix(text: string, cut: nat) returns (head: seq<string>)
    requires cut <= |text| && (cut == 0 || text[cut - 1] == '\n' || cut == |text|)
    ensures Lines(text) == head + Lines(text[cut..])
    ensures cut == 0 ==> head == []
  {
    if cut == |text| {
      head := Lines(text);
      assert Lines(text[cut..]) == [];
    } else {
      head := Lines(text[..cut]);
      assert text == text[..cut] + text[cut..];
      LinesSplit(text[..cut], text[cut..]);
    }
  }

  /**
   * The tail scan refines the full scan: a uuid it finds is the transcript's last
   * one, and a window that covers the file misses nothing.
   */
  lemma TailAgrees(text: string, window: nat, uuid: string -> Option<string>)
    ensures TailLastUuid(text, window, uuid).Some? ==> TailLastUuid(text, window, uuid) == JsonlStat(text, uuid).lastUuid
    ensures window >= |text| ==> TailLastUuid(text, window, uuid) == JsonlStat(text, uuid).lastUuid
  {
    var cut := TailStartsALine(text, window);
    var head := LinesPrefix(text, cut);
    LastUuidAppend(head, Lines(text[cut..]), uuid);
  }

  /**
   * Nor does a smaller window miss a record that starts inside it: when the text
   * is `before` and `after` cut at a line boundary and the window reaches back to
   * the cut, a uuid in `after` is found.
   */
  lemma TailFindsWhatItCovers(before: string, after: string, window: nat, uuid: string -> Option<string>)
    requires before == [] || before[|before| - 1] == '\n'
    requires window >= |after|
    ensures LastUuid(Lines(after), uuid).Some? ==>
              && TailLastUuid(before + after, window, uuid) == LastUuid(Lines(after), uuid)
              && JsonlStat(before + after, uuid).lastUuid == LastUuid(Lines(after), uuid)
  {
    hide Lines, LastUuid, Tail, FindNewline, CountNonBlank;
    var text := before + after;
    LinesSplit(before, after);
    LastUuidAppend(Lines(before), Lines(after), uuid);
    var cut := TailStartsALine(text, window);
    CutWithin(before, after, window, cut);
    assert text[cut..] == before[cut..] + after;
    LinesSplit(before[cut..], after);
    LastUuidAppend(Lines(before[cut..]), Lines(after), uuid);
  }

  lemma CutWithin(before: string, after: string, window: nat, cut: nat)
    requires before == [] || before[|before| - 1] == '\n'
    requires window >= |after| && cut <= |before + after|
    requires window >= |before + after| ==> cut == 0
    requires window < |before + after| ==> forall j :: |before + after| - window - 1 <= j < cut - 1 ==> (before + after)[j] != '\n'
    ensures cut <= |before|
  {
    if window < |before + after| {
      assert (before + after)[|before| - 1] == '\n';
    }
  }
}
