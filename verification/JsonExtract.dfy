/**
 * Cutting the first balanced JSON object out of a model's answer: a scanner over
 * braces and string literals, proved against a printer of JSON values (RFC 8259).
 */
module JsonExtract {
  import opened Wrappers

  /** Where the scanner stands: outside a string, inside one, or just after its backslash. */
  datatype Mode = Plain | Quoted | Escaped

  function Next(mode: Mode, c: char): Mode {
    match mode
    case Escaped => Quoted
    case Quoted => if c == '\\' then Escaped else if c == '"' then Plain else Quoted
    case Plain => if c == '"' then Quoted else Plain
  }

  /** The mode after a text. */
  function Run(mode: Mode, text: string): Mode
    decreases text
  {
    if text == "" then mode else Run(Next(mode, text[0]), text[1..])
  }

  function Brace(mode: Mode, c: char): int {
    if mode != Plain then 0 else if c == '{' then 1 else if c == '}' then -1 else 0
  }

  /** Opening minus closing braces of a text, not counting those inside string literals. */
  function Depth(mode: Mode, text: string): int
    decreases text
  {
    if text == "" then 0 else Brace(mode, text[0]) + Depth(Next(mode, text[0]), text[1..])
  }

  predicate Balanced(text: string) {
    text != "" && Depth(Plain, text) == 0
  }

  /** No opening brace among the first n characters. */
  predicate NoBrace(s: string, n: nat)
    requires n <= |s|
  {
    forall k :: 0 <= k < n ==> s[k] != '{'
  }

  /** n characters is the shortest balanced prefix of the text. */
  ghost predicate ShortestBalanced(text: string, n: nat) {
    && n <= |text| && Balanced(text[..n])
    && forall k :: 0 < k < n ==> !Balanced(text[..k])
  }

  /** The object starting with the first brace of the text and ending where it balances. */
  ghost predicate IsFirstObject(text: string, start: nat, n: nat) {
    && start < |text| && text[start] == '{' && NoBrace(text, start)
    && ShortestBalanced(text[start..], n)
  }

  // ---------------------------------------------------------------- the scanner

  lemma {:induction false} RunAppend(mode: Mode, a: string, b: string)
    ensures Run(mode, a + b) == Run(Run(mode, a), b)
    ensures Depth(mode, a + b) == Depth(mode, a) + Depth(Run(mode, a), b)
    decreases a
  {
    if a == "" {
      assert a + b == b;
    } else {
      assert (a + b)[1..] == a[1..] + b;
      RunAppend(Next(mode, a[0]), a[1..], b);
    }
  }

  lemma RunNext(text: string, k: nat)
    requires k < |text|
    ensures Run(Plain, text[..k + 1]) == Next(Run(Plain, text[..k]), text[k])
    ensures Depth(Plain, text[..k + 1]) == Depth(Plain, text[..k]) + Brace(Run(Plain, text[..k]), text[k])
  {
    assert text[..k + 1] == text[..k] + [text[k]];
    RunAppend(Plain, text[..k], [text[k]]);
  }

  /** Offset of the first opening brace. */
  method FindBrace(s: string) returns (at: Option<nat>)
    ensures at.None? ==> NoBrace(s, |s|)
    ensures at.Some? ==> at.value < |s| && s[at.value] == '{' && NoBrace(s, at.value)
  {
    for i := 0 to |s|
      invariant NoBrace(s, i)
    {
      if s[i] == '{' {
        return Some(i);
      }
    }
    at := None;
  }

  /** What the loop knows after k characters: flags, depth, and that nothing has balanced yet. */
  ghost predicate Scanned(text: string, k: nat, depth: nat, inString: bool, escaped: bool) {
    && k <= |text| && (escaped ==> inString)
    && Run(Plain, text[..k]) == (if escaped then Escaped else if inString then Quoted else Plain)
    && Depth(Plain, text[..k]) == depth && (k > 0 ==> depth > 0)
    && forall j :: 0 < j <= k ==> !Balanced(text[..j])
  }

  /**
   * The first balanced object. The depth is a natural number throughout: no
   * input makes it go below zero.
   */
  method ExtractJsonObject(s: string) returns (found: Option<string>)
    ensures found.Some? ==> exists start: nat, n: nat :: IsFirstObject(s, start, n) && found.value == s[start..][..n]
    ensures found.None? ==> forall start: nat, n: nat :: !IsFirstObject(s, start, n)
  {
    var start := FindBrace(s);
    if start.None? {
      return None;
    }
    var text := s[start.value..];
    var depth: nat := 0;
    var inString, escaped := false, false;
    for k := 0 to |text|
      invariant Scanned(text, k, depth, inString, escaped)
    {
      var c := text[k];
      RunNext(text, k);
      if inString {
        if escaped {
          escaped := false;
        } else if c == '\\' {
          escaped := true;
        } else if c == '"' {
          inString := false;
        }
        continue;
      }
      match c {
        case '"' => inString := true;
        case '{' => depth := depth + 1;
        case '}' =>
          depth := depth - 1;
          if depth == 0 {
            assert IsFirstObject(s, start.value, k + 1);
            return Some(text[..k + 1]);
          }
        case _ =>
      }
    }
    NeverBalances(s, start.value);
    found := None;
  }

  lemma FirstObjectUnique(s: string, a: nat, n: nat, b: nat)
    requires IsFirstObject(s, a, n) && b < |s| && s[b] == '{' && NoBrace(s, b)
    ensures a == b
  {}

  lemma NeverBalances(s: string, start: nat)
    requires start < |s| && s[start] == '{' && NoBrace(s, start)
    requires forall j :: 0 < j <= |s[start..]| ==> !Balanced(s[start..][..j])
    ensures forall a: nat, n: nat :: !IsFirstObject(s, a, n)
  {
    forall a: nat, n: nat ensures !IsFirstObject(s, a, n) {
      if IsFirstObject(s, a, n) {
        FirstObjectUnique(s, a, n, start);
        assert false;
      }
    }
  }

  // ---------------------------------------------------------------- the specification as a function

  function ShortestFrom(text: string, n: nat): (r: Option<nat>)
    requires n <= |text| + 1
    ensures r.Some? ==> n <= r.value <= |text| && Balanced(text[..r.value]) && forall k :: n <= k < r.value ==> !Balanced(text[..k])
    ensures r.None? ==> forall k :: n <= k <= |text| ==> !Balanced(text[..k])
    decreases |text| + 1 - n
  {
    if n == |text| + 1 then None
    else if Balanced(text[..n]) then Some(n)
    else ShortestFrom(text, n + 1)
  }

  function FirstBrace(s: string): (at: nat)
    ensures at <= |s| && NoBrace(s, at) && (at < |s| ==> s[at] == '{')
  {
    if s == "" || s[0] == '{' then 0
    else 1 + FirstBrace(s[1..])
  }

  /** The first balanced object of a text, if it has one. */
  function Extract(s: string): Option<string> {
    var text := s[FirstBrace(s)..];
    var n := ShortestFrom(text, 0);
    if n.None? then None else Some(text[..n.value])
  }

  /** The scanner's contract determines its answer: the shortest balanced text from the first brace on, or nothing. */
  lemma ExtractIsFirstObject(s: string, start: nat, n: nat)
    requires IsFirstObject(s, start, n)
    ensures Extract(s) == Some(s[start..][..n])
  {
    FirstObjectUnique(s, start, n, FirstBrace(s));
  }

  lemma ExtractNone(s: string)
    requires forall start: nat, n: nat :: !IsFirstObject(s, start, n)
    ensures Extract(s) == None
  {
    var start := FirstBrace(s);
    var text := s[start..];
    var n := ShortestFrom(text, 0);
    if n.Some? {
      assert text != "" by { assert text[..n.value] != ""; }
      assert IsFirstObject(s, start, n.value);
    }
  }

  // ---------------------------------------------------------------- JSON values

  /** One unit of a string literal (section 7 of RFC 8259). */
  datatype Piece = Char(c: char) | Escape(c: char) | Unicode(hex: string) {
    predicate WellFormed() {
      match this
      case Char(c) => c != '"' && c != '\\' && c >= ' '
      case Escape(c) => c in "\"\\/bfnrt"
      case Unicode(hex) => |hex| == 4 && forall h :: h in hex ==> '0' <= h <= '9' || 'a' <= h <= 'f' || 'A' <= h <= 'F'
    }

    function Print(): string {
      match this
      case Char(c) => [c]
      case Escape(c) => ['\\', c]
      case Unicode(hex) => "\\u" + hex
    }
  }

  /** Values with the white space around each part; a number or literal is a bare word. */
  datatype Json =
    | Word(text: string)
    | Text(pieces: seq<Piece>)
    | Arr(pad: string, items: seq<Item>)
    | Obj(pad: string, members: seq<Member>)
  datatype Item = Item(before: string, value: Json, after: string)
  datatype Member = Member(before: string, key: seq<Piece>, mid: string, item: Item)

  predicate IsSpace(text: string) {
    forall c :: c in text ==> c in " \t\n\r"
  }

  predicate IsWord(text: string) {
    text != "" && forall c :: c in text ==> '0' <= c <= '9' || 'a' <= c <= 'z' || c in "+-.E"
  }

  predicate WellFormed(v: Json) {
    match v
    case Word(text) => IsWord(text)
    case Text(pieces) => forall p :: p in pieces ==> p.WellFormed()
    case Arr(pad, items) => IsSpace(pad) && forall i :: i in items ==> WellFormedItem(i)
    case Obj(pad, members) => IsSpace(pad) && forall m :: m in members ==> WellFormedMember(m)
  }

  predicate WellFormedItem(i: Item) {
    IsSpace(i.before) && WellFormed(i.value) && IsSpace(i.after)
  }

  predicate WellFormedMember(m: Member) {
    IsSpace(m.before) && (forall p :: p in m.key ==> p.WellFormed()) && IsSpace(m.mid) && WellFormedItem(m.item)
  }

  function PrintPieces(pieces: seq<Piece>): string {
    if pieces == [] then "" else pieces[0].Print() + PrintPieces(pieces[1..])
  }

  function PrintString(pieces: seq<Piece>): string {
    "\"" + PrintPieces(pieces) + "\""
  }

  function Print(v: Json): string
    decreases v, 1
  {
    match v
    case Word(text) => text
    case Text(pieces) => PrintString(pieces)
    case Arr(pad, items) => "[" + pad + PrintItems(items) + "]"
    case Obj(pad, members) => "{" + (pad + PrintMembers(members)) + "}"
  }

  function PrintItem(i: Item): string {
    i.before + Print(i.value) + i.after
  }

  function PrintItems(items: seq<Item>): string {
    if items == [] then "" else if |items| == 1 then PrintItem(items[0]) else PrintItem(items[0]) + "," + PrintItems(items[1..])
  }

  function PrintMember(m: Member): string {
    m.before + PrintString(m.key) + m.mid + ":" + PrintItem(m.item)
  }

  function PrintMembers(members: seq<Member>): string {
    if members == [] then ""
    else if |members| == 1 then PrintMember(members[0])
    else PrintMember(members[0]) + "," + PrintMembers(members[1..])
  }

  // ---------------------------------------------------------------- printed values are neutral

  /** Reading the text leaves the scanner where it was and never takes it below where it started. */
  ghost predicate Neutral(text: string) {
    && Run(Plain, text) == Plain && Depth(Plain, text) == 0
    && forall k :: 0 <= k <= |text| ==> Depth(Plain, text[..k]) >= 0
  }

  lemma NeutralAppend(a: string, b: string)
    requires Neutral(a) && Neutral(b)
    ensures Neutral(a + b)
  {
    RunAppend(Plain, a, b);
    forall k | 0 <= k <= |a + b| ensures Depth(Plain, (a + b)[..k]) >= 0 {
      if k <= |a| {
        assert (a + b)[..k] == a[..k];
      } else {
        assert (a + b)[..k] == a + b[..k - |a|];
        RunAppend(Plain, a, b[..k - |a|]);
      }
    }
  }

  lemma {:induction false} NeutralWord(text: string)
    requires forall c :: c in text ==> c != '"' && c != '{' && c != '}'
    ensures Neutral(text)
  {
    if text == "" {
      assert text[..0] == "";
    } else {
      assert forall c :: c in text[1..] ==> c in text;
      NeutralWord(text[1..]);
      assert text[0] in text;
      assert Neutral([text[0]]) by {
        assert [text[0]][1..] == "";
        forall k | 0 <= k <= 1 ensures Depth(Plain, [text[0]][..k]) >= 0 {
          assert k == 0 ==> [text[0]][..k] == "";
          assert k == 1 ==> [text[0]][..k] == [text[0]];
        }
      }
      NeutralAppend([text[0]], text[1..]);
      assert [text[0]] + text[1..] == text;
    }
  }

  /** Inside a string literal no text counts, and a well-formed unit ends inside it. */
  lemma QuotedPiece(p: Piece)
    requires p.WellFormed()
    ensures Run(Quoted, p.Print()) == Quoted
  {
    match p {
      case Char(c) => assert [c][1..] == "";
      case Escape(c) =>
        assert ['\\', c][1..] == [c] && [c][1..] == "";
        assert Run(Escaped, [c]) == Quoted;
      case Unicode(hex) =>
        assert ("\\u" + hex)[1..] == "u" + hex && ("u" + hex)[1..] == hex;
        PlainHex(hex);
    }
  }

  lemma {:induction false} PlainHex(hex: string)
    requires forall h :: h in hex ==> h != '\\' && h != '"'
    ensures Run(Quoted, hex) == Quoted
  {
    if hex != "" {
      assert forall h :: h in hex[1..] ==> h in hex;
      PlainHex(hex[1..]);
      assert hex[0] in hex;
    }
  }

  lemma {:induction false} QuotedPieces(pieces: seq<Piece>)
    requires forall p :: p in pieces ==> p.WellFormed()
    ensures Run(Quoted, PrintPieces(pieces)) == Quoted
  {
    if pieces != [] {
      QuotedPiece(pieces[0]);
      QuotedPieces(pieces[1..]);
      RunAppend(Quoted, pieces[0].Print(), PrintPieces(pieces[1..]));
    }
  }

  /** As long as the string stays open after every prefix but the last, no brace counts. */
  lemma {:induction false} QuotedDepth(mode: Mode, text: string)
    requires mode != Plain && Run(mode, text) != Plain
    requires forall k :: 0 <= k <= |text| ==> Run(mode, text[..k]) != Plain
    ensures Depth(mode, text) == 0
    decreases text
  {
    if text != "" {
      var next := Next(mode, text[0]);
      assert text[..1][1..] == "";
      assert Run(mode, text[..1]) == next;
      forall k | 0 <= k <= |text| - 1 ensures Run(next, text[1..][..k]) != Plain {
        assert text[..k + 1][1..] == text[1..][..k];
        assert Run(mode, text[..k + 1]) == Run(next, text[1..][..k]);
      }
      assert text[1..][..|text| - 1] == text[1..];
      QuotedDepth(next, text[1..]);
    }
  }

  /** A printed string literal stays open until its last quote. */
  lemma {:induction false} StaysOpen(pieces: seq<Piece>, k: nat)
    requires (forall p :: p in pieces ==> p.WellFormed()) && k <= |PrintPieces(pieces)|
    ensures Run(Quoted, PrintPieces(pieces)[..k]) != Plain
  {
    if pieces != [] {
      var head, rest := pieces[0].Print(), PrintPieces(pieces[1..]);
      QuotedPiece(pieces[0]);
      if k <= |head| {
        assert (head + rest)[..k] == head[..k];
        PieceStaysOpen(pieces[0], k);
      } else {
        assert (head + rest)[..k] == head + rest[..k - |head|];
        RunAppend(Quoted, head, rest[..k - |head|]);
        StaysOpen(pieces[1..], k - |head|);
      }
    } else {
      assert PrintPieces(pieces)[..k] == "";
    }
  }

  lemma PieceStaysOpen(p: Piece, k: nat)
    requires p.WellFormed() && k <= |p.Print()|
    ensures Run(Quoted, p.Print()[..k]) != Plain
  {
    var t := p.Print();
    if k == 0 {
      assert t[..0] == "";
    } else if p.Unicode? {
      if k == 1 {
        assert t[..1] == "\\" && "\\"[1..] == "";
      } else {
        assert t[..k][1..] == t[1..k] && t[1..k][1..] == p.hex[..k - 2];
        var part := p.hex[..k - 2];
        forall i | 0 <= i < |part| ensures part[i] != '\\' && part[i] != '"' {
          assert part[i] == p.hex[i] && p.hex[i] in p.hex;
        }
        PlainHex(part);
      }
    } else {
      QuotedPiece(p);
      assert t[..|t|] == t;
      assert k == 1 ==> t[..1][1..] == "";
    }
  }

  lemma NeutralString(pieces: seq<Piece>)
    requires forall p :: p in pieces ==> p.WellFormed()
    ensures Neutral(PrintString(pieces))
  {
    var body := PrintPieces(pieces);
    var s := PrintString(pieces);
    QuotedPieces(pieces);
    forall k | 0 <= k <= |body| ensures Run(Quoted, body[..k]) != Plain && Depth(Quoted, body[..k]) == 0 {
      StaysOpen(pieces, k);
      forall j | 0 <= j <= k ensures Run(Quoted, body[..k][..j]) != Plain {
        assert body[..k][..j] == body[..j];
        StaysOpen(pieces, j);
      }
      QuotedDepth(Quoted, body[..k]);
    }
    assert body[..|body|] == body;
    RunAppend(Quoted, body, "\"");
    assert "\""[1..] == "";
    assert s[1..] == body + "\"";
    forall k | 0 <= k <= |s| ensures Depth(Plain, s[..k]) == 0 {
      if 0 < k <= |body| + 1 {
        assert s[..k][1..] == body[..k - 1];
      } else if k == |s| {
        assert s[..k] == s;
      }
    }
    assert s[..|s|] == s;
  }

  lemma NeutralItem(i: Item)
    requires WellFormedItem(i) && Neutral(Print(i.value))
    ensures Neutral(PrintItem(i))
  {
    NeutralWord(i.before);
    NeutralWord(i.after);
    NeutralAppend(i.before, Print(i.value));
    NeutralAppend(i.before + Print(i.value), i.after);
  }

  lemma NeutralMember(m: Member)
    requires WellFormedMember(m) && Neutral(PrintItem(m.item))
    ensures Neutral(PrintMember(m))
  {
    NeutralWord(m.before);
    NeutralString(m.key);
    NeutralWord(m.mid);
    NeutralWord(":");
    NeutralAppend(m.before, PrintString(m.key));
    NeutralAppend(m.before + PrintString(m.key), m.mid);
    NeutralAppend(m.before + PrintString(m.key) + m.mid, ":");
    NeutralAppend(m.before + PrintString(m.key) + m.mid + ":", PrintItem(m.item));
  }

  lemma {:induction false} NeutralItems(items: seq<Item>)
    requires forall i :: i in items ==> Neutral(PrintItem(i))
    ensures Neutral(PrintItems(items))
  {
    if items == [] {
      NeutralWord("");
    } else if |items| > 1 {
      NeutralItems(items[1..]);
      NeutralWord(",");
      NeutralAppend(PrintItem(items[0]), ",");
      NeutralAppend(PrintItem(items[0]) + ",", PrintItems(items[1..]));
    }
  }

  lemma {:induction false} NeutralMembers(members: seq<Member>)
    requires forall m :: m in members ==> Neutral(PrintMember(m))
    ensures Neutral(PrintMembers(members))
  {
    if members == [] {
      NeutralWord("");
    } else if |members| > 1 {
      NeutralMembers(members[1..]);
      NeutralWord(",");
      NeutralAppend(PrintMember(members[0]), ",");
      NeutralAppend(PrintMember(members[0]) + ",", PrintMembers(members[1..]));
    }
  }

  /** Braces around a neutral text: open from the first character to the last but one. */
  lemma BracedText(inner: string)
    requires Neutral(inner)
    ensures Neutral("{" + inner + "}")
    ensures forall k :: 0 < k <= |inner| + 1 ==> Depth(Plain, ("{" + inner + "}")[..k]) > 0
  {
    var t := "{" + inner + "}";
    assert t[1..] == inner + "}";
    RunAppend(Plain, inner, "}");
    assert "}"[1..] == "";
    forall k | 0 < k <= |inner| + 1 ensures Depth(Plain, t[..k]) > 0 {
      assert t[..k][1..] == inner[..k - 1];
    }
    assert t[..0] == "" && t[..|t|] == t;
  }

  lemma {:induction false} PrintedIsNeutral(v: Json)
    requires WellFormed(v)
    ensures Neutral(Print(v))
    decreases v
  {
    match v {
      case Word(text) => NeutralWord(text);
      case Text(pieces) => NeutralString(pieces);
      case Arr(pad, items) =>
        forall i | i in items ensures Neutral(PrintItem(i)) {
          PrintedIsNeutral(i.value);
          NeutralItem(i);
        }
        NeutralItems(items);
        NeutralWord("[");
        NeutralWord(pad);
        NeutralWord("]");
        NeutralAppend("[", pad);
        NeutralAppend("[" + pad, PrintItems(items));
        NeutralAppend("[" + pad + PrintItems(items), "]");
      case Obj(pad, members) =>
        NeutralInside(v);
        BracedText(pad + PrintMembers(members));
    }
  }

  lemma {:induction false} NeutralInside(v: Json)
    requires WellFormed(v) && v.Obj?
    ensures Neutral(v.pad + PrintMembers(v.members))
    decreases v, 0
  {
    forall m | m in v.members ensures Neutral(PrintMember(m)) {
      assert WellFormedMember(m);
      PrintedIsNeutral(m.item.value);
      NeutralItem(m.item);
      NeutralMember(m);
    }
    NeutralMembers(v.members);
    NeutralWord(v.pad);
    NeutralAppend(v.pad, PrintMembers(v.members));
  }

  // ---------------------------------------------------------------- main results

  /** A printed object balances at its end and nowhere before. */
  lemma PrintedObjectBalances(v: Json, suffix: string)
    requires WellFormed(v) && v.Obj?
    ensures ShortestBalanced(Print(v) + suffix, |Print(v)|)
  {
    var inner := v.pad + PrintMembers(v.members);
    var t := Print(v);
    NeutralInside(v);
    BracedText(inner);
    assert (t + suffix)[..|t|] == t;
    forall k | 0 < k < |t| ensures !Balanced((t + suffix)[..k]) {
      assert (t + suffix)[..k] == t[..k];
    }
  }

  /** Whatever prose without a brace stands before an object, and whatever stands after it, that object is what is cut out. */
  lemma ExtractsPrintedObject(prefix: string, v: Json, suffix: string)
    requires WellFormed(v) && v.Obj? && NoBrace(prefix, |prefix|)
    ensures Extract(prefix + Print(v) + suffix) == Some(Print(v))
  {
    var s := prefix + Print(v) + suffix;
    PrintedObjectBalances(v, suffix);
    assert s[|prefix|..] == Print(v) + suffix;
    assert s[..|prefix|] == prefix;
    assert s[|prefix|] == '{';
    assert (Print(v) + suffix)[..|Print(v)|] == Print(v);
    ExtractIsFirstObject(s, |prefix|, |Print(v)|);
  }

  /** An object cut short anywhere yields nothing, never a part of it. */
  lemma CutShortYieldsNothing(prefix: string, v: Json, n: nat)
    requires WellFormed(v) && v.Obj? && NoBrace(prefix, |prefix|) && n < |Print(v)|
    ensures Extract(prefix + Print(v)[..n]) == None
  {
    var part := Print(v)[..n];
    var s := prefix + part;
    PrintedObjectBalances(v, "");
    assert Print(v) + "" == Print(v);
    if n == 0 {
      assert s == prefix;
    } else {
      assert s[|prefix|] == '{';
      assert s[|prefix|..] == part;
      forall j | 0 < j <= n ensures !Balanced(part[..j]) {
        assert part[..j] == Print(v)[..j];
      }
      NeverBalances(s, |prefix|);
    }
    ExtractNone(s);
  }

  /** What was cut out stands on its own, and more text after it changes nothing. */
  lemma ExtractStable(s: string, more: string)
    requires Extract(s).Some?
    ensures Extract(Extract(s).value) == Extract(s)
    ensures Extract(s + more) == Extract(s)
  {
    var start := FirstBrace(s);
    var text := s[start..];
    var n := ShortestFrom(text, 0).value;
    var cut := text[..n];
    assert IsFirstObject(cut, 0, n) by {
      assert cut[0..] == cut && cut[..n] == cut && cut[..0] == "";
      assert forall k :: 0 < k < n ==> cut[..k] == text[..k];
    }
    ExtractIsFirstObject(cut, 0, n);
    assert cut[0..][..n] == cut;
    assert IsFirstObject(s + more, start, n) by {
      assert (s + more)[..start] == s[..start];
      assert (s + more)[start..] == text + more;
      assert forall k :: 0 <= k <= n ==> (text + more)[..k] == text[..k];
    }
    ExtractIsFirstObject(s + more, start, n);
    assert (s + more)[start..][..n] == cut;
  }
}
