/** Option, Result and byte-sequence vocabulary shared by every component. */
module Wrappers {

  datatype Option<+T> = None | Some(value: T) {
    function GetOr(default: T): T {
      if Some? then value else default
    }
  }

  datatype Result<+T, +E> = Ok(value: T) | Err(error: E)

  newtype Byte = b: int | 0 <= b < 256

  type Bytes = seq<Byte>

  function Min(a: int, b: int): int {
    if a <= b then a else b
  }

  function Max(a: int, b: int): int {
    if a <= b then b else a
  }

  /** Concatenation of a sequence of sequences. */
  function Flatten<T>(parts: seq<seq<T>>): seq<T> {
    if parts == [] then [] else parts[0] + Flatten(parts[1..])
  }

  /** Total length of a sequence of sequences. */
  function SumLen<T>(parts: seq<seq<T>>): nat {
    if parts == [] then 0 else |parts[0]| + SumLen(parts[1..])
  }

  lemma {:induction false} FlattenAppend<T>(a: seq<seq<T>>, b: seq<seq<T>>)
    ensures Flatten(a + b) == Flatten(a) + Flatten(b)
  {
    if a == [] {
      assert a + b == b;
    } else {
      assert (a + b)[1..] == a[1..] + b;
      FlattenAppend(a[1..], b);
    }
  }

  lemma {:induction false} SumLenAppend<T>(a: seq<seq<T>>, b: seq<seq<T>>)
    ensures SumLen(a + b) == SumLen(a) + SumLen(b)
  {
    if a == [] {
      assert a + b == b;
    } else {
      assert (a + b)[1..] == a[1..] + b;
      SumLenAppend(a[1..], b);
    }
  }

  lemma FlattenHead<T>(a: seq<seq<T>>)
    requires a != []
    ensures Flatten(a) == a[0] + Flatten(a[1..]) && a[0] <= Flatten(a)
    ensures SumLen(a) == |a[0]| + SumLen(a[1..])
  {}

  lemma FlattenSingle<T>(part: seq<T>)
    ensures Flatten([part]) == part && SumLen([part]) == |part|
  {
    assert [part][1..] == [];
  }

  lemma {:induction false} FlattenLength<T>(a: seq<seq<T>>)
    ensures |Flatten(a)| == SumLen(a)
  {
    if a != [] {
      FlattenLength(a[1..]);
    }
  }

  predicate IsSpace(c: char) {
    c == ' ' || '\t' <= c <= '\r'
  }

  /** Nothing but white space. */
  predicate Blank(s: string) {
    forall i :: 0 <= i < |s| ==> IsSpace(s[i])
  }

  function Trim(s: string): string {
    if s == [] then []
    else if IsSpace(s[0]) then Trim(s[1..])
    else if IsSpace(s[|s| - 1]) then Trim(s[..|s| - 1])
    else s
  }

  lemma {:induction false} TrimStops(before: string, core: string, after: string)
    requires Blank(before) && Blank(after) && (core == "" || (!IsSpace(core[0]) && !IsSpace(core[|core| - 1])))
    ensures Trim(before + core + after) == core
    decreases |before| + |after|
  {
    var s := before + core + after;
    if before != [] {
      assert s[1..] == before[1..] + core + after;
      TrimStops(before[1..], core, after);
    } else if core == "" && after != [] {
      assert s == after && s[1..] == before + core + after[1..];
      TrimStops(before, core, after[1..]);
    } else if after != [] {
      var n := |after| - 1;
      assert s[..|s| - 1] == before + core + after[..n];
      TrimStops(before, core, after[..n]);
    } else {
      assert s == core;
    }
  }

  /** White space on either side goes and nothing else: a blank, a tab, or one of the four line and page ends. */
  lemma TrimMeans(before: string, core: string, after: string)
    requires forall c :: c in before + after ==> c in " \t\n\U{000b}\U{000c}\r"
    requires core == "" || (core[0] !in " \t\n\U{000b}\U{000c}\r" && core[|core| - 1] !in " \t\n\U{000b}\U{000c}\r")
    ensures Trim(before + core + after) == core
  {
    assert forall i :: 0 <= i < |before| ==> before[i] in before + after;
    assert forall i :: 0 <= i < |after| ==> after[i] in before + after;
    SpaceExactly();
    TrimStops(before, core, after);
  }

  lemma SpaceExactly()
    ensures forall c :: IsSpace(c) <==> c in " \t\n\U{000b}\U{000c}\r"
  {
    var all := " \t\n\U{000b}\U{000c}\r";
    assert all[0] == ' ' && all[1] == '\t' && all[2] == '\n' && all[3] as int == 11 && all[4] as int == 12 && all[5] == '\r';
  }

  /** Nothing in a command-supplied session id can leave its directory. */
  predicate SafeChars(uuid: string) {
    forall i :: 0 <= i < |uuid| ==>
      '0' <= uuid[i] <= '9' || 'a' <= uuid[i] <= 'z' || 'A' <= uuid[i] <= 'Z' || uuid[i] == '-' || uuid[i] == '_'
  }

  /** A safe id names no other directory, and every text of letters, digits, hyphens and underscores is safe. */
  lemma SafeIdsStayInside(uuid: string)
    ensures SafeChars(uuid) ==> forall c :: c in uuid ==> c !in "/\\.:~ \0"
    ensures (forall c :: c in uuid ==> c in "-_" || '0' <= c <= '9' || 'a' <= c <= 'z' || 'A' <= c <= 'Z') <==> SafeChars(uuid)
  {
    assert forall c: char :: c in "-_" <==> c == '-' || c == '_';
    assert forall i :: 0 <= i < |uuid| ==> uuid[i] in uuid;
  }
}
