/**
 * Session snapshots with a summary sidecar: a derived cache, written after the
 * body, believed only when fresh, and rebuilt by the listing that finds it stale.
 */
module SidecarCaching {
  import opened Wrappers

  predicate IsSafeUuid(uuid: string) {
    uuid != [] && |uuid| <= 128 && SafeChars(uuid)
  }

  const META_V: nat := 1

  datatype Snapshot = Snapshot(name: string, date: string, turns: seq<(nat, string)>, count: nat)

  datatype Meta = Meta(v: nat, bodyLen: nat, name: string, title: string, date: string, count: nat)

  datatype Summary = Summary(uuid: string, name: string, title: string, date: string, count: nat)

  /** Body text and time; sidecar content (None when it does not decode) and time; the name override. */
  datatype File = File(text: Bytes, mtime: nat)
  datatype Sidecar = Sidecar(meta: Option<Meta>, mtime: nat)
  datatype Session = Session(body: Option<File>, meta: Option<Sidecar>, name: Option<string>)

  type Decoder = Bytes -> Option<Snapshot>

  // ---------------------------------------------------------------- summaries

  /** Prompt of the lowest turn, the first listed when turns repeat. */
  function TitleOf(turns: seq<(nat, string)>): string {
    if turns == [] then "" else turns[FirstLowest(turns)].1
  }

  function FirstLowest(turns: seq<(nat, string)>): (i: nat)
    requires turns != []
    ensures i < |turns|
  {
    if |turns| == 1 then 0
    else
      var j := FirstLowest(turns[1..]);
      if turns[0].0 <= turns[1..][j].0 then 0 else j + 1
  }

  /** The turn a title is taken from is lowest, and no earlier one is as low. */
  lemma {:induction false} TitleIsFirstLowest(turns: seq<(nat, string)>)
    requires turns != []
    ensures var i := FirstLowest(turns);
            && TitleOf(turns) == turns[i].1
            && (forall j :: 0 <= j < |turns| ==> turns[i].0 <= turns[j].0)
            && (forall j :: 0 <= j < i ==> turns[i].0 < turns[j].0)
  {
    if |turns| > 1 {
      TitleIsFirstLowest(turns[1..]);
      assert forall j :: 1 <= j < |turns| ==> turns[j] == turns[1..][j - 1];
    }
  }

  function MetaOf(snap: Snapshot, bodyLen: nat): Meta {
    Meta(META_V, bodyLen, snap.name, TitleOf(snap.turns), snap.date, snap.count)
  }

  function NameOf(uuid: string, s: Session, own: string): string {
    if IsSafeUuid(uuid) && s.name.Some? && s.name.value != "" then s.name.value else own
  }

  function SummaryFrom(uuid: string, s: Session, m: Meta): Summary {
    Summary(uuid, NameOf(uuid, s, m.name), m.title, m.date, m.count)
  }

  /** The three-part freshness test: schema version, body length, and not older than the body. */
  predicate Accepted(s: Session) {
    && s.body.Some? && s.meta.Some? && s.meta.value.mtime >= s.body.value.mtime
    && s.meta.value.meta.Some? && s.meta.value.meta.value.v == META_V
    && s.meta.value.meta.value.bodyLen == |s.body.value.text|
  }

  /** What parsing the body gives. */
  function Parsed(parse: Decoder, s: Session): Option<Meta> {
    if s.body.None? || parse(s.body.value.text).None? then None
    else Some(MetaOf(parse(s.body.value.text).value, |s.body.value.text|))
  }

  function FullSummary(parse: Decoder, uuid: string, s: Session): Option<Summary> {
    var m := Parsed(parse, s);
    if m.None? then None else Some(SummaryFrom(uuid, s, m.value))
  }

  /** What the listing shows for one session: from the sidecar when it is accepted, else from the body. */
  function Listed(parse: Decoder, uuid: string, s: Session): Option<Summary> {
    if Accepted(s) then Some(SummaryFrom(uuid, s, s.meta.value.meta.value)) else FullSummary(parse, uuid, s)
  }

  function ListedAll(parse: Decoder, files: map<string, Session>, order: seq<string>): seq<Summary>
    requires forall u :: u in order ==> u in files
  {
    if order == [] then []
    else
      var r := Listed(parse, order[0], files[order[0]]);
      (if r.Some? then [r.value] else []) + ListedAll(parse, files, order[1..])
  }

  function FullAll(parse: Decoder, files: map<string, Session>, order: seq<string>): seq<Summary>
    requires forall u :: u in order ==> u in files
  {
    if order == [] then []
    else
      var r := FullSummary(parse, order[0], files[order[0]]);
      (if r.Some? then [r.value] else []) + FullAll(parse, files, order[1..])
  }

  /** The name shown: the user's own if one was given, for an id that can name a file. */
  ghost predicate ShowsName(uuid: string, s: Session, own: string, shown: string) {
    if IsSafeUuid(uuid) && s.name.Some? && |s.name.value| > 0 then shown == s.name.value else shown == own
  }

  /** The title shown: the prompt of the first of the lowest turns, and nothing without turns. */
  ghost predicate ShowsTitle(turns: seq<(nat, string)>, title: string) {
    if turns == [] then title == ""
    else exists i :: 0 <= i < |turns| && title == turns[i].1 && (forall j :: 0 <= j < |turns| ==> turns[i].0 <= turns[j].0)
                     && forall j :: 0 <= j < i ==> turns[i].0 < turns[j].0
  }

  /**
   * What one session shows. A sidecar of the first schema, not older than the
   * body and recording its length, speaks for it, field by field; in every other
   * case the body does, and a body that is missing or does not parse is not listed.
   */
  lemma ListingMeans(parse: Decoder, uuid: string, s: Session)
    ensures var r := Listed(parse, uuid, s);
            if s.body.None? then r.None?
            else if && s.meta.Some? && s.meta.value.mtime >= s.body.value.mtime && s.meta.value.meta.Some?
                    && s.meta.value.meta.value.v == 1 && s.meta.value.meta.value.bodyLen == |s.body.value.text| then
              var m := s.meta.value.meta.value;
              && r.Some? && ShowsName(uuid, s, m.name, r.value.name)
              && r.value.uuid == uuid && r.value.title == m.title && r.value.date == m.date && r.value.count == m.count
            else
              var snap := parse(s.body.value.text);
              && (r.Some? <==> snap.Some?)
              && (r.Some? ==> && ShowsName(uuid, s, snap.value.name, r.value.name) && ShowsTitle(snap.value.turns, r.value.title)
                              && r.value.uuid == uuid && r.value.date == snap.value.date && r.value.count == snap.value.count)
  {
    if s.body.Some? && parse(s.body.value.text).Some? && parse(s.body.value.text).value.turns != [] {
      TitleIsFirstLowest(parse(s.body.value.text).value.turns);
    }
  }

  /** A freshly written sidecar repeats its body: version one, the body's length, and every field the listing shows. */
  lemma SidecarMeans(parse: Decoder, uuid: string, s: Session)
    requires s.body.Some? && parse(s.body.value.text).Some?
    ensures var m, snap := Parsed(parse, s), parse(s.body.value.text).value;
            && m.Some? && m.value.v == 1 && m.value.bodyLen == |s.body.value.text| && ShowsTitle(snap.turns, m.value.title)
            && m.value.name == snap.name && m.value.date == snap.date && m.value.count == snap.count
  {
    if parse(s.body.value.text).value.turns != [] {
      TitleIsFirstLowest(parse(s.body.value.text).value.turns);
    }
  }

  /** An accepted sidecar says what parsing the body would. */
  ghost predicate Coherent(parse: Decoder, s: Session) {
    Accepted(s) ==> Parsed(parse, s) == s.meta.value.meta
  }

  ghost predicate AllCoherent(parse: Decoder, files: map<string, Session>) {
    forall u :: u in files ==> Coherent(parse, files[u])
  }

  /** No file is newer than the clock. */
  ghost predicate NoneNewer(files: map<string, Session>, clock: nat) {
    forall u :: u in files ==>
      && (files[u].body.Some? ==> files[u].body.value.mtime <= clock)
      && (files[u].meta.Some? ==> files[u].meta.value.mtime <= clock)
  }

  lemma {:induction false} CoherentListing(parse: Decoder, files: map<string, Session>, order: seq<string>)
    requires (forall u :: u in order ==> u in files) && AllCoherent(parse, files)
    ensures ListedAll(parse, files, order) == FullAll(parse, files, order)
  {
    if order != [] {
      assert order[0] in order;
      assert forall u :: u in order[1..] ==> u in order;
      assert Coherent(parse, files[order[0]]);
      CoherentListing(parse, files, order[1..]);
    }
  }

  // ---------------------------------------------------------------- the directory

  datatype SaveResult = Saved | UnsafeId | WriteError

  /**
   * A project's snapshot directory. Each write may fail, and stamps its file
   * with a clock that never goes back and advances by `tick` before the n-th.
   * A crash is every later write failing.
   */
  class SnapshotDir {
    const parse: Decoder
    const tick: nat -> nat
    const fails: nat -> bool
    var files: map<string, Session>
    var clock: nat
    var writes: nat

    ghost predicate Valid()
      reads this
    {
      NoneNewer(files, clock)
    }

    /** Every write gets a later time than any before it. */
    ghost predicate Strict() {
      forall n :: tick(n) > 0
    }

    ghost predicate Faultless() {
      forall n :: !fails(n)
    }

    function At(uuid: string): Session
      reads this
    {
      if uuid in files then files[uuid] else Session(None, None, None)
    }

    /** The next write's outcome and time. */
    method Stamp() returns (ok: bool, now: nat)
      modifies this`clock, this`writes
      ensures now == clock == old(clock) + tick(old(writes)) && ok == !fails(old(writes))
    {
      ok := !fails(writes);
      clock := clock + tick(writes);
      writes := writes + 1;
      now := clock;
    }

    method WriteMeta(uuid: string, m: Meta) returns (ok: bool)
      requires Valid()
      modifies this`clock, this`writes, this`files
      ensures Valid() && clock >= old(clock) && (Faultless() ==> ok)
      ensures files == if ok then old(files)[uuid := old(At(uuid)).(meta := Some(Sidecar(Some(m), clock)))] else old(files)
    {
      var now;
      ok, now := Stamp();
      if ok {
        files := files[uuid := At(uuid).(meta := Some(Sidecar(Some(m), now)))];
      }
    }

    /** Body first, then the sidecar, whose failure is ignored. `text` is what the snapshot encodes to. */
    method Save(uuid: string, snap: Snapshot, text: Bytes) returns (r: SaveResult)
      requires Valid() && parse(text) == Some(snap)
      modifies this`clock, this`writes, this`files
      ensures Valid() && (r == UnsafeId <==> !(1 <= |uuid| <= 128 && SafeChars(uuid))) && (r == Saved <==> IsSafeUuid(uuid) && !fails(old(writes)))
      ensures r != Saved ==> files == old(files)
      ensures r == Saved ==>
                && uuid in files && files == old(files)[uuid := files[uuid]] && files[uuid].name == old(At(uuid)).name
                && files[uuid].body.Some? && files[uuid].body.value.text == text
                && (files[uuid].meta == old(At(uuid)).meta || (Accepted(files[uuid]) && Coherent(parse, files[uuid])))
      ensures Strict() && old(AllCoherent(parse, files)) ==> AllCoherent(parse, files)
      ensures Faultless() && r == Saved ==> Accepted(files[uuid])
    {
      if !IsSafeUuid(uuid) {
        return UnsafeId;
      }
      var ok, now := Stamp();
      if !ok {
        return WriteError;
      }
      ghost var before := files;
      files := files[uuid := At(uuid).(body := Some(File(text, now)))];
      BodyWritten(parse, before, uuid, files[uuid], now);
      var written := WriteMeta(uuid, MetaOf(snap, |text|));
      r := Saved;
    }

    /** Something else replaces the body, sidecar untouched. */
    method Rewrite(uuid: string, text: Bytes) returns (ok: bool)
      requires Valid()
      modifies this`clock, this`writes, this`files
      ensures Valid() && (Strict() && old(AllCoherent(parse, files)) ==> AllCoherent(parse, files)) && ok == !fails(old(writes))
      ensures files == if ok then old(files)[uuid := old(At(uuid)).(body := Some(File(text, clock)))] else old(files)
    {
      var now;
      ok, now := Stamp();
      if ok {
        ghost var before := files;
        files := files[uuid := At(uuid).(body := Some(File(text, now)))];
        BodyWritten(parse, before, uuid, files[uuid], now);
      }
    }

    /** One entry of a listing: its summary, and a fresh sidecar to write if the present one was not accepted. */
    method ReadEntry(uuid: string) returns (r: Option<Summary>, heal: Option<Meta>)
      requires uuid in files
      ensures r == Listed(parse, uuid, files[uuid])
      ensures heal == if Accepted(files[uuid]) then None else Parsed(parse, files[uuid])
    {
      var s := files[uuid];
      if s.body.None? {
        return None, None;
      }
      var recent := s.meta.Some? && s.meta.value.mtime >= s.body.value.mtime;
      if recent && s.meta.value.meta.Some? {
        var m := s.meta.value.meta.value;
        if m.v == META_V && m.bodyLen == |s.body.value.text| {
          return Some(Summary(uuid, NameOf(uuid, s, m.name), m.title, m.date, m.count)), None;
        }
      }
      var snap := parse(s.body.value.text);
      if snap.None? {
        return None, None;
      }
      heal := Some(MetaOf(snap.value, |s.body.value.text|));
      r := Some(Summary(uuid, NameOf(uuid, s, snap.value.name), TitleOf(snap.value.turns), snap.value.date, snap.value.count));
    }

    /** The reading half of a listing: nothing is written while the directory is walked. */
    method ReadEntries(order: seq<string>) returns (out: seq<Summary>, heals: seq<(string, Meta)>)
      requires forall u :: u in order ==> u in files
      ensures out == ListedAll(parse, files, order) && HealsFor(parse, files, order, heals)
    {
      out, heals := [], [];
      assert order[0..] == order;
      hide Listed, Parsed, Accepted, HealsFor;
      HealsStart(parse, files);
      for i := 0 to |order|
        invariant out + ListedAll(parse, files, order[i..]) == ListedAll(parse, files, order)
        invariant HealsFor(parse, files, order[..i], heals)
      {
        var r, heal := ReadEntry(order[i]);
        EntryRead(parse, files, order, i, heals, heal);
        assert order[i..][0] == order[i] && order[i..][1..] == order[i + 1..];
        if r.Some? {
          out := out + [r.value];
        }
        if heal.Some? {
          heals := heals + [(order[i], heal.value)];
        }
      }
      assert order[..|order|] == order;
    }

    /** The listing, in the order the directory is read; stale sidecars are rewritten afterwards. */
    method List(order: seq<string>) returns (out: seq<Summary>)
      requires Valid() && forall u :: u in order ==> u in files
      modifies this`clock, this`writes, this`files
      ensures Valid() && out == ListedAll(parse, old(files), order)
      ensures Healed(parse, old(files), files)
      ensures Faultless() ==> forall u :: u in order && Parsed(parse, files[u]).Some? ==> Accepted(files[u])
    {
      var heals;
      out, heals := ReadEntries(order);
      WriteHeals(order, heals);
    }

    method WriteHeals(ghost order: seq<string>, heals: seq<(string, Meta)>)
      requires Valid() && HealsFor(parse, files, order, heals)
      modifies this`clock, this`writes, this`files
      ensures Valid() && Healed(parse, old(files), files)
      ensures Faultless() ==> forall u :: u in order && u in files && Parsed(parse, files[u]).Some? ==> Accepted(files[u])
    {
      ghost var before := files;
      HealsParse(parse, before, order, heals);
      hide Parsed, Accepted, Healed;
      assert Healed(parse, before, files) by { HealedSame(parse, before); }
      for i := 0 to |heals|
        invariant Valid() && Healed(parse, before, files) && files.Keys == before.Keys
        invariant Faultless() ==> forall j :: 0 <= j < i ==> heals[j].0 in files && Accepted(files[heals[j].0])
      {
        ghost var files0, clock0 := files, clock;
        var ok := WriteMeta(heals[i].0, heals[i].1);
        if ok {
          HealOne(parse, before, files0, heals[i].0, heals[i].1, clock0, clock);
        }
      }
      HealsDone(parse, before, files, order, heals);
    }
  }

  lemma HealsParse(parse: Decoder, files: map<string, Session>, order: seq<string>, heals: seq<(string, Meta)>)
    requires HealsFor(parse, files, order, heals)
    ensures forall i :: 0 <= i < |heals| ==> heals[i].0 in files && Parsed(parse, files[heals[i].0]) == Some(heals[i].1)
  {
    assert forall i :: 0 <= i < |heals| ==> heals[i] in heals;
  }

  lemma HealedSame(parse: Decoder, files: map<string, Session>)
    ensures Healed(parse, files, files)
  {}

  lemma HealOne(parse: Decoder, before: map<string, Session>, files: map<string, Session>, uuid: string, m: Meta, clock0: nat, clock: nat)
    requires uuid in before && Parsed(parse, before[uuid]) == Some(m) && Healed(parse, before, files)
    requires NoneNewer(files, clock0) && clock0 <= clock
    ensures var after := files[uuid := files[uuid].(meta := Some(Sidecar(Some(m), clock)))];
            && after.Keys == before.Keys && Healed(parse, before, after) && Accepted(after[uuid])
            && forall u :: u in files && Accepted(files[u]) ==> Accepted(after[u])
  {}

  lemma HealsDone(parse: Decoder, before: map<string, Session>, files: map<string, Session>, order: seq<string>, heals: seq<(string, Meta)>)
    requires HealsFor(parse, before, order, heals) && Healed(parse, before, files)
    requires files.Keys == before.Keys
    ensures (forall j :: 0 <= j < |heals| ==> heals[j].0 in files && Accepted(files[heals[j].0])) ==>
              forall u :: u in order && u in files && Parsed(parse, files[u]).Some? ==> Accepted(files[u])
  {
    assert forall u :: u in files ==> Parsed(parse, files[u]) == Parsed(parse, before[u]);
    assert forall u :: u in files && Accepted(before[u]) ==> Accepted(files[u]);
    hide Parsed, Accepted;
    assert forall h :: h in heals ==> exists j :: 0 <= j < |heals| && heals[j] == h;
  }

  /** Every heal is the summary of its session's body, and every session whose sidecar is not accepted has one. */
  ghost predicate HealsFor(parse: Decoder, files: map<string, Session>, order: seq<string>, heals: seq<(string, Meta)>) {
    && (forall h :: h in heals ==> h.0 in files && Parsed(parse, files[h.0]) == Some(h.1))
    && forall u :: u in order ==> u in files && (Accepted(files[u]) || Parsed(parse, files[u]).None? || exists h :: h in heals && h.0 == u)
  }

  lemma HealsStart(parse: Decoder, files: map<string, Session>)
    ensures forall order: seq<string> :: HealsFor(parse, files, order[..0], [])
  {}

  lemma EntryRead(parse: Decoder, files: map<string, Session>, order: seq<string>, i: nat, heals: seq<(string, Meta)>, heal: Option<Meta>)
    requires i < |order| && order[i] in files && HealsFor(parse, files, order[..i], heals)
    requires heal == if Accepted(files[order[i]]) then None else Parsed(parse, files[order[i]])
    ensures HealsFor(parse, files, order[..i + 1], if heal.Some? then heals + [(order[i], heal.value)] else heals)
  {
    assert order[..i + 1] == order[..i] + [order[i]];
    hide Accepted, Parsed;
    if heal.Some? {
      assert (order[i], heal.value) in heals + [(order[i], heal.value)];
    }
  }

  /** Bodies and names are as they were; a sidecar that changed is the summary of its body, and is accepted. */
  ghost predicate Healed(parse: Decoder, before: map<string, Session>, after: map<string, Session>) {
    && after.Keys == before.Keys
    && forall u :: u in before ==>
         && after[u].body == before[u].body && after[u].name == before[u].name
         && (after[u] == before[u] || (Accepted(after[u]) && after[u].meta.value.meta == Parsed(parse, before[u])))
  }

  /** A body written later than its sidecar makes the sidecar stale. */
  lemma BodyWritten(parse: Decoder, before: map<string, Session>, uuid: string, s: Session, now: nat)
    requires s.body.Some? && s.body.value.mtime == now
    requires uuid in before ==> s.meta == before[uuid].meta
    requires uuid !in before ==> s.meta.None?
    ensures (s.meta.Some? ==> s.meta.value.mtime < now) && AllCoherent(parse, before) ==> AllCoherent(parse, before[uuid := s])
  {}

  lemma HealedCoherent(parse: Decoder, before: map<string, Session>, after: map<string, Session>)
    requires Healed(parse, before, after) && AllCoherent(parse, before)
    ensures AllCoherent(parse, after)
  {
    forall u | u in after ensures Coherent(parse, after[u]) {
      assert Coherent(parse, before[u]);
    }
  }

  // ---------------------------------------------------------------- sequences of calls

  /** After any listing the cache agrees with the bodies if it did before, and then a listing shows what parsing every body would. */
  method ListTwice(d: SnapshotDir, order: seq<string>) returns (first: seq<Summary>, second: seq<Summary>)
    requires d.Valid() && AllCoherent(d.parse, d.files) && forall u :: u in order ==> u in d.files
    modifies d`clock, d`writes, d`files
    ensures d.Valid() && AllCoherent(d.parse, d.files)
    ensures first == second == FullAll(d.parse, old(d.files), order)
    ensures d.files.Keys == old(d.files).Keys
    ensures d.Faultless() ==> forall u :: u in order && Parsed(d.parse, d.files[u]).Some? ==> Accepted(d.files[u])
  {
    ghost var parse, before := d.parse, d.files;
    CoherentListing(parse, before, order);
    first := d.List(order);
    ghost var mid := d.files;
    HealedCoherent(parse, before, mid);
    CoherentListing(parse, mid, order);
    second := d.List(order);
    HealedCoherent(parse, mid, d.files);
    HealedFull(parse, before, mid, order);
  }

  lemma {:induction false} HealedFull(parse: Decoder, before: map<string, Session>, after: map<string, Session>, order: seq<string>)
    requires Healed(parse, before, after) && forall u :: u in order ==> u in before
    ensures FullAll(parse, before, order) == FullAll(parse, after, order)
  {
    if order != [] {
      assert order[0] in order;
      assert forall u :: u in order[1..] ==> u in order;
      HealedFull(parse, before, after, order[1..]);
    }
  }

  datatype Op = SaveOp(uuid: string, snap: Snapshot, text: Bytes) | RewriteOp(uuid: string, text: Bytes) | ListOp(order: seq<string>)

  function TextOf(s: Session): Option<Bytes> {
    if s.body.Some? then Some(s.body.value.text) else None
  }

  /** The same sessions with the same body texts and names; file times and sidecars may differ. */
  predicate SameBodies(a: map<string, Session>, b: map<string, Session>) {
    a.Keys == b.Keys && forall u :: u in a ==> TextOf(a[u]) == TextOf(b[u]) && a[u].name == b[u].name
  }

  lemma {:induction false} SameBodiesSameListing(parse: Decoder, a: map<string, Session>, b: map<string, Session>, order: seq<string>)
    requires SameBodies(a, b) && forall u :: u in order ==> u in a
    ensures FullAll(parse, a, order) == FullAll(parse, b, order)
  {
    if order != [] {
      assert order[0] in order;
      assert forall u :: u in order[1..] ==> u in order;
      assert FullSummary(parse, order[0], a[order[0]]) == FullSummary(parse, order[0], b[order[0]]);
      hide FullSummary, SameBodies;
      SameBodiesSameListing(parse, a, b, order[1..]);
    }
  }

  /** What one call does to the bodies; `landed` tells whether its body write did. Sidecars play no part. */
  function AfterOp(files: map<string, Session>, op: Op, landed: bool): map<string, Session> {
    if op.ListOp? || !landed then files
    else
      var s := if op.uuid in files then files[op.uuid] else Session(None, None, None);
      files[op.uuid := s.(body := Some(File(op.text, 0)))]
  }

  function AfterOps(files: map<string, Session>, ops: seq<Op>, landed: seq<bool>): map<string, Session>
    requires |ops| == |landed|
    decreases |ops|
  {
    var n := |ops|;
    if n == 0 then files else AfterOp(AfterOps(files, ops[..n - 1], landed[..n - 1]), ops[n - 1], landed[n - 1])
  }

  /** The listings a sequence of calls must show: of every body as it then is, parsed in full. */
  function Expected(parse: Decoder, files: map<string, Session>, ops: seq<Op>, landed: seq<bool>): seq<seq<Summary>>
    requires |ops| == |landed|
    decreases |ops|
  {
    var n := |ops|;
    if n == 0 then []
    else
      var before := AfterOps(files, ops[..n - 1], landed[..n - 1]);
      var earlier := Expected(parse, files, ops[..n - 1], landed[..n - 1]);
      if ops[n - 1].ListOp? && forall u :: u in ops[n - 1].order ==> u in before then
        earlier + [FullAll(parse, before, ops[n - 1].order)]
      else earlier
  }

  lemma OneOpMore(parse: Decoder, files: map<string, Session>, ops: seq<Op>, i: nat, landed: seq<bool>, last: bool)
    requires i < |ops| && |landed| == i
    ensures var before := AfterOps(files, ops[..i], landed);
            && AfterOps(files, ops[..i + 1], landed + [last]) == AfterOp(before, ops[i], last)
            && Expected(parse, files, ops[..i + 1], landed + [last])
               == Expected(parse, files, ops[..i], landed)
                  + if ops[i].ListOp? && (forall u :: u in ops[i].order ==> u in before) then [FullAll(parse, before, ops[i].order)] else []
  {
    assert ops[..i + 1][..i] == ops[..i] && (landed + [last])[..i] == landed;
  }

  lemma HealedSameBodies(parse: Decoder, before: map<string, Session>, after: map<string, Session>, model: map<string, Session>)
    requires Healed(parse, before, after) && SameBodies(model, before)
    ensures SameBodies(model, after)
  {}

  /** An unsafe id never lands; with nothing failing everything else does. */
  predicate LandsRightly(op: Op, landed: bool, faultless: bool) {
    && (landed && op.SaveOp? ==> IsSafeUuid(op.uuid))
    && (faultless && !op.ListOp? && (op.SaveOp? ==> IsSafeUuid(op.uuid)) ==> landed)
  }

  lemma NoOps(parse: Decoder, files: map<string, Session>, ops: seq<Op>)
    ensures AfterOps(files, ops[..0], []) == files && Expected(parse, files, ops[..0], []) == []
    ensures SameBodies(files, files)
  {}

  /** One call, and whether its body write landed; a listing of sessions that are not there is not made. */
  method RunOp(d: SnapshotDir, op: Op, ghost model: map<string, Session>) returns (landed: bool, listing: Option<seq<Summary>>)
    requires d.Valid() && d.Strict() && AllCoherent(d.parse, d.files) && SameBodies(model, d.files)
    requires op.SaveOp? ==> d.parse(op.text) == Some(op.snap)
    modifies d`clock, d`writes, d`files
    ensures d.Valid() && AllCoherent(d.parse, d.files) && SameBodies(AfterOp(model, op, landed), d.files)
    ensures LandsRightly(op, landed, d.Faultless()) && (landed <==> !op.ListOp? && (op.SaveOp? ==> IsSafeUuid(op.uuid)) && !d.fails(old(d.writes)))
    ensures listing == if op.ListOp? && (forall u :: u in op.order ==> u in model) then Some(FullAll(d.parse, model, op.order)) else None
  {
    landed, listing := false, None;
    hide AllCoherent, Accepted, Parsed, Healed, NoneNewer;
    match op {
      case SaveOp(uuid, snap, text) =>
        var r := d.Save(uuid, snap, text);
        landed := r == Saved;
      case RewriteOp(uuid, text) =>
        landed := d.Rewrite(uuid, text);
      case ListOp(order) =>
        if forall u :: u in order ==> u in d.files {
          ghost var before := d.files;
          SameBodiesSameListing(d.parse, model, before, order);
          CoherentListing(d.parse, before, order);
          var out := d.List(order);
          HealedCoherent(d.parse, before, d.files);
          HealedSameBodies(d.parse, before, d.files, model);
          listing := Some(out);
        }
    }
  }

  /** The first i calls were made: what they should have shown, and the bodies they should have left. */
  ghost predicate OpsMade(parse: Decoder, files: map<string, Session>, ops: seq<Op>, i: nat, landed: seq<bool>, listings: seq<seq<Summary>>,
                          now: map<string, Session>, faultless: bool)
  {
    && i <= |ops| && |landed| == i && (forall j :: 0 <= j < i ==> LandsRightly(ops[j], landed[j], faultless))
    && SameBodies(AfterOps(files, ops[..i], landed), now) && listings == Expected(parse, files, ops[..i], landed)
  }

  lemma OpsMadeStep(parse: Decoder, files: map<string, Session>, ops: seq<Op>, i: nat, landed: seq<bool>, listings: seq<seq<Summary>>,
                    before: map<string, Session>, after: map<string, Session>, faultless: bool, last: bool, listing: Option<seq<Summary>>)
    requires i < |ops| && OpsMade(parse, files, ops, i, landed, listings, before, faultless)
    requires LandsRightly(ops[i], last, faultless)
    requires var model := AfterOps(files, ops[..i], landed);
             && SameBodies(AfterOp(model, ops[i], last), after)
             && listing == if ops[i].ListOp? && (forall u :: u in ops[i].order ==> u in model) then Some(FullAll(parse, model, ops[i].order)) else None
    ensures OpsMade(parse, files, ops, i + 1, landed + [last], if listing.Some? then listings + [listing.value] else listings, after, faultless)
  {
    OneOpMore(parse, files, ops, i, landed, last);
    hide AfterOps, AfterOp, Expected, SameBodies, LandsRightly, FullAll;
  }

  /**
   * Over any sequence of calls that do not overlap, with every write later than
   * the last and any write lost, an accepted sidecar always agrees with its body,
   * the bodies are those of the writes that landed, and every listing shows what
   * parsing them in full would.
   */
  method RunOps(d: SnapshotDir, ops: seq<Op>) returns (listings: seq<seq<Summary>>, landed: seq<bool>)
    requires d.Valid() && d.Strict() && AllCoherent(d.parse, d.files)
    requires forall op :: op in ops && op.SaveOp? ==> d.parse(op.text) == Some(op.snap)
    modifies d`clock, d`writes, d`files
    ensures d.Valid() && AllCoherent(d.parse, d.files) && |landed| == |ops|
    ensures forall i :: 0 <= i < |ops| ==> LandsRightly(ops[i], landed[i], d.Faultless())
    ensures SameBodies(AfterOps(old(d.files), ops, landed), d.files)
    ensures listings == Expected(d.parse, old(d.files), ops, landed)
  {
    listings, landed := [], [];
    ghost var files, faultless := d.files, d.Faultless();
    NoOps(d.parse, files, ops);
    hide AllCoherent, NoneNewer, SameBodies, AfterOp, LandsRightly, Expected, AfterOps;
    for i := 0 to |ops|
      invariant d.Valid() && AllCoherent(d.parse, d.files) && OpsMade(d.parse, files, ops, i, landed, listings, d.files, faultless)
    {
      ghost var before := d.files;
      var did, listing := RunOp(d, ops[i], AfterOps(files, ops[..i], landed));
      OpsMadeStep(d.parse, files, ops, i, landed, listings, before, d.files, faultless, did, listing);
      if listing.Some? {
        listings := listings + [listing.value];
      }
      landed := landed + [did];
    }
    assert ops[..|ops|] == ops;
  }

  // ---------------------------------------------------------------- overlapping calls

  /**
   * One session while saves, healing listings and foreign writes overlap:
   * sidecars computed but not yet written, and every text the body has had.
   */
  datatype Overlap = Overlap(session: Session, pending: set<Meta>, past: set<Bytes>, clock: nat)

  datatype Label = Tick | Body(text: Bytes, saving: bool) | BeginHeal | Land(m: Meta) | Lose(m: Meta) | Smash(meta: Option<Sidecar>)

  /** A smashed sidecar is gone or does not decode. */
  predicate Enabled(s: Overlap, l: Label) {
    match l
    case Tick => true
    case Body(_, _) => true
    case BeginHeal => s.session.body.Some? && !Accepted(s.session)
    case Land(m) => m in s.pending
    case Lose(m) => m in s.pending
    case Smash(meta) => meta.Some? ==> meta.value.meta.None?
  }

  function Plus(pending: set<Meta>, m: Option<Meta>): set<Meta> {
    if m.Some? then pending + {m.value} else pending
  }

  function Apply(parse: Decoder, s: Overlap, l: Label): Overlap
    requires Enabled(s, l)
  {
    match l
    case Tick => s.(clock := s.clock + 1)
    case Body(text, saving) =>
      var session := s.session.(body := Some(File(text, s.clock)));
      s.(session := session, past := s.past + {text}, pending := if saving then Plus(s.pending, Parsed(parse, session)) else s.pending)
    case BeginHeal => s.(pending := Plus(s.pending, Parsed(parse, s.session)))
    case Land(m) => s.(session := s.session.(meta := Some(Sidecar(Some(m), s.clock))), pending := s.pending - {m})
    case Lose(m) => s.(pending := s.pending - {m})
    case Smash(meta) => s.(session := s.session.(meta := meta))
  }

  ghost predicate Runs(parse: Decoder, s: Overlap, ls: seq<Label>, t: Overlap)
    decreases |ls|
  {
    if ls == [] then s == t else Enabled(s, ls[0]) && Runs(parse, Apply(parse, s, ls[0]), ls[1..], t)
  }

  const EMPTY: Overlap := Overlap(Session(None, None, None), {}, {}, 0)

  ghost predicate Reachable(parse: Decoder, t: Overlap) {
    exists ls :: Runs(parse, EMPTY, ls, t)
  }

  function ParsedText(parse: Decoder, text: Bytes): Option<Meta> {
    if parse(text).None? then None else Some(MetaOf(parse(text).value, |text|))
  }

  /** The sidecar is that of some text the body has had. */
  ghost predicate FromPast(parse: Decoder, past: set<Bytes>, m: Meta) {
    exists t :: t in past && ParsedText(parse, t) == Some(m)
  }

  ghost predicate Honest(parse: Decoder, s: Overlap) {
    && (s.session.body.Some? ==> s.session.body.value.text in s.past)
    && (forall m :: m in s.pending ==> FromPast(parse, s.past, m))
    && (s.session.meta.Some? && s.session.meta.value.meta.Some? ==> FromPast(parse, s.past, s.session.meta.value.meta.value))
  }

  lemma HonestStep(parse: Decoder, s: Overlap, l: Label)
    requires Honest(parse, s) && Enabled(s, l)
    ensures Honest(parse, Apply(parse, s, l))
  {
    var t := Apply(parse, s, l);
    assert forall m :: FromPast(parse, s.past, m) ==> FromPast(parse, t.past, m);
    if l.Body? || l.BeginHeal? {
      var text := t.session.body.value.text;
      assert Parsed(parse, t.session) == ParsedText(parse, text) && text in t.past;
      assert Parsed(parse, t.session).Some? ==> FromPast(parse, t.past, Parsed(parse, t.session).value);
    }
    hide FromPast;
  }

  lemma {:induction false} HonestRun(parse: Decoder, s: Overlap, ls: seq<Label>, t: Overlap)
    requires Honest(parse, s) && Runs(parse, s, ls, t)
    ensures Honest(parse, t)
    decreases |ls|
  {
    hide Honest;
    if ls != [] {
      HonestStep(parse, s, ls[0]);
      HonestRun(parse, Apply(parse, s, ls[0]), ls[1..], t);
    }
  }

  /**
   * Whatever overlaps and however file times tie, an accepted sidecar is the
   * summary of a text the body has had that is exactly as long as the present
   * one. So it is right whenever stale texts differ from the present one in length.
   */
  lemma AcceptedIsOfSameLength(parse: Decoder, s: Overlap)
    requires Reachable(parse, s) && Accepted(s.session)
    ensures exists t :: t in s.past && |t| == |s.session.body.value.text| && ParsedText(parse, t) == s.session.meta.value.meta
    ensures (forall t :: t in s.past && |t| == |s.session.body.value.text| ==> t == s.session.body.value.text) ==> Coherent(parse, s.session)
  {
    var ls :| Runs(parse, EMPTY, ls, s);
    HonestRun(parse, EMPTY, ls, s);
    var m := s.session.meta.value.meta.value;
    var t :| t in s.past && ParsedText(parse, t) == Some(m);
    assert |t| == m.bodyLen;
  }

  /** Two equally long bodies written in one tick: the second is shown with the first one's summary. */
  lemma TieShowsStale(parse: Decoder, a: Bytes, b: Bytes)
    requires |a| == |b| && parse(a).Some? && parse(b).Some? && ParsedText(parse, a) != ParsedText(parse, b)
    ensures exists s :: Reachable(parse, s) && Accepted(s.session) && !Coherent(parse, s.session)
                        && s.session.body.value == File(b, 0) && s.session.meta.value.mtime == 0
  {
    var m := ParsedText(parse, a).value;
    var s1 := Apply(parse, EMPTY, Body(a, true));
    assert Parsed(parse, s1.session) == Some(m);
    var s2 := Apply(parse, s1, Land(m));
    var s3 := Apply(parse, s2, Body(b, false));
    Three(parse, EMPTY, Body(a, true), Land(m), Body(b, false));
    assert Reachable(parse, s3);
  }

  lemma Three(parse: Decoder, s: Overlap, x: Label, y: Label, z: Label)
    requires Enabled(s, x) && Enabled(Apply(parse, s, x), y) && Enabled(Apply(parse, Apply(parse, s, x), y), z)
    ensures Runs(parse, s, [x, y, z], Apply(parse, Apply(parse, Apply(parse, s, x), y), z))
  {
    hide Apply, Enabled;
    var t := Apply(parse, Apply(parse, Apply(parse, s, x), y), z);
    assert [x, y, z][1..] == [y, z] && [y, z][1..] == [z] && [z][1..] == [];
    assert Runs(parse, t, [], t);
    assert Runs(parse, Apply(parse, Apply(parse, s, x), y), [z], t);
    assert Runs(parse, Apply(parse, s, x), [y, z], t);
  }
}
