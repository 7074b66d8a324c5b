/**
 * Writing (or replacing) the archive folder of a session: build off to the side,
 * move every previous folder of the session aside, land the new one, then fold
 * the displaced copies into its history. Any call may fail and the process may
 * die after any of them.
 */
module ArchiveStore {
  import opened Wrappers
  import opened SnapshotIdentity
  import opened SessionsDir
  import opened VersionNames

  /** The snapshot store's policy for ids, and long enough for the short form to mean something. */
  predicate IsSafeUuid(uuid: string) {
    8 <= |uuid| <= 128 && SafeChars(uuid)
  }

  /** A previous folder moved aside, and the history name it will get if it is a version. */
  datatype Moved = Moved(orig: Name, aside: Name, versionName: Option<HName>)

  /** An unreadable old snapshot counts as different: preserve, never drop. */
  predicate Changed(v: Snap, stat: Stat) {
    v.stat.None? || !SameContent(v.stat.value, stat)
  }

  // ---------------------------------------------------------------- promises

  /**
   * No version is lost: each is still stored, unless its content is that of the
   * new snapshot and the new snapshot has landed.
   */
  ghost predicate NoVersionLost(d0: Dir, d1: Dir, uuid: string, snap: Snap) {
    forall v :: Kept(d0, uuid, v) ==> Kept(d1, uuid, v) || (snap.stat.Some? && !Changed(v, snap.stat.value) && Kept(d1, uuid, snap))
  }

  /** What every write keeps, whatever failed. */
  ghost predicate SafeWrite(d0: Dir, d1: Dir, uuid: string, snap: Snap) {
    && NoVersionLost(d0, d1, uuid, snap)
    && (forall v :: Kept(d1, uuid, v) ==> Kept(d0, uuid, v) || v == snap)
    && Foreign(d0, uuid) == Foreign(d1, uuid)
    && (HasArchive(d0, uuid) ==> HasArchive(d1, uuid))
    && (StoredOnce(d0, uuid) && !Kept(d0, uuid, snap) ==> StoredOnce(d1, uuid))
    && (WellNamed(d0) ==> WellNamed(d1))
  }

  /** v belongs in the history of the folder that replaces everything in d0. */
  ghost predicate BelongsInHistory(d0: Dir, uuid: string, stat: Stat, v: Snap) {
    exists n :: IsArchive(d0, n, uuid) && (v in HistValues(d0[n]) || (v == d0[n].snap && Changed(v, stat)))
  }

  /** The same work folders, with the same contents. */
  ghost predicate SameTmps(d0: Dir, d1: Dir) {
    forall n: Name :: n.Tmp? ==> (n in d0 <==> n in d1) && (n in d0 ==> d0[n] == d1[n])
  }

  /** Exactly one folder of the session is left, and it holds everything. */
  ghost predicate CompleteWrite(d0: Dir, d1: Dir, uuid: string, final: Name, snap: Snap)
    requires snap.stat.Some?
  {
    && (forall n :: IsArchive(d1, n, uuid) <==> n == final)
    && final in d1 && d1[final].snap == snap
    && (forall v :: v in HistValues(d1[final]) <==> BelongsInHistory(d0, uuid, snap.stat.value, v))
    && Foreign(d0, uuid) == Foreign(d1, uuid)
    && SameTmps(d0, d1)
  }

  /** Another session, or a damaged folder, sits on the name the new folder wants. */
  predicate NameTaken(d: Dir, uuid: string, final: Name) {
    final in d && !IsArchive(d, final, uuid)
  }

  // ---------------------------------------------------------------- discovery

  ghost predicate Previous(d: Dir, uuid: string, names: seq<Name>) {
    && (forall i :: 0 <= i < |names| ==> IsArchive(d, names[i], uuid))
    && (forall i, j :: 0 <= i < j < |names| ==> names[i] != names[j])
  }

  /** The folder's name makes it worth reading its meta. */
  predicate Candidate(n: Name, short: string) {
    match n
    case Visible(text) => EndsWith(text, "-" + short)
    case Old(_, _, _, _) => true
    case Tmp(_, _, _) => false
  }

  predicate IsPrevious(d: Dir, uuid: string, n: Name) {
    n in d && Candidate(n, Uuid8(uuid)) && d[n].snap.uuid == Some(uuid)
  }

  /** The previous folders of a session, in the order they are listed. */
  function Found(d: Dir, uuid: string, listing: seq<Name>): seq<Name>
    decreases |listing|
  {
    if listing == [] then []
    else
      var earlier, n := Found(d, uuid, listing[..|listing| - 1]), listing[|listing| - 1];
      if IsPrevious(d, uuid, n) then earlier + [n] else earlier
  }

  lemma {:induction false} FoundExactly(d: Dir, uuid: string, listing: seq<Name>, n: Name)
    ensures n in Found(d, uuid, listing) <==> n in listing && IsPrevious(d, uuid, n)
    decreases |listing|
  {
    if listing != [] {
      var rest, last := listing[..|listing| - 1], listing[|listing| - 1];
      assert listing == rest + [last];
      FoundExactly(d, uuid, rest, n);
    }
  }

  /** Where folders are named after their sessions, none is missed. */
  lemma FoundAll(d: Dir, uuid: string, listing: seq<Name>)
    requires WellNamed(d) && Lists(listing, d.Keys)
    ensures forall n :: IsArchive(d, n, uuid) ==> n in Found(d, uuid, listing)
  {
    forall n | IsArchive(d, n, uuid) ensures n in Found(d, uuid, listing) {
      FoundExactly(d, uuid, listing, n);
    }
  }

  /** The session's previous folders. The only authority is the uuid in each meta, never the name. */
  method Discover(fs: SessionsDir, uuid: string) returns (previous: seq<Name>)
    modifies fs`outcomes, fs`down
    ensures Previous(fs.dir, uuid, previous)
    ensures old(fs.Clean()) ==> fs.Clean() && previous == Found(fs.dir, uuid, fs.names(fs.counter, fs.dir.Keys))
    ensures old(fs.Alive()) ==> fs.Alive()
    ensures old(fs.Clean()) && WellNamed(fs.dir) ==> forall n :: IsArchive(fs.dir, n, uuid) ==> n in previous
  {
    previous := [];
    var listed := fs.Attempt();
    if !listed {
      return;
    }
    var listing := fs.names(fs.counter, fs.dir.Keys);
    for i := 0 to |listing|
      invariant Previous(fs.dir, uuid, previous)
      invariant forall n :: n in previous ==> n in listing[..i]
      invariant old(fs.Clean()) ==> fs.Clean() && previous == Found(fs.dir, uuid, listing[..i])
      invariant old(fs.Alive()) ==> fs.Alive()
    {
      var n := listing[i];
      assert listing[..i + 1][..i] == listing[..i] && n in fs.dir.Keys;
      assert n !in listing[..i];
      if Candidate(n, Uuid8(uuid)) {
        var readable := fs.Attempt();
        if readable && fs.dir[n].snap.uuid == Some(uuid) {
          previous := previous + [n];
        }
      }
    }
    assert listing[..|listing|] == listing;
    if old(fs.Clean()) && WellNamed(fs.dir) {
      FoundAll(fs.dir, uuid, listing);
    }
  }

  // ---------------------------------------------------------------- moving aside

  /** What is known of the displaced folders whatever failed: each is set aside under a name of its own. */
  ghost predicate SetAside(d: Dir, uuid: string, ms: seq<Moved>, stat: Stat) {
    && (forall i :: 0 <= i < |ms| ==> IsArchive(d, ms[i].aside, uuid) && ms[i].aside.Old?)
    && (forall i, j :: 0 <= i < j < |ms| ==> ms[i].aside != ms[j].aside)
    && (forall i :: 0 <= i < |ms| && ms[i].versionName.None? ==> !Changed(d[ms[i].aside].snap, stat))
    && (forall i :: 0 <= i < |ms| && ms[i].versionName.Some? ==> ms[i].versionName.value.V?)
  }

  function Origs(ms: seq<Moved>): set<Name> {
    set i | 0 <= i < |ms| :: ms[i].orig
  }

  function Asides(ms: seq<Moved>): set<Name> {
    set i | 0 <= i < |ms| :: ms[i].aside
  }

  /** Distinct folders of d0, each with a set-aside name of its own that d0 does not use. */
  ghost predicate MovesOf(d0: Dir, ms: seq<Moved>) {
    && (forall i :: 0 <= i < |ms| ==> ms[i].orig in d0 && !ms[i].orig.Tmp? && ms[i].aside !in d0 && ms[i].aside.Old?)
    && (forall i, j :: 0 <= i < j < |ms| ==> ms[i].orig != ms[j].orig && ms[i].aside != ms[j].aside)
  }

  /** d is d0 with the moves from the k-th on done and the earlier ones undone. */
  ghost predicate Displaced(d0: Dir, d: Dir, ms: seq<Moved>, k: nat)
    requires k <= |ms|
  {
    && d.Keys == d0.Keys - Origs(ms[k..]) + Asides(ms[k..])
    && (forall n :: n in d0 && n in d ==> d[n] == d0[n])
    && (forall j :: k <= j < |ms| ==> ms[j].orig in d0 && ms[j].aside in d && d[ms[j].aside] == d0[ms[j].orig])
  }

  /** With nothing failing, exactly the folders that differ get a version name. */
  ghost predicate NamesVersions(d0: Dir, ms: seq<Moved>, stat: Stat) {
    forall i :: 0 <= i < |ms| && ms[i].orig in d0 ==> (ms[i].versionName.Some? <==> Changed(d0[ms[i].orig].snap, stat))
  }

  /** The history name a displaced folder gets, if it is a version. */
  function VersionName(v: Snap, stat: Stat, i: nat): Option<HName> {
    if Changed(v, stat) then Some(V(v.stamp.GetOr(0), i)) else None
  }

  /** With nothing failing, the previous folders are set aside in order under consecutive numbers. */
  ghost predicate Planned(d0: Dir, uuid: string, stat: Stat, previous: seq<Name>, ms: seq<Moved>, pid: nat, counter: nat) {
    && |ms| <= |previous|
    && forall i :: 0 <= i < |ms| ==>
         previous[i] in d0 && ms[i] == Moved(previous[i], Old(Uuid8(uuid), pid, counter + i, i), VersionName(d0[previous[i]].snap, stat, i))
  }

  /** The set-aside name and, for a snapshot that differs, the version name of one previous folder. */
  method PlanMove(fs: SessionsDir, uuid: string, stat: Stat, n: Name, i: nat) returns (m: Moved)
    requires n in fs.dir
    modifies fs`outcomes, fs`down, fs`counter
    ensures m.orig == n && m.aside == Old(Uuid8(uuid), fs.pid, old(fs.counter), i)
    ensures m.versionName.None? ==> !Changed(fs.dir[n].snap, stat)
    ensures m.versionName.Some? ==> m.versionName.value.V?
    ensures old(fs.NextFails()) ==> m.versionName.Some?
    ensures old(fs.Clean()) ==> fs.Clean() && m.versionName == VersionName(fs.dir[n].snap, stat, i)
    ensures old(fs.Alive()) ==> fs.Alive()
    ensures fs.counter == old(fs.counter) + 1
  {
    var readable := fs.Attempt();
    var snap := fs.dir[n].snap;
    var changed := !readable || Changed(snap, stat);
    var seqNo := fs.NextSeq();
    m := Moved(n, Old(Uuid8(uuid), fs.pid, seqNo, i), if changed then Some(V(snap.stamp.GetOr(0), i)) else None);
  }

  ghost predicate StillThere(d0: Dir, d: Dir, previous: seq<Name>, i: nat) {
    forall j :: i <= j < |previous| ==> previous[j] in d0 && previous[j] in d && d[previous[j]] == d0[previous[j]]
  }

  /** The displacement so far is exactly the renames it made. */
  ghost predicate DisplacedExactly(d0: Dir, d: Dir, uuid: string, stat: Stat, previous: seq<Name>, ms: seq<Moved>, pid: nat, c0: nat, counter: nat) {
    && counter == c0 + |ms| && FreshNames(d0, pid, counter) && FreshNames(d, pid, counter)
    && MovesOf(d0, ms) && Displaced(d0, d, ms, 0) && Planned(d0, uuid, stat, previous, ms, pid, c0)
  }

  lemma PlannedNames(d0: Dir, uuid: string, stat: Stat, previous: seq<Name>, ms: seq<Moved>, pid: nat, c0: nat)
    requires Planned(d0, uuid, stat, previous, ms, pid, c0)
    ensures NamesVersions(d0, ms, stat)
  {}

  lemma SetAsideOne(d0: Dir, d: Dir, uuid: string, ms: seq<Moved>, stat: Stat, previous: seq<Name>, m: Moved)
    requires Previous(d0, uuid, previous) && StillThere(d0, d, previous, |ms|) && |ms| < |previous| && m.orig == previous[|ms|]
    requires SetAside(d, uuid, ms, stat)
    requires m.aside.Old? && m.aside !in d && (m.versionName.None? ==> !Changed(d[m.orig].snap, stat))
    requires m.versionName.Some? ==> m.versionName.value.V?
    requires forall i :: 0 <= i < |ms| ==> ms[i].aside != m.orig
    ensures SetAside(RenameDir(d, m.orig, m.aside), uuid, ms + [m], stat)
    ensures StillThere(d0, RenameDir(d, m.orig, m.aside), previous, |ms| + 1)
  {}

  /** Whatever is visible afterwards was visible before, and is unchanged. */
  ghost predicate VisibleShrinks(d0: Dir, d: Dir) {
    forall n: Name :: n.Visible? && n in d ==> n in d0 && d[n] == d0[n]
  }

  ghost predicate NoVisibleArchive(d: Dir, uuid: string) {
    forall n: Name :: n.Visible? ==> !IsArchive(d, n, uuid)
  }

  /** The listing shows this folder for the session and no other. */
  ghost predicate OnlyVisibleArchive(d: Dir, uuid: string, final: Name) {
    forall n: Name :: n.Visible? && IsArchive(d, n, uuid) ==> n == final
  }

  /** The displaced folders lie aside whole, and their visible names are free. */
  ghost predicate WholeAside(d0: Dir, d: Dir, ms: seq<Moved>) {
    && (forall j :: 0 <= j < |ms| ==> ms[j].orig in d0 && ms[j].aside in d && d[ms[j].aside] == d0[ms[j].orig])
    && (forall j :: 0 <= j < |ms| && ms[j].orig.Visible? ==> ms[j].orig !in d)
    && VisibleShrinks(d0, d)
  }

  /** What holds after the first |ms| previous folders were moved aside. */
  ghost predicate DisplaceInv(d0: Dir, d: Dir, uuid: string, stat: Stat, previous: seq<Name>, ms: seq<Moved>) {
    && |ms| <= |previous| && (forall j :: 0 <= j < |ms| ==> ms[j].orig == previous[j])
    && SetAside(d, uuid, ms, stat) && StillThere(d0, d, previous, |ms|)
    && (forall k, j :: 0 <= k < |ms| <= j < |previous| ==> ms[k].aside != previous[j])
    && SameKept(d0, d, uuid) && (WellNamed(d0) ==> WellNamed(d)) && SameTmps(d0, d)
    && WholeAside(d0, d, ms)
  }

  lemma WholeAsideStep(d0: Dir, d: Dir, ms: seq<Moved>, m: Moved)
    requires WholeAside(d0, d, ms) && m.orig in d0 && m.orig in d && d[m.orig] == d0[m.orig]
    requires m.aside.Old? && m.aside !in d && forall j :: 0 <= j < |ms| ==> ms[j].aside != m.orig
    ensures WholeAside(d0, RenameDir(d, m.orig, m.aside), ms + [m])
  {}

  lemma DisplaceStep(d0: Dir, d: Dir, uuid: string, stat: Stat, previous: seq<Name>, ms: seq<Moved>, m: Moved)
    requires Previous(d0, uuid, previous) && DisplaceInv(d0, d, uuid, stat, previous, ms)
    requires |ms| < |previous| && m.orig == previous[|ms|] && m.aside.Old? && m.aside !in d
    requires m.versionName.None? ==> !Changed(d[m.orig].snap, stat)
    requires m.versionName.Some? ==> m.versionName.value.V?
    ensures DisplaceInv(d0, RenameDir(d, m.orig, m.aside), uuid, stat, previous, ms + [m])
  {
    RenameKeeps(d, m.orig, m.aside, uuid);
    SetAsideOne(d0, d, uuid, ms, stat, previous, m);
    WholeAsideStep(d0, d, ms, m);
    SameKeptTransitive(d0, d, RenameDir(d, m.orig, m.aside), uuid);
  }

  lemma FreshStep(d: Dir, m: Moved, short: string, pid: nat, counter: nat, i: nat)
    requires FreshNames(d, pid, counter) && m.orig in d && m.aside == Old(short, pid, counter, i)
    ensures m.aside !in d
    ensures FreshNames(d, pid, counter + 1) && FreshNames(RenameDir(d, m.orig, m.aside), pid, counter + 1)
  {}

  lemma PlannedStep(d0: Dir, uuid: string, stat: Stat, previous: seq<Name>, ms: seq<Moved>, m: Moved, pid: nat, c0: nat)
    requires Planned(d0, uuid, stat, previous, ms, pid, c0) && |ms| < |previous| && m.orig == previous[|ms|] && m.orig in d0
    requires m.aside == Old(Uuid8(uuid), pid, c0 + |ms|, |ms|) && m.versionName == VersionName(d0[m.orig].snap, stat, |ms|)
    ensures Planned(d0, uuid, stat, previous, ms + [m], pid, c0)
  {
    hide VersionName;
  }

  lemma DisplaceExactlyStep(d0: Dir, d: Dir, uuid: string, stat: Stat, previous: seq<Name>, ms: seq<Moved>, m: Moved, pid: nat, c0: nat, counter: nat)
    requires DisplacedExactly(d0, d, uuid, stat, previous, ms, pid, c0, counter) && |ms| < |previous| && m.orig == previous[|ms|]
    requires m.orig in d0 && m.orig in d && !m.orig.Tmp? && m.aside == Old(Uuid8(uuid), pid, counter, |ms|)
    requires forall i :: 0 <= i < |ms| ==> ms[i].orig != m.orig
    requires m.versionName == VersionName(d0[m.orig].snap, stat, |ms|)
    ensures m.aside !in d
    ensures DisplacedExactly(d0, RenameDir(d, m.orig, m.aside), uuid, stat, previous, ms + [m], pid, c0, counter + 1)
  {
    FreshStep(d, m, Uuid8(uuid), pid, counter, |ms|);
    FreshStep(d0, m, Uuid8(uuid), pid, counter, |ms|);
    PlannedStep(d0, uuid, stat, previous, ms, m, pid, c0);
    ExtendDisplaced(d0, d, ms, m);
    hide VersionName, Displaced, MovesOf, FreshNames, Planned, RenameDir;
  }

  lemma NothingDisplaced(d: Dir, uuid: string, stat: Stat, previous: seq<Name>, pid: nat, counter: nat)
    requires Previous(d, uuid, previous)
    ensures DisplaceInv(d, d, uuid, stat, previous, [])
    ensures FreshNames(d, pid, counter) ==> DisplacedExactly(d, d, uuid, stat, previous, [], pid, counter, counter)
  {}

  /** Move the next previous folder aside. */
  method DisplaceOne(fs: SessionsDir, uuid: string, stat: Stat, previous: seq<Name>, ms: seq<Moved>, ghost d0: Dir, ghost clean: bool, ghost c0: nat)
    returns (ok: bool, more: seq<Moved>)
    requires Previous(d0, uuid, previous) && DisplaceInv(d0, fs.dir, uuid, stat, previous, ms) && |ms| < |previous|
    requires clean ==> fs.Clean() && DisplacedExactly(d0, fs.dir, uuid, stat, previous, ms, fs.pid, c0, fs.counter)
    modifies fs`dir, fs`outcomes, fs`down, fs`counter
    ensures |more| == (if ok then |ms| + 1 else |ms|) && DisplaceInv(d0, fs.dir, uuid, stat, previous, more)
    ensures fs.counter >= old(fs.counter) && (old(fs.Clean()) ==> fs.Clean()) && (old(fs.Alive()) ==> fs.Alive()) && (old(fs.Numbered()) ==> fs.Numbered())
    ensures clean ==> ok && DisplacedExactly(d0, fs.dir, uuid, stat, previous, more, fs.pid, c0, fs.counter)
  {
    hide Kept, SameKept, SetAside, WholeAside, SameTmps, MovesOf, Displaced, Planned, WellNamed, FreshNames, VersionName, NumberedBelow;
    ghost var d := fs.dir;
    ghost var counter := fs.counter;
    var m := PlanMove(fs, uuid, stat, previous[|ms|], |ms|);
    if clean {
      DisplaceExactlyStep(d0, d, uuid, stat, previous, ms, m, fs.pid, c0, counter);
    }
    ok := fs.Rename(m.orig, m.aside);
    if NumberedBelow(d, fs.pid, counter) {
      NumberedLater(d, fs.pid, counter, fs.counter);
      if ok {
        NumberedRename(d, m.orig, m.aside, fs.pid, fs.counter);
      }
    }
    if !ok {
      return false, ms;
    }
    DisplaceStep(d0, d, uuid, stat, previous, ms, m);
    more := ms + [m];
  }

  /** Move the previous folders aside one by one; stop at the first that will not move. */
  method Displace(fs: SessionsDir, uuid: string, stat: Stat, previous: seq<Name>) returns (ok: bool, ms: seq<Moved>)
    requires Previous(fs.dir, uuid, previous)
    modifies fs`dir, fs`outcomes, fs`down, fs`counter
    ensures DisplaceInv(old(fs.dir), fs.dir, uuid, stat, previous, ms)
    ensures ok ==> |ms| == |previous|
    ensures fs.counter >= old(fs.counter) && (old(fs.Clean()) ==> fs.Clean()) && (old(fs.Alive()) ==> fs.Alive()) && (old(fs.Numbered()) ==> fs.Numbered())
    ensures old(fs.Clean()) && FreshNames(old(fs.dir), fs.pid, old(fs.counter)) ==>
              ok && DisplacedExactly(old(fs.dir), fs.dir, uuid, stat, previous, ms, fs.pid, old(fs.counter), fs.counter)
  {
    ok, ms := true, [];
    ghost var d0, c0 := fs.dir, fs.counter;
    ghost var clean := fs.Clean() && FreshNames(d0, fs.pid, fs.counter);
    NothingDisplaced(d0, uuid, stat, previous, fs.pid, c0);
    hide Previous, DisplaceInv, DisplacedExactly, FreshNames, NumberedBelow;
    for i := 0 to |previous|
      invariant |ms| == i && DisplaceInv(d0, fs.dir, uuid, stat, previous, ms)
      invariant fs.counter >= old(fs.counter) && (old(fs.Clean()) ==> fs.Clean()) && (old(fs.Alive()) ==> fs.Alive()) && (old(fs.Numbered()) ==> fs.Numbered())
      invariant clean ==> fs.Clean() && DisplacedExactly(d0, fs.dir, uuid, stat, previous, ms, fs.pid, c0, fs.counter)
    {
      ok, ms := DisplaceOne(fs, uuid, stat, previous, ms, d0, clean, c0);
      if !ok {
        return;
      }
    }
  }

  lemma {:induction false} SetsExtend(ms: seq<Moved>, m: Moved)
    ensures Origs(ms + [m]) == Origs(ms) + {m.orig}
    ensures Asides(ms + [m]) == Asides(ms) + {m.aside}
  {
    var e := ms + [m];
    assert forall i :: 0 <= i < |ms| ==> e[i] == ms[i];
    assert e[|ms|] == m;
  }

  lemma KeysAfterRename(d: Dir, keys: set<Name>, origs: set<Name>, asides: set<Name>, a: Name, b: Name)
    requires d.Keys == keys - origs + asides && a in d && b !in d && a !in asides
    ensures RenameDir(d, a, b).Keys == keys - (origs + {a}) + (asides + {b})
  {
    assert RenameDir(d, a, b).Keys == d.Keys - {a} + {b};
  }

  lemma ExtendMoves(d0: Dir, ms: seq<Moved>, m: Moved)
    requires MovesOf(d0, ms)
    requires m.orig in d0 && !m.orig.Tmp? && m.aside !in d0 && m.aside.Old?
    requires forall i :: 0 <= i < |ms| ==> ms[i].orig != m.orig && ms[i].aside != m.aside
    ensures MovesOf(d0, ms + [m])
  {}

  lemma ExtendDisplaced(d0: Dir, d: Dir, ms: seq<Moved>, m: Moved)
    requires MovesOf(d0, ms) && Displaced(d0, d, ms, 0)
    requires m.orig in d0 && m.orig in d && !m.orig.Tmp? && m.aside !in d && m.aside !in d0 && m.aside.Old?
    requires forall i :: 0 <= i < |ms| ==> ms[i].orig != m.orig
    ensures MovesOf(d0, ms + [m]) && Displaced(d0, RenameDir(d, m.orig, m.aside), ms + [m], 0)
  {
    var e, es := RenameDir(d, m.orig, m.aside), ms + [m];
    assert ms[0..] == ms && es[0..] == es;
    ExtendMoves(d0, ms, m);
    assert e.Keys == d0.Keys - Origs(es) + Asides(es) by {
      SetsExtend(ms, m);
      KeysAfterRename(d, d0.Keys, Origs(ms), Asides(ms), m.orig, m.aside);
    }
    assert e[m.aside] == d0[m.orig];
    forall j | 0 <= j < |es| ensures es[j].aside in e && e[es[j].aside] == d0[es[j].orig] {
      if j < |ms| {
        assert es[j] == ms[j];
      }
    }
  }

  // ---------------------------------------------------------------- rollback

  lemma SetsDrop(d0: Dir, ms: seq<Moved>, i: nat)
    requires i < |ms| && MovesOf(d0, ms)
    ensures Origs(ms[i..]) == {ms[i].orig} + Origs(ms[i + 1..])
    ensures Asides(ms[i..]) == {ms[i].aside} + Asides(ms[i + 1..])
    ensures ms[i].orig !in Origs(ms[i + 1..]) && ms[i].orig !in Asides(ms[i + 1..])
    ensures ms[i].aside !in Asides(ms[i + 1..])
  {
    var all, rest := ms[i..], ms[i + 1..];
    assert forall j :: 0 <= j < |rest| ==> rest[j] == ms[i + 1 + j] && all[j + 1] == rest[j];
    assert forall j :: 0 < j < |all| ==> all[j] == rest[j - 1];
    assert all[0] == ms[i];
  }

  lemma UndoDisplaced(d0: Dir, d: Dir, ms: seq<Moved>, i: nat)
    requires i < |ms| && MovesOf(d0, ms) && Displaced(d0, d, ms, i)
    ensures ms[i].aside in d && ms[i].orig !in d
    ensures Displaced(d0, RenameDir(d, ms[i].aside, ms[i].orig), ms, i + 1)
  {
    var o, a := ms[i].orig, ms[i].aside;
    SetsDrop(d0, ms, i);
    UndoOne(d0, d, Origs(ms[i + 1..]), Asides(ms[i + 1..]), o, a);
    forall j | i + 1 <= j < |ms| ensures ms[j].aside in RenameDir(d, a, o) && RenameDir(d, a, o)[ms[j].aside] == d0[ms[j].orig] {
      assert ms[j].aside != a && ms[j].aside != o;
    }
  }

  lemma UndoOne(d0: Dir, d: Dir, origs: set<Name>, asides: set<Name>, o: Name, a: Name)
    requires d.Keys == d0.Keys - ({o} + origs) + ({a} + asides)
    requires o in d0 && a !in d0 && o !in origs && o !in asides && a !in asides && a in d && d[a] == d0[o]
    requires forall n :: n in d0 && n in d ==> d[n] == d0[n]
    ensures o !in d
    ensures RenameDir(d, a, o).Keys == d0.Keys - origs + asides
    ensures forall n :: n in d0 && n in RenameDir(d, a, o) ==> RenameDir(d, a, o)[n] == d0[n]
  {
    assert RenameDir(d, a, o).Keys == d.Keys - {a} + {o};
  }

  /** The folders moved were named after the session. */
  ghost predicate NamedFor(uuid: string, ms: seq<Moved>) {
    forall m :: m in ms && m.orig.Visible? ==> EndsWith(m.orig.text, "-" + Uuid8(uuid))
  }

  /** What holds while the displaced folders from the i-th on still lie aside. */
  ghost predicate RollingBack(d0: Dir, before: Dir, d: Dir, uuid: string, ms: seq<Moved>, i: nat) {
    && i <= |ms| && SameKept(before, d, uuid) && VisibleShrinks(d0, d)
    && (WellNamed(before) && NamedFor(uuid, ms) ==> WellNamed(d))
    && (forall j :: i <= j < |ms| ==> ms[j].orig in d0 && ms[j].aside in d && d[ms[j].aside] == d0[ms[j].orig] && IsArchive(d, ms[j].aside, uuid))
  }

  lemma RollBackOne(d0: Dir, before: Dir, d: Dir, uuid: string, ms: seq<Moved>, i: nat)
    requires i < |ms| && RollingBack(d0, before, d, uuid, ms, i)
    requires !ms[i].orig.Tmp? && ms[i].aside.Old? && ms[i].orig !in d
    requires forall j :: i < j < |ms| ==> ms[j].aside != ms[i].aside
    ensures RollingBack(d0, before, RenameDir(d, ms[i].aside, ms[i].orig), uuid, ms, i + 1)
  {
    assert ms[i] in ms;
    RenameKeeps(d, ms[i].aside, ms[i].orig, uuid);
    SameKeptTransitive(before, d, RenameDir(d, ms[i].aside, ms[i].orig), uuid);
  }

  lemma NumberedBack(d0: Dir, d: Dir, m: Moved, pid: nat, counter: nat)
    requires NumberedBelow(d0, pid, counter) && NumberedBelow(d, pid, counter) && m.orig in d0 && m.aside in d
    ensures NumberedBelow(RenameDir(d, m.aside, m.orig), pid, counter)
  {
    NumberedRename(d, m.aside, m.orig, pid, counter);
  }

  /** Move one displaced folder back, if the file system lets it. */
  method MoveBackOne(fs: SessionsDir, uuid: string, ms: seq<Moved>, i: nat, ghost d0: Dir, ghost before: Dir, ghost clean: bool, ghost numbered: bool)
    requires i < |ms| && RollingBack(d0, before, fs.dir, uuid, ms, i)
    requires forall j :: 0 <= j < |ms| ==> !ms[j].orig.Tmp? && ms[j].aside.Old?
    requires forall i, j :: 0 <= i < j < |ms| ==> ms[i].aside != ms[j].aside
    requires clean ==> fs.Clean() && MovesOf(d0, ms) && Displaced(d0, fs.dir, ms, i)
    requires numbered ==> NumberedBelow(d0, fs.pid, fs.counter) && fs.Numbered()
    modifies fs`dir, fs`outcomes, fs`down
    ensures RollingBack(d0, before, fs.dir, uuid, ms, i + 1)
    ensures (old(fs.Clean()) ==> fs.Clean()) && (old(fs.Alive()) ==> fs.Alive())
    ensures clean ==> Displaced(d0, fs.dir, ms, i + 1)
    ensures numbered ==> fs.Numbered()
  {
    hide Kept, StoredOnce, Foreign, WellNamed, SameKept, VisibleShrinks, NamedFor, Displaced, MovesOf, NumberedBelow;
    ghost var d := fs.dir;
    if clean {
      UndoDisplaced(d0, d, ms, i);
    }
    var ok := fs.Rename(ms[i].aside, ms[i].orig);
    if ok {
      RollBackOne(d0, before, d, uuid, ms, i);
      if numbered {
        NumberedBack(d0, d, ms[i], fs.pid, fs.counter);
      }
    }
  }

  /** Move the displaced folders back, as far as the file system lets it. */
  method MoveBack(fs: SessionsDir, uuid: string, ms: seq<Moved>, ghost d0: Dir)
    requires RollingBack(d0, fs.dir, fs.dir, uuid, ms, 0) && WholeAside(d0, fs.dir, ms)
    requires forall j :: 0 <= j < |ms| ==> !ms[j].orig.Tmp? && ms[j].aside.Old?
    requires forall i, j :: 0 <= i < j < |ms| ==> ms[i].aside != ms[j].aside
    modifies fs`dir, fs`outcomes, fs`down
    ensures RollingBack(d0, old(fs.dir), fs.dir, uuid, ms, |ms|) && (old(fs.Clean()) ==> fs.Clean()) && (old(fs.Alive()) ==> fs.Alive())
    ensures NumberedBelow(d0, fs.pid, fs.counter) && old(fs.Numbered()) ==> fs.Numbered()
    ensures old(fs.Clean()) && MovesOf(d0, ms) && Displaced(d0, old(fs.dir), ms, 0) ==> Displaced(d0, fs.dir, ms, |ms|)
  {
    ghost var before := fs.dir;
    ghost var clean := fs.Clean() && MovesOf(d0, ms) && Displaced(d0, before, ms, 0);
    ghost var numbered := NumberedBelow(d0, fs.pid, fs.counter) && fs.Numbered();
    hide Kept, StoredOnce, Foreign, WellNamed, SameKept, VisibleShrinks, NamedFor, Displaced, MovesOf, NumberedBelow;
    for i := 0 to |ms|
      invariant RollingBack(d0, before, fs.dir, uuid, ms, i)
      invariant numbered ==> fs.Numbered()
      invariant old(fs.Clean()) ==> fs.Clean()
      invariant old(fs.Alive()) ==> fs.Alive()
      invariant clean ==> Displaced(d0, fs.dir, ms, i)
    {
      MoveBackOne(fs, uuid, ms, i, d0, before, clean, numbered);
    }
  }

  lemma TmpDropped(d0: Dir, before: Dir, d: Dir, e: Dir, uuid: string, ms: seq<Moved>, tmp: Name)
    requires RollingBack(d0, before, d, uuid, ms, |ms|) && tmp.Tmp? && (e == d || e == d - {tmp})
    ensures SameKept(before, e, uuid) && VisibleShrinks(d0, e) && (WellNamed(before) && NamedFor(uuid, ms) ==> WellNamed(e))
  {
    TmpIsInvisible(d, e, tmp, uuid);
    SameKeptTransitive(before, d, e, uuid);
    hide SameKept, WellNamed, NamedFor;
  }

  lemma UndoneIsOriginal(d0: Dir, d: Dir, ms: seq<Moved>)
    requires Displaced(d0, d, ms, |ms|)
    ensures d == d0
  {
    assert Origs(ms[|ms|..]) == {} && Asides(ms[|ms|..]) == {};
  }

  lemma AsideToStart(d0: Dir, d: Dir, uuid: string, ms: seq<Moved>, stat: Stat)
    requires SetAside(d, uuid, ms, stat) && WholeAside(d0, d, ms)
    ensures RollingBack(d0, d, d, uuid, ms, 0)
  {}

  /** Roll the displacement back and drop the work folder. */
  method Rollback(fs: SessionsDir, uuid: string, stat: Stat, ms: seq<Moved>, tmp: Name, ghost d0: Dir)
    requires SetAside(fs.dir, uuid, ms, stat) && tmp.Tmp? && tmp in fs.dir
    requires (forall m :: m in ms ==> !m.orig.Tmp?) && WholeAside(d0, fs.dir, ms)
    modifies fs`dir, fs`outcomes, fs`down
    ensures SameKept(old(fs.dir), fs.dir, uuid) && (old(fs.Clean()) ==> fs.Clean()) && (old(fs.Alive()) ==> fs.Alive())
    ensures NumberedBelow(d0, fs.pid, fs.counter) && old(fs.Numbered()) ==> fs.Numbered()
    ensures WellNamed(old(fs.dir)) && NamedFor(uuid, ms) ==> WellNamed(fs.dir)
    ensures VisibleShrinks(d0, fs.dir)
    ensures old(fs.Clean()) && MovesOf(d0, ms) && Displaced(d0, old(fs.dir), ms, 0) ==> fs.dir == d0 - {tmp}
  {
    ghost var before := fs.dir;
    AsideToStart(d0, before, uuid, ms, stat);
    assert forall j :: 0 <= j < |ms| ==> ms[j] in ms;
    hide SameKept, WellNamed, NamedFor, VisibleShrinks, MovesOf, Displaced, RollingBack, WholeAside, NumberedBelow;
    MoveBack(fs, uuid, ms, d0);
    ghost var d := fs.dir;
    if old(fs.Clean()) && MovesOf(d0, ms) && Displaced(d0, before, ms, 0) {
      UndoneIsOriginal(d0, d, ms);
    }
    var removed := fs.RemoveAll(tmp);
    if NumberedBelow(d, fs.pid, fs.counter) {
      NumberedRemove(d, tmp, fs.pid, fs.counter);
    }
    TmpDropped(d0, before, d, fs.dir, uuid, ms, tmp);
  }

  // ---------------------------------------------------------------- after landing

  /** While the history of `from` moves into that of `to`, nothing else moves. */
  ghost predicate Carrying(d0: Dir, d: Dir, uuid: string, from: Name, to: Name) {
    && from != to && IsArchive(d0, from, uuid) && IsArchive(d0, to, uuid)
    && SameKept(d0, d, uuid) && d.Keys == d0.Keys && (WellNamed(d0) ==> WellNamed(d))
    && d[from].snap == d0[from].snap && d[to].snap == d0[to].snap
    && HistValues(d[from]) + HistValues(d[to]) == HistValues(d0[from]) + HistValues(d0[to])
    && (forall n :: n in d && n != from && n != to ==> d[n] == d0[n])
  }

  lemma CarryingTransitive(a: Dir, b: Dir, c: Dir, uuid: string, from: Name, to: Name)
    requires Carrying(a, b, uuid, from, to) && Carrying(b, c, uuid, from, to)
    ensures Carrying(a, c, uuid, from, to)
  {}

  lemma CarryingEmpty(d: Dir, uuid: string, from: Name, to: Name, n: Name, hist: Option<History>)
    requires from != to && IsArchive(d, from, uuid) && IsArchive(d, to, uuid) && (n == from || n == to)
    requires HistValues(d[n]) == {} && (hist.Some? ==> hist.value == map[])
    ensures Carrying(d, d[n := d[n].(history := hist)], uuid, from, to)
  {
    EmptyHistoryKeeps(d, n, hist, uuid);
  }

  /** A move under the name there is room for, and no move where there is none. */
  lemma MovedToSlot(d: Dir, from: Name, h: HName, to: Name, counter: nat)
    requires from in d && to in d && from != to && d[from].history.Some? && d[to].history.Some? && h in d[from].history.value
    ensures var s := SlotsOf(d[to], counter);
            var e := MovedEntry(d, from, h, to, Dest(s, h));
            && SlotsOf(e[to], Placed(s, h).counter) == Placed(s, h)
            && e[from].history.value.Keys == d[from].history.value.Keys - {h}
  {}

  /** Move one version; a name already taken gets a process-unique suffix. */
  method CarryOne(fs: SessionsDir, uuid: string, from: Name, to: Name, h: HName)
    requires from != to && IsArchive(fs.dir, from, uuid) && IsArchive(fs.dir, to, uuid)
    requires fs.dir[from].history.Some? && h in fs.dir[from].history.value
    modifies fs`dir, fs`outcomes, fs`down, fs`counter
    ensures Carrying(old(fs.dir), fs.dir, uuid, from, to)
    ensures fs.dir[from].history.Some? && fs.dir[to].history.Some? == old(fs.dir)[to].history.Some?
    ensures fs.dir[from].history.value.Keys == old(fs.dir)[from].history.value.Keys
            || fs.dir[from].history.value.Keys == old(fs.dir)[from].history.value.Keys - {h}
    ensures fs.counter >= old(fs.counter) && (old(fs.Clean()) ==> fs.Clean()) && (old(fs.Alive()) ==> fs.Alive()) && (old(fs.Numbered()) ==> fs.Numbered())
    ensures old(fs.Clean()) && old(fs.dir)[to].history.Some? ==>
              var s := SlotsOf(old(fs.dir)[to], old(fs.counter));
              if Room(s, h) then h !in fs.dir[from].history.value && SlotsOf(fs.dir[to], fs.counter) == Placed(s, h) else fs.dir == old(fs.dir)
  {
    ghost var d, counter := fs.dir, fs.counter;
    var dest := h;
    if fs.dir[to].history.Some? && dest in fs.dir[to].history.value {
      var seqNo := fs.NextSeq();
      dest := Suffixed(h, seqNo);
    }
    hide NumberedBelow;
    if NumberedBelow(d, fs.pid, counter) {
      NumberedLater(d, fs.pid, counter, fs.counter);
    }
    if d[to].history.Some? {
      MovedToSlot(d, from, h, to, counter);
    }
    var ok := fs.MoveEntry(from, h, to, dest);
    if ok {
      MoveEntryKeeps(d, from, h, to, dest, uuid);
      if NumberedBelow(d, fs.pid, fs.counter) {
        NumberedMove(d, from, h, to, dest, fs.pid, fs.counter);
      }
    }
    hide SameKept, WellNamed, HistValues, MovedEntry;
  }

  /** The first i names of a history have been moved, if there was room for each; else one of them is still there. */
  ghost predicate CarriedUpTo(from: Folder, to: Folder, s: Slots, xs: seq<HName>, i: nat, counter: nat) {
    && i <= |xs| && from.history.Some? && to.history.Some?
    && (RoomForAll(s, xs[..i]) ==>
          SlotsOf(to, counter) == PlacedAll(s, xs[..i]) && forall k :: 0 <= k < i ==> xs[k] !in from.history.value)
    && (!RoomForAll(s, xs[..i]) ==> exists k :: 0 <= k < i && xs[k] in from.history.value)
  }

  lemma CarriedNone(from: Folder, to: Folder, xs: seq<HName>, counter: nat)
    requires from.history.Some? && to.history.Some?
    ensures CarriedUpTo(from, to, SlotsOf(to, counter), xs, 0, counter)
  {
    assert xs[..0] == [];
  }

  lemma CarriedOneMore(from: Folder, to: Folder, from': Folder, to': Folder, s: Slots, xs: seq<HName>, i: nat, counter: nat, counter': nat)
    requires i < |xs| && Distinct(xs) && CarriedUpTo(from, to, s, xs, i, counter)
    requires from'.history.Some? && to'.history.Some?
    requires from'.history.value.Keys == from.history.value.Keys || from'.history.value.Keys == from.history.value.Keys - {xs[i]}
    requires xs[i] in from.history.value
    requires var now := SlotsOf(to, counter);
             if Room(now, xs[i]) then xs[i] !in from'.history.value && SlotsOf(to', counter') == Placed(now, xs[i])
             else from' == from
    ensures CarriedUpTo(from', to', s, xs, i + 1, counter')
  {
    PlacedLast(s, xs, i);
    hide Room, Placed, RoomForAll, PlacedAll, SlotsOf;
    assert forall h :: h != xs[i] ==> (h in from'.history.value.Keys <==> h in from.history.value.Keys);
    if !RoomForAll(s, xs[..i]) {
      var k :| 0 <= k < i && xs[k] in from.history.value;
      assert xs[k] in from'.history.value.Keys;
    } else if !RoomForAll(s, xs[..i + 1]) {
      assert xs[i] in from'.history.value;
    }
  }

  /** The loop over a listed history. */
  method CarryAll(fs: SessionsDir, uuid: string, from: Name, to: Name)
    requires from != to && IsArchive(fs.dir, from, uuid) && IsArchive(fs.dir, to, uuid) && fs.dir[from].history.Some?
    modifies fs`dir, fs`outcomes, fs`down, fs`counter
    ensures Carrying(old(fs.dir), fs.dir, uuid, from, to) && fs.dir[from].history.Some?
    ensures fs.counter >= old(fs.counter) && (old(fs.Clean()) ==> fs.Clean()) && (old(fs.Alive()) ==> fs.Alive()) && (old(fs.Numbered()) ==> fs.Numbered())
    ensures old(fs.Clean()) && old(fs.dir)[to].history.Some? ==>
              var s, xs := SlotsOf(old(fs.dir)[to], old(fs.counter)), fs.entries(from, old(fs.dir)[from].history.value.Keys);
              && (RoomForAll(s, xs) <==> fs.dir[from].history.value == map[])
              && (RoomForAll(s, xs) ==> SlotsOf(fs.dir[to], fs.counter) == PlacedAll(s, xs))
  {
    ghost var d0, s := fs.dir, SlotsOf(fs.dir[to], fs.counter);
    ghost var clean := fs.Clean() && d0[to].history.Some?;
    var listing := fs.entries(from, fs.dir[from].history.value.Keys);
    if clean {
      CarriedNone(d0[from], d0[to], listing, fs.counter);
    }
    hide SameKept, WellNamed, HistValues, CarriedUpTo, NumberedBelow, SlotsOf, Placed, Room, RoomForAll, PlacedAll;
    for i := 0 to |listing|
      invariant Carrying(d0, fs.dir, uuid, from, to)
      invariant fs.dir[from].history.Some? && fs.dir[from].history.value.Keys <= d0[from].history.value.Keys
      invariant forall k :: i <= k < |listing| ==> listing[k] in fs.dir[from].history.value.Keys
      invariant fs.counter >= old(fs.counter) && (old(fs.Clean()) ==> fs.Clean()) && (old(fs.Alive()) ==> fs.Alive()) && (old(fs.Numbered()) ==> fs.Numbered())
      invariant clean ==> CarriedUpTo(fs.dir[from], fs.dir[to], s, listing, i, fs.counter) && fs.dir[to].history.Some?
    {
      ghost var d, counter := fs.dir, fs.counter;
      CarryOne(fs, uuid, from, to, listing[i]);
      CarryingTransitive(d0, d, fs.dir, uuid, from, to);
      if clean {
        CarriedOneMore(d[from], d[to], fs.dir[from], fs.dir[to], s, listing, i, counter, fs.counter);
      }
    }
    if clean {
      CarriedEverything(fs.dir[from], fs.dir[to], s, listing, fs.counter);
    }
  }

  lemma CarriedEverything(from: Folder, to: Folder, s: Slots, xs: seq<HName>, counter: nat)
    requires CarriedUpTo(from, to, s, xs, |xs|, counter) && forall h :: h in from.history.value ==> h in xs
    ensures RoomForAll(s, xs) <==> from.history.value == map[]
    ensures RoomForAll(s, xs) ==> SlotsOf(to, counter) == PlacedAll(s, xs)
  {
    assert xs[..|xs|] == xs;
    if RoomForAll(s, xs) {
      assert from.history.value.Keys == {};
    }
    hide RoomForAll, SlotsOf, PlacedAll;
  }

  /** `create_dir_all` and `remove_dir` of a history directory, as steps of a carry. */
  method OpenHistory(fs: SessionsDir, uuid: string, from: Name, to: Name)
    requires from != to && IsArchive(fs.dir, from, uuid) && IsArchive(fs.dir, to, uuid)
    modifies fs`dir, fs`outcomes, fs`down
    ensures Carrying(old(fs.dir), fs.dir, uuid, from, to) && fs.dir[from] == old(fs.dir)[from]
    ensures HistValues(fs.dir[to]) == HistValues(old(fs.dir)[to])
    ensures SlotsOf(fs.dir[to], fs.counter) == SlotsOf(old(fs.dir)[to], fs.counter)
    ensures old(fs.Clean()) ==> fs.Clean() && fs.dir[to].history.Some?
    ensures old(fs.Alive()) ==> fs.Alive()
    ensures old(fs.Numbered()) ==> fs.Numbered()
  {
    ghost var d := fs.dir;
    fs.MakeHistory(to);
    hide NumberedBelow;
    if fs.dir != d {
      CarryingEmpty(d, uuid, from, to, to, Some(map[]));
      if NumberedBelow(d, fs.pid, fs.counter) {
        NumberedHistory(d, to, Some(map[]), fs.pid, fs.counter);
      }
    }
  }

  method CloseHistory(fs: SessionsDir, uuid: string, from: Name, to: Name)
    requires from != to && IsArchive(fs.dir, from, uuid) && IsArchive(fs.dir, to, uuid)
    modifies fs`dir, fs`outcomes, fs`down
    ensures Carrying(old(fs.dir), fs.dir, uuid, from, to) && fs.dir[to] == old(fs.dir)[to]
    ensures fs.dir[from].history == old(fs.dir)[from].history || (old(fs.dir)[from].history == Some(map[]) && fs.dir[from].history.None?)
    ensures old(fs.Clean()) ==> fs.Clean() && (old(fs.dir)[from].history == Some(map[]) ==> fs.dir[from].history.None?)
    ensures old(fs.Alive()) ==> fs.Alive()
    ensures old(fs.Numbered()) ==> fs.Numbered()
  {
    ghost var d := fs.dir;
    fs.RemoveEmptyHistory(from);
    hide NumberedBelow;
    if fs.dir != d {
      CarryingEmpty(d, uuid, from, to, from, None);
      if NumberedBelow(d, fs.pid, fs.counter) {
        NumberedHistory(d, from, None, fs.pid, fs.counter);
      }
    }
  }

  /** Carry the versions of a displaced folder over into the new one; a version that will not move stays where it is. */
  method CarryHistory(fs: SessionsDir, uuid: string, from: Name, to: Name)
    requires from != to && IsArchive(fs.dir, from, uuid) && IsArchive(fs.dir, to, uuid) && fs.dir[from].history.Some?
    modifies fs`dir, fs`outcomes, fs`down, fs`counter
    ensures Carrying(old(fs.dir), fs.dir, uuid, from, to)
    ensures fs.counter >= old(fs.counter) && (old(fs.Clean()) ==> fs.Clean()) && (old(fs.Alive()) ==> fs.Alive()) && (old(fs.Numbered()) ==> fs.Numbered())
    ensures old(fs.Clean()) ==>
              var s, xs := SlotsOf(old(fs.dir)[to], old(fs.counter)), fs.entries(from, old(fs.dir)[from].history.value.Keys);
              && (RoomForAll(s, xs) <==> fs.dir[from].history.None?)
              && (RoomForAll(s, xs) ==> SlotsOf(fs.dir[to], fs.counter) == PlacedAll(s, xs))
  {
    ghost var d0 := fs.dir;
    hide SameKept, WellNamed, NumberedBelow, RoomForAll, PlacedAll, SlotsOf, HistValues;
    OpenHistory(fs, uuid, from, to);
    ghost var d1 := fs.dir;
    var listed := fs.Attempt();
    if listed {
      CarryAll(fs, uuid, from, to);
      CarryingTransitive(d0, d1, fs.dir, uuid, from, to);
    }
    ghost var d2 := fs.dir;
    CloseHistory(fs, uuid, from, to);
    CarryingTransitive(d0, d2, fs.dir, uuid, from, to);
  }

  // ---------------------------------------------------------------- folding one displaced folder in

  /** One displaced folder was folded into the new one, or kept aside for the next write to retry. */
  ghost predicate Folded(d0: Dir, d: Dir, uuid: string, aside: Name, final: Name, stat: Stat) {
    && aside in d0 && final in d0
    && (forall v :: Kept(d, uuid, v) ==> Kept(d0, uuid, v))
    && (forall v :: Kept(d0, uuid, v) ==> Kept(d, uuid, v) || !Changed(v, stat))
    && (StoredOnce(d0, uuid) ==> StoredOnce(d, uuid))
    && Foreign(d0, uuid) == Foreign(d, uuid) && (WellNamed(d0) ==> WellNamed(d))
    && final in d && d[final].snap == d0[final].snap
    && (forall n :: n != aside && n != final ==> (n in d <==> n in d0) && (n in d0 ==> d[n] == d0[n]))
    && d.Keys <= d0.Keys
  }

  lemma CarryingIsFolding(d0: Dir, d: Dir, uuid: string, from: Name, to: Name, stat: Stat)
    requires Carrying(d0, d, uuid, from, to)
    ensures Folded(d0, d, uuid, from, to, stat)
  {
    assert forall n :: n in d <==> n in d0;
  }

  lemma FoldedTransitive(a: Dir, b: Dir, c: Dir, uuid: string, aside: Name, final: Name, stat: Stat)
    requires Folded(a, b, uuid, aside, final, stat) && Folded(b, c, uuid, aside, final, stat)
    ensures Folded(a, c, uuid, aside, final, stat)
  {}

  lemma RemovedIsFolded(d: Dir, uuid: string, aside: Name, final: Name, stat: Stat)
    requires aside != final && IsArchive(d, aside, uuid) && IsArchive(d, final, uuid)
    requires d[aside].history.None? && !Changed(d[aside].snap, stat)
    ensures Folded(d, d - {aside}, uuid, aside, final, stat)
  {
    RemoveLosesOne(d, aside, uuid);
  }

  lemma VersionedIsFolded(d: Dir, uuid: string, aside: Name, final: Name, dest: HName, stat: Stat)
    requires aside != final && IsArchive(d, aside, uuid) && IsArchive(d, final, uuid)
    requires d[aside].history.None? && d[final].history.Some? && dest !in d[final].history.value
    ensures Folded(d, Versioned(d, aside, final, dest), uuid, aside, final, stat)
    ensures HistValues(Versioned(d, aside, final, dest)[final]) == HistValues(d[final]) + {d[aside].snap}
    ensures aside !in Versioned(d, aside, final, dest) && final in Versioned(d, aside, final, dest)
  {
    BecomeVersionKeeps(d, aside, final, dest, uuid);
  }

  /** The name a displaced folder takes as a version, if it does. */
  function OwnPart(m: Moved): seq<HName> {
    if m.versionName.Some? then [m.versionName.value] else []
  }

  lemma OwnRoom(s: Slots, m: Moved)
    ensures RoomForAll(s, OwnPart(m)) <==> m.versionName.Some? ==> Room(s, m.versionName.value)
    ensures PlacedAll(s, OwnPart(m)) == if m.versionName.Some? then Placed(s, m.versionName.value) else s
  {
    if m.versionName.Some? {
      assert OwnPart(m)[1..] == [];
      assert PlacedAll(Placed(s, m.versionName.value), []) == Placed(s, m.versionName.value);
    }
  }

  lemma VersionedSlots(d: Dir, aside: Name, final: Name, name: HName, counter: nat)
    requires aside in d && final in d && aside != final && d[final].history.Some?
    ensures var s := SlotsOf(d[final], counter);
            SlotsOf(Versioned(d, aside, final, Dest(s, name))[final], Placed(s, name).counter) == Placed(s, name)
  {}

  /** The rename that makes a folder a version, under its own name or a suffixed one. */
  method VersionUnder(fs: SessionsDir, uuid: string, aside: Name, name: HName, final: Name, stat: Stat)
    requires aside != final && IsArchive(fs.dir, aside, uuid) && IsArchive(fs.dir, final, uuid)
    requires fs.dir[aside].history.None? && name.V?
    modifies fs`dir, fs`outcomes, fs`down, fs`counter
    ensures Folded(old(fs.dir), fs.dir, uuid, aside, final, stat)
    ensures fs.counter >= old(fs.counter) && (old(fs.Clean()) ==> fs.Clean()) && (old(fs.Alive()) ==> fs.Alive()) && (old(fs.Numbered()) ==> fs.Numbered())
    ensures old(fs.Clean()) && old(fs.dir)[final].history.Some? ==>
              var s := SlotsOf(old(fs.dir)[final], old(fs.counter));
              && (Room(s, name) <==> aside !in fs.dir)
              && (Room(s, name) ==> SlotsOf(fs.dir[final], fs.counter) == Placed(s, name)
                                    && HistValues(fs.dir[final]) == HistValues(old(fs.dir)[final]) + {old(fs.dir)[aside].snap})
  {
    ghost var d, counter := fs.dir, fs.counter;
    hide NumberedBelow, SameKept, WellNamed, Kept, StoredOnce, Foreign, HistValues, Versioned, Folded, Placed;
    NothingFolded(d, uuid, aside, final, stat);
    if d[final].history.Some? {
      VersionedSlots(d, aside, final, name, counter);
    }
    var dest := name;
    if fs.dir[final].history.Some? && dest in fs.dir[final].history.value {
      var seqNo := fs.NextSeq();
      dest := Suffixed(name, seqNo);
    }
    if NumberedBelow(d, fs.pid, counter) {
      NumberedLater(d, fs.pid, counter, fs.counter);
    }
    var ok := fs.BecomeVersion(aside, final, dest);
    if ok {
      VersionedIsFolded(d, uuid, aside, final, dest, stat);
      if NumberedBelow(d, fs.pid, fs.counter) {
        NumberedVersion(d, aside, final, dest, fs.pid, fs.counter);
      }
    }
  }

  /** The folder itself becomes a version. */
  method FoldVersion(fs: SessionsDir, uuid: string, m: Moved, name: HName, final: Name, stat: Stat)
    requires m.aside != final && IsArchive(fs.dir, m.aside, uuid) && IsArchive(fs.dir, final, uuid)
    requires fs.dir[m.aside].history.None? && name.V?
    modifies fs`dir, fs`outcomes, fs`down, fs`counter
    ensures Folded(old(fs.dir), fs.dir, uuid, m.aside, final, stat)
    ensures fs.counter >= old(fs.counter) && (old(fs.Clean()) ==> fs.Clean()) && (old(fs.Alive()) ==> fs.Alive()) && (old(fs.Numbered()) ==> fs.Numbered())
    ensures old(fs.Clean()) ==>
              var s := SlotsOf(old(fs.dir)[final], old(fs.counter));
              && (Room(s, name) <==> m.aside !in fs.dir)
              && (Room(s, name) ==> SlotsOf(fs.dir[final], fs.counter) == Placed(s, name)
                                    && HistValues(fs.dir[final]) == HistValues(old(fs.dir)[final]) + {old(fs.dir)[m.aside].snap})
  {
    ghost var d0 := fs.dir;
    hide NumberedBelow, SameKept, WellNamed, Kept, StoredOnce, Foreign, HistValues, Folded, Placed, Room;
    OpenHistory(fs, uuid, m.aside, final);
    ghost var d1 := fs.dir;
    CarryingIsFolding(d0, d1, uuid, m.aside, final, stat);
    VersionUnder(fs, uuid, m.aside, name, final, stat);
    FoldedTransitive(d0, d1, fs.dir, uuid, m.aside, final, stat);
  }

  /** The folder itself: a version if its content differs, gone if not. */
  method FoldSnapshot(fs: SessionsDir, uuid: string, m: Moved, final: Name, stat: Stat)
    requires m.aside != final && IsArchive(fs.dir, m.aside, uuid) && IsArchive(fs.dir, final, uuid)
    requires fs.dir[m.aside].history.None? && (if m.versionName.None? then !Changed(fs.dir[m.aside].snap, stat) else m.versionName.value.V?)
    modifies fs`dir, fs`outcomes, fs`down, fs`counter
    ensures Folded(old(fs.dir), fs.dir, uuid, m.aside, final, stat)
    ensures fs.counter >= old(fs.counter) && (old(fs.Clean()) ==> fs.Clean()) && (old(fs.Alive()) ==> fs.Alive()) && (old(fs.Numbered()) ==> fs.Numbered())
    ensures old(fs.Clean()) ==>
              var s := SlotsOf(old(fs.dir)[final], old(fs.counter));
              && (RoomForAll(s, OwnPart(m)) <==> m.aside !in fs.dir)
              && (RoomForAll(s, OwnPart(m)) ==>
                    && SlotsOf(fs.dir[final], fs.counter) == PlacedAll(s, OwnPart(m))
                    && HistValues(fs.dir[final]) == HistValues(old(fs.dir)[final]) + if m.versionName.Some? then {old(fs.dir)[m.aside].snap} else {})
  {
    ghost var d0 := fs.dir;
    OwnRoom(SlotsOf(d0[final], fs.counter), m);
    match m.versionName
    case None =>
      RemovedIsFolded(d0, uuid, m.aside, final, stat);
      hide Kept, StoredOnce, Foreign, NumberedBelow;
      var removed := fs.RemoveAll(m.aside);
      if NumberedBelow(d0, fs.pid, fs.counter) {
        NumberedRemove(d0, m.aside, fs.pid, fs.counter);
      }
      NothingFolded(d0, uuid, m.aside, final, stat);
    case Some(name) =>
      hide Folded, NumberedBelow, Room, Placed, RoomForAll, PlacedAll, HistValues, SlotsOf;
      FoldVersion(fs, uuid, m, name, final, stat);
  }

  lemma NothingFolded(d: Dir, uuid: string, aside: Name, final: Name, stat: Stat)
    requires aside in d && final in d
    ensures Folded(d, d, uuid, aside, final, stat)
  {}

  /** The names of a displaced folder's history, in the order they are read. */
  function HistoryPart(d: Dir, entries: EntryOrder, n: Name, aside: Name): seq<HName> {
    if n in d && d[n].history.Some? then entries(aside, d[n].history.value.Keys) else []
  }

  /** The names one displaced folder brings: those of its versions, then its own. */
  function Brings(d: Dir, entries: EntryOrder, m: Moved): seq<HName> {
    HistoryPart(d, entries, m.aside, m.aside) + OwnPart(m)
  }

  /** Carry the history first; only a folder with no history left is versioned or dropped. */
  method FoldOne(fs: SessionsDir, uuid: string, m: Moved, final: Name, stat: Stat)
    requires m.aside != final && IsArchive(fs.dir, m.aside, uuid) && IsArchive(fs.dir, final, uuid)
    requires if m.versionName.None? then !Changed(fs.dir[m.aside].snap, stat) else m.versionName.value.V?
    modifies fs`dir, fs`outcomes, fs`down, fs`counter
    ensures Folded(old(fs.dir), fs.dir, uuid, m.aside, final, stat)
    ensures fs.counter >= old(fs.counter) && (old(fs.Clean()) ==> fs.Clean()) && (old(fs.Alive()) ==> fs.Alive()) && (old(fs.Numbered()) ==> fs.Numbered())
    ensures old(fs.Clean()) ==>
              var s, xs := SlotsOf(old(fs.dir)[final], old(fs.counter)), Brings(old(fs.dir), fs.entries, m);
              && (RoomForAll(s, xs) <==> m.aside !in fs.dir)
              && (RoomForAll(s, xs) ==>
                    && SlotsOf(fs.dir[final], fs.counter) == PlacedAll(s, xs)
                    && HistValues(fs.dir[final]) == HistValues(old(fs.dir)[final]) + HistValues(old(fs.dir)[m.aside])
                                                    + if m.versionName.Some? then {old(fs.dir)[m.aside].snap} else {})
  {
    ghost var d0, s := fs.dir, SlotsOf(fs.dir[final], fs.counter);
    hide Kept, StoredOnce, Foreign, SameKept, WellNamed, NumberedBelow, RoomForAll, PlacedAll, SlotsOf;
    NothingFolded(d0, uuid, m.aside, final, stat);
    PlacedInTurn(s, HistoryPart(d0, fs.entries, m.aside, m.aside), OwnPart(m));
    NothingToPlace(s);
    if fs.dir[m.aside].history.Some? {
      CarryHistory(fs, uuid, m.aside, final);
      CarryingIsFolding(d0, fs.dir, uuid, m.aside, final, stat);
    }
    ghost var d1 := fs.dir;
    if fs.dir[m.aside].history.None? {
      FoldSnapshot(fs, uuid, m, final, stat);
      if d0 != d1 {
        FoldedTransitive(d0, d1, fs.dir, uuid, m.aside, final, stat);
      }
    }
  }

  lemma NothingToPlace(s: Slots)
    ensures RoomForAll(s, []) && PlacedAll(s, []) == s
  {}

  /** The first k displaced folders were folded in or kept aside; the rest are untouched. */
  ghost predicate FoldedUpTo(d0: Dir, d: Dir, uuid: string, ms: seq<Moved>, k: nat, final: Name, stat: Stat) {
    && k <= |ms| && final in d0
    && (forall v :: Kept(d, uuid, v) ==> Kept(d0, uuid, v))
    && (forall v :: Kept(d0, uuid, v) ==> Kept(d, uuid, v) || !Changed(v, stat))
    && (StoredOnce(d0, uuid) ==> StoredOnce(d, uuid))
    && Foreign(d0, uuid) == Foreign(d, uuid) && (WellNamed(d0) ==> WellNamed(d))
    && final in d && d[final].snap == d0[final].snap
    && (forall j :: k <= j < |ms| ==> ms[j].aside in d0 && ms[j].aside in d && d[ms[j].aside] == d0[ms[j].aside])
    && SameTmps(d0, d)
    && (forall n :: n in d ==> n in d0)
  }

  /** v comes from this displaced folder: from its history, or as the version the folder becomes. */
  predicate FromMove(d0: Dir, m: Moved, v: Snap) {
    m.aside in d0 && (v in HistValues(d0[m.aside]) || (m.versionName.Some? && v == d0[m.aside].snap))
  }

  /** The first k displaced folders are gone and their versions are in the new folder's history. */
  ghost predicate GatheredUpTo(d0: Dir, d: Dir, ms: seq<Moved>, k: nat, final: Name) {
    && k <= |ms| && final in d && final in d0
    && (forall j :: 0 <= j < k ==> ms[j].aside !in d)
    && (forall n :: n in d0 && (forall j :: 0 <= j < k ==> ms[j].aside != n) ==> n in d)
    && (forall v :: v in HistValues(d[final]) <==> v in HistValues(d0[final]) || exists j :: 0 <= j < k && FromMove(d0, ms[j], v))
  }

  lemma FoldedStep(d0: Dir, d: Dir, e: Dir, uuid: string, ms: seq<Moved>, k: nat, final: Name, stat: Stat)
    requires k < |ms| && FoldedUpTo(d0, d, uuid, ms, k, final, stat) && SetAside(d0, uuid, ms, stat) && final.Visible?
    requires Folded(d, e, uuid, ms[k].aside, final, stat)
    ensures FoldedUpTo(d0, e, uuid, ms, k + 1, final, stat)
  {}

  lemma GatheredStep(d0: Dir, d: Dir, e: Dir, uuid: string, ms: seq<Moved>, k: nat, final: Name, stat: Stat)
    requires k < |ms| && GatheredUpTo(d0, d, ms, k, final) && SetAside(d0, uuid, ms, stat) && final.Visible?
    requires ms[k].aside in d && d[ms[k].aside] == d0[ms[k].aside]
    requires Folded(d, e, uuid, ms[k].aside, final, stat) && ms[k].aside !in e
    requires HistValues(e[final]) == HistValues(d[final]) + HistValues(d[ms[k].aside])
                                     + if ms[k].versionName.Some? then {d[ms[k].aside].snap} else {}
    ensures GatheredUpTo(d0, e, ms, k + 1, final)
  {
    GatheredNames(d0, d, e, uuid, ms, k, final, stat);
    GatheredVersions(d0, d, e, ms, k, final);
    hide FromMove, HistValues, SetAside, Folded;
  }

  lemma GatheredNames(d0: Dir, d: Dir, e: Dir, uuid: string, ms: seq<Moved>, k: nat, final: Name, stat: Stat)
    requires k < |ms| && GatheredUpTo(d0, d, ms, k, final) && SetAside(d0, uuid, ms, stat) && final.Visible?
    requires ms[k].aside in d && Folded(d, e, uuid, ms[k].aside, final, stat) && ms[k].aside !in e
    ensures final in e && (forall j :: 0 <= j < k + 1 ==> ms[j].aside !in e)
    ensures forall n :: n in d0 && (forall j :: 0 <= j < k + 1 ==> ms[j].aside != n) ==> n in e
  {
    hide FromMove, HistValues;
  }

  lemma GatheredVersions(d0: Dir, d: Dir, e: Dir, ms: seq<Moved>, k: nat, final: Name)
    requires k < |ms| && GatheredUpTo(d0, d, ms, k, final) && final in e
    requires ms[k].aside in d && ms[k].aside in d0 && d[ms[k].aside] == d0[ms[k].aside]
    requires HistValues(e[final]) == HistValues(d[final]) + HistValues(d[ms[k].aside])
                                     + if ms[k].versionName.Some? then {d[ms[k].aside].snap} else {}
    ensures forall v :: v in HistValues(e[final]) <==> v in HistValues(d0[final]) || exists j :: 0 <= j < k + 1 && FromMove(d0, ms[j], v)
  {
    hide HistValues;
    forall v ensures v in HistValues(e[final]) <==> v in HistValues(d0[final]) || exists j :: 0 <= j < k + 1 && FromMove(d0, ms[j], v) {
      assert v in HistValues(e[final]) <==> v in HistValues(d[final]) || FromMove(d0, ms[k], v);
    }
  }

  /** The names all displaced folders bring, in the order they are folded. */
  function BringAll(d: Dir, entries: EntryOrder, ms: seq<Moved>): seq<HName>
    decreases |ms|
  {
    if ms == [] then [] else BringAll(d, entries, ms[..|ms| - 1]) + Brings(d, entries, ms[|ms| - 1])
  }

  lemma BringOneMore(d: Dir, entries: EntryOrder, ms: seq<Moved>, i: nat, s: Slots)
    requires i < |ms|
    ensures var before, one := BringAll(d, entries, ms[..i]), Brings(d, entries, ms[i]);
            && BringAll(d, entries, ms[..i + 1]) == before + one
            && PlacedAll(s, before + one) == PlacedAll(PlacedAll(s, before), one)
            && (RoomForAll(s, before + one) <==> RoomForAll(s, before) && RoomForAll(PlacedAll(s, before), one))
  {
    assert ms[..i + 1][..i] == ms[..i];
    PlacedInTurn(s, BringAll(d, entries, ms[..i]), Brings(d, entries, ms[i]));
  }

  /** With nothing failing: if there was room for every name brought, all is gathered, and otherwise some displaced folder is left. */
  ghost predicate FoldedCleanly(d0: Dir, d: Dir, entries: EntryOrder, ms: seq<Moved>, k: nat, final: Name, s: Slots, counter: nat) {
    && k <= |ms| && final in d
    && (RoomForAll(s, BringAll(d0, entries, ms[..k])) ==>
          GatheredUpTo(d0, d, ms, k, final) && SlotsOf(d[final], counter) == PlacedAll(s, BringAll(d0, entries, ms[..k])))
    && (!RoomForAll(s, BringAll(d0, entries, ms[..k])) ==> exists j :: 0 <= j < k && ms[j].aside in d)
  }

  lemma FoldedCleanlyNone(d: Dir, entries: EntryOrder, ms: seq<Moved>, final: Name, counter: nat)
    requires final in d
    ensures FoldedCleanly(d, d, entries, ms, 0, final, SlotsOf(d[final], counter), counter)
  {
    assert ms[..0] == [];
    NothingToPlace(SlotsOf(d[final], counter));
  }

  lemma FoldedCleanlyStep(d0: Dir, d: Dir, e: Dir, uuid: string, entries: EntryOrder, ms: seq<Moved>, k: nat, final: Name, stat: Stat,
                          s: Slots, counter: nat, counter': nat)
    requires k < |ms| && FoldedCleanly(d0, d, entries, ms, k, final, s, counter) && SetAside(d0, uuid, ms, stat) && final.Visible?
    requires ms[k].aside in d0 && ms[k].aside in d && d[ms[k].aside] == d0[ms[k].aside]
    requires Folded(d, e, uuid, ms[k].aside, final, stat)
    requires var now, xs := SlotsOf(d[final], counter), Brings(d, entries, ms[k]);
             && (RoomForAll(now, xs) <==> ms[k].aside !in e)
             && (RoomForAll(now, xs) ==>
                   && SlotsOf(e[final], counter') == PlacedAll(now, xs)
                   && HistValues(e[final]) == HistValues(d[final]) + HistValues(d[ms[k].aside])
                                              + if ms[k].versionName.Some? then {d[ms[k].aside].snap} else {})
    ensures FoldedCleanly(d0, e, entries, ms, k + 1, final, s, counter')
  {
    BringOneMore(d0, entries, ms, k, s);
    assert Brings(d0, entries, ms[k]) == Brings(d, entries, ms[k]);
    var before, now := BringAll(d0, entries, ms[..k]), SlotsOf(d[final], counter);
    if RoomForAll(s, before) {
      if ms[k].aside !in e {
        GatheredStep(d0, d, e, uuid, ms, k, final, stat);
      }
    } else {
      var j :| 0 <= j < k && ms[j].aside in d;
      assert ms[j].aside != ms[k].aside && ms[j].aside != final;
      assert ms[j].aside in e;
    }
    hide GatheredUpTo, HistValues, FromMove, Folded, RoomForAll, PlacedAll, SlotsOf, Brings, BringAll;
  }

  method FoldAll(fs: SessionsDir, uuid: string, ms: seq<Moved>, final: Name, stat: Stat)
    requires SetAside(fs.dir, uuid, ms, stat) && final.Visible? && IsArchive(fs.dir, final, uuid)
    modifies fs`dir, fs`outcomes, fs`down, fs`counter
    ensures FoldedUpTo(old(fs.dir), fs.dir, uuid, ms, |ms|, final, stat)
    ensures fs.counter >= old(fs.counter) && (old(fs.Clean()) ==> fs.Clean()) && (old(fs.Alive()) ==> fs.Alive()) && (old(fs.Numbered()) ==> fs.Numbered())
    ensures old(fs.Clean()) ==>
              FoldedCleanly(old(fs.dir), fs.dir, fs.entries, ms, |ms|, final, SlotsOf(old(fs.dir)[final], old(fs.counter)), fs.counter)
  {
    ghost var d0, s := fs.dir, SlotsOf(fs.dir[final], fs.counter);
    FoldedCleanlyNone(d0, fs.entries, ms, final, fs.counter);
    hide NumberedBelow, FoldedCleanly, SlotsOf, PlacedAll, RoomForAll, Brings, HistValues;
    for i := 0 to |ms|
      invariant FoldedUpTo(d0, fs.dir, uuid, ms, i, final, stat)
      invariant fs.counter >= old(fs.counter) && (old(fs.Clean()) ==> fs.Clean()) && (old(fs.Alive()) ==> fs.Alive()) && (old(fs.Numbered()) ==> fs.Numbered())
      invariant old(fs.Clean()) ==> FoldedCleanly(d0, fs.dir, fs.entries, ms, i, final, s, fs.counter)
    {
      ghost var d, counter := fs.dir, fs.counter;
      FoldOne(fs, uuid, ms[i], final, stat);
      FoldedStep(d0, d, fs.dir, uuid, ms, i, final, stat);
      if old(fs.Clean()) {
        FoldedCleanlyStep(d0, d, fs.dir, uuid, fs.entries, ms, i, final, stat, s, counter, fs.counter);
      }
    }
  }

  // ---------------------------------------------------------------- the whole write

  datatype WriteError = UnsafeId | Io

  datatype Landed = Landed(folder: Name, replaced: bool)

  lemma LandingKeeps(d: Dir, tmp: Name, final: Name, uuid: string, snap: Snap, ms: seq<Moved>, stat: Stat)
    requires tmp.Tmp? && final.Visible? && tmp in d && final !in d
    requires d[tmp] == Folder(snap, None) && snap.uuid == Some(uuid)
    requires SetAside(d, uuid, ms, stat)
    ensures var e := RenameDir(d, tmp, final);
            && IsArchive(e, final, uuid) && e[final] == Folder(snap, None)
            && Foreign(d, uuid) == Foreign(e, uuid)
            && (WellNamed(d) && EndsWith(final.text, "-" + Uuid8(uuid)) ==> WellNamed(e))
            && (forall v :: Kept(e, uuid, v) <==> Kept(d, uuid, v) || v == snap)
            && (StoredOnce(d, uuid) && !Kept(d, uuid, snap) ==> StoredOnce(e, uuid))
            && SetAside(e, uuid, ms, stat)
  {
    var e := RenameDir(d, tmp, final);
    assert forall v, n, h :: StoredAt(e, uuid, n, h, v) ==>
      if n == final then h.None? && v == snap else StoredAt(d, uuid, n, h, v) && Holds(d[n], v);
    assert IsArchive(e, final, uuid) && Holds(e[final], snap);
    forall v | Kept(d, uuid, v) ensures Kept(e, uuid, v) {
      var n :| IsArchive(d, n, uuid) && Holds(d[n], v);
      assert IsArchive(e, n, uuid) && Holds(e[n], v);
    }
    forall v | Kept(e, uuid, v) && v != snap ensures Kept(d, uuid, v) {
      var n :| IsArchive(e, n, uuid) && Holds(e[n], v);
      assert IsArchive(d, n, uuid) && Holds(d[n], v);
    }
  }

  /** Every archive of the session is among the moves, and every move is of one. */
  ghost predicate Covers(d0: Dir, uuid: string, ms: seq<Moved>) {
    && (forall n :: IsArchive(d0, n, uuid) ==> exists i :: 0 <= i < |ms| && ms[i].orig == n)
    && (forall i :: 0 <= i < |ms| ==> IsArchive(d0, ms[i].orig, uuid))
  }

  /** With nothing failing, what is left of the session after displacing is exactly what was set aside. */
  lemma OnlyAsidesLeft(d0: Dir, d: Dir, uuid: string, ms: seq<Moved>, n: Name)
    requires MovesOf(d0, ms) && Displaced(d0, d, ms, 0) && Covers(d0, uuid, ms)
    ensures IsArchive(d, n, uuid) <==> exists j :: 0 <= j < |ms| && ms[j].aside == n
    ensures !n.Old? ==> (n in d <==> n in d0 && !IsArchive(d0, n, uuid))
  {
    assert ms[0..] == ms;
    if n in d0 && IsArchive(d0, n, uuid) {
      var i :| 0 <= i < |ms| && ms[i].orig == n;
      assert n in Origs(ms);
      assert n !in Asides(ms);
    }
    if n in Origs(ms) {
      var i :| 0 <= i < |ms| && ms[i].orig == n;
    }
  }

  /** The gathered history is what belongs there. */
  lemma GatheredBelongs(d0: Dir, d2: Dir, d3: Dir, uuid: string, ms: seq<Moved>, stat: Stat, v: Snap)
    requires Covers(d0, uuid, ms) && NamesVersions(d0, ms, stat) && Displaced(d0, d2, ms, 0)
    requires forall j :: 0 <= j < |ms| ==> ms[j].aside in d3 && d3[ms[j].aside] == d2[ms[j].aside]
    ensures (exists j :: 0 <= j < |ms| && FromMove(d3, ms[j], v)) <==> BelongsInHistory(d0, uuid, stat, v)
  {
    assert forall j :: 0 <= j < |ms| ==> d3[ms[j].aside] == d0[ms[j].orig];
    if BelongsInHistory(d0, uuid, stat, v) {
      var n :| IsArchive(d0, n, uuid) && (v in HistValues(d0[n]) || (v == d0[n].snap && Changed(v, stat)));
      var j :| 0 <= j < |ms| && ms[j].orig == n;
      assert FromMove(d3, ms[j], v);
    }
    if j :| 0 <= j < |ms| && FromMove(d3, ms[j], v) {
      assert IsArchive(d0, ms[j].orig, uuid);
    }
  }

  /** A fault-free fold of everything set aside is a complete write. */
  lemma FoldIsComplete(d0: Dir, d2: Dir, d4: Dir, uuid: string, ms: seq<Moved>, tmp: Name, final: Name, snap: Snap)
    requires snap.stat.Some? && snap.uuid == Some(uuid) && tmp.Tmp? && final.Visible? && tmp !in d0
    requires tmp in d2 && d2[tmp] == Folder(snap, None) && final !in d2
    requires var d1 := d0[tmp := Folder(snap, None)];
             MovesOf(d1, ms) && Displaced(d1, d2, ms, 0) && Covers(d1, uuid, ms) && NamesVersions(d1, ms, snap.stat.value) && SameTmps(d1, d2)
    requires var d3 := RenameDir(d2, tmp, final);
             FoldedUpTo(d3, d4, uuid, ms, |ms|, final, snap.stat.value) && GatheredUpTo(d3, d4, ms, |ms|, final)
    requires Foreign(d0, uuid) == Foreign(d4, uuid)
    ensures CompleteWrite(d0, d4, uuid, final, snap)
  {
    var stat := snap.stat.value;
    var d1 := d0[tmp := Folder(snap, None)];
    var d3 := RenameDir(d2, tmp, final);
    forall n ensures IsArchive(d4, n, uuid) <==> n == final {
      OnlyAsidesLeft(d1, d2, uuid, ms, n);
      if IsArchive(d4, n, uuid) && n != final {
        StaysForeign(d3, d4, uuid, n);
      }
    }
    forall v ensures v in HistValues(d4[final]) <==> BelongsInHistory(d0, uuid, stat, v) {
      GatheredBelongs(d1, d2, d3, uuid, ms, stat, v);
      TmpHoldsNothing(d0, d1, uuid, tmp, stat, v);
    }
    assert SameTmps(d0, d4);
  }

  /** A folder that is not the session's cannot become the session's while foreign folders stay put. */
  lemma StaysForeign(d: Dir, e: Dir, uuid: string, n: Name)
    requires Foreign(d, uuid) == Foreign(e, uuid) && n in d && n in e && !n.Tmp? && IsArchive(e, n, uuid)
    ensures IsArchive(d, n, uuid)
  {
    assert n !in Foreign(e, uuid);
  }

  lemma TmpHoldsNothing(d0: Dir, d1: Dir, uuid: string, tmp: Name, stat: Stat, v: Snap)
    requires tmp.Tmp? && tmp !in d0 && tmp in d1 && d1 == d0[tmp := d1[tmp]]
    ensures BelongsInHistory(d0, uuid, stat, v) <==> BelongsInHistory(d1, uuid, stat, v)
  {
    assert forall n :: IsArchive(d0, n, uuid) <==> IsArchive(d1, n, uuid);
    assert forall n :: IsArchive(d0, n, uuid) ==> d0[n] == d1[n];
  }

  lemma WrittenSafely(d0: Dir, d1: Dir, d2: Dir, d4: Dir, uuid: string, ms: seq<Moved>, tmp: Name, final: Name, snap: Snap)
    requires snap.stat.Some? && snap.uuid == Some(uuid) && tmp.Tmp? && final.Visible?
    requires d1 == d0[tmp := Folder(snap, None)] && SameKept(d1, d2, uuid) && (WellNamed(d1) ==> WellNamed(d2))
    requires SetAside(d2, uuid, ms, snap.stat.value) && EndsWith(final.text, "-" + Uuid8(uuid))
    requires tmp in d2 && d2[tmp] == Folder(snap, None) && final !in d2
    requires FoldedUpTo(RenameDir(d2, tmp, final), d4, uuid, ms, |ms|, final, snap.stat.value)
    ensures SafeWrite(d0, d4, uuid, snap)
    ensures IsArchive(d4, final, uuid)
  {
    TmpIsInvisible(d0, d1, tmp, uuid);
    LandingKeeps(d2, tmp, final, uuid, snap, ms, snap.stat.value);
    assert IsArchive(d4, final, uuid) && Holds(d4[final], snap);
  }

  /** A write that did not land kept everything where or as it was. */
  lemma NotWrittenSafely(d0: Dir, d: Dir, uuid: string, snap: Snap)
    requires SameKept(d0, d, uuid) && (WellNamed(d0) ==> WellNamed(d))
    ensures SafeWrite(d0, d, uuid, snap)
  {
    if HasArchive(d0, uuid) {
      var n :| IsArchive(d0, n, uuid);
      assert Holds(d0[n], d0[n].snap);
      assert Kept(d0, uuid, d0[n].snap);
      var m :| IsArchive(d, m, uuid) && Holds(d[m], d0[n].snap);
    }
  }

  lemma NumberedWhile(d0: Dir, d: Dir, tmp: Name, snap: Snap, pid: nat, counter: nat)
    requires tmp.Tmp? && tmp.pid == pid && tmp.seqNo == counter
    requires d in {d0, d0 - {tmp}, d0[tmp := Folder(snap, None)], d0[tmp := Folder(snap.(uuid := None, stat := None), None)],
                   d0[tmp := Folder(snap.(uuid := None, stat := None), None)] - {tmp}}
    ensures NumberedBelow(d0, pid, counter) ==> NumberedBelow(d, pid, counter + 1)
  {
    if NumberedBelow(d0, pid, counter) {
      NumberedLater(d0, pid, counter, counter + 1);
      NumberedWork(d0, tmp, snap, pid, counter + 1);
      var half := snap.(uuid := None, stat := None);
      NumberedWork(d0, tmp, half, pid, counter + 1);
      NumberedRemove(d0, tmp, pid, counter + 1);
      NumberedRemove(d0[tmp := Folder(half, None)], tmp, pid, counter + 1);
    }
    hide NumberedBelow;
  }

  /** Work off to the side: on failure nothing of it is anybody's archive. */
  method Prepare(fs: SessionsDir, uuid: string, snap: Snap) returns (ok: bool, tmp: Name)
    modifies fs`dir, fs`outcomes, fs`down, fs`counter
    ensures tmp == Tmp(Uuid8(uuid), fs.pid, old(fs.counter)) && fs.counter == old(fs.counter) + 1
    ensures old(fs.Clean()) ==> fs.Clean() && ok
    ensures old(fs.Alive()) ==> fs.Alive()
    ensures old(fs.Numbered()) ==> fs.Numbered()
    ensures ok ==> fs.dir == old(fs.dir)[tmp := Folder(snap, None)]
    ensures !ok && old(fs.OneFailureAtMost()) && tmp !in old(fs.dir) ==> fs.dir == old(fs.dir)
    ensures !ok ==> SameKept(old(fs.dir), fs.dir, uuid) && (WellNamed(old(fs.dir)) ==> WellNamed(fs.dir)) && VisibleShrinks(old(fs.dir), fs.dir)
  {
    ghost var d0 := fs.dir;
    var seqNo := fs.NextSeq();
    tmp := Tmp(Uuid8(uuid), fs.pid, seqNo);
    ok := fs.Attempt();
    if ok {
      ok := fs.BuildTmp(tmp, snap);
      if !ok {
        var removed := fs.RemoveAll(tmp);
      }
    }
    NumberedWhile(d0, fs.dir, tmp, snap, fs.pid, fs.counter - 1);
    if !ok {
      assert d0 - {tmp} == fs.dir - {tmp};
      TmpIsInvisible(d0, fs.dir, tmp, uuid);
    }
  }

  lemma PreviousCover(d: Dir, uuid: string, previous: seq<Name>, ms: seq<Moved>)
    requires Previous(d, uuid, previous) && |ms| == |previous| && forall i :: 0 <= i < |ms| ==> ms[i].orig == previous[i]
    requires forall n :: IsArchive(d, n, uuid) ==> n in previous
    ensures Covers(d, uuid, ms)
  {
    forall n | IsArchive(d, n, uuid) ensures exists i :: 0 <= i < |ms| && ms[i].orig == n {
      var i :| 0 <= i < |previous| && previous[i] == n;
      assert ms[i].orig == n;
    }
  }

  /** Land the new folder, then fold the displaced ones in. */
  method LandAndFold(fs: SessionsDir, uuid: string, final: Name, snap: Snap, tmp: Name, ms: seq<Moved>) returns (landed: bool)
    requires tmp.Tmp? && final.Visible? && snap.uuid == Some(uuid) && snap.stat.Some?
    requires tmp in fs.dir && fs.dir[tmp] == Folder(snap, None)
    requires SetAside(fs.dir, uuid, ms, snap.stat.value)
    modifies fs`dir, fs`outcomes, fs`down, fs`counter
    ensures !landed ==> fs.dir == old(fs.dir)
    ensures landed ==> final !in old(fs.dir) && FoldedUpTo(RenameDir(old(fs.dir), tmp, final), fs.dir, uuid, ms, |ms|, final, snap.stat.value)
    ensures fs.counter >= old(fs.counter) && (old(fs.Numbered()) ==> fs.Numbered())
    ensures old(fs.Clean()) ==> fs.Clean() && (landed <==> final !in old(fs.dir))
    ensures old(fs.Alive()) ==> fs.Alive()
    ensures old(fs.Clean()) && landed ==>
              FoldedCleanly(RenameDir(old(fs.dir), tmp, final), fs.dir, fs.entries, ms, |ms|, final, Slots({}, old(fs.counter)), fs.counter)
  {
    ghost var d := fs.dir;
    hide NumberedBelow, FoldedCleanly;
    landed := fs.Rename(tmp, final);
    if landed {
      LandingKeeps(d, tmp, final, uuid, snap, ms, snap.stat.value);
      if NumberedBelow(d, fs.pid, fs.counter) {
        NumberedRename(d, tmp, final, fs.pid, fs.counter);
      }
      FoldAll(fs, uuid, ms, final, snap.stat.value);
    }
  }

  // ---------------------------------------------------------------- is there room for every version?

  /**
   * The names the previous folders bring to the new history, in the order they
   * are folded: for each, those of its versions and then, if it differs, its own.
   * `counter` is the number of the first set-aside name.
   */
  function Placing(d: Dir, uuid: string, stat: Stat, pid: nat, counter: nat, entries: EntryOrder, previous: seq<Name>): seq<HName>
    decreases |previous|
  {
    if previous == [] then []
    else
      var i := |previous| - 1;
      Placing(d, uuid, stat, pid, counter, entries, previous[..i])
      + PlacedBy(d, stat, entries, previous[i], Old(Uuid8(uuid), pid, counter + i, i), i)
  }

  function PlacedBy(d: Dir, stat: Stat, entries: EntryOrder, n: Name, aside: Name, i: nat): seq<HName> {
    HistoryPart(d, entries, n, aside) + VersionPart(d, n, stat, i)
  }

  function VersionPart(d: Dir, n: Name, stat: Stat, i: nat): seq<HName> {
    if n in d && VersionName(d[n].snap, stat, i).Some? then [VersionName(d[n].snap, stat, i).value] else []
  }

  /** The directory with the work folder that a write listing it has built. */
  function ListedNames(d: Dir, uuid: string, pid: nat, counter: nat): set<Name> {
    d.Keys + {Tmp(Uuid8(uuid), pid, counter)}
  }

  /** The previous folders, in the order a write starting at this counter finds them. */
  function FoundBy(d: Dir, uuid: string, pid: nat, counter: nat, names: NameOrder): seq<Name> {
    Found(d, uuid, names(counter + 1, ListedNames(d, uuid, pid, counter)))
  }

  /**
   * Every version the write carries over finds a name in the new history. A
   * condition on the directory, the counter and the order things are read in.
   */
  predicate Clear(d: Dir, uuid: string, stat: Stat, pid: nat, counter: nat, names: NameOrder, entries: EntryOrder) {
    var previous := FoundBy(d, uuid, pid, counter, names);
    RoomForAll(Slots({}, counter + 1 + |previous|), Placing(d, uuid, stat, pid, counter + 1, entries, previous))
  }

  lemma BroughtByOne(d1: Dir, d3: Dir, uuid: string, stat: Stat, n: Name, m: Moved, pid: nat, counter: nat, entries: EntryOrder, i: nat)
    requires n in d1 && m == Moved(n, Old(Uuid8(uuid), pid, counter + i, i), VersionName(d1[n].snap, stat, i))
    requires m.aside in d3 && d3[m.aside] == d1[n]
    ensures Brings(d3, entries, m) == PlacedBy(d1, stat, entries, n, Old(Uuid8(uuid), pid, counter + i, i), i)
  {}

  lemma PlacingOneMore(d: Dir, uuid: string, stat: Stat, pid: nat, counter: nat, entries: EntryOrder, previous: seq<Name>, i: nat)
    requires i < |previous|
    ensures Placing(d, uuid, stat, pid, counter, entries, previous[..i + 1])
            == Placing(d, uuid, stat, pid, counter, entries, previous[..i])
               + PlacedBy(d, stat, entries, previous[i], Old(Uuid8(uuid), pid, counter + i, i), i)
  {
    hide PlacedBy;
    var more := previous[..i + 1];
    assert |more| - 1 == i && more[i] == previous[i] && more[..i] == previous[..i];
  }

  lemma BroughtNothing(d1: Dir, d3: Dir, uuid: string, stat: Stat, previous: seq<Name>, ms: seq<Moved>, pid: nat, counter: nat, entries: EntryOrder)
    ensures BringAll(d3, entries, ms[..0]) == Placing(d1, uuid, stat, pid, counter, entries, previous[..0])
  {
    assert ms[..0] == [] && previous[..0] == [];
  }

  lemma {:induction false} PlacingIsBrought(d1: Dir, d3: Dir, uuid: string, stat: Stat, previous: seq<Name>, ms: seq<Moved>, pid: nat, counter: nat,
                                            entries: EntryOrder, k: nat)
    requires Planned(d1, uuid, stat, previous, ms, pid, counter) && k <= |ms|
    requires forall j :: 0 <= j < |ms| ==> ms[j].aside in d3 && ms[j].orig in d1 && d3[ms[j].aside] == d1[ms[j].orig]
    ensures BringAll(d3, entries, ms[..k]) == Placing(d1, uuid, stat, pid, counter, entries, previous[..k])
    decreases k
  {
    hide BringAll, Placing, Brings, PlacedBy, VersionName, RoomForAll, PlacedAll;
    if k == 0 {
      BroughtNothing(d1, d3, uuid, stat, previous, ms, pid, counter, entries);
    } else {
      var i := k - 1;
      PlacingIsBrought(d1, d3, uuid, stat, previous, ms, pid, counter, entries, i);
      BroughtByOne(d1, d3, uuid, stat, previous[i], ms[i], pid, counter, entries, i);
      BringOneMore(d3, entries, ms, i, Slots({}, 0));
      PlacingOneMore(d1, uuid, stat, pid, counter, entries, previous, i);
    }
  }

  lemma SamePlacedBy(d0: Dir, d1: Dir, stat: Stat, entries: EntryOrder, n: Name, aside: Name, i: nat)
    requires n in d0 && n in d1 && d0[n] == d1[n]
    ensures PlacedBy(d0, stat, entries, n, aside, i) == PlacedBy(d1, stat, entries, n, aside, i)
  {}

  lemma {:induction false} PlacingIgnoresTmp(d0: Dir, d1: Dir, uuid: string, stat: Stat, pid: nat, counter: nat, entries: EntryOrder,
                                             previous: seq<Name>, k: nat)
    requires k <= |previous| && forall n :: n in previous ==> n in d0 && n in d1 && d0[n] == d1[n]
    ensures Placing(d0, uuid, stat, pid, counter, entries, previous[..k]) == Placing(d1, uuid, stat, pid, counter, entries, previous[..k])
    decreases k
  {
    if k == 0 {
      assert previous[..0] == [];
    } else {
      hide Placing, PlacedBy;
      var i := k - 1;
      PlacingIgnoresTmp(d0, d1, uuid, stat, pid, counter, entries, previous, i);
      SamePlacedBy(d0, d1, stat, entries, previous[i], Old(Uuid8(uuid), pid, counter + i, i), i);
      PlacingOneMore(d0, uuid, stat, pid, counter, entries, previous, i);
      PlacingOneMore(d1, uuid, stat, pid, counter, entries, previous, i);
    }
  }

  lemma {:induction false} FoundIgnoresTmp(d0: Dir, d1: Dir, uuid: string, tmp: Name, listing: seq<Name>)
    requires tmp.Tmp? && tmp !in d0 && tmp in d1 && d1 == d0[tmp := d1[tmp]]
    ensures Found(d0, uuid, listing) == Found(d1, uuid, listing)
    decreases |listing|
  {
    if listing != [] {
      FoundIgnoresTmp(d0, d1, uuid, tmp, listing[..|listing| - 1]);
    }
  }

  /** What is brought when everything was set aside is what the directory before the write says. */
  lemma BroughtIsClear(d0: Dir, d1: Dir, d3: Dir, uuid: string, stat: Stat, ms: seq<Moved>, pid: nat, c0: nat, names: NameOrder, entries: EntryOrder)
    requires var tmp := Tmp(Uuid8(uuid), pid, c0);
             tmp !in d0 && tmp in d1 && d1 == d0[tmp := d1[tmp]]
    requires InReadingOrder(d1, uuid, ms, stat, pid, c0 + 1, names)
    requires forall j :: 0 <= j < |ms| ==> ms[j].aside in d3 && ms[j].orig in d1 && d3[ms[j].aside] == d1[ms[j].orig]
    ensures RoomForAll(Slots({}, c0 + 1 + |ms|), BringAll(d3, entries, ms)) <==> Clear(d0, uuid, stat, pid, c0, names, entries)
  {
    hide Found, FoundBy, BringAll, RoomForAll, IsPrevious, Placing, Planned;
    FoundWithTmp(d0, d1, uuid, pid, c0, names);
    var previous := FoundBy(d0, uuid, pid, c0, names);
    PlacingIgnoresTmp(d0, d1, uuid, stat, pid, c0 + 1, entries, previous, |previous|);
    PlacingIsBrought(d1, d3, uuid, stat, previous, ms, pid, c0 + 1, entries, |ms|);
    assert ms[..|ms|] == ms && previous[..|ms|] == previous;
  }

  /** The work folder is no previous folder, so a listing with it finds the same ones. */
  lemma FoundWithTmp(d0: Dir, d1: Dir, uuid: string, pid: nat, c0: nat, names: NameOrder)
    requires var tmp := Tmp(Uuid8(uuid), pid, c0);
             tmp !in d0 && tmp in d1 && d1 == d0[tmp := d1[tmp]]
    ensures FoundBy(d0, uuid, pid, c0, names) == Found(d1, uuid, names(c0 + 1, d1.Keys))
    ensures forall n :: n in FoundBy(d0, uuid, pid, c0, names) ==> n in d0 && n in d1 && d0[n] == d1[n]
  {
    var tmp := Tmp(Uuid8(uuid), pid, c0);
    var listing := names(c0 + 1, d1.Keys);
    assert d1.Keys == ListedNames(d0, uuid, pid, c0);
    FoundIgnoresTmp(d0, d1, uuid, tmp, listing);
    hide Found, IsPrevious;
    forall n | n in Found(d0, uuid, listing) ensures n in d0 && n in d1 && d0[n] == d1[n] {
      FoundExactly(d1, uuid, listing, n);
      FoundAreThere(d0, d1, uuid, tmp, n);
    }
  }

  lemma FoundAreThere(d0: Dir, d1: Dir, uuid: string, tmp: Name, n: Name)
    requires tmp.Tmp? && tmp in d1 && d1 == d0[tmp := d1[tmp]] && IsPrevious(d1, uuid, n)
    ensures n in d0 && d0[n] == d1[n]
  {}

  // ---------------------------------------------------------------- putting the write together

  /** The set-aside names of a process are fresh in a directory that only gained its work folder. */
  lemma FreshWithTmp(d: Dir, short: string, pid: nat, counter: nat, f: Folder)
    requires FreshNames(d, pid, counter)
    ensures Tmp(short, pid, counter) !in d
    ensures FreshNames(d[Tmp(short, pid, counter) := f], pid, counter + 1)
  {}

  lemma DisplacedMeansSame(d0: Dir, d1: Dir, d2: Dir, d3: Dir, tmp: Name, uuid: string)
    requires tmp.Tmp? && d0 - {tmp} == d1 - {tmp} && SameKept(d1, d2, uuid) && SameKept(d2, d3, uuid)
    requires WellNamed(d1) ==> WellNamed(d3)
    ensures SameKept(d0, d3, uuid) && (WellNamed(d0) ==> WellNamed(d3))
  {
    TmpIsInvisible(d0, d1, tmp, uuid);
    SameKeptTransitive(d0, d1, d2, uuid);
    SameKeptTransitive(d0, d2, d3, uuid);
  }

  lemma TakenMeansStillThere(d0: Dir, d1: Dir, d2: Dir, uuid: string, ms: seq<Moved>, stat: Stat, tmp: Name, final: Name)
    requires tmp.Tmp? && final.Visible? && d0 - {tmp} == d1 - {tmp}
    requires AllSetAside(d1, d2, uuid, ms, stat)
    ensures final in d2 <==> NameTaken(d0, uuid, final)
  {
    OnlyAsidesLeft(d1, d2, uuid, ms, final);
    assert final in d0 <==> final in d0 - {tmp};
    assert final in d1 <==> final in d1 - {tmp};
  }

  lemma MovesAreMovable(d: Dir, uuid: string, previous: seq<Name>, ms: seq<Moved>)
    requires Previous(d, uuid, previous) && |ms| <= |previous| && forall i :: 0 <= i < |ms| ==> ms[i].orig == previous[i]
    ensures (forall m :: m in ms ==> !m.orig.Tmp?) && (WellNamed(d) ==> NamedFor(uuid, ms))
  {
    forall m | m in ms ensures !m.orig.Tmp? && (WellNamed(d) && m.orig.Visible? ==> EndsWith(m.orig.text, "-" + Uuid8(uuid))) {
      var i :| 0 <= i < |ms| && ms[i] == m;
      assert IsArchive(d, previous[i], uuid);
    }
  }

  /** What one write promises when nothing fails. */
  ghost predicate CleanWrite(d0: Dir, d: Dir, uuid: string, final: Name, snap: Snap, landed: bool, replaced: bool, clear: bool)
    requires snap.stat.Some?
  {
    && (landed <==> !NameTaken(d0, uuid, final))
    && (landed ==> (CompleteWrite(d0, d, uuid, final, snap) <==> clear) && (replaced <==> HasArchive(d0, uuid)))
    && (!landed ==> d == d0)
  }

  lemma PreviousMeansReplaced(d: Dir, uuid: string, previous: seq<Name>)
    requires forall i :: 0 <= i < |previous| ==> IsArchive(d, previous[i], uuid)
    requires forall n :: IsArchive(d, n, uuid) ==> n in previous
    ensures previous != [] <==> HasArchive(d, uuid)
  {
    if previous != [] {
      assert IsArchive(d, previous[0], uuid);
    }
  }

  /** With nothing failing, everything of the session was set aside and nothing else moved. */
  ghost predicate AllSetAside(d1: Dir, d2: Dir, uuid: string, ms: seq<Moved>, stat: Stat) {
    MovesOf(d1, ms) && Displaced(d1, d2, ms, 0) && Covers(d1, uuid, ms) && NamesVersions(d1, ms, stat)
  }

  /** And it was set aside in the order it was found, under consecutive numbers. */
  ghost predicate InReadingOrder(d1: Dir, uuid: string, ms: seq<Moved>, stat: Stat, pid: nat, counter: nat, names: NameOrder) {
    var previous := Found(d1, uuid, names(counter, d1.Keys));
    Planned(d1, uuid, stat, previous, ms, pid, counter) && |ms| == |previous|
  }

  lemma NoneVisible(d0: Dir, d: Dir, uuid: string, previous: seq<Name>, ms: seq<Moved>)
    requires WholeAside(d0, d, ms) && |ms| == |previous| && forall i :: 0 <= i < |ms| ==> ms[i].orig == previous[i]
    requires forall n :: IsArchive(d0, n, uuid) ==> n in previous
    ensures NoVisibleArchive(d, uuid)
  {
    forall n: Name | n.Visible? ensures !IsArchive(d, n, uuid) {
      if n in previous {
        var i :| 0 <= i < |previous| && previous[i] == n;
        assert ms[i].orig == n;
      }
    }
  }

  /** Find the session's previous folders and move them aside. */
  method SetAsidePrevious(fs: SessionsDir, uuid: string, stat: Stat) returns (ok: bool, ms: seq<Moved>, replaced: bool)
    modifies fs`dir, fs`outcomes, fs`down, fs`counter
    ensures SetAside(fs.dir, uuid, ms, stat) && (forall m :: m in ms ==> !m.orig.Tmp?)
    ensures SameKept(old(fs.dir), fs.dir, uuid) && SameTmps(old(fs.dir), fs.dir) && WholeAside(old(fs.dir), fs.dir, ms)
    ensures old(fs.Clean()) && WellNamed(old(fs.dir)) && ok ==> NoVisibleArchive(fs.dir, uuid)
    ensures WellNamed(old(fs.dir)) ==> WellNamed(fs.dir) && NamedFor(uuid, ms)
    ensures fs.counter >= old(fs.counter) && (old(fs.Clean()) ==> fs.Clean()) && (old(fs.Alive()) ==> fs.Alive()) && (old(fs.Numbered()) ==> fs.Numbered())
    ensures old(fs.Clean()) && WellNamed(old(fs.dir)) && FreshNames(old(fs.dir), fs.pid, old(fs.counter)) ==>
              && ok && AllSetAside(old(fs.dir), fs.dir, uuid, ms, stat) && (replaced <==> HasArchive(old(fs.dir), uuid))
              && InReadingOrder(old(fs.dir), uuid, ms, stat, fs.pid, old(fs.counter), fs.names) && fs.counter == old(fs.counter) + |ms|
  {
    ghost var d1, c1 := fs.dir, fs.counter;
    hide NumberedBelow;
    var previous := Discover(fs, uuid);
    replaced := previous != [];
    ok, ms := Displace(fs, uuid, stat, previous);
    MovesAreMovable(d1, uuid, previous, ms);
    if old(fs.Clean()) && WellNamed(d1) && ok {
      NoneVisible(d1, fs.dir, uuid, previous, ms);
    }
    if old(fs.Clean()) && WellNamed(d1) && FreshNames(d1, fs.pid, c1) {
      PreviousCover(d1, uuid, previous, ms);
      PreviousMeansReplaced(d1, uuid, previous);
      PlannedNames(d1, uuid, stat, previous, ms, fs.pid, c1);
    }
  }

  lemma TmpKeepsHasArchive(d0: Dir, d1: Dir, tmp: Name, uuid: string)
    requires tmp.Tmp? && d0 - {tmp} == d1 - {tmp}
    ensures HasArchive(d0, uuid) <==> HasArchive(d1, uuid)
    ensures WellNamed(d0) <==> WellNamed(d1)
    ensures Foreign(d0, uuid) == Foreign(d1, uuid)
  {
    TmpIsInvisible(d0, d1, tmp, uuid);
  }

  lemma OnlyFinalVisible(d2: Dir, d4: Dir, uuid: string, ms: seq<Moved>, tmp: Name, final: Name, snap: Snap)
    requires tmp.Tmp? && final.Visible? && tmp in d2 && final !in d2 && d2[tmp] == Folder(snap, None) && snap.stat.Some?
    requires FoldedUpTo(RenameDir(d2, tmp, final), d4, uuid, ms, |ms|, final, snap.stat.value)
    requires NoVisibleArchive(d2, uuid)
    ensures OnlyVisibleArchive(d4, uuid, final)
  {
    forall n: Name | n.Visible? && IsArchive(d4, n, uuid) && n != final ensures false {
      StaysForeign(RenameDir(d2, tmp, final), d4, uuid, n);
      assert IsArchive(d2, n, uuid);
    }
  }

  /** A displaced folder that could not be folded away whole is still an archive of the session. */
  lemma LeftoverIsArchive(d3: Dir, d4: Dir, uuid: string, ms: seq<Moved>, k: nat, final: Name, stat: Stat, j: nat)
    requires SetAside(d3, uuid, ms, stat) && FoldedUpTo(d3, d4, uuid, ms, k, final, stat) && j < |ms| && ms[j].aside in d4
    ensures IsArchive(d4, ms[j].aside, uuid)
  {
    var n := ms[j].aside;
    assert n !in Foreign(d3, uuid) && n in d4 && !n.Tmp?;
    assert n in Foreign(d4, uuid) <==> !IsArchive(d4, n, uuid);
  }

  /** Complete exactly if every version found a name. */
  lemma CompleteIfClear(d0: Dir, d2: Dir, d4: Dir, uuid: string, ms: seq<Moved>, tmp: Name, final: Name, snap: Snap, entries: EntryOrder, s: Slots, counter: nat)
    requires snap.stat.Some? && snap.uuid == Some(uuid) && tmp.Tmp? && final.Visible? && tmp !in d0
    requires tmp in d2 && d2[tmp] == Folder(snap, None) && final !in d2
    requires var d1 := d0[tmp := Folder(snap, None)];
             AllSetAside(d1, d2, uuid, ms, snap.stat.value) && SameTmps(d1, d2)
    requires var d3 := RenameDir(d2, tmp, final);
             && SetAside(d3, uuid, ms, snap.stat.value) && FoldedUpTo(d3, d4, uuid, ms, |ms|, final, snap.stat.value)
             && FoldedCleanly(d3, d4, entries, ms, |ms|, final, s, counter)
    requires Foreign(d0, uuid) == Foreign(d4, uuid)
    ensures CompleteWrite(d0, d4, uuid, final, snap) <==> RoomForAll(s, BringAll(RenameDir(d2, tmp, final), entries, ms))
  {
    var d3 := RenameDir(d2, tmp, final);
    assert ms[..|ms|] == ms;
    hide RoomForAll, BringAll, FoldedUpTo, PlacedAll, SlotsOf, SetAside;
    if RoomForAll(s, BringAll(d3, entries, ms)) {
      FoldIsComplete(d0, d2, d4, uuid, ms, tmp, final, snap);
    } else {
      var j :| 0 <= j < |ms| && ms[j].aside in d4;
      LeftoverIsArchive(d3, d4, uuid, ms, |ms|, final, snap.stat.value, j);
      AsidesAreOld(d3, uuid, ms, snap.stat.value, j);
    }
  }

  lemma AsidesAreOld(d: Dir, uuid: string, ms: seq<Moved>, stat: Stat, j: nat)
    requires SetAside(d, uuid, ms, stat) && j < |ms|
    ensures ms[j].aside.Old?
  {}

  /** What a landed replacement amounts to. */
  lemma ReplaceLanded(d0: Dir, d1: Dir, d2: Dir, d4: Dir, uuid: string, ms: seq<Moved>, tmp: Name, final: Name, snap: Snap)
    requires snap.stat.Some? && snap.uuid == Some(uuid) && tmp.Tmp? && final.Visible? && EndsWith(final.text, "-" + Uuid8(uuid))
    requires d1 == d0[tmp := Folder(snap, None)] && SameKept(d1, d2, uuid) && (WellNamed(d1) ==> WellNamed(d2)) && SameTmps(d1, d2)
    requires SetAside(d2, uuid, ms, snap.stat.value) && final !in d2
    requires FoldedUpTo(RenameDir(d2, tmp, final), d4, uuid, ms, |ms|, final, snap.stat.value)
    ensures SafeWrite(d0, d4, uuid, snap) && IsArchive(d4, final, uuid) && d4[final].snap == snap
    ensures NoVisibleArchive(d2, uuid) ==> OnlyVisibleArchive(d4, uuid, final)
    ensures tmp in d2 && d2[tmp] == Folder(snap, None) && SetAside(RenameDir(d2, tmp, final), uuid, ms, snap.stat.value)
  {
    assert tmp in d2 && d2[tmp] == d1[tmp];
    WrittenSafely(d0, d1, d2, d4, uuid, ms, tmp, final, snap);
    LandingKeeps(d2, tmp, final, uuid, snap, ms, snap.stat.value);
    if NoVisibleArchive(d2, uuid) {
      OnlyFinalVisible(d2, d4, uuid, ms, tmp, final, snap);
    }
    hide Kept, StoredOnce, Foreign, WellNamed, SafeWrite, SetAside;
  }

  /** With nothing failing, a landed replacement is complete exactly if the directory had room for every version. */
  lemma LandedCleanly(d0: Dir, d1: Dir, d2: Dir, d4: Dir, uuid: string, ms: seq<Moved>, tmp: Name, final: Name, snap: Snap,
                      pid: nat, c0: nat, c: nat, names: NameOrder, entries: EntryOrder, counter: nat)
    requires snap.stat.Some? && snap.uuid == Some(uuid) && final.Visible? && EndsWith(final.text, "-" + Uuid8(uuid))
    requires tmp == Tmp(Uuid8(uuid), pid, c0) && d1 == d0[tmp := Folder(snap, None)] && SameTmps(d1, d2)
    requires tmp in d2 && d2[tmp] == Folder(snap, None) && final !in d2
    requires ReadyToLand(d0, d1, d2, uuid, ms, snap.stat.value, pid, c0, c, names)
    requires var d3 := RenameDir(d2, tmp, final);
             && SetAside(d3, uuid, ms, snap.stat.value) && FoldedUpTo(d3, d4, uuid, ms, |ms|, final, snap.stat.value)
             && FoldedCleanly(d3, d4, entries, ms, |ms|, final, Slots({}, c), counter)
    requires Foreign(d0, uuid) == Foreign(d4, uuid)
    ensures CompleteWrite(d0, d4, uuid, final, snap) <==> Clear(d0, uuid, snap.stat.value, pid, c0, names, entries)
  {
    hide CompleteWrite, Clear, RoomForAll, BringAll, InReadingOrder, FoldedCleanly, FoldedUpTo, SetAside, SameTmps, AllSetAside, RenameDir, EndsWith, Foreign;
    CompleteIfClear(d0, d2, d4, uuid, ms, tmp, final, snap, entries, Slots({}, c), counter);
    ReadyIsClear(d0, d1, d2, uuid, ms, snap.stat.value, tmp, final, pid, c0, c, names, entries);
  }

  lemma ReadyIsClear(d0: Dir, d1: Dir, d2: Dir, uuid: string, ms: seq<Moved>, stat: Stat, tmp: Name, final: Name,
                     pid: nat, c0: nat, c: nat, names: NameOrder, entries: EntryOrder)
    requires tmp == Tmp(Uuid8(uuid), pid, c0) && tmp in d1 && d1 == d0[tmp := d1[tmp]] && tmp in d2 && final !in d2
    requires ReadyToLand(d0, d1, d2, uuid, ms, stat, pid, c0, c, names)
    ensures RoomForAll(Slots({}, c), BringAll(RenameDir(d2, tmp, final), entries, ms)) <==> Clear(d0, uuid, stat, pid, c0, names, entries)
  {
    hide Clear, RoomForAll, BringAll, InReadingOrder, AllSetAside, RenameDir;
    AsideAsBefore(d1, d2, uuid, ms, tmp, final, stat);
    BroughtIsClear(d0, d1, RenameDir(d2, tmp, final), uuid, stat, ms, pid, c0, names, entries);
  }

  lemma AsideAsBefore(d1: Dir, d2: Dir, uuid: string, ms: seq<Moved>, tmp: Name, final: Name, stat: Stat)
    requires AllSetAside(d1, d2, uuid, ms, stat) && tmp.Tmp? && tmp in d2 && final !in d2
    ensures var d3 := RenameDir(d2, tmp, final);
            forall j :: 0 <= j < |ms| ==> ms[j].aside in d3 && ms[j].orig in d1 && d3[ms[j].aside] == d1[ms[j].orig]
  {}

  /** What a replacement that did not land amounts to. */
  lemma ReplaceUndone(d0: Dir, d1: Dir, d2: Dir, d3: Dir, uuid: string, tmp: Name, snap: Snap)
    requires tmp.Tmp? && d1 == d0[tmp := Folder(snap, None)] && SameKept(d1, d2, uuid) && SameKept(d2, d3, uuid)
    requires (WellNamed(d1) ==> WellNamed(d3)) && VisibleShrinks(d1, d3)
    ensures SafeWrite(d0, d3, uuid, snap) && SameKept(d0, d3, uuid) && VisibleShrinks(d0, d3)
    ensures tmp !in d0 ==> d1 - {tmp} == d0
  {
    assert d0 - {tmp} == d1 - {tmp};
    DisplacedMeansSame(d0, d1, d2, d3, tmp, uuid);
    NotWrittenSafely(d0, d3, uuid, snap);
  }

  /** With nothing failing so far, all of the session is set aside in reading order, under numbers from c0 + 1 up to c. */
  ghost predicate ReadyToLand(d0: Dir, d1: Dir, d2: Dir, uuid: string, ms: seq<Moved>, stat: Stat, pid: nat, c0: nat, c: nat, names: NameOrder) {
    && Tmp(Uuid8(uuid), pid, c0) !in d0 && AllSetAside(d1, d2, uuid, ms, stat)
    && InReadingOrder(d1, uuid, ms, stat, pid, c0 + 1, names) && c == c0 + 1 + |ms|
  }

  /** After a landing only numbers already given out are in use in names. */
  lemma FreshAfterLanding(d0: Dir, d1: Dir, d2: Dir, d4: Dir, uuid: string, ms: seq<Moved>, stat: Stat, tmp: Name, final: Name,
                          pid: nat, c0: nat, c: nat, counter: nat, names: NameOrder)
    requires ReadyToLand(d0, d1, d2, uuid, ms, stat, pid, c0, c, names) && FreshNames(d1, pid, c0 + 1)
    requires tmp in d2 && final.Visible? && c <= counter && forall n :: n in d4 ==> n in RenameDir(d2, tmp, final)
    ensures FreshNames(d4, pid, counter)
  {
    hide Covers, NamesVersions;
    assert ms[0..] == ms;
    forall n | n in d4 && !n.Visible? && n.pid == pid ensures n.seqNo < counter {
      assert n in d2;
      if n !in d1 {
        var i :| 0 <= i < |ms| && ms[i].aside == n;
      }
    }
  }

  lemma FoldingAddsNoFolder(d0: Dir, d: Dir, uuid: string, ms: seq<Moved>, k: nat, final: Name, stat: Stat)
    requires FoldedUpTo(d0, d, uuid, ms, k, final, stat)
    ensures forall n :: n in d ==> n in d0
  {}

  /** Land the finished work folder over what was set aside. */
  method Land(fs: SessionsDir, uuid: string, final: Name, snap: Snap, tmp: Name, ms: seq<Moved>, ghost d0: Dir, ghost d1: Dir, ghost c0: nat, ghost clean: bool)
    returns (landed: bool)
    requires tmp == Tmp(Uuid8(uuid), fs.pid, c0) && final.Visible? && EndsWith(final.text, "-" + Uuid8(uuid))
    requires snap.uuid == Some(uuid) && snap.stat.Some? && d1 == d0[tmp := Folder(snap, None)]
    requires SameKept(d1, fs.dir, uuid) && (WellNamed(d1) ==> WellNamed(fs.dir)) && SameTmps(d1, fs.dir) && SetAside(fs.dir, uuid, ms, snap.stat.value)
    requires clean ==> fs.Clean() && ReadyToLand(d0, d1, fs.dir, uuid, ms, snap.stat.value, fs.pid, c0, fs.counter, fs.names)
    requires clean ==> FreshNames(d1, fs.pid, c0 + 1)
    modifies fs`dir, fs`outcomes, fs`down, fs`counter
    ensures !landed ==> fs.dir == old(fs.dir)
    ensures landed ==> SafeWrite(d0, fs.dir, uuid, snap) && IsArchive(fs.dir, final, uuid) && fs.dir[final].snap == snap
    ensures landed && NoVisibleArchive(old(fs.dir), uuid) ==> OnlyVisibleArchive(fs.dir, uuid, final)
    ensures fs.counter >= old(fs.counter) && (old(fs.Numbered()) ==> fs.Numbered())
    ensures old(fs.Clean()) ==> fs.Clean() && (landed <==> final !in old(fs.dir))
    ensures old(fs.Alive()) ==> fs.Alive()
    ensures clean && landed ==> FreshNames(fs.dir, fs.pid, fs.counter)
    ensures clean && landed ==>
              (CompleteWrite(d0, fs.dir, uuid, final, snap) <==> Clear(d0, uuid, snap.stat.value, fs.pid, c0, fs.names, fs.entries))
  {
    ghost var d2, c := fs.dir, fs.counter;
    TmpStillThere(d1, tmp);
    hide NumberedBelow, Clear, FoldedCleanly, ReadyToLand, SameTmps, SetAside, NoVisibleArchive, WellNamed, SameKept,
      SafeWrite, CompleteWrite, FoldedUpTo, OnlyVisibleArchive, RenameDir, EndsWith, Uuid8;
    landed := LandAndFold(fs, uuid, final, snap, tmp, ms);
    if landed {
      ReplaceLanded(d0, d1, d2, fs.dir, uuid, ms, tmp, final, snap);
      if clean {
        LandedCleanly(d0, d1, d2, fs.dir, uuid, ms, tmp, final, snap, fs.pid, c0, c, fs.names, fs.entries, fs.counter);
        FoldingAddsNoFolder(RenameDir(d2, tmp, final), fs.dir, uuid, ms, |ms|, final, snap.stat.value);
        FreshAfterLanding(d0, d1, d2, fs.dir, uuid, ms, snap.stat.value, tmp, final, fs.pid, c0, c, fs.counter, fs.names);
      }
    }
  }

  /** Nothing landed: put back what was set aside. */
  method Undo(fs: SessionsDir, uuid: string, snap: Snap, tmp: Name, ms: seq<Moved>, ghost d0: Dir, ghost d1: Dir, ghost c1: nat)
    requires tmp.Tmp? && snap.stat.Some? && d1 == d0[tmp := Folder(snap, None)] && SameTmps(d1, fs.dir) && c1 <= fs.counter
    requires SetAside(fs.dir, uuid, ms, snap.stat.value) && (forall m :: m in ms ==> !m.orig.Tmp?) && WholeAside(d1, fs.dir, ms)
    requires SameKept(d1, fs.dir, uuid) && (WellNamed(d1) ==> WellNamed(fs.dir) && NamedFor(uuid, ms))
    modifies fs`dir, fs`outcomes, fs`down
    ensures SafeWrite(d0, fs.dir, uuid, snap) && SameKept(d0, fs.dir, uuid) && VisibleShrinks(d0, fs.dir)
    ensures (old(fs.Clean()) ==> fs.Clean()) && (old(fs.Alive()) ==> fs.Alive()) && (NumberedBelow(d1, fs.pid, c1) && old(fs.Numbered()) ==> fs.Numbered())
    ensures old(fs.Clean()) && AllSetAside(d1, old(fs.dir), uuid, ms, snap.stat.value) && tmp !in d0 ==> fs.dir == d0
  {
    ghost var d2 := fs.dir;
    TmpStillThere(d1, tmp);
    hide NumberedBelow, SameTmps, SetAside, WholeAside, WellNamed, SameKept, SafeWrite, VisibleShrinks, MovesOf, Displaced, Covers, NamesVersions, NamedFor;
    if NumberedBelow(d1, fs.pid, c1) {
      NumberedLater(d1, fs.pid, c1, fs.counter);
    }
    Rollback(fs, uuid, snap.stat.value, ms, tmp, d1);
    ReplaceUndone(d0, d1, d2, fs.dir, uuid, tmp, snap);
  }

  lemma TmpStillThere(d1: Dir, tmp: Name)
    requires tmp.Tmp? && tmp in d1
    ensures forall d2 :: SameTmps(d1, d2) ==> tmp in d2 && d2[tmp] == d1[tmp]
  {}

  /** The replacement proper, from a finished work folder on. */
  method Replace(fs: SessionsDir, uuid: string, final: Name, snap: Snap, tmp: Name, ghost d0: Dir, ghost c0: nat) returns (landed: bool, replaced: bool)
    requires tmp == Tmp(Uuid8(uuid), fs.pid, c0) && final.Visible? && EndsWith(final.text, "-" + Uuid8(uuid))
    requires snap.uuid == Some(uuid) && snap.stat.Some?
    requires fs.dir == d0[tmp := Folder(snap, None)] && fs.counter == c0 + 1
    modifies fs`dir, fs`outcomes, fs`down, fs`counter
    ensures SafeWrite(d0, fs.dir, uuid, snap)
    ensures landed ==> IsArchive(fs.dir, final, uuid) && fs.dir[final].snap == snap
    ensures !landed ==> SameKept(d0, fs.dir, uuid) && VisibleShrinks(d0, fs.dir)
    ensures fs.counter >= old(fs.counter) && (old(fs.Clean()) ==> fs.Clean()) && (old(fs.Alive()) ==> fs.Alive()) && (old(fs.Numbered()) ==> fs.Numbered())
    ensures old(fs.Clean()) && WellNamed(d0) && landed ==> OnlyVisibleArchive(fs.dir, uuid, final)
    ensures old(fs.Clean()) && WellNamed(d0) && tmp !in d0 && FreshNames(old(fs.dir), fs.pid, old(fs.counter)) ==>
              && CleanWrite(d0, fs.dir, uuid, final, snap, landed, replaced, Clear(d0, uuid, snap.stat.value, fs.pid, c0, fs.names, fs.entries))
              && (landed ==> FreshNames(fs.dir, fs.pid, fs.counter))
  {
    ghost var d1, c1 := fs.dir, fs.counter;
    ghost var clean := fs.Clean() && WellNamed(d0) && tmp !in d0 && FreshNames(d1, fs.pid, fs.counter);
    TmpKeepsHasArchive(d0, d1, tmp, uuid);
    hide NumberedBelow, Clear, FreshNames, InReadingOrder, SameTmps, SetAside, WholeAside, NoVisibleArchive, WellNamed, SameKept,
      SafeWrite, VisibleShrinks, CompleteWrite, NameTaken, AllSetAside, OnlyVisibleArchive, HasArchive, NamedFor;
    var ok, ms;
    ok, ms, replaced := SetAsidePrevious(fs, uuid, snap.stat.value);
    landed := false;
    if ok {
      if clean {
        TakenMeansStillThere(d0, d1, fs.dir, uuid, ms, snap.stat.value, tmp, final);
      }
      landed := Land(fs, uuid, final, snap, tmp, ms, d0, d1, c0, clean);
    }
    if !landed {
      Undo(fs, uuid, snap, tmp, ms, d0, d1, c1);
    }
  }

  /**
   * Write (or replace) the archive of a session under `finalText`, which ends in
   * the short uuid. Whatever fails and wherever the process dies, no version is
   * lost, no other session's folder changes, and no number yet to be given out
   * comes into use. When nothing fails, the write lands exactly if its name is
   * not somebody else's, and is then complete exactly if there was room for the
   * name of every version.
   */
  method WriteArchive(fs: SessionsDir, uuid: string, finalText: string, snap: Snap) returns (r: Result<Landed, WriteError>)
    requires EndsWith(finalText, "-" + Uuid8(uuid)) && snap.uuid == Some(uuid) && snap.stat.Some?
    modifies fs`dir, fs`outcomes, fs`down, fs`counter
    ensures SafeWrite(old(fs.dir), fs.dir, uuid, snap)
    ensures r.Ok? ==> r.value.folder == Visible(finalText) && IsArchive(fs.dir, r.value.folder, uuid) && fs.dir[r.value.folder].snap == snap
    ensures r.Err? ==> SameKept(old(fs.dir), fs.dir, uuid) && VisibleShrinks(old(fs.dir), fs.dir)
    ensures fs.counter >= old(fs.counter) && (old(fs.Clean()) ==> fs.Clean()) && (old(fs.Alive()) ==> fs.Alive()) && (old(fs.Numbered()) ==> fs.Numbered())
    ensures old(fs.Clean()) && WellNamed(old(fs.dir)) && r.Ok? ==> OnlyVisibleArchive(fs.dir, uuid, r.value.folder)
    ensures !(8 <= |uuid| <= 128 && SafeChars(uuid)) ==> r == Err(UnsafeId) && fs.dir == old(fs.dir)
    ensures IsSafeUuid(uuid) && old(fs.Clean()) && WellNamed(old(fs.dir)) && FreshNames(old(fs.dir), fs.pid, old(fs.counter)) ==>
              && CleanWrite(old(fs.dir), fs.dir, uuid, Visible(finalText), snap, r.Ok?, r.Ok? && r.value.replaced,
                            Clear(old(fs.dir), uuid, snap.stat.value, fs.pid, old(fs.counter), fs.names, fs.entries))
              && FreshNames(fs.dir, fs.pid, fs.counter)
  {
    ghost var d0, c0 := fs.dir, fs.counter;
    NotWrittenSafely(d0, d0, uuid, snap);
    if !IsSafeUuid(uuid) {
      return Err(UnsafeId);
    }
    hide NumberedBelow, Clear;
    var made := fs.Attempt();
    if !made {
      return Err(Io);
    }
    var ok, tmp := Prepare(fs, uuid, snap);
    if !ok {
      NotWrittenSafely(d0, fs.dir, uuid, snap);
      return Err(Io);
    }
    if FreshNames(d0, fs.pid, c0) {
      FreshWithTmp(d0, Uuid8(uuid), fs.pid, c0, Folder(snap, None));
    }
    var landed, replaced := Replace(fs, uuid, Visible(finalText), snap, tmp, d0, c0);
    r := if landed then Ok(Landed(Visible(finalText), replaced)) else Err(Io);
  }

  // ---------------------------------------------------------------- over any number of writes

  /** One write in a history of writes: whose, of what, and the directory it left. */
  datatype Write = Write(uuid: string, snap: Snap, after: Dir)

  ghost predicate WriteHistory(d0: Dir, writes: seq<Write>)
    decreases |writes|
  {
    writes == [] || (SafeWrite(d0, writes[0].after, writes[0].uuid, writes[0].snap) && WriteHistory(writes[0].after, writes[1..]))
  }

  function LastDir(d0: Dir, writes: seq<Write>): Dir {
    if writes == [] then d0 else writes[|writes| - 1].after
  }

  /** A write of one session is invisible to every other, even one with the same short uuid. */
  lemma OtherSessionsUntouched(d0: Dir, d1: Dir, uuid: string, snap: Snap, other: string, v: Snap)
    requires SafeWrite(d0, d1, uuid, snap) && other != uuid
    ensures forall n :: IsArchive(d0, n, other) <==> IsArchive(d1, n, other)
    ensures forall n :: IsArchive(d0, n, other) ==> n in d1 && d1[n] == d0[n]
    ensures Kept(d0, other, v) <==> Kept(d1, other, v)
  {
    forall n ensures IsArchive(d0, n, other) <==> IsArchive(d1, n, other)
      ensures IsArchive(d0, n, other) ==> n in d1 && d1[n] == d0[n]
    {
      assert IsArchive(d0, n, other) ==> n in Foreign(d0, uuid) && Foreign(d0, uuid)[n] == d0[n];
      assert IsArchive(d1, n, other) ==> n in Foreign(d1, uuid) && Foreign(d1, uuid)[n] == d1[n];
    }
    if Kept(d0, other, v) {
      var n :| IsArchive(d0, n, other) && Holds(d0[n], v);
      assert IsArchive(d1, n, other) && Holds(d1[n], v);
    }
    if Kept(d1, other, v) {
      var n :| IsArchive(d1, n, other) && Holds(d1[n], v);
      assert IsArchive(d0, n, other) && Holds(d0[n], v);
    }
  }

  /** Folders stay named after their sessions, so a write with nothing failing is complete again after any number of faulty ones. */
  lemma {:induction false} WellNamedThroughout(d0: Dir, writes: seq<Write>)
    requires WriteHistory(d0, writes) && WellNamed(d0)
    ensures WellNamed(LastDir(d0, writes))
    decreases |writes|
  {
    if writes != [] {
      hide WellNamed;
      assert WellNamed(writes[0].after);
      assert LastDir(d0, writes) == LastDir(writes[0].after, writes[1..]);
      WellNamedThroughout(writes[0].after, writes[1..]);
    }
  }

  /** The write that made v redundant: same session, same content, and landed. */
  ghost predicate Superseded(writes: seq<Write>, uuid: string, v: Snap) {
    exists i :: 0 <= i < |writes| && writes[i].uuid == uuid && writes[i].snap.stat.Some?
                && !Changed(v, writes[i].snap.stat.value) && Kept(writes[i].after, uuid, writes[i].snap)
  }

  /**
   * Over any sequence of writes, failed and crashed ones included, of this and
   * other sessions: every version is still stored or was superseded by a landed
   * snapshot of the same content, and a session that had an archive has one.
   */
  lemma {:induction false} NoVersionEverLost(d0: Dir, writes: seq<Write>, uuid: string, v: Snap)
    requires WriteHistory(d0, writes) && Kept(d0, uuid, v)
    ensures Kept(LastDir(d0, writes), uuid, v) || Superseded(writes, uuid, v)
    ensures HasArchive(LastDir(d0, writes), uuid)
    decreases |writes|
  {
    var n :| IsArchive(d0, n, uuid) && Holds(d0[n], v);
    if writes != [] {
      var w, rest := writes[0], writes[1..];
      assert LastDir(d0, writes) == LastDir(w.after, rest);
      if w.uuid != uuid {
        OtherSessionsUntouched(d0, w.after, w.uuid, w.snap, uuid, v);
      }
      if Kept(w.after, uuid, v) {
        NoVersionEverLost(w.after, rest, uuid, v);
        if Superseded(rest, uuid, v) {
          var i :| 0 <= i < |rest| && rest[i].uuid == uuid && rest[i].snap.stat.Some?
                   && !Changed(v, rest[i].snap.stat.value) && Kept(rest[i].after, uuid, rest[i].snap);
          assert writes[i + 1] == rest[i];
        }
      } else {
        assert writes[0].uuid == uuid;
        NoVersionEverLost(w.after, rest, uuid, w.snap);
      }
    }
  }
}
