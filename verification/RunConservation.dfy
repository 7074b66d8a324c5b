/**
 * What a whole archive run keeps, over and above what each of its writes keeps:
 * a run also writes summaries and markers into the folder it landed, so versions
 * are kept up to those.
 */
module RunConservation {
  import opened Wrappers
  import opened SnapshotIdentity
  import opened SessionsDir
  import opened ArchiveStore

  /** A snapshot without what a run adds to a landed folder. */
  function Core(v: Snap): Snap {
    v.(summary := None, okMarker := false, skipMarker := false)
  }

  /** Stored, as far as the core goes. */
  ghost predicate CoreKept(d: Dir, uuid: string, v: Snap) {
    exists w :: Kept(d, uuid, w) && Core(w) == Core(v)
  }

  /** A snapshot of this content is stored, read with this very stat. */
  ghost predicate Written(d: Dir, uuid: string, live: Stat) {
    exists w :: Kept(d, uuid, w) && w.stat == Some(live)
  }

  /**
   * What every run keeps, whatever failed: each version up to summary and
   * markers, unless it has the live transcript's content and a snapshot of that
   * is stored; nothing is invented; no other session changes.
   */
  ghost predicate SafeRun(d0: Dir, d1: Dir, uuid: string, live: Stat) {
    && (forall v :: Kept(d0, uuid, v) ==> CoreKept(d1, uuid, v) || (!Changed(v, live) && Written(d1, uuid, live)))
    && (forall v :: Kept(d1, uuid, v) ==> CoreKept(d0, uuid, v) || v.stat == Some(live))
    && Foreign(d0, uuid) == Foreign(d1, uuid)
    && (HasArchive(d0, uuid) ==> HasArchive(d1, uuid))
    && (WellNamed(d0) ==> WellNamed(d1))
  }

  lemma KeptIsCoreKept(d: Dir, uuid: string, v: Snap)
    requires Kept(d, uuid, v)
    ensures CoreKept(d, uuid, v)
  {}

  lemma SafeRunReflexive(d: Dir, uuid: string, live: Stat)
    ensures SafeRun(d, d, uuid, live)
  {
    forall v | Kept(d, uuid, v) ensures CoreKept(d, uuid, v) {
      KeptIsCoreKept(d, uuid, v);
    }
  }

  /** A version kept up to its core, through one step more. */
  lemma CoreKeptOn(d0: Dir, d1: Dir, uuid: string, live: Stat, v: Snap)
    requires SafeRun(d0, d1, uuid, live) && CoreKept(d0, uuid, v)
    ensures CoreKept(d1, uuid, v) || (!Changed(v, live) && Written(d1, uuid, live))
  {
    hide Kept;
    var w :| Kept(d0, uuid, w) && Core(w) == Core(v);
    assert w.stat == v.stat;
  }

  lemma WrittenOn(d0: Dir, d1: Dir, uuid: string, live: Stat)
    requires SafeRun(d0, d1, uuid, live) && Written(d0, uuid, live)
    ensures Written(d1, uuid, live)
  {
    hide Kept;
    var w :| Kept(d0, uuid, w) && w.stat == Some(live);
    if CoreKept(d1, uuid, w) {
      var x :| Kept(d1, uuid, x) && Core(x) == Core(w);
      assert x.stat == w.stat;
    }
  }

  lemma SafeRunTransitive(a: Dir, b: Dir, c: Dir, uuid: string, live: Stat)
    requires SafeRun(a, b, uuid, live) && SafeRun(b, c, uuid, live)
    ensures SafeRun(a, c, uuid, live)
  {
    forall v | Kept(a, uuid, v) ensures CoreKept(c, uuid, v) || (!Changed(v, live) && Written(c, uuid, live)) {
      if CoreKept(b, uuid, v) {
        CoreKeptOn(b, c, uuid, live, v);
      } else {
        WrittenOn(b, c, uuid, live);
      }
    }
    forall v | Kept(c, uuid, v) && v.stat != Some(live) ensures CoreKept(a, uuid, v) {
      CoreKeptBack(a, b, c, uuid, live, v);
    }
    hide Kept, CoreKept, Written, Changed, Foreign, WellNamed, HasArchive;
  }

  lemma CoreKeptBack(a: Dir, b: Dir, c: Dir, uuid: string, live: Stat, v: Snap)
    requires SafeRun(a, b, uuid, live) && SafeRun(b, c, uuid, live) && Kept(c, uuid, v) && v.stat != Some(live)
    ensures CoreKept(a, uuid, v)
  {
    hide Kept;
    var w :| Kept(b, uuid, w) && Core(w) == Core(v);
    assert w.stat == v.stat;
    var x :| Kept(a, uuid, x) && Core(x) == Core(w);
  }

  /** A write keeps what a run keeps. */
  lemma SafeWriteIsSafeRun(d0: Dir, d1: Dir, uuid: string, snap: Snap)
    requires SafeWrite(d0, d1, uuid, snap) && snap.stat.Some?
    ensures SafeRun(d0, d1, uuid, snap.stat.value)
  {
    hide Kept, Changed, Foreign, WellNamed, HasArchive;
    forall v | Kept(d0, uuid, v) ensures CoreKept(d1, uuid, v) || (!Changed(v, snap.stat.value) && Written(d1, uuid, snap.stat.value)) {
      if Kept(d1, uuid, v) {
        KeptIsCoreKept(d1, uuid, v);
      }
    }
    forall v | Kept(d1, uuid, v) && v != snap ensures CoreKept(d0, uuid, v) {
      KeptIsCoreKept(d0, uuid, v);
    }
  }

  /** So does writing a summary or a marker into a folder of the session. */
  lemma AddingIsSafeRun(d: Dir, n: Name, uuid: string, s: Snap, live: Stat)
    requires IsArchive(d, n, uuid) && Core(s) == Core(d[n].snap)
    ensures SafeRun(d, d[n := d[n].(snap := s)], uuid, live)
  {
    var e := d[n := d[n].(snap := s)];
    assert s.uuid == d[n].snap.uuid;
    forall v | Kept(d, uuid, v) ensures CoreKept(e, uuid, v) {
      var m :| IsArchive(d, m, uuid) && Holds(d[m], v);
      var w := if m == n && v == d[n].snap then s else v;
      assert IsArchive(e, m, uuid) && Holds(e[m], w);
      assert Kept(e, uuid, w);
    }
    forall v | Kept(e, uuid, v) ensures CoreKept(d, uuid, v) {
      var m :| IsArchive(e, m, uuid) && Holds(e[m], v);
      var w := if m == n && v == s then d[n].snap else v;
      assert IsArchive(d, m, uuid) && Holds(d[m], w);
      assert Kept(d, uuid, w);
    }
    assert Foreign(d, uuid) == Foreign(e, uuid);
    assert IsArchive(e, n, uuid);
  }

  // ---------------------------------------------------------------- over any number of runs

  /** One run in a history of runs: whose, of which transcript, and the directory it left. */
  datatype Ran = Ran(uuid: string, live: Stat, after: Dir)

  ghost predicate RunHistory(d0: Dir, runs: seq<Ran>)
    decreases |runs|
  {
    runs == [] || (SafeRun(d0, runs[0].after, runs[0].uuid, runs[0].live) && RunHistory(runs[0].after, runs[1..]))
  }

  function DirAfter(d0: Dir, runs: seq<Ran>): Dir {
    if runs == [] then d0 else runs[|runs| - 1].after
  }

  /** A run of the session stored a snapshot of the same content. */
  ghost predicate Overtaken(runs: seq<Ran>, uuid: string, v: Snap) {
    exists i :: 0 <= i < |runs| && runs[i].uuid == uuid && !Changed(v, runs[i].live) && Written(runs[i].after, uuid, runs[i].live)
  }

  /** Runs of other sessions do not touch it. */
  lemma OthersKept(d0: Dir, d1: Dir, uuid: string, live: Stat, other: string, v: Snap)
    requires SafeRun(d0, d1, uuid, live) && other != uuid && Kept(d0, other, v)
    ensures Kept(d1, other, v)
  {
    var n :| IsArchive(d0, n, other) && Holds(d0[n], v);
    assert n in Foreign(d0, uuid) && Foreign(d0, uuid)[n] == d0[n];
    assert n in Foreign(d1, uuid) && Foreign(d1, uuid)[n] == d1[n];
    assert IsArchive(d1, n, other) && Holds(d1[n], v);
  }

  lemma OneRunOn(d0: Dir, r: Ran, uuid: string, v: Snap)
    requires SafeRun(d0, r.after, r.uuid, r.live) && CoreKept(d0, uuid, v)
    ensures CoreKept(r.after, uuid, v) || (r.uuid == uuid && !Changed(v, r.live) && Written(r.after, uuid, r.live))
  {
    if r.uuid == uuid {
      CoreKeptOn(d0, r.after, uuid, r.live, v);
    } else {
      var w :| Kept(d0, uuid, w) && Core(w) == Core(v);
      OthersKept(d0, r.after, r.uuid, r.live, uuid, w);
    }
  }

  /**
   * Over any sequence of runs of any sessions, failed and crashed ones included:
   * every version is still stored, up to summary and markers, or a run of its
   * session stored a snapshot of the same content.
   */
  lemma {:induction false} NoVersionLostOverRuns(d0: Dir, runs: seq<Ran>, uuid: string, v: Snap)
    requires RunHistory(d0, runs) && CoreKept(d0, uuid, v)
    ensures CoreKept(DirAfter(d0, runs), uuid, v) || Overtaken(runs, uuid, v)
    decreases |runs|
  {
    hide SafeRun, CoreKept, Written, Changed;
    if runs != [] {
      var r, rest := runs[0], runs[1..];
      assert DirAfter(d0, runs) == DirAfter(r.after, rest);
      OneRunOn(d0, r, uuid, v);
      if CoreKept(r.after, uuid, v) {
        NoVersionLostOverRuns(r.after, rest, uuid, v);
        if Overtaken(rest, uuid, v) {
          var i :| 0 <= i < |rest| && rest[i].uuid == uuid && !Changed(v, rest[i].live) && Written(rest[i].after, uuid, rest[i].live);
          assert runs[i + 1] == rest[i];
        }
      }
    }
  }

  /** An archived session stays archived, and folders stay named after their sessions. */
  lemma {:induction false} ArchivedOverRuns(d0: Dir, runs: seq<Ran>, uuid: string)
    requires RunHistory(d0, runs)
    ensures HasArchive(d0, uuid) ==> HasArchive(DirAfter(d0, runs), uuid)
    ensures WellNamed(d0) ==> WellNamed(DirAfter(d0, runs))
    decreases |runs|
  {
    if runs != [] {
      var r := runs[0];
      if HasArchive(d0, uuid) && r.uuid != uuid {
        var n :| IsArchive(d0, n, uuid);
        assert Holds(d0[n], d0[n].snap);
        OthersKept(d0, r.after, r.uuid, r.live, uuid, d0[n].snap);
        var m :| IsArchive(r.after, m, uuid) && Holds(r.after[m], d0[n].snap);
      }
      assert DirAfter(d0, runs) == DirAfter(r.after, runs[1..]);
      hide WellNamed, Kept, CoreKept, Written;
      ArchivedOverRuns(r.after, runs[1..], uuid);
    }
  }
}
