/**
 * The `sessions/` directory of one archived project as the archive writer uses
 * it: named folders, each a snapshot with its own `history/`, and the file-system
 * calls it makes, any of which may fail and after any of which the process may
 * die. A rename onto an existing (non-empty) folder fails, as POSIX has it.
 *
 * A crash is an outcome of a call: that call and every later one fail and change
 * nothing, so the directory stays what it was when the process died.
 */
module SessionsDir {
  import opened Wrappers
  import opened SnapshotIdentity

  /** What a snapshot folder holds besides its history. `id` tells copies apart. */
  datatype Snap = Snap(
    id: nat,
    uuid: Option<string>,       // of a readable meta.json
    title: string,
    kind: Option<string>,
    stat: Option<Stat>,         // None: the stored transcript is unreadable
    stamp: Option<nat>,         // archived_at, else the transcript's mtime
    summary: Option<string>,    // summary.md
    okMarker: bool,             // .extraction-ok
    skipMarker: bool            // .extraction-skipped
  )

  datatype HName = V(ts: nat, i: nat) | Suffixed(base: HName, seqNo: nat)

  type History = map<HName, Snap>

  datatype Folder = Folder(snap: Snap, history: Option<History>)

  datatype Name =
    | Visible(text: string)
    | Old(short: string, pid: nat, seqNo: nat, i: nat)
    | Tmp(short: string, pid: nat, seqNo: nat)

  type Dir = map<Name, Folder>

  function Uuid8(uuid: string): string {
    if |uuid| <= 8 then uuid else uuid[..8]
  }

  predicate EndsWith(s: string, suffix: string) {
    |suffix| <= |s| && s[|s| - |suffix|..] == suffix
  }

  // ---------------------------------------------------------------- meaning

  predicate IsArchive(d: Dir, n: Name, uuid: string) {
    n in d && !n.Tmp? && d[n].snap.uuid == Some(uuid)
  }

  function HistValues(f: Folder): set<Snap> {
    if f.history.None? then {} else set h | h in f.history.value :: f.history.value[h]
  }

  predicate Holds(f: Folder, v: Snap) {
    f.snap == v || v in HistValues(f)
  }

  /** v is stored under the session: as a folder of its own, visible or set aside, or as a history entry. */
  ghost predicate Kept(d: Dir, uuid: string, v: Snap) {
    exists n :: IsArchive(d, n, uuid) && Holds(d[n], v)
  }

  /** v is stored at this place: as the folder itself, or as the named entry of its history. */
  predicate StoredAt(d: Dir, uuid: string, n: Name, h: Option<HName>, v: Snap) {
    && IsArchive(d, n, uuid)
    && (if h.None? then d[n].snap == v
        else d[n].history.Some? && h.value in d[n].history.value && d[n].history.value[h.value] == v)
  }

  /** No snapshot of the session is stored twice. */
  ghost predicate StoredOnce(d: Dir, uuid: string) {
    forall v, n, h, n', h' :: StoredAt(d, uuid, n, h, v) && StoredAt(d, uuid, n', h', v) ==> n == n' && h == h'
  }

  ghost predicate HasArchive(d: Dir, uuid: string) {
    exists n :: IsArchive(d, n, uuid)
  }

  /** Everything in the directory that is not an archive of the session, work folders aside. */
  function Foreign(d: Dir, uuid: string): Dir {
    map n | n in d && !n.Tmp? && !IsArchive(d, n, uuid) :: d[n]
  }

  /** Visible folders are named after their session. */
  predicate WellNamed(d: Dir) {
    forall n :: n in d && n.Visible? && d[n].snap.uuid.Some? ==> EndsWith(n.text, "-" + Uuid8(d[n].snap.uuid.value))
  }

  /** The process-unique names this process will generate are not in use yet. */
  ghost predicate FreshNames(d: Dir, pid: nat, counter: nat) {
    forall n :: n in d && !n.Visible? && n.pid == pid ==> n.seqNo < counter
  }

  /** Nor are the suffixes it will give to versions. */
  ghost predicate FreshVersions(d: Dir, counter: nat) {
    forall n, h :: n in d && d[n].history.Some? && h in d[n].history.value && h.Suffixed? ==> h.seqNo < counter
  }

  /** No number the process has yet to give out is in use. */
  ghost predicate NumberedBelow(d: Dir, pid: nat, counter: nat) {
    FreshNames(d, pid, counter) && FreshVersions(d, counter)
  }

  // ---------------------------------------------------------------- reading directories

  /** q names everything in s, once. */
  predicate Lists<T(==)>(q: seq<T>, s: set<T>) {
    && (forall x :: x in s ==> x in q) && (forall i :: 0 <= i < |q| ==> q[i] in s)
    && forall i, j :: 0 <= i < j < |q| ==> q[i] != q[j]
  }

  ghost function SomeOrder<T>(s: set<T>): (q: seq<T>)
    ensures Lists(q, s)
  {
    if s == {} then []
    else
      var x :| x in s;
      [x] + SomeOrder(s - {x})
  }

  /** The order in which the directory is read: any, and possibly another one each time. */
  type NameOrder = f: (nat, set<Name>) -> seq<Name> | forall at, s :: Lists(f(at, s), s)
    ghost witness (at: nat, s: set<Name>) => SomeOrder(s)

  /** The order in which a folder's history is read. */
  type EntryOrder = f: (Name, set<HName>) -> seq<HName> | forall n, s :: Lists(f(n, s), s)
    ghost witness (n: Name, s: set<HName>) => SomeOrder(s)

  // ---------------------------------------------------------------- the calls

  function RenameDir(d: Dir, a: Name, b: Name): Dir
    requires a in d
  {
    (d - {a})[b := d[a]]
  }

  datatype Outcome = Works | Fails | Crashes

  class SessionsDir {
    var dir: Dir
    var counter: nat            // process-unique suffixes
    const pid: nat
    const names: NameOrder
    const entries: EntryOrder
    var outcomes: seq<Outcome>  // of the calls to come; beyond them every call works
    var down: bool              // the process died

    /** A process that has just started counts from zero. */
    constructor (dir: Dir, pid: nat, names: NameOrder, entries: EntryOrder, outcomes: seq<Outcome>)
      ensures this.dir == dir && this.pid == pid && this.names == names && this.entries == entries
      ensures this.outcomes == outcomes && !down && counter == 0
    {
      this.dir, this.pid, this.names, this.entries, this.outcomes := dir, pid, names, entries, outcomes;
      down, counter := false, 0;
    }

    ghost predicate Numbered()
      reads this
    {
      NumberedBelow(dir, pid, counter)
    }

    /** No call will fail from here on. */
    predicate Clean()
      reads this
    {
      outcomes == [] && !down
    }

    /** Whatever else fails, the process does not die. */
    predicate Alive()
      reads this
    {
      !down && Crashes !in outcomes
    }

    /** The call to come fails. */
    predicate NextFails()
      reads this
    {
      down || (outcomes != [] && !outcomes[0].Works?)
    }

    /** No call ahead fails. */
    predicate Working()
      reads this
    {
      !down && forall i :: 0 <= i < |outcomes| ==> outcomes[i].Works?
    }

    /** At most one call ahead fails, and the process does not die. */
    predicate OneFailureAtMost()
      reads this
    {
      Alive() && forall i, j :: 0 <= i < j < |outcomes| ==> outcomes[i].Works? || outcomes[j].Works?
    }

    /** The next call's outcome. */
    method Attempt() returns (works: bool)
      modifies this`outcomes, this`down
      ensures old(Clean()) ==> works && Clean()
      ensures old(down) ==> !works && down
      ensures works ==> old(outcomes) == [] || old(outcomes)[0].Works?
      ensures old(Alive()) ==> Alive()
      ensures works <==> !old(NextFails())
      ensures works ==> !down && outcomes == if old(outcomes) == [] then [] else old(outcomes)[1..]
      ensures old(Working()) ==> works && Working()
      ensures old(OneFailureAtMost()) ==> if works then OneFailureAtMost() else Working()
    {
      if down {
        return false;
      }
      if outcomes == [] {
        return true;
      }
      works := outcomes[0].Works?;
      down := outcomes[0].Crashes?;
      outcomes := outcomes[1..];
    }

    method NextSeq() returns (n: nat)
      modifies this`counter
      ensures n == old(counter) && counter == n + 1
    {
      n := counter;
      counter := counter + 1;
    }

    /** `fs::rename` of a folder. */
    method Rename(a: Name, b: Name) returns (ok: bool)
      modifies this`dir, this`outcomes, this`down
      ensures old(Alive()) ==> Alive()
      ensures ok ==> a in old(dir) && b !in old(dir) && dir == RenameDir(old(dir), a, b)
      ensures !ok ==> dir == old(dir)
      ensures old(Clean()) ==> Clean() && (ok <==> a in old(dir) && b !in old(dir))
    {
      ok := Attempt();
      if ok && a in dir && b !in dir {
        dir := RenameDir(dir, a, b);
      } else {
        ok := false;
      }
    }

    /** Build a folder off to the side: create it and write its files. A failure may leave it behind unfinished. */
    method BuildTmp(tmp: Name, snap: Snap) returns (ok: bool)
      requires tmp.Tmp?
      modifies this`dir, this`outcomes, this`down
      ensures old(Alive()) ==> Alive()
      ensures ok ==> dir == old(dir)[tmp := Folder(snap, None)]
      ensures !ok ==> dir == old(dir) || dir == old(dir)[tmp := Folder(snap.(uuid := None, stat := None), None)]
      ensures old(OneFailureAtMost()) && !ok ==> Working()
      ensures old(Clean()) ==> Clean() && ok
    {
      ok := Attempt();
      if ok {
        dir := dir[tmp := Folder(snap.(uuid := None, stat := None), None)];
        ok := Attempt();
        if ok {
          dir := dir[tmp := Folder(snap, None)];
        }
      }
    }

    /** `fs::remove_dir_all`. */
    method RemoveAll(n: Name) returns (ok: bool)
      modifies this`dir, this`outcomes, this`down
      ensures old(Alive()) ==> Alive()
      ensures dir == if ok then old(dir) - {n} else old(dir)
      ensures old(Working()) ==> ok
      ensures old(Clean()) ==> Clean() && ok
    {
      ok := Attempt();
      if ok {
        dir := dir - {n};
      }
    }

    /** `fs::create_dir_all(<n>/history)`. */
    method MakeHistory(n: Name)
      requires n in dir
      modifies this`dir, this`outcomes, this`down
      ensures old(Alive()) ==> Alive()
      ensures dir == old(dir) || (old(dir)[n].history.None? && dir == old(dir)[n := old(dir)[n].(history := Some(map[]))])
      ensures old(Clean()) ==> Clean() && dir[n].history.Some?
    {
      var ok := Attempt();
      if ok && dir[n].history.None? {
        dir := dir[n := dir[n].(history := Some(map[]))];
      }
    }

    /** `fs::rename(<from>/history/<h>, <to>/history/<dest>)`. */
    method MoveEntry(from: Name, h: HName, to: Name, dest: HName) returns (ok: bool)
      requires from in dir && to in dir && from != to
      requires dir[from].history.Some? && h in dir[from].history.value
      modifies this`dir, this`outcomes, this`down
      ensures old(Alive()) ==> Alive()
      ensures !ok ==> dir == old(dir)
      ensures ok ==> old(dir)[to].history.Some? && dest !in old(dir)[to].history.value
                     && dir == MovedEntry(old(dir), from, h, to, dest)
      ensures old(Clean()) ==> Clean() && (ok <==> old(dir)[to].history.Some? && dest !in old(dir)[to].history.value)
    {
      ok := Attempt();
      if ok && dir[to].history.Some? && dest !in dir[to].history.value {
        dir := MovedEntry(dir, from, h, to, dest);
      } else {
        ok := false;
      }
    }

    /** `fs::remove_dir(<n>/history)`: removes it only when it is empty. */
    method RemoveEmptyHistory(n: Name)
      requires n in dir
      modifies this`dir, this`outcomes, this`down
      ensures old(Alive()) ==> Alive()
      ensures dir == old(dir) || (old(dir)[n].history == Some(map[]) && dir == old(dir)[n := old(dir)[n].(history := None)])
      ensures old(Clean()) ==> Clean() && (old(dir)[n].history == Some(map[]) ==> dir[n].history.None?)
    {
      var ok := Attempt();
      if ok && dir[n].history == Some(map[]) {
        dir := dir[n := dir[n].(history := None)];
      }
    }

    /** `fs::rename(<from>, <to>/history/<dest>)`: a whole folder becomes a version. */
    method BecomeVersion(from: Name, to: Name, dest: HName) returns (ok: bool)
      requires from in dir && to in dir && from != to && dir[from].history.None?
      modifies this`dir, this`outcomes, this`down
      ensures old(Alive()) ==> Alive()
      ensures !ok ==> dir == old(dir)
      ensures ok ==> old(dir)[to].history.Some? && dest !in old(dir)[to].history.value
                     && dir == Versioned(old(dir), from, to, dest)
      ensures old(Clean()) ==> Clean() && (ok <==> old(dir)[to].history.Some? && dest !in old(dir)[to].history.value)
    {
      ok := Attempt();
      if ok && dir[to].history.Some? && dest !in dir[to].history.value {
        dir := Versioned(dir, from, to, dest);
      } else {
        ok := false;
      }
    }
  }

  function MovedEntry(d: Dir, from: Name, h: HName, to: Name, dest: HName): Dir
    requires from in d && to in d && d[from].history.Some? && d[to].history.Some? && h in d[from].history.value
  {
    var v := d[from].history.value[h];
    d[from := d[from].(history := Some(d[from].history.value - {h}))]
     [to := d[to].(history := Some(d[to].history.value[dest := v]))]
  }

  function Versioned(d: Dir, from: Name, to: Name, dest: HName): Dir
    requires from in d && to in d && d[to].history.Some?
  {
    (d - {from})[to := d[to].(history := Some(d[to].history.value[dest := d[from].snap]))]
  }

  // ---------------------------------------------------------------- numbers in use

  lemma NumberedLater(d: Dir, pid: nat, counter: nat, later: nat)
    requires NumberedBelow(d, pid, counter) && counter <= later
    ensures NumberedBelow(d, pid, later)
  {}

  lemma NumberedRename(d: Dir, a: Name, b: Name, pid: nat, counter: nat)
    requires NumberedBelow(d, pid, counter) && a in d && (!b.Visible? && b.pid == pid ==> b.seqNo < counter)
    ensures NumberedBelow(RenameDir(d, a, b), pid, counter)
  {}

  lemma NumberedWork(d: Dir, tmp: Name, snap: Snap, pid: nat, counter: nat)
    requires NumberedBelow(d, pid, counter) && tmp.Tmp? && tmp.pid == pid && tmp.seqNo < counter
    ensures NumberedBelow(d[tmp := Folder(snap, None)], pid, counter)
  {}

  lemma NumberedRemove(d: Dir, n: Name, pid: nat, counter: nat)
    requires NumberedBelow(d, pid, counter)
    ensures NumberedBelow(d - {n}, pid, counter)
  {}

  lemma NumberedHistory(d: Dir, n: Name, hist: Option<History>, pid: nat, counter: nat)
    requires NumberedBelow(d, pid, counter) && n in d && (hist.Some? ==> hist.value == map[])
    ensures NumberedBelow(d[n := d[n].(history := hist)], pid, counter)
  {}

  lemma NumberedMove(d: Dir, from: Name, h: HName, to: Name, dest: HName, pid: nat, counter: nat)
    requires from in d && to in d && from != to && d[from].history.Some? && d[to].history.Some? && h in d[from].history.value
    requires NumberedBelow(d, pid, counter) && (dest == h || (dest.Suffixed? && dest.seqNo < counter))
    ensures NumberedBelow(MovedEntry(d, from, h, to, dest), pid, counter)
  {
    var e := MovedEntry(d, from, h, to, dest);
    assert e.Keys == d.Keys;
    forall n, k | n in e && e[n].history.Some? && k in e[n].history.value && k.Suffixed? ensures k.seqNo < counter {
      if n == to && k == dest {
        assert dest == h ==> h in d[from].history.value;
      } else {
        assert k in d[n].history.value;
      }
    }
  }

  lemma NumberedVersion(d: Dir, from: Name, to: Name, dest: HName, pid: nat, counter: nat)
    requires from in d && to in d && from != to && d[to].history.Some?
    requires NumberedBelow(d, pid, counter) && (dest.Suffixed? ==> dest.seqNo < counter)
    ensures NumberedBelow(Versioned(d, from, to, dest), pid, counter)
  {
    var e := Versioned(d, from, to, dest);
    forall n, k | n in e && e[n].history.Some? && k in e[n].history.value && k.Suffixed? ensures k.seqNo < counter {
      assert k == dest || k in d[n].history.value;
    }
  }

  // ---------------------------------------------------------------- what each call keeps

  /** Nothing moved between sessions, and the session's own snapshots are the same ones. */
  ghost predicate SameKept(d0: Dir, d1: Dir, uuid: string) {
    && Foreign(d0, uuid) == Foreign(d1, uuid)
    && (forall v :: Kept(d0, uuid, v) <==> Kept(d1, uuid, v))
    && (StoredOnce(d0, uuid) ==> StoredOnce(d1, uuid))
  }

  lemma RenameKeeps(d: Dir, a: Name, b: Name, uuid: string)
    requires IsArchive(d, a, uuid) && b !in d && !b.Tmp?
    ensures SameKept(d, RenameDir(d, a, b), uuid)
    ensures IsArchive(RenameDir(d, a, b), b, uuid)
    ensures WellNamed(d) && (b.Visible? ==> EndsWith(b.text, "-" + Uuid8(uuid))) ==> WellNamed(RenameDir(d, a, b))
  {
    var e := RenameDir(d, a, b);
    forall v | Kept(d, uuid, v) ensures Kept(e, uuid, v) {
      var n :| IsArchive(d, n, uuid) && Holds(d[n], v);
      var m := if n == a then b else n;
      assert IsArchive(e, m, uuid) && Holds(e[m], v);
    }
    forall v | Kept(e, uuid, v) ensures Kept(d, uuid, v) {
      var n :| IsArchive(e, n, uuid) && Holds(e[n], v);
      var m := if n == b then a else n;
      assert IsArchive(d, m, uuid) && Holds(d[m], v);
    }
    assert forall v, n, h :: StoredAt(e, uuid, n, h, v) ==> StoredAt(d, uuid, if n == b then a else n, h, v);
  }

  /** Work folders are nobody's archive. */
  lemma TmpIsInvisible(d: Dir, e: Dir, tmp: Name, uuid: string)
    requires tmp.Tmp? && d - {tmp} == e - {tmp}
    ensures SameKept(d, e, uuid)
    ensures WellNamed(d) <==> WellNamed(e)
    ensures forall n :: IsArchive(d, n, uuid) <==> IsArchive(e, n, uuid)
  {
    assert forall n :: n != tmp ==> (n in d <==> n in d - {tmp}) && (n in e <==> n in e - {tmp});
    assert forall n :: n != tmp && n in d ==> d[n] == (d - {tmp})[n];
    assert forall n :: n != tmp && n in e ==> e[n] == (e - {tmp})[n];
    assert forall v, n :: IsArchive(d, n, uuid) && Holds(d[n], v) <==> IsArchive(e, n, uuid) && Holds(e[n], v);
    assert forall v, n, h :: StoredAt(e, uuid, n, h, v) ==> StoredAt(d, uuid, n, h, v);
  }

  lemma HistInsert(f: Folder, h: HName, v: Snap)
    requires f.history.Some? && h !in f.history.value
    ensures HistValues(f.(history := Some(f.history.value[h := v]))) == HistValues(f) + {v}
  {
    var m := f.history.value;
    var m' := m[h := v];
    assert forall k :: k in m ==> k in m' && m'[k] == m[k];
    assert m'[h] == v;
  }

  lemma HistRemove(f: Folder, h: HName)
    requires f.history.Some? && h in f.history.value
    ensures HistValues(f) == HistValues(f.(history := Some(f.history.value - {h}))) + {f.history.value[h]}
  {
    var m := f.history.value;
    var m' := m - {h};
    assert forall k :: k in m && k != h ==> k in m' && m'[k] == m[k];
  }

  lemma MoveEntryOnce(d: Dir, from: Name, h: HName, to: Name, dest: HName, uuid: string)
    requires IsArchive(d, from, uuid) && IsArchive(d, to, uuid) && from != to
    requires d[from].history.Some? && d[to].history.Some? && h in d[from].history.value && dest !in d[to].history.value
    ensures StoredOnce(d, uuid) ==> StoredOnce(MovedEntry(d, from, h, to, dest), uuid)
  {
    var e := MovedEntry(d, from, h, to, dest);
    assert forall v, n, k :: StoredAt(e, uuid, n, k, v) ==>
      if n == to && k == Some(dest) then StoredAt(d, uuid, from, Some(h), v)
      else StoredAt(d, uuid, n, k, v) && !(n == from && k == Some(h));
  }

  lemma MoveEntryKeeps(d: Dir, from: Name, h: HName, to: Name, dest: HName, uuid: string)
    requires IsArchive(d, from, uuid) && IsArchive(d, to, uuid) && from != to
    requires d[from].history.Some? && d[to].history.Some? && h in d[from].history.value && dest !in d[to].history.value
    ensures var e := MovedEntry(d, from, h, to, dest);
            && SameKept(d, e, uuid) && e.Keys == d.Keys && (WellNamed(d) ==> WellNamed(e))
            && HistValues(e[from]) + HistValues(e[to]) == HistValues(d[from]) + HistValues(d[to])
  {
    var e := MovedEntry(d, from, h, to, dest);
    HistInsert(d[to], dest, d[from].history.value[h]);
    HistRemove(d[from], h);
    assert HistValues(e[from]) + HistValues(e[to]) == HistValues(d[from]) + HistValues(d[to]);
    assert forall n :: n in d && n != from && n != to ==> e[n] == d[n];
    assert e[from].snap == d[from].snap && e[to].snap == d[to].snap;
    forall v | Kept(d, uuid, v) ensures Kept(e, uuid, v) {
      var n :| IsArchive(d, n, uuid) && Holds(d[n], v);
      var m := if Holds(e[n], v) then n else to;
      assert IsArchive(e, m, uuid) && Holds(e[m], v);
    }
    forall v | Kept(e, uuid, v) ensures Kept(d, uuid, v) {
      var n :| IsArchive(e, n, uuid) && Holds(e[n], v);
      var m := if Holds(d[n], v) then n else from;
      assert IsArchive(d, m, uuid) && Holds(d[m], v);
    }
    MoveEntryOnce(d, from, h, to, dest, uuid);
  }

  /** Creating or removing an empty history directory changes no snapshot. */
  lemma EmptyHistoryKeeps(d: Dir, n: Name, hist: Option<History>, uuid: string)
    requires IsArchive(d, n, uuid) && HistValues(d[n]) == {} && (hist.Some? ==> hist.value == map[])
    ensures var e := d[n := d[n].(history := hist)];
            SameKept(d, e, uuid) && e.Keys == d.Keys && (WellNamed(d) ==> WellNamed(e))
  {
    var e := d[n := d[n].(history := hist)];
    assert forall m, v :: IsArchive(d, m, uuid) && Holds(d[m], v) <==> IsArchive(e, m, uuid) && Holds(e[m], v);
    assert HistValues(e[n]) == {};
    assert forall v, m, h :: StoredAt(e, uuid, m, h, v) ==> StoredAt(d, uuid, m, h, v);
  }

  lemma BecomeVersionKeeps(d: Dir, from: Name, to: Name, dest: HName, uuid: string)
    requires IsArchive(d, from, uuid) && IsArchive(d, to, uuid) && from != to
    requires d[from].history.None? && d[to].history.Some? && dest !in d[to].history.value
    ensures var e := Versioned(d, from, to, dest);
            && SameKept(d, e, uuid) && e.Keys == d.Keys - {from} && (WellNamed(d) ==> WellNamed(e))
            && HistValues(e[to]) == HistValues(d[to]) + {d[from].snap}
  {
    var e := Versioned(d, from, to, dest);
    HistInsert(d[to], dest, d[from].snap);
    forall v | Kept(d, uuid, v) ensures Kept(e, uuid, v) {
      var n :| IsArchive(d, n, uuid) && Holds(d[n], v);
      var m := if n == from then to else n;
      assert IsArchive(e, m, uuid) && Holds(e[m], v);
    }
    forall v | Kept(e, uuid, v) ensures Kept(d, uuid, v) {
      var n :| IsArchive(e, n, uuid) && Holds(e[n], v);
      var m := if Holds(d[n], v) then n else from;
      assert IsArchive(d, m, uuid) && Holds(d[m], v);
    }
    assert forall v, n, h :: StoredAt(e, uuid, n, h, v) ==>
      if n == to && h == Some(dest) then StoredAt(d, uuid, from, None, v) else StoredAt(d, uuid, n, h, v) && n != from;
  }

  /** Removing a folder that has no history loses its own snapshot and nothing else. */
  lemma RemoveLosesOne(d: Dir, n: Name, uuid: string)
    requires IsArchive(d, n, uuid) && d[n].history.None?
    ensures var e := d - {n};
            && Foreign(d, uuid) == Foreign(e, uuid) && (WellNamed(d) ==> WellNamed(e))
            && (forall v :: Kept(e, uuid, v) ==> Kept(d, uuid, v))
            && (forall v :: Kept(d, uuid, v) && v != d[n].snap ==> Kept(e, uuid, v))
            && (StoredOnce(d, uuid) ==> StoredOnce(e, uuid))
  {
    var e := d - {n};
    assert forall v, m, h :: StoredAt(e, uuid, m, h, v) ==> StoredAt(d, uuid, m, h, v);
    forall v | Kept(d, uuid, v) && v != d[n].snap ensures Kept(e, uuid, v) {
      var m :| IsArchive(d, m, uuid) && Holds(d[m], v);
      assert IsArchive(e, m, uuid) && Holds(e[m], v);
    }
    forall v | Kept(e, uuid, v) ensures Kept(d, uuid, v) {
      var m :| IsArchive(e, m, uuid) && Holds(e[m], v);
      assert IsArchive(d, m, uuid) && Holds(d[m], v);
    }
  }

  lemma SameKeptTransitive(a: Dir, b: Dir, c: Dir, uuid: string)
    requires SameKept(a, b, uuid) && SameKept(b, c, uuid)
    ensures SameKept(a, c, uuid)
  {}
}
