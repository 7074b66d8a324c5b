/**
 * Self-healing: what any number of failing writes leaves behind, the next write
 * with nothing failing gathers into one folder, exactly if every version finds a
 * name there. In the process that made the mess it always does; a process that
 * starts afresh counts from zero again, and then the directory decides.
 */
module ArchiveHealing {
  import opened Wrappers
  import opened SnapshotIdentity
  import opened SessionsDir
  import opened VersionNames
  import opened ArchiveStore

  // ---------------------------------------------------------------- when there is room for every version

  /** A version name brought by a write comes from a history or is made from a time and a position. */
  ghost predicate Origin(d: Dir, previous: seq<Name>, x: HName) {
    || (x.V? && x.i < |previous| && previous[x.i] in d && x.ts == d[previous[x.i]].snap.stamp.GetOr(0))
    || exists n :: n in previous && n in d && d[n].history.Some? && x in d[n].history.value
  }

  lemma OriginOfOne(d: Dir, stat: Stat, entries: EntryOrder, previous: seq<Name>, i: nat, aside: Name, x: HName)
    requires i < |previous| && x in PlacedBy(d, stat, entries, previous[i], aside, i)
    ensures Origin(d, previous, x)
  {
    assert previous[i] in previous;
  }

  lemma OriginLater(d: Dir, previous: seq<Name>, k: nat, x: HName)
    requires k <= |previous| && Origin(d, previous[..k], x)
    ensures Origin(d, previous, x)
  {}

  lemma {:induction false} PlacingHasOrigin(d: Dir, uuid: string, stat: Stat, pid: nat, counter: nat, entries: EntryOrder, previous: seq<Name>, k: nat, x: HName)
    requires k <= |previous| && x in Placing(d, uuid, stat, pid, counter, entries, previous[..k])
    ensures Origin(d, previous[..k], x)
    decreases k
  {
    if k > 0 {
      hide PlacedBy, Origin;
      var i := k - 1;
      PlacingOneMore(d, uuid, stat, pid, counter, entries, previous, i);
      assert previous[..k][i] == previous[i] && previous[..k][..i] == previous[..i];
      if x in PlacedBy(d, stat, entries, previous[i], Old(Uuid8(uuid), pid, counter + i, i), i) {
        OriginOfOne(d, stat, entries, previous[..k], i, Old(Uuid8(uuid), pid, counter + i, i), x);
      } else {
        PlacingHasOrigin(d, uuid, stat, pid, counter, entries, previous, i, x);
        OriginLater(d, previous[..k], i, x);
      }
    }
  }

  /** Where no suffix in use has a number still to come, every version finds a name, in whatever order things are read. */
  lemma NumberedIsClear(d: Dir, uuid: string, stat: Stat, pid: nat, counter: nat, names: NameOrder, entries: EntryOrder)
    requires FreshVersions(d, counter)
    ensures Clear(d, uuid, stat, pid, counter, names, entries)
  {
    hide Placing, FoundBy, RoomForAll, Origin, FreshVersions;
    var previous := FoundBy(d, uuid, pid, counter, names);
    var xs := Placing(d, uuid, stat, pid, counter + 1, entries, previous);
    assert previous[..|previous|] == previous;
    forall x | x in xs && x.Suffixed? ensures x.seqNo < counter {
      PlacingHasOrigin(d, uuid, stat, pid, counter + 1, entries, previous, |previous|, x);
      OriginIsFresh(d, previous, counter, x);
    }
    RoomIfFresh(Slots({}, counter + 1 + |previous|), xs);
  }

  lemma OriginIsFresh(d: Dir, previous: seq<Name>, counter: nat, x: HName)
    requires FreshVersions(d, counter) && Origin(d, previous, x) && x.Suffixed?
    ensures x.seqNo < counter
  {}

  /**
   * No two archives of the session share a version name, and none has a version
   * under a name that another, or itself, is about to get. Says nothing of numbers.
   */
  ghost predicate NamesApart(d: Dir, uuid: string) {
    && (forall n, m, h :: IsArchive(d, n, uuid) && IsArchive(d, m, uuid) && n != m && InHistory(d, n, h) ==> !InHistory(d, m, h))
    && (forall n, m, i :: IsArchive(d, n, uuid) && IsArchive(d, m, uuid) ==> !InHistory(d, m, V(d[n].snap.stamp.GetOr(0), i)))
  }

  predicate InHistory(d: Dir, n: Name, h: HName) {
    n in d && d[n].history.Some? && h in d[n].history.value
  }

  lemma OneApart(d: Dir, uuid: string, stat: Stat, entries: EntryOrder, n: Name, aside: Name, i: nat)
    requires NamesApart(d, uuid) && IsArchive(d, n, uuid)
    ensures Distinct(PlacedBy(d, stat, entries, n, aside, i))
  {
    var a, b := HistoryPart(d, entries, n, aside), VersionPart(d, n, stat, i);
    assert Distinct(a) && Distinct(b);
    forall x | x in a ensures x !in b {
      assert InHistory(d, n, x);
    }
    DistinctAppend(a, b);
  }

  lemma PlacedByMeans(d: Dir, stat: Stat, entries: EntryOrder, n: Name, aside: Name, i: nat, x: HName)
    requires n in d
    ensures x in PlacedBy(d, stat, entries, n, aside, i) ==> InHistory(d, n, x) || x == V(d[n].snap.stamp.GetOr(0), i)
  {}

  lemma ApartFromEarlier(d: Dir, uuid: string, stat: Stat, entries: EntryOrder, previous: seq<Name>, i: nat, aside: Name, x: HName)
    requires NamesApart(d, uuid) && Previous(d, uuid, previous) && i < |previous|
    requires Origin(d, previous[..i], x)
    ensures x !in PlacedBy(d, stat, entries, previous[i], aside, i)
  {
    var n := previous[i];
    hide PlacedBy;
    PlacedByMeans(d, stat, entries, n, aside, i, x);
    assert IsArchive(d, n, uuid);
    if m :| m in previous[..i] && m in d && d[m].history.Some? && x in d[m].history.value {
      assert IsArchive(d, m, uuid) && m != n && InHistory(d, m, x);
      assert !InHistory(d, m, V(d[n].snap.stamp.GetOr(0), i));
    } else {
      assert IsArchive(d, previous[x.i], uuid);
      assert !InHistory(d, n, V(d[previous[x.i]].snap.stamp.GetOr(0), x.i));
    }
  }

  lemma DistinctAppend(a: seq<HName>, b: seq<HName>)
    requires Distinct(a) && Distinct(b) && forall x :: x in a ==> x !in b
    ensures Distinct(a + b)
  {
    forall i, j | 0 <= i < j < |a + b| ensures (a + b)[i] != (a + b)[j] {
      if i < |a| {
        assert a[i] in a;
      }
      if |a| <= j {
        assert b[j - |a|] in b;
      }
    }
  }

  lemma {:induction false} PlacingIsDistinct(d: Dir, uuid: string, stat: Stat, pid: nat, counter: nat, entries: EntryOrder, previous: seq<Name>, k: nat)
    requires NamesApart(d, uuid) && Previous(d, uuid, previous) && k <= |previous|
    ensures Distinct(Placing(d, uuid, stat, pid, counter, entries, previous[..k]))
    decreases k
  {
    if k > 0 {
      hide PlacedBy, Origin, NamesApart, Distinct;
      var i := k - 1;
      var aside := Old(Uuid8(uuid), pid, counter + i, i);
      PlacingIsDistinct(d, uuid, stat, pid, counter, entries, previous, i);
      PlacingOneMore(d, uuid, stat, pid, counter, entries, previous, i);
      OneApart(d, uuid, stat, entries, previous[i], aside, i);
      forall x | x in Placing(d, uuid, stat, pid, counter, entries, previous[..i]) ensures x !in PlacedBy(d, stat, entries, previous[i], aside, i) {
        PlacingHasOrigin(d, uuid, stat, pid, counter, entries, previous, i, x);
        ApartFromEarlier(d, uuid, stat, entries, previous, i, aside, x);
      }
      DistinctAppend(Placing(d, uuid, stat, pid, counter, entries, previous[..i]), PlacedBy(d, stat, entries, previous[i], aside, i));
    } else {
      assert previous[..0] == [];
    }
  }

  lemma {:induction false} FoundIsPrevious(d: Dir, uuid: string, listing: seq<Name>)
    requires Lists(listing, d.Keys) || forall i, j :: 0 <= i < j < |listing| ==> listing[i] != listing[j]
    ensures Previous(d, uuid, Found(d, uuid, listing))
    decreases |listing|
  {
    if listing != [] {
      var k := |listing| - 1;
      FoundIsPrevious(d, uuid, listing[..k]);
      FoundExactly(d, uuid, listing[..k], listing[k]);
    }
  }

  /** Names that stay apart find room whatever the counter, so also after a restart. */
  lemma ApartIsClear(d: Dir, uuid: string, stat: Stat, pid: nat, counter: nat, names: NameOrder, entries: EntryOrder)
    requires NamesApart(d, uuid)
    ensures Clear(d, uuid, stat, pid, counter, names, entries)
  {
    hide Placing, Found, RoomForAll, PlacedAll, Distinct, NamesApart, Previous, ListedNames;
    var listing := names(counter + 1, ListedNames(d, uuid, pid, counter));
    var previous := Found(d, uuid, listing);
    FoundIsPrevious(d, uuid, listing);
    PlacingIsDistinct(d, uuid, stat, pid, counter + 1, entries, previous, |previous|);
    assert previous[..|previous|] == previous;
    RoomIfDistinct(Slots({}, counter + 1 + |previous|), Placing(d, uuid, stat, pid, counter + 1, entries, previous));
  }

  // ---------------------------------------------------------------- one previous folder

  /** The only archive of its session. */
  ghost predicate Sole(d: Dir, uuid: string, n: Name) {
    forall m :: IsArchive(d, m, uuid) <==> m == n
  }

  lemma SoleIsFound(d: Dir, uuid: string, pid: nat, counter: nat, names: NameOrder, n: Name)
    requires WellNamed(d) && Sole(d, uuid, n)
    ensures FoundBy(d, uuid, pid, counter, names) == [n]
  {
    var listing := names(counter + 1, ListedNames(d, uuid, pid, counter));
    var previous := Found(d, uuid, listing);
    FoundIsPrevious(d, uuid, listing);
    FoundExactly(d, uuid, listing, n);
    assert IsArchive(d, n, uuid) && n in ListedNames(d, uuid, pid, counter);
    assert forall i :: 0 <= i < |previous| ==> previous[i] == n;
    assert n in previous;
    assert previous[|previous| - 1] == previous[0];
  }

  /** The name the folder is to get as a version, and that name with the suffix it would be given, are both in its own history. */
  predicate BothTaken(f: Folder, stat: Stat, counter: nat) {
    && Changed(f.snap, stat) && f.history.Some?
    && var x := V(f.snap.stamp.GetOr(0), 0);
       x in f.history.value && Suffixed(x, counter + 2) in f.history.value
  }

  /** With one previous folder the order of reading does not matter, and the folder alone decides. */
  lemma SoleIsClear(d: Dir, uuid: string, stat: Stat, pid: nat, counter: nat, names: NameOrder, entries: EntryOrder, n: Name)
    requires WellNamed(d) && n in d && Sole(d, uuid, n)
    ensures Clear(d, uuid, stat, pid, counter, names, entries) <==> !BothTaken(d[n], stat, counter)
  {
    hide Placing, FoundBy, RoomForAll, BothTaken;
    SoleIsFound(d, uuid, pid, counter, names, n);
    SolePlacing(d, uuid, stat, pid, counter + 1, entries, n);
    RoomForSole(d, stat, counter, entries, n, Old(Uuid8(uuid), pid, counter + 1, 0));
  }

  lemma RoomForSole(d: Dir, stat: Stat, counter: nat, entries: EntryOrder, n: Name, aside: Name)
    requires n in d
    ensures RoomForAll(Slots({}, counter + 2), HistoryPart(d, entries, n, aside) + OwnVersion(d[n].snap, stat)) <==> !BothTaken(d[n], stat, counter)
  {
    var xs := HistoryPart(d, entries, n, aside);
    assert Distinct(xs) && forall x :: x in xs <==> InHistory(d, n, x);
    hide HistoryPart, RoomForAll, PlacedAll;
    RoomIfDistinct(Slots({}, counter + 2), xs);
    if Changed(d[n].snap, stat) {
      RoomForOneMore(counter + 2, xs, V(d[n].snap.stamp.GetOr(0), 0));
    } else {
      assert xs + [] == xs;
    }
  }

  /** The name a sole previous folder gets as a version, if it differs. */
  function OwnVersion(v: Snap, stat: Stat): seq<HName> {
    if Changed(v, stat) then [V(v.stamp.GetOr(0), 0)] else []
  }

  lemma SolePlacing(d: Dir, uuid: string, stat: Stat, pid: nat, counter: nat, entries: EntryOrder, n: Name)
    requires n in d
    ensures Placing(d, uuid, stat, pid, counter, entries, [n])
            == HistoryPart(d, entries, n, Old(Uuid8(uuid), pid, counter, 0)) + OwnVersion(d[n].snap, stat)
  {
    assert [n][..0] == [];
    assert Placing(d, uuid, stat, pid, counter, entries, []) == [];
    hide HistoryPart;
  }

  // ---------------------------------------------------------------- writes of one process

  /** A write and its session. */
  datatype Job = Job(uuid: string, finalText: string, snap: Snap)

  predicate ValidJob(j: Job) {
    EndsWith(j.finalText, "-" + Uuid8(j.uuid)) && j.snap.uuid == Some(j.uuid) && j.snap.stat.Some?
  }

  /** These writes, in this order, lead from d0 to d. */
  ghost predicate Follows(d0: Dir, jobs: seq<Job>, writes: seq<Write>, d: Dir) {
    && |writes| == |jobs| && WriteHistory(d0, writes) && LastDir(d0, writes) == d
    && forall i :: 0 <= i < |jobs| ==> writes[i].uuid == jobs[i].uuid && writes[i].snap == jobs[i].snap
  }

  ghost predicate Reached(d0: Dir, jobs: seq<Job>, d: Dir) {
    exists writes :: Follows(d0, jobs, writes, d)
  }

  lemma {:induction false} WriteAppended(d0: Dir, writes: seq<Write>, w: Write)
    requires WriteHistory(d0, writes) && SafeWrite(LastDir(d0, writes), w.after, w.uuid, w.snap)
    ensures WriteHistory(d0, writes + [w]) && LastDir(d0, writes + [w]) == w.after
    decreases |writes|
  {
    hide SafeWrite;
    var more := writes + [w];
    if writes == [] {
      assert more[1..] == [];
    } else {
      assert more[0] == writes[0] && more[1..] == writes[1..] + [w];
      assert LastDir(d0, writes) == LastDir(writes[0].after, writes[1..]);
      WriteAppended(writes[0].after, writes[1..], w);
    }
  }

  lemma ReachedOneMore(d0: Dir, jobs: seq<Job>, i: nat, d: Dir, e: Dir)
    requires i < |jobs| && Reached(d0, jobs[..i], d) && SafeWrite(d, e, jobs[i].uuid, jobs[i].snap)
    ensures Reached(d0, jobs[..i + 1], e)
  {
    hide SafeWrite, WriteHistory;
    var writes: seq<Write> :| Follows(d0, jobs[..i], writes, d);
    var w := Write(jobs[i].uuid, jobs[i].snap, e);
    WriteAppended(d0, writes, w);
    assert Follows(d0, jobs[..i + 1], writes + [w], e);
  }

  /** One write after another, whatever fails. */
  method RunWrites(fs: SessionsDir, jobs: seq<Job>)
    requires forall j :: j in jobs ==> ValidJob(j)
    modifies fs`dir, fs`outcomes, fs`down, fs`counter
    ensures Reached(old(fs.dir), jobs, fs.dir) && (old(WellNamed(fs.dir)) ==> WellNamed(fs.dir))
    ensures (old(fs.Alive()) ==> fs.Alive()) && (old(fs.Numbered()) ==> fs.Numbered())
  {
    ghost var d0 := fs.dir;
    assert Follows(d0, jobs[..0], [], d0);
    hide Reached, WellNamed, NumberedBelow;
    for i := 0 to |jobs|
      invariant Reached(d0, jobs[..i], fs.dir) && (old(WellNamed(fs.dir)) ==> WellNamed(fs.dir))
      invariant (old(fs.Alive()) ==> fs.Alive()) && (old(fs.Numbered()) ==> fs.Numbered())
    {
      ghost var d := fs.dir;
      assert ValidJob(jobs[i]);
      var r := WriteArchive(fs, jobs[i].uuid, jobs[i].finalText, jobs[i].snap);
      ReachedOneMore(d0, jobs, i, d, fs.dir);
    }
    assert jobs[..|jobs|] == jobs;
  }

  /** Some write of the session landed a snapshot of the same content. */
  predicate SameContentAmong(jobs: seq<Job>, uuid: string, v: Snap) {
    exists i :: 0 <= i < |jobs| && jobs[i].uuid == uuid && jobs[i].snap.stat.Some? && !Changed(v, jobs[i].snap.stat.value)
  }

  lemma ReachedKeeps(d0: Dir, jobs: seq<Job>, d: Dir, uuid: string, v: Snap)
    requires Reached(d0, jobs, d) && Kept(d0, uuid, v)
    ensures Kept(d, uuid, v) || SameContentAmong(jobs, uuid, v)
  {
    var writes: seq<Write> :| Follows(d0, jobs, writes, d);
    NoVersionEverLost(d0, writes, uuid, v);
    if Superseded(writes, uuid, v) {
      var i :| 0 <= i < |writes| && writes[i].uuid == uuid && writes[i].snap.stat.Some?
               && !Changed(v, writes[i].snap.stat.value) && Kept(writes[i].after, uuid, writes[i].snap);
      assert jobs[i].uuid == uuid;
    }
  }

  /** Writes led to some directory, and the last one took it from there to d in one piece: complete, or refused for its name. */
  ghost predicate HealedFrom(d0: Dir, jobs: seq<Job>, last: Job, d: Dir, landed: bool)
    requires last.snap.stat.Some?
  {
    exists mid: Dir ::
      && Reached(d0, jobs, mid)
      && (if NameTaken(mid, last.uuid, Visible(last.finalText)) then !landed && d == mid
          else landed && CompleteWrite(mid, d, last.uuid, Visible(last.finalText), last.snap))
  }

  /**
   * Self-healing: after any writes of any sessions with any calls failing, the
   * first write with nothing failing leaves exactly one folder of its session,
   * unless its name is somebody else's; and every version there was at the start
   * is still stored or has the content of a snapshot written since.
   */
  method HealsAfterErrors(fs: SessionsDir, jobs: seq<Job>, last: Job) returns (r: Result<Landed, WriteError>)
    requires (forall j :: j in jobs ==> ValidJob(j)) && ValidJob(last) && IsSafeUuid(last.uuid)
    requires fs.Alive() && fs.Numbered() && WellNamed(fs.dir)
    modifies fs`dir, fs`outcomes, fs`down, fs`counter
    ensures HealedFrom(old(fs.dir), jobs, last, fs.dir, r.Ok?)
    ensures r.Ok? ==> Sole(fs.dir, last.uuid, Visible(last.finalText)) && fs.dir[Visible(last.finalText)].snap == last.snap
    ensures forall uuid, v :: Kept(old(fs.dir), uuid, v) ==> Kept(fs.dir, uuid, v) || SameContentAmong(jobs + [last], uuid, v)
  {
    ghost var d0 := fs.dir;
    hide Reached, WellNamed, SafeWrite, Kept, SameContentAmong, FreshNames, FreshVersions, Clear;
    RunWrites(fs, jobs);
    ghost var mid := fs.dir;
    fs.outcomes := [];
    NumberedIsClear(mid, last.uuid, last.snap.stat.value, fs.pid, fs.counter, fs.names, fs.entries);
    r := WriteArchive(fs, last.uuid, last.finalText, last.snap);
    assert HealedFrom(d0, jobs, last, fs.dir, r.Ok?);
    if r.Ok? {
      CompleteIsSole(mid, fs.dir, last.uuid, Visible(last.finalText), last.snap);
    }
    forall uuid, v | Kept(d0, uuid, v) ensures Kept(fs.dir, uuid, v) || SameContentAmong(jobs + [last], uuid, v) {
      ReachedAndOneMore(d0, jobs, last, mid, fs.dir, uuid, v);
    }
  }

  lemma CompleteIsSole(d0: Dir, d: Dir, uuid: string, final: Name, snap: Snap)
    requires snap.stat.Some? && CompleteWrite(d0, d, uuid, final, snap)
    ensures Sole(d, uuid, final) && final in d && d[final].snap == snap
  {}

  lemma ReachedAndOneMore(d0: Dir, jobs: seq<Job>, last: Job, mid: Dir, d: Dir, uuid: string, v: Snap)
    requires Reached(d0, jobs, mid) && SafeWrite(mid, d, last.uuid, last.snap) && Kept(d0, uuid, v)
    ensures Kept(d, uuid, v) || SameContentAmong(jobs + [last], uuid, v)
  {
    var all := jobs + [last];
    assert all[..|jobs|] == jobs && all[..|jobs| + 1] == all;
    ReachedOneMore(d0, all, |jobs|, mid, d);
    ReachedKeeps(d0, all, d, uuid, v);
  }

  // ---------------------------------------------------------------- a process that starts afresh

  /** No leftover carries this process's number. */
  ghost predicate PidUnused(d: Dir, pid: nat) {
    forall n :: n in d && !n.Visible? ==> n.pid != pid
  }

  /**
   * The first write of a new process, with nothing failing, over whatever an
   * earlier one left: complete exactly if there is room for every version.
   */
  method WriteAfterRestart(d: Dir, pid: nat, names: NameOrder, entries: EntryOrder, j: Job) returns (r: Result<Landed, WriteError>, after: Dir)
    requires ValidJob(j) && IsSafeUuid(j.uuid) && WellNamed(d) && PidUnused(d, pid)
    ensures CleanWrite(d, after, j.uuid, Visible(j.finalText), j.snap, r.Ok?, r.Ok? && r.value.replaced,
                       Clear(d, j.uuid, j.snap.stat.value, pid, 0, names, entries))
    ensures SafeWrite(d, after, j.uuid, j.snap)
  {
    var fs := new SessionsDir(d, pid, names, entries, []);
    r := WriteArchive(fs, j.uuid, j.finalText, j.snap);
    after := fs.dir;
  }

  /**
   * Self-healing fails after a restart on every directory like this one: one
   * folder whose history has both forms of the name it is to get. The write
   * lands, and the old folder stays aside.
   */
  method RestartLeavesAside(pid: nat, names: NameOrder, entries: EntryOrder, j: Job, text: string, previous: Snap, v: Snap, w: Snap)
      returns (d: Dir, r: Result<Landed, WriteError>, after: Dir)
    requires ValidJob(j) && IsSafeUuid(j.uuid) && EndsWith(text, "-" + Uuid8(j.uuid))
    requires previous.uuid == Some(j.uuid) && Changed(previous, j.snap.stat.value)
    ensures var x := V(previous.stamp.GetOr(0), 0);
            d == map[Visible(text) := Folder(previous, Some(map[x := v, Suffixed(x, 2) := w]))]
    ensures r.Ok? && SafeWrite(d, after, j.uuid, j.snap) && !CompleteWrite(d, after, j.uuid, Visible(j.finalText), j.snap)
  {
    var x := V(previous.stamp.GetOr(0), 0);
    var n := Visible(text);
    d := map[n := Folder(previous, Some(map[x := v, Suffixed(x, 2) := w]))];
    assert Sole(d, j.uuid, n);
    SoleIsClear(d, j.uuid, j.snap.stat.value, pid, 0, names, entries, n);
    r, after := WriteAfterRestart(d, pid, names, entries, j);
    assert !NameTaken(d, j.uuid, Visible(j.finalText));
  }

  // ---------------------------------------------------------------- what is never taken for the same

  /** The snapshot's transcript is the beginning of `text`, at least one record short of it; or it cannot be read. */
  ghost predicate ShorterOrUnreadable(v: Snap, text: string, uuidOf: string -> Option<string>) {
    || v.stat.None?
    || exists cut: nat :: cut <= |text| && (cut == 0 || text[cut - 1] == '\n') && v.stat == Some(JsonlStat(text[..cut], uuidOf))
                          && exists i :: cut <= i < |text| && !(text[i] == ' ' || '\t' <= text[i] <= '\r')
  }

  lemma CutIsDifferent(text: string, cut: nat, i: nat, uuidOf: string -> Option<string>)
    requires cut <= i < |text| && (cut == 0 || text[cut - 1] == '\n') && !(text[i] == ' ' || '\t' <= text[i] <= '\r')
    ensures !SameContent(JsonlStat(text[..cut], uuidOf), JsonlStat(text, uuidOf))
  {
    var more := text[cut..];
    assert more[i - cut] == text[i];
    GrowthShows(text[..cut], more, uuidOf);
    assert text[..cut] + more == text;
  }

  lemma ShorterIsDifferent(v: Snap, text: string, uuidOf: string -> Option<string>)
    requires ShorterOrUnreadable(v, text, uuidOf)
    ensures Changed(v, JsonlStat(text, uuidOf))
  {
    hide JsonlStat, SameContent;
    if v.stat.Some? {
      var cut: nat :| cut <= |text| && (cut == 0 || text[cut - 1] == '\n') && v.stat == Some(JsonlStat(text[..cut], uuidOf))
                      && exists i :: cut <= i < |text| && !(text[i] == ' ' || '\t' <= text[i] <= '\r');
      var i :| cut <= i < |text| && !(text[i] == ' ' || '\t' <= text[i] <= '\r');
      CutIsDifferent(text, cut, i, uuidOf);
    }
  }

  /** However a write of a transcript that grew goes, the shorter snapshots stay stored. */
  lemma ShorterIsNeverLost(d0: Dir, d1: Dir, uuid: string, snap: Snap, text: string, uuidOf: string -> Option<string>, v: Snap)
    requires SafeWrite(d0, d1, uuid, snap) && snap.stat == Some(JsonlStat(text, uuidOf))
    requires Kept(d0, uuid, v) && ShorterOrUnreadable(v, text, uuidOf)
    ensures Kept(d1, uuid, v)
  {
    ShorterIsDifferent(v, text, uuidOf);
    hide Changed, Kept;
  }

  /**
   * With nothing failing and room for every name, archiving a transcript makes a
   * version of each folder of the session that holds fewer of its records or
   * cannot be read, even where the last uuid is the same.
   */
  method ShorterBecomesVersion(fs: SessionsDir, j: Job, text: string, uuidOf: string -> Option<string>) returns (r: Result<Landed, WriteError>)
    requires ValidJob(j) && IsSafeUuid(j.uuid) && j.snap.stat == Some(JsonlStat(text, uuidOf))
    requires fs.Clean() && WellNamed(fs.dir) && FreshNames(fs.dir, fs.pid, fs.counter)
    requires !NameTaken(fs.dir, j.uuid, Visible(j.finalText))
    requires Clear(fs.dir, j.uuid, j.snap.stat.value, fs.pid, fs.counter, fs.names, fs.entries)
    modifies fs`dir, fs`outcomes, fs`down, fs`counter
    ensures r == Ok(Landed(Visible(j.finalText), HasArchive(old(fs.dir), j.uuid)))
    ensures r.value.folder in fs.dir && fs.dir[r.value.folder].snap == j.snap
    ensures forall n :: IsArchive(old(fs.dir), n, j.uuid) && ShorterOrUnreadable(old(fs.dir)[n].snap, text, uuidOf) ==>
              fs.dir[r.value.folder].history.Some? && old(fs.dir)[n].snap in fs.dir[r.value.folder].history.value.Values
  {
    ghost var d := fs.dir;
    r := WriteArchive(fs, j.uuid, j.finalText, j.snap);
    forall n | IsArchive(d, n, j.uuid) && ShorterOrUnreadable(d[n].snap, text, uuidOf)
      ensures fs.dir[r.value.folder].history.Some? && d[n].snap in fs.dir[r.value.folder].history.value.Values
    {
      ShorterIsDifferent(d[n].snap, text, uuidOf);
      assert BelongsInHistory(d, j.uuid, j.snap.stat.value, d[n].snap);
      assert d[n].snap in HistValues(fs.dir[r.value.folder]);
    }
  }
}
