/**
 * Matching a spawned tab to the transcript it wrote: the one serious failure is
 * showing another session's conversation, so anything uncertain stays unmatched.
 */
module RolloutMatching {
  import opened Wrappers

  type Path = string

  const MATCH_SKEW_MS: int := 2000
  const MATCH_WINDOW_MS: int := 10000
  const APP_ORIGINATOR: string := "claude-workbench"

  datatype SpawnRef = SpawnRef(id: nat, cwd: Option<string>, spawnedMs: int)

  datatype Candidate = Candidate(path: Path, cwd: Option<string>, startedMs: Option<int>, originator: Option<string>)

  datatype Outcome = Matched(path: Path) | NoCandidate | Contested | Multiple

  predicate Marked(c: Candidate) {
    c.originator == Some(APP_ORIGINATOR)
  }

  /** Candidates carrying the app's mark; nothing to fall back on when there is none. */
  function NarrowToMarked(cands: seq<Candidate>): seq<Candidate> {
    if cands == [] then []
    else if Marked(cands[0]) then [cands[0]] + NarrowToMarked(cands[1..])
    else NarrowToMarked(cands[1..])
  }

  /** Same working directory, started within the window after the spawn or the clock skew before it. */
  predicate Covers(s: SpawnRef, c: Candidate) {
    && s.cwd.Some? && c.cwd.Some? && s.cwd.value == c.cwd.value && c.startedMs.Some?
    && s.spawnedMs - MATCH_SKEW_MS <= c.startedMs.value <= s.spawnedMs + MATCH_WINDOW_MS
  }

  function Mine(target: SpawnRef, cands: seq<Candidate>, claimed: set<Path>): seq<Candidate> {
    if cands == [] then []
    else if cands[0].path !in claimed && Covers(target, cands[0]) then [cands[0]] + Mine(target, cands[1..], claimed)
    else Mine(target, cands[1..], claimed)
  }

  /** Some other live tab covers it too. */
  predicate IsContested(target: SpawnRef, live: set<SpawnRef>, c: Candidate) {
    exists s :: s in live && s.id != target.id && Covers(s, c)
  }

  function Uncontested(target: SpawnRef, live: set<SpawnRef>, mine: seq<Candidate>): seq<Candidate> {
    if mine == [] then []
    else if IsContested(target, live, mine[0]) then Uncontested(target, live, mine[1..])
    else [mine[0]] + Uncontested(target, live, mine[1..])
  }

  function MatchRollout(target: SpawnRef, live: set<SpawnRef>, cands: seq<Candidate>, claimed: set<Path>): Outcome {
    var mine := Mine(target, cands, claimed);
    var uncontested := Uncontested(target, live, mine);
    if mine == [] then NoCandidate
    else if |uncontested| == 1 then Matched(uncontested[0].path)
    else if uncontested == [] then Contested
    else Multiple
  }

  // ---------------------------------------------------------------- what the filters keep

  lemma {:induction false} NarrowKeeps(cands: seq<Candidate>)
    ensures forall c :: c in NarrowToMarked(cands) <==> c in cands && c.originator == Some("claude-workbench")
    ensures DistinctPaths(cands) ==> DistinctPaths(NarrowToMarked(cands))
  {
    if cands != [] {
      NarrowKeeps(cands[1..]);
      assert forall c :: c in cands <==> c == cands[0] || c in cands[1..];
      if DistinctPaths(cands) {
        assert DistinctPaths(cands[1..]);
        DistinctCons(cands[0], cands[1..], NarrowToMarked(cands[1..]));
      }
    }
  }

  ghost predicate DistinctPaths(cands: seq<Candidate>) {
    forall i, j :: 0 <= i < j < |cands| ==> cands[i].path != cands[j].path
  }

  lemma DistinctCons(head: Candidate, rest: seq<Candidate>, kept: seq<Candidate>)
    requires DistinctPaths([head] + rest) && DistinctPaths(kept) && forall c :: c in kept ==> c in rest
    ensures DistinctPaths([head] + kept)
  {
    var all := [head] + rest;
    forall j | 0 <= j < |kept| ensures kept[j].path != head.path {
      assert kept[j] in rest;
      var i :| 0 <= i < |rest| && rest[i] == kept[j];
      assert all[0] == head && all[i + 1] == rest[i];
    }
  }

  lemma {:induction false} MineKeeps(target: SpawnRef, cands: seq<Candidate>, claimed: set<Path>)
    ensures forall c :: c in Mine(target, cands, claimed) <==> c in cands && c.path !in claimed && Covers(target, c)
    ensures DistinctPaths(cands) ==> DistinctPaths(Mine(target, cands, claimed))
  {
    if cands != [] {
      MineKeeps(target, cands[1..], claimed);
      assert forall c :: c in cands <==> c == cands[0] || c in cands[1..];
      if DistinctPaths(cands) {
        assert cands == [cands[0]] + cands[1..];
        DistinctCons(cands[0], cands[1..], Mine(target, cands[1..], claimed));
      }
    }
  }

  lemma {:induction false} UncontestedKeeps(target: SpawnRef, live: set<SpawnRef>, mine: seq<Candidate>)
    ensures forall c :: c in Uncontested(target, live, mine) <==> c in mine && !IsContested(target, live, c)
    ensures DistinctPaths(mine) ==> DistinctPaths(Uncontested(target, live, mine))
  {
    if mine != [] {
      UncontestedKeeps(target, live, mine[1..]);
      assert forall c :: c in mine <==> c == mine[0] || c in mine[1..];
      if DistinctPaths(mine) {
        assert mine == [mine[0]] + mine[1..];
        DistinctCons(mine[0], mine[1..], Uncontested(target, live, mine[1..]));
      }
    }
  }

  /** An unclaimed candidate that the target covers and nobody else live does. */
  ghost predicate Eligible(target: SpawnRef, live: set<SpawnRef>, cands: seq<Candidate>, claimed: set<Path>, c: Candidate) {
    c in cands && c.path !in claimed && Covers(target, c) && !IsContested(target, live, c)
  }

  /** c is the one eligible candidate. */
  ghost predicate SoleEligible(target: SpawnRef, live: set<SpawnRef>, cands: seq<Candidate>, claimed: set<Path>, c: Candidate) {
    && Eligible(target, live, cands, claimed, c)
    && forall d :: Eligible(target, live, cands, claimed, d) ==> d == c
  }

  lemma UncontestedIsEligible(target: SpawnRef, live: set<SpawnRef>, cands: seq<Candidate>, claimed: set<Path>)
    requires DistinctPaths(cands)
    ensures var un := Uncontested(target, live, Mine(target, cands, claimed));
            DistinctPaths(un) && forall c :: c in un <==> Eligible(target, live, cands, claimed, c)
  {
    MineKeeps(target, cands, claimed);
    UncontestedKeeps(target, live, Mine(target, cands, claimed));
  }

  /** The outcome in terms of which candidates are eligible: matched exactly on the only one. */
  lemma OutcomeMeans(target: SpawnRef, live: set<SpawnRef>, cands: seq<Candidate>, claimed: set<Path>)
    requires DistinctPaths(cands)
    ensures var r := MatchRollout(target, live, cands, claimed);
            && (r.Matched? <==> exists c :: SoleEligible(target, live, cands, claimed, c))
            && (forall c :: r.Matched? && Eligible(target, live, cands, claimed, c) ==> r == Matched(c.path))
            && (r.NoCandidate? <==> forall c :: c in cands ==> c.path in claimed || !Covers(target, c))
            && (r.Multiple? <==> exists c, d :: c != d && Eligible(target, live, cands, claimed, c) && Eligible(target, live, cands, claimed, d))
  {
    var mine := Mine(target, cands, claimed);
    var un := Uncontested(target, live, mine);
    MineKeeps(target, cands, claimed);
    UncontestedIsEligible(target, live, cands, claimed);
    assert mine != [] ==> mine[0] in mine;
    assert forall c :: c in un ==> c in mine by { UncontestedKeeps(target, live, mine); }
    hide Mine, Uncontested, Eligible, Covers;
    if |un| == 1 {
      assert SoleEligible(target, live, cands, claimed, un[0]);
    } else if |un| >= 2 {
      assert un[0] in un && un[1] in un && un[0].path != un[1].path;
    } else {
      assert forall c :: !Eligible(target, live, cands, claimed, c) by { assert un == []; }
    }
  }

  // ---------------------------------------------------------------- when two tabs can contest

  /** Two tabs can cover one transcript exactly when they share a directory and were spawned within skew plus window of each other. */
  lemma ContestRange(a: SpawnRef, b: SpawnRef)
    ensures (exists c :: Covers(a, c) && Covers(b, c))
            <==> a.cwd.Some? && a.cwd == b.cwd && -12000 <= a.spawnedMs - b.spawnedMs <= 12000
  {
    if a.cwd.Some? && a.cwd == b.cwd && -12000 <= a.spawnedMs - b.spawnedMs <= 12000 {
      var later := Max(a.spawnedMs, b.spawnedMs);
      var c := Candidate("", a.cwd, Some(later - MATCH_SKEW_MS), None);
      assert Covers(a, c) && Covers(b, c);
    }
  }

  // ---------------------------------------------------------------- runs

  datatype Tab = Tab(cwd: Option<string>, spawnedMs: int, resolved: Option<Path>)

  /** The registry of tabs, the transcripts on disk, and who wrote each: None for a session outside the app. */
  datatype World = World(tabs: map<nat, Tab>, files: set<Candidate>, owner: map<Path, Option<nat>>)

  datatype Label =
    | Spawn(id: nat, cwd: Option<string>, spawnedMs: int)
    | Appear(file: Candidate, writer: Option<nat>)
    | Poll(id: nat, scanned: seq<Candidate>)

  function RefOf(w: World, id: nat): SpawnRef
    requires id in w.tabs
  {
    SpawnRef(id, w.tabs[id].cwd, w.tabs[id].spawnedMs)
  }

  /** Tabs that have not caught their transcript yet; whether they are still alive does not matter. */
  function Live(w: World): set<SpawnRef> {
    set id | id in w.tabs && w.tabs[id].resolved.None? :: RefOf(w, id)
  }

  function Claimed(w: World): set<Path> {
    set id | id in w.tabs && w.tabs[id].resolved.Some? :: w.tabs[id].resolved.value
  }

  /**
   * A transcript is contested for a tab exactly when another tab, not yet matched,
   * was spawned in its directory no more than two seconds after it started and
   * no more than ten before.
   */
  lemma ContestedMeans(w: World, id: nat, c: Candidate)
    requires id in w.tabs
    ensures IsContested(RefOf(w, id), Live(w), c)
            <==> exists other :: other in w.tabs && other != id && w.tabs[other].resolved.None? && w.tabs[other].cwd.Some?
                                 && w.tabs[other].cwd == c.cwd && c.startedMs.Some?
                                 && -2000 <= c.startedMs.value - w.tabs[other].spawnedMs <= 10000
  {
    if IsContested(RefOf(w, id), Live(w), c) {
      var s :| s in Live(w) && s.id != id && Covers(s, c);
      assert s.id in w.tabs && RefOf(w, s.id) == s;
    }
    if other :| other in w.tabs && other != id && w.tabs[other].resolved.None? && w.tabs[other].cwd.Some?
                && w.tabs[other].cwd == c.cwd && c.startedMs.Some? && -2000 <= c.startedMs.value - w.tabs[other].spawnedMs <= 10000 {
      assert RefOf(w, other) in Live(w);
    }
  }

  /** What is claimed is what some tab was matched to. */
  lemma ClaimedMeans(w: World, path: Path)
    ensures path in Claimed(w) <==> exists id :: id in w.tabs && w.tabs[id].resolved == Some(path)
  {}

  /** A marked transcript is one a tab of the app wrote. */
  ghost predicate WrittenByTab(w: World, c: Candidate, id: nat) {
    c in w.files && Marked(c) && c.path in w.owner && w.owner[c.path] == Some(id)
  }

  /**
   * What the world promises: the mark is set by the app's tabs only, each tab
   * writes one marked transcript, in its own directory and window; and a scan
   * sees some of the files there are, each once. A poll may claim on a state
   * later than the one it started from, so its tab may have resolved meanwhile.
   */
  ghost predicate Enabled(w: World, l: Label) {
    match l
    case Spawn(id, _, _) => id !in w.tabs
    case Appear(file, writer) =>
      && file.path !in w.owner
      && (Marked(file) ==> && writer.Some? && writer.value in w.tabs && Covers(RefOf(w, writer.value), file)
                           && forall c :: c in w.files ==> !WrittenByTab(w, c, writer.value))
    case Poll(id, scanned) =>
      && id in w.tabs && DistinctPaths(scanned)
      && forall c :: c in scanned ==> c in w.files
  }

  function PollOutcome(w: World, id: nat, scanned: seq<Candidate>): Outcome
    requires id in w.tabs
  {
    MatchRollout(RefOf(w, id), Live(w), NarrowToMarked(scanned), Claimed(w))
  }

  /** A match is kept for good. */
  function Apply(w: World, l: Label): World
    requires Enabled(w, l)
  {
    match l
    case Spawn(id, cwd, ms) => w.(tabs := w.tabs[id := Tab(cwd, ms, None)])
    case Appear(file, writer) => w.(files := w.files + {file}, owner := w.owner[file.path := writer])
    case Poll(id, scanned) =>
      var r := PollOutcome(w, id, scanned);
      if r.Matched? then w.(tabs := w.tabs[id := w.tabs[id].(resolved := Some(r.path))]) else w
  }

  ghost predicate Runs(w: World, ls: seq<Label>, v: World)
    decreases |ls|
  {
    if ls == [] then w == v else Enabled(w, ls[0]) && Runs(Apply(w, ls[0]), ls[1..], v)
  }

  ghost predicate Reachable(v: World) {
    exists ls :: Runs(World(map[], {}, map[]), ls, v)
  }

  /** Every file has an owner entry; a marked one's is a tab that covers it; no tab has two. */
  ghost predicate FilesOwned(w: World) {
    && (forall c :: c in w.files ==> c.path in w.owner)
    && (forall c, d :: c in w.files && d in w.files && c.path == d.path ==> c == d)
    && (forall c :: c in w.files && Marked(c) ==>
          && w.owner[c.path].Some? && w.owner[c.path].value in w.tabs && Covers(RefOf(w, w.owner[c.path].value), c))
    && (forall c, d, id: nat :: WrittenByTab(w, c, id) && WrittenByTab(w, d, id) ==> c == d)
  }

  /** Every claim is on the tab's own marked transcript. */
  ghost predicate ClaimsOwn(w: World) {
    forall id :: id in w.tabs && w.tabs[id].resolved.Some? ==>
      exists c :: WrittenByTab(w, c, id) && c.path == w.tabs[id].resolved.value
  }

  ghost predicate Inv(w: World) {
    FilesOwned(w) && ClaimsOwn(w)
  }

  /** Once its writer has resolved, a marked transcript is claimed. */
  lemma WriterClaims(w: World, id: nat, c: Candidate)
    requires Inv(w) && WrittenByTab(w, c, id) && w.tabs[id].resolved.Some?
    ensures c.path in Claimed(w)
  {
    var d :| WrittenByTab(w, d, id) && d.path == w.tabs[id].resolved.value;
  }

  /** A claimed marked transcript is claimed by its writer. */
  lemma ClaimedByWriter(w: World, id: nat, c: Candidate)
    requires Inv(w) && WrittenByTab(w, c, id) && c.path in Claimed(w)
    ensures w.tabs[id].resolved == Some(c.path)
  {
    var other :| other in w.tabs && w.tabs[other].resolved.Some? && w.tabs[other].resolved.value == c.path;
    var d :| WrittenByTab(w, d, other) && d.path == c.path;
  }

  /** While the writer of a marked transcript is still looking, it stands in everybody else's way. */
  lemma OnlyOwnIsEligible(w: World, id: nat, scanned: seq<Candidate>, c: Candidate)
    requires Inv(w) && Enabled(w, Poll(id, scanned))
    requires Eligible(RefOf(w, id), Live(w), NarrowToMarked(scanned), Claimed(w), c)
    ensures WrittenByTab(w, c, id)
  {
    NarrowKeeps(scanned);
    var o := w.owner[c.path].value;
    assert WrittenByTab(w, c, o);
    if w.tabs[o].resolved.Some? {
      WriterClaims(w, o, c);
    }
    assert RefOf(w, o) in Live(w);
  }

  /** A tab that has its own transcript has nothing left to claim. */
  lemma ResolvedHasNothing(w: World, id: nat, scanned: seq<Candidate>, c: Candidate)
    requires Inv(w) && Enabled(w, Poll(id, scanned)) && w.tabs[id].resolved.Some?
    ensures !Eligible(RefOf(w, id), Live(w), NarrowToMarked(scanned), Claimed(w), c)
  {
    if Eligible(RefOf(w, id), Live(w), NarrowToMarked(scanned), Claimed(w), c) {
      OnlyOwnIsEligible(w, id, scanned, c);
      WriterClaims(w, id, c);
    }
  }

  lemma PollKeeps(w: World, id: nat, scanned: seq<Candidate>)
    requires Inv(w) && Enabled(w, Poll(id, scanned))
    ensures Inv(Apply(w, Poll(id, scanned)))
  {
    var v := Apply(w, Poll(id, scanned));
    var r := PollOutcome(w, id, scanned);
    NarrowKeeps(scanned);
    OutcomeMeans(RefOf(w, id), Live(w), NarrowToMarked(scanned), Claimed(w));
    if r.Matched? {
      var c :| Eligible(RefOf(w, id), Live(w), NarrowToMarked(scanned), Claimed(w), c) && c.path == r.path;
      OnlyOwnIsEligible(w, id, scanned, c);
      ResolveKeeps(w, id, c);
    }
  }

  lemma ResolveKeeps(w: World, id: nat, c: Candidate)
    requires Inv(w) && id in w.tabs && WrittenByTab(w, c, id)
    ensures Inv(w.(tabs := w.tabs[id := w.tabs[id].(resolved := Some(c.path))]))
  {
    var v := w.(tabs := w.tabs[id := w.tabs[id].(resolved := Some(c.path))]);
    hide Covers, Marked;
    assert forall i :: i in w.tabs ==> RefOf(v, i) == RefOf(w, i);
    assert forall d, i: nat :: WrittenByTab(v, d, i) == WrittenByTab(w, d, i);
  }

  lemma AppearKeeps(w: World, file: Candidate, writer: Option<nat>)
    requires Inv(w) && Enabled(w, Appear(file, writer))
    ensures Inv(Apply(w, Appear(file, writer)))
  {
    var v := Apply(w, Appear(file, writer));
    hide Covers;
    assert forall i :: i in w.tabs ==> RefOf(v, i) == RefOf(w, i);
    assert forall d, i: nat :: WrittenByTab(v, d, i) <==> WrittenByTab(w, d, i) || (d == file && Marked(file) && writer == Some(i));
  }

  lemma SpawnKeeps(w: World, id: nat, cwd: Option<string>, ms: int)
    requires Inv(w) && Enabled(w, Spawn(id, cwd, ms))
    ensures Inv(Apply(w, Spawn(id, cwd, ms)))
  {
    var v := Apply(w, Spawn(id, cwd, ms));
    hide Covers, Marked;
    assert forall i :: i in w.tabs ==> RefOf(v, i) == RefOf(w, i);
    assert forall d, i: nat :: WrittenByTab(v, d, i) == WrittenByTab(w, d, i);
  }

  lemma {:induction false} InvRun(w: World, ls: seq<Label>, v: World)
    requires Inv(w) && Runs(w, ls, v)
    ensures Inv(v)
    decreases |ls|
  {
    hide Inv, Enabled, Apply;
    if ls != [] {
      match ls[0] {
        case Spawn(id, cwd, ms) => SpawnKeeps(w, id, cwd, ms);
        case Appear(file, writer) => AppearKeeps(w, file, writer);
        case Poll(id, scanned) => PollKeeps(w, id, scanned);
      }
      InvRun(Apply(w, ls[0]), ls[1..], v);
    }
  }

  lemma ReachableInv(w: World)
    requires Reachable(w)
    ensures Inv(w)
  {
    var ls :| Runs(World(map[], {}, map[]), ls, w);
    InvRun(World(map[], {}, map[]), ls, w);
  }

  // ---------------------------------------------------------------- main results

  /** Along every run, each tab shows its own transcript and no two tabs the same one. */
  lemma ClaimsAreOwnAndInjective(w: World)
    requires Reachable(w)
    ensures forall id :: id in w.tabs && w.tabs[id].resolved.Some? ==>
              w.tabs[id].resolved.value in w.owner && w.owner[w.tabs[id].resolved.value] == Some(id)
    ensures forall a, b :: a in w.tabs && b in w.tabs && w.tabs[a].resolved.Some? && w.tabs[a].resolved == w.tabs[b].resolved ==> a == b
  {
    ReachableInv(w);
    forall id | id in w.tabs && w.tabs[id].resolved.Some?
      ensures w.tabs[id].resolved.value in w.owner && w.owner[w.tabs[id].resolved.value] == Some(id)
    {
      var c :| WrittenByTab(w, c, id) && c.path == w.tabs[id].resolved.value;
    }
  }

  /**
   * What a poll answers, exactly: it matches if and only if its tab is still
   * looking, the scan saw the tab's own marked transcript and no other tab still
   * looking covers it. It never finds more than one.
   */
  lemma PollMatchesExactlyOwn(w: World, id: nat, scanned: seq<Candidate>)
    requires Reachable(w) && Enabled(w, Poll(id, scanned))
    ensures PollOutcome(w, id, scanned).Matched?
            <==> w.tabs[id].resolved.None?
                 && exists c :: c in scanned && WrittenByTab(w, c, id) && !IsContested(RefOf(w, id), Live(w), c)
    ensures forall c :: c in scanned && WrittenByTab(w, c, id) && PollOutcome(w, id, scanned).Matched? ==> PollOutcome(w, id, scanned) == Matched(c.path)
    ensures !PollOutcome(w, id, scanned).Multiple?
  {
    ReachableInv(w);
    NarrowKeeps(scanned);
    var me, live, cands, claimed := RefOf(w, id), Live(w), NarrowToMarked(scanned), Claimed(w);
    OutcomeMeans(me, live, cands, claimed);
    forall c | Eligible(me, live, cands, claimed, c) ensures WrittenByTab(w, c, id) {
      OnlyOwnIsEligible(w, id, scanned, c);
    }
    if w.tabs[id].resolved.Some? {
      forall c ensures !Eligible(me, live, cands, claimed, c) {
        ResolvedHasNothing(w, id, scanned, c);
      }
    } else {
      forall c | c in scanned && WrittenByTab(w, c, id) ensures c in cands && c.path !in claimed && Covers(me, c) {
        if c.path in claimed {
          ClaimedByWriter(w, id, c);
        }
      }
    }
    hide Covers, IsContested, MatchRollout, Marked;
    assert w.tabs[id].resolved.None? ==>
      forall c :: c in scanned && WrittenByTab(w, c, id) && !IsContested(me, live, c) ==> Eligible(me, live, cands, claimed, c);
    assert forall c :: Eligible(me, live, cands, claimed, c) ==> c in scanned && WrittenByTab(w, c, id) && !IsContested(me, live, c);
    assert forall c :: Eligible(me, live, cands, claimed, c) ==> SoleEligible(me, live, cands, claimed, c);
  }

  /** The tab is then resolved to the transcript it wrote, for good, and nothing else changes. */
  lemma PollResolves(w: World, id: nat, scanned: seq<Candidate>, c: Candidate)
    requires Reachable(w) && Enabled(w, Poll(id, scanned)) && c in scanned && WrittenByTab(w, c, id)
    ensures var resolved := if w.tabs[id].resolved.None? && !IsContested(RefOf(w, id), Live(w), c) then Some(c.path) else w.tabs[id].resolved;
            Apply(w, Poll(id, scanned)) == w.(tabs := w.tabs[id := w.tabs[id].(resolved := resolved)])
  {
    PollMatchesExactlyOwn(w, id, scanned);
    ReachableInv(w);
    assert FilesOwned(w);
    hide PollOutcome, IsContested, Live;
    if w.tabs[id].resolved.None? && PollOutcome(w, id, scanned).Matched? {
      assert PollOutcome(w, id, scanned) == Matched(c.path);
    }
    assert w.tabs[id := w.tabs[id]] == w.tabs;
  }

  lemma LoneCandidate(target: SpawnRef, live: set<SpawnRef>, c: Candidate)
    ensures MatchRollout(target, live, [c], {})
            == if !Covers(target, c) then NoCandidate else if IsContested(target, live, c) then Contested else Matched(c.path)
  {
    assert [c][1..] == [];
    assert Mine(target, [], {}) == [] && Uncontested(target, live, []) == [];
    assert Mine(target, [c], {}) == if Covers(target, c) then [c] else [];
    hide Covers, IsContested;
  }

  /** A tab alone is matched to an unclaimed transcript of its directory exactly when that started from two seconds before the tab's spawn to ten after. */
  lemma LoneTabWindow(me: SpawnRef, c: Candidate, delay: int)
    requires me.cwd.Some? && c.cwd == me.cwd && c.startedMs == Some(me.spawnedMs + delay)
    ensures MatchRollout(me, {me}, [c], {}) == if -2000 <= delay <= 10000 then Matched(c.path) else NoCandidate
    ensures MatchRollout(me, {me}, [c.(startedMs := None)], {}) == NoCandidate
    ensures MatchRollout(me.(cwd := None), {me}, [c], {}) == NoCandidate
  {
    LoneCandidate(me, {me}, c);
    LoneCandidate(me, {me}, c.(startedMs := None));
    LoneCandidate(me.(cwd := None), {me}, c);
  }

  /**
   * Why there is no falling back on unmarked candidates: before a tab's own
   * transcript exists, any outside session of its directory and window would be
   * matched, and kept.
   */
  lemma FallbackShowsAStranger(me: SpawnRef, stranger: Candidate)
    requires Covers(me, stranger) && !Marked(stranger)
    ensures MatchRollout(me, {me}, [stranger], {}) == Matched(stranger.path)
    ensures MatchRollout(me, {me}, NarrowToMarked([stranger]), {}) == NoCandidate
  {
    assert [stranger][1..] == [];
    LoneCandidate(me, {me}, stranger);
  }

  /**
   * Why a tab's record outlives its process: with two tabs in range of one
   * transcript neither gets it, but once the writer's record is dropped the
   * other one does.
   */
  lemma ForgettingAWriterMismatches(a: SpawnRef, b: SpawnRef, file: Candidate)
    requires a.id != b.id && Covers(a, file) && Covers(b, file)
    ensures MatchRollout(a, {a, b}, [file], {}) == Contested && MatchRollout(b, {a, b}, [file], {}) == Contested
    ensures MatchRollout(b, {b}, [file], {}) == Matched(file.path)
  {
    LoneCandidate(a, {a, b}, file);
    LoneCandidate(b, {a, b}, file);
    LoneCandidate(b, {b}, file);
    assert IsContested(a, {a, b}, file) by { assert b in {a, b}; }
    assert IsContested(b, {a, b}, file) by { assert a in {a, b}; }
    assert !IsContested(b, {b}, file);
  }
}
