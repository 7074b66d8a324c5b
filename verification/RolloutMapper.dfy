/**
 * Mapping a transcript's records onto the timeline: opening records, outputs,
 * and the richer end events, which may arrive in either order.
 */
module RolloutMapping {
  import opened Wrappers
  import opened TimelineModel

  /** What an opening record carries; `workdir` only for `exec_command`. */
  datatype Call = Call(kind: ItemKind, title: string, rawInput: Option<string>, locations: seq<Path>, workdir: Option<string>)

  /** One parsed command of an exec end event. */
  datatype Parsed = Parsed(ctype: Option<string>, path: Option<string>)

  datatype ExecEnd = ExecEnd(cwd: Option<string>, parsed: seq<Parsed>, exitCode: Option<int>, status: Option<string>,
                             aggregated: Option<string>, stdout: Option<string>, stderr: Option<string>)

  datatype Change = Change(path: Path, ctype: string, content: Option<string>, unifiedDiff: Option<string>)

  datatype PatchEnd = PatchEnd(success: Option<bool>, changes: seq<Change>, names: string, stdout: Option<string>, stderr: Option<string>)

  /** The decoded arguments of a `function_call` and of a `custom_tool_call`. */
  datatype FunctionCall = ExecCommand(firstLine: string, raw: string, workdir: Option<string>)
                        | UpdatePlan(steps: string, raw: string) | AnyFunction(name: string, brief: string, raw: string)
  datatype CustomCall = ApplyPatch(raw: string) | ExecInput(firstLine: string, raw: string) | AnyCustom(name: string, raw: string)

  const PATCH_TITLE: string := "패치 적용"
  const PATCH_PREFIX: string := "패치 "

  function FunctionOpening(f: FunctionCall): Call {
    match f
    case ExecCommand(firstLine, raw, workdir) => Call(Execute, firstLine, Some(raw), [], workdir)
    case UpdatePlan(steps, raw) => Call(Plan, "계획 " + steps + "단계", Some(raw), [], None)
    case AnyFunction(name, brief, raw) => Call(Other, name + brief, Some(raw), [], None)
  }

  function CustomOpening(c: CustomCall): Call {
    match c
    case ApplyPatch(raw) => Call(Edit, PATCH_TITLE, Some(raw), [], None)
    case ExecInput(firstLine, raw) => Call(Execute, firstLine, Some(raw), [], None)
    case AnyCustom(name, raw) => Call(Other, name, Some(raw), [], None)
  }

  function Or<T>(a: Option<T>, b: Option<T>): Option<T> {
    if a.Some? then a else b
  }

  function KindOf(parsed: seq<Parsed>): (k: Option<ItemKind>)
    ensures k in {None, Some(Read), Some(Search)}
  {
    if parsed == [] then None
    else if parsed[0].ctype == Some("read") then Some(Read)
    else if parsed[0].ctype == Some("search") || parsed[0].ctype == Some("list_files") then Some(Search)
    else KindOf(parsed[1..])
  }

  function PathsOf(parsed: seq<Parsed>, cwd: Option<string>, abs: (string, Option<string>) -> Path): seq<Path> {
    if parsed == [] then []
    else if parsed[0].path.Some? && parsed[0].path.value != "" then [abs(parsed[0].path.value, cwd)] + PathsOf(parsed[1..], cwd, abs)
    else PathsOf(parsed[1..], cwd, abs)
  }

  function ExecStatus(e: ExecEnd): AgentStatus {
    if (e.exitCode.Some? && e.exitCode.value != 0) || e.status == Some("failed") then Failed else Completed
  }

  function DiffOf(c: Change): FileDiff {
    if c.ctype == "add" then FileDiff(c.path, None, c.content.GetOr(""))
    else if c.ctype == "delete" then FileDiff(c.path, c.content, "")
    else FileDiff(c.path, None, c.unifiedDiff.GetOr(""))
  }

  function DiffsOf(changes: seq<Change>): seq<FileDiff> {
    if changes == [] then [] else [DiffOf(changes[0])] + DiffsOf(changes[1..])
  }

  function ChangedPaths(changes: seq<Change>): (r: seq<Path>)
    ensures |r| == |changes|
  {
    if changes == [] then [] else [changes[0].path] + ChangedPaths(changes[1..])
  }

  // ---------------------------------------------------------------- one item

  /** An opening record fills what is still blank and never overwrites, except an explicit working directory. */
  function OpenedItem(item: Item, isNew: bool, turn: nat, call: Call, project: Option<string>): Item {
    var a := if isNew then item.(turn := turn, agentStatus := InProgress) else item.(revision := item.revision + 1);
    var b := a.(title := if a.title == "" then call.title else a.title,
                kind := if a.kind == Other then call.kind else a.kind,
                rawInput := Or(a.rawInput, call.rawInput),
                cwd := Or(call.workdir, a.cwd));
    if b.locations == [] && call.locations != [] then b.(locations := call.locations, projectLabel := project) else b
  }

  /** A closing record keeps the first body and the last status. */
  function CompletedItem(item: Item, isNew: bool, turn: nat, body: Option<string>, status: Option<AgentStatus>): Item {
    item.(turn := if isNew then turn else item.turn,
          revision := item.revision + 1,
          contentText := if item.contentText.None? && body.Some? && body.value != "" then body else item.contentText,
          agentStatus := status.GetOr(Completed))
  }

  function ExecBody(e: ExecEnd): Option<string> {
    Or(e.aggregated, Or(e.stdout, e.stderr))
  }

  function ExecDetails(item: Item, e: ExecEnd, paths: seq<Path>, project: Option<string>): Item {
    var a := item.(kind := KindOf(e.parsed).GetOr(item.kind), cwd := Or(item.cwd, e.cwd));
    if paths != [] then a.(locations := paths, projectLabel := project) else a
  }

  function PatchStatus(p: PatchEnd): AgentStatus {
    if p.success.GetOr(true) then Completed else Failed
  }

  function PatchDetails(item: Item, p: PatchEnd, project: Option<string>): Item {
    var a := item.(kind := Edit, diffs := DiffsOf(p.changes));
    if p.changes != [] then a.(title := PATCH_PREFIX + p.names, locations := ChangedPaths(p.changes), projectLabel := project) else a
  }

  // ---------------------------------------------------------------- the whole log

  /** Everything the mapping of tool calls depends on. */
  datatype Log = Log(items: seq<Item>, sessionId: string, turn: nat)

  /** The parts of the file system that are consulted: how paths join, and the nearest project marker. */
  datatype Paths = Paths(abs: (string, Option<string>) -> Path, marker: Path -> Option<string>) {
    function Label(locations: seq<Path>): Option<string> {
      if locations == [] then None else marker(locations[0])
    }
  }

  datatype Ending = Output(body: Option<string>) | Exec(e: ExecEnd) | Patch(p: PatchEnd)

  datatype Record =
    | Opens(callId: string, call: Call)
    | Ends(callId: string, ending: Ending)
    | UserMessage
    | TurnAborted
    | Meta(sessionId: string)

  /** The item of a call as a record finds it: its own, or a fresh shell. */
  function Seen(items: seq<Item>, key: Key): (item: Item)
    ensures item.key == key
  {
    Sighted(items, key)[Position(items, key)]
  }

  predicate IsNew(items: seq<Item>, key: Key) {
    Find(items, key).None?
  }

  /** The items with a call's item replaced, or added at the end. */
  function Placed(items: seq<Item>, key: Key, item: Item): seq<Item> {
    Sighted(items, key)[Position(items, key) := item]
  }

  function BodyOf(ending: Ending): Option<string> {
    match ending
    case Output(body) => body
    case Exec(e) => ExecBody(e)
    case Patch(p) => Or(p.stdout, p.stderr)
  }

  function StatusOf(ending: Ending): Option<AgentStatus> {
    match ending
    case Output(_) => None
    case Exec(e) => Some(ExecStatus(e))
    case Patch(p) => Some(PatchStatus(p))
  }

  /** What an ending does to its call's item. */
  function Ended(paths: Paths, turn: nat, ending: Ending, item: Item, isNew: bool): Item {
    var closed := CompletedItem(item, isNew, turn, BodyOf(ending), StatusOf(ending));
    match ending
    case Output(_) => closed
    case Exec(e) =>
      var found := PathsOf(e.parsed, e.cwd, paths.abs);
      ExecDetails(closed, e, found, paths.Label(found))
    case Patch(p) => PatchDetails(closed, p, paths.Label(ChangedPaths(p.changes)))
  }

  function Opened(paths: Paths, turn: nat, call: Call, item: Item, isNew: bool): Item {
    OpenedItem(item, isNew, turn, call, paths.Label(call.locations))
  }

  /** A record of one call changes that call's item. */
  function CallItem(paths: Paths, turn: nat, r: Record, item: Item, isNew: bool): (after: Item)
    requires r.Opens? || r.Ends?
    ensures after.key == item.key && after.seqNo == item.seqNo
  {
    match r
    case Opens(_, call) => Opened(paths, turn, call, item, isNew)
    case Ends(_, ending) => Ended(paths, turn, ending, item, isNew)
  }

  function Applied(paths: Paths, log: Log, r: Record): Log {
    match r
    case UserMessage => log.(turn := log.turn + 1)
    case TurnAborted => log.(items := CanceledAll(log.items))
    case Meta(id) => log.(sessionId := if id != "" then id else log.sessionId)
    case _ =>
      var key := (log.sessionId, r.callId);
      log.(items := Placed(log.items, key, CallItem(paths, log.turn, r, Seen(log.items, key), IsNew(log.items, key))))
  }

  function Mapped(paths: Paths, log: Log, rs: seq<Record>): Log
    decreases |rs|
  {
    if rs == [] then log else Mapped(paths, Applied(paths, log, rs[0]), rs[1..])
  }

  // ---------------------------------------------------------------- the mapper

  class RolloutMapper {
    const timeline: Timeline
    const paths: Paths
    var sessionId: string
    var currentTurn: nat

    ghost predicate Valid()
      reads this, timeline
    {
      timeline.Valid() && timeline.marker == paths.marker
    }

    function View(): Log
      reads this, timeline
    {
      Log(timeline.items, sessionId, currentTurn)
    }

    constructor (paths: Paths)
      ensures Valid() && fresh(timeline) && View() == Log([], "", 0) && this.paths == paths
    {
      this.paths := paths;
      timeline := new Timeline(paths.marker);
      sessionId, currentTurn := "", 0;
    }

    /** Put back the item of a call just located. */
    method Store(at: nat, item: Item, ghost before: seq<Item>)
      requires Valid() && WellKeyed(before) && timeline.items == Sighted(before, item.key) && at == Position(before, item.key)
      requires item.seqNo == at
      modifies timeline
      ensures Valid() && timeline.items == Placed(before, item.key, item)
    {
      timeline.Update(at, item);
    }

    /** Put back an item that a closing record has already changed once. */
    method Amend(at: nat, item: Item, ghost before: seq<Item>, ghost once: Item)
      requires Valid() && WellKeyed(before) && once.key == item.key && at == Position(before, item.key)
      requires timeline.items == Placed(before, item.key, once) && item.seqNo == at
      modifies timeline
      ensures Valid() && timeline.items == Placed(before, item.key, item)
    {
      PlacedTwice(before, item.key, once, item);
      timeline.Update(at, item);
    }

    /** Open a call, or fill the blanks of one whose end came first. */
    method Open(callId: string, call: Call) returns (at: nat)
      requires Valid()
      modifies timeline
      ensures Valid() && at == Position(old(timeline.items), (sessionId, callId))
      ensures View() == Applied(paths, old(View()), Opens(callId, call.(workdir := None)))
    {
      ghost var before := timeline.items;
      var project := timeline.LabelFor(call.locations);
      var isNew;
      at, isNew := timeline.Entry((sessionId, callId));
      SightedNumbered(before, (sessionId, callId));
      var item := FillOpened(timeline.items[at], isNew, currentTurn, call, project);
      hide Sighted, Position, Placed, OpenedItem, WellKeyed;
      Store(at, item, before);
    }

    /** The item that closing a call leaves for it. */
    function Closed(callId: string, body: Option<string>, status: Option<AgentStatus>): Item
      reads this, timeline
    {
      var key := (sessionId, callId);
      CompletedItem(Seen(timeline.items, key), IsNew(timeline.items, key), currentTurn, body, status)
    }

    /** Close a call; an unknown one gets a shell so that its result is not lost. */
    method Complete(callId: string, body: Option<string>, status: Option<AgentStatus>) returns (at: nat)
      requires Valid()
      modifies timeline
      ensures Valid() && at == Position(old(timeline.items), (sessionId, callId))
      ensures at < |timeline.items| && timeline.items[at] == old(Closed(callId, body, status))
      ensures timeline.items[at].key == (sessionId, callId) && timeline.items[at].seqNo == at
      ensures timeline.items == Placed(old(timeline.items), (sessionId, callId), timeline.items[at])
    {
      ghost var before := timeline.items;
      var isNew;
      at, isNew := timeline.Entry((sessionId, callId));
      SightedNumbered(before, (sessionId, callId));
      var item := FillCompleted(timeline.items[at], isNew, currentTurn, body, status);
      PlacedTwice(before, (sessionId, callId), item, item);
      assert item.key == (sessionId, callId) && item.seqNo == at;
      hide Sighted, Position, Placed, CompletedItem, WellKeyed;
      Store(at, item, before);
    }

    method ApplyFunctionCall(callId: Option<string>, f: FunctionCall)
      requires Valid()
      modifies timeline
      ensures Valid()
      ensures View() == if callId.None? then old(View()) else Applied(paths, old(View()), Opens(callId.value, FunctionOpening(f)))
    {
      if callId.None? {
        return;
      }
      var call := match f {
        case ExecCommand(firstLine, raw, workdir) => Call(Execute, firstLine, Some(raw), [], workdir)
        case UpdatePlan(steps, raw) => Call(Plan, "계획 " + steps + "단계", Some(raw), [], None)
        case AnyFunction(name, brief, raw) => Call(Other, name + brief, Some(raw), [], None)
      };
      ghost var before := timeline.items;
      var at := Open(callId.value, call);
      if call.workdir.Some? {
        SetWorkdir(at, call, callId.value, before);
      }
    }

    /** An explicit working directory overwrites what the item had. */
    method SetWorkdir(at: nat, call: Call, callId: string, ghost before: seq<Item>)
      requires Valid() && WellKeyed(before) && call.workdir.Some?
      requires at == Position(before, (sessionId, callId))
      requires View() == Applied(paths, Log(before, sessionId, currentTurn), Opens(callId, call.(workdir := None)))
      modifies timeline
      ensures Valid() && View() == Applied(paths, Log(before, sessionId, currentTurn), Opens(callId, call))
    {
      var item := timeline.items[at];
      SightedNumbered(before, (sessionId, callId));
      timeline.Update(at, item.(cwd := call.workdir));
    }

    method ApplyCustomCall(callId: Option<string>, c: CustomCall)
      requires Valid()
      modifies timeline
      ensures Valid()
      ensures View() == if callId.None? then old(View()) else Applied(paths, old(View()), Opens(callId.value, CustomOpening(c)))
    {
      if callId.None? {
        return;
      }
      var call := match c {
        case ApplyPatch(raw) => Call(Edit, PATCH_TITLE, Some(raw), [], None)
        case ExecInput(firstLine, raw) => Call(Execute, firstLine, Some(raw), [], None)
        case AnyCustom(name, raw) => Call(Other, name, Some(raw), [], None)
      };
      hide Applied;
      var at := Open(callId.value, call);
    }

    method ApplyOutput(callId: Option<string>, body: Option<string>)
      requires Valid()
      modifies timeline
      ensures Valid()
      ensures View() == if callId.None? then old(View()) else Applied(paths, old(View()), Ends(callId.value, Output(body)))
    {
      if callId.None? {
        return;
      }
      hide Sighted, Position, Placed, CompletedItem, WellKeyed;
      var at := Complete(callId.value, body, None);
    }

    /** Kind and paths of a parsed command line: the first recognised kind, every path. */
    method ReadParsed(parsed: seq<Parsed>, cwd: Option<string>) returns (kind: Option<ItemKind>, found: seq<Path>)
      ensures kind == KindOf(parsed) && found == PathsOf(parsed, cwd, paths.abs)
    {
      kind, found := None, [];
      for i := 0 to |parsed|
        invariant Or(kind, KindOf(parsed[i..])) == KindOf(parsed)
        invariant found + PathsOf(parsed[i..], cwd, paths.abs) == PathsOf(parsed, cwd, paths.abs)
      {
        var c := parsed[i];
        assert parsed[i..][0] == c && parsed[i..][1..] == parsed[i + 1..];
        if c.ctype == Some("read") {
          kind := Or(kind, Some(Read));
        } else if c.ctype == Some("search") || c.ctype == Some("list_files") {
          kind := Or(kind, Some(Search));
        }
        if c.path.Some? && c.path.value != "" {
          found := found + [paths.abs(c.path.value, cwd)];
        }
      }
    }

    /** The call has been closed by an ending; its details are still to be filled in. */
    ghost predicate Closing(callId: string, at: nat, ending: Ending, before: seq<Item>)
      reads this, timeline
    {
      var key := (sessionId, callId);
      && Valid() && WellKeyed(before) && at == Position(before, key)
      && at < |timeline.items| && timeline.items[at].key == key && timeline.items[at].seqNo == at
      && timeline.items == Placed(before, key, timeline.items[at])
      && timeline.items[at] == CompletedItem(Seen(before, key), IsNew(before, key), currentTurn, BodyOf(ending), StatusOf(ending))
    }

    method ExecDone(callId: string, at: nat, e: ExecEnd, ghost before: seq<Item>)
      requires Closing(callId, at, Exec(e), before)
      modifies timeline
      ensures Valid()
      ensures View() == Applied(paths, Log(before, sessionId, currentTurn), Ends(callId, Exec(e)))
    {
      hide Timeline.Valid, WellKeyed, Sighted, Position, Seen, IsNew, Placed, CompletedItem, ExecDetails, KindOf, PathsOf;
      var kind, found := ReadParsed(e.parsed, e.cwd);
      var item := FillExec(timeline.items[at], e, kind, found, timeline.LabelFor(found));
      Amend(at, item, before, timeline.items[at]);
    }

    method PatchDone(callId: string, at: nat, p: PatchEnd, ghost before: seq<Item>)
      requires Closing(callId, at, Patch(p), before)
      modifies timeline
      ensures Valid()
      ensures View() == Applied(paths, Log(before, sessionId, currentTurn), Ends(callId, Patch(p)))
    {
      hide Timeline.Valid, WellKeyed, Sighted, Position, Seen, IsNew, Placed, CompletedItem, PatchDetails, DiffsOf, ChangedPaths;
      var diffs, changed := ReadChanges(p.changes);
      var item := FillPatch(timeline.items[at], p, diffs, changed, timeline.LabelFor(changed));
      Amend(at, item, before, timeline.items[at]);
    }

    method ApplyExecEnd(callId: Option<string>, e: ExecEnd)
      requires Valid()
      modifies timeline
      ensures Valid()
      ensures View() == if callId.None? then old(View()) else Applied(paths, old(View()), Ends(callId.value, Exec(e)))
    {
      if callId.None? {
        return;
      }
      ghost var before := timeline.items;
      assert WellKeyed(before);
      hide Timeline.Valid, WellKeyed, Sighted, Position, Seen, IsNew, Placed, CompletedItem, Applied;
      var failed := (e.exitCode.Some? && e.exitCode.value != 0) || e.status == Some("failed");
      var at := Complete(callId.value, ExecBody(e), Some(if failed then Failed else Completed));
      ExecDone(callId.value, at, e, before);
    }

    method ApplyPatchEnd(callId: Option<string>, p: PatchEnd)
      requires Valid()
      modifies timeline
      ensures Valid()
      ensures View() == if callId.None? then old(View()) else Applied(paths, old(View()), Ends(callId.value, Patch(p)))
    {
      if callId.None? {
        return;
      }
      ghost var before := timeline.items;
      assert WellKeyed(before);
      hide Timeline.Valid, WellKeyed, Sighted, Position, Seen, IsNew, Placed, CompletedItem, Applied;
      var at := Complete(callId.value, Or(p.stdout, p.stderr), Some(if p.success.GetOr(true) then Completed else Failed));
      PatchDone(callId.value, at, p, before);
    }
  }

  lemma SightedNumbered(items: seq<Item>, key: Key)
    requires WellKeyed(items)
    ensures Seen(items, key).seqNo == Position(items, key)
    ensures |Sighted(items, key)| > Position(items, key)
    ensures Seen(items, key) == Sighted(items, key)[Position(items, key)]
  {}

  lemma PlacedTwice(items: seq<Item>, key: Key, once: Item, twice: Item)
    ensures |Placed(items, key, once)| > Position(items, key) && Placed(items, key, once)[Position(items, key)] == once
    ensures Placed(items, key, once)[Position(items, key) := twice] == Placed(items, key, twice)
  {}

  method FillOpened(item0: Item, isNew: bool, turn: nat, call: Call, project: Option<string>) returns (item: Item)
    ensures item == OpenedItem(item0, isNew, turn, call.(workdir := None), project)
  {
    item := item0;
    if isNew {
      item := item.(turn := turn, agentStatus := InProgress);
    } else {
      item := item.(revision := item.revision + 1);
    }
    if item.title == "" {
      item := item.(title := call.title);
    }
    if item.kind == Other {
      item := item.(kind := call.kind);
    }
    if item.rawInput.None? {
      item := item.(rawInput := call.rawInput);
    }
    if item.locations == [] && call.locations != [] {
      item := item.(locations := call.locations, projectLabel := project);
    }
  }

  method FillCompleted(item0: Item, isNew: bool, turn: nat, body: Option<string>, status: Option<AgentStatus>) returns (item: Item)
    ensures item == CompletedItem(item0, isNew, turn, body, status)
  {
    item := item0;
    if isNew {
      item := item.(turn := turn);
    }
    item := item.(revision := item.revision + 1);
    if body.Some? && body.value != "" {
      if item.contentText.None? {
        item := item.(contentText := body);
      }
    }
    item := item.(agentStatus := status.GetOr(Completed));
  }

  method FillExec(item0: Item, e: ExecEnd, kind: Option<ItemKind>, found: seq<Path>, project: Option<string>) returns (item: Item)
    requires kind == KindOf(e.parsed)
    ensures item == ExecDetails(item0, e, found, project) && item.key == item0.key && item.seqNo == item0.seqNo
  {
    item := item0;
    if kind.Some? {
      item := item.(kind := kind.value);
    }
    if found != [] {
      item := item.(locations := found, projectLabel := project);
    }
    if item.cwd.None? {
      item := item.(cwd := e.cwd);
    }
  }

  method FillPatch(item0: Item, p: PatchEnd, diffs: seq<FileDiff>, changed: seq<Path>, project: Option<string>) returns (item: Item)
    requires diffs == DiffsOf(p.changes) && changed == ChangedPaths(p.changes)
    ensures item == PatchDetails(item0, p, project) && item.key == item0.key && item.seqNo == item0.seqNo
  {
    item := item0.(kind := Edit);
    if changed != [] {
      item := item.(title := PATCH_PREFIX + p.names, locations := changed, projectLabel := project);
    }
    item := item.(diffs := diffs);
  }

  method ReadChanges(changes: seq<Change>) returns (diffs: seq<FileDiff>, changed: seq<Path>)
    ensures diffs == DiffsOf(changes) && changed == ChangedPaths(changes)
  {
    diffs, changed := [], [];
    for i := 0 to |changes|
      invariant diffs + DiffsOf(changes[i..]) == DiffsOf(changes)
      invariant changed + ChangedPaths(changes[i..]) == ChangedPaths(changes)
    {
      var c := changes[i];
      assert changes[i..][0] == c && changes[i..][1..] == changes[i + 1..];
      changed := changed + [c.path];
      diffs := diffs + [DiffOf(c)];
    }
  }

  // ---------------------------------------------------------------- order of one call's records

  predicate EqualButRevision(a: Item, b: Item) {
    a == b.(revision := a.revision)
  }

  ghost predicate SameButRevisions(a: Log, b: Log) {
    && a.sessionId == b.sessionId && a.turn == b.turn && |a.items| == |b.items|
    && forall i :: 0 <= i < |a.items| ==> EqualButRevision(a.items[i], b.items[i])
  }

  /** An item made on this sighting is blank. */
  predicate IsShell(item: Item) {
    item == Shell(item.key, item.seqNo)
  }

  lemma OutputConfluence(turn: nat, call: Call, project: Option<string>, body: Option<string>, status: Option<AgentStatus>, item: Item, isNew: bool)
    requires isNew ==> IsShell(item)
    ensures var a := CompletedItem(OpenedItem(item, isNew, turn, call, project), false, turn, body, status);
            var b := OpenedItem(CompletedItem(item, isNew, turn, body, status), false, turn, call, project);
            EqualButRevision(a, b) && b.revision == a.revision + (if isNew then 1 else 0)
  {}

  lemma ExecCommutes(turn: nat, call: Call, project: Option<string>, e: ExecEnd, found: seq<Path>, project2: Option<string>, item: Item)
    ensures ExecDetails(OpenedItem(item, false, turn, call, project), e, found, project2)
            == OpenedItem(ExecDetails(item, e, found, project2), false, turn, call, project)
  {}

  lemma PatchCommutes(turn: nat, call: Call, project: Option<string>, p: PatchEnd, project2: Option<string>, item: Item)
    ensures PatchDetails(OpenedItem(item, false, turn, call, project), p, project2)
            == OpenedItem(PatchDetails(item, p, project2), false, turn, call, project)
  {}

  lemma DetailsKeepRevision(a: Item, b: Item, e: ExecEnd, found: seq<Path>, p: PatchEnd, project: Option<string>)
    requires EqualButRevision(a, b)
    ensures EqualButRevision(ExecDetails(a, e, found, project), ExecDetails(b, e, found, project))
    ensures ExecDetails(a, e, found, project).revision == a.revision
    ensures EqualButRevision(PatchDetails(a, p, project), PatchDetails(b, p, project))
    ensures PatchDetails(a, p, project).revision == a.revision
  {}

  /** Opening then ending, and ending then opening, fill one item alike, up to how often it was revised. */
  lemma ItemConfluence(paths: Paths, turn: nat, call: Call, ending: Ending, item: Item, isNew: bool)
    requires isNew ==> IsShell(item)
    ensures var a := Ended(paths, turn, ending, Opened(paths, turn, call, item, isNew), false);
            var b := Opened(paths, turn, call, Ended(paths, turn, ending, item, isNew), false);
            EqualButRevision(a, b) && b.revision == a.revision + (if isNew then 1 else 0)
  {
    var project := paths.Label(call.locations);
    var body, status := BodyOf(ending), StatusOf(ending);
    OutputConfluence(turn, call, project, body, status, item, isNew);
    var a := CompletedItem(OpenedItem(item, isNew, turn, call, project), false, turn, body, status);
    var closed := CompletedItem(item, isNew, turn, body, status);
    hide OpenedItem, CompletedItem, ExecDetails, PatchDetails, EqualButRevision, PathsOf, ChangedPaths;
    match ending {
      case Output(_) =>
      case Exec(e) =>
        var found := PathsOf(e.parsed, e.cwd, paths.abs);
        ExecCommutes(turn, call, project, e, found, paths.Label(found), closed);
        DetailsKeepRevision(a, OpenedItem(closed, false, turn, call, project), e, found, PatchEnd(None, [], "", None, None), paths.Label(found));
      case Patch(p) =>
        var project2 := paths.Label(ChangedPaths(p.changes));
        PatchCommutes(turn, call, project, p, project2, closed);
        DetailsKeepRevision(a, OpenedItem(closed, false, turn, call, project), ExecEnd(None, [], None, None, None, None, None), [], p, project2);
    }
  }

  lemma PlacedSeen(items: seq<Item>, key: Key, item: Item)
    requires item.key == key
    ensures !IsNew(Placed(items, key, item), key) && Position(Placed(items, key, item), key) == Position(items, key)
    ensures Seen(Placed(items, key, item), key) == item
    ensures forall again: Item :: Placed(Placed(items, key, item), key, again) == Placed(items, key, again)
  {
    var placed, at := Placed(items, key, item), Position(items, key);
    assert placed[at].key == key;
    assert forall i :: 0 <= i < at ==> placed[i].key != key;
    assert Find(placed, key) == Some(at);
  }

  /**
   * A call's opening record and its end may come in either order, in one turn of
   * one session: every field of every item comes out the same, except that a
   * call first seen by its end counts one revision more.
   */
  lemma OpenAndEndCommute(paths: Paths, log: Log, callId: string, call: Call, ending: Ending)
    ensures var key := (log.sessionId, callId);
            var a := Applied(paths, Applied(paths, log, Opens(callId, call)), Ends(callId, ending));
            var b := Applied(paths, Applied(paths, log, Ends(callId, ending)), Opens(callId, call));
            && (!IsNew(log.items, key) ==> a == b)
            && (IsNew(log.items, key) ==>
                  && |a.items| == |log.items| + 1 && b == a.(items := a.items[|log.items| := b.items[|log.items|]])
                  && EqualButRevision(a.items[|log.items|], b.items[|log.items|])
                  && b.items[|log.items|].revision == a.items[|log.items|].revision + 1)
  {
    var key := (log.sessionId, callId);
    var item, isNew := Seen(log.items, key), IsNew(log.items, key);
    var started := CallItem(paths, log.turn, Opens(callId, call), item, isNew);
    var ended := CallItem(paths, log.turn, Ends(callId, ending), item, isNew);
    ItemConfluence(paths, log.turn, call, ending, item, isNew);
    PlacedSeen(log.items, key, started);
    PlacedSeen(log.items, key, ended);
    var a := CallItem(paths, log.turn, Ends(callId, ending), started, false);
    var b := CallItem(paths, log.turn, Opens(callId, call), ended, false);
    assert Applied(paths, Applied(paths, log, Opens(callId, call)), Ends(callId, ending)) == log.(items := Placed(log.items, key, a));
    assert Applied(paths, Applied(paths, log, Ends(callId, ending)), Opens(callId, call)) == log.(items := Placed(log.items, key, b));
    hide Applied, CallItem, Ended, Opened;
  }

  // ---------------------------------------------------------------- a whole log

  lemma {:induction false} SameKeysSameFind(a: seq<Item>, b: seq<Item>, key: Key)
    requires |a| == |b| && forall i :: 0 <= i < |a| ==> a[i].key == b[i].key
    ensures Find(a, key) == Find(b, key)
  {
    if a != [] && a[0].key != key {
      SameKeysSameFind(a[1..], b[1..], key);
    }
  }

  lemma BasicsCongruent(turn: nat, call: Call, project: Option<string>, body: Option<string>, status: Option<AgentStatus>, a: Item, b: Item, isNew: bool)
    requires EqualButRevision(a, b)
    ensures EqualButRevision(OpenedItem(a, isNew, turn, call, project), OpenedItem(b, isNew, turn, call, project))
    ensures EqualButRevision(CompletedItem(a, isNew, turn, body, status), CompletedItem(b, isNew, turn, body, status))
  {}

  lemma CallItemCongruent(paths: Paths, turn: nat, r: Record, a: Item, b: Item, isNew: bool)
    requires (r.Opens? || r.Ends?) && EqualButRevision(a, b)
    ensures EqualButRevision(CallItem(paths, turn, r, a, isNew), CallItem(paths, turn, r, b, isNew))
  {
    hide EqualButRevision, OpenedItem, CompletedItem, ExecDetails, PatchDetails, PathsOf, ChangedPaths;
    var noCall, noExec, noPatch := Call(Other, "", None, [], None), ExecEnd(None, [], None, None, None, None, None), PatchEnd(None, [], "", None, None);
    match r {
      case Opens(_, call) => BasicsCongruent(turn, call, paths.Label(call.locations), None, None, a, b, isNew);
      case Ends(_, ending) =>
        var body, status := BodyOf(ending), StatusOf(ending);
        BasicsCongruent(turn, noCall, None, body, status, a, b, isNew);
        var x, y := CompletedItem(a, isNew, turn, body, status), CompletedItem(b, isNew, turn, body, status);
        match ending {
          case Output(_) =>
          case Exec(e) =>
            var found := PathsOf(e.parsed, e.cwd, paths.abs);
            DetailsKeepRevision(x, y, e, found, noPatch, paths.Label(found));
          case Patch(p) => DetailsKeepRevision(x, y, noExec, [], p, paths.Label(ChangedPaths(p.changes)));
        }
    }
  }

  /** No record looks at a revision count. */
  lemma AppliedCongruent(paths: Paths, a: Log, b: Log, r: Record)
    requires SameButRevisions(a, b)
    ensures SameButRevisions(Applied(paths, a, r), Applied(paths, b, r))
  {
    if r.Opens? || r.Ends? {
      var key := (a.sessionId, r.callId);
      SameKeysSameFind(a.items, b.items, key);
      assert EqualButRevision(Seen(a.items, key), Seen(b.items, key));
      CallItemCongruent(paths, a.turn, r, Seen(a.items, key), Seen(b.items, key), IsNew(a.items, key));
      hide CallItem;
    }
  }

  lemma {:induction false} MappedCongruent(paths: Paths, a: Log, b: Log, rs: seq<Record>)
    requires SameButRevisions(a, b)
    ensures SameButRevisions(Mapped(paths, a, rs), Mapped(paths, b, rs))
    decreases |rs|
  {
    hide SameButRevisions, Applied;
    if rs != [] {
      AppliedCongruent(paths, a, b, rs[0]);
      MappedCongruent(paths, Applied(paths, a, rs[0]), Applied(paths, b, rs[0]), rs[1..]);
    }
  }

  lemma {:induction false} MappedAppend(paths: Paths, log: Log, a: seq<Record>, b: seq<Record>)
    ensures Mapped(paths, log, a + b) == Mapped(paths, Mapped(paths, log, a), b)
    decreases |a|
  {
    hide Applied;
    if a == [] {
      assert a + b == b;
    } else {
      assert (a + b)[1..] == a[1..] + b;
      MappedAppend(paths, Applied(paths, log, a[0]), a[1..], b);
    }
  }

  /**
   * Swapping the adjacent opening and end of one call anywhere in a transcript
   * changes nothing in the finished timeline but revision counts.
   */
  lemma SwapInTranscript(paths: Paths, log: Log, before: seq<Record>, callId: string, call: Call, ending: Ending, after: seq<Record>)
    ensures SameButRevisions(Mapped(paths, log, before + [Opens(callId, call), Ends(callId, ending)] + after),
                             Mapped(paths, log, before + [Ends(callId, ending), Opens(callId, call)] + after))
  {
    var o, e := Opens(callId, call), Ends(callId, ending);
    var mid := Mapped(paths, log, before);
    var a, b := Applied(paths, Applied(paths, mid, o), e), Applied(paths, Applied(paths, mid, e), o);
    OpenAndEndCommute(paths, mid, callId, call, ending);
    assert SameButRevisions(a, b);
    hide Applied, SameButRevisions;
    TwoRecords(paths, mid, o, e);
    TwoRecords(paths, mid, e, o);
    MappedAppend(paths, log, before, [o, e]);
    MappedAppend(paths, log, before, [e, o]);
    MappedAppend(paths, log, before + [o, e], after);
    MappedAppend(paths, log, before + [e, o], after);
    MappedCongruent(paths, a, b, after);
  }

  lemma TwoRecords(paths: Paths, log: Log, r: Record, t: Record)
    ensures Mapped(paths, log, [r, t]) == Applied(paths, Applied(paths, log, r), t)
  {
    hide Applied;
    assert [r, t][1..] == [t] && [t][1..] == [];
    assert Mapped(paths, Applied(paths, log, r), [t]) == Applied(paths, Applied(paths, log, r), t);
  }

  // ---------------------------------------------------------------- who wrote last

  /** A record of one call leaves every other call's item alone. */
  lemma OthersUntouched(paths: Paths, log: Log, r: Record, key: Key)
    requires (r.Opens? || r.Ends?) && key != (log.sessionId, r.callId)
    ensures ItemOf(Applied(paths, log, r).items, key) == ItemOf(log.items, key)
  {
    var mine := (log.sessionId, r.callId);
    var items := Applied(paths, log, r).items;
    var item := CallItem(paths, log.turn, r, Seen(log.items, mine), IsNew(log.items, mine));
    assert items == Placed(log.items, mine, item);
    hide CallItem, Applied;
    if Find(log.items, key).Some? {
      assert items[Find(log.items, key).value].key == key;
    }
  }

  /** What later records never change: identity, first turn, first body, raw input and our own write; revisions only grow. */
  predicate Continues(a: Item, b: Item) {
    && b.key == a.key && b.seqNo == a.seqNo && b.turn == a.turn && b.writeStatus == a.writeStatus
    && (a.contentText.Some? ==> b.contentText == a.contentText)
    && (a.rawInput.Some? ==> b.rawInput == a.rawInput)
    && a.revision <= b.revision
  }

  ghost predicate Lasts(a: Log, b: Log, key: Key) {
    ItemOf(a.items, key).Some? ==> ItemOf(b.items, key).Some? && Continues(ItemOf(a.items, key).value, ItemOf(b.items, key).value)
  }

  lemma CallItemContinues(paths: Paths, turn: nat, r: Record, item: Item)
    requires r.Opens? || r.Ends?
    ensures Continues(item, CallItem(paths, turn, r, item, false))
  {
    hide PathsOf, KindOf, DiffsOf, ChangedPaths, ExecStatus, PatchStatus, ExecBody;
  }

  lemma LastsStep(paths: Paths, log: Log, r: Record, key: Key)
    ensures Lasts(log, Applied(paths, log, r), key)
  {
    match r {
      case UserMessage =>
      case Meta(_) =>
      case TurnAborted => SameKeysSameFind(CanceledAll(log.items), log.items, key);
      case _ =>
        if key != (log.sessionId, r.callId) {
          OthersUntouched(paths, log, r, key);
        } else if !IsNew(log.items, key) {
          var item := Seen(log.items, key);
          CallItemContinues(paths, log.turn, r, item);
          PlacedSeen(log.items, key, CallItem(paths, log.turn, r, item, false));
          hide CallItem;
        }
    }
  }

  /** Number, turn and raw input are given to a call once, and the first body it gets stays: no records after change them. */
  lemma {:induction false} FirstSightingLasts(paths: Paths, log: Log, rs: seq<Record>, key: Key)
    ensures Lasts(log, Mapped(paths, log, rs), key)
    decreases |rs|
  {
    hide Applied;
    if rs != [] {
      LastsStep(paths, log, rs[0], key);
      FirstSightingLasts(paths, Applied(paths, log, rs[0]), rs[1..], key);
    }
  }

  /** Does the record end this call? */
  predicate EndsCall(r: Record, callId: string) {
    r.Ends? && r.callId == callId
  }

  ghost predicate HasStatus(log: Log, key: Key, status: AgentStatus) {
    ItemOf(log.items, key).Some? && ItemOf(log.items, key).value.agentStatus == status
  }

  lemma ClosedStays(paths: Paths, log: Log, r: Record, key: Key, status: AgentStatus)
    requires HasStatus(log, key, status) && !IsOpen(status) && !EndsCall(r, key.1)
    ensures HasStatus(Applied(paths, log, r), key, status)
  {
    match r {
      case Ends(cid, _) => OthersUntouched(paths, log, r, key);
      case Opens(cid, call) =>
        if (log.sessionId, cid) == key {
          PlacedSeen(log.items, key, Opened(paths, log.turn, call, Seen(log.items, key), false));
        } else {
          OthersUntouched(paths, log, r, key);
        }
      case TurnAborted => SameKeysSameFind(CanceledAll(log.items), log.items, key);
      case UserMessage =>
      case Meta(_) =>
    }
  }

  lemma {:induction false} ClosedStaysThrough(paths: Paths, log: Log, rs: seq<Record>, key: Key, status: AgentStatus)
    requires HasStatus(log, key, status) && !IsOpen(status) && forall r :: r in rs ==> !EndsCall(r, key.1)
    ensures HasStatus(Mapped(paths, log, rs), key, status)
    decreases |rs|
  {
    if rs != [] {
      assert rs[0] in rs;
      assert forall r :: r in rs[1..] ==> r in rs;
      hide HasStatus, Applied;
      ClosedStays(paths, log, rs[0], key, status);
      ClosedStaysThrough(paths, Applied(paths, log, rs[0]), rs[1..], key, status);
    }
  }

  /**
   * A call's status is the one its last ending gave it: opening records, aborted
   * turns, other calls and changes of session after it do not move it, and
   * nothing before it matters.
   */
  lemma LastEndingDecides(paths: Paths, log: Log, before: seq<Record>, callId: string, ending: Ending, after: seq<Record>)
    requires forall r :: r in after ==> !EndsCall(r, callId)
    ensures var mid := Mapped(paths, log, before);
            HasStatus(Mapped(paths, log, before + [Ends(callId, ending)] + after), (mid.sessionId, callId), StatusOf(ending).GetOr(Completed))
  {
    var mid := Mapped(paths, log, before);
    var key := (mid.sessionId, callId);
    var closed := Applied(paths, mid, Ends(callId, ending));
    PlacedSeen(mid.items, key, Ended(paths, mid.turn, ending, Seen(mid.items, key), IsNew(mid.items, key)));
    assert HasStatus(closed, key, StatusOf(ending).GetOr(Completed));
    hide Applied, HasStatus;
    assert [Ends(callId, ending)][1..] == [];
    MappedAppend(paths, log, before, [Ends(callId, ending)]);
    MappedAppend(paths, log, before + [Ends(callId, ending)], after);
    ClosedStaysThrough(paths, closed, after, key, StatusOf(ending).GetOr(Completed));
  }

  /** A failed end is not final: a plain output record after it makes the call completed. */
  lemma OutputResetsFailure(paths: Paths, log: Log, callId: string, e: ExecEnd, body: Option<string>)
    requires (e.exitCode.Some? && e.exitCode.value != 0) || e.status == Some("failed")
    ensures HasStatus(Mapped(paths, log, [Ends(callId, Exec(e))]), (log.sessionId, callId), Failed)
    ensures HasStatus(Mapped(paths, log, [Ends(callId, Exec(e)), Ends(callId, Output(body))]), (log.sessionId, callId), Completed)
  {
    var failed := [Ends(callId, Exec(e))];
    LastEndingDecides(paths, log, [], callId, Exec(e), []);
    LastEndingDecides(paths, log, failed, callId, Output(body), []);
    assert [] + failed + [] == failed;
    assert failed + [Ends(callId, Output(body))] + [] == [Ends(callId, Exec(e)), Ends(callId, Output(body))];
    assert failed[1..] == [];
    assert Mapped(paths, log, failed).sessionId == log.sessionId;
  }

  // ---------------------------------------------------------------- what one record says

  /** The item of a call after a record of it. */
  function After(paths: Paths, log: Log, r: Record): Item
    requires r.Opens? || r.Ends?
  {
    Seen(Applied(paths, log, r).items, (log.sessionId, r.callId))
  }

  lemma AfterIs(paths: Paths, log: Log, r: Record)
    requires r.Opens? || r.Ends?
    ensures var key := (log.sessionId, r.callId);
            && After(paths, log, r) == CallItem(paths, log.turn, r, Seen(log.items, key), IsNew(log.items, key))
            && ItemOf(Applied(paths, log, r).items, key) == Some(After(paths, log, r))
            && (IsNew(log.items, key) ==> Seen(log.items, key) == Shell(key, |log.items|))
  {
    var key := (log.sessionId, r.callId);
    PlacedSeen(log.items, key, CallItem(paths, log.turn, r, Seen(log.items, key), IsNew(log.items, key)));
    hide CallItem;
  }

  /** The types of parsed command that tell what a command line does. */
  predicate Recognised(ctype: Option<string>) {
    ctype == Some("read") || ctype == Some("search") || ctype == Some("list_files")
  }

  predicate FirstRecognised(parsed: seq<Parsed>, i: nat) {
    i < |parsed| && Recognised(parsed[i].ctype) && forall j :: 0 <= j < i ==> !Recognised(parsed[j].ctype)
  }

  lemma {:induction false} KindMeans(parsed: seq<Parsed>)
    ensures forall i: nat :: FirstRecognised(parsed, i) ==> KindOf(parsed) == Some(if parsed[i].ctype == Some("read") then Read else Search)
    ensures (forall i :: 0 <= i < |parsed| ==> !Recognised(parsed[i].ctype)) ==> KindOf(parsed).None?
  {
    if parsed != [] {
      KindMeans(parsed[1..]);
      forall i: nat | FirstRecognised(parsed, i) && i > 0
        ensures KindOf(parsed) == Some(if parsed[i].ctype == Some("read") then Read else Search)
      {
        assert !Recognised(parsed[0].ctype);
        assert forall j :: 0 <= j < i - 1 ==> parsed[1..][j] == parsed[j + 1];
        assert FirstRecognised(parsed[1..], i - 1) && parsed[1..][i - 1] == parsed[i];
      }
      assert forall i :: 0 <= i < |parsed| - 1 ==> parsed[1..][i] == parsed[i + 1];
    }
  }

  predicate HasPath(c: Parsed) {
    c.path.Some? && c.path.value != ""
  }

  /** How many of the commands have a path. */
  function PathCount(parsed: seq<Parsed>): nat {
    if parsed == [] then 0 else (if HasPath(parsed[0]) then 1 else 0) + PathCount(parsed[1..])
  }

  /** A command's path, joined to the directory, stands behind those of the commands before it; and there are no others. */
  lemma {:induction false} PathsMean(parsed: seq<Parsed>, cwd: Option<string>, abs: (string, Option<string>) -> Path, i: nat)
    ensures |PathsOf(parsed, cwd, abs)| == PathCount(parsed)
    ensures i < |parsed| ==> PathCount(parsed[..i]) <= PathCount(parsed)
    ensures i < |parsed| && HasPath(parsed[i]) ==>
              PathCount(parsed[..i]) < PathCount(parsed) && PathsOf(parsed, cwd, abs)[PathCount(parsed[..i])] == abs(parsed[i].path.value, cwd)
  {
    if parsed != [] {
      var rest := parsed[1..];
      PathsMean(rest, cwd, abs, if i > 0 then i - 1 else 0);
      if 0 < i < |parsed| {
        assert parsed[..i][1..] == rest[..i - 1] && parsed[i] == rest[i - 1];
      }
    }
  }

  /** The first text there is, unless it is empty. */
  predicate BodyFrom(item: Item, before: Item, a: Option<string>, b: Option<string>, c: Option<string>) {
    var body := if a.Some? then a else if b.Some? then b else c;
    item.contentText == if before.contentText.Some? || body == Some("") then before.contentText else body
  }

  /** What no end record touches. */
  predicate SameCall(item: Item, before: Item, isNew: bool, turn: nat) {
    && item.key == before.key && item.seqNo == before.seqNo && item.rawInput == before.rawInput && item.writeStatus == before.writeStatus
    && item.turn == (if isNew then turn else before.turn) && item.revision == before.revision + 1
  }

  /**
   * The end of a command, field by field: it failed exactly if its exit code is
   * there and not zero or its status says so; its kind is that of the first
   * parsed command that tells; its locations are the paths of all that have one.
   */
  lemma ExecEndMeans(paths: Paths, log: Log, callId: string, e: ExecEnd)
    ensures var key := (log.sessionId, callId);
            var before, item := Seen(log.items, key), After(paths, log, Ends(callId, Exec(e)));
            && ItemOf(Applied(paths, log, Ends(callId, Exec(e))).items, key) == Some(item)
            && item.agentStatus == (if (e.exitCode.Some? && e.exitCode.value != 0) || e.status == Some("failed") then Failed else Completed)
            && (forall i: nat :: FirstRecognised(e.parsed, i) ==> item.kind == if e.parsed[i].ctype == Some("read") then Read else Search)
            && ((forall i :: 0 <= i < |e.parsed| ==> !Recognised(e.parsed[i].ctype)) ==> item.kind == before.kind)
            && (PathCount(e.parsed) == 0 ==> item.locations == before.locations && item.projectLabel == before.projectLabel)
            && (PathCount(e.parsed) > 0 ==> |item.locations| == PathCount(e.parsed) && item.projectLabel == paths.marker(item.locations[0]))
            && (forall i: nat :: i < |e.parsed| && HasPath(e.parsed[i]) ==>
                  PathCount(e.parsed[..i]) < |item.locations| && item.locations[PathCount(e.parsed[..i])] == paths.abs(e.parsed[i].path.value, e.cwd))
            && item.cwd == (if before.cwd.Some? then before.cwd else e.cwd)
            && BodyFrom(item, before, e.aggregated, e.stdout, e.stderr)
            && SameCall(item, before, IsNew(log.items, key), log.turn) && item.title == before.title && item.diffs == before.diffs
  {
    AfterIs(paths, log, Ends(callId, Exec(e)));
    KindMeans(e.parsed);
    forall i: nat { PathsMean(e.parsed, e.cwd, paths.abs, i); }
    hide Applied, After, Seen, PathsOf, KindOf, FirstRecognised, PathCount, HasPath, Recognised;
  }

  /**
   * The end of a patch, field by field: it failed exactly if it says that it did
   * not succeed; every changed file has its diff, an added one with its content, a
   * deleted one with the content it had, any other with the unified diff.
   */
  lemma PatchEndMeans(paths: Paths, log: Log, callId: string, p: PatchEnd)
    ensures var key := (log.sessionId, callId);
            var before, item := Seen(log.items, key), After(paths, log, Ends(callId, Patch(p)));
            && ItemOf(Applied(paths, log, Ends(callId, Patch(p))).items, key) == Some(item)
            && item.agentStatus == (if p.success == Some(false) then Failed else Completed)
            && item.kind == Edit && |item.diffs| == |p.changes|
            && (forall i :: 0 <= i < |p.changes| ==>
                  item.diffs[i] == match p.changes[i]
                                   case Change(path, "add", content, _) => FileDiff(path, None, content.GetOr(""))
                                   case Change(path, "delete", content, _) => FileDiff(path, content, "")
                                   case Change(path, _, _, diff) => FileDiff(path, None, diff.GetOr("")))
            && (p.changes == [] ==> item.title == before.title && item.locations == before.locations && item.projectLabel == before.projectLabel)
            && (p.changes != [] ==>
                  && item.title == "패치 " + p.names && |item.locations| == |p.changes| && item.projectLabel == paths.marker(p.changes[0].path)
                  && forall i :: 0 <= i < |p.changes| ==> item.locations[i] == p.changes[i].path)
            && item.cwd == before.cwd && BodyFrom(item, before, p.stdout, p.stderr, None)
            && SameCall(item, before, IsNew(log.items, key), log.turn)
  {
    AfterIs(paths, log, Ends(callId, Patch(p)));
    ChangesMean(p.changes);
    hide Applied, After, Seen, DiffsOf, ChangedPaths;
  }

  lemma {:induction false} ChangesMean(changes: seq<Change>)
    ensures |DiffsOf(changes)| == |changes|
    ensures forall i :: 0 <= i < |changes| ==> DiffsOf(changes)[i] == DiffOf(changes[i]) && ChangedPaths(changes)[i] == changes[i].path
  {
    if changes != [] {
      ChangesMean(changes[1..]);
    }
  }

  /** A plain output completes the call whatever it was. */
  lemma OutputMeans(paths: Paths, log: Log, callId: string, body: Option<string>)
    ensures var key := (log.sessionId, callId);
            var before, item := Seen(log.items, key), After(paths, log, Ends(callId, Output(body)));
            && item == before.(agentStatus := Completed, turn := item.turn, revision := item.revision, contentText := item.contentText)
            && BodyFrom(item, before, body, None, None) && SameCall(item, before, IsNew(log.items, key), log.turn)
  {
    AfterIs(paths, log, Ends(callId, Output(body)));
    hide Applied, After, Seen;
  }

  /** What an opening record of this kind, title and input leaves: a running item, or blanks filled. */
  predicate OpenedAs(item: Item, before: Item, isNew: bool, turn: nat, kind: ItemKind, title: string, raw: string, workdir: Option<string>) {
    if isNew then item == Item(before.key, turn, before.seqNo, kind, title, [], None, workdir, [], None, Some(raw), InProgress, NoWrite, 0)
    else
      && item == before.(title := item.title, kind := item.kind, rawInput := item.rawInput, cwd := item.cwd, revision := before.revision + 1)
      && item.title == (if before.title == "" then title else before.title)
      && item.kind == (if before.kind == Other then kind else before.kind)
      && item.rawInput == (if before.rawInput.None? then Some(raw) else before.rawInput)
      && item.cwd == (if workdir.Some? then workdir else before.cwd)
  }

  /** The openings of the three kinds of function call, field by field. */
  lemma FunctionCallMeans(paths: Paths, log: Log, callId: string, f: FunctionCall)
    ensures var key := (log.sessionId, callId);
            var before, isNew, item := Seen(log.items, key), IsNew(log.items, key), After(paths, log, Opens(callId, FunctionOpening(f)));
            match f
            case ExecCommand(line, raw, workdir) => OpenedAs(item, before, isNew, log.turn, Execute, line, raw, workdir)
            case UpdatePlan(steps, raw) => OpenedAs(item, before, isNew, log.turn, Plan, "계획 " + steps + "단계", raw, None)
            case AnyFunction(name, brief, raw) => OpenedAs(item, before, isNew, log.turn, Other, name + brief, raw, None)
  {
    AfterIs(paths, log, Opens(callId, FunctionOpening(f)));
    hide Applied, After, Seen, IsNew;
  }

  /** And of the three kinds of custom call. */
  lemma CustomCallMeans(paths: Paths, log: Log, callId: string, c: CustomCall)
    ensures var key := (log.sessionId, callId);
            var before, isNew, item := Seen(log.items, key), IsNew(log.items, key), After(paths, log, Opens(callId, CustomOpening(c)));
            match c
            case ApplyPatch(raw) => OpenedAs(item, before, isNew, log.turn, Edit, "패치 적용", raw, None)
            case ExecInput(line, raw) => OpenedAs(item, before, isNew, log.turn, Execute, line, raw, None)
            case AnyCustom(name, raw) => OpenedAs(item, before, isNew, log.turn, Other, name, raw, None)
  {
    AfterIs(paths, log, Opens(callId, CustomOpening(c)));
    hide Applied, After, Seen, IsNew;
  }

  /** An aborted turn cancels what is pending or running, counting one revision each, and touches nothing that has ended. */
  lemma AbortedTurnMeans(paths: Paths, log: Log)
    ensures var items := Applied(paths, log, TurnAborted).items;
            && |items| == |log.items|
            && forall i :: 0 <= i < |items| ==>
                 items[i] == if log.items[i].agentStatus == Pending || log.items[i].agentStatus == InProgress
                             then log.items[i].(agentStatus := Canceled, revision := log.items[i].revision + 1) else log.items[i]
  {}

  /**
   * Turns are counted by the user's messages, and the session is the one the last
   * record that names any names; no other record touches either.
   */
  lemma {:induction false} TurnsAndSession(paths: Paths, log: Log, rs: seq<Record>)
    ensures Mapped(paths, log, rs).turn == log.turn + multiset(rs)[UserMessage]
    ensures (forall i :: 0 <= i < |rs| && rs[i].Meta? ==> rs[i].sessionId == "") ==> Mapped(paths, log, rs).sessionId == log.sessionId
    ensures forall i :: 0 <= i < |rs| && rs[i].Meta? && rs[i].sessionId != "" && (forall j :: i < j < |rs| && rs[j].Meta? ==> rs[j].sessionId == "") ==>
              Mapped(paths, log, rs).sessionId == rs[i].sessionId
    decreases |rs|
  {
    if rs != [] {
      var next, rest := Applied(paths, log, rs[0]), rs[1..];
      assert rs == [rs[0]] + rest;
      TurnsAndSession(paths, next, rest);
      hide CallItem, Placed, CanceledAll;
      assert next.turn == log.turn + if rs[0] == UserMessage then 1 else 0;
      assert next.sessionId == if rs[0].Meta? && rs[0].sessionId != "" then rs[0].sessionId else log.sessionId;
      hide Applied;
      forall i | 0 <= i < |rs| && rs[i].Meta? && rs[i].sessionId != "" && (forall j :: i < j < |rs| && rs[j].Meta? ==> rs[j].sessionId == "")
        ensures Mapped(paths, log, rs).sessionId == rs[i].sessionId
      {
        assert forall j :: 0 <= j < |rest| ==> rest[j] == rs[j + 1];
        if i > 0 {
          assert rest[i - 1] == rs[i];
        }
      }
    }
  }
}
