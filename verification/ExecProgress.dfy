/**
 * Why the exec channel drives its two halves side by side: no reachable state of
 * that design wedges, while the one-`select!` design has a reachable state in
 * which nothing can ever move again.
 *
 * Progress is measured over internal steps: everything except a new server
 * message, a hang-up, a caller, a write error, or the consumer walking away. The
 * consumer draining its queue counts as internal, because the contract of the
 * event receiver is to be drained or dropped.
 */
module ExecProgress {
  import opened Wrappers
  import opened InputPath
  import opened ExecPump

  predicate Internal(l: Label) {
    match l
    case Arrive(_) => false
    case HangUp => false
    case ConsumerDrop => false
    case InputSide(i) => !(i.CheckGate? || i.TrySend? || i.DropSenders? || i.WriteError?)
    case _ => true
  }

  /** The steps that carry server messages to the reader: none of them is the writer's. */
  predicate ReaderWard(l: Label) {
    l.Deliver? || l.ReadSide? || l.ConsumerTake?
  }

  // ---------------------------------------------------------------- a measure

  function ReaderRank(pc: ReaderPc): nat {
    match pc
    case Reading => 4
    case ParkedOnStderr(_) => 6
    case ClosingGate => 3
    case Releasing => 2
    case ReaderDone => 0
  }

  function ReadRank(s: State): nat {
    5 * |s.transport.net| + 4 * |s.transport.chanQ| + ReaderRank(s.reader.pc) + |s.events.queue|
  }

  function QueueRank(queue: seq<Bytes>): nat {
    SumLen(queue) + 2 * |queue|
  }

  function WriterRank(pc: WriterPc): nat {
    match pc
    case AwaitStart => 5
    case AwaitInput => 4
    case Writing(m, sent) => if sent <= |m| then 5 + |m| - sent else 5
    case SendingEof => 3
    case Draining => 2
    case DrainingClosed => 1
    case WriterDone => 0
  }

  function PhaseRank(p: Phase): nat {
    match p
    case Requesting => 4
    case Attempted => 2
    case Finished => 0
  }

  function Rank(s: State): nat {
    ReadRank(s) + InputRank(s.input) + PhaseRank(s.phase)
  }

  lemma ReadDecreases(s: State, r: ReaderLabel)
    requires ReaderEnabled(s, r)
    ensures ReadRank(ReaderApply(s, r)) < ReadRank(s)
    ensures ReaderApply(s, r).input == s.input && ReaderApply(s, r).phase == s.phase
  {
    if r.Read? {
      var r' := Handle(s.reader, s.transport.chanQ[0]);
      assert ReaderRank(r'.pc) <= ReaderRank(s.reader.pc) + 2;
    }
  }

  /** The measure a WINDOW_ADJUST waits on falls with every step that carries messages to the reader. */
  lemma ReaderWardDecreases(s: State, l: Label)
    requires Enabled(s, l) && ReaderWard(l)
    ensures ReadRank(Apply(s, l)) < ReadRank(s)
    ensures Apply(s, l).input == s.input && Apply(s, l).phase == s.phase
  {
    if l.ReadSide? {
      ReadDecreases(s, l.r);
    }
  }

  /** No step of the writer or of a caller adds to it. */
  lemma WriterNeverDelaysReader(s: State, i: InputLabel)
    requires InputEnabled(s, i)
    ensures ReadRank(Apply(s, InputSide(i))) == ReadRank(s)
  {}

  function InputRank(i: Input): nat {
    QueueRank(i.queue) + WriterRank(i.pc)
  }

  lemma WriterDecreases(s: State, i: InputLabel)
    requires WireExact(s.input) && InputEnabled(s, i) && Internal(InputSide(i))
    ensures InputRank(InputApply(s, i)) < InputRank(s.input)
  {
    match i
    case TakeInput => assert SumLen(s.input.queue) == |s.input.queue[0]| + SumLen(s.input.queue[1..]);
    case CountOne => assert SumLen(s.input.queue) == |s.input.queue[0]| + SumLen(s.input.queue[1..]);
    case _ =>
  }

  lemma InternalDecreases(s: State, l: Label)
    requires Inv(s) && Enabled(s, l) && Internal(l)
    ensures Rank(Apply(s, l)) < Rank(s)
  {
    hide ReaderExact, ReaderStops, EventsExact, InputConserved, WireExact;
    if l.InputSide? {
      WriterDecreases(s, l.i);
      WriterNeverDelaysReader(s, l.i);
    } else if ReaderWard(l) {
      ReaderWardDecreases(s, l);
    }
  }

  /** No schedule of internal steps is longer than the rank of the state it starts in. */
  lemma {:induction false} InternalRunsEnd(s: State, labels: seq<Label>, t: State)
    requires Inv(s) && Runs(s, labels, t)
    requires forall l :: l in labels ==> Internal(l)
    ensures |labels| <= Rank(s) - Rank(t)
    decreases |labels|
  {
    if labels != [] {
      assert labels[0] in labels;
      InvStep(s, labels[0]);
      InternalDecreases(s, labels[0]);
      InternalRunsEnd(Apply(s, labels[0]), labels[1..], t);
    }
  }

  // ---------------------------------------------------------------- no wedge

  /** Nothing is left to read and the connection is up: the next move is the server's. */
  predicate AwaitingServer(s: State) {
    && s.phase.Attempted? && s.reader.pc.Reading?
    && s.transport.chanQ == [] && s.transport.net == [] && !s.transport.hungUp
  }

  /**
   * While the reader is not done, whatever the writer is parked on, some
   * reader-ward step is possible as long as a server message is still ahead.
   */
  lemma ReaderNeverBlockedByWriter(s: State) returns (l: Label)
    requires Inv(s) && s.phase.Attempted? && !s.reader.pc.ReaderDone?
    requires s.transport.net != [] || s.transport.chanQ != []
    ensures Enabled(s, l) && ReaderWard(l)
  {
    match s.reader.pc
    case Reading => l := if s.transport.chanQ != [] then ReadSide(Read) else Deliver;
    case ParkedOnStderr(_) => l := if CanEmit(s.events) then ReadSide(StderrSent) else ConsumerTake;
    case ClosingGate => l := ReadSide(SetGate);
    case Releasing => l := ReadSide(Release);
  }

  /** A state that is neither finished nor waiting for the server can move by itself. */
  lemma NoWedge(s: State) returns (l: Label)
    requires Inv(s) && !s.phase.Finished? && !AwaitingServer(s)
    ensures Enabled(s, l) && Internal(l)
  {
    if s.phase.Requesting? {
      l := ExecQueued;
    } else if s.reader.pc.ReaderDone? {
      match s.input.pc
      case AwaitStart => l := InputSide(NeverStarted);
      case AwaitInput => l := InputSide(ChannelOver);
      case Writing(_, _) => l := InputSide(Cut);
      case SendingEof => l := InputSide(SentEof);
      case Draining => l := InputSide(CloseQueue);
      case DrainingClosed => l := InputSide(if s.input.queue != [] then CountOne else CountedAll);
      case WriterDone => l := if CanEmit(s.events) then Conclude else ConsumerTake;
    } else if s.transport.net != [] || s.transport.chanQ != [] {
      l := ReaderNeverBlockedByWriter(s);
    } else {
      match s.reader.pc
      case Reading => l := ReadSide(ReadEnd);
      case ParkedOnStderr(_) => l := if CanEmit(s.events) then ReadSide(StderrSent) else ConsumerTake;
      case ClosingGate => l := ReadSide(SetGate);
      case Releasing => l := ReadSide(Release);
    }
  }

  /** The reader waits on stderr only for a consumer that is there and 256 events behind; the connection loop only for 100 messages in the channel. */
  lemma BackPressure(s: State)
    requires Reachable(s) && s.phase.Attempted?
    ensures s.reader.pc.ParkedOnStderr? ==> (Enabled(s, ReadSide(StderrSent)) <==> !(s.events.open && |s.events.queue| == 256))
    ensures s.reader.pc.ParkedOnStderr? ==> Enabled(Apply(s, ConsumerDrop), ReadSide(StderrSent))
    ensures s.transport.net != [] ==> (Enabled(s, Deliver) <==> |s.transport.chanQ| < 100)
    ensures s.reader.pc.ReaderDone? && s.input.pc.WriterDone? ==> (Enabled(s, Conclude) <==> !(s.events.open && |s.events.queue| == 256))
  {
    ReachableInv(s);
  }

  /** A schedule that no internal step can extend. */
  ghost predicate Exhausted(s: State) {
    forall l :: Internal(l) ==> !Enabled(s, l)
  }

  lemma ExhaustedMeansSettled(s: State)
    requires Inv(s) && Exhausted(s)
    ensures s.phase.Finished? || AwaitingServer(s)
  {
    if !s.phase.Finished? && !AwaitingServer(s) {
      var l := NoWedge(s);
    }
  }

  /** All that was accepted is on the wire. */
  predicate AllWritten(s: State) {
    s.input.queue == [] && s.input.written == s.input.accepted && s.input.wire == Flatten(s.input.accepted)
  }

  /** The writer waits in the middle of a message for the server to open the window. */
  predicate ParkedOnWindow(s: State) {
    s.input.pc.Writing? && s.input.pc.sent < |s.input.pc.msg| && s.window == 0
  }

  /** A started writer that has given nothing up can move, unless it is done with what it has or waits for window. */
  lemma WriterMoves(s: State) returns (i: InputLabel)
    requires InputExact(s.stream, s.input) && s.phase.Attempted? && s.reader.started && s.input.lost == []
    ensures AllWritten(s) || ParkedOnWindow(s) || (InputEnabled(s, i) && Internal(InputSide(i)))
  {
    i := SentEof;
    if s.input.queue == [] && !s.input.pc.Writing? {
      assert s.input.accepted == s.input.written;
      assert s.input.wire == Flatten(s.input.accepted);
    }
    match s.input.pc
    case AwaitStart => i := StartWriting;
    case AwaitInput => i := TakeInput;
    case Writing(m, sent) => i := if sent == |m| then Written else SendSome(1);
    case SendingEof =>
    case Draining => i := CloseQueue;
    case DrainingClosed => i := if s.input.queue == [] then CountedAll else CountOne;
    case WriterDone =>
  }

  lemma ExhaustedWriter(s: State)
    requires Inv(s) && Exhausted(s) && AwaitingServer(s) && s.reader.started && s.input.lost == []
    ensures AllWritten(s) || ParkedOnWindow(s)
  {
    var i := WriterMoves(s);
    hide Inv, AllWritten, ParkedOnWindow, InputEnabled;
    assert Internal(InputSide(i)) ==> !Enabled(s, InputSide(i));
  }

  /**
   * Input arrives: where internal steps run out with the channel open and no
   * write has erred, all accepted input is on the wire, or the server has left
   * the window at zero in the middle of a message. Once it opens the window the
   * writer goes on.
   */
  lemma AcceptedInputArrives(window: nat, before: seq<Label>, s: State, labels: seq<Label>, t: State)
    requires Runs(Init(true, window), before, s) && InputSide(WriteError) !in before
    requires Runs(s, labels, t) && forall l :: l in labels ==> Internal(l)
    requires Exhausted(t) && !t.phase.Finished? && t.reader.started
    ensures t.input.lost == [] && (AllWritten(t) || ParkedOnWindow(t))
    ensures |t.input.wire| + t.window == window + Granted(t.transport.arrived)
    ensures window + Granted(t.transport.arrived) >= SumLen(t.input.accepted) ==> t.input.wire == Flatten(t.input.accepted)
  {
    RunsCompose(Init(true, window), before, s, labels, t);
    assert InputSide(WriteError) !in before + labels;
    InvRun(Init(true, window), before + labels, t);
    ExhaustedMeansSettled(t);
    NothingGivenUp(true, window, before + labels, t);
    ExhaustedWriter(t);
    WindowIsExact(true, window, before + labels, t);
    assert Delivered(t) == t.transport.arrived;
    if ParkedOnWindow(t) {
      WireIsShort(t.input);
    }
  }

  /** A writer in the middle of a message has not put everything on the wire. */
  lemma WireIsShort(i: Input)
    requires InputConserved(i) && WireExact(i) && i.pc.Writing? && i.pc.sent < |i.pc.msg|
    ensures |i.wire| < SumLen(i.accepted)
  {
    assert i.accepted == i.written + ([i.pc.msg] + i.queue);
    SumLenAppend(i.written, [i.pc.msg] + i.queue);
    SumLenAppend([i.pc.msg], i.queue);
    FlattenSingle(i.pc.msg);
    FlattenLength(i.written);
  }

  lemma {:induction false} RunsCompose(s: State, a: seq<Label>, t: State, b: seq<Label>, u: State)
    requires Runs(s, a, t) && Runs(t, b, u)
    ensures Runs(s, a + b, u)
    decreases |a|
  {
    if a == [] {
      assert a + b == b;
    } else {
      assert (a + b)[1..] == a[1..] + b;
      hide Enabled, Apply;
      RunsCompose(Apply(s, a[0]), a[1..], t, b, u);
    }
  }

  lemma {:induction false} InternalKeepsArrived(s: State, labels: seq<Label>, t: State)
    requires Runs(s, labels, t) && forall l :: l in labels ==> Internal(l)
    ensures t.transport.arrived == s.transport.arrived && t.transport.hungUp == s.transport.hungUp
    decreases |labels|
  {
    if labels != [] {
      assert labels[0] in labels;
      InternalKeepsArrived(Apply(s, labels[0]), labels[1..], t);
    }
  }

  /**
   * Liveness. From any reachable state, internal steps run out after at most
   * Rank(s) of them, and where they run out the exec has finished or is waiting
   * for the server with every message it sent, WINDOW_ADJUST included, delivered
   * and read. If the server closed the channel, refused the request or hung up,
   * it has finished. A streaming exec that waits with nothing given up has put all
   * its input on the wire, or the writer is in the middle of a message and the
   * window is used up.
   */
  lemma EveryRunSettles(s: State, labels: seq<Label>, t: State)
    requires Reachable(s) && Runs(s, labels, t)
    requires forall l :: l in labels ==> Internal(l)
    ensures |labels| <= Rank(s)
    ensures Exhausted(t) ==> t.phase.Finished? || (AwaitingServer(t) && t.reader.seen == s.transport.arrived)
    ensures Exhausted(t) && (s.transport.hungUp || exists m :: m in s.transport.arrived && Ends(m)) ==> t.phase.Finished?
    ensures Exhausted(t) && !t.phase.Finished? && t.stream && t.reader.started && t.input.lost == [] ==> AllWritten(t) || ParkedOnWindow(t)
  {
    ReachableInv(s);
    InvRun(s, labels, t);
    InternalRunsEnd(s, labels, t);
    InternalKeepsArrived(s, labels, t);
    if Exhausted(t) {
      ExhaustedMeansSettled(t);
      if AwaitingServer(t) {
        if t.reader.started && t.input.lost == [] {
          ExhaustedWriter(t);
        }
        assert t.reader.seen == t.transport.arrived;
        assert forall i :: 0 <= i < |t.reader.seen| ==> !Ends(t.reader.seen[i]);
      }
    }
  }

  // ---------------------------------------------------------------- the one-select design

  /** In one `select!`, an await inside a branch suspends every other branch: while a write is in hand nothing else runs. */
  predicate SelectEnabled(s: State, l: Label) {
    Enabled(s, l) && (s.input.pc.Writing? ==> !l.ReadSide?)
  }

  predicate SelectRuns(s: State, labels: seq<Label>, t: State)
    decreases |labels|
  {
    if labels == [] then s == t
    else SelectEnabled(s, labels[0]) && SelectRuns(Apply(s, labels[0]), labels[1..], t)
  }

  /** A writer parked on an empty window, its WINDOW_ADJUST behind a full channel queue. */
  ghost predicate Wedged(s: State) {
    && s.phase.Attempted?
    && s.input.pc.Writing? && s.input.pc.sent < |s.input.pc.msg|
    && s.window == 0 && !s.done && s.reader.pc.Reading?
    && |s.transport.chanQ| == CHANNEL_QUEUE
    && (exists n :: 0 < n && WindowAdjust(n) in s.transport.net)
    && s.events.queue == []
  }

  lemma {:induction false} SelectRunsCompose(s: State, a: seq<Label>, t: State, b: seq<Label>, u: State)
    requires SelectRuns(s, a, t) && SelectRuns(t, b, u)
    ensures SelectRuns(s, a + b, u)
    decreases |a|
  {
    if a == [] {
      assert a + b == b;
    } else {
      assert (a + b)[1..] == a[1..] + b;
      SelectRunsCompose(Apply(s, a[0]), a[1..], t, b, u);
    }
  }

  /** k more chunks of stdout arrive while the write is parked. */
  lemma {:induction false} FillChannel(s: State, k: nat) returns (labels: seq<Label>, t: State)
    requires !s.transport.hungUp && s.transport.net == []
    requires |s.transport.chanQ| + k <= CHANNEL_QUEUE
    ensures SelectRuns(s, labels, t)
    ensures t == s.(transport := t.transport)
    ensures t.transport.net == [] && !t.transport.hungUp && |t.transport.chanQ| == |s.transport.chanQ| + k
    decreases k
  {
    if k == 0 {
      labels, t := [], s;
    } else {
      var a := Apply(s, Arrive(Data([])));
      var b := Apply(a, Deliver);
      assert a.transport.net == [Data([])];
      var more, u := FillChannel(b, k - 1);
      labels, t := [Arrive(Data([])), Deliver] + more, u;
      assert labels[1..] == [Deliver] + more;
      assert labels[1..][1..] == more;
    }
  }

  /** The server accepts the exec. */
  lemma AcceptExec(s0: State) returns (labels: seq<Label>, t: State)
    requires s0 == Init(true, 0)
    ensures SelectRuns(s0, labels, t)
    ensures t == s0.(phase := Attempted, transport := s0.transport.(arrived := [Success]),
                     reader := s0.reader.(started := true, readies := 1, seen := [Success]))
  {
    var s1 := Apply(s0, ExecQueued);
    var s2 := Apply(s1, Arrive(Success));
    var s3 := Apply(s2, Deliver);
    t := Apply(s3, ReadSide(Read));
    labels := [ExecQueued, Arrive(Success), Deliver, ReadSide(Read)];
    assert SelectRuns(t, labels[1..][1..][1..][1..], t);
    assert SelectRuns(s3, labels[1..][1..][1..], t);
    assert SelectRuns(s2, labels[1..][1..], t);
    assert SelectRuns(s1, labels[1..], t);
  }

  /** A keystroke passes the gate, is queued, and is taken by the writer. */
  lemma TypeOneByte(s0: State) returns (labels: seq<Label>, t: State)
    requires s0.stream && s0.phase.Attempted? && s0.reader.started && !s0.ended && !s0.done
    requires s0.input == Init(true, 0).input
    ensures SelectRuns(s0, labels, t)
    ensures t == s0.(input := s0.input.(pc := Writing([0], 0), accepted := [[0]]))
  {
    var s1 := Apply(s0, InputSide(CheckGate([0])));
    var s2 := Apply(s1, InputSide(TrySend));
    var s3 := Apply(s2, InputSide(StartWriting));
    t := Apply(s3, InputSide(TakeInput));
    labels := [InputSide(CheckGate([0])), InputSide(TrySend), InputSide(StartWriting), InputSide(TakeInput)];
    assert SelectRuns(t, labels[1..][1..][1..][1..], t);
    assert SelectRuns(s3, labels[1..][1..][1..], t);
    assert SelectRuns(s2, labels[1..][1..], t);
    assert SelectRuns(s1, labels[1..], t);
  }

  /** No step but a write error leaves a wedged state of the one-select design, and none of its steps is internal. */
  lemma WedgedStep(s: State, l: Label)
    requires Wedged(s) && SelectEnabled(s, l) && l != InputSide(WriteError)
    ensures Wedged(Apply(s, l)) && !Internal(l)
  {
    var n :| 0 < n && WindowAdjust(n) in s.transport.net;
    assert WindowAdjust(n) in Apply(s, l).transport.net;
  }

  /**
   * Once wedged, the one-select design stays wedged: whatever more arrives,
   * whatever callers do and even if the connection goes, nothing inside it moves
   * again until a write errs. In the split design the reader can move in every
   * state on the way.
   */
  lemma {:induction false} WedgedForever(s: State, labels: seq<Label>, t: State)
    requires Wedged(s) && SelectRuns(s, labels, t) && InputSide(WriteError) !in labels
    ensures Wedged(t) && forall l :: l in labels ==> !Internal(l)
    ensures forall l :: Internal(l) ==> !SelectEnabled(t, l)
    ensures Enabled(t, ReadSide(Read)) && Internal(ReadSide(Read))
    decreases |labels|
  {
    if labels == [] {
      forall l | Internal(l) ensures !SelectEnabled(t, l) {
        if SelectEnabled(t, l) {
          WedgedStep(t, l);
        }
      }
    } else {
      WedgedStep(s, labels[0]);
      hide Wedged, Apply, SelectEnabled, Internal;
      WedgedForever(Apply(s, labels[0]), labels[1..], t);
    }
  }

  /** The one-select design reaches a state that no internal step leaves, with the WINDOW_ADJUST it needs already sent. */
  lemma OneSelectWedges() returns (labels: seq<Label>, t: State)
    ensures SelectRuns(Init(true, 0), labels, t)
    ensures Wedged(t)
    ensures forall l :: Internal(l) ==> !SelectEnabled(t, l)
    ensures Enabled(t, ReadSide(Read))
  {
    var a0, s0 := AcceptExec(Init(true, 0));
    var a1, s := TypeOneByte(s0);
    SelectRunsCompose(Init(true, 0), a0, s0, a1, s);
    var a := a0 + a1;
    var b, u := FillChannel(s, CHANNEL_QUEUE);
    t := Apply(u, Arrive(WindowAdjust(1)));
    SelectRunsCompose(Init(true, 0), a, s, b, u);
    assert SelectRuns(u, [Arrive(WindowAdjust(1))], t) by {
      assert SelectRuns(t, [], t);
    }
    SelectRunsCompose(Init(true, 0), a + b, u, [Arrive(WindowAdjust(1))], t);
    labels := a + b + [Arrive(WindowAdjust(1))];
    assert t.transport.net == [WindowAdjust(1)];
    assert WindowAdjust(1) in t.transport.net;
  }
}
