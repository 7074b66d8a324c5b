/**
 * The duplex exec channel of an SSH session as a labelled transition system:
 * a reader and a writer that run side by side, the bounded queues between them
 * and their neighbours, and the transport's connection loop.
 *
 * Three facts about the transport are rules of the environment: its connection
 * loop parks while the channel queue is full, only that loop delivers
 * WINDOW_ADJUST, and a write waits for window.
 *
 * Cancelling drops the whole run, so a cancelled run is a run that stops
 * anywhere before `Finished`; everything proved of every reachable state holds
 * of it too.
 */
module ExecPump {
  import opened Wrappers
  import opened InputPath

  const EXEC_EVENT_QUEUE: nat := 256
  const CHANNEL_QUEUE: nat := 100

  // ---------------------------------------------------------------- state

  datatype ChanMsg =
    | Data(bytes: Bytes)
    | ExtData(ext: nat, bytes: Bytes)
    | Success
    | Failure
    | ExitStatus(status: nat)
    | ExitSignal(name: string)
    | Eof
    | Close
    | WindowAdjust(amount: nat)
    | Other

  datatype ErrorKind = StartFailed | Rejected

  datatype ExecEvent =
    | Stderr(bytes: Bytes)
    | Exit(code: Option<nat>, signal: Option<string>, undelivered: nat)
    | Error(kind: ErrorKind, undelivered: nat)

  /** The server's messages on their way to the reader. */
  datatype Transport = Transport(
    arrived: seq<ChanMsg>,  // everything the server sent
    net: seq<ChanMsg>,      // not yet taken by the connection loop
    hungUp: bool,           // the connection is gone: nothing more will arrive
    chanQ: seq<ChanMsg>     // the channel's receive queue
  )

  datatype ReaderPc = Reading | ParkedOnStderr(chunk: Bytes) | ClosingGate | Releasing | ReaderDone

  datatype Reader = Reader(
    pc: ReaderPc,
    rejected: bool,
    code: Option<nat>,
    signal: Option<string>,
    started: bool,          // the writer was told to start
    readies: nat,           // Ready statuses sent
    stdout: Bytes,
    seen: seq<ChanMsg>      // everything taken from the channel
  )

  datatype WriterPc =
    | AwaitStart | AwaitInput | Writing(msg: Bytes, sent: nat) | SendingEof
    | Draining | DrainingClosed | WriterDone

  datatype Input = Input(
    queue: seq<Bytes>,
    closed: bool,
    sendersGone: bool,
    passed: Option<Bytes>,  // a caller between the gate and the queue
    pc: WriterPc,
    undelivered: nat,
    accepted: seq<Bytes>,   // messages for which send_input returned Ok
    written: seq<Bytes>,    // messages fully written
    lost: seq<Bytes>,       // messages counted in undelivered
    cut: nat,               // bytes of lost[0] that did reach the wire
    wire: Bytes,
    eofs: nat               // EOFs sent
  )

  datatype Events = Events(
    queue: seq<ExecEvent>,
    open: bool,             // the consumer has not dropped its end
    emitted: seq<ExecEvent>
  )

  datatype Phase = Requesting | Attempted | Finished

  datatype State = State(
    stream: bool,           // the exec has a remote stdin
    phase: Phase,
    refused: bool,          // the exec request could not even be sent
    transport: Transport,
    window: nat,
    reader: Reader,
    ended: bool,            // the input gate
    done: bool,             // the writer was told the channel is over
    input: Input,
    events: Events
  )

  function Init(stream: bool, window: nat): State {
    State(stream, Requesting, false,
          Transport([], [], false, []), window,
          Reader(Reading, false, None, None, false, 0, [], []),
          false, false,
          Input([], !stream, false, None, AwaitStart, 0, [], [], [], 0, [], 0),
          Events([], true, []))
  }

  // ---------------------------------------------------------------- labels

  datatype ReaderLabel = Read | ReadEnd | StderrSent | SetGate | Release

  datatype InputLabel =
    | CheckGate(data: Bytes) | TrySend | DropSenders                        // callers
    | StartWriting | NeverStarted | TakeInput | InputOver | ChannelOver     // writer
    | SendSome(k: nat) | Written | Cut | WriteError | SentEof
    | CloseQueue | CountOne | CountedAll

  datatype Label =
    | Arrive(m: ChanMsg) | HangUp | Deliver
    | ExecQueued | ExecUnsendable
    | ReadSide(r: ReaderLabel)
    | InputSide(i: InputLabel)
    | ConsumerTake | ConsumerDrop
    | Conclude

  /** A bounded send completes when there is room, and errs at once when the receiver is gone. */
  predicate CanEmit(e: Events) {
    !e.open || |e.queue| < EXEC_EVENT_QUEUE
  }

  function Emit(e: Events, ev: ExecEvent): Events {
    e.(emitted := e.emitted + [ev], queue := if e.open then e.queue + [ev] else e.queue)
  }

  predicate ReaderEnabled(s: State, r: ReaderLabel) {
    && s.phase.Attempted?
    && match r
       case Read => s.reader.pc.Reading? && s.transport.chanQ != []
       case ReadEnd => s.reader.pc.Reading? && s.transport.chanQ == [] && s.transport.net == [] && s.transport.hungUp
       case StderrSent => s.reader.pc.ParkedOnStderr? && CanEmit(s.events)
       case SetGate => s.reader.pc.ClosingGate?
       case Release => s.reader.pc.Releasing?
  }

  predicate InputEnabled(s: State, i: InputLabel) {
    match i
    case CheckGate(_) => s.input.passed.None? && !s.input.sendersGone
    case TrySend => s.input.passed.Some?
    case DropSenders => s.input.passed.None?
    case StartWriting => s.phase.Attempted? && s.input.pc.AwaitStart? && s.reader.started
    case NeverStarted => s.phase.Attempted? && s.input.pc.AwaitStart? && s.done
    case TakeInput => s.input.pc.AwaitInput? && s.input.queue != []
    case InputOver => s.input.pc.AwaitInput? && s.input.queue == [] && s.input.sendersGone
    case ChannelOver => s.input.pc.AwaitInput? && s.done
    case SendSome(k) => s.input.pc.Writing? && 0 < k <= s.window && s.input.pc.sent + k <= |s.input.pc.msg|
    case Written => s.input.pc.Writing? && s.input.pc.sent == |s.input.pc.msg|
    case Cut => s.input.pc.Writing? && s.done
    case WriteError => s.input.pc.Writing?
    case SentEof => s.input.pc.SendingEof?
    case CloseQueue => s.input.pc.Draining?
    case CountOne => s.input.pc.DrainingClosed? && s.input.queue != []
    case CountedAll => s.input.pc.DrainingClosed? && s.input.queue == []
  }

  predicate Enabled(s: State, l: Label) {
    match l
    case Arrive(_) => !s.transport.hungUp
    case HangUp => !s.transport.hungUp
    case Deliver => s.transport.net != [] && |s.transport.chanQ| < CHANNEL_QUEUE
    case ExecQueued => s.phase.Requesting?
    case ExecUnsendable => s.phase.Requesting?
    case ReadSide(r) => ReaderEnabled(s, r)
    case InputSide(i) => InputEnabled(s, i)
    case ConsumerTake => s.events.open && s.events.queue != []
    case ConsumerDrop => true
    case Conclude => s.phase.Attempted? && s.reader.pc.ReaderDone? && s.input.pc.WriterDone? && CanEmit(s.events)
  }

  // ---------------------------------------------------------------- steps

  /** What the reader does with one channel message. */
  function Handle(r: Reader, m: ChanMsg): Reader {
    var r' := r.(seen := r.seen + [m]);
    match m
    case Data(b) => r'.(stdout := r.stdout + b)
    case ExtData(ext, b) => if ext == 1 then r'.(pc := ParkedOnStderr(b)) else r'.(stdout := r.stdout + b)
    case Success => if r.started then r' else r'.(started := true, readies := r.readies + 1)
    case Failure => r'.(rejected := true, pc := ClosingGate)
    case ExitStatus(c) => r'.(code := Some(c))
    case ExitSignal(n) => r'.(signal := Some(n))
    case Close => r'.(pc := ClosingGate)
    case Eof => r'
    case WindowAdjust(_) => r'
    case Other => r'
  }

  function ReaderApply(s: State, r: ReaderLabel): State
    requires ReaderEnabled(s, r)
  {
    match r
    case Read =>
      s.(reader := Handle(s.reader, s.transport.chanQ[0]),
         transport := s.transport.(chanQ := s.transport.chanQ[1..]))
    case ReadEnd => s.(reader := s.reader.(pc := ClosingGate))
    case StderrSent =>
      s.(events := Emit(s.events, Stderr(s.reader.pc.chunk)), reader := s.reader.(pc := Reading))
    case SetGate => s.(ended := true, reader := s.reader.(pc := Releasing))
    case Release => s.(done := true, reader := s.reader.(pc := ReaderDone))
  }

  /** The message in hand was taken from the queue and will not reach the wire whole. */
  function Lose(i: Input): Input
    requires i.pc.Writing?
  {
    i.(lost := i.lost + [i.pc.msg], undelivered := i.undelivered + |i.pc.msg|, cut := i.pc.sent, pc := Draining)
  }

  function InputApply(s: State, l: InputLabel): Input
    requires InputEnabled(s, l)
  {
    var i := s.input;
    match l
    case CheckGate(d) =>
      if GateCheck(if s.stream then UntilEnded else Never, s.ended).Some? then i else i.(passed := Some(d))
    case TrySend =>
      if TrySendResult(i.queue, i.closed).Some? then i.(passed := None)
      else i.(passed := None, queue := i.queue + [i.passed.value], accepted := i.accepted + [i.passed.value])
    case DropSenders => i.(sendersGone := true)
    case StartWriting => i.(pc := if s.stream then AwaitInput else SendingEof)
    case NeverStarted => i.(pc := Draining)
    case TakeInput => i.(queue := i.queue[1..], pc := Writing(i.queue[0], 0))
    case InputOver => i.(pc := SendingEof)
    case ChannelOver => i.(pc := Draining)
    case SendSome(k) =>
      i.(wire := i.wire + i.pc.msg[i.pc.sent..i.pc.sent + k], pc := Writing(i.pc.msg, i.pc.sent + k))
    case Written => i.(written := i.written + [i.pc.msg], pc := AwaitInput)
    case Cut => Lose(i)
    case WriteError => Lose(i)
    case SentEof => i.(eofs := i.eofs + 1, pc := Draining)
    case CloseQueue => i.(closed := true, pc := DrainingClosed)
    case CountOne => i.(queue := i.queue[1..], lost := i.lost + [i.queue[0]], undelivered := i.undelivered + |i.queue[0]|)
    case CountedAll => i.(pc := WriterDone)
  }

  /** The one event that ends an attempted exec. */
  function Terminal(s: State): ExecEvent {
    if s.refused then Error(StartFailed, s.input.undelivered)
    else if s.reader.rejected then Error(Rejected, s.input.undelivered)
    else Exit(s.reader.code, s.reader.signal, s.input.undelivered)
  }

  function Apply(s: State, l: Label): State
    requires Enabled(s, l)
  {
    var tr := s.transport;
    match l
    case Arrive(m) => s.(transport := tr.(net := tr.net + [m], arrived := tr.arrived + [m]))
    case HangUp => s.(transport := tr.(hungUp := true))
    case Deliver =>
      s.(transport := tr.(net := tr.net[1..], chanQ := tr.chanQ + [tr.net[0]]),
         window := if tr.net[0].WindowAdjust? then s.window + tr.net[0].amount else s.window)
    case ExecQueued => s.(phase := Attempted)
    case ExecUnsendable =>
      s.(phase := Attempted, refused := true, ended := true, done := true,
         reader := s.reader.(pc := ReaderDone), input := s.input.(pc := Draining))
    case ReadSide(r) => ReaderApply(s, r)
    case InputSide(i) =>
      s.(input := InputApply(s, i), window := if i.SendSome? then s.window - i.k else s.window)
    case ConsumerTake => s.(events := s.events.(queue := s.events.queue[1..]))
    case ConsumerDrop => s.(events := s.events.(open := false, queue := []))
    case Conclude => s.(events := Emit(s.events, Terminal(s)), phase := Finished)
  }

  /** `labels` is a schedule from s to t: every label is enabled in its turn. */
  predicate Runs(s: State, labels: seq<Label>, t: State)
    decreases |labels|
  {
    if labels == [] then s == t
    else Enabled(s, labels[0]) && Runs(Apply(s, labels[0]), labels[1..], t)
  }

  ghost predicate Reachable(s: State) {
    exists stream: bool, window: nat, labels: seq<Label> :: Runs(Init(stream, window), labels, s)
  }

  // ---------------------------------------------------------------- what the reader should report

  function LastStatus(seen: seq<ChanMsg>): Option<nat> {
    if seen == [] then None
    else if seen[|seen| - 1].ExitStatus? then Some(seen[|seen| - 1].status)
    else LastStatus(seen[..|seen| - 1])
  }

  function LastSignal(seen: seq<ChanMsg>): Option<string> {
    if seen == [] then None
    else if seen[|seen| - 1].ExitSignal? then Some(seen[|seen| - 1].name)
    else LastSignal(seen[..|seen| - 1])
  }

  function StderrOf(seen: seq<ChanMsg>): seq<ExecEvent> {
    if seen == [] then []
    else
      var m := seen[|seen| - 1];
      StderrOf(seen[..|seen| - 1]) + if m.ExtData? && m.ext == 1 then [Stderr(m.bytes)] else []
  }

  function StdoutOf(seen: seq<ChanMsg>): Bytes {
    if seen == [] then []
    else
      var m := seen[|seen| - 1];
      StdoutOf(seen[..|seen| - 1]) + if m.Data? || (m.ExtData? && m.ext != 1) then m.bytes else []
  }

  predicate Ends(m: ChanMsg) {
    m.Close? || m.Failure?
  }

  // ---------------------------------------------------------------- invariant

  /** The message the writer holds, if any. */
  function InHand(pc: WriterPc): seq<Bytes> {
    if pc.Writing? then [pc.msg] else []
  }

  /** Every accepted message is written, counted, in hand or queued: once, and in order. */
  ghost predicate InputConserved(i: Input) {
    && i.accepted == i.written + i.lost + InHand(i.pc) + i.queue
    && i.undelivered == SumLen(i.lost)
    && (i.lost != [] ==> i.pc.Draining? || i.pc.DrainingClosed? || i.pc.WriterDone?)
  }

  /** Counting happens behind a closed queue, so what was counted is final. */
  ghost predicate CountFinal(stream: bool, i: Input) {
    && (i.pc.DrainingClosed? ==> i.closed)
    && (i.pc.WriterDone? ==> i.closed && i.queue == [])
    && (!stream ==> i.closed)
  }

  /** The bytes on the wire that belong to no fully written message. */
  function PartOnWire(i: Input): Bytes
    requires i.pc.Writing? ==> i.pc.sent <= |i.pc.msg|
    requires i.lost != [] ==> i.cut <= |i.lost[0]|
  {
    if i.pc.Writing? then i.pc.msg[..i.pc.sent]
    else if i.lost != [] then i.lost[0][..i.cut]
    else []
  }

  /** The wire carries the written messages whole and of at most one other message a prefix. */
  ghost predicate WireExact(i: Input) {
    && (i.pc.Writing? ==> i.pc.sent <= |i.pc.msg|)
    && (if i.lost == [] then i.cut == 0 else i.cut <= |i.lost[0]|)
    && i.wire == Flatten(i.written) + PartOnWire(i)
  }

  /** EOF is sent at most once, and after everything else. */
  ghost predicate EofLast(i: Input) {
    i.eofs == 0 || (i.eofs == 1 && (i.pc.Draining? || i.pc.DrainingClosed? || i.pc.WriterDone?))
  }

  ghost predicate InputExact(stream: bool, i: Input) {
    InputConserved(i) && CountFinal(stream, i) && WireExact(i) && EofLast(i)
  }

  /** The reader's record of the channel is a function of what it took from it. */
  ghost predicate ReaderExact(r: Reader) {
    && r.code == LastStatus(r.seen)
    && r.signal == LastSignal(r.seen)
    && r.stdout == StdoutOf(r.seen)
    && (r.rejected <==> exists i :: 0 <= i < |r.seen| && r.seen[i].Failure?)
    && (r.started <==> exists i :: 0 <= i < |r.seen| && r.seen[i].Success?)
    && r.readies == (if r.started then 1 else 0)
    && (forall i :: 0 <= i < |r.seen| && Ends(r.seen[i]) ==> i == |r.seen| - 1)
    && (r.pc.Reading? || r.pc.ParkedOnStderr? ==> forall i :: 0 <= i < |r.seen| ==> !Ends(r.seen[i]))
  }

  /** The reader stops only at Close, at a rejection, or at the end of the stream. */
  ghost predicate ReaderStops(s: State) {
    && s.transport.arrived == s.reader.seen + s.transport.chanQ + s.transport.net
    && (s.reader.pc.ClosingGate? || s.reader.pc.Releasing? || s.reader.pc.ReaderDone? ==>
          || s.refused
          || (s.transport.hungUp && s.transport.net == [] && s.transport.chanQ == [])
          || (s.reader.seen != [] && Ends(s.reader.seen[|s.reader.seen| - 1])))
  }

  /** The stderr chunk the reader is trying to hand over, if any. */
  function Parked(pc: ReaderPc): seq<ExecEvent> {
    if pc.ParkedOnStderr? then [Stderr(pc.chunk)] else []
  }

  /** Before the end only stderr events, in order; at the end exactly one terminal event, last. */
  ghost predicate EventsExact(s: State) {
    && (s.phase.Finished? ==> s.reader.pc.ReaderDone? && s.input.pc.WriterDone?)
    && (s.refused ==> s.reader.seen == [] && s.reader.pc.ReaderDone?)
    && (!s.phase.Finished? ==> s.events.emitted + Parked(s.reader.pc) == StderrOf(s.reader.seen))
    && (s.phase.Finished? ==> s.events.emitted == StderrOf(s.reader.seen) + [Terminal(s)])
    && |s.events.queue| <= EXEC_EVENT_QUEUE
  }

  /** The order of the two halves' signals: gate before release, start before any byte. */
  ghost predicate SignalsExact(s: State) {
    && (s.phase.Requesting? ==> !s.refused && s.reader.pc.Reading? && s.reader.seen == [] && s.input.pc.AwaitStart?)
    && (s.done <==> s.reader.pc.ReaderDone?)
    && (s.reader.pc.Releasing? || s.reader.pc.ReaderDone? ==> s.ended)
    && (s.input.pc.AwaitInput? || s.input.pc.Writing? ==> s.stream && s.reader.started)
    && (s.input.wire != [] || s.input.written != [] ==> s.stream && s.reader.started)
    && (s.input.pc.SendingEof? || s.input.eofs > 0 ==> s.reader.started)
    && (s.input.sendersGone ==> s.input.passed.None?)
    && (s.stream && (s.input.pc.SendingEof? || s.input.eofs > 0) ==> s.input.sendersGone && s.input.queue == [] && s.input.lost == [])
  }

  ghost predicate Inv(s: State) {
    InputExact(s.stream, s.input) && ReaderExact(s.reader) && ReaderStops(s) && EventsExact(s) && SignalsExact(s)
  }

  lemma InputConservedStep(s: State, l: InputLabel)
    requires InputConserved(s.input) && InputEnabled(s, l)
    ensures InputConserved(InputApply(s, l))
  {
    var i := s.input;
    match l
    case TakeInput => assert i.queue == [i.queue[0]] + i.queue[1..];
    case CountOne =>
      assert i.queue == [i.queue[0]] + i.queue[1..];
      SumLenAppend(i.lost, [i.queue[0]]);
    case WriteError => assert i.lost == [];
    case Cut => assert i.lost == [];
    case _ =>
  }

  lemma WireExactStep(s: State, l: InputLabel)
    requires InputConserved(s.input) && WireExact(s.input) && InputEnabled(s, l)
    ensures WireExact(InputApply(s, l))
  {
    var i := s.input;
    match l
    case Written =>
      FlattenAppend(i.written, [i.pc.msg]);
      assert Flatten([i.pc.msg]) == i.pc.msg;
    case SendSome(k) =>
      assert i.pc.msg[..i.pc.sent + k] == i.pc.msg[..i.pc.sent] + i.pc.msg[i.pc.sent..i.pc.sent + k];
    case _ =>
  }

  /** Taking one more message extends each report by that message. */
  lemma ReportStep(seen: seq<ChanMsg>, m: ChanMsg)
    ensures LastStatus(seen + [m]) == if m.ExitStatus? then Some(m.status) else LastStatus(seen)
    ensures LastSignal(seen + [m]) == if m.ExitSignal? then Some(m.name) else LastSignal(seen)
    ensures StdoutOf(seen + [m]) == StdoutOf(seen) + if m.Data? || (m.ExtData? && m.ext != 1) then m.bytes else []
    ensures StderrOf(seen + [m]) == StderrOf(seen) + if m.ExtData? && m.ext == 1 then [Stderr(m.bytes)] else []
  {
    assert (seen + [m])[..|seen|] == seen;
  }

  lemma HandleExact(r: Reader, m: ChanMsg)
    requires ReaderExact(r) && r.pc.Reading?
    ensures ReaderExact(Handle(r, m))
  {
    hide LastStatus, LastSignal, StdoutOf, StderrOf;
    ReportStep(r.seen, m);
    SeenOneMore(r.seen, m);
  }

  lemma SeenOneMore(seen: seq<ChanMsg>, m: ChanMsg)
    ensures (exists i :: 0 <= i < |seen| + 1 && (seen + [m])[i].Failure?) <==> m.Failure? || exists i :: 0 <= i < |seen| && seen[i].Failure?
    ensures (exists i :: 0 <= i < |seen| + 1 && (seen + [m])[i].Success?) <==> m.Success? || exists i :: 0 <= i < |seen| && seen[i].Success?
    ensures (forall i :: 0 <= i < |seen| ==> !Ends(seen[i])) ==> forall i :: 0 <= i < |seen| + 1 && Ends((seen + [m])[i]) ==> i == |seen| && Ends(m)
  {
    var t := seen + [m];
    assert forall i :: 0 <= i < |seen| ==> t[i] == seen[i];
    assert t[|seen|] == m;
  }

  lemma HandleStderr(r: Reader, m: ChanMsg)
    requires r.pc.Reading?
    ensures StderrOf(Handle(r, m).seen) == StderrOf(r.seen) + Parked(Handle(r, m).pc)
  {
    hide StderrOf;
    ReportStep(r.seen, m);
  }

  lemma ReadStops(s: State)
    requires ReaderStops(s) && ReaderEnabled(s, Read)
    ensures ReaderStops(ReaderApply(s, Read))
  {
    var m := s.transport.chanQ[0];
    assert s.reader.seen + s.transport.chanQ == (s.reader.seen + [m]) + s.transport.chanQ[1..];
  }

  lemma ReadStep(s: State)
    requires Inv(s) && ReaderEnabled(s, Read)
    ensures EventsExact(ReaderApply(s, Read))
  {
    HandleStderr(s.reader, s.transport.chanQ[0]);
    assert s.events.emitted + Parked(s.reader.pc) == s.events.emitted;
  }

  lemma ReaderSignalsStep(s: State, l: ReaderLabel)
    requires SignalsExact(s) && ReaderEnabled(s, l)
    ensures SignalsExact(ReaderApply(s, l))
  {}

  lemma ReaderSideStep(s: State, l: ReaderLabel)
    requires Inv(s) && ReaderEnabled(s, l)
    ensures Inv(ReaderApply(s, l))
  {
    ReaderSignalsStep(s, l);
    if l.Read? {
      HandleExact(s.reader, s.transport.chanQ[0]);
      ReadStops(s);
      ReadStep(s);
    }
  }

  lemma CountFinalStep(s: State, l: InputLabel)
    requires CountFinal(s.stream, s.input) && InputEnabled(s, l)
    ensures CountFinal(s.stream, InputApply(s, l))
  {}

  lemma InputSignalsStep(s: State, l: InputLabel)
    requires SignalsExact(s) && InputConserved(s.input) && EofLast(s.input) && InputEnabled(s, l)
    ensures SignalsExact(s.(input := InputApply(s, l)))
  {}

  /** What a finished run reported stays what it is: no input step reopens the count. */
  lemma FinishedInputStep(s: State, l: InputLabel)
    requires s.input.pc.WriterDone? && InputEnabled(s, l)
    ensures InputApply(s, l).pc.WriterDone? && InputApply(s, l).undelivered == s.input.undelivered
  {}

  lemma EofLastStep(s: State, l: InputLabel)
    requires EofLast(s.input) && InputEnabled(s, l)
    ensures EofLast(InputApply(s, l))
  {}

  /** The other invariants do not look at the window, nor at the input beyond where its writer stands. */
  lemma InputAlone(s: State, l: InputLabel)
    requires EventsExact(s) && ReaderStops(s) && InputEnabled(s, l)
    ensures var t := Apply(s, InputSide(l)); EventsExact(t) && ReaderStops(t)
  {
    if s.phase.Finished? {
      FinishedInputStep(s, l);
    }
    hide InputEnabled, InputApply, StderrOf;
  }

  lemma InputSideStep(s: State, l: InputLabel)
    requires Inv(s) && InputEnabled(s, l)
    ensures Inv(Apply(s, InputSide(l)))
  {
    var t := Apply(s, InputSide(l));
    InputConservedStep(s, l);
    CountFinalStep(s, l);
    WireExactStep(s, l);
    EofLastStep(s, l);
    InputSignalsStep(s, l);
    InputAlone(s, l);
    assert t == s.(input := InputApply(s, l), window := t.window);
    hide InputConserved, CountFinal, WireExact, EofLast, ReaderExact, EventsExact, ReaderStops, InputApply, InputEnabled;
  }

  lemma RefusalStep(s: State)
    requires Inv(s) && Enabled(s, ExecUnsendable)
    ensures Inv(Apply(s, ExecUnsendable))
  {}

  lemma EnvironmentStep(s: State, l: Label)
    requires Inv(s) && Enabled(s, l) && !l.ReadSide? && !l.InputSide?
    ensures Inv(Apply(s, l))
  {
    hide ReaderExact, StderrOf;
    if l.ExecUnsendable? {
      RefusalStep(s);
      return;
    }
    assert Apply(s, l).input == s.input && Apply(s, l).reader == s.reader;
    hide InputExact;
    match l
    case Deliver => assert s.transport.net == [s.transport.net[0]] + s.transport.net[1..];
    case Conclude => assert s.events.emitted + Parked(s.reader.pc) == s.events.emitted;
    case _ =>
  }

  lemma InvStep(s: State, l: Label)
    requires Inv(s) && Enabled(s, l)
    ensures Inv(Apply(s, l))
  {
    match l
    case ReadSide(r) => ReaderSideStep(s, r);
    case InputSide(i) => InputSideStep(s, i);
    case _ => EnvironmentStep(s, l);
  }

  lemma {:induction false} InvRun(s: State, labels: seq<Label>, t: State)
    requires Inv(s) && Runs(s, labels, t)
    ensures Inv(t)
    decreases |labels|
  {
    if labels != [] {
      InvStep(s, labels[0]);
      InvRun(Apply(s, labels[0]), labels[1..], t);
    }
  }

  lemma ReachableInv(s: State)
    requires Reachable(s)
    ensures Inv(s)
  {
    var stream: bool, window: nat, labels: seq<Label> :| Runs(Init(stream, window), labels, s);
    InvRun(Init(stream, window), labels, s);
  }

  // ---------------------------------------------------------------- input conservation

  /**
   * Per message: accepted input is, in order, what was written whole, what was
   * counted, the message in hand and the queue.
   */
  lemma InputIsConserved(s: State)
    requires Reachable(s)
    ensures s.input.accepted == s.input.written + s.input.lost + InHand(s.input.pc) + s.input.queue
    ensures s.input.undelivered == SumLen(s.input.lost)
    ensures s.input.pc.WriterDone? ==> s.input.closed && s.input.accepted == s.input.written + s.input.lost
  {
    hide ReaderExact, ReaderStops, EventsExact, SignalsExact, WireExact;
    ReachableInv(s);
  }

  /** The wire is a prefix of the accepted bytes, and holds every written message whole. */
  lemma WireIsPrefix(i: Input)
    requires InputConserved(i) && WireExact(i)
    ensures Flatten(i.written) <= i.wire <= Flatten(i.accepted)
  {
    hide Flatten, SumLen;
    var rest := i.lost + InHand(i.pc) + i.queue;
    assert i.accepted == i.written + rest;
    FlattenAppend(i.written, rest);
    if i.pc.Writing? || i.lost != [] {
      assert i.pc.Writing? ==> i.lost == [];
      assert rest[0] == if i.pc.Writing? then i.pc.msg else i.lost[0];
      FlattenHead(rest);
      PrefixOfConcat(Flatten(i.written), PartOnWire(i), Flatten(rest));
    }
  }

  lemma PrefixOfConcat<T>(a: seq<T>, b: seq<T>, c: seq<T>)
    requires b <= c
    ensures a <= a + b <= a + c
  {}

  lemma NothingUncounted(i: Input)
    requires InputConserved(i) && WireExact(i) && i.pc.WriterDone? && i.queue == []
    ensures |i.wire| + i.undelivered == SumLen(i.accepted) + i.cut
    ensures i.cut > 0 ==> i.lost != [] && i.cut <= |i.lost[0]|
  {
    assert i.accepted == i.written + i.lost;
    SumLenAppend(i.written, i.lost);
    FlattenLength(i.written);
  }

  /**
   * Per byte: what reached the wire is a prefix of what was accepted, and at the
   * end the wire and the count together never fall short of it; they exceed it
   * exactly by the part of the one cut message that got out.
   */
  lemma CountNeverFallsShort(s: State)
    requires Reachable(s)
    ensures Flatten(s.input.written) <= s.input.wire <= Flatten(s.input.accepted)
    ensures s.input.pc.WriterDone? ==>
              && |s.input.wire| + s.input.undelivered == SumLen(s.input.accepted) + s.input.cut
              && (s.input.cut > 0 ==> s.input.lost != [] && s.input.cut <= |s.input.lost[0]|)
  {
    hide ReaderExact, ReaderStops, EventsExact, SignalsExact, InputConserved, WireExact, Flatten, SumLen;
    ReachableInv(s);
    WireIsPrefix(s.input);
    if s.input.pc.WriterDone? {
      NothingUncounted(s.input);
    }
  }

  /** A caller that passed the gate before it closed still gets a true answer: queued and counted, or refused. */
  lemma RacingSenderIsAnswered(s: State)
    requires Reachable(s) && InputEnabled(s, TrySend)
    ensures var i := InputApply(s, TrySend);
            var refused := TrySendResult(s.input.queue, s.input.closed);
            && (refused.None? ==> i.queue == s.input.queue + [s.input.passed.value] && !s.input.pc.WriterDone? && !s.input.pc.DrainingClosed?)
            && (refused.Some? ==> i.accepted == s.input.accepted && i.queue == s.input.queue)
    ensures s.input.pc.WriterDone? || s.input.pc.DrainingClosed? ==> TrySendResult(s.input.queue, s.input.closed) == Some(SessionClosed)
  {
    ReachableInv(s);
  }

  // ---------------------------------------------------------------- input delivery

  /** As long as the reader has not let go, the writer gives nothing up and stops only when nothing more can come. */
  ghost predicate Delivering(s: State) {
    && (s.input.sendersGone ==> s.input.passed.None?)
    && (s.refused ==> s.done)
    && (!s.stream ==> s.input.closed && s.input.queue == [])
    && (!s.done ==>
          && s.input.lost == []
          && (s.input.pc.AwaitStart? || s.input.pc.AwaitInput? || s.input.pc.Writing?
              || (s.input.queue == [] && (s.stream ==> s.input.sendersGone)))
          && (s.input.pc.Draining? || s.input.pc.DrainingClosed? || s.input.pc.WriterDone? ==> s.input.eofs == 1))
  }

  lemma DeliveringInput(s: State, l: InputLabel)
    requires EofLast(s.input) && Delivering(s) && InputEnabled(s, l) && !l.WriteError?
    ensures Delivering(s.(input := InputApply(s, l)))
  {}

  lemma DeliveringStep(s: State, l: Label)
    requires Inv(s) && Delivering(s) && Enabled(s, l) && l != InputSide(WriteError)
    ensures Delivering(Apply(s, l))
  {
    hide ReaderExact, ReaderStops, EventsExact, SignalsExact, InputConserved, WireExact, CountFinal;
    if l.InputSide? {
      DeliveringInput(s, l.i);
      assert Apply(s, l).input == InputApply(s, l.i);
      hide InputApply, InputEnabled;
    } else if l.ReadSide? {
      assert ReaderApply(s, l.r).input == s.input && (s.done ==> ReaderApply(s, l.r).done);
      hide ReaderApply;
    }
  }

  lemma {:induction false} DeliveringRun(s: State, labels: seq<Label>, t: State)
    requires Inv(s) && Delivering(s) && Runs(s, labels, t) && InputSide(WriteError) !in labels
    ensures Inv(t) && Delivering(t)
    decreases |labels|
  {
    if labels != [] {
      InvStep(s, labels[0]);
      DeliveringStep(s, labels[0]);
      hide Inv, Delivering, Apply, Enabled;
      DeliveringRun(Apply(s, labels[0]), labels[1..], t);
    }
  }

  /**
   * Delivery: while no write errs and the reader has not let go, nothing accepted
   * is given up. The writer leaves its loop only when every sender is gone and
   * the queue is empty, and has then written all that was accepted and, after it,
   * one EOF.
   */
  lemma NothingGivenUp(stream: bool, window: nat, labels: seq<Label>, s: State)
    requires Runs(Init(stream, window), labels, s) && InputSide(WriteError) !in labels && !s.done
    ensures s.input.lost == [] && s.input.undelivered == 0 && !s.refused
    ensures s.input.accepted == s.input.written + InHand(s.input.pc) + s.input.queue
    ensures !s.input.pc.AwaitStart? && !s.input.pc.AwaitInput? && !s.input.pc.Writing? ==>
              && s.input.queue == [] && (stream ==> s.input.sendersGone)
              && s.input.written == s.input.accepted && s.input.wire == Flatten(s.input.accepted)
              && s.input.eofs == (if s.input.pc.SendingEof? then 0 else 1)
  {
    DeliveringRun(Init(stream, window), labels, s);
    RunsKeepStream(Init(stream, window), labels, s);
    hide ReaderExact, ReaderStops, EventsExact, SignalsExact;
  }

  lemma {:induction false} RunsKeepStream(s: State, labels: seq<Label>, t: State)
    requires Runs(s, labels, t)
    ensures t.stream == s.stream
    decreases |labels|
  {
    if labels != [] {
      RunsKeepStream(Apply(s, labels[0]), labels[1..], t);
    }
  }

  /** After EOF not a byte more is sent, and no second EOF. */
  lemma NothingAfterEof(s: State, k: nat)
    requires Reachable(s) && s.input.eofs > 0
    ensures s.input.eofs == 1 && !InputEnabled(s, SendSome(k)) && !InputEnabled(s, SentEof) && !InputEnabled(s, TakeInput)
  {
    ReachableInv(s);
  }

  /** The send window granted by a sequence of messages. */
  function Granted(msgs: seq<ChanMsg>): nat {
    if msgs == [] then 0 else (if msgs[0].WindowAdjust? then msgs[0].amount else 0) + Granted(msgs[1..])
  }

  lemma {:induction false} GrantedAppend(a: seq<ChanMsg>, b: seq<ChanMsg>)
    ensures Granted(a + b) == Granted(a) + Granted(b)
  {
    if a == [] {
      assert a + b == b;
    } else {
      assert (a + b)[1..] == a[1..] + b;
      GrantedAppend(a[1..], b);
    }
  }

  /** What the connection loop has taken of what the server sent. */
  function Delivered(s: State): seq<ChanMsg> {
    s.reader.seen + s.transport.chanQ
  }

  lemma WireStep(s: State, l: InputLabel)
    requires WireExact(s.input) && InputEnabled(s, l)
    ensures |InputApply(s, l).wire| == |s.input.wire| + if l.SendSome? then l.k else 0
  {}

  lemma DeliveredStep(s: State, l: Label)
    requires Enabled(s, l)
    ensures Delivered(Apply(s, l)) == if l.Deliver? then Delivered(s) + [s.transport.net[0]] else Delivered(s)
  {
    if l == ReadSide(Read) {
      assert s.transport.chanQ == [s.transport.chanQ[0]] + s.transport.chanQ[1..];
    }
    hide InputApply, InputEnabled, Emit, CanEmit, Terminal;
  }

  lemma WindowStep(s: State, l: Label)
    requires Inv(s) && Enabled(s, l)
    ensures |Apply(s, l).input.wire| + Apply(s, l).window - Granted(Delivered(Apply(s, l)))
            == |s.input.wire| + s.window - Granted(Delivered(s))
  {
    hide ReaderExact, ReaderStops, EventsExact, SignalsExact, InputConserved, EofLast, CountFinal;
    DeliveredStep(s, l);
    hide Delivered;
    if l.InputSide? {
      WireStep(s, l.i);
      assert Apply(s, l).input == InputApply(s, l.i);
      hide InputApply, InputEnabled;
    } else if l.Deliver? {
      var m := s.transport.net[0];
      assert [m][1..] == [] && Granted([m]) == if m.WindowAdjust? then m.amount else 0;
      GrantedAppend(Delivered(s), [m]);
    } else if l.ReadSide? {
      assert ReaderApply(s, l.r).input == s.input && ReaderApply(s, l.r).window == s.window;
      hide ReaderApply;
    }
    hide Granted, WireExact;
  }

  lemma {:induction false} WindowRun(s: State, labels: seq<Label>, t: State)
    requires Inv(s) && Runs(s, labels, t)
    ensures |t.input.wire| + t.window - Granted(Delivered(t)) == |s.input.wire| + s.window - Granted(Delivered(s))
    decreases |labels|
  {
    if labels != [] {
      InvStep(s, labels[0]);
      WindowStep(s, labels[0]);
      hide Inv, Apply, Enabled, Delivered;
      WindowRun(Apply(s, labels[0]), labels[1..], t);
    }
  }

  /** Every byte on the wire was paid for: bytes sent and window left are the first window and all that was granted since. */
  lemma WindowIsExact(stream: bool, window: nat, labels: seq<Label>, s: State)
    requires Runs(Init(stream, window), labels, s)
    ensures |s.input.wire| + s.window == window + Granted(Delivered(s))
    ensures Delivered(s) <= s.transport.arrived
  {
    WindowRun(Init(stream, window), labels, s);
    InvRun(Init(stream, window), labels, s);
    assert Granted([]) == 0 && Delivered(Init(stream, window)) == [];
  }

  // ---------------------------------------------------------------- terminal events

  /** The server's messages up to and including the first that ends the channel. */
  function UpToEnd(msgs: seq<ChanMsg>): seq<ChanMsg> {
    if msgs == [] then []
    else if Ends(msgs[0]) then [msgs[0]]
    else [msgs[0]] + UpToEnd(msgs[1..])
  }

  lemma {:induction false} UpToEndPrefix(seen: seq<ChanMsg>, rest: seq<ChanMsg>)
    requires forall i :: 0 <= i < |seen| && Ends(seen[i]) ==> i == |seen| - 1
    requires rest == [] || (seen != [] && Ends(seen[|seen| - 1]))
    ensures UpToEnd(seen + rest) == seen
  {
    if seen == [] {
    } else if Ends(seen[0]) {
      assert (seen + rest)[0] == seen[0];
    } else {
      assert (seen + rest)[1..] == seen[1..] + rest;
      UpToEndPrefix(seen[1..], rest);
    }
  }

  /** What is told is what was sent up to the first Close or Failure, that one included, or everything. */
  lemma {:induction false} UpToEndMeans(msgs: seq<ChanMsg>)
    ensures UpToEnd(msgs) <= msgs
    ensures forall i :: 0 <= i < |UpToEnd(msgs)| - 1 ==> !UpToEnd(msgs)[i].Close? && !UpToEnd(msgs)[i].Failure?
    ensures Close !in msgs && Failure !in msgs ==> UpToEnd(msgs) == msgs
    ensures Close in msgs || Failure in msgs ==> UpToEnd(msgs) != [] && UpToEnd(msgs)[|UpToEnd(msgs)| - 1] in {Close, Failure}
  {
    if msgs != [] {
      UpToEndMeans(msgs[1..]);
      assert msgs == [msgs[0]] + msgs[1..];
    }
  }

  lemma {:induction false} StderrOnly(seen: seq<ChanMsg>)
    ensures forall i :: 0 <= i < |StderrOf(seen)| ==> StderrOf(seen)[i].Stderr?
  {
    if seen != [] {
      StderrOnly(seen[..|seen| - 1]);
    }
  }

  /**
   * An attempted exec emits its stderr in order and then exactly one terminal
   * event, which reports the last status and signal the server sent before it
   * closed the channel, whether or not an Eof came between.
   */
  lemma OneTerminalEvent(s: State)
    requires Reachable(s)
    ensures !s.phase.Finished? ==> forall e :: e in s.events.emitted ==> e.Stderr?
    ensures s.phase.Finished? ==>
              var told := if s.refused then [] else UpToEnd(s.transport.arrived);
              && s.events.emitted == StderrOf(told) + [Terminal(s)]
              && (forall e :: e in StderrOf(told) ==> e.Stderr?)
              && Terminal(s) ==
                   if s.refused then Error(StartFailed, SumLen(s.input.lost))
                   else if Failure in told then Error(Rejected, SumLen(s.input.lost))
                   else Exit(LastStatus(told), LastSignal(told), SumLen(s.input.lost))
  {
    ReachableInv(s);
    StderrOnly(s.reader.seen);
    if !s.phase.Finished? {
      assert forall i :: 0 <= i < |s.events.emitted| ==> s.events.emitted[i] == StderrOf(s.reader.seen)[i];
    } else {
      assert s.transport.arrived == s.reader.seen + (s.transport.chanQ + s.transport.net);
      if !s.refused {
        UpToEndPrefix(s.reader.seen, s.transport.chanQ + s.transport.net);
      }
    }
  }

  /** Ready is announced at most once and only after Success; no byte and no EOF precede it. */
  lemma ReadyOnceAfterSuccess(s: State)
    requires Reachable(s)
    ensures s.reader.readies == if Success in s.reader.seen then 1 else 0
    ensures s.reader.seen <= s.transport.arrived
    ensures s.input.wire != [] || s.input.written != [] || s.input.pc.SendingEof? || s.input.eofs > 0 ==> s.reader.readies == 1
    ensures s.input.wire != [] ==> s.stream
  {
    ReachableInv(s);
  }

  /** An EOF on streamed input says that this was all: the callers have gone, and every accepted byte is on the wire. */
  lemma EofMeansAll(s: State)
    requires Reachable(s) && s.stream && s.input.eofs > 0
    ensures s.input.eofs == 1 && s.input.sendersGone && s.input.undelivered == 0
    ensures s.input.written == s.input.accepted && s.input.wire == Flatten(s.input.accepted)
  {
    ReachableInv(s);
  }

  /** Once the reader has let go, the gate is shut: no later caller gets past it. */
  lemma GateShutsBeforeRelease(s: State, data: Bytes)
    requires Reachable(s) && s.done && InputEnabled(s, CheckGate(data))
    ensures InputApply(s, CheckGate(data)).passed.None?
  {
    ReachableInv(s);
  }

  /**
   * What becomes of a message: past the gate exactly while the command reads and
   * runs, and into the queue exactly if that has room for one of its 512 and the
   * writer has not closed it. A caller is never made to wait.
   */
  lemma CallerIsAnswered(s: State, data: Bytes)
    requires s.input.passed.None? && !s.input.sendersGone
    ensures InputEnabled(s, CheckGate(data))
    ensures var a := Apply(s, InputSide(CheckGate(data)));
            if s.stream && !s.ended then
              && a.input == s.input.(passed := Some(data)) && InputEnabled(a, TrySend)
              && Apply(a, InputSide(TrySend)).input
                 == if !s.input.closed && |s.input.queue| < 512 then
                      s.input.(queue := s.input.queue + [data], accepted := s.input.accepted + [data])
                    else s.input
            else a == s
  {}

  // ---------------------------------------------------------------- both ends

  /** What a schedule makes the server send. */
  function Arrivals(labels: seq<Label>): seq<ChanMsg> {
    if labels == [] then [] else (if labels[0].Arrive? then [labels[0].m] else []) + Arrivals(labels[1..])
  }

  /** The events a schedule makes the consumer take. */
  function Taken(s: State, labels: seq<Label>): seq<ExecEvent>
    decreases |labels|
  {
    if labels == [] || !Enabled(s, labels[0]) then []
    else (if labels[0].ConsumerTake? then [s.events.queue[0]] else []) + Taken(Apply(s, labels[0]), labels[1..])
  }

  lemma TakenStep(s: State, l: Label, past: seq<ExecEvent>)
    requires Enabled(s, l) && Apply(s, l).events.open && s.events.emitted == past + s.events.queue
    ensures var t, took := Apply(s, l), if l.ConsumerTake? then [s.events.queue[0]] else [];
            s.events.open && t.events.emitted == past + took + t.events.queue
  {
    if l.ConsumerTake? {
      assert s.events.queue == [s.events.queue[0]] + s.events.queue[1..];
    } else {
      assert past + [] == past;
    }
  }

  lemma ArrivalStep(s: State, l: Label)
    requires Enabled(s, l)
    ensures Apply(s, l).transport.arrived == s.transport.arrived + if l.Arrive? then [l.m] else []
    ensures Apply(s, l).transport.hungUp == (s.transport.hungUp || l == HangUp)
  {}

  /** What arrived is what was sent, in order, and a hang-up is remembered. */
  lemma {:induction false} ArrivedInOrder(s: State, labels: seq<Label>, t: State)
    requires Runs(s, labels, t)
    ensures t.transport.arrived == s.transport.arrived + Arrivals(labels)
    ensures t.transport.hungUp <==> s.transport.hungUp || HangUp in labels
    decreases |labels|
  {
    if labels != [] {
      assert labels == [labels[0]] + labels[1..];
      ArrivalStep(s, labels[0]);
      hide Apply, Enabled;
      ArrivedInOrder(Apply(s, labels[0]), labels[1..], t);
    }
  }

  /** A consumer that stays takes every event emitted, once and in order. */
  lemma {:induction false} NothingPassedOver(s: State, labels: seq<Label>, t: State, past: seq<ExecEvent>)
    requires Runs(s, labels, t) && t.events.open && s.events.emitted == past + s.events.queue
    ensures s.events.open && t.events.emitted == past + Taken(s, labels) + t.events.queue
    decreases |labels|
  {
    if labels == [] {
      assert past + [] == past;
    } else {
      var took: seq<ExecEvent> := if labels[0].ConsumerTake? then [s.events.queue[0]] else [];
      OpenBefore(Apply(s, labels[0]), labels[1..], t);
      TakenStep(s, labels[0], past);
      hide Apply, Enabled;
      NothingPassedOver(Apply(s, labels[0]), labels[1..], t, past + took);
      assert past + took + Taken(Apply(s, labels[0]), labels[1..]) == past + Taken(s, labels);
    }
  }

  lemma {:induction false} OpenBefore(s: State, labels: seq<Label>, t: State)
    requires Runs(s, labels, t)
    ensures t.events.open ==> s.events.open
    decreases |labels|
  {
    if labels != [] {
      OpenBefore(Apply(s, labels[0]), labels[1..], t);
    }
  }

  // ---------------------------------------------------------------- the reader's loop

  lemma {:induction false} UpToEndStops(msgs: seq<ChanMsg>, i: nat)
    requires i < |msgs| && Ends(msgs[i])
    requires forall j :: 0 <= j < i ==> !Ends(msgs[j])
    ensures UpToEnd(msgs) == msgs[..i + 1]
  {
    if i > 0 {
      UpToEndStops(msgs[1..], i - 1);
      assert msgs[..i + 1] == [msgs[0]] + msgs[1..][..i];
    }
  }

  lemma {:induction false} UpToEndWhole(msgs: seq<ChanMsg>)
    requires forall j :: 0 <= j < |msgs| ==> !Ends(msgs[j])
    ensures UpToEnd(msgs) == msgs
  {
    if msgs != [] {
      UpToEndWhole(msgs[1..]);
    }
  }

  lemma ToldOneMore(msgs: seq<ChanMsg>, i: nat)
    requires i < |msgs|
    ensures msgs[..i + 1] == msgs[..i] + [msgs[i]]
    ensures forall m :: m in msgs[..i + 1] <==> m in msgs[..i] || m == msgs[i]
  {}

  /** The reader alone: it drains the channel past Eof and stops only at Close, a rejection or the end. */
  method ReadChannel(msgs: seq<ChanMsg>)
      returns (rejected: bool, code: Option<nat>, signal: Option<string>, stdout: Bytes, events: seq<ExecEvent>, ready: bool)
    ensures var told := UpToEnd(msgs);
            && (rejected <==> Failure in told)
            && (ready <==> Success in told)
            && code == LastStatus(told) && signal == LastSignal(told)
            && stdout == StdoutOf(told) && events == StderrOf(told)
  {
    hide UpToEnd;
    rejected, code, signal, stdout, events, ready := false, None, None, [], [], false;
    assert msgs[..0] == [] && LastStatus([]) == None && LastSignal([]) == None && StdoutOf([]) == [] && StderrOf([]) == [];
    hide LastStatus, LastSignal, StdoutOf, StderrOf;
    var i := 0;
    while i < |msgs|
      invariant 0 <= i <= |msgs|
      invariant forall j :: 0 <= j < i ==> !Ends(msgs[j])
      invariant !rejected && Failure !in msgs[..i] && (ready <==> Success in msgs[..i])
      invariant code == LastStatus(msgs[..i]) && signal == LastSignal(msgs[..i])
      invariant stdout == StdoutOf(msgs[..i]) && events == StderrOf(msgs[..i])
    {
      ToldOneMore(msgs, i);
      ReportStep(msgs[..i], msgs[i]);
      match msgs[i] {
        case Data(b) => stdout := stdout + b;
        case ExtData(ext, b) =>
          if ext == 1 {
            events := events + [Stderr(b)];
          } else {
            stdout := stdout + b;
          }
        case Success => ready := true;
        case Failure =>
          UpToEndStops(msgs, i);
          rejected := true;
          return;
        case ExitStatus(c) => code := Some(c);
        case ExitSignal(n) => signal := Some(n);
        case Close =>
          UpToEndStops(msgs, i);
          return;
        case _ =>
      }
      i := i + 1;
    }
    assert msgs[..i] == msgs;
    UpToEndWhole(msgs);
  }
}
