/**
 * The caller's side of an SSH session's input: the bounded queue, the gate in
 * front of it, the drain that counts what never got through, and the backlog of
 * the interactive shell.
 */
module InputPath {
  import opened Wrappers

  const INPUT_QUEUE: nat := 512
  const WRITE_CHUNK: nat := 8192

  /** When a session may be written to. */
  datatype InputGate = Open | Never | UntilEnded

  datatype SendError = NoStdin | CommandEnded | BufferFull | SessionClosed

  /** The gate's own answer; `ended` is the shared flag of an `UntilEnded` gate. */
  function GateCheck(gate: InputGate, ended: bool): Option<SendError> {
    match gate
    case Never => Some(NoStdin)
    case UntilEnded => if ended then Some(CommandEnded) else None
    case Open => None
  }

  /** The bounded queue's answer, as one atomic operation of the queue. */
  function TrySendResult(queue: seq<Bytes>, closed: bool): Option<SendError> {
    if closed then Some(SessionClosed)
    else if |queue| >= INPUT_QUEUE then Some(BufferFull)
    else None
  }

  /** The input channel: what the sender handle and the writer both hold. */
  class InputChannel {
    const gate: InputGate
    var ended: bool
    var queue: seq<Bytes>
    var closed: bool

    ghost predicate Valid()
      reads this
    {
      |queue| <= INPUT_QUEUE
    }

    constructor (gate: InputGate)
      ensures Valid() && this.gate == gate
      ensures !ended && queue == [] && !closed
    {
      this.gate := gate;
      ended, queue, closed := false, [], false;
    }

    /** Never blocks and never discards: an accepted message is in the queue. */
    method SendInput(data: Bytes) returns (refused: Option<SendError>)
      requires Valid()
      modifies this`queue
      ensures Valid()
      ensures refused.None? ==> queue == old(queue) + [data]
      ensures refused.Some? ==> queue == old(queue)
      ensures refused == if gate == Never then Some(NoStdin)
                         else if gate == UntilEnded && ended then Some(CommandEnded)
                         else if closed then Some(SessionClosed)
                         else if |old(queue)| >= 512 then Some(BufferFull)
                         else None
      ensures refused.None? <==> gate != Never && (gate == UntilEnded ==> !ended) && !closed && |old(queue)| < 512
    {
      refused := GateCheck(gate, ended);
      if refused.Some? {
        return;
      }
      refused := TrySendResult(queue, closed);
      if refused.None? {
        queue := queue + [data];
      }
    }

    /** Close the queue and total up what is still sitting in it. */
    method UndeliveredBytes() returns (total: nat)
      requires Valid()
      modifies this`queue, this`closed
      ensures Valid() && closed && queue == []
      ensures total == SumLen(old(queue))
    {
      closed := true;
      total := 0;
      while queue != []
        invariant Valid() && closed
        invariant total + SumLen(queue) == SumLen(old(queue))
        decreases |queue|
      {
        total := total + |queue[0]|;
        queue := queue[1..];
      }
    }
  }

  /** One turn of the interactive loop's input half, as `select!` may choose it. */
  datatype Turn = Receive | Flush(accepted: bool) | Elsewhere

  lemma MoveToWire(wire: seq<Bytes>, pending: Bytes, take: nat)
    requires take <= |pending|
    ensures Flatten(wire + [pending[..take]]) + pending[take..] == Flatten(wire) + pending
  {
    hide Flatten;
    FlattenAppend(wire, [pending[..take]]);
    FlattenSingle(pending[..take]);
    assert Flatten(wire) + pending == (Flatten(wire) + pending[..take]) + pending[take..];
  }

  lemma TakeNext(input: seq<Bytes>, taken: nat)
    requires taken < |input|
    ensures Flatten(input[..taken + 1]) == Flatten(input[..taken]) + input[taken]
  {
    assert input[..taken + 1] == input[..taken] + [input[taken]];
    FlattenAppend(input[..taken], [input[taken]]);
    FlattenSingle(input[taken]);
  }

  /** The input half of the interactive loop: what is written, the backlog, how many messages were pulled, whether a write was refused. */
  datatype Shell = Shell(wire: seq<Bytes>, pending: Bytes, taken: nat, broke: bool)

  const IDLE: Shell := Shell([], [], 0, false)

  function Turned(input: seq<Bytes>, s: Shell, turn: Turn): Shell {
    match turn
    case Receive => if s.pending == [] && s.taken < |input| then s.(pending := input[s.taken], taken := s.taken + 1) else s
    case Flush(accepted) =>
      if s.pending == [] then s
      else if !accepted then s.(broke := true)
      else
        var take := Min(|s.pending|, WRITE_CHUNK);
        s.(wire := s.wire + [s.pending[..take]], pending := s.pending[take..])
    case Elsewhere => s
  }

  /** The loop leaves at the first refused write. */
  function TurnedAll(input: seq<Bytes>, schedule: seq<Turn>): Shell {
    if schedule == [] then IDLE
    else
      var s := TurnedAll(input, schedule[..|schedule| - 1]);
      if s.broke then s else Turned(input, s, schedule[|schedule| - 1])
  }

  lemma {:induction false} BrokenStays(input: seq<Bytes>, schedule: seq<Turn>, i: nat)
    requires i <= |schedule| && TurnedAll(input, schedule[..i]).broke
    ensures TurnedAll(input, schedule) == TurnedAll(input, schedule[..i])
    decreases |schedule| - i
  {
    if i == |schedule| {
      assert schedule[..i] == schedule;
    } else {
      assert schedule[..i + 1][..i] == schedule[..i];
      BrokenStays(input, schedule, i + 1);
    }
  }

  /**
   * The interactive shell's input half: a new message is pulled only when the
   * backlog is empty, and at most one chunk is written per turn. Runs until the
   * schedule ends or a write is refused. Input reaches the wire in order and in
   * chunks; the bytes not written are the backlog and the messages not pulled.
   */
  method PumpBacklog(input: seq<Bytes>, schedule: seq<Turn>)
      returns (wire: seq<Bytes>, pending: Bytes, taken: nat, broke: bool)
    ensures Shell(wire, pending, taken, broke) == TurnedAll(input, schedule)
    ensures taken <= |input| && Flatten(wire) + pending == Flatten(input[..taken])
    ensures forall i :: 0 <= i < |wire| ==> 0 < |wire[i]| <= 8192
    ensures broke ==> pending != []
  {
    wire, pending, taken, broke := [], [], 0, false;
    assert Flatten<Byte>([]) == [] && input[..0] == [];
    hide Flatten;
    for i := 0 to |schedule|
      invariant taken <= |input| && Flatten(wire) + pending == Flatten(input[..taken])
      invariant forall j :: 0 <= j < |wire| ==> 0 < |wire[j]| <= WRITE_CHUNK
      invariant !broke && Shell(wire, pending, taken, broke) == TurnedAll(input, schedule[..i])
    {
      assert schedule[..i + 1][..i] == schedule[..i];
      match schedule[i]
      case Receive =>
        if pending == [] && taken < |input| {
          TakeNext(input, taken);
          pending := input[taken];
          taken := taken + 1;
        }
      case Flush(accepted) =>
        if pending != [] {
          if !accepted {
            broke := true;
            BrokenStays(input, schedule, i + 1);
            return;
          }
          var take := Min(|pending|, WRITE_CHUNK);
          MoveToWire(wire, pending, take);
          wire := wire + [pending[..take]];
          pending := pending[take..];
        }
      case Elsewhere =>
    }
    assert schedule[..|schedule|] == schedule;
  }

  /** Pulling and writing by turns. */
  function Rounds(k: nat): seq<Turn> {
    if k == 0 then [] else Rounds(k - 1) + [Receive, Flush(true)]
  }

  /** Pieces of 8192 bytes that some bytes make. */
  function Pieces(bytes: nat): nat {
    (bytes + 8191) / 8192
  }

  /** The rounds it takes: one for each piece, and one for an empty message. */
  function RoundsFor(input: seq<Bytes>): nat {
    if input == [] then 0 else Max(1, Pieces(|input[0]|)) + RoundsFor(input[1..])
  }

  lemma OneRound(input: seq<Bytes>, s: Shell)
    requires s.taken <= |input|
    ensures var t := Turned(input, Turned(input, s, Receive), Flush(true));
            var need, left := Pieces(|s.pending|) + RoundsFor(input[s.taken..]), Pieces(|t.pending|) + RoundsFor(input[Min(t.taken, |input|)..]);
            t.taken <= |input| && t.broke == s.broke && left == if need == 0 then 0 else need - 1
  {
    if s.taken < |input| {
      assert input[s.taken..][0] == input[s.taken] && input[s.taken..][1..] == input[s.taken + 1..];
    }
  }

  lemma {:induction false} AfterRounds(input: seq<Bytes>, k: nat)
    ensures var s := TurnedAll(input, Rounds(k));
            && s.taken <= |input| && !s.broke
            && Pieces(|s.pending|) + RoundsFor(input[s.taken..]) == if k <= RoundsFor(input) then RoundsFor(input) - k else 0
  {
    if k == 0 {
      assert input[0..] == input;
    } else {
      AfterRounds(input, k - 1);
      var all, s := Rounds(k), TurnedAll(input, Rounds(k - 1));
      assert all[..|all| - 1] == Rounds(k - 1) + [Receive] && (Rounds(k - 1) + [Receive])[..|all| - 2] == Rounds(k - 1);
      assert TurnedAll(input, Rounds(k - 1) + [Receive]) == Turned(input, s, Receive);
      OneRound(input, s);
    }
  }

  /** Turn about, all input is pulled and written after one round for each piece of 8192 bytes, and not before. */
  method RoundsDeliver(input: seq<Bytes>, k: nat) returns (wire: seq<Bytes>, pending: Bytes, taken: nat)
    ensures taken == |input| && pending == [] <==> k >= RoundsFor(input)
    ensures k >= RoundsFor(input) ==> Flatten(wire) == Flatten(input)
  {
    var broke;
    wire, pending, taken, broke := PumpBacklog(input, Rounds(k));
    AfterRounds(input, k);
    assert input[..|input|] == input;
    assert Flatten(wire) + [] == Flatten(wire);
    if taken < |input| {
      assert RoundsFor(input[taken..]) >= 1;
    }
  }
}
