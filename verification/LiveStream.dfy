/**
 * A session's output pipeline: a byte-capped scrollback with a sequence counter
 * under one lock, and fan-out to subscribers under another. One producer per
 * session; subscribing, taking a snapshot and dropping a receiver may happen
 * between any two of its steps.
 */
module LiveStream {
  import opened Wrappers

  type Id = nat

  datatype Chunk = Chunk(seqNo: nat, bytes: Bytes)

  /** The last `cap` bytes. */
  function Tail(b: Bytes, cap: nat): Bytes {
    if |b| <= cap then b else b[|b| - cap..]
  }

  /** Both locks' contents: the scrollback, the senders, and every receiver's queue. */
  datatype Stream = Stream(cap: nat, buf: Bytes, lastSeq: nat, subs: seq<Id>, queues: map<Id, seq<Chunk>>, gone: set<Id>) {
    predicate Valid() {
      && |buf| <= cap && (forall id :: id in subs ==> id in queues)
      && forall i, j :: 0 <= i < j < |subs| ==> subs[i] != subs[j]
    }
  }

  function Empty(cap: nat): Stream {
    Stream(cap, [], 0, [], map[], {})
  }

  function Seeded(s: Stream, bytes: Bytes): Stream {
    s.(buf := Tail(bytes, s.cap))
  }

  function Pushed(s: Stream, data: Bytes): Stream {
    s.(buf := Tail(s.buf + data, s.cap), lastSeq := s.lastSeq + 1)
  }

  function Filter(ids: seq<Id>, gone: set<Id>): seq<Id> {
    if ids == [] then [] else if ids[0] in gone then Filter(ids[1..], gone) else [ids[0]] + Filter(ids[1..], gone)
  }

  function Sent(queues: map<Id, seq<Chunk>>, to: seq<Id>, gone: set<Id>, chunk: Chunk): map<Id, seq<Chunk>> {
    map id | id in queues :: if id in to && id !in gone then queues[id] + [chunk] else queues[id]
  }

  function FannedOut(s: Stream, chunk: Chunk): Stream {
    s.(queues := Sent(s.queues, s.subs, s.gone, chunk), subs := Filter(s.subs, s.gone))
  }

  function Subscribed(s: Stream, id: Id): Stream {
    s.(subs := s.subs + [id], queues := s.queues[id := []])
  }

  lemma {:induction false} FilterAppend(a: seq<Id>, id: Id, gone: set<Id>)
    ensures Filter(a + [id], gone) == Filter(a, gone) + if id in gone then [] else [id]
  {
    if a == [] {
      assert a + [id] == [id] && [id][1..] == [];
    } else {
      assert (a + [id])[1..] == a[1..] + [id];
      FilterAppend(a[1..], id, gone);
    }
  }

  lemma {:induction false} FilterKeeps(a: seq<Id>, gone: set<Id>)
    ensures forall id :: id in Filter(a, gone) <==> id in a && id !in gone
    ensures (forall i, j :: 0 <= i < j < |a| ==> a[i] != a[j]) ==>
              forall i, j :: 0 <= i < j < |Filter(a, gone)| ==> Filter(a, gone)[i] != Filter(a, gone)[j]
  {
    if a != [] {
      FilterKeeps(a[1..], gone);
    }
  }

  lemma FanOutValid(s: Stream, chunk: Chunk)
    requires s.Valid()
    ensures FannedOut(s, chunk).Valid() && Sent(s.queues, s.subs, s.gone, chunk).Keys == s.queues.Keys
  {
    FilterKeeps(s.subs, s.gone);
  }

  lemma FanOutStart(s: Stream, chunk: Chunk)
    ensures Sent(s.queues, s.subs[..0], s.gone, chunk) == s.queues && Filter(s.subs[..0], s.gone) == []
  {}

  /** What one more subscriber adds. */
  lemma FanOutNext(s: Stream, chunk: Chunk, i: nat)
    requires s.Valid() && i < |s.subs|
    ensures var id := s.subs[i];
            var queues := Sent(s.queues, s.subs[..i], s.gone, chunk);
            && id in queues
            && Sent(s.queues, s.subs[..i + 1], s.gone, chunk) == (if id in s.gone then queues else queues[id := queues[id] + [chunk]])
            && Filter(s.subs[..i + 1], s.gone) == Filter(s.subs[..i], s.gone) + (if id in s.gone then [] else [id])
  {
    var id := s.subs[i];
    assert s.subs[..i + 1] == s.subs[..i] + [id];
    FilterAppend(s.subs[..i], id, s.gone);
    assert id in s.queues && id !in s.subs[..i];
    hide Filter, Sent, Stream.Valid;
    SentOneMore(s.queues, s.subs[..i], id, s.gone, chunk);
  }

  lemma SentOneMore(queues: map<Id, seq<Chunk>>, to: seq<Id>, id: Id, gone: set<Id>, chunk: Chunk)
    requires id in queues && id !in to
    ensures id in Sent(queues, to, gone, chunk)
    ensures Sent(queues, to + [id], gone, chunk)
            == if id in gone then Sent(queues, to, gone, chunk)
               else Sent(queues, to, gone, chunk)[id := Sent(queues, to, gone, chunk)[id] + [chunk]]
  {}

  /** Byte ring buffer and chunk counter. */
  class Scrollback {
    const cap: nat
    var buf: Bytes
    var lastSeq: nat

    constructor (cap: nat)
      ensures this.cap == cap && buf == [] && lastSeq == 0
    {
      this.cap := cap;
      buf := [];
      lastSeq := 0;
    }

    /** Append a chunk, drop what exceeds the cap from the front, and number it. */
    method Push(data: Bytes) returns (seqNo: nat)
      modifies this
      ensures seqNo == lastSeq == old(lastSeq) + 1
      ensures buf == Tail(old(buf) + data, cap)
    {
      lastSeq := lastSeq + 1;
      buf := buf + data;
      var overflow := Max(|buf| - cap, 0);
      if overflow > 0 {
        buf := buf[overflow..];
      }
      return lastSeq;
    }

    /** Replace the contents by restored bytes, oldest dropped first; the counter stays. */
    method Seed(bytes: Bytes)
      modifies this`buf
      ensures buf == Tail(bytes, cap)
    {
      buf := bytes;
      while |buf| > cap
        invariant |buf| <= |bytes| && buf == bytes[|bytes| - |buf|..] && (|buf| >= cap || buf == bytes)
        decreases |buf|
      {
        buf := buf[1..];
      }
    }
  }

  class Shared {
    const scrollback: Scrollback
    var subscribers: seq<Id>
    var queues: map<Id, seq<Chunk>>
    var gone: set<Id>

    function View(): Stream
      reads this, scrollback
    {
      Stream(scrollback.cap, scrollback.buf, scrollback.lastSeq, subscribers, queues, gone)
    }

    constructor (cap: nat, seed: Bytes)
      ensures fresh(scrollback) && View() == Seeded(Empty(cap), seed) && View().Valid()
    {
      scrollback := new Scrollback(cap);
      subscribers, queues, gone := [], map[], {};
      new;
      scrollback.Seed(seed);
    }

    /** Put a chunk on one receiver's queue; refused once the receiver is gone. */
    method Send(id: Id, chunk: Chunk) returns (ok: bool)
      requires id in queues
      modifies this`queues
      ensures ok == (id !in gone)
      ensures queues == if ok then old(queues)[id := old(queues)[id] + [chunk]] else old(queues)
    {
      ok := id !in gone;
      if ok {
        queues := queues[id := queues[id] + [chunk]];
      }
    }

    /** Send to every subscriber in turn; the list comes back without those whose receiver is gone. */
    method SendAll(chunk: Chunk) returns (kept: seq<Id>)
      requires View().Valid()
      modifies this`queues
      ensures queues == Sent(old(queues), subscribers, gone, chunk) && kept == Filter(subscribers, gone)
    {
      kept := [];
      ghost var before := View();
      FanOutStart(before, chunk);
      hide Filter, Sent, Stream.Valid;
      for i := 0 to |subscribers|
        invariant kept == Filter(before.subs[..i], before.gone)
        invariant queues == Sent(before.queues, before.subs[..i], before.gone, chunk)
      {
        FanOutNext(before, chunk, i);
        var ok := Send(subscribers[i], chunk);
        if ok {
          kept := kept + [subscribers[i]];
        }
      }
      assert before.subs[..|before.subs|] == before.subs;
    }

    /** The second half of an emission, under the subscribers' lock. */
    method FanOut(chunk: Chunk)
      requires View().Valid()
      modifies this`subscribers, this`queues
      ensures View() == FannedOut(old(View()), chunk) && View().Valid()
    {
      FanOutValid(View(), chunk);
      hide Filter, Sent, Stream.Valid;
      subscribers := SendAll(chunk);
      assert View() == FannedOut(old(View()), chunk);
    }

    /** One output chunk: number and keep it, then, under the other lock, fan it out. */
    method Emit(data: Bytes)
      requires View().Valid()
      modifies this, scrollback
      ensures gone == old(gone) && View().Valid()
      ensures View() == FannedOut(Pushed(old(View()), data), Chunk(old(scrollback.lastSeq) + 1, data))
    {
      var seqNo := scrollback.Push(data);
      assert View() == Pushed(old(View()), data) && View().Valid();
      hide Stream.Valid, FannedOut, Pushed;
      FanOut(Chunk(seqNo, data));
    }

    /** Scrollback bytes together with the number of the last chunk in them. */
    method Snapshot() returns (bytes: Bytes, lastSeq: nat)
      ensures bytes == View().buf && lastSeq == View().lastSeq
    {
      bytes, lastSeq := scrollback.buf, scrollback.lastSeq;
    }

    /** A new receiver, last in the list, that has received nothing yet. */
    method Subscribe(id: Id)
      requires View().Valid() && id !in queues
      modifies this`subscribers, this`queues
      ensures View() == Subscribed(old(View()), id) && View().Valid()
    {
      subscribers := subscribers + [id];
      queues := queues[id := []];
    }
  }

  // ---------------------------------------------------------------- interleavings

  datatype Shot = Shot(bytes: Bytes, lastSeq: nat)

  /**
   * The pipeline between steps. `pending` is a chunk numbered but not yet fanned
   * out; `out` is all output so far and `since` the number of chunks fanned out
   * when each receiver subscribed; `shots` is the latest snapshot each subscriber took.
   */
  datatype State = State(seed: Bytes, stream: Stream, pending: Option<Chunk>, out: seq<Bytes>,
                         since: map<Id, nat>, shots: map<Id, Shot>)

  datatype Label = Push(data: Bytes) | FanOut | Subscribe(id: Id) | Snapshot(id: Id) | Drop(id: Id)

  predicate Init(s: State) {
    s == State(s.seed, Seeded(Empty(s.stream.cap), s.seed), None, [], map[], map[])
  }

  /** A snapshot is taken by a caller that has subscribed; the producer finishes one chunk before the next. */
  predicate Enabled(s: State, l: Label) {
    match l
    case Push(_) => s.pending.None?
    case FanOut => s.pending.Some?
    case Subscribe(id) => id !in s.stream.queues
    case Snapshot(id) => id in s.stream.queues
    case Drop(id) => id in s.stream.queues
  }

  function Apply(s: State, l: Label): State
    requires Enabled(s, l)
  {
    match l
    case Push(data) =>
      s.(stream := Pushed(s.stream, data), pending := Some(Chunk(s.stream.lastSeq + 1, data)), out := s.out + [data])
    case FanOut => s.(stream := FannedOut(s.stream, s.pending.value), pending := None)
    case Subscribe(id) => s.(stream := Subscribed(s.stream, id), since := s.since[id := Delivered(s)])
    case Snapshot(id) => s.(shots := s.shots[id := Shot(s.stream.buf, s.stream.lastSeq)])
    case Drop(id) => s.(stream := s.stream.(gone := s.stream.gone + {id}))
  }

  /** How many chunks have been fanned out. */
  function Delivered(s: State): nat {
    if s.pending.Some? && s.out != [] then |s.out| - 1 else |s.out|
  }

  ghost predicate Runs(s: State, ls: seq<Label>, t: State)
    decreases |ls|
  {
    if ls == [] then s == t
    else Enabled(s, ls[0]) && Runs(Apply(s, ls[0]), ls[1..], t)
  }

  ghost predicate Reachable(t: State) {
    exists s, ls :: Init(s) && Runs(s, ls, t)
  }

  // ---------------------------------------------------------------- the invariant

  /** The seed followed by the first n chunks of output. */
  function Output(seed: Bytes, out: seq<Bytes>, n: nat): Bytes
    requires n <= |out|
  {
    seed + Flatten(out[..n])
  }

  /** A receiver holds exactly the chunks fanned out since it subscribed, in order, until its end is dropped. */
  ghost predicate QueueExact(s: State, id: Id)
    requires id in s.stream.queues && id in s.since
  {
    var q, from := s.stream.queues[id], s.since[id];
    && from + |q| <= Delivered(s)
    && (forall i :: 0 <= i < |q| ==> q[i] == Chunk(from + i + 1, s.out[from + i]))
    && (id !in s.stream.gone ==> id in s.stream.subs && from + |q| == Delivered(s))
  }

  ghost predicate ShotExact(s: State, id: Id)
    requires id in s.shots
  {
    && id in s.since && s.since[id] <= s.shots[id].lastSeq <= |s.out|
    && s.shots[id].bytes == Tail(Output(s.seed, s.out, s.shots[id].lastSeq), s.stream.cap)
  }

  ghost predicate CountsAgree(s: State) {
    && s.stream.Valid() && s.stream.lastSeq == |s.out|
    && (s.pending.Some? ==> s.out != [] && s.pending.value == Chunk(|s.out|, s.out[|s.out| - 1]))
    && s.stream.buf == Tail(Output(s.seed, s.out, |s.out|), s.stream.cap)
    && s.since.Keys == s.stream.queues.Keys && s.stream.gone <= s.stream.queues.Keys
  }

  ghost predicate QueuesExact(s: State)
    requires s.since.Keys == s.stream.queues.Keys
  {
    forall id :: id in s.stream.queues ==> QueueExact(s, id)
  }

  ghost predicate ShotsExact(s: State) {
    forall id :: id in s.shots ==> ShotExact(s, id)
  }

  ghost predicate Inv(s: State) {
    CountsAgree(s) && QueuesExact(s) && ShotsExact(s)
  }

  lemma TailAppend(a: Bytes, b: Bytes, cap: nat)
    ensures Tail(Tail(a, cap) + b, cap) == Tail(a + b, cap)
  {}

  lemma OutputGrows(seed: Bytes, out: seq<Bytes>, data: Bytes)
    ensures Output(seed, out + [data], |out| + 1) == Output(seed, out, |out|) + data
    ensures forall n :: 0 <= n <= |out| ==> Output(seed, out + [data], n) == Output(seed, out, n)
  {
    assert (out + [data])[..|out| + 1] == out + [data] && out[..|out|] == out;
    FlattenAppend(out, [data]);
    FlattenSingle(data);
    assert forall n :: 0 <= n <= |out| ==> (out + [data])[..n] == out[..n];
  }

  /** Snapshots already taken stay exact while output only grows. */
  lemma ShotsStayExact(s: State, t: State)
    requires ShotsExact(s) && t.shots == s.shots && t.seed == s.seed && t.stream.cap == s.stream.cap && |s.out| <= |t.out|
    requires forall n :: 0 <= n <= |s.out| ==> Output(s.seed, t.out, n) == Output(s.seed, s.out, n)
    requires forall id :: id in s.since ==> id in t.since && t.since[id] == s.since[id]
    ensures ShotsExact(t)
  {
    hide Output, Tail;
    forall id | id in t.shots ensures ShotExact(t, id) {
      assert ShotExact(s, id);
    }
  }

  lemma PushKeeps(s: State, data: Bytes)
    requires Inv(s) && Enabled(s, Push(data))
    ensures Inv(Apply(s, Push(data)))
  {
    var t := Apply(s, Push(data));
    OutputGrows(s.seed, s.out, data);
    TailAppend(Output(s.seed, s.out, |s.out|), data, s.stream.cap);
    ShotsStayExact(s, t);
    hide ShotsExact, Output;
    forall id | id in t.stream.queues ensures QueueExact(t, id) {
      assert QueueExact(s, id);
    }
  }

  lemma FanOutQueue(s: State, id: Id)
    requires Enabled(s, FanOut) && s.out != [] && s.pending.value == Chunk(|s.out|, s.out[|s.out| - 1])
    requires id in s.stream.queues && id in s.since && QueueExact(s, id)
    ensures QueueExact(Apply(s, FanOut), id)
  {
    FilterKeeps(s.stream.subs, s.stream.gone);
    hide Filter;
    var q := s.stream.queues[id];
    assert Apply(s, FanOut).stream.queues[id] == if id in s.stream.gone || id !in s.stream.subs then q else q + [s.pending.value];
  }

  lemma FanOutKeeps(s: State)
    requires Inv(s) && Enabled(s, FanOut)
    ensures Inv(Apply(s, FanOut))
  {
    var t := Apply(s, FanOut);
    ShotsStayExact(s, t);
    FanOutValid(s.stream, s.pending.value);
    hide ShotsExact, Output, Tail, Filter, Sent, Stream.Valid;
    forall id | id in t.stream.queues ensures QueueExact(t, id) {
      assert QueueExact(s, id);
      FanOutQueue(s, id);
    }
    hide QueueExact;
  }

  lemma SubscribeKeeps(s: State, id: Id)
    requires Inv(s) && Enabled(s, Subscribe(id))
    ensures Inv(Apply(s, Subscribe(id)))
  {
    var t := Apply(s, Subscribe(id));
    ShotsStayExact(s, t);
    hide ShotsExact, Output, Tail;
    assert t.stream.subs[|s.stream.subs|] == id;
    forall other | other in t.stream.queues ensures QueueExact(t, other) {
      if other != id {
        assert QueueExact(s, other);
      }
    }
  }

  lemma SnapshotKeeps(s: State, id: Id)
    requires Inv(s) && Enabled(s, Snapshot(id))
    ensures Inv(Apply(s, Snapshot(id)))
  {
    var t := Apply(s, Snapshot(id));
    assert QueueExact(s, id);
    hide Output, Tail, Stream.Valid;
    forall other | other in t.stream.queues ensures QueueExact(t, other) {
      assert QueueExact(s, other);
    }
    forall other | other in t.shots ensures ShotExact(t, other) {
      assert other != id ==> ShotExact(s, other);
    }
  }

  lemma DropKeeps(s: State, id: Id)
    requires Inv(s) && Enabled(s, Drop(id))
    ensures Inv(Apply(s, Drop(id)))
  {
    var t := Apply(s, Drop(id));
    ShotsStayExact(s, t);
    hide ShotsExact, Output, Tail;
    forall other | other in t.stream.queues ensures QueueExact(t, other) {
      assert QueueExact(s, other);
    }
  }

  lemma InvStep(s: State, l: Label)
    requires Inv(s) && Enabled(s, l)
    ensures Inv(Apply(s, l))
  {
    hide Inv, Apply;
    match l {
      case Push(data) => PushKeeps(s, data);
      case FanOut => FanOutKeeps(s);
      case Subscribe(id) => SubscribeKeeps(s, id);
      case Snapshot(id) => SnapshotKeeps(s, id);
      case Drop(id) => DropKeeps(s, id);
    }
  }

  lemma {:induction false} InvRun(s: State, ls: seq<Label>, t: State)
    requires Inv(s) && Runs(s, ls, t)
    ensures Inv(t)
    decreases |ls|
  {
    if ls != [] {
      InvStep(s, ls[0]);
      InvRun(Apply(s, ls[0]), ls[1..], t);
    }
  }

  lemma ReachableInv(t: State)
    requires Reachable(t)
    ensures Inv(t)
  {
    var s, ls :| Init(s) && Runs(s, ls, t);
    assert s.out[..0] == [];
    assert Output(s.seed, s.out, 0) == s.seed;
    InvRun(s, ls, t);
  }

  // ---------------------------------------------------------------- the backfill contract

  /** The chunks a client keeps after a snapshot: those numbered past it. */
  function Fresh(q: seq<Chunk>, lastSeq: nat): seq<Chunk> {
    if q == [] then [] else if q[0].seqNo > lastSeq then [q[0]] + Fresh(q[1..], lastSeq) else Fresh(q[1..], lastSeq)
  }

  function BytesOf(q: seq<Chunk>): Bytes {
    if q == [] then [] else q[0].bytes + BytesOf(q[1..])
  }

  lemma {:induction false} FreshOfRun(q: seq<Chunk>, from: nat, lastSeq: nat)
    requires forall i :: 0 <= i < |q| ==> q[i].seqNo == from + i + 1
    requires from <= lastSeq
    ensures Fresh(q, lastSeq) == if from + |q| <= lastSeq then [] else q[lastSeq - from..]
  {
    if q != [] {
      if from < lastSeq {
        FreshOfRun(q[1..], from + 1, lastSeq);
        assert from + |q| > lastSeq ==> q[1..][lastSeq - from - 1..] == q[lastSeq - from..];
      } else {
        AllFresh(q, lastSeq);
        assert q[0..] == q;
      }
    }
  }

  lemma {:induction false} AllFresh(q: seq<Chunk>, lastSeq: nat)
    requires forall i :: 0 <= i < |q| ==> q[i].seqNo > lastSeq
    ensures Fresh(q, lastSeq) == q
  {
    if q != [] {
      AllFresh(q[1..], lastSeq);
    }
  }

  lemma OutputNext(seed: Bytes, out: seq<Bytes>, n: nat)
    requires n < |out|
    ensures Output(seed, out, n + 1) == Output(seed, out, n) + out[n]
  {
    assert out[..n + 1] == out[..n] + [out[n]];
    FlattenAppend(out[..n], [out[n]]);
    FlattenSingle(out[n]);
  }

  lemma {:induction false} BytesOfRun(q: seq<Chunk>, seed: Bytes, out: seq<Bytes>, from: nat)
    requires from + |q| <= |out| && forall i :: 0 <= i < |q| ==> q[i].bytes == out[from + i]
    ensures Output(seed, out, from) + BytesOf(q) == Output(seed, out, from + |q|)
  {
    hide Output;
    if q != [] {
      OutputNext(seed, out, from);
      BytesOfRun(q[1..], seed, out, from + 1);
      assert Output(seed, out, from) + (q[0].bytes + BytesOf(q[1..])) == Output(seed, out, from) + q[0].bytes + BytesOf(q[1..]);
    }
  }

  /** The bytes a client shows: its snapshot, then the chunks numbered past it. */
  function Shown(shot: Shot, read: seq<Chunk>): Bytes {
    shot.bytes + BytesOf(Fresh(read, shot.lastSeq))
  }

  lemma ShownIsOutput(q: seq<Chunk>, seed: Bytes, out: seq<Bytes>, from: nat, shot: Shot, cap: nat)
    requires from + |q| <= |out| && from <= shot.lastSeq <= |out|
    requires forall i :: 0 <= i < |q| ==> q[i] == Chunk(from + i + 1, out[from + i])
    requires shot.bytes == Tail(Output(seed, out, shot.lastSeq), cap)
    ensures var news := Fresh(q, shot.lastSeq);
            && shot.lastSeq + |news| == Max(shot.lastSeq, from + |q|)
            && (forall i :: 0 <= i < |news| ==> news[i].seqNo == shot.lastSeq + 1 + i)
            && |Output(seed, out, shot.lastSeq)| <= |Output(seed, out, shot.lastSeq + |news|)|
            && Shown(shot, q) == From(Output(seed, out, shot.lastSeq + |news|), |Output(seed, out, shot.lastSeq)|, cap)
  {
    FreshOfRun(q, from, shot.lastSeq);
    var news := Fresh(q, shot.lastSeq);
    hide Fresh, BytesOf, Output, Tail, From;
    assert forall i :: 0 <= i < |news| ==> news[i] == q[shot.lastSeq - from + i];
    BytesOfRun(news, seed, out, shot.lastSeq);
    TailThen(Output(seed, out, shot.lastSeq), BytesOf(news), cap);
  }

  lemma TailThen(a: Bytes, b: Bytes, cap: nat)
    ensures Tail(a, cap) + b == From(a + b, |a|, cap)
  {}

  /** A text without the bytes that a cap cuts from the front of its first n. */
  function From(text: Bytes, n: nat, cap: nat): Bytes
    requires n <= |text|
  {
    text[if n > cap then n - cap else 0..]
  }

  /**
   * No loss, no duplication. However subscribing and then taking a snapshot
   * fell between the producer's steps, and however many of its chunks the
   * client has read so far, the snapshot followed by the chunks numbered past it
   * is the seed and output up to some chunk n, from exactly where the byte cap
   * cut when the snapshot was taken; those chunks are numbered one after
   * another; and once the producer is between chunks and the client has read
   * all, n is the last.
   */
  lemma NoLossNoDuplication(s: State, id: Id, read: nat)
    requires Reachable(s) && id in s.shots && id in s.stream.queues && read <= |s.stream.queues[id]|
    ensures var shot, q := s.shots[id], s.stream.queues[id][..read];
            var news := Fresh(q, shot.lastSeq);
            var n := shot.lastSeq + |news|;
            && n <= |s.out|
            && (forall i :: 0 <= i < |news| ==> news[i].seqNo == shot.lastSeq + 1 + i)
            && |Output(s.seed, s.out, shot.lastSeq)| <= |Output(s.seed, s.out, n)|
            && Shown(shot, q) == From(Output(s.seed, s.out, n), |Output(s.seed, s.out, shot.lastSeq)|, s.stream.cap)
            && (s.pending.None? && id !in s.stream.gone && read == |s.stream.queues[id]| ==> n == |s.out|)
  {
    ReachableInv(s);
    hide Reachable, Output, Shown, From, Tail, Fresh, Stream.Valid;
    assert QueueExact(s, id) && ShotExact(s, id);
    var shot, q := s.shots[id], s.stream.queues[id][..read];
    ShownIsOutput(q, s.seed, s.out, s.since[id], shot, s.stream.cap);
  }

  /** A receiver subscribed between the numbering of a chunk and its fan-out gets that chunk, and drops it again if its snapshot has it. */
  lemma LateSubscriberSeesPending(s: State, id: Id)
    requires Reachable(s) && s.pending.Some? && id !in s.stream.queues
    ensures var t := Apply(Apply(Apply(s, Subscribe(id)), Snapshot(id)), FanOut);
            && t.stream.queues[id] == [s.pending.value]
            && Fresh([s.pending.value], t.shots[id].lastSeq) == []
  {
    ReachableInv(s);
    var q := [s.pending.value];
    assert q[1..] == [];
  }

  /** In the other order a chunk can be lost: one numbered and fanned out between the snapshot and the subscription. */
  lemma SnapshotFirstLoses(cap: nat, data: Bytes)
    requires data != [] && |data| <= cap
    ensures var s := State([], Seeded(Empty(cap), []), None, [], map[], map[]);
            var shot := Shot(s.stream.buf, s.stream.lastSeq);
            var t := Apply(Apply(Apply(s, Push(data)), FanOut), Subscribe(0));
            && Reachable(t) && t.pending.None?
            && Fresh(t.stream.queues[0], shot.lastSeq) == []
            && shot.bytes == [] && Output(t.seed, t.out, |t.out|) == data
  {
    var s := State([], Seeded(Empty(cap), []), None, [], map[], map[]);
    var a := Apply(s, Push(data));
    var b := Apply(a, FanOut);
    var t := Apply(b, Subscribe(0));
    var ls := [Push(data), FanOut, Subscribe(0)];
    assert ls[1..] == [FanOut, Subscribe(0)] && ls[1..][1..] == [Subscribe(0)] && ls[1..][1..][1..] == [];
    assert Runs(t, [], t);
    assert Runs(b, [Subscribe(0)], t);
    assert Runs(a, [FanOut, Subscribe(0)], t);
    assert Init(s) && Runs(s, ls, t);
    FlattenSingle(data);
    assert t.out[..1] == [data];
  }
}
