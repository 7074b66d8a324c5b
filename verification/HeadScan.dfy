/**
 * Probing the head of a transcript under a record and a byte budget, through a
 * chunked reader, without ever holding more than one bounded record.
 */
module HeadScanning {
  import opened Wrappers

  const NEWLINE: Byte := 10
  const MAX_RECORD_BYTES: nat := 262144
  const HEAD_LIMITS: Limits := Limits(400, 2097152)
  const CWD_LIMITS: Limits := Limits(256, 1048576)

  // ---------------------------------------------------------------- the probe

  /** What a decoded record offers: fields already filtered as the decoder filters them. */
  datatype Rec = Rec(cwd: Option<string>, date: Option<string>, aiTitle: Option<string>, userText: Option<string>, marker: bool)

  datatype Meta = Meta(cwd: Option<string>, date: Option<string>, isExtraction: bool, firstPrompt: Option<string>,
                       aiTitle: Option<string>, seenFirstPrompt: bool)

  const BLANK: Meta := Meta(None, None, false, None, None, false)

  predicate IsSpace(b: Byte) {
    b == 32 || 9 <= b <= 13
  }

  function TrimLeft(line: Bytes): Bytes {
    if line != [] && IsSpace(line[0]) then TrimLeft(line[1..]) else line
  }

  function TrimRight(line: Bytes): Bytes {
    if line != [] && IsSpace(line[|line| - 1]) then TrimRight(line[..|line| - 1]) else line
  }

  /** A line is trimmed before decoding; a blank one is no record. */
  function ParseLine(decode: Bytes -> Option<Rec>, line: Bytes): Option<Rec> {
    var text := TrimLeft(TrimRight(line));
    if text == [] then None else decode(text)
  }

  /** The first cwd and the first prompt stay; date and title follow the last record. */
  function Fold(meta: Meta, rec: Rec): Meta {
    var a := meta.(cwd := if meta.cwd.None? then rec.cwd else meta.cwd,
                   date := if rec.date.Some? then rec.date else meta.date,
                   aiTitle := if rec.aiTitle.Some? && rec.aiTitle.value != "" then rec.aiTitle else meta.aiTitle);
    if !meta.seenFirstPrompt && rec.userText.Some? then
      a.(seenFirstPrompt := true, isExtraction := rec.marker, firstPrompt := rec.userText)
    else a
  }

  function Feed(decode: Bytes -> Option<Rec>, meta: Meta, line: Bytes): Meta {
    var rec := ParseLine(decode, line);
    if rec.None? then meta else Fold(meta, rec.value)
  }

  function FeedAll(decode: Bytes -> Option<Rec>, meta: Meta, lines: seq<Bytes>): Meta
    decreases |lines|
  {
    if lines == [] then meta else FeedAll(decode, Feed(decode, meta, lines[0]), lines[1..])
  }

  class Probe {
    const decode: Bytes -> Option<Rec>
    var cwd: Option<string>
    var date: Option<string>
    var isExtraction: bool
    var firstPrompt: Option<string>
    var aiTitle: Option<string>
    var seenFirstPrompt: bool

    function View(): Meta
      reads this
    {
      Meta(cwd, date, isExtraction, firstPrompt, aiTitle, seenFirstPrompt)
    }

    constructor (decode: Bytes -> Option<Rec>)
      ensures View() == BLANK && this.decode == decode
    {
      this.decode := decode;
      cwd, date, isExtraction, firstPrompt, aiTitle, seenFirstPrompt := None, None, false, None, None, false;
    }

    method FeedLine(line: Bytes)
      modifies this
      ensures View() == Feed(decode, old(View()), line)
    {
      var parsed := ParseLine(decode, line);
      if parsed.None? {
        return;
      }
      var rec := parsed.value;
      if cwd.None? {
        cwd := rec.cwd;
      }
      if rec.date.Some? {
        date := rec.date;
      }
      if rec.aiTitle.Some? {
        if rec.aiTitle.value != "" {
          aiTitle := rec.aiTitle;
        }
      }
      if !seenFirstPrompt {
        if rec.userText.Some? {
          seenFirstPrompt := true;
          isExtraction := rec.marker;
          firstPrompt := rec.userText;
        }
      }
    }
  }

  // ---------------------------------------------------------------- records of a file

  /** Position of the first newline from `pos` on, or the end of the file. */
  function NextNewline(file: Bytes, pos: nat): (i: nat)
    requires pos <= |file|
    ensures pos <= i <= |file| && (i < |file| ==> file[i] == NEWLINE)
    decreases |file| - pos
  {
    if pos == |file| || file[pos] == NEWLINE then pos else NextNewline(file, pos + 1)
  }

  /** End of the record at `pos`, its newline included; the last record may lack one. */
  function RecordEnd(file: Bytes, pos: nat): (e: nat)
    requires pos <= |file|
    ensures pos <= e <= |file| && (e == pos <==> pos == |file|)
  {
    var i := NextNewline(file, pos);
    if i < |file| then i + 1 else i
  }

  function Records(file: Bytes, pos: nat): seq<Bytes>
    requires pos <= |file|
    decreases |file| - pos
  {
    if pos == |file| then [] else [file[pos..RecordEnd(file, pos)]] + Records(file, RecordEnd(file, pos))
  }

  /** One record: no newline (byte 10) but a last one, which only the record at the end of the file may lack. */
  predicate WholeRecord(record: Bytes, last: bool) {
    record != [] && (forall i :: 0 <= i < |record| - 1 ==> record[i] != 10) && (!last ==> record[|record| - 1] == 10)
  }

  lemma {:induction false} NoNewlineBefore(file: Bytes, pos: nat, i: nat)
    requires pos <= |file| && pos <= i < NextNewline(file, pos)
    ensures file[i] != 10
    decreases i - pos
  {
    if pos < i {
      NoNewlineBefore(file, pos + 1, i);
    }
  }

  /** The records of a file are its bytes, cut after each newline and nowhere else. */
  lemma {:induction false} RecordsPartition(file: Bytes, pos: nat)
    requires pos <= |file|
    ensures Flatten(Records(file, pos)) == file[pos..]
    ensures forall i :: 0 <= i < |Records(file, pos)| ==> WholeRecord(Records(file, pos)[i], i == |Records(file, pos)| - 1)
    decreases |file| - pos
  {
    if pos < |file| {
      var end := RecordEnd(file, pos);
      var record, rest := file[pos..end], Records(file, end);
      RecordsPartition(file, end);
      assert ([record] + rest)[1..] == rest && file[pos..] == record + file[end..];
      forall i | 0 <= i < |record| - 1 ensures record[i] != 10 {
        NoNewlineBefore(file, pos, pos + i);
      }
      assert rest == [] <==> end == |file|;
    }
  }

  /** Offset of the first newline of a chunk. */
  function NewlineIn(chunk: Bytes): (r: Option<nat>)
    ensures r.Some? ==> r.value < |chunk|
  {
    if chunk == [] then None
    else if chunk[0] == NEWLINE then Some(0)
    else
      var r := NewlineIn(chunk[1..]);
      if r.None? then None else Some(r.value + 1)
  }

  lemma {:induction false} ChunkNewline(file: Bytes, pos: nat, end: nat)
    requires pos <= end <= |file|
    ensures NewlineIn(file[pos..end]) == if NextNewline(file, pos) < end then Some(NextNewline(file, pos) - pos) else None
    decreases end - pos
  {
    if pos < end && file[pos] != NEWLINE {
      assert file[pos..end][1..] == file[pos + 1..end];
      ChunkNewline(file, pos + 1, end);
    }
  }

  lemma {:induction false} NewlineFurtherOn(file: Bytes, pos: nat, later: nat)
    requires pos <= later <= |file| && later <= NextNewline(file, pos)
    ensures NextNewline(file, later) == NextNewline(file, pos)
    decreases later - pos
  {
    if pos < later {
      NewlineFurtherOn(file, pos + 1, later);
    }
  }

  // ---------------------------------------------------------------- the reader

  /** How far a refill reaches: at least one byte, and no further than the end. */
  function ChunkEnd(extra: nat -> nat, file: Bytes, pos: nat): (e: nat)
    requires pos <= |file|
    ensures pos <= e <= |file| && (e == pos <==> pos == |file|) && e <= pos + extra(pos) + 1
  {
    Min(|file|, pos + extra(pos) + 1)
  }

  /** Where a read bounded by `cap` stops. */
  function BoundedEnd(file: Bytes, pos: nat, cap: nat): (e: nat)
    requires pos <= |file|
    ensures pos <= e <= |file| && e <= pos + cap
  {
    Min(RecordEnd(file, pos), pos + cap)
  }

  class Reader {
    const file: Bytes
    const extra: nat -> nat
    var at: nat

    predicate Valid()
      reads this
    {
      at <= |file|
    }

    constructor (file: Bytes, extra: nat -> nat)
      ensures Valid() && at == 0 && this.file == file && this.extra == extra
    {
      this.file, this.extra, at := file, extra, 0;
    }

    method FillBuf() returns (chunk: Bytes)
      requires Valid()
      ensures chunk == file[at..ChunkEnd(extra, file, at)]
    {
      chunk := file[at..ChunkEnd(extra, file, at)];
    }

    method Consume(n: nat)
      requires Valid() && at + n <= |file|
      modifies this`at
      ensures Valid() && at == old(at) + n
    {
      at := at + n;
    }

    /** One refill of a bounded read begun at `start`: it ends at a newline or at the end of the file. */
    method ReadMore(ghost start: nat, buf: Bytes, cap: nat) returns (more: Bytes, ended: bool)
      requires Valid() && start <= at < start + cap && at <= NextNewline(file, start) && buf == file[start..at]
      modifies this`at
      ensures Valid() && start <= at <= start + cap && at >= old(at) && more == file[start..at]
      ensures if ended then at == BoundedEnd(file, start, cap) else old(at) < at <= NextNewline(file, start)
    {
      hide NextNewline, NewlineIn, ChunkEnd;
      var chunk := FillBuf();
      if chunk == [] {
        return buf, true;
      }
      chunk := chunk[..Min(|chunk|, cap - |buf|)];
      var newline := NewlineIn(chunk);
      CutChunk(file, start, at, ChunkEnd(extra, file, at), |chunk|);
      ChunkNewline(file, at, at + |chunk|);
      NewlineFurtherOn(file, start, at);
      var n := if newline.Some? then newline.value + 1 else |chunk|;
      CutChunk(file, start, at, at + |chunk|, n);
      more, ended := buf + chunk[..n], newline.Some?;
      Consume(n);
    }

    /** Read up to and including a newline, at most `cap` bytes, chunk by chunk. */
    method ReadUntilNewline(cap: nat) returns (buf: Bytes)
      requires Valid()
      modifies this`at
      ensures Valid() && at == BoundedEnd(file, old(at), cap) && buf == file[old(at)..at]
    {
      buf := [];
      ghost var start := at;
      hide NextNewline;
      while |buf| < cap
        invariant Valid() && start <= at <= start + cap && at <= NextNewline(file, start) && buf == file[start..at]
        decreases |file| - at
      {
        var ended;
        buf, ended := ReadMore(start, buf, cap);
        if ended {
          return;
        }
      }
    }
  }

  /** Taking k bytes of what a refill offers, after what has been read since `start`. */
  lemma CutChunk(file: Bytes, start: nat, pos: nat, end: nat, k: nat)
    requires start <= pos <= end <= |file| && pos + k <= end
    ensures file[pos..end][..k] == file[pos..pos + k]
    ensures file[start..pos] + file[pos..pos + k] == file[start..pos + k]
  {}

  // ---------------------------------------------------------------- draining an oversized record

  datatype DrainEnd = AtNewline | AtEof | OutOfBudget
  datatype Drain = Drain(skipped: nat, end: DrainEnd)

  /** Skip past the next newline; the budget is looked at only after a whole chunk has gone. */
  function Drained(extra: nat -> nat, file: Bytes, pos: nat, skipped: nat, budget: nat): (d: Drain)
    requires pos <= |file|
    ensures skipped <= d.skipped && pos + d.skipped - skipped <= |file|
    decreases |file| - pos
  {
    var end, newline := ChunkEnd(extra, file, pos), NextNewline(file, pos);
    if pos == |file| then Drain(skipped, AtEof)
    else if newline < end then Drain(skipped + newline + 1 - pos, AtNewline)
    else if skipped + end - pos >= budget then Drain(skipped + end - pos, OutOfBudget)
    else Drained(extra, file, end, skipped + end - pos, budget)
  }

  /** One chunk of a drain. */
  method DrainChunk(reader: Reader, skipped: nat, budget: nat) returns (d: Drain, ended: bool)
    requires reader.Valid()
    modifies reader`at
    ensures reader.Valid() && d.skipped >= skipped && reader.at == old(reader.at) + d.skipped - skipped
    ensures !ended ==> reader.at > old(reader.at)
    ensures var whole := Drained(reader.extra, reader.file, old(reader.at), skipped, budget);
            whole == if ended then d else Drained(reader.extra, reader.file, reader.at, d.skipped, budget)
  {
    hide NextNewline, NewlineIn, ChunkEnd;
    var chunk := reader.FillBuf();
    if chunk == [] {
      return Drain(skipped, AtEof), true;
    }
    ChunkNewline(reader.file, reader.at, ChunkEnd(reader.extra, reader.file, reader.at));
    var newline := NewlineIn(chunk);
    if newline.Some? {
      reader.Consume(newline.value + 1);
      return Drain(skipped + newline.value + 1, AtNewline), true;
    }
    reader.Consume(|chunk|);
    d, ended := Drain(skipped + |chunk|, OutOfBudget), skipped + |chunk| >= budget;
  }

  method DiscardToNewline(reader: Reader, budget: nat) returns (d: Drain)
    requires reader.Valid()
    modifies reader`at
    ensures reader.Valid() && d == Drained(reader.extra, reader.file, old(reader.at), 0, budget)
    ensures reader.at == old(reader.at) + d.skipped
  {
    var skipped: nat := 0;
    ghost var whole := Drained(reader.extra, reader.file, reader.at, 0, budget);
    hide Drained;
    while true
      invariant reader.Valid() && reader.at == old(reader.at) + skipped
      invariant Drained(reader.extra, reader.file, reader.at, skipped, budget) == whole
      decreases |reader.file| - reader.at
    {
      var ended;
      d, ended := DrainChunk(reader, skipped, budget);
      if ended {
        return;
      }
      skipped := d.skipped;
    }
  }

  // ---------------------------------------------------------------- folding the head

  datatype Limits = Limits(records: nat, bytes: nat)

  /** The settings of one scan: how the reader chunks, how lines decode, when to stop, and the budgets. */
  datatype Setup = Setup(extra: nat -> nat, decode: Bytes -> Option<Rec>, stop: Meta -> bool, lim: Limits)

  datatype HeadScan = HeadScan(probe: Meta, exhausted: bool, bytesRead: nat, peakBuffer: nat)

  /** What one turn of the scan does: stop, drop a record too big to hold, or take one; and how far that reads. */
  datatype Move = Stop(exhausted: bool, end: nat, held: nat) | Drop(end: nat, held: nat) | Take(end: nat)

  function MoveAt(extra: nat -> nat, lim: Limits, file: Bytes, pos: nat, records: nat): (m: Move)
    requires pos <= |file|
    ensures pos <= m.end <= |file| && (!m.Stop? ==> pos < m.end)
  {
    if records >= lim.records || pos >= lim.bytes then Stop(true, pos, 0)
    else
      var cap := Min(MAX_RECORD_BYTES, lim.bytes - pos);
      var end := BoundedEnd(file, pos, cap);
      if end == pos then Stop(false, pos, 0)
      else if file[end - 1] != NEWLINE && end - pos == cap then
        var d := Drained(extra, file, end, 0, lim.bytes - end);
        match d.end
        case AtNewline => Drop(end + d.skipped, end - pos)
        case AtEof => Stop(false, end + d.skipped, end - pos)
        case OutOfBudget => Stop(true, end + d.skipped, end - pos)
      else Take(end)
  }

  /** The scan from a point in the file; everything before the point is consumed. */
  function Scan(u: Setup, file: Bytes, pos: nat, records: nat, peak: nat, meta: Meta): HeadScan
    requires pos <= |file|
    decreases |file| - pos
  {
    match MoveAt(u.extra, u.lim, file, pos, records)
    case Stop(exhausted, end, held) => HeadScan(meta, exhausted, end, Max(peak, held))
    case Drop(end, held) => Scan(u, file, end, records + 1, Max(peak, held), meta)
    case Take(end) =>
      var next, held := Feed(u.decode, meta, file[pos..end]), Max(peak, end - pos);
      if u.stop(next) then HeadScan(next, false, end, held) else Scan(u, file, end, records + 1, held, next)
  }

  /** One turn of the reading side: a bounded read, then a drain if the record outgrew its cap. */
  method NextMove(reader: Reader, lim: Limits, records: nat) returns (m: Move, buf: Bytes)
    requires reader.Valid()
    modifies reader`at
    ensures reader.Valid() && m == MoveAt(reader.extra, lim, reader.file, old(reader.at), records) && reader.at == m.end
    ensures m.Take? ==> buf == reader.file[old(reader.at)..m.end]
  {
    var consumed := reader.at;
    if records >= lim.records || consumed >= lim.bytes {
      return Stop(true, consumed, 0), [];
    }
    var cap := Min(MAX_RECORD_BYTES, lim.bytes - consumed);
    hide BoundedEnd, Drained;
    buf := reader.ReadUntilNewline(cap);
    var n := |buf|;
    if n == 0 {
      return Stop(false, consumed, 0), buf;
    }
    consumed := consumed + n;
    if buf[n - 1] != NEWLINE && n == cap {
      var d := DiscardToNewline(reader, lim.bytes - consumed);
      consumed := consumed + d.skipped;
      match d.end {
        case AtNewline => return Drop(consumed, n), buf;
        case AtEof => return Stop(false, consumed, n), buf;
        case OutOfBudget => return Stop(true, consumed, n), buf;
      }
    }
    m := Take(consumed);
  }

  /** What the turns left to run will report. */
  function Ahead(u: Setup, reader: Reader, probe: Probe, records: nat, peak: nat): HeadScan
    requires reader.Valid()
    reads reader, probe
  {
    Scan(u, reader.file, reader.at, records, peak, probe.View())
  }

  /** One turn of the scan; no report yet means it goes on. */
  method ScanTurn(u: Setup, reader: Reader, probe: Probe, records: nat, peak: nat) returns (report: Option<HeadScan>, held: nat)
    requires reader.Valid() && reader.extra == u.extra && probe.decode == u.decode
    modifies reader`at, probe
    ensures reader.Valid()
    ensures report.Some? ==> report.value == old(Ahead(u, reader, probe, records, peak))
    ensures report.None? ==> reader.at > old(reader.at)
    ensures report.None? ==> Ahead(u, reader, probe, records + 1, held) == old(Ahead(u, reader, probe, records, peak))
  {
    ghost var start := reader.at;
    hide MoveAt, Feed;
    var m, buf := NextMove(reader, u.lim, records);
    match m {
      case Stop(exhausted, end, last) =>
        report, held := Some(HeadScan(probe.View(), exhausted, end, Max(peak, last))), peak;
      case Drop(end, last) =>
        report, held := None, Max(peak, last);
      case Take(end) =>
        report, held := None, Max(peak, |buf|);
        probe.FeedLine(buf);
        if u.stop(probe.View()) {
          report := Some(HeadScan(probe.View(), false, end, held));
        }
    }
  }

  /** Fold the head of a file into a probe. */
  method FoldHead(u: Setup, file: Bytes) returns (scan: HeadScan)
    ensures scan == Scan(u, file, 0, 0, 0, BLANK)
  {
    var probe := new Probe(u.decode);
    var reader := new Reader(file, u.extra);
    var peakBuffer: nat, records: nat := 0, 0;
    hide Scan;
    while true
      invariant reader.Valid() && reader.extra == u.extra && reader.file == file && probe.decode == u.decode
      invariant Ahead(u, reader, probe, records, peakBuffer) == Scan(u, file, 0, 0, 0, BLANK)
      decreases |file| - reader.at
    {
      var report;
      report, peakBuffer := ScanTurn(u, reader, probe, records, peakBuffer);
      if report.Some? {
        return report.value;
      }
      records := records + 1;
    }
  }

  lemma BudgetSpent(u: Setup, file: Bytes, pos: nat, records: nat, peak: nat, meta: Meta)
    requires pos <= |file| && (records >= u.lim.records || pos >= u.lim.bytes)
    ensures Scan(u, file, pos, records, peak, meta) == HeadScan(meta, true, pos, peak)
  {}

  // ---------------------------------------------------------------- bounds

  lemma {:induction false} DrainBounded(extra: nat -> nat, file: Bytes, pos: nat, skipped: nat, budget: nat, chunk: nat)
    requires pos <= |file| && forall n :: extra(n) < chunk
    ensures Drained(extra, file, pos, skipped, budget).skipped <= Max(skipped, budget) + chunk
    decreases |file| - pos
  {
    var end := ChunkEnd(extra, file, pos);
    if pos < |file| && NextNewline(file, pos) >= end && skipped + end - pos < budget {
      DrainBounded(extra, file, end, skipped + end - pos, budget, chunk);
    }
  }

  lemma MoveIsBounded(extra: nat -> nat, lim: Limits, file: Bytes, pos: nat, records: nat, chunk: nat)
    requires pos <= |file| && (forall n :: extra(n) < chunk) && pos <= lim.bytes + chunk
    ensures var m := MoveAt(extra, lim, file, pos, records);
            && m.end <= lim.bytes + chunk
            && (if m.Take? then m.end - pos else m.held) <= Min(MAX_RECORD_BYTES, lim.bytes)
  {
    if pos < lim.bytes {
      var end := BoundedEnd(file, pos, Min(MAX_RECORD_BYTES, lim.bytes - pos));
      DrainBounded(extra, file, end, 0, lim.bytes - end, chunk);
    }
    hide Drained, BoundedEnd;
  }

  /**
   * On every file a scan holds at most one record's cap, and reads at most its
   * byte budget and one chunk of the reader.
   */
  lemma {:induction false} HeadIsBounded(u: Setup, file: Bytes, pos: nat, records: nat, peak: nat, meta: Meta, chunk: nat)
    requires pos <= |file| && (forall n :: u.extra(n) < chunk)
    requires peak <= Min(MAX_RECORD_BYTES, u.lim.bytes) && pos <= u.lim.bytes + chunk
    ensures Scan(u, file, pos, records, peak, meta).peakBuffer <= Min(MAX_RECORD_BYTES, u.lim.bytes)
    ensures pos <= Scan(u, file, pos, records, peak, meta).bytesRead <= Min(|file|, u.lim.bytes + chunk)
    decreases |file| - pos
  {
    MoveIsBounded(u.extra, u.lim, file, pos, records, chunk);
    hide MoveAt;
    match MoveAt(u.extra, u.lim, file, pos, records) {
      case Stop(_, _, _) =>
      case Drop(end, held) => HeadIsBounded(u, file, end, records + 1, Max(peak, held), meta, chunk);
      case Take(end) =>
        HeadIsBounded(u, file, end, records + 1, Max(peak, end - pos), Feed(u.decode, meta, file[pos..end]), chunk);
    }
  }

  function Plain(n: nat): Bytes {
    seq(n, i => 0)
  }

  lemma {:induction false} PlainHasNoNewline(n: nat, pos: nat)
    requires pos <= n
    ensures NextNewline(Plain(n), pos) == n
    decreases n - pos
  {
    if pos < n {
      PlainHasNoNewline(n, pos + 1);
    }
  }

  // ---------------------------------------------------------------- the scan without the reader

  /** How a drain ends, whatever the chunks. */
  lemma {:induction false} DrainEnds(extra: nat -> nat, file: Bytes, pos: nat, skipped: nat, budget: nat)
    requires pos <= |file| && (skipped == 0 || skipped < budget)
    ensures var d, nn := Drained(extra, file, pos, skipped, budget), NextNewline(file, pos);
            if pos == |file| then d == Drain(skipped, AtEof)
            else if nn < |file| && skipped + nn - pos < budget then d == Drain(skipped + nn + 1 - pos, AtNewline)
            else if nn < |file| then !d.end.AtEof? && d.skipped >= budget
            else if skipped + |file| - pos < budget then d == Drain(skipped + |file| - pos, AtEof)
            else d.end == OutOfBudget
    decreases |file| - pos
  {
    var end := ChunkEnd(extra, file, pos);
    if pos < |file| && NextNewline(file, pos) >= end {
      NewlineFurtherOn(file, pos, end);
      if skipped + end - pos < budget {
        DrainEnds(extra, file, end, skipped + end - pos, budget);
      }
    }
  }

  /** A record is held whole when it ends within the cap: at a newline, or short of the cap at the end of the file. */
  predicate Fits(file: Bytes, pos: nat, cap: nat)
    requires pos <= |file|
  {
    var end := RecordEnd(file, pos);
    end - pos < cap || (end - pos == cap && NextNewline(file, pos) < |file|)
  }

  /**
   * What one turn does, in terms of records and budgets alone: take the record
   * if it fits its cap, drop it if its last byte still lies within the budget.
   */
  function Plan(lim: Limits, file: Bytes, pos: nat, records: nat): (m: Move)
    requires pos <= |file|
    ensures pos <= m.end <= |file| && (!m.Stop? ==> pos < m.end)
  {
    var end := RecordEnd(file, pos);
    if records >= lim.records || pos >= lim.bytes then Stop(true, pos, 0)
    else if pos == |file| then Stop(false, pos, 0)
    else if Fits(file, pos, Min(MAX_RECORD_BYTES, lim.bytes - pos)) then Take(end)
    else if NextNewline(file, pos) < |file| then if end <= lim.bytes then Drop(end, 0) else Stop(true, pos, 0)
    else Stop(end >= lim.bytes && end - pos > Min(MAX_RECORD_BYTES, lim.bytes - pos), pos, 0)
  }

  /** The reader's chunks show in how much is read, never in what is taken. */
  lemma MoveFollowsPlan(extra: nat -> nat, lim: Limits, file: Bytes, pos: nat, records: nat)
    requires pos <= |file|
    ensures var m, p := MoveAt(extra, lim, file, pos, records), Plan(lim, file, pos, records);
            match p
            case Take(end) => m == p
            case Drop(end, _) => m.Drop? && m.end == end
            case Stop(exhausted, _, _) =>
              (m.Stop? && m.exhausted == exhausted) || (m.Drop? && exhausted && m.end >= lim.bytes)
  {
    if records < lim.records && pos < lim.bytes && pos < |file| {
      var cap := Min(MAX_RECORD_BYTES, lim.bytes - pos);
      var end := BoundedEnd(file, pos, cap);
      FitsShows(file, pos, cap);
      DrainEnds(extra, file, end, 0, lim.bytes - end);
      if !Fits(file, pos, cap) {
        NewlineFurtherOn(file, pos, end);
      }
      hide Drained, NextNewline, Fits, BoundedEnd;
    }
  }

  /** The test made on what was read tells whether the record fits. */
  lemma FitsShows(file: Bytes, pos: nat, cap: nat)
    requires pos < |file| && cap > 0
    ensures var end := BoundedEnd(file, pos, cap);
            && pos < end && (Fits(file, pos, cap) <==> !(file[end - 1] != NEWLINE && end - pos == cap))
            && (Fits(file, pos, cap) ==> end == RecordEnd(file, pos))
            && (!Fits(file, pos, cap) ==> end == pos + cap <= NextNewline(file, pos))
  {
    NoEarlyNewline(file, pos, BoundedEnd(file, pos, cap));
    hide NextNewline;
  }

  lemma {:induction false} NoEarlyNewline(file: Bytes, pos: nat, end: nat)
    requires pos < end <= |file| && end <= RecordEnd(file, pos)
    ensures file[end - 1] == NEWLINE <==> end == NextNewline(file, pos) + 1
    decreases end - pos
  {
    if file[pos] != NEWLINE && pos + 1 < end {
      NoEarlyNewline(file, pos + 1, end);
    }
  }

  // ---------------------------------------------------------------- the byte budget as a ceiling

  /** The record at `pos` is more than can be held, and ends past the byte budget. */
  predicate Overruns(lim: Limits, file: Bytes, pos: nat, records: nat)
    requires pos <= |file|
  {
    && records < lim.records && pos < lim.bytes && !Fits(file, pos, Min(MAX_RECORD_BYTES, lim.bytes - pos))
    && RecordEnd(file, pos) > lim.bytes
  }

  /** Taking and dropping records, the scan comes to one that overruns. */
  predicate Meets(u: Setup, file: Bytes, pos: nat, records: nat, meta: Meta)
    requires pos <= |file|
    decreases |file| - pos
  {
    match Plan(u.lim, file, pos, records)
    case Stop(_, _, _) => Overruns(u.lim, file, pos, records)
    case Drop(end, _) => Meets(u, file, end, records + 1, meta)
    case Take(end) => !u.stop(Feed(u.decode, meta, file[pos..end])) && Meets(u, file, end, records + 1, Feed(u.decode, meta, file[pos..end]))
  }

  lemma StopsWithin(extra: nat -> nat, lim: Limits, file: Bytes, pos: nat, records: nat)
    requires pos <= |file| && pos <= lim.bytes && (Plan(lim, file, pos, records).Stop? ==> !Overruns(lim, file, pos, records))
    ensures MoveAt(extra, lim, file, pos, records).end <= lim.bytes
  {
    MoveFollowsPlan(extra, lim, file, pos, records);
    hide Drained, NextNewline, RecordEnd;
  }

  lemma {:induction false} StaysWithin(u: Setup, file: Bytes, pos: nat, records: nat, peak: nat, meta: Meta)
    requires pos <= |file| && pos <= u.lim.bytes && !Meets(u, file, pos, records, meta)
    ensures Scan(u, file, pos, records, peak, meta).bytesRead <= u.lim.bytes
    decreases |file| - pos
  {
    StopsWithin(u.extra, u.lim, file, pos, records);
    MoveFollowsPlan(u.extra, u.lim, file, pos, records);
    var m := MoveAt(u.extra, u.lim, file, pos, records);
    hide MoveAt, Plan, Overruns, Feed;
    match Plan(u.lim, file, pos, records) {
      case Stop(_, _, _) =>
        if m.Drop? {
          BudgetSpent(u, file, m.end, records + 1, Max(peak, m.held), meta);
        }
      case Drop(end, _) => StaysWithin(u, file, end, records + 1, Max(peak, m.held), meta);
      case Take(end) =>
        var next := Feed(u.decode, meta, file[pos..end]);
        if !u.stop(next) {
          StaysWithin(u, file, end, records + 1, Max(peak, end - pos), next);
        }
    }
  }

  /** A reader that offers the rest of the file at once reads an overrunning record to its end. */
  lemma OverrunsAtOnce(u: Setup, file: Bytes, pos: nat, records: nat)
    requires pos <= |file| && Overruns(u.lim, file, pos, records) && forall n :: u.extra(n) >= |file|
    ensures var m := MoveAt(u.extra, u.lim, file, pos, records); !m.Take? && m.end == RecordEnd(file, pos)
  {
    var cap := Min(MAX_RECORD_BYTES, u.lim.bytes - pos);
    var end := BoundedEnd(file, pos, cap);
    FitsShows(file, pos, cap);
    NewlineFurtherOn(file, pos, end);
    assert ChunkEnd(u.extra, file, end) == |file|;
    hide NextNewline, Fits;
  }

  lemma {:induction false} ReadsPast(u: Setup, file: Bytes, pos: nat, records: nat, peak: nat, meta: Meta)
    requires pos <= |file| && Meets(u, file, pos, records, meta) && forall n :: u.extra(n) >= |file|
    ensures Scan(u, file, pos, records, peak, meta).bytesRead > u.lim.bytes
    decreases |file| - pos
  {
    MoveFollowsPlan(u.extra, u.lim, file, pos, records);
    var m := MoveAt(u.extra, u.lim, file, pos, records);
    match Plan(u.lim, file, pos, records) {
      case Stop(_, _, _) =>
        OverrunsAtOnce(u, file, pos, records);
        if m.Drop? {
          BudgetSpent(u, file, m.end, records + 1, Max(peak, m.held), meta);
        }
      case Drop(end, _) =>
        hide MoveAt, Plan, Overruns, Feed;
        ReadsPast(u, file, end, records + 1, Max(peak, m.held), meta);
      case Take(end) =>
        hide MoveAt, Plan, Overruns, Feed;
        ReadsPast(u, file, end, records + 1, Max(peak, end - pos), Feed(u.decode, meta, file[pos..end]));
    }
  }

  /**
   * The byte budget is a ceiling for every reader exactly on the files whose scan
   * meets no record that is more than can be held and ends past the budget.
   */
  lemma CeilingExactly(u: Setup, file: Bytes)
    ensures (forall extra: nat -> nat :: Scan(u.(extra := extra), file, 0, 0, 0, BLANK).bytesRead <= u.lim.bytes)
            <==> !Meets(u, file, 0, 0, BLANK)
  {
    var atOnce: nat -> nat := n => |file|;
    if Meets(u, file, 0, 0, BLANK) {
      MeetsForAnyReader(u, atOnce, file, 0, 0, BLANK);
      ReadsPast(u.(extra := atOnce), file, 0, 0, 0, BLANK);
    } else {
      forall extra: nat -> nat ensures Scan(u.(extra := extra), file, 0, 0, 0, BLANK).bytesRead <= u.lim.bytes {
        MeetsForAnyReader(u, extra, file, 0, 0, BLANK);
        StaysWithin(u.(extra := extra), file, 0, 0, 0, BLANK);
      }
    }
  }

  lemma {:induction false} MeetsForAnyReader(u: Setup, extra: nat -> nat, file: Bytes, pos: nat, records: nat, meta: Meta)
    requires pos <= |file|
    ensures Meets(u.(extra := extra), file, pos, records, meta) <==> Meets(u, file, pos, records, meta)
    decreases |file| - pos
  {
    hide Feed, Overruns;
    match Plan(u.lim, file, pos, records) {
      case Stop(_, _, _) =>
      case Drop(end, _) => MeetsForAnyReader(u, extra, file, end, records + 1, meta);
      case Take(end) => MeetsForAnyReader(u, extra, file, end, records + 1, Feed(u.decode, meta, file[pos..end]));
    }
  }

  /** A blank line of n bytes, then one byte and a chunk's worth with no newline. */
  function Straddling(n: nat, chunk: nat): Bytes {
    seq(n + 1 + chunk, i => if i == n - 1 then NEWLINE else if i < n then 32 else 0)
  }

  lemma {:induction false} StraddlingRecords(n: nat, chunk: nat, pos: nat)
    requires pos <= n + 1 + chunk
    ensures NextNewline(Straddling(n, chunk), pos) == if pos < n then n - 1 else n + 1 + chunk
    decreases n + 1 + chunk - pos
  {
    if pos < n + 1 + chunk && pos != n - 1 {
      StraddlingRecords(n, chunk, pos + 1);
    }
  }

  lemma {:induction false} BlankIsNoRecord(decode: Bytes -> Option<Rec>, line: Bytes)
    requires forall i :: 0 <= i < |line| ==> IsSpace(line[i])
    ensures ParseLine(decode, line) == None
    decreases |line|
  {
    if line != [] {
      BlankIsNoRecord(decode, line[..|line| - 1]);
    }
  }

  /** The first record of a straddling file is taken or dropped, and tells the probe nothing. */
  lemma StraddlingFirst(u: Setup, n: nat, chunk: nat)
    requires 1 <= n && u.lim.bytes == n + 1 && u.lim.records >= 2 && !u.stop(BLANK)
    ensures var file := Straddling(n, chunk);
            && (exists peak :: Scan(u, file, 0, 0, 0, BLANK) == Scan(u, file, n, 1, peak, BLANK))
            && (Meets(u, file, 0, 0, BLANK) <==> Meets(u, file, n, 1, BLANK))
  {
    var file := Straddling(n, chunk);
    StraddlingRecords(n, chunk, 0);
    BlankIsNoRecord(u.decode, file[0..n]);
    MoveFollowsPlan(u.extra, u.lim, file, 0, 0);
    var m := MoveAt(u.extra, u.lim, file, 0, 0);
    assert Scan(u, file, 0, 0, 0, BLANK) == Scan(u, file, n, 1, Max(0, if m.Take? then n else m.held), BLANK);
  }

  /**
   * At every budget, both the program's included, every reader reads its next
   * chunk whole past the budget on some file: one whose second record begins on
   * the budget's last byte.
   */
  lemma ByteBudgetOvershoots(u: Setup)
    requires u.lim.bytes >= 2 && u.lim.records >= 2 && !u.stop(BLANK)
    ensures var chunk := u.extra(u.lim.bytes) + 1;
            var file := Straddling(u.lim.bytes - 1, chunk);
            && Scan(u, file, 0, 0, 0, BLANK).bytesRead == u.lim.bytes + chunk
            && Meets(u, file, 0, 0, BLANK)
  {
    var b, chunk := u.lim.bytes, u.extra(u.lim.bytes) + 1;
    var file := Straddling(b - 1, chunk);
    StraddlingFirst(u, b - 1, chunk);
    StraddlingRecords(b - 1, chunk, b - 1);
    StraddlingRecords(b - 1, chunk, b);
    assert file[b - 1] == 0;
    assert BoundedEnd(file, b - 1, 1) == b;
    assert Drained(u.extra, file, b, 0, 0) == Drain(chunk, OutOfBudget);
  }

  /** The reader of a regular file refills eight kilobytes at a time. */
  const REFILL: nat := 8192

  ghost predicate Refills(extra: nat -> nat) {
    forall n: nat :: extra(n) == REFILL - 1 - n % REFILL
  }

  lemma {:induction false} AlignedDrain(extra: nat -> nat, file: Bytes, pos: nat, skipped: nat, budget: nat)
    requires Refills(extra) && skipped < budget && pos + budget - skipped <= |file|
    requires NextNewline(file, pos) >= pos + budget - skipped
    requires pos % REFILL == 0 && (budget - skipped) % REFILL == 0
    ensures Drained(extra, file, pos, skipped, budget) == Drain(budget, OutOfBudget)
    decreases |file| - pos
  {
    var end := ChunkEnd(extra, file, pos);
    assert extra(pos) == REFILL - 1;
    NewlineFurtherOn(file, pos, end);
    if skipped + end - pos < budget {
      AlignedDrain(extra, file, end, skipped + end - pos, budget);
    }
  }

  /**
   * One gigantic first record, whatever follows it, is read exactly to the budget,
   * when cap and budget are whole refills and the cap is the smaller, as with both
   * the program's budgets.
   */
  lemma GiganticRecordStaysWithin(u: Setup, file: Bytes)
    requires Refills(u.extra) && u.lim.bytes % REFILL == 0 && u.lim.bytes > MAX_RECORD_BYTES && u.lim.records > 0
    requires NextNewline(file, 0) >= u.lim.bytes
    ensures Scan(u, file, 0, 0, 0, BLANK) == HeadScan(BLANK, true, u.lim.bytes, MAX_RECORD_BYTES)
    ensures Scan(u, file, 0, 0, 0, BLANK).peakBuffer == 256 * 1024
    ensures HEAD_LIMITS.bytes % REFILL == 0 && CWD_LIMITS.bytes % REFILL == 0
  {
    NewlineFurtherOn(file, 0, MAX_RECORD_BYTES);
    assert BoundedEnd(file, 0, MAX_RECORD_BYTES) == MAX_RECORD_BYTES;
    NoEarlyNewline(file, 0, MAX_RECORD_BYTES);
    AlignedDrain(u.extra, file, MAX_RECORD_BYTES, 0, u.lim.bytes - MAX_RECORD_BYTES);
    hide Drained, NextNewline, RecordEnd;
  }

  datatype Outcome = Outcome(fed: seq<Bytes>, exhausted: bool)

  /** The lines a scan feeds, and whether a budget ended it. */
  function Head(decode: Bytes -> Option<Rec>, stop: Meta -> bool, lim: Limits, file: Bytes, pos: nat, records: nat, meta: Meta): Outcome
    requires pos <= |file|
    decreases |file| - pos
  {
    match Plan(lim, file, pos, records)
    case Stop(exhausted, _, _) => Outcome([], exhausted)
    case Drop(end, _) => Head(decode, stop, lim, file, end, records + 1, meta)
    case Take(end) =>
      var line := file[pos..end];
      var next := Feed(decode, meta, line);
      if stop(next) then Outcome([line], false)
      else
        var o := Head(decode, stop, lim, file, end, records + 1, next);
        o.(fed := [line] + o.fed)
  }

  lemma FedFirst(decode: Bytes -> Option<Rec>, meta: Meta, line: Bytes, fed: seq<Bytes>)
    ensures FeedAll(decode, meta, [line] + fed) == FeedAll(decode, Feed(decode, meta, line), fed)
    ensures FeedAll(decode, meta, [line]) == Feed(decode, meta, line)
  {
    assert ([line] + fed)[1..] == fed && [line][1..] == [];
    assert FeedAll(decode, Feed(decode, meta, line), []) == Feed(decode, meta, line);
  }

  /** The scan and the planned lines agree from a point on. */
  ghost predicate Agrees(u: Setup, file: Bytes, pos: nat, records: nat, peak: nat, meta: Meta)
    requires pos <= |file|
  {
    var o, scan := Head(u.decode, u.stop, u.lim, file, pos, records, meta), Scan(u, file, pos, records, peak, meta);
    scan.probe == FeedAll(u.decode, meta, o.fed) && scan.exhausted == o.exhausted
  }

  lemma AgreesOnTake(u: Setup, file: Bytes, pos: nat, records: nat, peak: nat, meta: Meta, end: nat)
    requires pos <= |file| && MoveAt(u.extra, u.lim, file, pos, records) == Take(end) == Plan(u.lim, file, pos, records)
    requires Agrees(u, file, end, records + 1, Max(peak, end - pos), Feed(u.decode, meta, file[pos..end]))
    ensures Agrees(u, file, pos, records, peak, meta)
  {
    var line := file[pos..end];
    var next := Feed(u.decode, meta, line);
    FedFirst(u.decode, meta, line, Head(u.decode, u.stop, u.lim, file, end, records + 1, next).fed);
    hide MoveAt, Plan, Feed, FeedAll;
  }

  /** However the reader chunks the file, the scan's probe and verdict are those of feeding the planned lines. */
  lemma {:induction false} ScanIsHead(u: Setup, file: Bytes, pos: nat, records: nat, peak: nat, meta: Meta)
    requires pos <= |file|
    ensures Agrees(u, file, pos, records, peak, meta)
    decreases |file| - pos
  {
    MoveFollowsPlan(u.extra, u.lim, file, pos, records);
    var m, p := MoveAt(u.extra, u.lim, file, pos, records), Plan(u.lim, file, pos, records);
    assert FeedAll(u.decode, meta, []) == meta;
    hide MoveAt, Plan, Feed, FeedAll;
    match p {
      case Stop(_, _, _) =>
        if m.Drop? {
          BudgetSpent(u, file, m.end, records + 1, Max(peak, m.held), meta);
        }
      case Drop(end, _) => ScanIsHead(u, file, end, records + 1, Max(peak, m.held), meta);
      case Take(end) =>
        ScanIsHead(u, file, end, records + 1, Max(peak, end - pos), Feed(u.decode, meta, file[pos..end]));
        AgreesOnTake(u, file, pos, records, peak, meta, end);
    }
  }

  /** Two readers of one file, however they chunk it, give the same probe and the same verdict. */
  lemma ChunksDoNotShow(u: Setup, extra: nat -> nat, file: Bytes)
    ensures var a, b := Scan(u, file, 0, 0, 0, BLANK), Scan(u.(extra := extra), file, 0, 0, 0, BLANK);
            a.probe == b.probe && a.exhausted == b.exhausted
  {
    ScanIsHead(u, file, 0, 0, 0, BLANK);
    ScanIsHead(u.(extra := extra), file, 0, 0, 0, BLANK);
  }

  // ---------------------------------------------------------------- only whole records, in order

  predicate Subsequence(a: seq<Bytes>, b: seq<Bytes>)
    decreases |b|
  {
    a == [] || (b != [] && (if a[0] == b[0] then Subsequence(a[1..], b[1..]) || Subsequence(a, b[1..]) else Subsequence(a, b[1..])))
  }

  lemma PlanSkipsRecords(lim: Limits, file: Bytes, pos: nat, records: nat)
    requires pos <= |file|
    ensures var p := Plan(lim, file, pos, records); !p.Stop? ==> p.end == RecordEnd(file, pos)
  {}

  /** Every line fed is a whole record of the file, and they come in the file's order. */
  lemma {:induction false} FedAreWholeRecords(decode: Bytes -> Option<Rec>, stop: Meta -> bool, lim: Limits, file: Bytes, pos: nat, records: nat, meta: Meta)
    requires pos <= |file|
    ensures Subsequence(Head(decode, stop, lim, file, pos, records, meta).fed, Records(file, pos))
    decreases |file| - pos
  {
    PlanSkipsRecords(lim, file, pos, records);
    var all := Records(file, pos);
    hide Plan, Feed;
    match Plan(lim, file, pos, records) {
      case Stop(_, _, _) =>
      case Drop(end, _) =>
        FedAreWholeRecords(decode, stop, lim, file, end, records + 1, meta);
        assert all[1..] == Records(file, end);
      case Take(end) =>
        var line := file[pos..end];
        FedAreWholeRecords(decode, stop, lim, file, end, records + 1, Feed(decode, meta, line));
        assert all[0] == line && all[1..] == Records(file, end);
        var fed := Head(decode, stop, lim, file, pos, records, meta).fed;
        assert fed[0] == line;
        assert fed[1..] == [] || fed[1..] == Head(decode, stop, lim, file, end, records + 1, Feed(decode, meta, line)).fed;
    }
  }

  // ---------------------------------------------------------------- larger budgets

  /** The stop rule of a probe that reads on. */
  predicate Never(meta: Meta) {
    false
  }

  predicate Within(a: Limits, b: Limits) {
    a.records <= b.records && a.bytes <= b.bytes
  }

  /** What a small budget takes or drops, a larger one takes or drops just so. */
  lemma PlanMonotone(a: Limits, b: Limits, file: Bytes, pos: nat, records: nat)
    requires pos <= |file| && Within(a, b) && !Plan(a, file, pos, records).Stop?
    ensures Plan(b, file, pos, records) == Plan(a, file, pos, records)
  {}

  /**
   * If a scan stopped because it found what it was looking for, any scan with
   * larger budgets feeds the same lines that far: with the same stop rule it ends
   * there too, and with none it goes on from the same probe.
   */
  lemma {:induction false} LargerBudgetsFollow(decode: Bytes -> Option<Rec>, stop: Meta -> bool, a: Limits, b: Limits, file: Bytes, pos: nat, records: nat, meta: Meta)
    requires pos <= |file| && Within(a, b) && !stop(meta)
    requires stop(FeedAll(decode, meta, Head(decode, stop, a, file, pos, records, meta).fed))
    ensures var fed := Head(decode, stop, a, file, pos, records, meta).fed;
            && Head(decode, stop, b, file, pos, records, meta) == Outcome(fed, false)
            && Head(decode, stop, a, file, pos, records, meta) == Outcome(fed, false)
            && fed <= Head(decode, Never, b, file, pos, records, meta).fed
    decreases |file| - pos
  {
    if !Plan(a, file, pos, records).Stop? {
      PlanMonotone(a, b, file, pos, records);
    }
    assert FeedAll(decode, meta, []) == meta;
    hide Plan, Feed, FeedAll;
    match Plan(a, file, pos, records) {
      case Stop(_, _, _) =>
      case Drop(end, _) => LargerBudgetsFollow(decode, stop, a, b, file, end, records + 1, meta);
      case Take(end) =>
        var line := file[pos..end];
        var next := Feed(decode, meta, line);
        FedFirst(decode, meta, line, Head(decode, stop, a, file, end, records + 1, next).fed);
        if !stop(next) {
          LargerBudgetsFollow(decode, stop, a, b, file, end, records + 1, next);
        }
    }
  }

  lemma {:induction false} FirstCwdStays(decode: Bytes -> Option<Rec>, meta: Meta, lines: seq<Bytes>)
    requires meta.cwd.Some?
    ensures FeedAll(decode, meta, lines).cwd == meta.cwd
    decreases |lines|
  {
    hide ParseLine;
    if lines != [] {
      FirstCwdStays(decode, Feed(decode, meta, lines[0]), lines[1..]);
    }
  }

  lemma {:induction false} FeedAppend(decode: Bytes -> Option<Rec>, meta: Meta, a: seq<Bytes>, b: seq<Bytes>)
    ensures FeedAll(decode, meta, a + b) == FeedAll(decode, FeedAll(decode, meta, a), b)
    decreases |a|
  {
    hide Feed;
    if a == [] {
      assert a + b == b;
    } else {
      assert (a + b)[1..] == a[1..] + b;
      FeedAppend(decode, Feed(decode, meta, a[0]), a[1..], b);
    }
  }

  // ---------------------------------------------------------------- what a probe reports

  /** The records some lines decode to, in order. */
  function RecsOf(decode: Bytes -> Option<Rec>, lines: seq<Bytes>): seq<Rec> {
    if lines == [] then []
    else
      var n := |lines| - 1;
      var rec := ParseLine(decode, lines[n]);
      RecsOf(decode, lines[..n]) + if rec.Some? then [rec.value] else []
  }

  lemma FeedLast(decode: Bytes -> Option<Rec>, meta: Meta, lines: seq<Bytes>)
    requires lines != []
    ensures FeedAll(decode, meta, lines) == Feed(decode, FeedAll(decode, meta, lines[..|lines| - 1]), lines[|lines| - 1])
  {
    var n := |lines| - 1;
    assert lines[..n] + [lines[n]] == lines;
    FeedAppend(decode, meta, lines[..n], [lines[n]]);
    FedFirst(decode, FeedAll(decode, meta, lines[..n]), lines[n], []);
  }

  /** The result is the first present value, or absent when none is present. */
  ghost predicate FirstIs<T>(values: seq<Option<T>>, r: Option<T>) {
    if r.None? then forall k :: 0 <= k < |values| ==> values[k].None?
    else exists k :: 0 <= k < |values| && values[k] == r && forall j :: 0 <= j < k ==> values[j].None?
  }

  ghost predicate LastIs<T>(values: seq<Option<T>>, r: Option<T>) {
    if r.None? then forall k :: 0 <= k < |values| ==> values[k].None?
    else exists k :: 0 <= k < |values| && values[k] == r && forall j :: k < j < |values| ==> values[j].None?
  }

  lemma OneValueMore<T>(values: seq<Option<T>>, r: Option<T>, v: Option<T>)
    ensures FirstIs(values, r) ==> FirstIs(values + [v], if r.None? then v else r)
    ensures LastIs(values, r) ==> LastIs(values + [v], if v.Some? then v else r)
  {
    var all := values + [v];
    assert all[|values|] == v && forall k :: 0 <= k < |values| ==> all[k] == values[k];
    if FirstIs(values, r) && r.Some? {
      var k :| 0 <= k < |values| && values[k] == r && forall j :: 0 <= j < k ==> values[j].None?;
      assert all[k] == r;
    }
    if LastIs(values, r) && r.Some? {
      var k :| 0 <= k < |values| && values[k] == r && forall j :: k < j < |values| ==> values[j].None?;
      assert all[k] == r;
    }
  }

  function Cwds(recs: seq<Rec>): seq<Option<string>> {
    seq(|recs|, k requires 0 <= k < |recs| => recs[k].cwd)
  }

  function Dates(recs: seq<Rec>): seq<Option<string>> {
    seq(|recs|, k requires 0 <= k < |recs| => recs[k].date)
  }

  /** Titles written by the program; an empty one is none. */
  function Titles(recs: seq<Rec>): seq<Option<string>> {
    seq(|recs|, k requires 0 <= k < |recs| => if recs[k].aiTitle == Some("") then None else recs[k].aiTitle)
  }

  /** User texts, each with whether it opens with the extraction marker. */
  function Prompts(recs: seq<Rec>): seq<Option<(string, bool)>> {
    seq(|recs|, k requires 0 <= k < |recs| => if recs[k].userText.Some? then Some((recs[k].userText.value, recs[k].marker)) else None)
  }

  /** The first directory, the last date and written title, and the first user text with its marker. */
  ghost predicate Reports(meta: Meta, recs: seq<Rec>) {
    && FirstIs(Cwds(recs), meta.cwd) && LastIs(Dates(recs), meta.date) && LastIs(Titles(recs), meta.aiTitle)
    && FirstIs(Prompts(recs), if meta.firstPrompt.Some? then Some((meta.firstPrompt.value, meta.isExtraction)) else None)
    && (meta.seenFirstPrompt <==> meta.firstPrompt.Some?) && (meta.firstPrompt.None? ==> !meta.isExtraction)
  }

  lemma OneRecordMore(meta: Meta, recs: seq<Rec>, rec: Rec)
    requires Reports(meta, recs)
    ensures Reports(Fold(meta, rec), recs + [rec])
  {
    var title := if rec.aiTitle == Some("") then None else rec.aiTitle;
    var prompt := if rec.userText.Some? then Some((rec.userText.value, rec.marker)) else None;
    OneValueMore(Cwds(recs), meta.cwd, rec.cwd);
    OneValueMore(Dates(recs), meta.date, rec.date);
    OneValueMore(Titles(recs), meta.aiTitle, title);
    OneValueMore(Prompts(recs), if meta.firstPrompt.Some? then Some((meta.firstPrompt.value, meta.isExtraction)) else None, prompt);
    assert Cwds(recs + [rec]) == Cwds(recs) + [rec.cwd] && Dates(recs + [rec]) == Dates(recs) + [rec.date];
    assert Titles(recs + [rec]) == Titles(recs) + [title] && Prompts(recs + [rec]) == Prompts(recs) + [prompt];
    hide FirstIs, LastIs, Cwds, Dates, Titles, Prompts;
  }

  /** What feeding any lines reports, field by field, over the records they decode to. */
  lemma {:induction false} ProbeMeans(decode: Bytes -> Option<Rec>, lines: seq<Bytes>)
    ensures Reports(FeedAll(decode, BLANK, lines), RecsOf(decode, lines))
    decreases |lines|
  {
    if lines == [] {
      assert FeedAll(decode, BLANK, []) == BLANK;
    } else {
      var n := |lines| - 1;
      FeedLast(decode, BLANK, lines);
      ProbeMeans(decode, lines[..n]);
      hide ParseLine, FeedAll, Reports, Fold;
      if ParseLine(decode, lines[n]).Some? {
        OneRecordMore(FeedAll(decode, BLANK, lines[..n]), RecsOf(decode, lines[..n]), ParseLine(decode, lines[n]).value);
      } else {
        assert RecsOf(decode, lines) == RecsOf(decode, lines[..n]);
      }
    }
  }

  /** White space around a record, a carriage return among it, is not decoded: blank, tab, newline, vertical tab, form feed. */
  lemma {:induction false} SurroundedParses(decode: Bytes -> Option<Rec>, before: Bytes, text: Bytes, after: Bytes)
    requires text != [] && text[0] != 32 && !(9 <= text[0] <= 13) && text[|text| - 1] != 32 && !(9 <= text[|text| - 1] <= 13)
    requires forall b :: b in before + after ==> b == 32 || 9 <= b <= 13
    ensures ParseLine(decode, before + text + after) == decode(text)
    decreases |before| + |after|
  {
    var line := before + text + after;
    if after != [] {
      var n := |after| - 1;
      assert after[n] in before + after && line[..|line| - 1] == before + text + after[..n];
      assert forall b :: b in before + after[..n] ==> b in before + after;
      SurroundedParses(decode, before, text, after[..n]);
    } else {
      assert line == before + text && TrimRight(line) == line;
      assert forall b :: b in before ==> b in before + after;
      TrimLeftTo(before, text);
    }
  }

  lemma {:induction false} TrimLeftTo(before: Bytes, text: Bytes)
    requires text != [] && !IsSpace(text[0]) && forall b :: b in before ==> IsSpace(b)
    ensures TrimLeft(before + text) == text
  {
    if before == [] {
      assert before + text == text;
    } else {
      assert (before + text)[1..] == before[1..] + text;
      TrimLeftTo(before[1..], text);
    }
  }

  predicate HasCwd(meta: Meta) {
    meta.cwd.Some?
  }

  /** The two ways the listing probes a transcript: only for its directory, and for its title. */
  function ProbeCwd(decode: Bytes -> Option<Rec>, file: Bytes): Option<string> {
    FeedAll(decode, BLANK, Head(decode, HasCwd, CWD_LIMITS, file, 0, 0, BLANK).fed).cwd
  }

  function ProbeHead(decode: Bytes -> Option<Rec>, lim: Limits, file: Bytes): Meta {
    FeedAll(decode, BLANK, Head(decode, Never, lim, file, 0, 0, BLANK).fed)
  }

  /** The methods behind them: a fold of the head that stops at a directory, and one that does not. */
  method ProbeCwdOf(extra: nat -> nat, decode: Bytes -> Option<Rec>, file: Bytes) returns (cwd: Option<string>, dropped: bool)
    ensures cwd == ProbeCwd(decode, file)
    ensures dropped <==> cwd.None? && Head(decode, HasCwd, Limits(256, 1048576), file, 0, 0, BLANK).exhausted
  {
    var u := Setup(extra, decode, HasCwd, CWD_LIMITS);
    var scan := FoldHead(u, file);
    ScanIsHead(u, file, 0, 0, 0, BLANK);
    cwd, dropped := scan.probe.cwd, scan.probe.cwd.None? && scan.exhausted;
  }

  method ProbeHeadOf(extra: nat -> nat, decode: Bytes -> Option<Rec>, lim: Limits, file: Bytes) returns (meta: Meta)
    ensures meta == ProbeHead(decode, lim, file)
  {
    var u := Setup(extra, decode, Never, lim);
    var scan := FoldHead(u, file);
    ScanIsHead(u, file, 0, 0, 0, BLANK);
    meta := scan.probe;
  }

  /** A directory found by the cheap probe is the one every probe with at least its budgets reports; the head probe is one. */
  lemma HeadAgreesWithCwd(decode: Bytes -> Option<Rec>, lim: Limits, file: Bytes)
    requires ProbeCwd(decode, file).Some? && Within(CWD_LIMITS, lim)
    ensures ProbeHead(decode, lim, file).cwd == ProbeCwd(decode, file)
    ensures HEAD_LIMITS == Limits(400, 2 * 1024 * 1024) && ProbeHead(decode, HEAD_LIMITS, file).cwd == ProbeCwd(decode, file)
  {
    HeadAgrees(decode, lim, file);
    HeadAgrees(decode, HEAD_LIMITS, file);
  }

  lemma HeadAgrees(decode: Bytes -> Option<Rec>, lim: Limits, file: Bytes)
    requires ProbeCwd(decode, file).Some? && Within(CWD_LIMITS, lim)
    ensures ProbeHead(decode, lim, file).cwd == ProbeCwd(decode, file)
  {
    var small := CWD_LIMITS;
    LargerBudgetsFollow(decode, HasCwd, small, lim, file, 0, 0, BLANK);
    var a := Head(decode, HasCwd, small, file, 0, 0, BLANK).fed;
    var b := Head(decode, Never, lim, file, 0, 0, BLANK).fed;
    hide Head, FeedAll;
    FeedAppend(decode, BLANK, a, b[|a|..]);
    assert a + b[|a|..] == b;
    FirstCwdStays(decode, FeedAll(decode, BLANK, a), b[|a|..]);
  }

  // ---------------------------------------------------------------- ample budgets

  /** Every record can be held, and the budgets cover them all. */
  ghost predicate Ample(lim: Limits, file: Bytes, pos: nat, records: nat)
    requires pos <= |file|
    decreases |file| - pos
  {
    pos == |file| || (records < lim.records && pos < lim.bytes && Fits(file, pos, Min(MAX_RECORD_BYTES, lim.bytes - pos))
                      && Ample(lim, file, RecordEnd(file, pos), records + 1))
  }

  /** With ample budgets nothing is left out. */
  lemma {:induction false} AmpleFeedsAll(decode: Bytes -> Option<Rec>, lim: Limits, file: Bytes, pos: nat, records: nat, meta: Meta)
    requires pos <= |file| && Ample(lim, file, pos, records)
    ensures Head(decode, Never, lim, file, pos, records, meta).fed == Records(file, pos)
    decreases |file| - pos
  {
    if pos < |file| {
      var end := RecordEnd(file, pos);
      assert Plan(lim, file, pos, records) == Take(end);
      hide Plan, Feed, Fits;
      AmpleFeedsAll(decode, lim, file, end, records + 1, Feed(decode, meta, file[pos..end]));
    }
  }

  /**
   * When every record could be held and within budget, a probe for a directory
   * that finds none has read everything, and blames the budget exactly when that
   * is used up to the last record or byte.
   */
  lemma {:induction false} AmpleVerdict(decode: Bytes -> Option<Rec>, lim: Limits, file: Bytes, pos: nat, records: nat, meta: Meta)
    requires pos <= |file| && Ample(lim, file, pos, records) && FeedAll(decode, meta, Records(file, pos)).cwd.None?
    ensures Head(decode, HasCwd, lim, file, pos, records, meta)
            == Outcome(Records(file, pos), records + |Records(file, pos)| >= lim.records || |file| >= lim.bytes)
    decreases |file| - pos
  {
    if pos < |file| {
      var end := RecordEnd(file, pos);
      var line, rest := file[pos..end], Records(file, end);
      assert Plan(lim, file, pos, records) == Take(end);
      FedFirst(decode, meta, line, rest);
      hide Plan, Feed, Fits, FeedAll;
      var next := Feed(decode, meta, line);
      if next.cwd.Some? {
        FirstCwdStays(decode, next, rest);
      }
      AmpleVerdict(decode, lim, file, end, records + 1, next);
    }
  }

  /** The lines of a text, without their terminators. */
  function Lines(file: Bytes, pos: nat): seq<Bytes>
    requires pos <= |file|
    decreases |file| - pos
  {
    if pos == |file| then [] else [Chomped(file[pos..RecordEnd(file, pos)])] + Lines(file, RecordEnd(file, pos))
  }

  function Chomped(line: Bytes): Bytes {
    if line != [] && line[|line| - 1] == NEWLINE then
      var body := line[..|line| - 1];
      if body != [] && body[|body| - 1] == 13 then body[..|body| - 1] else body
    else line
  }

  lemma ChompedParses(decode: Bytes -> Option<Rec>, line: Bytes)
    ensures ParseLine(decode, Chomped(line)) == ParseLine(decode, line)
  {
    if line != [] && line[|line| - 1] == NEWLINE {
      assert TrimRight(line) == TrimRight(line[..|line| - 1]);
    }
  }

  /** Probing a text already in memory. */
  function ProbeTranscript(decode: Bytes -> Option<Rec>, file: Bytes): Meta {
    FeedAll(decode, BLANK, Lines(file, 0))
  }

  lemma {:induction false} LinesParseAsRecords(decode: Bytes -> Option<Rec>, file: Bytes, pos: nat, meta: Meta)
    requires pos <= |file|
    ensures FeedAll(decode, meta, Lines(file, pos)) == FeedAll(decode, meta, Records(file, pos))
    decreases |file| - pos
  {
    if pos < |file| {
      var end := RecordEnd(file, pos);
      var line := file[pos..end];
      ChompedParses(decode, line);
      FedFirst(decode, meta, line, Records(file, end));
      FedFirst(decode, meta, Chomped(line), Lines(file, end));
      LinesParseAsRecords(decode, file, end, Feed(decode, meta, line));
    }
  }

  /** With ample budgets and no record too big to hold, probing the head is probing the whole text. */
  lemma AmpleHeadIsTranscript(decode: Bytes -> Option<Rec>, lim: Limits, file: Bytes)
    requires Ample(lim, file, 0, 0)
    ensures ProbeHead(decode, lim, file) == ProbeTranscript(decode, file)
  {
    AmpleFeedsAll(decode, lim, file, 0, 0, BLANK);
    LinesParseAsRecords(decode, file, 0, BLANK);
  }

  /** A last record without a newline that fills the cap exactly is taken for an oversized one and left out. */
  lemma FullLastRecordIsDropped(decode: Bytes -> Option<Rec>, lim: Limits)
    requires lim.records > 0 && lim.bytes >= MAX_RECORD_BYTES
    ensures Records(Plain(MAX_RECORD_BYTES), 0) == [Plain(MAX_RECORD_BYTES)]
    ensures Head(decode, Never, lim, Plain(MAX_RECORD_BYTES), 0, 0, BLANK) == Outcome([], false)
  {
    var file := Plain(MAX_RECORD_BYTES);
    PlainHasNoNewline(MAX_RECORD_BYTES, 0);
    assert file[0..|file|] == file;
    assert RecordEnd(file, 0) == |file|;
  }
}
