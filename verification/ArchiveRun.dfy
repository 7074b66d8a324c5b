/**
 * One archive run end to end: the unchanged verdict, the core artifacts, the
 * extraction, the retitle, the summary and the completion marker; and the
 * agreement between what the run reports and what it left on disk.
 *
 * The extractor, its parsed output and the knowledge writer are inputs; every
 * file write may fail.
 */
module ArchiveRun {
  import opened Wrappers
  import opened SnapshotIdentity
  import opened SessionsDir
  import opened ArchiveStore
  import opened ArchiveHealing
  import opened RunConservation

  /** A parsed extractor reply. */
  datatype Extraction = Extraction(title: string, summary: string, entries: nat, hasEntryMarker: bool)

  datatype Request = Request(
    uuid: string,
    fallbackTitle: string,
    date: string,
    slug: string -> string,
    live: Stat,                 // stat of the live transcript
    turns: nat,
    attempts: nat,
    kind: Option<string>,
    skipExtraction: bool,
    summary: Option<string>,    // the memo enclosed with a skip run
    ids: nat,                   // identity of the first folder this run builds
    landedAt: nat,              // the clock when that folder is built
    retitledAt: nat             // and when it is built again under another title
  )

  datatype Warning =
    | PreviousUnreadable | PreviousNotPreserved | ExtractionFailed | MemoNotWritten | RetitleFailed
    | SummaryNotWritten | EntriesUnparsable | KnowledgeNotWritten | PreviousKept | MarkerNotWritten

  datatype Run = Run(
    dir: Name,
    title: string,
    replaced: bool,
    summaryOk: bool,
    untouched: bool,           // nothing was rewritten
    extractionSkipped: bool,
    errors: seq<Warning>,
    retries: nat
  ) {
    /** This run left (or found) a complete extraction. */
    predicate ExtractionComplete() {
      untouched || (extractionSkipped && errors == []) || (summaryOk && errors == [])
    }
  }

  datatype RunError = NoTurns | WriteFailed(error: WriteError)

  /** A memo of nothing but white space is no memo. */
  function Memo(req: Request): Option<string> {
    if req.summary.Some? && Blank(req.summary.value) then None else req.summary
  }

  function FinalText(req: Request, title: string): (text: string)
    ensures EndsWith(text, "-" + Uuid8(req.uuid))
  {
    var head := req.date + "-" + req.slug(title);
    var text := head + ("-" + Uuid8(req.uuid));
    assert text[|head|..] == "-" + Uuid8(req.uuid);
    text
  }

  function FreshSnap(req: Request, id: nat, title: string, at: nat): Snap {
    Snap(id, Some(req.uuid), title, req.kind, Some(req.live), Some(at), None, false, false)
  }

  /** Folder names and numbers are in order, and the id is one that can be archived. */
  ghost predicate InOrder(d: Dir, pid: nat, counter: nat, req: Request) {
    WellNamed(d) && FreshNames(d, pid, counter) && IsSafeUuid(req.uuid)
  }

  /** A write of the session under this title lands if nothing fails: nobody else has the name, and no number to come is in use. */
  ghost predicate CanLand(d: Dir, pid: nat, counter: nat, req: Request, title: string) {
    WellNamed(d) && FreshNames(d, pid, counter) && IsSafeUuid(req.uuid) && !NameTaken(d, req.uuid, Visible(FinalText(req, title)))
  }

  lemma StillCanLand(d0: Dir, d1: Dir, pid: nat, counter: nat, later: nat, req: Request, title: string)
    requires CanLand(d0, pid, counter, req, title) && SafeRun(d0, d1, req.uuid, req.live) && FreshNames(d1, pid, later)
    ensures CanLand(d1, pid, later, req, title)
  {
    var final := Visible(FinalText(req, title));
    assert NameTaken(d1, req.uuid, final) ==> final in Foreign(d1, req.uuid);
  }

  lemma SameNamesFresh(d0: Dir, d1: Dir, pid: nat, counter: nat)
    requires FreshNames(d0, pid, counter) && d1.Keys == d0.Keys
    ensures FreshNames(d1, pid, counter)
  {}

  // ---------------------------------------------------------------- verdicts read off a folder

  predicate IsExtractionComplete(s: Snap) {
    s.skipMarker || (s.summary.Some? && s.okMarker)
  }

  predicate IsUnchangedComplete(s: Snap, live: Stat) {
    IsExtractionComplete(s) && s.stat.Some? && SameContent(s.stat.value, live)
  }

  /** Is the enclosed memo what is on disk already? Only a skip run asks. */
  predicate SummaryUnchanged(have: Option<string>, req: Request) {
    !req.skipExtraction || Memo(req) == have
  }

  /**
   * The verdict spelled out: a folder that is finished, by the skip marker or by
   * its summary and the other marker, of this label, of as many lines and the same
   * last uuid, or the same length for want of one.
   */
  predicate SameArchive(s: Snap, req: Request) {
    && (s.skipMarker || (s.okMarker && s.summary.Some?)) && s.kind == req.kind
    && s.stat.Some? && s.stat.value.lines == req.live.lines
    && (if s.stat.value.lastUuid.Some? && req.live.lastUuid.Some? then s.stat.value.lastUuid == req.live.lastUuid
        else s.stat.value.bytes == req.live.bytes)
  }

  /** And, for a skip run, with the memo that would be written. */
  predicate UnchangedFor(s: Snap, req: Request) {
    && SameArchive(s, req)
    && (req.skipExtraction ==> s.summary == if req.summary.Some? && HasText(req.summary.value) then req.summary else None)
  }

  lemma SkipsSpelled(s: Snap, req: Request)
    ensures Skips(s, req) <==> UnchangedFor(s, req)
  {}

  /** The verdict on which a run rewrites nothing. */
  predicate Skips(s: Snap, req: Request) {
    IsUnchangedComplete(s, req.live) && s.kind == req.kind && SummaryUnchanged(s.summary, req)
  }

  // ---------------------------------------------------------------- file writes into a landed folder

  /** A folder this run built. */
  predicate OursAt(d: Dir, n: Name, req: Request) {
    n.Visible? && n in d && d[n].snap.uuid == Some(req.uuid) && d[n].snap.kind == req.kind && d[n].snap.stat == Some(req.live)
  }

  /** The landed folder, as far as it still exists, is this run's and carries no marker yet. */
  predicate Unmarked(d: Dir, n: Name, req: Request) {
    n.Visible? && (n in d ==> OursAt(d, n, req) && !d[n].snap.okMarker && !d[n].snap.skipMarker)
  }

  method WriteSummary(fs: SessionsDir, n: Name, text: string) returns (ok: bool)
    modifies fs`dir, fs`outcomes, fs`down
    ensures ok ==> n in old(fs.dir) && fs.dir == old(fs.dir)[n := old(fs.dir)[n].(snap := old(fs.dir)[n].snap.(summary := Some(text)))]
    ensures !ok ==> fs.dir == old(fs.dir)
    ensures old(fs.Clean()) ==> fs.Clean() && (ok <==> n in old(fs.dir))
    ensures ok ==> !fs.down && fs.outcomes == if old(fs.outcomes) == [] then [] else old(fs.outcomes)[1..]
    ensures ok <==> n in old(fs.dir) && !old(fs.NextFails())
  {
    ok := fs.Attempt();
    if ok && n in fs.dir {
      fs.dir := fs.dir[n := fs.dir[n].(snap := fs.dir[n].snap.(summary := Some(text)))];
    } else {
      ok := false;
    }
  }

  method WriteMarker(fs: SessionsDir, n: Name, skipped: bool) returns (ok: bool)
    modifies fs`dir, fs`outcomes, fs`down
    ensures ok ==> n in old(fs.dir) && fs.dir == old(fs.dir)[n := old(fs.dir)[n].(snap :=
                     if skipped then old(fs.dir)[n].snap.(skipMarker := true) else old(fs.dir)[n].snap.(okMarker := true))]
    ensures !ok ==> fs.dir == old(fs.dir)
    ensures old(fs.Clean()) ==> fs.Clean() && (ok <==> n in old(fs.dir))
  {
    ok := fs.Attempt();
    if ok && n in fs.dir {
      var s := fs.dir[n].snap;
      fs.dir := fs.dir[n := fs.dir[n].(snap := if skipped then s.(skipMarker := true) else s.(okMarker := true))];
    } else {
      ok := false;
    }
  }

  /** Adding to the landed folder, or failing to, is safe. */
  lemma AddedSafely(d: Dir, e: Dir, n: Name, s: Snap, req: Request)
    requires n in d ==> OursAt(d, n, req)
    requires e == d || (n in d && Core(s) == Core(d[n].snap) && e == d[n := d[n].(snap := s)])
    ensures SafeRun(d, e, req.uuid, req.live)
  {
    hide SafeRun;
    if e == d {
      SafeRunReflexive(d, req.uuid, req.live);
    } else {
      AddingIsSafeRun(d, n, req.uuid, s, req.live);
    }
  }

  // ---------------------------------------------------------------- where the last-good summary is

  /** A snapshot of the session with this summary is stored. */
  ghost predicate SummaryStored(d: Dir, uuid: string, text: string) {
    exists v :: Kept(d, uuid, v) && v.summary == Some(text)
  }

  /** A listed folder of the session has this summary. */
  ghost predicate SummaryListed(d: Dir, uuid: string, text: string) {
    exists n: Name :: n.Visible? && IsArchive(d, n, uuid) && d[n].snap.summary == Some(text)
  }

  /** Every listed folder of the session has a summary. */
  ghost predicate AllSummarised(d: Dir, uuid: string) {
    forall n: Name :: n.Visible? && IsArchive(d, n, uuid) ==> d[n].snap.summary.Some?
  }

  lemma ListedIsStored(d: Dir, uuid: string, text: string)
    requires SummaryListed(d, uuid, text)
    ensures SummaryStored(d, uuid, text)
  {
    var n: Name :| n.Visible? && IsArchive(d, n, uuid) && d[n].snap.summary == Some(text);
    assert Holds(d[n], d[n].snap);
    assert Kept(d, uuid, d[n].snap);
  }

  lemma StoredOn(d: Dir, e: Dir, uuid: string, text: string)
    requires SameKept(d, e, uuid) && SummaryStored(d, uuid, text)
    ensures SummaryStored(e, uuid, text)
  {
    hide Kept, StoredOnce, Foreign;
    var v :| Kept(d, uuid, v) && v.summary == Some(text);
  }

  /** The summary is that of an extractor's reply. */
  ghost predicate FromReply(replies: seq<Option<Extraction>>, text: string) {
    exists i :: 0 <= i < |replies| && replies[i].Some? && replies[i].value.summary == text && !Blank(text)
  }

  /** The last-good summary or a newer one: the memo enclosed, or an extractor's. */
  ghost predicate GoodSummary(s: Option<string>, req: Request, earlier: Option<string>, replies: seq<Option<Extraction>>) {
    s.Some? && (s == earlier || (req.skipExtraction && s == Memo(req)) || (!req.skipExtraction && FromReply(replies, s.value)))
  }

  /** The folder the run left has a good summary, or the run says that it could not keep the earlier one. */
  ghost predicate SummaryKept(d: Dir, n: Name, req: Request, earlier: Option<string>, replies: seq<Option<Extraction>>, errors: seq<Warning>) {
    earlier.Some? && PreviousNotPreserved !in errors ==> n in d && GoodSummary(d[n].snap.summary, req, earlier, replies)
  }

  /**
   * Between the landing and the writing of summary.md the session's only copies
   * of the earlier summary are those in the history: what a crash then leaves is
   * exactly what had a place there, and a copy of the same content had none.
   */
  lemma WindowKeepsSummary(d0: Dir, d1: Dir, uuid: string, final: Name, snap: Snap, text: string)
    requires snap.stat.Some? && snap.summary.None? && CompleteWrite(d0, d1, uuid, final, snap)
    ensures SummaryStored(d1, uuid, text)
            <==> exists v :: BelongsInHistory(d0, uuid, snap.stat.value, v) && v.summary == Some(text)
  {
    hide BelongsInHistory;
    if SummaryStored(d1, uuid, text) {
      var v :| Kept(d1, uuid, v) && v.summary == Some(text);
      var n :| IsArchive(d1, n, uuid) && Holds(d1[n], v);
      assert BelongsInHistory(d0, uuid, snap.stat.value, v);
    }
    if v :| BelongsInHistory(d0, uuid, snap.stat.value, v) && v.summary == Some(text) {
      assert IsArchive(d1, final, uuid) && Holds(d1[final], v);
      assert Kept(d1, uuid, v);
    }
  }

  // ---------------------------------------------------------------- steps of a run

  /** A listed folder of the session, if the listing shows one. */
  method FindArchived(fs: SessionsDir, uuid: string) returns (found: Option<Name>)
    modifies fs`outcomes, fs`down
    ensures found.Some? ==> found.value.Visible? && IsArchive(fs.dir, found.value, uuid)
    ensures old(fs.Clean()) ==> fs.Clean() && (found.None? ==> NoVisibleArchive(fs.dir, uuid))
    ensures old(fs.NextFails()) ==> found.None?
  {
    found := None;
    var listed := fs.Attempt();
    if !listed {
      return;
    }
    var todo := fs.dir.Keys;
    while todo != {}
      invariant todo <= fs.dir.Keys
      invariant found.Some? ==> found.value.Visible? && IsArchive(fs.dir, found.value, uuid)
      invariant old(fs.Clean()) ==> fs.Clean()
      invariant old(fs.Clean()) && found.None? ==> forall n: Name :: n in fs.dir && n !in todo && n.Visible? ==> !IsArchive(fs.dir, n, uuid)
      decreases |todo|
    {
      var n :| n in todo;
      todo := todo - {n};
      if n.Visible? {
        var readable := fs.Attempt();
        if readable && fs.dir[n].snap.uuid == Some(uuid) {
          found := Some(n);
        }
      }
    }
  }

  /** The reply the run takes, the first there is within the attempts, and the number of calls that took. */
  ghost predicate Reply(replies: seq<Option<Extraction>>, attempts: nat, raw: Option<Extraction>, calls: nat) {
    && (forall i :: 0 <= i < calls - 1 && i < |replies| ==> replies[i].None?)
    && (if raw.Some? then 1 <= calls <= |replies| && calls <= Max(attempts, 1) && replies[calls - 1] == raw
        else calls == Max(attempts, 1) && (calls <= |replies| ==> replies[calls - 1].None?))
  }

  lemma OneReply(replies: seq<Option<Extraction>>, attempts: nat, a: Option<Extraction>, b: Option<Extraction>, x: nat, y: nat)
    requires Reply(replies, attempts, a, x) && Reply(replies, attempts, b, y)
    ensures a == b && x == y
  {}

  lemma ReplyIsOne(replies: seq<Option<Extraction>>, attempts: nat, ex: Extraction, calls: nat)
    requires Reply(replies, attempts, Some(ex), calls)
    ensures !Blank(ex.summary) ==> FromReply(replies, ex.summary)
  {}

  /** The extractor, up to `attempts` times; an earlier failure that a retry mends is only a note. */
  method Extract(replies: seq<Option<Extraction>>, attempts: nat) returns (raw: Option<Extraction>, calls: nat, retries: nat)
    ensures 1 <= calls <= Max(attempts, 1)
    ensures raw.Some? ==> calls <= |replies| && replies[calls - 1] == raw && forall i :: 0 <= i < calls - 1 ==> replies[i].None?
    ensures raw.None? ==> calls == Max(attempts, 1) && forall i :: 0 <= i < calls && i < |replies| ==> replies[i].None?
    ensures Reply(replies, attempts, raw, calls) && retries == calls - 1
  {
    var limit := Max(attempts, 1);
    calls, retries, raw := 0, 0, None;
    while raw.None? && calls < limit
      invariant 0 <= calls <= limit
      invariant raw.None? ==> forall i :: 0 <= i < calls && i < |replies| ==> replies[i].None?
      invariant raw.Some? ==> 1 <= calls <= |replies| && replies[calls - 1] == raw && forall i :: 0 <= i < calls - 1 ==> replies[i].None?
      invariant retries == if raw.None? && calls < limit then calls else calls - 1
      decreases limit - calls
    {
      if calls < |replies| {
        raw := replies[calls];
      }
      calls := calls + 1;
      if raw.None? && calls < limit {
        retries := retries + 1;
      }
    }
  }

  /** Retitle the archive if the extraction supplied another title: the same content lands under the new name. */
  method Retitle(fs: SessionsDir, req: Request, dir: Name, title: string, newTitle: string) returns (dir': Name, title': string, failed: bool)
    requires Unmarked(fs.dir, dir, req)
    modifies fs`dir, fs`outcomes, fs`down, fs`counter
    ensures Unmarked(fs.dir, dir', req) && (old(fs.Clean()) ==> fs.Clean())
    ensures SafeRun(old(fs.dir), fs.dir, req.uuid, req.live)
    ensures old(fs.Clean()) && WellNamed(old(fs.dir)) && OnlyVisibleArchive(old(fs.dir), req.uuid, dir) && dir in old(fs.dir) && !failed ==>
              dir' in fs.dir && OnlyVisibleArchive(fs.dir, req.uuid, dir')
    ensures newTitle == [] || newTitle == title ==> fs.dir == old(fs.dir) && dir' == dir && title' == title && !failed
    ensures newTitle != [] && newTitle != title ==>
              && title' == newTitle && (failed ==> dir' == dir)
              && (!failed ==> dir' == Visible(FinalText(req, newTitle)) && dir' in fs.dir
                              && fs.dir[dir'].snap == FreshSnap(req, req.ids + 1, newTitle, req.retitledAt))
              && (old(fs.Clean()) && CanLand(old(fs.dir), fs.pid, old(fs.counter), req, newTitle) ==> !failed)
    ensures old(fs.Clean()) && InOrder(old(fs.dir), fs.pid, old(fs.counter), req) && dir in old(fs.dir) ==> dir' in fs.dir
  {
    dir', title', failed := dir, title, false;
    ghost var d := fs.dir;
    SafeRunReflexive(d, req.uuid, req.live);
    hide SafeRun, SafeWrite;
    if newTitle != [] && newTitle != title {
      title' := newTitle;
      var snap := FreshSnap(req, req.ids + 1, newTitle, req.retitledAt);
      var r := WriteArchive(fs, req.uuid, FinalText(req, newTitle), snap);
      SafeWriteIsSafeRun(d, fs.dir, req.uuid, snap);
      match r
      case Ok(landed) => dir' := landed.folder;
      case Err(_) => failed := true;
    }
  }

  /** What a run knows when its extraction phase is over. */
  ghost predicate Tracked(d: Dir, n: Name, req: Request, summaryOk: bool) {
    Unmarked(d, n, req) && (summaryOk ==> n in d && d[n].snap.summary.Some?)
  }

  /** A skip run's summary is the enclosed memo; a blank one leaves what is there. */
  method EncloseMemo(fs: SessionsDir, req: Request, dir: Name) returns (summaryOk: bool, errors: seq<Warning>)
    requires Unmarked(fs.dir, dir, req)
    modifies fs`dir, fs`outcomes, fs`down
    ensures Tracked(fs.dir, dir, req, summaryOk) && (old(fs.Clean()) ==> fs.Clean())
    ensures fs.dir.Keys == old(fs.dir).Keys && (WellNamed(old(fs.dir)) ==> WellNamed(fs.dir))
    ensures OnlyVisibleArchive(old(fs.dir), req.uuid, dir) ==> OnlyVisibleArchive(fs.dir, req.uuid, dir)
    ensures errors == [] && Memo(req).Some? ==> dir in fs.dir && fs.dir[dir].snap.summary == Memo(req)
    ensures Memo(req).None? ==> fs.dir == old(fs.dir) && errors == []
    ensures errors == [] && Memo(req).Some? && dir in old(fs.dir) ==> fs.dir[dir].snap == old(fs.dir)[dir].snap.(summary := Memo(req))
    ensures SafeRun(old(fs.dir), fs.dir, req.uuid, req.live)
    ensures dir in fs.dir ==> fs.dir[dir].snap.summary == old(fs.dir)[dir].snap.summary || (Memo(req).Some? && fs.dir[dir].snap.summary == Memo(req))
    ensures PreviousNotPreserved !in errors && (old(fs.Clean()) && dir in old(fs.dir) ==> errors == [])
  {
    summaryOk, errors := false, [];
    ghost var d := fs.dir;
    SafeRunReflexive(d, req.uuid, req.live);
    hide SafeRun;
    if Memo(req).Some? {
      summaryOk := WriteSummary(fs, dir, Memo(req).value);
      AddedSafely(d, fs.dir, dir, if dir in fs.dir then fs.dir[dir].snap else FreshSnap(req, 0, "", 0), req);
      if !summaryOk {
        errors := [MemoNotWritten];
      }
    }
  }

  /** There is something in it besides white space. */
  predicate HasText(text: string) {
    exists i :: 0 <= i < |text| && !(text[i] == ' ' || '\t' <= text[i] <= '\r')
  }

  /** A reply that has the marker of an entry but no entry that can be read is broken. */
  predicate Parsed(ex: Extraction) {
    ex.entries > 0 || !ex.hasEntryMarker
  }

  /** A reply came, and it was good: something to read in its summary, and no broken entries. */
  predicate Good(raw: Option<Extraction>) {
    raw.Some? && HasText(raw.value.summary) && Parsed(raw.value)
  }

  /** The title a run ends with: the reply's, unless that is empty. */
  function TitleOf(req: Request, ex: Extraction): string {
    if Trim(ex.title) == [] then req.fallbackTitle else Trim(ex.title)
  }

  /** The snapshot a run has stored, before its summary and its marker. */
  function BareSnap(req: Request, ex: Extraction): Snap {
    if TitleOf(req, ex) == req.fallbackTitle then FreshSnap(req, req.ids, req.fallbackTitle, req.landedAt)
    else FreshSnap(req, req.ids + 1, TitleOf(req, ex), req.retitledAt)
  }

  /** Summary and knowledge of a successful extraction. */
  method Digest(fs: SessionsDir, req: Request, dir: Name, ex: Extraction) returns (summaryOk: bool, errors: seq<Warning>)
    requires Unmarked(fs.dir, dir, req)
    modifies fs`dir, fs`outcomes, fs`down
    ensures Tracked(fs.dir, dir, req, summaryOk) && (old(fs.Clean()) ==> fs.Clean())
    ensures summaryOk ==> fs.dir[dir].snap.summary == Some(ex.summary) && !Blank(ex.summary)
    ensures SafeRun(old(fs.dir), fs.dir, req.uuid, req.live) && fs.dir.Keys == old(fs.dir).Keys
    ensures OnlyVisibleArchive(old(fs.dir), req.uuid, dir) ==> OnlyVisibleArchive(fs.dir, req.uuid, dir)
    ensures errors == [] ==> Parsed(ex) && (summaryOk <==> HasText(ex.summary))
    ensures errors == [] && summaryOk ==>
              dir in old(fs.dir) && fs.dir[dir].snap == old(fs.dir)[dir].snap.(summary := Some(ex.summary))
    ensures old(fs.Clean()) && dir in old(fs.dir) && Parsed(ex) ==> errors == []
    ensures Warns(errors, Some(ex))
    ensures Parsed(ex) && !HasText(ex.summary) && old(fs.NextFails()) ==> errors == [KnowledgeNotWritten]
    ensures Parsed(ex) && HasText(ex.summary) && dir in old(fs.dir) && !old(fs.NextFails()) && |old(fs.outcomes)| > 1 && !old(fs.outcomes)[1].Works? ==>
              errors == [KnowledgeNotWritten]
  {
    summaryOk, errors := false, [];
    ghost var d := fs.dir;
    SafeRunReflexive(d, req.uuid, req.live);
    hide SafeRun;
    if !Blank(ex.summary) {
      summaryOk := WriteSummary(fs, dir, ex.summary);
      AddedSafely(d, fs.dir, dir, if dir in fs.dir then fs.dir[dir].snap else FreshSnap(req, 0, "", 0), req);
      if !summaryOk {
        errors := [SummaryNotWritten];
      }
    }
    if ex.entries == 0 && ex.hasEntryMarker {
      errors := errors + [EntriesUnparsable];
    } else {
      var stored := fs.Attempt();
      if !stored {
        errors := errors + [KnowledgeNotWritten];
      }
    }
  }

  /** The folder as the run first lands it, the earlier summary perhaps written back. */
  predicate Fallen(d: Dir, n: Name, title: string, req: Request) {
    && title == req.fallbackTitle && n == Visible(FinalText(req, title)) && n in d
    && d[n].snap.(summary := None) == FreshSnap(req, req.ids, title, req.landedAt)
  }

  /** The folder after a good extraction: under the reply's title, with its summary. */
  predicate Taken(d: Dir, n: Name, title: string, req: Request, ex: Extraction) {
    && title == TitleOf(req, ex) && n == Visible(FinalText(req, title)) && n in d
    && d[n].snap == BareSnap(req, ex).(summary := Some(ex.summary))
  }

  /** What a complete run leaves: one literal snapshot, under one literal name. */
  predicate StoredBy(d: Dir, dir: Name, title: string, req: Request, earlier: Option<string>, raw: Option<Extraction>)
    requires !req.skipExtraction ==> raw.Some?
  {
    var retitled := !req.skipExtraction && Trim(raw.value.title) != "" && Trim(raw.value.title) != req.fallbackTitle;
    var summary :=
      if !req.skipExtraction then Some(raw.value.summary)
      else if req.summary.Some? && HasText(req.summary.value) then req.summary
      else earlier;
    && title == (if retitled then Trim(raw.value.title) else req.fallbackTitle)
    && |req.uuid| >= 8 && dir == Visible(req.date + "-" + req.slug(title) + "-" + req.uuid[..8]) && dir in d
    && d[dir].snap == Snap(if retitled then req.ids + 1 else req.ids, Some(req.uuid), title, req.kind, Some(req.live),
                           Some(if retitled then req.retitledAt else req.landedAt), summary, !req.skipExtraction, req.skipExtraction)
  }

  lemma NameSpelled(req: Request, title: string)
    requires |req.uuid| >= 8
    ensures FinalText(req, title) == req.date + "-" + req.slug(title) + "-" + req.uuid[..8]
  {
    assert req.uuid[..8] == Uuid8(req.uuid);
  }

  lemma ExtractionStored(d0: Dir, d: Dir, dir: Name, title: string, req: Request, earlier: Option<string>, ex: Extraction)
    requires Taken(d0, dir, title, req, ex) && dir in d && d[dir].snap == d0[dir].snap.(okMarker := true)
    requires |req.uuid| >= 8 && !req.skipExtraction
    ensures StoredBy(d, dir, title, req, earlier, Some(ex))
  {
    NameSpelled(req, title);
  }

  lemma SkipStored(d0: Dir, d: Dir, dir: Name, req: Request, earlier: Option<string>)
    requires Fallen(d0, dir, req.fallbackTitle, req) && |req.uuid| >= 8 && req.skipExtraction && dir in d
    requires d[dir].snap == d0[dir].snap.(summary := if Memo(req).Some? then Memo(req) else earlier, skipMarker := true)
    ensures StoredBy(d, dir, req.fallbackTitle, req, earlier, None)
  {
    NameSpelled(req, req.fallbackTitle);
  }

  /** A run blames the extractor if no call replied, and its reply if the entries did not parse. */
  predicate Blames(errors: seq<Warning>, raw: Option<Extraction>) {
    (raw.None? ==> ExtractionFailed in errors) && (raw.Some? && !Parsed(raw.value) ==> EntriesUnparsable in errors)
  }

  /** What went wrong with the extractor is said, and nothing is said of the earlier summary. */
  predicate Warns(errors: seq<Warning>, raw: Option<Extraction>) {
    && (ExtractionFailed in errors <==> raw.None?) && (EntriesUnparsable in errors <==> raw.Some? && !Parsed(raw.value))
    && PreviousNotPreserved !in errors
  }

  /** Title, summary and knowledge of a successful extraction. */
  method Absorb(fs: SessionsDir, req: Request, dir: Name, title: string, ex: Extraction)
      returns (dir': Name, title': string, summaryOk: bool, errors: seq<Warning>)
    requires Unmarked(fs.dir, dir, req)
    modifies fs`dir, fs`outcomes, fs`down, fs`counter
    ensures Tracked(fs.dir, dir', req, summaryOk) && (old(fs.Clean()) ==> fs.Clean())
    ensures summaryOk ==> fs.dir[dir'].snap.summary == Some(ex.summary) && !Blank(ex.summary)
    ensures SafeRun(old(fs.dir), fs.dir, req.uuid, req.live)
    ensures old(fs.Clean()) && WellNamed(old(fs.dir)) && OnlyVisibleArchive(old(fs.dir), req.uuid, dir) && dir in old(fs.dir) && errors == [] ==>
              dir' in fs.dir && OnlyVisibleArchive(fs.dir, req.uuid, dir')
    ensures errors == [] ==> Parsed(ex) && (summaryOk <==> HasText(ex.summary))
    ensures errors == [] && summaryOk && Fallen(old(fs.dir), dir, title, req) ==> Taken(fs.dir, dir', title', req, ex)
    ensures (old(fs.Clean()) && Fallen(old(fs.dir), dir, title, req) && Parsed(ex)
             && CanLand(old(fs.dir), fs.pid, old(fs.counter), req, TitleOf(req, ex))) ==> errors == []
    ensures Warns(errors, Some(ex))
    ensures old(fs.Clean()) && InOrder(old(fs.dir), fs.pid, old(fs.counter), req) && dir in old(fs.dir) ==> dir' in fs.dir
  {
    var failed;
    ghost var d0 := fs.dir;
    dir', title', failed := Retitle(fs, req, dir, title, Trim(ex.title));
    ghost var d1 := fs.dir;
    hide SafeRun;
    var more;
    summaryOk, more := Digest(fs, req, dir', ex);
    SafeRunTransitive(d0, d1, fs.dir, req.uuid, req.live);
    errors := (if failed then [RetitleFailed] else []) + more;
  }

  /** The marker that makes the verdict durable. */
  method Mark(fs: SessionsDir, req: Request, dir: Name, summaryOk: bool, errors: seq<Warning>) returns (errors': seq<Warning>)
    requires Tracked(fs.dir, dir, req, summaryOk)
    modifies fs`dir, fs`outcomes, fs`down
    ensures errors' == errors || (errors == [] && errors' == [MarkerNotWritten])
    ensures errors' == [] && (req.skipExtraction || summaryOk) ==>
              && dir in old(fs.dir) && dir in fs.dir
              && fs.dir[dir].snap == if req.skipExtraction then old(fs.dir)[dir].snap.(skipMarker := true) else old(fs.dir)[dir].snap.(okMarker := true)
    ensures (if req.skipExtraction then errors' == [] else summaryOk && errors' == []) <==>
              dir in fs.dir && IsExtractionComplete(fs.dir[dir].snap)
    ensures dir in fs.dir <==> dir in old(fs.dir)
    ensures dir in fs.dir ==> OursAt(fs.dir, dir, req) && fs.dir[dir].snap.summary == old(fs.dir)[dir].snap.summary
    ensures OnlyVisibleArchive(old(fs.dir), req.uuid, dir) ==> OnlyVisibleArchive(fs.dir, req.uuid, dir)
    ensures WellNamed(old(fs.dir)) ==> WellNamed(fs.dir)
    ensures old(fs.Clean()) ==> fs.Clean() && (dir in old(fs.dir) ==> errors' == errors)
    ensures SafeRun(old(fs.dir), fs.dir, req.uuid, req.live)
  {
    errors' := errors;
    ghost var d := fs.dir;
    SafeRunReflexive(d, req.uuid, req.live);
    hide SafeRun;
    if errors == [] && (req.skipExtraction || summaryOk) {
      var ok := WriteMarker(fs, dir, req.skipExtraction);
      AddedSafely(d, fs.dir, dir, if dir in fs.dir then fs.dir[dir].snap else FreshSnap(req, 0, "", 0), req);
      if !ok {
        errors' := [MarkerNotWritten];
      }
    }
  }

  /** The unchanged verdict over a listed folder; an unreadable summary counts as none. */
  method Verdict(fs: SessionsDir, req: Request, n: Name) returns (skip: bool)
    requires n in fs.dir
    modifies fs`outcomes, fs`down
    ensures old(fs.Clean()) ==> fs.Clean() && (skip <==> UnchangedFor(fs.dir[n].snap, req))
    ensures skip ==> SameArchive(fs.dir[n].snap, req)
    ensures old(fs.NextFails()) ==>
              (skip <==> SameArchive(fs.dir[n].snap, req) && (req.skipExtraction ==> !(req.summary.Some? && HasText(req.summary.value))))
  {
    var s := fs.dir[n].snap;
    var readable := fs.Attempt();
    skip := IsUnchangedComplete(s, req.live) && s.kind == req.kind && SummaryUnchanged(if readable then s.summary else None, req);
  }

  /**
   * The last-good summary goes to disk before the extraction, so that a crash
   * during the extraction cannot lose it; one before this write can.
   */
  method PreserveSummary(fs: SessionsDir, req: Request, dir: Name, earlier: Option<string>) returns (errors: seq<Warning>)
    requires OursAt(fs.dir, dir, req) && Unmarked(fs.dir, dir, req) && fs.dir[dir].snap.summary.None?
    modifies fs`dir, fs`outcomes, fs`down
    ensures OursAt(fs.dir, dir, req) && Unmarked(fs.dir, dir, req) && (old(fs.Clean()) ==> fs.Clean() && errors == [])
    ensures if errors == [] then fs.dir[dir].snap.summary == earlier else errors == [PreviousNotPreserved]
    ensures fs.dir.Keys == old(fs.dir).Keys && fs.dir[dir].snap.(summary := None) == old(fs.dir)[dir].snap
    ensures WellNamed(old(fs.dir)) ==> WellNamed(fs.dir)
    ensures OnlyVisibleArchive(old(fs.dir), req.uuid, dir) ==> OnlyVisibleArchive(fs.dir, req.uuid, dir)
    ensures SafeRun(old(fs.dir), fs.dir, req.uuid, req.live)
  {
    errors := [];
    ghost var d := fs.dir;
    SafeRunReflexive(d, req.uuid, req.live);
    hide SafeRun;
    if earlier.Some? {
      var ok := WriteSummary(fs, dir, earlier.value);
      AddedSafely(d, fs.dir, dir, fs.dir[dir].snap, req);
      if !ok {
        errors := [PreviousNotPreserved];
      }
    }
  }

  lemma NothingOfSoleKept(d0: Dir, d1: Dir, uuid: string, n: Name, final: Name, snap: Snap, text: string)
    requires snap.stat.Some? && snap.summary.None? && CompleteWrite(d0, d1, uuid, final, snap)
    requires Sole(d0, uuid, n) && n in d0 && d0[n].history.None? && !Changed(d0[n].snap, snap.stat.value)
    ensures !SummaryStored(d1, uuid, text)
  {
    WindowKeepsSummary(d0, d1, uuid, final, snap, text);
    assert HistValues(d0[n]) == {};
  }

  /**
   * The window, run: the same transcript is archived again over its one folder,
   * which has a summary and no history, and the process dies between the landing
   * and the writing back. The summary is nowhere any more.
   */
  method CrashInTheWindow(d: Dir, pid: nat, names: NameOrder, entries: EntryOrder, req: Request, n: Name) returns (after: Dir)
    requires WellNamed(d) && FreshNames(d, pid, 0) && IsSafeUuid(req.uuid) && Sole(d, req.uuid, n)
    requires n in d && n.Visible? && d[n].snap.summary.Some? && d[n].history.None? && !Changed(d[n].snap, req.live)
    requires !NameTaken(d, req.uuid, Visible(FinalText(req, req.fallbackTitle)))
    ensures SummaryListed(d, req.uuid, d[n].snap.summary.value) && !SummaryStored(after, req.uuid, d[n].snap.summary.value)
  {
    var fs := new SessionsDir(d, pid, names, entries, []);
    var snap := FreshSnap(req, req.ids, req.fallbackTitle, req.landedAt);
    SoleIsClear(d, req.uuid, req.live, pid, 0, names, entries, n);
    assert IsArchive(d, n, req.uuid);
    hide Clear, WellNamed, SafeWrite, FreshNames, NameTaken;
    var w := WriteArchive(fs, req.uuid, FinalText(req, req.fallbackTitle), snap);
    fs.outcomes := [Crashes];
    NothingOfSoleKept(d, fs.dir, req.uuid, n, w.value.folder, snap, d[n].snap.summary.value);
    var ok := WriteSummary(fs, w.value.folder, d[n].snap.summary.value);
    after := fs.dir;
  }

  // ---------------------------------------------------------------- the run

  /** The extraction itself: reply, title, summary, knowledge. */
  method TryExtraction(fs: SessionsDir, req: Request, landed: Name, replies: seq<Option<Extraction>>)
      returns (dir: Name, title: string, summaryOk: bool, errors: seq<Warning>, calls: nat, retries: nat, raw: Option<Extraction>)
    requires OursAt(fs.dir, landed, req) && Unmarked(fs.dir, landed, req)
    modifies fs`dir, fs`outcomes, fs`down, fs`counter
    ensures Tracked(fs.dir, dir, req, summaryOk) && (old(fs.Clean()) ==> fs.Clean())
    ensures summaryOk ==> FromReply(replies, fs.dir[dir].snap.summary.value)
    ensures SafeRun(old(fs.dir), fs.dir, req.uuid, req.live)
    ensures old(fs.Clean()) && WellNamed(old(fs.dir)) && OnlyVisibleArchive(old(fs.dir), req.uuid, landed) && errors == [] ==>
              OnlyVisibleArchive(fs.dir, req.uuid, dir)
    ensures Reply(replies, req.attempts, raw, calls) && calls == retries + 1
    ensures errors == [] && summaryOk ==>
              && Good(raw)
              && (Fallen(old(fs.dir), landed, req.fallbackTitle, req) ==> Taken(fs.dir, dir, title, req, raw.value))
    ensures (old(fs.Clean()) && Fallen(old(fs.dir), landed, req.fallbackTitle, req) && Good(raw)
             && CanLand(old(fs.dir), fs.pid, old(fs.counter), req, TitleOf(req, raw.value))) ==> errors == [] && summaryOk
    ensures Warns(errors, raw)
    ensures old(fs.Clean()) && InOrder(old(fs.dir), fs.pid, old(fs.counter), req) ==> dir in fs.dir
  {
    dir, title, summaryOk, errors := landed, req.fallbackTitle, false, [];
    SafeRunReflexive(fs.dir, req.uuid, req.live);
    hide SafeRun, WellNamed, Reply, FromReply, CanLand, Fallen, Taken, HasText, Parsed, Blank, TitleOf, FinalText, OnlyVisibleArchive;
    raw, calls, retries := Extract(replies, req.attempts);
    match raw {
      case None => errors := [ExtractionFailed];
      case Some(ex) =>
        ReplyIsOne(replies, req.attempts, ex, calls);
        dir, title, summaryOk, errors := Absorb(fs, req, dir, title, ex);
    }
  }

  /** The extraction phase of a run that does not skip it: the extraction, and the earlier summary for want of a new one. */
  method Extracted(fs: SessionsDir, req: Request, landed: Name, earlier: Option<string>, errors0: seq<Warning>, replies: seq<Option<Extraction>>)
      returns (dir: Name, title: string, summaryOk: bool, errors: seq<Warning>, calls: nat, retries: nat, raw: Option<Extraction>)
    requires OursAt(fs.dir, landed, req) && Unmarked(fs.dir, landed, req) && !req.skipExtraction
    modifies fs`dir, fs`outcomes, fs`down, fs`counter
    ensures Tracked(fs.dir, dir, req, summaryOk) && (old(fs.Clean()) ==> fs.Clean())
    ensures earlier.Some? && PreviousNotPreserved !in errors ==> dir in fs.dir && GoodSummary(fs.dir[dir].snap.summary, req, earlier, replies)
    ensures SafeRun(old(fs.dir), fs.dir, req.uuid, req.live)
    ensures old(fs.Clean()) && WellNamed(old(fs.dir)) && OnlyVisibleArchive(old(fs.dir), req.uuid, landed) && errors == [] ==>
              OnlyVisibleArchive(fs.dir, req.uuid, dir)
    ensures Reply(replies, req.attempts, raw, calls) && calls == retries + 1
    ensures errors == [] && summaryOk ==>
              && Good(raw)
              && (Fallen(old(fs.dir), landed, req.fallbackTitle, req) ==> Taken(fs.dir, dir, title, req, raw.value))
    ensures (old(fs.Clean()) && errors0 == [] && Fallen(old(fs.dir), landed, req.fallbackTitle, req) && Good(raw)
             && CanLand(old(fs.dir), fs.pid, old(fs.counter), req, TitleOf(req, raw.value))) ==> errors == [] && summaryOk
    ensures errors0 <= errors && Blames(errors, raw)
    ensures old(fs.Clean()) && InOrder(old(fs.dir), fs.pid, old(fs.counter), req) && PreviousNotPreserved !in errors0 ==> PreviousNotPreserved !in errors
  {
    ghost var d0 := fs.dir;
    var more;
    dir, title, summaryOk, more, calls, retries, raw := TryExtraction(fs, req, landed, replies);
    errors := errors0 + more;
    hide SafeRun, WellNamed, Reply, HasText, Parsed, FromReply, CanLand, Fallen, Taken, TitleOf, OnlyVisibleArchive;
    if !summaryOk && earlier.Some? {
      ghost var d1 := fs.dir;
      var warning;
      summaryOk, warning := KeepEarlier(fs, req, dir, earlier.value);
      SafeRunTransitive(d0, d1, fs.dir, req.uuid, req.live);
      errors := errors + [warning];
      assert errors[|errors| - 1] == warning;
    }
  }

  /** The earlier summary, for want of a new one. */
  method KeepEarlier(fs: SessionsDir, req: Request, dir: Name, earlier: string) returns (summaryOk: bool, warning: Warning)
    requires Unmarked(fs.dir, dir, req)
    modifies fs`dir, fs`outcomes, fs`down
    ensures Tracked(fs.dir, dir, req, summaryOk) && (old(fs.Clean()) ==> fs.Clean())
    ensures warning == if summaryOk then PreviousKept else PreviousNotPreserved
    ensures summaryOk ==> dir in fs.dir && fs.dir[dir].snap.summary == Some(earlier)
    ensures old(fs.Clean()) && dir in old(fs.dir) ==> summaryOk
    ensures SafeRun(old(fs.dir), fs.dir, req.uuid, req.live)
  {
    ghost var d := fs.dir;
    hide SafeRun;
    summaryOk := WriteSummary(fs, dir, earlier);
    AddedSafely(d, fs.dir, dir, if dir in fs.dir then fs.dir[dir].snap else FreshSnap(req, 0, "", 0), req);
    warning := if summaryOk then PreviousKept else PreviousNotPreserved;
  }

  /** What the run that follows the core artifacts reports and leaves. */
  method FinishRun(fs: SessionsDir, req: Request, landed: Name, earlier: Option<string>, errors0: seq<Warning>, replies: seq<Option<Extraction>>)
      returns (dir: Name, title: string, summaryOk: bool, errors: seq<Warning>, calls: nat, retries: nat, raw: Option<Extraction>)
    requires OursAt(fs.dir, landed, req) && Unmarked(fs.dir, landed, req) && Fallen(fs.dir, landed, req.fallbackTitle, req) && |req.uuid| >= 8
    requires PreviousNotPreserved !in errors0 ==> fs.dir[landed].snap.summary == earlier
    modifies fs`dir, fs`outcomes, fs`down, fs`counter
    ensures old(fs.Clean()) ==> fs.Clean() && (req.skipExtraction && errors0 == [] ==> errors == [])
    ensures (if req.skipExtraction then errors == [] else summaryOk && errors == []) <==>
              dir in fs.dir && IsExtractionComplete(fs.dir[dir].snap)
    ensures dir in fs.dir ==> OursAt(fs.dir, dir, req)
    ensures req.skipExtraction && errors == [] ==> dir in fs.dir && fs.dir[dir].snap.summary == if Memo(req).Some? then Memo(req) else earlier
    ensures req.skipExtraction ==> calls == 0
    ensures SummaryKept(fs.dir, dir, req, earlier, replies, errors)
    ensures SafeRun(old(fs.dir), fs.dir, req.uuid, req.live)
    ensures old(fs.Clean()) && WellNamed(old(fs.dir)) && OnlyVisibleArchive(old(fs.dir), req.uuid, landed) && errors == [] ==>
              OnlyVisibleArchive(fs.dir, req.uuid, dir)
    ensures !req.skipExtraction ==> Reply(replies, req.attempts, raw, calls) && calls == retries + 1
    ensures !req.skipExtraction && summaryOk && errors == [] ==> Good(raw)
    ensures (if req.skipExtraction then errors == [] else summaryOk && errors == []) ==> StoredBy(fs.dir, dir, title, req, earlier, raw)
    ensures (old(fs.Clean()) && errors0 == [] && !req.skipExtraction && Good(raw)
             && CanLand(old(fs.dir), fs.pid, old(fs.counter), req, TitleOf(req, raw.value))) ==> errors == [] && summaryOk
    ensures errors0 <= errors && (!req.skipExtraction ==> Blames(errors, raw))
    ensures old(fs.Clean()) && InOrder(old(fs.dir), fs.pid, old(fs.counter), req) && PreviousNotPreserved !in errors0 ==> PreviousNotPreserved !in errors
  {
    dir, title, summaryOk, errors, calls, retries, raw := landed, req.fallbackTitle, false, errors0, 0, 0, None;
    ghost var d0 := fs.dir;
    hide SafeRun, WellNamed, Reply, CanLand, Fallen, Taken, HasText, Parsed, StoredBy, OnlyVisibleArchive, TitleOf;
    if req.skipExtraction {
      var more;
      summaryOk, more := EncloseMemo(fs, req, dir);
      errors := errors + more;
    } else {
      dir, title, summaryOk, errors, calls, retries, raw := Extracted(fs, req, landed, earlier, errors0, replies);
    }
    ghost var d1 := fs.dir;
    errors := Mark(fs, req, dir, summaryOk, errors);
    if errors == [] && req.skipExtraction {
      SkipStored(d0, fs.dir, dir, req, earlier);
    } else if errors == [] && summaryOk {
      ExtractionStored(d1, fs.dir, dir, title, req, earlier, raw.value);
    }
    SafeRunTransitive(d0, d1, fs.dir, req.uuid, req.live);
  }

  /** The previous archive's summary, if it has one that can be read. */
  method ReadEarlier(fs: SessionsDir, found: Option<Name>) returns (earlier: Option<string>, errors: seq<Warning>)
    requires found.Some? ==> found.value in fs.dir
    modifies fs`outcomes, fs`down
    ensures old(fs.Clean()) ==> fs.Clean() && errors == []
    ensures found.Some? && fs.dir[found.value].snap.summary.Some? && old(fs.NextFails()) ==> errors == [PreviousUnreadable]
    ensures if errors == [] then earlier == (if found.Some? then fs.dir[found.value].snap.summary else None) else earlier.None? && errors == [PreviousUnreadable]
  {
    earlier, errors := None, [];
    if found.Some? && fs.dir[found.value].snap.summary.Some? {
      var readable := fs.Attempt();
      if readable {
        earlier := fs.dir[found.value].snap.summary;
      } else {
        errors := [PreviousUnreadable];
      }
    }
  }

  /** Every listed folder of the session already is what the request asks for. */
  ghost predicate AllSkip(d: Dir, req: Request) {
    forall n: Name :: n.Visible? && IsArchive(d, n, req.uuid) ==> UnchangedFor(d[n].snap, req)
  }

  /** A run that wrote, or tried to. */
  predicate Wrote(req: Request, r: Result<Run, RunError>) {
    req.turns > 0 && !(r.Ok? && r.value.untouched)
  }

  /** What the carried summary says of the directory the run found; exact when nothing fails and one folder is listed. */
  ghost predicate CarriedFrom(d: Dir, uuid: string, earlier: Option<string>, clean: bool) {
    && (earlier.Some? ==> SummaryListed(d, uuid, earlier.value))
    && (clean && !NoVisibleArchive(d, uuid) && AllSummarised(d, uuid) ==> earlier.Some?)
  }

  /** A run's report and the folder it left agree; and the folder would be skipped exactly if the run settles. */
  ghost predicate Agree(d: Dir, req: Request, r: Run, earlier: Option<string>) {
    && (r.dir in d ==> OursAt(d, r.dir, req))
    && (r.ExtractionComplete() <==> r.dir in d && IsExtractionComplete(d[r.dir].snap))
    && (r.ExtractionComplete() ==> (Skips(d[r.dir].snap, req) <==> Settles(req, earlier)))
  }

  /** All runs but one kind leave what their repeat finds unchanged: a skip run with a blank memo over a summary does not. */
  predicate Settles(req: Request, earlier: Option<string>) {
    !req.skipExtraction || (req.summary.Some? && HasText(req.summary.value)) || earlier.None?
  }

  /** A run that wrote is complete only if it was skipped or got a good reply, and then its folder is the literal one. */
  ghost predicate Completes(d: Dir, req: Request, r: Run, earlier: Option<string>, raw: Option<Extraction>) {
    && (r.ExtractionComplete() ==> r.errors == [] && (req.skipExtraction || Good(raw)) && StoredBy(d, r.dir, r.title, req, earlier, raw))
  }

  /** What a run that wrote reports and leaves, whatever failed. */
  ghost predicate Ran(d: Dir, req: Request, r: Run, calls: nat, earlier: Option<string>, replies: seq<Option<Extraction>>, raw: Option<Extraction>) {
    && !r.untouched && Agree(d, req, r, earlier) && SummaryKept(d, r.dir, req, earlier, replies, r.errors)
    && Completes(d, req, r, earlier, raw)
    && (if req.skipExtraction then calls == 0 else Reply(replies, req.attempts, raw, calls) && calls == r.retries + 1 && Blames(r.errors, raw))
  }

  /** And when nothing fails: a skip run is complete, and so is one with a good reply for whose title there is room. */
  ghost predicate RanCleanly(d0: Dir, d: Dir, pid: nat, counter: nat, req: Request, r: Run, raw: Option<Extraction>) {
    && (req.skipExtraction ==> r.ExtractionComplete())
    && (WellNamed(d0) && r.ExtractionComplete() ==> OnlyVisibleArchive(d, req.uuid, r.dir))
    && (InOrder(d0, pid, counter, req) ==> PreviousNotPreserved !in r.errors)
    && (CanLand(d0, pid, counter, req, req.fallbackTitle) ==> (r.replaced <==> HasArchive(d0, req.uuid)))
    && (!req.skipExtraction && Good(raw) && CanLand(d0, pid, counter, req, TitleOf(req, raw.value)) ==> r.ExtractionComplete())
  }

  lemma ReportAgrees(d: Dir, req: Request, r: Run, earlier: Option<string>)
    requires !r.untouched && r.extractionSkipped == req.skipExtraction && (r.dir in d ==> OursAt(d, r.dir, req))
    requires (if req.skipExtraction then r.errors == [] else r.summaryOk && r.errors == []) <==> r.dir in d && IsExtractionComplete(d[r.dir].snap)
    requires req.skipExtraction && r.errors == [] ==> r.dir in d && d[r.dir].snap.summary == if Memo(req).Some? then Memo(req) else earlier
    ensures Agree(d, req, r, earlier)
  {}

  /** Everything after the core artifacts: the earlier summary, the extraction or the memo, the marker. */
  method AfterLanding(fs: SessionsDir, req: Request, landed: Name, replaced: bool, earlier: Option<string>, errors0: seq<Warning>, replies: seq<Option<Extraction>>)
      returns (r: Run, calls: nat, ghost raw: Option<Extraction>)
    requires OursAt(fs.dir, landed, req) && Unmarked(fs.dir, landed, req) && fs.dir[landed].snap.summary.None?
    requires Fallen(fs.dir, landed, req.fallbackTitle, req) && |req.uuid| >= 8
    requires PreviousNotPreserved !in errors0
    modifies fs`dir, fs`outcomes, fs`down, fs`counter
    ensures r.replaced == replaced
    ensures Ran(fs.dir, req, r, calls, earlier, replies, raw)
    ensures SafeRun(old(fs.dir), fs.dir, req.uuid, req.live)
    ensures old(fs.Clean()) ==> fs.Clean() && (req.skipExtraction && errors0 == [] ==> r.ExtractionComplete())
    ensures old(fs.Clean()) && WellNamed(old(fs.dir)) && OnlyVisibleArchive(old(fs.dir), req.uuid, landed) && r.ExtractionComplete() ==>
              OnlyVisibleArchive(fs.dir, req.uuid, r.dir)
    ensures (old(fs.Clean()) && errors0 == [] && !req.skipExtraction && Good(raw)
             && CanLand(old(fs.dir), fs.pid, old(fs.counter), req, TitleOf(req, raw.value))) ==> r.ExtractionComplete()
    ensures errors0 <= r.errors
    ensures old(fs.Clean()) && InOrder(old(fs.dir), fs.pid, old(fs.counter), req) ==> PreviousNotPreserved !in r.errors
  {
    ghost var d0 := fs.dir;
    hide SafeRun, WellNamed, SummaryKept, Good, StoredBy, Reply, TitleOf, OnlyVisibleArchive, Agree, Memo, IsExtractionComplete;
    var more := PreserveSummary(fs, req, landed, earlier);
    ghost var d1 := fs.dir;
    if FreshNames(d0, fs.pid, fs.counter) {
      SameNamesFresh(d0, d1, fs.pid, fs.counter);
      forall title | CanLand(d0, fs.pid, fs.counter, req, title) ensures CanLand(d1, fs.pid, fs.counter, req, title) {
        StillCanLand(d0, d1, fs.pid, fs.counter, fs.counter, req, title);
      }
    }
    hide CanLand, Blames;
    var dir, title, summaryOk, errors, retries, reply;
    dir, title, summaryOk, errors, calls, retries, reply := FinishRun(fs, req, landed, earlier, errors0 + more, replies);
    raw := reply;
    SafeRunTransitive(d0, d1, fs.dir, req.uuid, req.live);
    r := Run(dir, title, replaced, summaryOk, false, req.skipExtraction, errors, retries);
    ReportAgrees(fs.dir, req, r, earlier);
  }

  /** The run from the landing on. */
  method WriteRun(fs: SessionsDir, req: Request, replies: seq<Option<Extraction>>, earlier: Option<string>, errors0: seq<Warning>)
      returns (r: Result<Run, RunError>, calls: nat, ghost raw: Option<Extraction>)
    requires PreviousNotPreserved !in errors0 && (earlier.Some? ==> SummaryListed(fs.dir, req.uuid, earlier.value))
    modifies fs`dir, fs`outcomes, fs`down, fs`counter
    ensures r.Ok? ==> Ran(fs.dir, req, r.value, calls, earlier, replies, raw) && errors0 <= r.value.errors
    ensures r.Err? ==> calls == 0 && SameKept(old(fs.dir), fs.dir, req.uuid) && (earlier.Some? ==> SummaryStored(fs.dir, req.uuid, earlier.value))
    ensures SafeRun(old(fs.dir), fs.dir, req.uuid, req.live)
    ensures old(fs.Clean()) ==> fs.Clean() && (r.Ok? && errors0 == [] ==> RanCleanly(old(fs.dir), fs.dir, fs.pid, old(fs.counter), req, r.value, raw))
    ensures old(fs.Clean()) && WellNamed(old(fs.dir)) && IsSafeUuid(req.uuid) && FreshNames(old(fs.dir), fs.pid, old(fs.counter)) ==>
              (r.Ok? <==> !NameTaken(old(fs.dir), req.uuid, Visible(FinalText(req, req.fallbackTitle))))
  {
    calls, raw := 0, None;
    ghost var d0, c0 := fs.dir, fs.counter;
    var snap := FreshSnap(req, req.ids, req.fallbackTitle, req.landedAt);
    hide SafeRun, SafeWrite, WellNamed, SameKept, CompleteWrite, Clear, NumberedBelow, SummaryKept, SummaryStored, SummaryListed, Ran, Good;
    var w := WriteArchive(fs, req.uuid, FinalText(req, req.fallbackTitle), snap);
    ghost var d1 := fs.dir;
    SafeWriteIsSafeRun(d0, d1, req.uuid, snap);
    WriteKeepsNames(d0, d1, req.uuid, snap);
    if w.Err? {
      if earlier.Some? {
        ListedIsStored(d0, req.uuid, earlier.value);
        StoredOn(d0, d1, req.uuid, earlier.value);
      }
      return Err(WriteFailed(w.error)), 0, None;
    }
    var landed := w.value.folder;
    if old(fs.Clean()) {
      forall title | CanLand(d0, fs.pid, c0, req, title) ensures CanLand(d1, fs.pid, fs.counter, req, title) {
        StillCanLand(d0, d1, fs.pid, c0, fs.counter, req, title);
      }
    }
    hide CanLand;
    var run;
    run, calls, raw := AfterLanding(fs, req, landed, w.value.replaced, earlier, errors0, replies);
    SafeRunTransitive(d0, d1, fs.dir, req.uuid, req.live);
    r := Ok(run);
  }

  lemma WriteKeepsNames(d0: Dir, d1: Dir, uuid: string, snap: Snap)
    requires SafeWrite(d0, d1, uuid, snap)
    ensures WellNamed(d0) ==> WellNamed(d1)
  {}

  lemma FoundSummary(d: Dir, uuid: string, found: Option<Name>, earlier: Option<string>, clean: bool)
    requires found.Some? ==> found.value.Visible? && IsArchive(d, found.value, uuid)
    requires earlier.Some? ==> found.Some? && d[found.value].snap.summary == earlier
    requires clean ==> (found.None? ==> NoVisibleArchive(d, uuid)) && (found.Some? ==> earlier == d[found.value].snap.summary)
    ensures CarriedFrom(d, uuid, earlier, clean)
  {}

  /** Archive over what was found: read its summary before the write that displaces it. */
  method Rearchive(fs: SessionsDir, req: Request, replies: seq<Option<Extraction>>, found: Option<Name>)
      returns (r: Result<Run, RunError>, calls: nat, ghost earlier: Option<string>, ghost raw: Option<Extraction>)
    requires found.Some? ==> found.value.Visible? && IsArchive(fs.dir, found.value, req.uuid)
    modifies fs`dir, fs`outcomes, fs`down, fs`counter
    ensures r.Ok? ==> Ran(fs.dir, req, r.value, calls, earlier, replies, raw)
    ensures r.Err? ==> calls == 0 && SameKept(old(fs.dir), fs.dir, req.uuid) && (earlier.Some? ==> SummaryStored(fs.dir, req.uuid, earlier.value))
    ensures SafeRun(old(fs.dir), fs.dir, req.uuid, req.live)
    ensures earlier.Some? ==> found.Some? && old(fs.dir)[found.value].snap.summary == earlier
    ensures r.Ok? && found.Some? && old(fs.dir)[found.value].snap.summary != earlier ==> PreviousUnreadable in r.value.errors
    ensures old(fs.Clean()) ==> fs.Clean() && (r.Ok? ==> RanCleanly(old(fs.dir), fs.dir, fs.pid, old(fs.counter), req, r.value, raw))
    ensures old(fs.Clean()) && found.Some? ==> earlier == old(fs.dir)[found.value].snap.summary
    ensures old(fs.Clean()) && WellNamed(old(fs.dir)) && IsSafeUuid(req.uuid) && FreshNames(old(fs.dir), fs.pid, old(fs.counter)) ==>
              (r.Ok? <==> !NameTaken(old(fs.dir), req.uuid, Visible(FinalText(req, req.fallbackTitle))))
  {
    hide SafeRun, SameKept, WellNamed, SummaryStored, FreshNames, NameTaken, Ran, RanCleanly, IsSafeUuid, FinalText;
    var carried, errors := ReadEarlier(fs, found);
    earlier := carried;
    r, calls, raw := WriteRun(fs, req, replies, carried, errors);
    assert r.Ok? && errors != [] ==> r.value.errors[0] == errors[0];
  }

  /**
   * Archive one session. What the run reports as complete is complete on disk,
   * and nothing else is, whichever writes failed; a skipped run rewrites nothing
   * and calls no extractor; the last-good summary, or a newer one, is on the
   * landed folder unless the run reports otherwise, and on a failed write it is
   * where it was. `earlier` is the previous archive's summary the run carried over.
   */
  method RunArchive(fs: SessionsDir, req: Request, replies: seq<Option<Extraction>>)
      returns (r: Result<Run, RunError>, calls: nat, ghost earlier: Option<string>, ghost raw: Option<Extraction>, ghost seen: Option<Name>)
    modifies fs`dir, fs`outcomes, fs`down, fs`counter
    ensures req.turns == 0 ==> r == Err(NoTurns) && fs.dir == old(fs.dir) && calls == 0
    ensures r.Ok? && r.value.untouched ==>
              && calls == 0 && fs.dir == old(fs.dir) && r.value.dir.Visible? && IsArchive(fs.dir, r.value.dir, req.uuid)
              && SameArchive(fs.dir[r.value.dir].snap, req) && (old(fs.Clean()) ==> UnchangedFor(fs.dir[r.value.dir].snap, req))
              && r.value.title == fs.dir[r.value.dir].snap.title && !r.value.replaced && r.value.errors == []
    ensures r.Ok? && !r.value.untouched ==> Ran(fs.dir, req, r.value, calls, earlier, replies, raw)
    ensures r.Err? ==> calls == 0 && SameKept(old(fs.dir), fs.dir, req.uuid) && (earlier.Some? ==> SummaryStored(fs.dir, req.uuid, earlier.value))
    ensures SafeRun(old(fs.dir), fs.dir, req.uuid, req.live)
    ensures CarriedFrom(old(fs.dir), req.uuid, earlier, old(fs.Clean()) && Wrote(req, r))
    ensures seen.Some? ==> seen.value.Visible? && IsArchive(old(fs.dir), seen.value, req.uuid)
    ensures earlier.Some? ==> seen.Some? && old(fs.dir)[seen.value].snap.summary == earlier
    ensures r.Ok? && !r.value.untouched && seen.Some? && old(fs.dir)[seen.value].snap.summary != earlier ==> PreviousUnreadable in r.value.errors
    ensures old(fs.Clean()) ==>
              fs.Clean() && (r.Ok? && !r.value.untouched ==> RanCleanly(old(fs.dir), fs.dir, fs.pid, old(fs.counter), req, r.value, raw))
    ensures old(fs.Clean()) && req.turns > 0 && AllSkip(old(fs.dir), req) && !NoVisibleArchive(old(fs.dir), req.uuid) ==>
              r.Ok? && r.value.untouched
    ensures old(fs.Clean()) && WellNamed(old(fs.dir)) && req.turns > 0 && IsSafeUuid(req.uuid) && FreshNames(old(fs.dir), fs.pid, old(fs.counter)) ==>
              r.Ok? || NameTaken(old(fs.dir), req.uuid, Visible(FinalText(req, req.fallbackTitle)))
  {
    calls, earlier, raw, seen := 0, None, None, None;
    ghost var d := fs.dir;
    ghost var clean := fs.Clean();
    SafeRunReflexive(d, req.uuid, req.live);
    SameKeptReflexive(d, req.uuid);
    hide SafeRun, SameKept, WellNamed, SummaryKept, SummaryStored, SummaryListed, FreshNames, NameTaken, OnlyVisibleArchive, AllSummarised, SameArchive, UnchangedFor, Ran, RanCleanly,
      NoVisibleArchive, CarriedFrom, IsSafeUuid, FinalText, Run.ExtractionComplete;
    if req.turns == 0 {
      return Err(NoTurns), 0, None, None, None;
    }
    var found := FindArchived(fs, req.uuid);
    seen := found;
    if found.Some? {
      var skip := Verdict(fs, req, found.value);
      if skip {
        return Ok(Run(found.value, fs.dir[found.value].snap.title, false, true, true, req.skipExtraction, [], 0)), 0, None, None, found;
      }
    }
    r, calls, earlier, raw := Rearchive(fs, req, replies, found);
    FoundSummary(d, req.uuid, found, earlier, clean);
  }

  lemma SameKeptReflexive(d: Dir, uuid: string)
    ensures SameKept(d, d, uuid)
  {}

  // ---------------------------------------------------------------- what a good reply comes to

  /** The k-th call is the first to get a reply, and within the attempts. */
  predicate RepliedAt(replies: seq<Option<Extraction>>, attempts: nat, k: nat) {
    k < |replies| && k < Max(attempts, 1) && replies[k].Some? && forall i :: 0 <= i < k ==> replies[i].None?
  }

  lemma ReplyHasPlace(replies: seq<Option<Extraction>>, attempts: nat, raw: Option<Extraction>, calls: nat)
    requires Reply(replies, attempts, raw, calls)
    ensures raw.Some? ==> RepliedAt(replies, attempts, calls - 1) && replies[calls - 1] == raw
  {}

  /**
   * With nothing failing and room for both names, a session whose extractor
   * answers well is archived under the reply's title with the reply's summary,
   * finished and without a warning, after as many calls as the answer took.
   */
  method GoodReplyIsStored(fs: SessionsDir, req: Request, replies: seq<Option<Extraction>>, k: nat) returns (r: Result<Run, RunError>, calls: nat)
    requires fs.Clean() && req.turns > 0 && !req.skipExtraction
    requires RepliedAt(replies, req.attempts, k) && HasText(replies[k].value.summary) && Parsed(replies[k].value)
    requires CanLand(fs.dir, fs.pid, fs.counter, req, req.fallbackTitle) && CanLand(fs.dir, fs.pid, fs.counter, req, TitleOf(req, replies[k].value))
    requires forall n: Name :: n.Visible? && IsArchive(fs.dir, n, req.uuid) ==> !UnchangedFor(fs.dir[n].snap, req)
    modifies fs`dir, fs`outcomes, fs`down, fs`counter
    ensures r.Ok? && !r.value.untouched && r.value.errors == [] && r.value.ExtractionComplete()
    ensures StoredBy(fs.dir, r.value.dir, r.value.title, req, None, replies[k])
    ensures OnlyVisibleArchive(fs.dir, req.uuid, r.value.dir)
    ensures calls == k + 1 && r.value.retries == k
  {
    ghost var earlier, raw, seen;
    r, calls, earlier, raw, seen := RunArchive(fs, req, replies);
    assert Reply(replies, req.attempts, replies[k], k + 1);
    hide Agree, SummaryKept, SafeRun, SameKept, CarriedFrom, UnchangedFor, SameArchive, TitleOf, HasText, Parsed, OnlyVisibleArchive;
    OneReply(replies, req.attempts, raw, replies[k], calls, k + 1);
  }

  /** However the file system behaves, a run whose reply has nothing to read in it, or broken entries, or that gets none, is not complete. */
  method BadReplyIsIncomplete(fs: SessionsDir, req: Request, replies: seq<Option<Extraction>>) returns (r: Result<Run, RunError>)
    requires !req.skipExtraction
    requires forall k: nat :: RepliedAt(replies, req.attempts, k) ==> !HasText(replies[k].value.summary) || !Parsed(replies[k].value)
    modifies fs`dir, fs`outcomes, fs`down, fs`counter
    ensures r.Ok? && !r.value.untouched ==>
              && !r.value.ExtractionComplete()
              && (r.value.dir in fs.dir ==> !fs.dir[r.value.dir].snap.skipMarker && (fs.dir[r.value.dir].snap.summary.None? || !fs.dir[r.value.dir].snap.okMarker))
  {
    var calls;
    ghost var earlier, raw, seen;
    r, calls, earlier, raw, seen := RunArchive(fs, req, replies);
    hide SummaryKept, SafeRun, SameKept, CarriedFrom, UnchangedFor, SameArchive, TitleOf, HasText, Parsed, OnlyVisibleArchive, StoredBy;
    if r.Ok? && !r.value.untouched {
      ReplyHasPlace(replies, req.attempts, raw, calls);
    }
  }

  // ---------------------------------------------------------------- repeating a run

  /**
   * Repeating a complete run with the same request rewrites nothing and calls no
   * extractor, exactly unless it is a skip run with a blank memo that carried an
   * earlier summary over: that one never looks unchanged.
   */
  method RepeatRun(fs: SessionsDir, req: Request, replies: seq<Option<Extraction>>, again: seq<Option<Extraction>>)
      returns (first: Result<Run, RunError>, second: Result<Run, RunError>, calls: nat, ghost earlier: Option<string>)
    requires fs.Clean() && WellNamed(fs.dir) && req.turns > 0
    modifies fs`dir, fs`outcomes, fs`down, fs`counter
    ensures first.Ok? && !first.value.untouched && first.value.ExtractionComplete() ==>
              && ((second.Ok? && second.value.untouched) <==> Settles(req, earlier))
              && (second.Ok? && second.value.untouched ==> calls == 0 && second.value.dir == first.value.dir)
    ensures first.Ok? && first.value.untouched && OnlyVisibleArchive(old(fs.dir), req.uuid, first.value.dir) ==>
              second.Ok? && second.value.untouched && calls == 0 && fs.dir == old(fs.dir)
    ensures CarriedFrom(old(fs.dir), req.uuid, earlier, Wrote(req, first))
    ensures first.Ok? && req.skipExtraction ==> first.value.ExtractionComplete()
  {
    ghost var raw, seen;
    first, calls, earlier, raw, seen := RunArchive(fs, req, replies);
    ghost var d := fs.dir;
    ghost var carried;
    second, calls, carried, raw, seen := RunArchive(fs, req, again);
    hide Good, SafeRun, SameKept, WellNamed, SummaryKept, SummaryStored, SummaryListed, FreshNames, NameTaken, CarriedFrom;
    if first.Ok? && !first.value.untouched && first.value.ExtractionComplete() {
      SkipsSpelled(d[first.value.dir].snap, req);
      assert IsArchive(d, first.value.dir, req.uuid);
    }
  }

  /**
   * A skip run with a blank memo over folders that all have a summary lands
   * again, complete, every time: it is never unchanged.
   */
  method BlankMemoNeverSettles(d: Dir, pid: nat, names: NameOrder, entries: EntryOrder, req: Request, replies: seq<Option<Extraction>>)
      returns (first: Result<Run, RunError>, second: Result<Run, RunError>)
    requires WellNamed(d) && FreshNames(d, pid, 0) && IsSafeUuid(req.uuid) && req.turns > 0
    requires req.skipExtraction && !(req.summary.Some? && HasText(req.summary.value)) && !NameTaken(d, req.uuid, Visible(FinalText(req, req.fallbackTitle)))
    requires !NoVisibleArchive(d, req.uuid) && AllSummarised(d, req.uuid)
    ensures first.Ok? && !first.value.untouched && first.value.ExtractionComplete()
    ensures !(second.Ok? && second.value.untouched)
  {
    var fs := new SessionsDir(d, pid, names, entries, []);
    var calls;
    ghost var earlier, carried, raw, seen;
    first, calls, earlier, raw, seen := RunArchive(fs, req, replies);
    ghost var after := fs.dir;
    second, calls, carried, raw, seen := RunArchive(fs, req, replies);
    hide Good, SafeRun, SameKept, WellNamed, SummaryKept, SummaryStored, SummaryListed, FreshNames, NameTaken;
    assert first.Ok? && !first.value.untouched;
    SkipsSpelled(after[first.value.dir].snap, req);
    assert IsArchive(after, first.value.dir, req.uuid);
  }

  /** A transcript that gained a record since it was archived, whatever the record, is archived again: the run is never unchanged. */
  method GrownIsArchivedAgain(fs: SessionsDir, req: Request, replies: seq<Option<Extraction>>, text: string, uuidOf: string -> Option<string>)
      returns (r: Result<Run, RunError>)
    requires req.live == JsonlStat(text, uuidOf)
    requires forall n: Name :: n.Visible? && IsArchive(fs.dir, n, req.uuid) ==> ShorterOrUnreadable(fs.dir[n].snap, text, uuidOf)
    modifies fs`dir, fs`outcomes, fs`down, fs`counter
    ensures !(r.Ok? && r.value.untouched) && SafeRun(old(fs.dir), fs.dir, req.uuid, req.live)
    ensures forall n: Name :: n.Visible? && IsArchive(old(fs.dir), n, req.uuid) ==> CoreKept(fs.dir, req.uuid, old(fs.dir)[n].snap)
  {
    ghost var d := fs.dir;
    var calls;
    ghost var earlier, raw, seen;
    r, calls, earlier, raw, seen := RunArchive(fs, req, replies);
    hide Ran, RanCleanly, SummaryStored, CarriedFrom, SameKept, Kept, CoreKept;
    forall n: Name | n.Visible? && IsArchive(d, n, req.uuid) ensures CoreKept(fs.dir, req.uuid, d[n].snap) && Changed(d[n].snap, req.live) {
      ShorterIsDifferent(d[n].snap, text, uuidOf);
      ListedIsKept(d, n, req.uuid);
    }
  }

  lemma ListedIsKept(d: Dir, n: Name, uuid: string)
    requires IsArchive(d, n, uuid)
    ensures Kept(d, uuid, d[n].snap)
  {
    assert Holds(d[n], d[n].snap);
  }
}
