/**
 The lifecycle of an uploaded contract: upload, ingestion, section analysis, retry. Each service call is a
 transaction on a unit of work; any call it makes may raise, and the `except` blocks can raise themselves.
 */
module ContractLifecycle {
  import opened Prelude

  datatype UploadStatus = Uploaded | Parsed | Extracted | Analyzed | Failed
  datatype RunStatus = Pending | Running | Succeeded | RunFailed

  /** `_UPLOAD_TRANSITIONS` */
  function UploadTransitions(from: UploadStatus): set<UploadStatus> {
    match from
    case Uploaded => {Parsed, Extracted, Failed}
    case Parsed => {Extracted, Failed}
    case Extracted => {Analyzed, Failed}
    case Analyzed => {Failed}
    case Failed => {Uploaded}
  }

  /** `_RUN_TRANSITIONS` */
  function RunTransitions(from: RunStatus): set<RunStatus> {
    match from
    case Pending => {Running}
    case Running => {Succeeded, RunFailed}
    case Succeeded => {}
    case RunFailed => {}
  }

  datatype ParseRun = ParseRun(status: RunStatus, sections: nat)

  /** A document row with its runs, the ids of its sections, and the sections that have analyses. */
  datatype Document = Document(
    hash: string, status: UploadStatus, pageCount: Option<int>,
    parseRuns: seq<ParseRun>, sections: seq<Uuid>, analysisRuns: seq<RunStatus>, analyses: seq<Uuid>)

  datatype Message = IngestionRequested(id: Uuid) | AnalysisRequested(id: Uuid)

  /** What is committed, and what has been published. */
  datatype Store = Store(docs: map<Uuid, Document>, outbox: seq<Message>)

  /** The calls that may raise. */
  datatype Fault =
    | SaveRun | Foreign | UpdateRun | SaveItem(k: nat) | SaveReference(k: nat) | PageCount
    | UpdateStatus | Commit | Publish
    | ExceptUpdateRun | ExceptUpdateStatus | ExceptCommit

  datatype Error =
    | NotFound | DuplicateHash | InvalidTransition | NotParsed | NoSections | NothingAnalyzed | Raised(fault: Fault)

  datatype Outcome = Finished | Skipped | Error(e: Error)

  /** What the parser returned: ids for the sections, and the page count if it reported one. */
  datatype ParseResult = ParseResult(sections: seq<Uuid>, pageCount: Option<int>)

  datatype Request =
    | Upload(id: Uuid, hash: string, faults: set<Fault>)
    | Ingest(id: Uuid, result: ParseResult, publisher: bool, faults: set<Fault>)
    | Analyze(id: Uuid, outputs: seq<Uuid>, faults: set<Fault>)   // the section ids the LLM answered for
    | Retry(id: Uuid, faults: set<Fault>)

  predicate ExceptRaises(faults: set<Fault>) {
    ExceptUpdateRun in faults || ExceptUpdateStatus in faults || ExceptCommit in faults
  }

  predicate AfterParsingRaises(r: ParseResult, faults: set<Fault>) {
    || UpdateRun in faults || UpdateStatus in faults || Commit in faults
    || (r.pageCount.Some? && PageCount in faults)
    || exists k :: 0 <= k < |r.sections| && SaveItem(k) in faults
  }

  function ParsedDocument(d: Document, r: ParseResult): Document {
    d.(status := Parsed, parseRuns := d.parseRuns + [ParseRun(Succeeded, |r.sections|)],
       sections := d.sections + r.sections,
       pageCount := if r.pageCount.Some? then r.pageCount else d.pageCount)
  }

  function ParseFailed(d: Document): Document {
    d.(status := Failed, parseRuns := d.parseRuns + [ParseRun(RunFailed, 0)])
  }

  /** The analyses saved before the first call that raises, in the order of the LLM's answers. */
  function Saved(sections: seq<Uuid>, outputs: seq<Uuid>, k: nat, faults: set<Fault>): seq<Uuid>
    decreases |outputs| - k
  {
    if k >= |outputs| then []
    else if outputs[k] !in sections then Saved(sections, outputs, k + 1, faults)
    else if SaveItem(k) in faults then []
    else if SaveReference(k) in faults then [outputs[k]]
    else [outputs[k]] + Saved(sections, outputs, k + 1, faults)
  }

  predicate SavingRaises(sections: seq<Uuid>, outputs: seq<Uuid>, faults: set<Fault>) {
    exists k :: 0 <= k < |outputs| && outputs[k] in sections && (SaveItem(k) in faults || SaveReference(k) in faults)
  }

  /** `analyze` raises while its run is still RUNNING. */
  predicate AnalysisRaisesEarly(d: Document, outputs: seq<Uuid>, faults: set<Fault>) {
    || Foreign in faults
    || SavingRaises(d.sections, outputs, faults)
    || forall k :: 0 <= k < |outputs| ==> outputs[k] !in d.sections
  }

  function AnalysisFailed(d: Document, outputs: seq<Uuid>, faults: set<Fault>): Document {
    d.(status := Failed, analysisRuns := d.analysisRuns + [RunFailed],
       analyses := d.analyses + if Foreign in faults then [] else Saved(d.sections, outputs, 0, faults))
  }

  /** What is committed and published after each service call. */
  function Step(s: Store, r: Request): Store {
    match r
    case Upload(id, hash, faults) =>
      if id in s.docs || (exists x :: x in s.docs && s.docs[x].hash == hash) || SaveRun in faults || Commit in faults
      then s
      else Sent(s.(docs := s.docs[id := Document(hash, Uploaded, None, [], [], [], [])]),
                IngestionRequested(id), faults)
    case Ingest(id, result, publisher, faults) =>
      if id !in s.docs || s.docs[id].status != Uploaded || SaveRun in faults then s
      else if Foreign in faults then
        if ExceptRaises(faults) then s else s.(docs := s.docs[id := ParseFailed(s.docs[id])])
      else if AfterParsingRaises(result, faults) then s
      else
        var s' := s.(docs := s.docs[id := ParsedDocument(s.docs[id], result)]);
        if publisher then Sent(s', AnalysisRequested(id), faults) else s'
    case Analyze(id, outputs, faults) =>
      if id !in s.docs || s.docs[id].status != Parsed || Succeeded in s.docs[id].analysisRuns
         || s.docs[id].sections == [] || SaveRun in faults then s
      else if AnalysisRaisesEarly(s.docs[id], outputs, faults) && !ExceptRaises(faults) then
        s.(docs := s.docs[id := AnalysisFailed(s.docs[id], outputs, faults)])
      else s
    case Retry(id, faults) =>
      if id !in s.docs || s.docs[id].status != Failed || UpdateStatus in faults || Commit in faults then s
      else Sent(s.(docs := s.docs[id := s.docs[id].(status := Uploaded)]), IngestionRequested(id), faults)
  }

  /** Publishing comes after the commit and may itself raise. */
  function Sent(s: Store, m: Message, faults: set<Fault>): Store {
    if Publish in faults then s else s.(outbox := s.outbox + [m])
  }

  function Run(s: Store, rs: seq<Request>): Store
    decreases |rs|
  {
    if rs == [] then s else Run(Step(s, rs[0]), rs[1..])
  }

  // ---------- The entities ----------

  /** `SourceDocument`: every `mark_*` checks the table, and raises (`ok` is false) without touching the status. */
  class SourceDocument {
    var status: UploadStatus
    var pageCount: Option<int>

    constructor (d: Document)
      ensures status == d.status && pageCount == d.pageCount
    {
      status, pageCount := d.status, d.pageCount;
    }

    /** `_validate_transition`, then the assignment. */
    method Move(target: UploadStatus) returns (ok: bool)
      modifies this`status
      ensures ok <==> target in UploadTransitions(old(status))
      ensures status == if ok then target else old(status)
    {
      if target !in UploadTransitions(status) {
        return false;
      }
      status := target;
      return true;
    }

    method RecordPageCount(count: int)
      modifies this`pageCount
      ensures pageCount == Some(count)
    {
      pageCount := Some(count);
    }
  }

  /** `SourceParseRun` and `SourceSectionAnalysisRun`, which share their transition table. */
  class SourceRun {
    var status: RunStatus

    /** PENDING, and RUNNING at once. */
    constructor Start()
      ensures status == Running
    {
      status := Pending;
      new;
      var ok := Move(Running);
    }

    method Move(target: RunStatus) returns (ok: bool)
      modifies this
      ensures ok <==> target in RunTransitions(old(status))
      ensures status == if ok then target else old(status)
    {
      if target !in RunTransitions(status) {
        return false;
      }
      status := target;
      return true;
    }
  }

  // ---------- The services ----------

  /** What becomes visible outside, in order: commits with the status they give a document, and messages. */
  datatype Effect = Committed(id: Uuid, status: UploadStatus) | Published(message: Message)

  function Messages(trace: seq<Effect>): seq<Message> {
    if trace == [] then []
    else
      var last := trace[|trace| - 1];
      Messages(trace[..|trace| - 1]) + if last.Published? then [last.message] else []
  }

  /** The committed status a message announces. */
  function Announced(m: Message): UploadStatus {
    match m case IngestionRequested(_) => Uploaded case AnalysisRequested(_) => Parsed
  }

  /** Every message comes right after the commit it announces. */
  ghost predicate PublishedAfterCommit(trace: seq<Effect>) {
    forall i :: 0 <= i < |trace| && trace[i].Published? ==>
      i > 0 && trace[i - 1] == Committed(trace[i].message.id, Announced(trace[i].message))
  }

  lemma OneMoreEffect(trace: seq<Effect>, e: Effect)
    requires PublishedAfterCommit(trace)
    requires e.Published? ==>
      trace != [] && trace[|trace| - 1] == Committed(e.message.id, Announced(e.message))
    ensures PublishedAfterCommit(trace + [e])
    ensures Messages(trace + [e]) == Messages(trace) + if e.Published? then [e.message] else []
  {
    assert (trace + [e])[..|trace|] == trace;
  }

  /** The services over their unit of work: `Save` is a call's commit, the one place `docs` changes. */
  class ContractServices {
    var docs: map<Uuid, Document>
    var outbox: seq<Message>
    ghost var trace: seq<Effect>

    /** The outbox is what the trace published, and nothing was published before its commit. */
    ghost predicate Valid()
      reads this
    {
      outbox == Messages(trace) && PublishedAfterCommit(trace)
    }

    constructor ()
      ensures Valid() && View() == Store(map[], [])
    {
      docs, outbox, trace := map[], [], [];
    }

    method Save(id: Uuid, d: Document)
      requires Valid()
      modifies this`docs, this`trace
      ensures Valid() && docs == old(docs)[id := d] && trace == old(trace) + [Committed(id, d.status)]
    {
      OneMoreEffect(trace, Committed(id, d.status));
      docs := docs[id := d];
      trace := trace + [Committed(id, d.status)];
    }

    function View(): Store
      reads this
    {
      Store(docs, outbox)
    }

    /** Publishing: only with the announced commit right behind it. */
    method Send(m: Message, faults: set<Fault>) returns (outcome: Outcome)
      requires Valid() && trace != [] && trace[|trace| - 1] == Committed(m.id, Announced(m))
      modifies this`outbox, this`trace
      ensures Valid() && trace == old(trace) + if Publish in faults then [] else [Published(m)]
      ensures View() == Sent(old(View()), m, faults)
      ensures outcome == if Publish in faults then Error(Raised(Publish)) else Finished
    {
      if Publish in faults {
        return Error(Raised(Publish));
      }
      OneMoreEffect(trace, Published(m));
      outbox := outbox + [m];
      trace := trace + [Published(m)];
      return Finished;
    }

    method UploadSourceDocument(id: Uuid, hash: string, faults: set<Fault>) returns (outcome: Outcome)
      requires Valid()
      modifies this
      ensures Valid() && old(trace) <= trace
      ensures View() == Step(old(View()), Upload(id, hash, faults))
      ensures outcome == Error(DuplicateHash) <==> exists x :: x in old(docs) && old(docs)[x].hash == hash
      ensures outcome.Finished? <==>
        && id !in old(docs) && (forall x :: x in old(docs) ==> old(docs)[x].hash != hash)
        && SaveRun !in faults && Commit !in faults && Publish !in faults
      ensures outcome.Finished? ==>
        trace == old(trace) + [Committed(id, Uploaded), Published(IngestionRequested(id))]
      ensures outcome == Error(Raised(Publish)) ==> trace == old(trace) + [Committed(id, Uploaded)]
      ensures outcome.Error? && outcome != Error(Raised(Publish)) ==> trace == old(trace) && View() == old(View())
    {
      if exists x :: x in docs && docs[x].hash == hash {
        return Error(DuplicateHash);
      }
      if id in docs || SaveRun in faults {
        return Error(Raised(SaveRun));
      }
      if Commit in faults {
        return Error(Raised(Commit));
      }
      Save(id, Document(hash, Uploaded, None, [], [], [], []));
      outcome := Send(IngestionRequested(id), faults);
    }

    method RetryDocument(id: Uuid, faults: set<Fault>) returns (outcome: Outcome)
      requires Valid()
      modifies this
      ensures Valid() && old(trace) <= trace
      ensures View() == Step(old(View()), Retry(id, faults))
      ensures outcome == Error(InvalidTransition) <==> id in old(docs) && old(docs)[id].status != Failed
      ensures outcome == Error(NotFound) <==> id !in old(docs)
      ensures outcome.Finished? <==>
        && id in old(docs) && old(docs)[id].status == Failed
        && UpdateStatus !in faults && Commit !in faults && Publish !in faults
      ensures outcome.Finished? ==>
        && docs == old(docs)[id := old(docs)[id].(status := Uploaded)]
        && trace == old(trace) + [Committed(id, Uploaded), Published(IngestionRequested(id))]
      ensures outcome == Error(Raised(Publish)) ==> trace == old(trace) + [Committed(id, Uploaded)]
      ensures outcome.Error? && outcome != Error(Raised(Publish)) ==> trace == old(trace) && View() == old(View())
    {
      if id !in docs {
        return Error(NotFound);
      }
      var document := new SourceDocument(docs[id]);
      var ok := document.Move(Uploaded);
      if !ok {
        return Error(InvalidTransition);
      }
      if UpdateStatus in faults {
        return Error(Raised(UpdateStatus));
      }
      if Commit in faults {
        return Error(Raised(Commit));
      }
      Save(id, docs[id].(status := document.status));
      outcome := Send(IngestionRequested(id), faults);
    }

    /** The loop over the parsed sections; the first save that raises ends it. */
    method SaveSections(before: seq<Uuid>, parsed: seq<Uuid>, faults: set<Fault>)
      returns (sections: seq<Uuid>, raised: Option<Fault>)
      ensures raised.None? <==> forall j :: 0 <= j < |parsed| ==> SaveItem(j) !in faults
      ensures raised.None? ==> sections == before + parsed
    {
      sections, raised := before, None;
      for k := 0 to |parsed|
        invariant raised.None? && sections == before + parsed[..k]
        invariant forall j :: 0 <= j < k ==> SaveItem(j) !in faults
      {
        if SaveItem(k) in faults {
          raised := Some(SaveItem(k));
          return;
        }
        sections := sections + [parsed[k]];
      }
      assert parsed[..|parsed|] == parsed;
    }

    method IngestDocument(id: Uuid, result: ParseResult, publisher: bool, faults: set<Fault>) returns (outcome: Outcome)
      requires Valid()
      modifies this
      ensures Valid() && old(trace) <= trace
      ensures View() == Step(old(View()), Ingest(id, result, publisher, faults))
      ensures outcome == Error(NotFound) <==> id !in old(docs)
      ensures outcome == Skipped <==> id in old(docs) && old(docs)[id].status != Uploaded
      ensures outcome.Finished? ==> docs[id].status == Parsed
      ensures outcome.Finished? ==>
        trace == old(trace) + [Committed(id, Parsed)] + if publisher then [Published(AnalysisRequested(id))] else []
      ensures outcome == Error(InvalidTransition) <==>
        id in old(docs) && old(docs)[id].status == Uploaded && SaveRun !in faults
        && Foreign !in faults && AfterParsingRaises(result, faults)
    {
      hide Messages, PublishedAfterCommit;
      if id !in docs {
        return Error(NotFound);
      }
      var row := docs[id];
      var document := new SourceDocument(row);
      if document.status != Uploaded {
        return Skipped;
      }
      var run := new SourceRun.Start();
      if SaveRun in faults {
        return Error(Raised(SaveRun));
      }
      var sections := row.sections;
      var raised: Option<Fault> := None;
      var ok;

      // try
      if Foreign in faults {
        raised := Some(Foreign);
      } else {
        ok := run.Move(Succeeded);
        if UpdateRun in faults {
          raised := Some(UpdateRun);
        }
      }
      if raised.None? {
        sections, raised := SaveSections(row.sections, result.sections, faults);
      }
      if raised.None? && result.pageCount.Some? {
        document.RecordPageCount(result.pageCount.value);
        raised := if PageCount in faults then Some(PageCount) else None;
      }
      if raised.None? {
        ok := document.Move(Parsed);
        raised := if UpdateStatus in faults then Some(UpdateStatus)
                  else if Commit in faults then Some(Commit) else None;
      }

      if raised.Some? {
        // except
        ok := run.Move(RunFailed);
        if !ok {
          return Error(InvalidTransition);      // masks the original exception; the session rolls back
        }
        if ExceptUpdateRun in faults {
          return Error(Raised(ExceptUpdateRun));
        }
        ok := document.Move(Failed);
        if ExceptUpdateStatus in faults {
          return Error(Raised(ExceptUpdateStatus));
        }
        if ExceptCommit in faults {
          return Error(Raised(ExceptCommit));
        }
        Save(id, row.(status := document.status, parseRuns := row.parseRuns + [ParseRun(run.status, 0)]));
        return Error(Raised(raised.value));
      }

      Save(id, row.(status := document.status, pageCount := document.pageCount, sections := sections,
                    parseRuns := row.parseRuns + [ParseRun(run.status, |result.sections|)]));
      if publisher {
        outcome := Send(AnalysisRequested(id), faults);
      } else {
        outcome := Finished;
      }
    }

    method AnalyzeDocument(id: Uuid, outputs: seq<Uuid>, faults: set<Fault>) returns (outcome: Outcome)
      requires Valid()
      modifies this
      ensures Valid() && old(trace) <= trace
      ensures View() == Step(old(View()), Analyze(id, outputs, faults))
      ensures !outcome.Finished?
      ensures outcome == Error(InvalidTransition) <==>
        id in old(docs) && old(docs)[id].status == Parsed && Succeeded !in old(docs)[id].analysisRuns
        && old(docs)[id].sections != [] && SaveRun !in faults && !AnalysisRaisesEarly(old(docs)[id], outputs, faults)
    {
      hide Messages, PublishedAfterCommit;
      if id !in docs {
        return Error(NotFound);
      }
      var row := docs[id];
      var document := new SourceDocument(row);
      if document.status != Parsed {
        return Error(NotParsed);
      }
      if Succeeded in row.analysisRuns {
        return Skipped;
      }
      if row.sections == [] {
        return Error(NoSections);
      }
      var run := new SourceRun.Start();
      if SaveRun in faults {
        return Error(Raised(SaveRun));
      }
      var error: Option<Error> := if Foreign in faults then Some(Raised(Foreign)) else None;
      var saved: seq<Uuid> := [];

      // try
      var k := 0;
      while error.None? && k < |outputs|
        invariant k <= |outputs|
        invariant Foreign in faults ==> error.Some? && saved == []
        invariant error.Some? ==> error.value.Raised?
        invariant Foreign !in faults && error.None? ==>
          saved + Saved(row.sections, outputs, k, faults) == Saved(row.sections, outputs, 0, faults)
        invariant error.None? ==> forall j :: 0 <= j < k && outputs[j] in row.sections ==>
          SaveItem(j) !in faults && SaveReference(j) !in faults
        invariant error.None? ==> (saved == [] <==> forall j :: 0 <= j < k ==> outputs[j] !in row.sections)
        invariant Foreign !in faults && error.Some? ==> SavingRaises(row.sections, outputs, faults)
        invariant Foreign !in faults && error.Some? ==> saved == Saved(row.sections, outputs, 0, faults)
        decreases |outputs| - k, if error.None? then 1 else 0
      {
        if outputs[k] !in row.sections {
          k := k + 1;
        } else if SaveItem(k) in faults {
          error := Some(Raised(SaveItem(k)));
        } else {
          saved := saved + [outputs[k]];
          if SaveReference(k) in faults {
            error := Some(Raised(SaveReference(k)));
          } else {
            k := k + 1;
          }
        }
      }
      if error.None? && saved == [] {
        error := Some(NothingAnalyzed);
      }
      var ok;
      if error.None? {
        ok := run.Move(Succeeded);
        if UpdateRun in faults {
          error := Some(Raised(UpdateRun));
        } else {
          ok := document.Move(Analyzed);
          error := if ok then None else Some(InvalidTransition);
        }
      }

      // except
      assert error.Some?;
      ok := run.Move(RunFailed);
      if !ok {
        return Error(InvalidTransition);
      }
      if ExceptUpdateRun in faults {
        return Error(Raised(ExceptUpdateRun));
      }
      ok := document.Move(Failed);
      if ExceptUpdateStatus in faults {
        return Error(Raised(ExceptUpdateStatus));
      }
      if ExceptCommit in faults {
        return Error(Raised(ExceptCommit));
      }
      Save(id, row.(status := document.status, analysisRuns := row.analysisRuns + [run.status],
                    analyses := row.analyses + saved));
      return Error(error.value);
    }
  }

  // ---------- The store invariant ----------

  function SectionsOf(runs: seq<ParseRun>): nat {
    if runs == [] then 0
    else SectionsOf(runs[..|runs| - 1]) + if runs[|runs| - 1].status == Succeeded then runs[|runs| - 1].sections else 0
  }

  ghost predicate HasParse(d: Document) {
    exists i :: 0 <= i < |d.parseRuns| && d.parseRuns[i].status == Succeeded
  }

  ghost predicate DocumentInv(d: Document) {
    && (forall i :: 0 <= i < |d.parseRuns| ==> d.parseRuns[i].status in {Succeeded, RunFailed})
    && (forall i :: 0 <= i < |d.analysisRuns| ==> d.analysisRuns[i] == RunFailed)
    && (d.status == Parsed ==> HasParse(d))
    && |d.sections| == SectionsOf(d.parseRuns)
    && d.status != Analyzed && d.status != Extracted
  }

  ghost predicate Inv(s: Store) {
    && (forall id :: id in s.docs ==> DocumentInv(s.docs[id]))
    && (forall a, b :: a in s.docs && b in s.docs && s.docs[a].hash == s.docs[b].hash ==> a == b)
    && (forall i :: 0 <= i < |s.outbox| ==> s.outbox[i].id in s.docs)
    && (forall i :: 0 <= i < |s.outbox| && s.outbox[i].AnalysisRequested? ==> HasParse(s.docs[s.outbox[i].id]))
  }

  lemma RunAdded(d: Document, d': Document, run: ParseRun)
    requires d'.parseRuns == d.parseRuns + [run]
    ensures SectionsOf(d'.parseRuns) == SectionsOf(d.parseRuns) + if run.status == Succeeded then run.sections else 0
    ensures HasParse(d') <==> HasParse(d) || run.status == Succeeded
  {
    assert d'.parseRuns[..|d'.parseRuns| - 1] == d.parseRuns;
    assert d'.parseRuns[|d.parseRuns|] == run;
    if HasParse(d) {
      var i :| 0 <= i < |d.parseRuns| && d.parseRuns[i].status == Succeeded;
      assert d'.parseRuns[i].status == Succeeded;
    }
  }

  lemma ParsedInv(d: Document, r: ParseResult)
    requires DocumentInv(d)
    ensures DocumentInv(ParsedDocument(d, r)) && HasParse(ParsedDocument(d, r))
    ensures DocumentInv(ParseFailed(d)) && (HasParse(d) ==> HasParse(ParseFailed(d)))
  {
    RunAdded(d, ParsedDocument(d, r), ParseRun(Succeeded, |r.sections|));
    RunAdded(d, ParseFailed(d), ParseRun(RunFailed, 0));
  }

  lemma UpdateKeepsInv(s: Store, id: Uuid, d: Document)
    requires Inv(s) && id in s.docs && DocumentInv(d) && d.hash == s.docs[id].hash
    requires HasParse(s.docs[id]) ==> HasParse(d)
    ensures Inv(s.(docs := s.docs[id := d]))
  {
  }

  lemma SentKeepsInv(s: Store, m: Message, faults: set<Fault>)
    requires Inv(s) && m.id in s.docs && (m.AnalysisRequested? ==> HasParse(s.docs[m.id]))
    ensures Inv(Sent(s, m, faults))
  {
  }

  lemma IngestKeepsInv(s: Store, r: Request)
    requires Inv(s) && r.Ingest? && r.id in s.docs
    ensures Inv(Step(s, r))
  {
    hide ParsedDocument, ParseFailed, DocumentInv, HasParse, Sent;
    var d := s.docs[r.id];
    ParsedInv(d, r.result);
    SameHash(d, r.result);
    UpdateKeepsInv(s, r.id, ParsedDocument(d, r.result));
    SentKeepsInv(s.(docs := s.docs[r.id := ParsedDocument(d, r.result)]), AnalysisRequested(r.id), r.faults);
    UpdateKeepsInv(s, r.id, ParseFailed(d));
  }

  lemma AnalyzeKeepsInv(s: Store, r: Request)
    requires Inv(s) && r.Analyze? && r.id in s.docs
    ensures Inv(Step(s, r))
  {
    hide Saved;
    var d := s.docs[r.id];
    assert HasParse(d) ==> HasParse(AnalysisFailed(d, r.outputs, r.faults));
    UpdateKeepsInv(s, r.id, AnalysisFailed(d, r.outputs, r.faults));
  }

  lemma RetryKeepsInv(s: Store, r: Request)
    requires Inv(s) && r.Retry? && r.id in s.docs
    ensures Inv(Step(s, r))
  {
    hide Sent;
    var d := s.docs[r.id];
    var d' := d.(status := Uploaded);
    assert HasParse(d) ==> HasParse(d');
    UpdateKeepsInv(s, r.id, d');
    SentKeepsInv(s.(docs := s.docs[r.id := d']), IngestionRequested(r.id), r.faults);
  }

  lemma InvKept(s: Store, r: Request)
    requires Inv(s)
    ensures Inv(Step(s, r))
  {
    hide Inv;
    if r.Upload? {
      UploadKeepsInv(s, r);
    } else if r.id in s.docs {
      match r
      case Ingest(_, _, _, _) => IngestKeepsInv(s, r);
      case Analyze(_, _, _) => AnalyzeKeepsInv(s, r);
      case Retry(_, _) => RetryKeepsInv(s, r);
    }
  }

  lemma SameHash(d: Document, r: ParseResult)
    ensures ParsedDocument(d, r).hash == d.hash && ParseFailed(d).hash == d.hash
  {
  }

  lemma UploadKeepsInv(s: Store, r: Request)
    requires Inv(s) && r.Upload?
    ensures Inv(Step(s, r))
  {
    if Step(s, r) != s {
      var d := Document(r.hash, Uploaded, None, [], [], [], []);
      var s' := s.(docs := s.docs[r.id := d]);
      assert DocumentInv(d);
      SentKeepsInv(s', IngestionRequested(r.id), r.faults);
    }
  }

  lemma {:induction false} InvAlways(s: Store, rs: seq<Request>)
    requires Inv(s)
    ensures Inv(Run(s, rs))
    decreases |rs|
  {
    hide Step, Inv;
    if rs != [] {
      InvKept(s, rs[0]);
      InvAlways(Step(s, rs[0]), rs[1..]);
    }
  }

  /**
   Over all runs, with failures anywhere: no committed run is left PENDING or RUNNING, PARSED implies a
   SUCCEEDED parse, sections are exactly those of the SUCCEEDED parses, hashes are unique, and no analysis
   run ever SUCCEEDED and no document is ANALYZED.
   */
  lemma StoreInvariant(rs: seq<Request>)
    ensures Inv(Run(Store(map[], []), rs))
  {
    InvAlways(Store(map[], []), rs);
  }

  // ---------- Reachability as coded ----------

  /** Of the table's moves a committed status takes four, and nothing is removed. */
  lemma StatusMovesAlongTheTable(s: Store, r: Request, id: Uuid)
    requires id in s.docs
    ensures id in Step(s, r).docs
    ensures var was, now := s.docs[id].status, Step(s, r).docs[id].status;
      && (now == was || now in UploadTransitions(was))
      && (now == was || (was, now) in {(Uploaded, Parsed), (Uploaded, Failed), (Parsed, Failed), (Failed, Uploaded)})
  {
    hide Saved;
  }

  /**
   `analyze` on a PARSED document with sections leaves the store as it was exactly when the LLM and every save
   succeeded and the LLM answered for at least one real section: `mark_analyzed` is not allowed from PARSED,
   and the `except` block then fails too because the run already SUCCEEDED. Otherwise the document FAILED.
   */
  lemma SuccessfulAnalysisRollsBack(s: Store, id: Uuid, outputs: seq<Uuid>, faults: set<Fault>)
    requires Inv(s) && id in s.docs && s.docs[id].status == Parsed && s.docs[id].sections != []
    requires SaveRun !in faults && !ExceptRaises(faults)
    ensures var s' := Step(s, Analyze(id, outputs, faults)); var sections := s.docs[id].sections;
      && (s' == s <==>
          && (exists k :: 0 <= k < |outputs| && outputs[k] in sections)
          && Foreign !in faults && !SavingRaises(sections, outputs, faults))
      && (s' != s ==> s'.docs[id].status == Failed)
  {
    hide Saved, SavingRaises;
    assert !(Succeeded in s.docs[id].analysisRuns) by {
      assert DocumentInv(s.docs[id]);
    }
  }

  /** The analysis of a document commits anything at all only as a failure, whatever raises. */
  lemma AnalyzeCommitsOnlyFailures(s: Store, r: Request)
    requires r.Analyze? && Step(s, r) != s
    ensures r.id in s.docs && Step(s, r).docs[r.id].status == Failed
    ensures Step(s, r).docs[r.id].analysisRuns == s.docs[r.id].analysisRuns + [RunFailed]
    ensures Step(s, r).outbox == s.outbox
  {
    hide Saved;
  }

  /** The one status `mark_analyzed` accepts is one no service call ever commits. */
  lemma AnalyzedOnlyFromExtracted(from: UploadStatus, rs: seq<Request>, id: Uuid)
    requires Analyzed in UploadTransitions(from) && id in Run(Store(map[], []), rs).docs
    ensures Run(Store(map[], []), rs).docs[id].status != from && Run(Store(map[], []), rs).docs[id].status != Analyzed
  {
    StoreInvariant(rs);
  }

  /** A parse that fails after its run SUCCEEDED leaves no trace; one that fails before marks the document FAILED. */
  lemma IngestFailures(s: Store, id: Uuid, result: ParseResult, publisher: bool, faults: set<Fault>)
    requires id in s.docs && s.docs[id].status == Uploaded && SaveRun !in faults && !ExceptRaises(faults)
    ensures var s' := Step(s, Ingest(id, result, publisher, faults));
      && (s' == s <==> Foreign !in faults && AfterParsingRaises(result, faults))
      && (s'.docs[id].status == Failed <==> Foreign in faults)
      && (s'.docs[id].status == Parsed <==> Foreign !in faults && !AfterParsingRaises(result, faults))
  {
  }
}
