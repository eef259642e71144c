/**
 What a run of the contract services adds up to: each document holds what its uploads, ingestions and analyses
 gave it, and as many messages go out as documents reached the status they announce.
 */
module ContractRuns {
  import opened Prelude
  import opened ContractLifecycle

  /** The request commits this status for the document, which had another one or was not there. */
  predicate Enters(s: Store, r: Request, id: Uuid, status: UploadStatus) {
    && id in Step(s, r).docs && Step(s, r).docs[id].status == status
    && (id in s.docs ==> s.docs[id].status != status)
  }

  /** The LLM raises, or answers for no real section, or an answer for one cannot be saved with its references. */
  predicate NotAnalyzed(sections: seq<Uuid>, outputs: seq<Uuid>, faults: set<Fault>) {
    || Foreign in faults
    || (forall k :: 0 <= k < |outputs| ==> outputs[k] !in sections)
    || (exists k :: 0 <= k < |outputs| && outputs[k] in sections
                    && (SaveItem(k) in faults || SaveReference(k) in faults))
  }

  /** Which requests bring a document to which status; none brings one to EXTRACTED or ANALYZED. */
  lemma EntersIff(s: Store, r: Request, id: Uuid)
    ensures Enters(s, r, id, Uploaded) <==>
      || (r.Upload? && r.id == id && id !in s.docs && (forall x :: x in s.docs ==> s.docs[x].hash != r.hash)
          && SaveRun !in r.faults && Commit !in r.faults)
      || (r.Retry? && r.id == id && id in s.docs && s.docs[id].status == Failed
          && UpdateStatus !in r.faults && Commit !in r.faults)
    ensures Enters(s, r, id, Parsed) <==>
      && r.Ingest? && r.id == id && id in s.docs && s.docs[id].status == Uploaded
      && {SaveRun, Foreign, UpdateRun, UpdateStatus, Commit} !! r.faults
      && (r.result.pageCount.Some? ==> PageCount !in r.faults)
      && forall k :: 0 <= k < |r.result.sections| ==> SaveItem(k) !in r.faults
    ensures Enters(s, r, id, Failed) <==>
      && r.id == id && id in s.docs && {SaveRun, ExceptUpdateRun, ExceptUpdateStatus, ExceptCommit} !! r.faults
      && ((r.Ingest? && s.docs[id].status == Uploaded && Foreign in r.faults)
          || (r.Analyze? && s.docs[id].status == Parsed && Succeeded !in s.docs[id].analysisRuns
              && s.docs[id].sections != [] && NotAnalyzed(s.docs[id].sections, r.outputs, r.faults)))
    ensures !Enters(s, r, id, Extracted) && !Enters(s, r, id, Analyzed)
  {
    hide Saved;
  }

  // ---------- What a document holds ----------

  predicate Ingests(s: Store, r: Request, id: Uuid) {
    r.Ingest? && Enters(s, r, id, Parsed)
  }

  function ParsedBy(s: Store, r: Request, id: Uuid): seq<Uuid> {
    if Ingests(s, r, id) then r.result.sections else []
  }

  function PagesAfter(s: Store, r: Request, id: Uuid, pages: Option<int>): Option<int> {
    if Ingests(s, r, id) && r.result.pageCount.Some? then r.result.pageCount else pages
  }

  /** One request, one document: what is added to it, and what an upload makes. */
  lemma DocumentChange(s: Store, s': Store, r: Request, id: Uuid)
    requires s' == Step(s, r)
    ensures id in s.docs ==> id in s'.docs && s'.docs[id].hash == s.docs[id].hash
    ensures id in s.docs ==> s'.docs[id].sections == s.docs[id].sections + ParsedBy(s, r, id)
    ensures id in s.docs ==> s'.docs[id].pageCount == PagesAfter(s, r, id, s.docs[id].pageCount)
    ensures id in s.docs && Ingests(s, r, id) ==>
      s'.docs[id].parseRuns == s.docs[id].parseRuns + [ParseRun(Succeeded, |r.result.sections|)]
    ensures id in s.docs && r.Ingest? && Enters(s, r, id, Failed) ==>
      s'.docs[id].parseRuns == s.docs[id].parseRuns + [ParseRun(RunFailed, 0)]
    ensures id in s.docs && r.Analyze? && Enters(s, r, id, Failed) ==>
      && s'.docs[id].analysisRuns == s.docs[id].analysisRuns + [RunFailed]
      && s'.docs[id].analyses == s.docs[id].analyses +
           (if Foreign in r.faults then [] else Saved(s.docs[id].sections, r.outputs, 0, r.faults))
    ensures id in s.docs && !Enters(s, r, id, Parsed) && !Enters(s, r, id, Failed) ==>
      s'.docs[id] == s.docs[id].(status := s'.docs[id].status)
    ensures id !in s.docs && id in s'.docs ==>
      r.Upload? && r.id == id && s'.docs[id] == Document(r.hash, Uploaded, None, [], [], [], [])
  {
    hide Saved, SavingRaises, AfterParsingRaises, ExceptRaises;
    if id in s.docs {
      var d := s.docs[id];
      assert d.sections + [] == d.sections;
    }
  }

  function SectionsParsed(s: Store, rs: seq<Request>, id: Uuid): seq<Uuid>
    decreases |rs|
  {
    if rs == [] then [] else ParsedBy(s, rs[0], id) + SectionsParsed(Step(s, rs[0]), rs[1..], id)
  }

  function PagesReported(s: Store, rs: seq<Request>, id: Uuid, pages: Option<int>): Option<int>
    decreases |rs|
  {
    if rs == [] then pages else PagesReported(Step(s, rs[0]), rs[1..], id, PagesAfter(s, rs[0], id, pages))
  }

  /**
   Over any run: a document's sections are those of its successful ingestions, one after the other, its page
   count the last one reported, and its hash the one it came with.
   */
  lemma {:induction false} ContentsKept(s: Store, rs: seq<Request>, id: Uuid)
    requires id in s.docs
    ensures id in Run(s, rs).docs && Run(s, rs).docs[id].hash == s.docs[id].hash
    ensures Run(s, rs).docs[id].sections == s.docs[id].sections + SectionsParsed(s, rs, id)
    ensures Run(s, rs).docs[id].pageCount == PagesReported(s, rs, id, s.docs[id].pageCount)
    decreases |rs|
  {
    hide Step, ParsedBy, PagesAfter;
    if rs != [] {
      DocumentChange(s, Step(s, rs[0]), rs[0], id);
      ContentsKept(Step(s, rs[0]), rs[1..], id);
    }
  }

  /** The same for a document that the run itself uploads. */
  lemma {:induction false} DocumentContents(s: Store, rs: seq<Request>, id: Uuid)
    requires id !in s.docs && id in Run(s, rs).docs
    ensures exists k :: 0 <= k < |rs| && rs[k].Upload? && rs[k].id == id && Run(s, rs).docs[id].hash == rs[k].hash
    ensures Run(s, rs).docs[id].sections == SectionsParsed(s, rs, id)
    ensures Run(s, rs).docs[id].pageCount == PagesReported(s, rs, id, None)
    decreases |rs|
  {
    hide Step, ParsedBy, PagesAfter;
    assert rs != [];
    var s' := Step(s, rs[0]);
    DocumentChange(s, s', rs[0], id);
    NothingBefore(s, rs[0], id);
    if id in s'.docs {
      ContentsKept(s', rs[1..], id);
    } else {
      DocumentContents(s', rs[1..], id);
      var k :| 0 <= k < |rs[1..]| && rs[1..][k].Upload? && rs[1..][k].id == id
               && Run(s', rs[1..]).docs[id].hash == rs[1..][k].hash;
      assert rs[k + 1].Upload?;
    }
  }

  lemma NothingBefore(s: Store, r: Request, id: Uuid)
    requires id !in s.docs
    ensures ParsedBy(s, r, id) == [] && PagesAfter(s, r, id, None) == None
  {
    EntersIff(s, r, id);
    hide Enters;
  }

  // ---------- What is published ----------

  /** Publishing is set up, and the call does not raise. */
  predicate Heard(r: Request) {
    Publish !in r.faults && (r.Ingest? ==> r.publisher)
  }

  /** The message of each status that is announced. */
  function AnnouncementOf(id: Uuid, status: UploadStatus): Option<Message> {
    match status
    case Uploaded => Some(IngestionRequested(id))
    case Parsed => Some(AnalysisRequested(id))
    case _ => None
  }

  function Once(b: bool): nat { if b then 1 else 0 }

  /** How often the run brought the document to this status, in a request that could publish it. */
  function TimesEntered(s: Store, rs: seq<Request>, id: Uuid, status: UploadStatus): nat
    decreases |rs|
  {
    if rs == [] then 0
    else Once(Enters(s, rs[0], id, status) && Heard(rs[0])) + TimesEntered(Step(s, rs[0]), rs[1..], id, status)
  }

  lemma StepAnnounces(s: Store, r: Request, id: Uuid, status: UploadStatus)
    requires AnnouncementOf(id, status).Some?
    ensures multiset(Step(s, r).outbox)[AnnouncementOf(id, status).value]
      == multiset(s.outbox)[AnnouncementOf(id, status).value] + Once(Enters(s, r, id, status) && Heard(r))
  {
    EntersIff(s, r, id);
    hide Saved, SavingRaises, ExceptRaises, NotAnalyzed, Enters;
    if Step(s, r).outbox != s.outbox {
      assert |Step(s, r).outbox| == |s.outbox| + 1;
      assert Step(s, r).outbox == s.outbox + [Step(s, r).outbox[|s.outbox|]];
    }
  }

  /**
   Over any run, as many ingestion requests of a document go out as times it became UPLOADED -- by its upload and
   by every retry -- and as many analysis requests as times it became PARSED, leaving out those that could not
   be published.
   */
  lemma {:induction false} EveryEntryIsAnnounced(s: Store, rs: seq<Request>, id: Uuid, status: UploadStatus)
    requires AnnouncementOf(id, status).Some?
    ensures multiset(Run(s, rs).outbox)[AnnouncementOf(id, status).value]
      == multiset(s.outbox)[AnnouncementOf(id, status).value] + TimesEntered(s, rs, id, status)
    decreases |rs|
  {
    hide Step, AnnouncementOf, Enters, Heard;
    if rs != [] {
      StepAnnounces(s, rs[0], id, status);
      EveryEntryIsAnnounced(Step(s, rs[0]), rs[1..], id, status);
    }
  }

  // ---------- What a failed analysis leaves ----------

  /** The answers that are about sections of the document. */
  function Known(sections: seq<Uuid>, outputs: seq<Uuid>): seq<Uuid> {
    if outputs == [] then []
    else
      var last := outputs[|outputs| - 1];
      Known(sections, outputs[..|outputs| - 1]) + if last in sections then [last] else []
  }

  predicate RaisesAt(sections: seq<Uuid>, outputs: seq<Uuid>, k: nat, faults: set<Fault>)
    requires k < |outputs|
  {
    outputs[k] in sections && (SaveItem(k) in faults || SaveReference(k) in faults)
  }

  /**
   Saved are the analyses of real sections up to the first save that raises, in order; that one too, when it was
   its reference that could not be saved.
   */
  lemma SavedUpTo(sections: seq<Uuid>, outputs: seq<Uuid>, faults: set<Fault>, first: nat)
    requires first <= |outputs| && forall k :: 0 <= k < first ==> !RaisesAt(sections, outputs, k, faults)
    requires first < |outputs| ==> RaisesAt(sections, outputs, first, faults)
    ensures Saved(sections, outputs, 0, faults) == Known(sections, outputs[..first]) +
      if first < |outputs| && SaveItem(first) !in faults then [outputs[first]] else []
  {
    SavedFrom(sections, outputs, faults, first, first);
    assert outputs[..0] == [];
  }

  lemma {:induction false} SavedFrom(sections: seq<Uuid>, outputs: seq<Uuid>, faults: set<Fault>, first: nat, n: nat)
    requires n <= first <= |outputs| && forall k :: 0 <= k < first ==> !RaisesAt(sections, outputs, k, faults)
    requires first < |outputs| ==> RaisesAt(sections, outputs, first, faults)
    ensures Known(sections, outputs[..first - n]) + Saved(sections, outputs, first - n, faults)
      == Known(sections, outputs[..first]) +
        if first < |outputs| && SaveItem(first) !in faults then [outputs[first]] else []
    decreases n
  {
    if n > 0 {
      var k := first - n;
      SavedFrom(sections, outputs, faults, first, n - 1);
      assert !RaisesAt(sections, outputs, k, faults);
      assert outputs[..k + 1][..k] == outputs[..k];
    }
  }
}
