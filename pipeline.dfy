/** main.py: which applicants a run selects, the three phases of a run
    (compression, shortlisting, LLM evaluation) over the shared record store,
    and the exit code a run ends with. */
module Pipeline {
  import opened Wrappers
  import opened Values
  import opened Helpers
  import opened Airtable
  import Compressor
  import Shortlister
  import LlmEvaluator

  /** The applicant has a (truthy) compressed document. */
  predicate Compressed(a: Record) {
    Truthy(SafeGetField(a, "Compressed JSON", JNull))
  }

  /** The applicant has a (truthy) LLM summary. */
  predicate Summarised(a: Record) {
    Truthy(SafeGetField(a, "LLM Summary", JNull))
  }

  /** A list comprehension `[a for a in apps if keep(a)]`. */
  function Filter(apps: seq<Record>, keep: Record -> bool): seq<Record> {
    if apps == [] then []
    else if keep(apps[0]) then [apps[0]] + Filter(apps[1..], keep)
    else Filter(apps[1..], keep)
  }

  lemma {:induction false} FilterSpec(apps: seq<Record>, keep: Record -> bool)
    ensures forall x :: x in Filter(apps, keep) <==> x in apps && keep(x)
    ensures IsSubsequence(Filter(apps, keep), apps)
    decreases |apps|
  {
    if apps != [] {
      FilterSpec(apps[1..], keep);
      var r := Filter(apps, keep);
      if keep(apps[0]) {
        assert r[0] == apps[0] && r[1..] == Filter(apps[1..], keep);
      }
    }
  }

  lemma {:induction false} SubsequenceOfItself(apps: seq<Record>)
    ensures IsSubsequence(apps, apps)
    decreases |apps|
  {
    if apps != [] {
      SubsequenceOfItself(apps[1..]);
    }
  }

  /** Whether a mode selects the applicant: "all" every one, "new_only"
      those not yet compressed, "changed" those compressed but without an
      LLM summary, any other mode none. */
  predicate Wanted(a: Record, mode: string) {
    if mode == "all" then true
    else if mode == "new_only" then !Compressed(a)
    else if mode == "changed" then Compressed(a) && !Summarised(a)
    else false
  }

  /** `get_applicants_for_processing(mode)` on the applicants table. */
  function Selection(apps: seq<Record>, mode: string): seq<Record> {
    if mode == "all" then apps
    else if mode == "new_only" then Filter(apps, a => !Compressed(a))
    else if mode == "changed" then Filter(apps, a => Compressed(a) && !Summarised(a))
    else []
  }

  /** The selection keeps the table's order and holds exactly the
      applicants the mode wants. */
  lemma SelectionSpec(apps: seq<Record>, mode: string)
    ensures IsSubsequence(Selection(apps, mode), apps)
    ensures forall x :: x in Selection(apps, mode) <==> x in apps && Wanted(x, mode)
  {
    if mode == "all" {
      SubsequenceOfItself(apps);
    } else if mode == "new_only" {
      FilterSpec(apps, a => !Compressed(a));
    } else if mode == "changed" {
      FilterSpec(apps, a => Compressed(a) && !Summarised(a));
    }
  }

  /** "new_only" and "changed" never select the same applicant, and
      together they are part of "all". */
  lemma ModesDisjoint(apps: seq<Record>)
    ensures forall x :: x in Selection(apps, "new_only") ==> x !in Selection(apps, "changed")
    ensures forall x :: x in Selection(apps, "new_only") || x in Selection(apps, "changed") ==> x in Selection(apps, "all")
  {
    SelectionSpec(apps, "new_only");
    SelectionSpec(apps, "changed");
  }

  method GetApplicantsForProcessing(store: Store, mode: string) returns (selected: seq<Record>)
    ensures selected == Selection(store.applicants, mode)
  {
    var all := store.GetAllApplicants();
    selected := Selection(all, mode);
  }

  /** The compression report of mode "all": every selected applicant is
      compressed again, none is skipped. */
  function RecompressReport(sel: seq<Record>, outcome: string -> Compressor.CompressResult): Compressor.CompressReport {
    if sel == [] then Compressor.CompressReport([], [], [])
    else Compressor.AddCompressed(RecompressReport(sel[..|sel| - 1], outcome), sel[|sel| - 1].id, outcome(sel[|sel| - 1].id))
  }

  /** In mode "all" every selected applicant is either compressed, and in
      `success`, or failed, and in `failed` with its error; nothing else is
      in the lists and nothing is skipped. */
  lemma {:induction false} RecompressPartition(sel: seq<Record>, outcome: string -> Compressor.CompressResult)
    ensures var r := RecompressReport(sel, outcome);
            |r.success| + |r.failed| == |sel| && r.skipped == []
    ensures var r := RecompressReport(sel, outcome);
            forall k :: 0 <= k < |sel| ==>
              (outcome(sel[k].id).Compressed? ==> sel[k].id in r.success) &&
              (outcome(sel[k].id).CompressFailed? ==> (sel[k].id, outcome(sel[k].id).error) in r.failed)
    ensures var r := RecompressReport(sel, outcome);
            forall id :: id in r.success ==> exists k :: 0 <= k < |sel| && sel[k].id == id && outcome(id).Compressed?
    ensures var r := RecompressReport(sel, outcome);
            forall e :: e in r.failed ==>
              exists k :: 0 <= k < |sel| && sel[k].id == e.0 && outcome(e.0) == Compressor.CompressFailed(e.1)
    decreases |sel|
  {
    if sel != [] {
      var init := sel[..|sel| - 1];
      RecompressPartition(init, outcome);
      assert forall k :: 0 <= k < |init| ==> init[k] == sel[k];
    }
  }

  /** The updates of mode "all": every selected applicant is compressed
      again. */
  function RecompressWrites(outcome: string -> Compressor.CompressResult, codec: Codec): Record -> Option<Fields> {
    (app: Record) => Compressor.CompressionWrite(codec, outcome(app.id))
  }

  /** The applicants table after the compression phase. */
  function AfterCompression(applicants: seq<Record>, personalRows: seq<Record>, expRows: seq<Record>,
                            salaryRows: seq<Record>, selected: seq<Record>, mode: string, codec: Codec, svc: Service)
    : seq<Record>
  {
    var outcome := Compressor.Outcomes(applicants, personalRows, expRows, salaryRows, codec, svc);
    if mode == "all" then PatchEach(applicants, selected, RecompressWrites(outcome, codec))
    else PatchEach(applicants, applicants, Compressor.CompressAllWrites(outcome, codec))
  }

  /** One applicant recompressed in mode "all": its compression, made
      against the table the earlier updates left, is the one against the
      table the phase started from. */
  lemma RecompressStep(applicants: seq<Record>, sel: seq<Record>, i: nat, personalRows: seq<Record>,
                       expRows: seq<Record>, salaryRows: seq<Record>, codec: Codec, svc: Service,
                       before: seq<Record>, after: seq<Record>, r: Compressor.CompressResult)
    requires i < |sel|
    requires before == PatchEach(applicants, sel[..i],
                                 RecompressWrites(Compressor.Outcomes(applicants, personalRows, expRows, salaryRows, codec, svc), codec))
    requires r == Compressor.CompressOutcome(before, personalRows, expRows, salaryRows, sel[i].id, codec, svc)
    requires after == if r.Compressed? then Patch(before, sel[i].id, Compressor.CompressedField(codec, r.doc)) else before
    ensures r == Compressor.Outcomes(applicants, personalRows, expRows, salaryRows, codec, svc)(sel[i].id)
    ensures after == PatchEach(applicants, sel[..i + 1],
                               RecompressWrites(Compressor.Outcomes(applicants, personalRows, expRows, salaryRows, codec, svc), codec))
  {
    var w := RecompressWrites(Compressor.Outcomes(applicants, personalRows, expRows, salaryRows, codec, svc), codec);
    PatchEachSameIds(applicants, sel[..i], w);
    Compressor.CompressStep(before, after, applicants, personalRows, expRows, salaryRows, sel[i].id, codec, svc, r);
    PatchEachStep(applicants, sel, i, w);
  }

  /** `_run_compression_phase(applicants, mode)`: mode "all" recompresses
      the selected applicants one by one; any other mode runs
      `compress_all_applicants()`, which ignores the selection. */
  method RunCompressionPhase(store: Store, selected: seq<Record>, mode: string, codec: Codec, svc: Service)
    returns (report: Compressor.CompressReport)
    modifies store
    ensures var outcome := Compressor.Outcomes(old(store.applicants), old(store.personal), old(store.experience),
                                               old(store.salary), codec, svc);
            report == if mode == "all" then RecompressReport(selected, outcome)
                      else Compressor.CompressAllReport(old(store.applicants), outcome)
    ensures store.applicants ==
              AfterCompression(old(store.applicants), old(store.personal), old(store.experience), old(store.salary),
                               selected, mode, codec, svc)
    ensures store.personal == old(store.personal) && store.experience == old(store.experience)
    ensures store.salary == old(store.salary) && store.shortlisted == old(store.shortlisted)
    ensures store.created == old(store.created)
  {
    if mode != "all" {
      report := Compressor.CompressAllApplicants(store, codec, svc);
    } else {
      report := RecompressSelected(store, selected, codec, svc);
    }
  }

  /** Mode "all" of `_run_compression_phase`: the selected applicants are
      compressed again one by one, each against the table the phase started
      from. */
  method RecompressSelected(store: Store, selected: seq<Record>, codec: Codec, svc: Service)
    returns (report: Compressor.CompressReport)
    modifies store
    ensures var outcome := Compressor.Outcomes(old(store.applicants), old(store.personal), old(store.experience),
                                               old(store.salary), codec, svc);
            report == RecompressReport(selected, outcome) &&
            store.applicants == PatchEach(old(store.applicants), selected, RecompressWrites(outcome, codec))
    ensures store.personal == old(store.personal) && store.experience == old(store.experience)
    ensures store.salary == old(store.salary) && store.shortlisted == old(store.shortlisted)
    ensures store.created == old(store.created)
  {
    report := Compressor.CompressReport([], [], []);
    ghost var applicants := store.applicants;
    ghost var outcome := Compressor.Outcomes(applicants, store.personal, store.experience, store.salary, codec, svc);
    var i := 0;
    while i < |selected|
      invariant 0 <= i <= |selected|
      invariant report == RecompressReport(selected[..i], outcome)
      invariant store.applicants == PatchEach(applicants, selected[..i], RecompressWrites(outcome, codec))
      invariant store.personal == old(store.personal) && store.experience == old(store.experience)
      invariant store.salary == old(store.salary) && store.shortlisted == old(store.shortlisted)
      invariant store.created == old(store.created)
    {
      PrefixStep(selected, i);
      var id := selected[i].id;
      ghost var before := store.applicants;
      var result := Compressor.CompressApplicantData(store, id, codec, svc);
      RecompressStep(applicants, selected, i, store.personal, store.experience, store.salary, codec, svc,
                     before, store.applicants, result);
      report := Compressor.AddCompressed(report, id, result);
      i := i + 1;
    }
    PrefixAll(selected);
  }

  /** What `run_full_pipeline` returns: "No work needed", or the three
      phases' reports. */
  datatype PipelineResult =
    | NoWork
    | Ran(compression: Compressor.CompressReport, shortlisting: Shortlister.ShortlistReport,
          llm: LlmEvaluator.LlmReport)

  /** The exception the store raises for an unknown single applicant. */
  const NOT_FOUND := "NOT_FOUND"

  /** The applicants a run selects: the single one when named (None when
      the store does not know it), otherwise the mode's selection. */
  function SelectionFor(applicants: seq<Record>, mode: string, single: string): Option<seq<Record>> {
    if single != "" then
      match FindRecord(applicants, single)
      case None => None
      case Some(a) => Some([a])
    else Some(Selection(applicants, mode))
  }

  /** `run_full_pipeline(mode, single_applicant)`; an empty `single` is no
      single applicant. An exception ends the run as `Raised`. */
  method RunFullPipeline(store: Store, mode: string, single: string, codec: Codec, env: Shortlister.Env,
                         llm: Json -> LlmEvaluator.Completion, svc: Service)
    returns (r: Result<PipelineResult>)
    modifies store
    // there is no work exactly when no applicant is selected
    ensures r == Ok(NoWork) <==> single == "" && Selection(old(store.applicants), mode) == []
    ensures r == Ok(NoWork) ==> unchanged(store)
    // an unknown single applicant stops the run before anything is written
    ensures single != "" && FindRecord(old(store.applicants), single).None? ==> r == Raised(NOT_FOUND) && unchanged(store)
    // outside mode "all" the selection only decides whether there is work
    ensures r.Ok? && r.value.Ran? ==>
              var outcome := Compressor.Outcomes(old(store.applicants), old(store.personal), old(store.experience),
                                                 old(store.salary), codec, svc);
              var sel := if single != "" then [FindRecord(old(store.applicants), single).value]
                         else Selection(old(store.applicants), mode);
              r.value.compression ==
                if mode == "all" then RecompressReport(sel, outcome) else Compressor.CompressAllReport(old(store.applicants), outcome)
    // shortlisting runs over the table compression leaves, and the LLM
    // evaluation over the table shortlisting leaves, unless it raised
    ensures var sel := SelectionFor(old(store.applicants), mode, single);
            sel.Some? && sel.value != [] ==>
              var a1 := AfterCompression(old(store.applicants), old(store.personal), old(store.experience),
                                         old(store.salary), sel.value, mode, codec, svc);
              var sh := Shortlister.ShortlistAllReport(a1, Shortlister.Outcomes(old(store.personal), old(store.experience),
                                                                               old(store.salary), codec, env));
              var t := Shortlister.ShortlistAllTables(a1, Shortlister.Evaluations(old(store.personal), old(store.experience),
                                                                                  old(store.salary), codec, env),
                                                      svc, Shortlister.Tables(a1, old(store.shortlisted), old(store.created)));
              store.shortlisted == t.shortlisted &&
              (sh.Raised? ==> r == Raised(sh.exception) && store.applicants == t.applicants) &&
              (sh.Ok? ==> r.Ok? && r.value.Ran? && r.value.shortlisting == sh.value &&
                          r.value.llm == LlmEvaluator.LlmAllReport(t.applicants,
                                                                   LlmEvaluator.Outcomes(t.applicants, codec, llm, svc)) &&
                          store.applicants == PatchEach(t.applicants, t.applicants, LlmEvaluator.Writes(codec, llm, svc)))
    ensures r.Ok? && r.value.Ran? ==> r.value.shortlisting.failed == []
    ensures r.Ok? && r.value.Ran? ==> forall e :: e in r.value.llm.failed ==> e.1 != NoCompressedJson
  {
    var selected: seq<Record>;
    if single != "" {
      var found := store.GetApplicant(single);
      if found.None? {
        return Raised(NOT_FOUND);
      }
      selected := [found.value];
    } else {
      selected := GetApplicantsForProcessing(store, mode);
    }
    if selected == [] {
      return Ok(NoWork);
    }
    assert SelectionFor(old(store.applicants), mode, single) == Some(selected);
    var compression := RunCompressionPhase(store, selected, mode, codec, svc);
    ghost var afterCompression := store.applicants;
    var shortlisting := Shortlister.ShortlistAllApplicants(store, codec, env, svc);
    Shortlister.ShortlistNeverFails(afterCompression, store.personal, store.experience, store.salary, codec, env);
    if shortlisting.Raised? {
      return Raised(shortlisting.exception);
    }
    ghost var afterShortlisting := store.applicants;
    var llmReport := LlmEvaluator.EvaluateAllApplicants(store, codec, llm, svc);
    LlmEvaluator.NeverFailsForMissingDocument(afterShortlisting, afterShortlisting, codec, llm, svc);
    r := Ok(Ran(compression, shortlisting.value, llmReport));
  }

  /** An applicant not yet shortlisted whose stored document does not parse
      keeps it through compression outside mode "all" (the document counts
      as present, so it is skipped), and then makes shortlisting raise: by
      `RunFullPipeline`'s contract such a run returns the exception, and
      ends with exit code 2. */
  lemma UnparsableDocumentStopsRun(applicants: seq<Record>, personalRows: seq<Record>, expRows: seq<Record>,
                                   salaryRows: seq<Record>, selected: seq<Record>, mode: string, codec: Codec,
                                   env: Shortlister.Env, svc: Service, k: nat)
    requires mode != "all"
    requires k < |applicants| && !Shortlister.AlreadyShortlisted(applicants[k])
    requires Truthy(SafeGetField(applicants[k], "Compressed JSON", JNull)) &&
             ParseStored(codec, SafeGetField(applicants[k], "Compressed JSON", JNull)).None?
    requires forall j :: 0 <= j < |applicants| && j != k ==> applicants[j].id != applicants[k].id
    ensures var a1 := AfterCompression(applicants, personalRows, expRows, salaryRows, selected, mode, codec, svc);
            var sh := Shortlister.ShortlistAllReport(a1, Shortlister.Outcomes(personalRows, expRows, salaryRows, codec, env));
            sh.Raised? && ExitCode(Raised(sh.exception)) == 2
  {
    var writes := Compressor.CompressAllWrites(Compressor.Outcomes(applicants, personalRows, expRows, salaryRows, codec, svc), codec);
    var a1 := PatchEach(applicants, applicants, writes);
    PatchEachUntouched(applicants, applicants, writes, applicants[k]);
    var j :| 0 <= j < |a1| && a1[j] == applicants[k];
    Shortlister.UnreadableStopsBatch(a1, personalRows, expRows, salaryRows, codec, env, j);
  }

  /** `main()`'s exit code: 2 when the run raised, 0 when there was no
      work, 1 when any phase has a failure, 0 otherwise. */
  function ExitCode(r: Result<PipelineResult>): int {
    match r
    case Raised(_) => 2
    case Ok(NoWork) => 0
    case Ok(Ran(c, s, l)) => if c.failed != [] || s.failed != [] || l.failed != [] then 1 else 0
  }

  /** The code is 0, 1 or 2; 2 exactly when the run raised; and since
      shortlisting never reports a failure, a run that completes ends with 1
      exactly when compression or LLM evaluation failed somewhere. */
  lemma ExitCodeMeaning(r: Result<PipelineResult>)
    requires r.Ok? && r.value.Ran? ==> r.value.shortlisting.failed == []
    ensures ExitCode(r) in {0, 1, 2}
    ensures ExitCode(r) == 2 <==> r.Raised?
    ensures ExitCode(r) == 1 <==>
              r.Ok? && r.value.Ran? && (r.value.compression.failed != [] || r.value.llm.failed != [])
  {
  }
}
