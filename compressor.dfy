/** processors/compressor.py: folding an applicant's linked personal,
    experience and salary records into one JSON document stored on the
    applicant as "Compressed JSON". */
module Compressor {
  import opened Wrappers
  import opened Values
  import opened Helpers
  import opened Airtable

  /** When a source field is copied: `if src.get(k):` or `if src.get(k) is not None:`. */
  datatype Keep = WhenTruthy | WhenNotNull

  /** Copy field `source` to key `target` when `keep` allows it. */
  datatype Rule = Rule(source: string, target: string, keep: Keep)

  predicate Kept(rule: Rule, src: Fields) {
    rule.source in src &&
    match rule.keep
    case WhenTruthy => Truthy(src[rule.source])
    case WhenNotNull => src[rule.source] != JNull
  }

  /** processors/compressor.py:40-47 */
  const PERSONAL_RULES: seq<Rule> := [
    Rule("Full Name", "name", WhenTruthy),
    Rule("Email", "email", WhenTruthy),
    Rule("Location", "location", WhenTruthy),
    Rule("LinkedIn", "linkedin", WhenTruthy)]

  /** processors/compressor.py:54-63 */
  const EXPERIENCE_RULES: seq<Rule> := [
    Rule("Company", "company", WhenTruthy),
    Rule("Title", "title", WhenTruthy),
    Rule("Start", "start", WhenTruthy),
    Rule("End", "end", WhenTruthy),
    Rule("Technologies", "technologies", WhenTruthy)]

  /** processors/compressor.py:72-79: the rates and the availability are kept
      whenever they are not None (so 0 is kept), the currency only when truthy. */
  const SALARY_RULES: seq<Rule> := [
    Rule("Preferred Rate", "preferred_rate", WhenNotNull),
    Rule("Minimum Rate", "minimum_rate", WhenNotNull),
    Rule("Currency", "currency", WhenTruthy),
    Rule("Availability (hrs/wk)", "availability", WhenNotNull)]

  predicate DistinctTargets(rules: seq<Rule>) {
    forall i, j :: 0 <= i < j < |rules| ==> rules[i].target != rules[j].target
  }

  predicate DistinctSources(rules: seq<Rule>) {
    forall i, j :: 0 <= i < j < |rules| ==> rules[i].source != rules[j].source
  }

  predicate IsTarget(k: string, rules: seq<Rule>) {
    exists i :: 0 <= i < |rules| && rules[i].target == k
  }

  /** The dict built by a run of `if src.get(a): obj[b] = src[a]` statements. */
  function Project(src: Fields, rules: seq<Rule>): Fields {
    if rules == [] then map[]
    else
      var m := Project(src, rules[..|rules| - 1]);
      var r := rules[|rules| - 1];
      if Kept(r, src) then m[r.target := src[r.source]] else m
  }

  /** A projection holds exactly the kept targets, each with its source's value. */
  lemma {:induction false} ProjectSpec(src: Fields, rules: seq<Rule>)
    requires DistinctTargets(rules)
    ensures forall k :: k in Project(src, rules) ==> IsTarget(k, rules)
    ensures forall i :: 0 <= i < |rules| ==> (rules[i].target in Project(src, rules) <==> Kept(rules[i], src))
    ensures forall i :: 0 <= i < |rules| && Kept(rules[i], src) ==>
              Project(src, rules)[rules[i].target] == src[rules[i].source]
    decreases |rules|
  {
    if rules != [] {
      var init := rules[..|rules| - 1];
      var last := rules[|rules| - 1];
      ProjectSpec(src, init);
      var m := Project(src, init);
      assert Project(src, rules) == if Kept(last, src) then m[last.target := src[last.source]] else m;
      forall i | 0 <= i < |rules| ensures rules[i].target in Project(src, rules) <==> Kept(rules[i], src) {
        if i < |rules| - 1 {
          assert rules[i] == init[i] && rules[i].target != last.target;
        }
      }
      forall i | 0 <= i < |rules| && Kept(rules[i], src)
        ensures Project(src, rules)[rules[i].target] == src[rules[i].source]
      {
        if i < |rules| - 1 {
          assert rules[i] == init[i] && rules[i].target != last.target;
        }
      }
      forall k | k in Project(src, rules) ensures IsTarget(k, rules) {
        if k in Project(src, init) {
          var i :| 0 <= i < |init| && init[i].target == k;
          assert rules[i].target == k;
        } else {
          assert rules[|rules| - 1].target == k;
        }
      }
    }
  }

  /** Keys outside the rules' sources do not change a projection. */
  lemma {:induction false} ProjectIgnores(src: Fields, extra: Fields, rules: seq<Rule>)
    requires forall k :: k in extra ==> forall i :: 0 <= i < |rules| ==> rules[i].source != k
    ensures Project(extra + src, rules) == Project(src, rules)
    decreases |rules|
  {
    if rules != [] {
      ProjectIgnores(src, extra, rules[..|rules| - 1]);
    }
  }

  /** The personal object: only the first personal record is used. */
  function PersonalObject(recs: seq<Record>): Fields {
    if recs == [] then map[] else Project(FieldsOf(recs[0]), PERSONAL_RULES)
  }

  /** The personal object holds exactly the truthy fields of the first
      record, renamed, with their values; with no record it is empty. */
  lemma PersonalObjectSpec(recs: seq<Record>)
    ensures var m := PersonalObject(recs);
            && (recs == [] ==> m == map[])
            && (recs != [] ==>
                  var f := FieldsOf(recs[0]);
                  && ("name" in m <==> "Full Name" in f && Truthy(f["Full Name"]))
                  && ("email" in m <==> "Email" in f && Truthy(f["Email"]))
                  && ("location" in m <==> "Location" in f && Truthy(f["Location"]))
                  && ("linkedin" in m <==> "LinkedIn" in f && Truthy(f["LinkedIn"]))
                  && ("name" in m ==> m["name"] == f["Full Name"])
                  && ("email" in m ==> m["email"] == f["Email"])
                  && ("location" in m ==> m["location"] == f["Location"])
                  && ("linkedin" in m ==> m["linkedin"] == f["LinkedIn"]))
            && m.Keys <= {"name", "email", "location", "linkedin"}
  {
    if recs != [] {
      ProjectSpec(FieldsOf(recs[0]), PERSONAL_RULES);
      assert forall k :: IsTarget(k, PERSONAL_RULES) ==> k in {"name", "email", "location", "linkedin"};
      assert PERSONAL_RULES[0].target == "name" && PERSONAL_RULES[1].target == "email";
      assert PERSONAL_RULES[2].target == "location" && PERSONAL_RULES[3].target == "linkedin";
    }
  }

  /** The experience entry of one record (empty when no field is populated). */
  function ExperienceItem(rec: Record): Fields {
    Project(FieldsOf(rec), EXPERIENCE_RULES)
  }

  /** The experience list: one entry per record with a populated field, in order. */
  function ExperienceList(recs: seq<Record>): (l: seq<Json>)
    ensures |l| <= |recs|
  {
    if recs == [] then []
    else
      var item := ExperienceItem(recs[|recs| - 1]);
      ExperienceList(recs[..|recs| - 1]) + (if item != map[] then [JObj(item)] else [])
  }

  /** Every entry is a non-empty object. */
  lemma {:induction false} ExperienceListSpec(recs: seq<Record>)
    ensures forall x :: x in ExperienceList(recs) ==> x.JObj? && x.members != map[]
    decreases |recs|
  {
    if recs != [] {
      ExperienceListSpec(recs[..|recs| - 1]);
    }
  }

  /** Experience entries follow the records: the list of a concatenation is
      the concatenation of the lists. */
  lemma {:induction false} ExperienceListConcat(a: seq<Record>, b: seq<Record>)
    ensures ExperienceList(a + b) == ExperienceList(a) + ExperienceList(b)
    decreases |b|
  {
    if b == [] {
      assert a + b == a;
    } else {
      var ab := a + b;
      assert ab[..|ab| - 1] == a + b[..|b| - 1];
      assert ab[|ab| - 1] == b[|b| - 1];
      ExperienceListConcat(a, b[..|b| - 1]);
    }
  }

  /** One record gives one entry exactly when one of its mapped fields is truthy. */
  lemma ExperienceListSingle(rec: Record)
    ensures var f := FieldsOf(rec);
            ExperienceList([rec]) ==
              if exists i :: 0 <= i < |EXPERIENCE_RULES| && Kept(EXPERIENCE_RULES[i], f)
              then [JObj(ExperienceItem(rec))] else []
  {
    assert [rec][..0] == [];
    ProjectSpec(FieldsOf(rec), EXPERIENCE_RULES);
    var item := ExperienceItem(rec);
    if item != map[] {
      var k :| k in item;
      var i :| 0 <= i < |EXPERIENCE_RULES| && EXPERIENCE_RULES[i].target == k;
      assert Kept(EXPERIENCE_RULES[i], FieldsOf(rec));
    }
  }

  /** The salary object: only the first salary record is used. */
  function SalaryObject(recs: seq<Record>): Fields {
    if recs == [] then map[] else Project(FieldsOf(recs[0]), SALARY_RULES)
  }

  /** The salary object holds the rates and the availability whenever they are
      not null (a zero rate is kept) and the currency when it is truthy. */
  lemma SalaryObjectSpec(recs: seq<Record>)
    ensures var m := SalaryObject(recs);
            && (recs == [] ==> m == map[])
            && (recs != [] ==>
                  var f := FieldsOf(recs[0]);
                  && ("preferred_rate" in m <==> "Preferred Rate" in f && f["Preferred Rate"] != JNull)
                  && ("minimum_rate" in m <==> "Minimum Rate" in f && f["Minimum Rate"] != JNull)
                  && ("currency" in m <==> "Currency" in f && Truthy(f["Currency"]))
                  && ("availability" in m <==> "Availability (hrs/wk)" in f && f["Availability (hrs/wk)"] != JNull)
                  && ("preferred_rate" in m ==> m["preferred_rate"] == f["Preferred Rate"])
                  && ("minimum_rate" in m ==> m["minimum_rate"] == f["Minimum Rate"])
                  && ("currency" in m ==> m["currency"] == f["Currency"])
                  && ("availability" in m ==> m["availability"] == f["Availability (hrs/wk)"]))
            && m.Keys <= {"preferred_rate", "minimum_rate", "currency", "availability"}
  {
    if recs != [] {
      ProjectSpec(FieldsOf(recs[0]), SALARY_RULES);
      assert forall k :: IsTarget(k, SALARY_RULES) ==> k in {"preferred_rate", "minimum_rate", "currency", "availability"};
      assert SALARY_RULES[0].target == "preferred_rate" && SALARY_RULES[1].target == "minimum_rate";
      assert SALARY_RULES[2].target == "currency" && SALARY_RULES[3].target == "availability";
    }
  }

  /** `_build_json_structure(personal, experience, salary)`. */
  function Document(personalRecs: seq<Record>, expRecs: seq<Record>, salaryRecs: seq<Record>): Json {
    JObj(map[
      "personal" := JObj(PersonalObject(personalRecs)),
      "experience" := JArr(ExperienceList(expRecs)),
      "salary" := JObj(SalaryObject(salaryRecs))])
  }

  /** The document always has exactly its three parts; with no child records
      it is `{"personal": {}, "experience": [], "salary": {}}`. */
  lemma DocumentShape(personalRecs: seq<Record>, expRecs: seq<Record>, salaryRecs: seq<Record>)
    ensures Document(personalRecs, expRecs, salaryRecs).JObj?
    ensures Document(personalRecs, expRecs, salaryRecs).members.Keys == {"personal", "experience", "salary"}
    ensures personalRecs == [] && expRecs == [] && salaryRecs == [] ==>
              Document(personalRecs, expRecs, salaryRecs) ==
              JObj(map["personal" := JObj(map[]), "experience" := JArr([]), "salary" := JObj(map[])])
  {
  }

  /** The document of the applicant's records as they stand in the child tables. */
  function DocumentOf(personalRows: seq<Record>, expRows: seq<Record>, salaryRows: seq<Record>, id: string): Json {
    Document(LinkedRecords(personalRows, id), LinkedRecords(expRows, id), LinkedRecords(salaryRows, id))
  }

  /** `_build_json_structure`, with its loop over the experience records. */
  method BuildJsonStructure(personalRecs: seq<Record>, expRecs: seq<Record>, salaryRecs: seq<Record>)
    returns (doc: Json)
    ensures doc == Document(personalRecs, expRecs, salaryRecs)
  {
    var personal := PersonalObject(personalRecs);
    var experience: seq<Json> := [];
    var i := 0;
    while i < |expRecs|
      invariant 0 <= i <= |expRecs|
      invariant experience == ExperienceList(expRecs[..i])
    {
      PrefixStep(expRecs, i);
      var item := ExperienceItem(expRecs[i]);
      if item != map[] {
        experience := experience + [JObj(item)];
      }
      i := i + 1;
    }
    PrefixAll(expRecs);
    var salary := SalaryObject(salaryRecs);
    doc := JObj(map["personal" := JObj(personal), "experience" := JArr(experience), "salary" := JObj(salary)]);
  }

  /** The field write of `compress_applicant_data`. */
  function CompressedField(codec: Codec, doc: Json): Fields {
    map["Compressed JSON" := JStr(codec.encode(doc))]
  }

  datatype CompressResult = Compressed(doc: Json) | CompressFailed(error: Error)

  /** The result `compress_applicant_data` gives, from the state it starts in. */
  function CompressOutcome(applicants: seq<Record>, personalRows: seq<Record>, expRows: seq<Record>,
                           salaryRows: seq<Record>, id: string, codec: Codec, svc: Service): CompressResult
  {
    var doc := DocumentOf(personalRows, expRows, salaryRows, id);
    if FindRecord(applicants, id).None? then CompressFailed(RecordNotFound)
    else if svc.refusesUpdate(id, CompressedField(codec, doc)) then CompressFailed(WriteRefused)
    else Compressed(doc)
  }

  /** A successful compression carries the applicant's document. */
  lemma CompressedDocument(applicants: seq<Record>, personalRows: seq<Record>, expRows: seq<Record>,
                           salaryRows: seq<Record>, id: string, codec: Codec, svc: Service)
    requires CompressOutcome(applicants, personalRows, expRows, salaryRows, id, codec, svc).Compressed?
    ensures CompressOutcome(applicants, personalRows, expRows, salaryRows, id, codec, svc) ==
              Compressed(DocumentOf(personalRows, expRows, salaryRows, id))
  {
  }

  /** `compress_applicant_data(id)`: reads the linked records, builds the
      document and, as its only write and last step, stores its JSON text on
      the applicant; a failing write is reported, never raised. */
  method CompressApplicantData(store: Store, id: string, codec: Codec, svc: Service)
    returns (r: CompressResult)
    modifies store
    ensures r == CompressOutcome(old(store.applicants), old(store.personal), old(store.experience),
                                 old(store.salary), id, codec, svc)
    ensures store.applicants ==
              if r.Compressed? then Patch(old(store.applicants), id, CompressedField(codec, r.doc))
              else old(store.applicants)
    ensures store.personal == old(store.personal) && store.experience == old(store.experience)
    ensures store.salary == old(store.salary) && store.shortlisted == old(store.shortlisted)
    ensures store.created == old(store.created)
  {
    var personalRecs := LinkedRecords(store.personal, id);
    var expRecs := LinkedRecords(store.experience, id);
    var salaryRecs := LinkedRecords(store.salary, id);
    var doc := BuildJsonStructure(personalRecs, expRecs, salaryRecs);
    var found := FindRecord(store.applicants, id).Some?;
    var ok := store.UpdateApplicant(id, CompressedField(codec, doc), svc);
    if ok {
      r := Compressed(doc);
    } else {
      r := CompressFailed(if found then WriteRefused else RecordNotFound);
    }
  }

  /** The three lists `compress_all_applicants` returns. */
  datatype CompressReport = CompressReport(success: seq<string>, failed: seq<(string, Error)>, skipped: seq<string>)

  predicate HasCompressedJson(app: Record) {
    Truthy(SafeGetField(app, "Compressed JSON", JNull))
  }

  /** Each applicant id's compression outcome against the given tables. */
  function Outcomes(applicants: seq<Record>, personalRows: seq<Record>, expRows: seq<Record>,
                    salaryRows: seq<Record>, codec: Codec, svc: Service): string -> CompressResult
  {
    id => CompressOutcome(applicants, personalRows, expRows, salaryRows, id, codec, svc)
  }

  /** The report with the outcome of compressing `id` added to its list. */
  function AddCompressed(rep: CompressReport, id: string, r: CompressResult): CompressReport {
    match r
    case Compressed(_) => rep.(success := rep.success + [id])
    case CompressFailed(e) => rep.(failed := rep.failed + [(id, e)])
  }

  /** The report of `compress_all_applicants` over the listing `apps`, each
      applicant's outcome given by `outcome`. */
  function CompressAllReport(apps: seq<Record>, outcome: string -> CompressResult): CompressReport {
    if apps == [] then CompressReport([], [], [])
    else
      var rep := CompressAllReport(apps[..|apps| - 1], outcome);
      var app := apps[|apps| - 1];
      if HasCompressedJson(app) then rep.(skipped := rep.skipped + [app.id])
      else AddCompressed(rep, app.id, outcome(app.id))
  }

  /** One more applicant in the listing. */
  lemma CompressAllReportStep(apps: seq<Record>, i: nat, outcome: string -> CompressResult)
    requires i < |apps|
    ensures var rep := CompressAllReport(apps[..i], outcome);
            CompressAllReport(apps[..i + 1], outcome) ==
              if HasCompressedJson(apps[i]) then rep.(skipped := rep.skipped + [apps[i].id])
              else AddCompressed(rep, apps[i].id, outcome(apps[i].id))
  {
    assert apps[..i + 1][..i] == apps[..i];
  }

  function Ids(apps: seq<Record>): seq<string> {
    seq(|apps|, i requires 0 <= i < |apps| => apps[i].id)
  }

  function SkippedApps(apps: seq<Record>): seq<Record> {
    if apps == [] then []
    else SkippedApps(apps[..|apps| - 1]) + (if HasCompressedJson(apps[|apps| - 1]) then [apps[|apps| - 1]] else [])
  }

  /** Every applicant lands in exactly one list, and the skipped ones are,
      in listing order, those that already had a compressed document. */
  lemma {:induction false} CompressAllCounts(apps: seq<Record>, outcome: string -> CompressResult)
    ensures var rep := CompressAllReport(apps, outcome);
            |rep.success| + |rep.failed| + |rep.skipped| == |apps| && rep.skipped == Ids(SkippedApps(apps))
    decreases |apps|
  {
    if apps != [] {
      var init := apps[..|apps| - 1];
      CompressAllCounts(init, outcome);
      var last := apps[|apps| - 1];
      assert Ids(SkippedApps(init) + [last]) == Ids(SkippedApps(init)) + [last.id];
      assert Ids(SkippedApps(init) + []) == Ids(SkippedApps(init));
    }
  }

  /** An applicant without a document is in `success` when its compression
      succeeds and in `failed`, with its error, when it fails. */
  lemma {:induction false} CompressAllListed(apps: seq<Record>, outcome: string -> CompressResult)
    ensures var rep := CompressAllReport(apps, outcome);
            forall k :: 0 <= k < |apps| && !HasCompressedJson(apps[k]) ==>
              (outcome(apps[k].id).Compressed? ==> apps[k].id in rep.success) &&
              (outcome(apps[k].id).CompressFailed? ==> (apps[k].id, outcome(apps[k].id).error) in rep.failed)
    decreases |apps|
  {
    if apps != [] {
      var init := apps[..|apps| - 1];
      CompressAllListed(init, outcome);
      assert forall k :: 0 <= k < |init| ==> init[k] == apps[k];
    }
  }

  /** Nothing else is in `success` and `failed`. */
  lemma {:induction false} CompressAllOrigins(apps: seq<Record>, outcome: string -> CompressResult)
    ensures var rep := CompressAllReport(apps, outcome);
            forall id :: id in rep.success ==>
              exists k :: 0 <= k < |apps| && apps[k].id == id && !HasCompressedJson(apps[k]) && outcome(id).Compressed?
    ensures var rep := CompressAllReport(apps, outcome);
            forall e :: e in rep.failed ==>
              exists k :: 0 <= k < |apps| && apps[k].id == e.0 && !HasCompressedJson(apps[k]) &&
                          outcome(e.0) == CompressFailed(e.1)
    decreases |apps|
  {
    if apps != [] {
      var init := apps[..|apps| - 1];
      CompressAllOrigins(init, outcome);
      assert forall k :: 0 <= k < |init| ==> init[k] == apps[k];
    }
  }

  /** Every applicant lands in exactly one list, and the skipped ones are,
      in listing order, those that already had a compressed document; an
      applicant without one is in `success` when its compression succeeds
      and in `failed`, with its error, when it fails, and nothing else is
      in those two lists. */
  lemma CompressAllPartition(apps: seq<Record>, applicants: seq<Record>, personalRows: seq<Record>,
                             expRows: seq<Record>, salaryRows: seq<Record>, codec: Codec, svc: Service)
    ensures var rep := CompressAllReport(apps, Outcomes(applicants, personalRows, expRows, salaryRows, codec, svc));
            |rep.success| + |rep.failed| + |rep.skipped| == |apps| &&
            rep.skipped == Ids(SkippedApps(apps))
    ensures var rep := CompressAllReport(apps, Outcomes(applicants, personalRows, expRows, salaryRows, codec, svc));
            forall k :: 0 <= k < |apps| && !HasCompressedJson(apps[k]) ==>
              var o := CompressOutcome(applicants, personalRows, expRows, salaryRows, apps[k].id, codec, svc);
              (o.Compressed? ==> apps[k].id in rep.success) && (o.CompressFailed? ==> (apps[k].id, o.error) in rep.failed)
    ensures var rep := CompressAllReport(apps, Outcomes(applicants, personalRows, expRows, salaryRows, codec, svc));
            forall id :: id in rep.success ==>
              exists k :: 0 <= k < |apps| && apps[k].id == id && !HasCompressedJson(apps[k]) &&
                          CompressOutcome(applicants, personalRows, expRows, salaryRows, id, codec, svc).Compressed?
    ensures var rep := CompressAllReport(apps, Outcomes(applicants, personalRows, expRows, salaryRows, codec, svc));
            forall e :: e in rep.failed ==>
              exists k :: 0 <= k < |apps| && apps[k].id == e.0 && !HasCompressedJson(apps[k]) &&
                          CompressOutcome(applicants, personalRows, expRows, salaryRows, e.0, codec, svc) == CompressFailed(e.1)
  {
    var outcome := Outcomes(applicants, personalRows, expRows, salaryRows, codec, svc);
    CompressAllCounts(apps, outcome);
    CompressAllListed(apps, outcome);
    CompressAllOrigins(apps, outcome);
  }

  /** The update a compression outcome makes: the applicant's
      `Compressed JSON`, when the compression succeeds. */
  function CompressionWrite(codec: Codec, o: CompressResult): Option<Fields> {
    match o
    case Compressed(doc) => Some(CompressedField(codec, doc))
    case CompressFailed(_) => None
  }

  /** The updates of `compress_all_applicants`: an applicant that already has
      a document is not written. */
  function CompressAllWrites(outcome: string -> CompressResult, codec: Codec): Record -> Option<Fields> {
    app => if HasCompressedJson(app) then None else CompressionWrite(codec, outcome(app.id))
  }

  /** After the batch, an applicant it compressed carries the JSON text of
      its document and is listed as a success (record ids are unique). */
  lemma CompressedCarryDocument(apps: seq<Record>, personalRows: seq<Record>, expRows: seq<Record>,
                                salaryRows: seq<Record>, codec: Codec, svc: Service, k: nat)
    requires k < |apps| && !HasCompressedJson(apps[k])
    requires CompressOutcome(apps, personalRows, expRows, salaryRows, apps[k].id, codec, svc).Compressed?
    requires forall j :: 0 <= j < |apps| && j != k ==> apps[j].id != apps[k].id
    ensures var outcome := Outcomes(apps, personalRows, expRows, salaryRows, codec, svc);
            var after := PatchEach(apps, apps, CompressAllWrites(outcome, codec));
            SafeGetField(after[k], "Compressed JSON", JNull) ==
              JStr(codec.encode(DocumentOf(personalRows, expRows, salaryRows, apps[k].id)))
    ensures apps[k].id in CompressAllReport(apps, Outcomes(apps, personalRows, expRows, salaryRows, codec, svc)).success
  {
    CompressedWritten(apps, personalRows, expRows, salaryRows, codec, svc, k);
    CompressedListed(apps, personalRows, expRows, salaryRows, codec, svc, k);
  }

  lemma CompressedWritten(apps: seq<Record>, personalRows: seq<Record>, expRows: seq<Record>,
                          salaryRows: seq<Record>, codec: Codec, svc: Service, k: nat)
    requires k < |apps| && !HasCompressedJson(apps[k])
    requires CompressOutcome(apps, personalRows, expRows, salaryRows, apps[k].id, codec, svc).Compressed?
    requires forall j :: 0 <= j < |apps| && j != k ==> apps[j].id != apps[k].id
    ensures var outcome := Outcomes(apps, personalRows, expRows, salaryRows, codec, svc);
            var after := PatchEach(apps, apps, CompressAllWrites(outcome, codec));
            SafeGetField(after[k], "Compressed JSON", JNull) ==
              JStr(codec.encode(DocumentOf(personalRows, expRows, salaryRows, apps[k].id)))
  {
    var outcome := Outcomes(apps, personalRows, expRows, salaryRows, codec, svc);
    var w := CompressAllWrites(outcome, codec);
    var field := CompressedField(codec, DocumentOf(personalRows, expRows, salaryRows, apps[k].id));
    assert w(apps[k]) == Some(field) by {
      assert outcome(apps[k].id) == CompressOutcome(apps, personalRows, expRows, salaryRows, apps[k].id, codec, svc);
      CompressedDocument(apps, personalRows, expRows, salaryRows, apps[k].id, codec, svc);
    }
    var after := FieldsOf(PatchEach(apps, apps, w)[k]);
    assert "Compressed JSON" in after && after["Compressed JSON"] == field["Compressed JSON"] by {
      PatchEachWritten(apps, apps, w, k, k);
      assert "Compressed JSON" in field;
    }
  }

  lemma CompressedListed(apps: seq<Record>, personalRows: seq<Record>, expRows: seq<Record>,
                         salaryRows: seq<Record>, codec: Codec, svc: Service, k: nat)
    requires k < |apps| && !HasCompressedJson(apps[k])
    requires CompressOutcome(apps, personalRows, expRows, salaryRows, apps[k].id, codec, svc).Compressed?
    ensures apps[k].id in CompressAllReport(apps, Outcomes(apps, personalRows, expRows, salaryRows, codec, svc)).success
  {
    var outcome := Outcomes(apps, personalRows, expRows, salaryRows, codec, svc);
    assert outcome(apps[k].id).Compressed?;
    CompressAllListed(apps, outcome);
  }

  /** An applicant the batch does not list as a success keeps its record
      untouched. */
  lemma UncompressedUntouched(apps: seq<Record>, outcome: string -> CompressResult, codec: Codec)
    ensures forall x :: x in apps && x.id !in CompressAllReport(apps, outcome).success ==>
                          x in PatchEach(apps, apps, CompressAllWrites(outcome, codec))
  {
    var w := CompressAllWrites(outcome, codec);
    CompressAllListed(apps, outcome);
    forall x | x in apps && x.id !in CompressAllReport(apps, outcome).success
      ensures x in PatchEach(apps, apps, w)
    {
      forall k | 0 <= k < |apps| && apps[k].id == x.id ensures w(apps[k]).None? {
        if !HasCompressedJson(apps[k]) {
          assert outcome(apps[k].id).CompressFailed?;
        }
      }
      PatchEachUntouched(apps, apps, w, x);
    }
  }

  /** One compression in the batch: the outcome is the one against the
      table the batch started from, and the ids stay the same. */
  lemma CompressStep(before: seq<Record>, after: seq<Record>, apps: seq<Record>, personalRows: seq<Record>,
                     expRows: seq<Record>, salaryRows: seq<Record>, id: string, codec: Codec, svc: Service,
                     r: CompressResult)
    requires SameIds(before, apps)
    requires r == CompressOutcome(before, personalRows, expRows, salaryRows, id, codec, svc)
    requires after == if r.Compressed? then Patch(before, id, CompressedField(codec, r.doc)) else before
    ensures r == Outcomes(apps, personalRows, expRows, salaryRows, codec, svc)(id)
    ensures after == if r.Compressed? then Patch(before, id, CompressionWrite(codec, r).value) else before
    ensures SameIds(after, apps)
  {
    if r.Compressed? {
      forall x ensures FindRecord(after, x).Some? == FindRecord(apps, x).Some? {
        PatchKeepsIds(before, id, CompressedField(codec, r.doc), x);
      }
    }
  }

  /** One applicant of the batch: its compression, made against the table
      the earlier updates left, is the one against the table the batch
      started from, and the table stays in step with the batch's updates. */
  lemma CompressBatchStep(apps: seq<Record>, i: nat, personalRows: seq<Record>, expRows: seq<Record>,
                          salaryRows: seq<Record>, codec: Codec, svc: Service,
                          before: seq<Record>, after: seq<Record>, r: CompressResult)
    requires i < |apps| && !HasCompressedJson(apps[i])
    requires before == PatchEach(apps, apps[..i],
                                 CompressAllWrites(Outcomes(apps, personalRows, expRows, salaryRows, codec, svc), codec))
    requires r == CompressOutcome(before, personalRows, expRows, salaryRows, apps[i].id, codec, svc)
    requires after == if r.Compressed? then Patch(before, apps[i].id, CompressedField(codec, r.doc)) else before
    ensures r == Outcomes(apps, personalRows, expRows, salaryRows, codec, svc)(apps[i].id)
    ensures after == PatchEach(apps, apps[..i + 1],
                               CompressAllWrites(Outcomes(apps, personalRows, expRows, salaryRows, codec, svc), codec))
  {
    var outcome := Outcomes(apps, personalRows, expRows, salaryRows, codec, svc);
    PatchEachSameIds(apps, apps[..i], CompressAllWrites(outcome, codec));
    CompressStep(before, after, apps, personalRows, expRows, salaryRows, apps[i].id, codec, svc, r);
    PatchEachStep(apps, apps, i, CompressAllWrites(outcome, codec));
  }

  /** `compress_all_applicants()`: skips applicants that already have a
      document and compresses the others, in listing order. */
  method CompressAllApplicants(store: Store, codec: Codec, svc: Service) returns (report: CompressReport)
    modifies store
    ensures report == CompressAllReport(old(store.applicants),
                                        Outcomes(old(store.applicants), old(store.personal), old(store.experience),
                                                 old(store.salary), codec, svc))
    // the compressed applicants get their `Compressed JSON`, in listing order
    ensures store.applicants ==
              PatchEach(old(store.applicants), old(store.applicants),
                        CompressAllWrites(Outcomes(old(store.applicants), old(store.personal), old(store.experience),
                                                   old(store.salary), codec, svc), codec))
    // an applicant whose id was not compressed keeps its record untouched
    ensures forall x :: x in old(store.applicants) && x.id !in report.success ==> x in store.applicants
    ensures store.personal == old(store.personal) && store.experience == old(store.experience)
    ensures store.salary == old(store.salary) && store.shortlisted == old(store.shortlisted)
    ensures store.created == old(store.created)
  {
    var apps := store.GetAllApplicants();
    ghost var personalRows, expRows, salaryRows := store.personal, store.experience, store.salary;
    ghost var outcome := Outcomes(apps, personalRows, expRows, salaryRows, codec, svc);
    report := CompressReport([], [], []);
    var i := 0;
    while i < |apps|
      invariant 0 <= i <= |apps|
      invariant report == CompressAllReport(apps[..i], outcome)
      invariant store.applicants == PatchEach(apps, apps[..i], CompressAllWrites(outcome, codec))
      invariant store.personal == personalRows && store.experience == expRows && store.salary == salaryRows
      invariant store.shortlisted == old(store.shortlisted) && store.created == old(store.created)
    {
      var app := apps[i];
      CompressAllReportStep(apps, i, outcome);
      if HasCompressedJson(app) {
        PatchEachStep(apps, apps, i, CompressAllWrites(outcome, codec));
        report := report.(skipped := report.skipped + [app.id]);
        i := i + 1;
        continue;
      }
      ghost var before := store.applicants;
      var r := CompressApplicantData(store, app.id, codec, svc);
      CompressBatchStep(apps, i, personalRows, expRows, salaryRows, codec, svc, before, store.applicants, r);
      report := AddCompressed(report, app.id, r);
      i := i + 1;
    }
    PrefixAll(apps);
    UncompressedUntouched(apps, outcome, codec);
  }
}
