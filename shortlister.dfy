/** processors/shortlister.py: the three eligibility rules (experience,
    compensation, location), the evaluation that partitions their reasons,
    and the shortlisting step that writes leads to the store. */
module Shortlister {
  import opened Wrappers
  import opened Values
  import opened Text
  import opened Helpers
  import opened Airtable
  import Compressor

  /** config.py: the tier-1 employers (all already lower-case). */
  const TIER1_COMPANIES: set<string> :=
    {"google", "alphabet", "meta", "facebook", "openai", "microsoft",
     "apple", "amazon", "netflix", "nvidia", "tesla", "stripe"}
  /** config.py: the accepted location tokens. */
  const ALLOWED_LOCATIONS: set<string> := {"us", "canada", "germany", "uk", "india"}
  /** `MIN_EXPERIENCE_YEARS = 4.0`: `total_days / 365.25 >= 4.0` holds exactly
      when `total_days >= 1461`. */
  const MIN_EXPERIENCE_DAYS: nat := 1461
  const MAX_HOURLY_RATE: real := 100.0
  const MIN_AVAILABILITY: real := 20.0

  /** What the rules take from the environment: the date parser and today's
      day number (for the experience total), Python's `float()` on a text
      (None when it raises `ValueError`), and `str()` of a field value as it
      appears in a failure reason. */
  datatype Env = Env(
    parseDate: string -> Option<int>,
    today: int,
    parseFloat: string -> Option<real>,
    show: Json -> string)

  /** The `AttributeError` of `.strip()` on a field value that is not text. */
  const NO_STRIP_ERROR := "object has no attribute 'strip'"

  /** Python's `any(t in text for t in tokens)`. */
  predicate MentionsAny(text: string, tokens: set<string>) {
    exists t :: t in tokens && Contains(text, t)
  }

  /** A company name counts as tier-1 when, stripped and lower-cased, it
      contains one of the tier-1 tokens. */
  predicate IsTier1(company: string) {
    MentionsAny(Lower(Strip(company)), TIER1_COMPANIES)
  }

  /** `safe_get_field(rec, "Company", "")`. */
  function CompanyField(rec: Record): Json {
    SafeGetField(rec, "Company", JStr(""))
  }

  /** `_check_tier1_experience`: the first record whose company passes
      `isTier1` gives its Company text; a Company that is not text makes
      `.strip()` raise. */
  function Tier1Match(recs: seq<Record>, isTier1: string -> bool): Result<Option<string>> {
    if recs == [] then Ok(None)
    else
      match CompanyField(recs[0])
      case JStr(c) => if isTier1(c) then Ok(Some(c)) else Tier1Match(recs[1..], isTier1)
      case _ => Raised(NO_STRIP_ERROR)
  }

  /** The records before `k` all have a text Company that is not tier-1. */
  predicate NoTier1Before(recs: seq<Record>, k: int, isTier1: string -> bool)
    requires 0 <= k <= |recs|
  {
    forall i :: 0 <= i < k ==> CompanyField(recs[i]).JStr? && !isTier1(CompanyField(recs[i]).s)
  }

  /** The search stops at the first tier-1 record (whose Company it reports)
      or at the first Company that is not text (which raises). */
  lemma {:induction false} Tier1MatchSpec(recs: seq<Record>, isTier1: string -> bool)
    ensures Tier1Match(recs, isTier1) == Ok(None) <==> NoTier1Before(recs, |recs|, isTier1)
    ensures Tier1Match(recs, isTier1).Ok? && Tier1Match(recs, isTier1).value.Some? ==>
              exists k :: 0 <= k < |recs| && NoTier1Before(recs, k, isTier1) &&
                          CompanyField(recs[k]) == JStr(Tier1Match(recs, isTier1).value.value) &&
                          isTier1(Tier1Match(recs, isTier1).value.value)
    ensures Tier1Match(recs, isTier1).Raised? ==>
              exists k :: 0 <= k < |recs| && NoTier1Before(recs, k, isTier1) && !CompanyField(recs[k]).JStr?
    decreases |recs|
  {
    if recs != [] {
      var tail := recs[1..];
      Tier1MatchSpec(tail, isTier1);
      assert NoTier1Before(recs, 0, isTier1);
      if CompanyField(recs[0]).JStr? && !isTier1(CompanyField(recs[0]).s) {
        assert Tier1Match(recs, isTier1) == Tier1Match(tail, isTier1);
        forall k | 0 <= k <= |tail|
          ensures NoTier1Before(recs, k + 1, isTier1) == NoTier1Before(tail, k, isTier1)
        {
          assert forall i :: 0 <= i < k ==> tail[i] == recs[i + 1];
        }
        if Tier1Match(recs, isTier1).Ok? && Tier1Match(recs, isTier1).value.Some? {
          var k :| 0 <= k < |tail| && NoTier1Before(tail, k, isTier1) &&
                   CompanyField(tail[k]) == JStr(Tier1Match(tail, isTier1).value.value) &&
                   isTier1(Tier1Match(tail, isTier1).value.value);
          assert NoTier1Before(recs, k + 1, isTier1) && recs[k + 1] == tail[k];
        }
        if Tier1Match(recs, isTier1).Raised? {
          var k :| 0 <= k < |tail| && NoTier1Before(tail, k, isTier1) && !CompanyField(tail[k]).JStr?;
          assert NoTier1Before(recs, k + 1, isTier1) && recs[k + 1] == tail[k];
        }
        assert NoTier1Before(recs, |recs|, isTier1) == NoTier1Before(tail, |tail|, isTier1);
      } else {
        assert !NoTier1Before(recs, |recs|, isTier1) by {
          assert !(CompanyField(recs[0]).JStr? && !isTier1(CompanyField(recs[0]).s));
        }
        if CompanyField(recs[0]).JStr? {
          assert Tier1Match(recs, isTier1) == Ok(Some(CompanyField(recs[0]).s));
        } else {
          assert Tier1Match(recs, isTier1) == Raised(NO_STRIP_ERROR);
        }
      }
    }
  }

  /** Some record has a text Company that is tier-1. */
  predicate HasTier1(recs: seq<Record>, isTier1: string -> bool) {
    exists k :: 0 <= k < |recs| && CompanyField(recs[k]).JStr? && isTier1(CompanyField(recs[k]).s)
  }

  /** When the search does not raise, it finds a company iff some record
      has a tier-1 company. */
  lemma Tier1Found(recs: seq<Record>, isTier1: string -> bool)
    ensures Tier1Match(recs, isTier1).Ok? ==> (Tier1Match(recs, isTier1).value.Some? <==> HasTier1(recs, isTier1))
  {
    Tier1MatchSpec(recs, isTier1);
    var t := Tier1Match(recs, isTier1);
    if t.Ok? && t.value.Some? {
      var k :| 0 <= k < |recs| && NoTier1Before(recs, k, isTier1) && CompanyField(recs[k]) == JStr(t.value.value) &&
               isTier1(t.value.value);
      assert CompanyField(recs[k]).JStr? && isTier1(CompanyField(recs[k]).s);
    }
    if t == Ok(None) {
      forall k | 0 <= k < |recs| ensures !(CompanyField(recs[k]).JStr? && isTier1(CompanyField(recs[k]).s)) {
        assert NoTier1Before(recs, |recs|, isTier1);
      }
    }
  }

  /** `f"{years:.1f}"` for `years = total_days / 365.25`: the number of
      tenths is `40 * total_days / 1461` rounded to the nearest integer (an
      exact tie cannot occur). */
  function YearsText(days: nat): string {
    var tenths := (80 * days + 1461) / 2922;
    NatToString(tenths / 10) + "." + [DigitChar(tenths % 10)]
  }

  /** One rule's `{"meets_criteria": ..., "reason": ...}`. */
  datatype RuleResult = RuleResult(meets: bool, reason: string)

  /** `_evaluate_experience`: enough days, or a tier-1 employer. */
  function EvaluateExperience(recs: seq<Record>, env: Env): Result<RuleResult> {
    var days := ExperienceDays(recs, env.parseDate, env.today);
    if days.Raised? then Raised(days.exception)
    else
      var tier1 := Tier1Match(recs, IsTier1);
      if tier1.Raised? then Raised(tier1.exception)
      else
        var meetsYears := days.value >= MIN_EXPERIENCE_DAYS;
        var parts := (if meetsYears then ["Experience \U{2265} 4.0 years (" + YearsText(days.value) + " yrs)"] else [])
                     + (if tier1.value.Some? then ["Tier-1 company: " + tier1.value.value] else []);
        Ok(RuleResult(meetsYears || tier1.value.Some?,
                      if parts != [] then Join(parts, "; ")
                      else "Insufficient experience (" + YearsText(days.value) + " yrs)"))
  }

  /** The experience rule passes iff the total reaches four years or some
      record names a tier-1 company; it raises only where the day total or
      the company search raises. */
  lemma ExperienceRule(recs: seq<Record>, env: Env)
    ensures EvaluateExperience(recs, env).Ok? <==>
              ExperienceDays(recs, env.parseDate, env.today).Ok? && Tier1Match(recs, IsTier1).Ok?
    ensures EvaluateExperience(recs, env).Ok? ==>
              (EvaluateExperience(recs, env).value.meets <==>
                 ExperienceDays(recs, env.parseDate, env.today).value >= MIN_EXPERIENCE_DAYS || HasTier1(recs, IsTier1))
    ensures EvaluateExperience(recs, env).Ok? && !EvaluateExperience(recs, env).value.meets ==>
              EvaluateExperience(recs, env).value.reason ==
                "Insufficient experience (" + YearsText(ExperienceDays(recs, env.parseDate, env.today).value) + " yrs)"
  {
    Tier1Found(recs, IsTier1);
  }

  /** Python's `float(v)`: numbers and booleans convert, text goes through
      the parser, anything else raises `TypeError` (None here). */
  function ToFloat(v: Json, parseFloat: string -> Option<real>): Option<real> {
    match v
    case JNum(n) => Some(n)
    case JBool(b) => Some(if b then 1.0 else 0.0)
    case JStr(s) => parseFloat(s)
    case _ => None
  }

  /** `currency == "USD" and float(preferred_rate) <= MAX_HOURLY_RATE`, a
      failed conversion counting as False. */
  predicate RateOk(currency: string, rate: Json, env: Env) {
    currency == "USD" && ToFloat(rate, env.parseFloat).Some? && ToFloat(rate, env.parseFloat).value <= MAX_HOURLY_RATE
  }

  /** `float(availability) >= MIN_AVAILABILITY`, a failed conversion counting as False. */
  predicate AvailabilityOk(availability: Json, env: Env) {
    ToFloat(availability, env.parseFloat).Some? && ToFloat(availability, env.parseFloat).value >= MIN_AVAILABILITY
  }

  const COMPENSATION_OK := "Compensation: \U{2264} $100.0/hr USD and \U{2265} 20.0 hrs/wk"

  /** `_evaluate_compensation`: only the first salary record is read. */
  function EvaluateCompensation(recs: seq<Record>, env: Env): Result<RuleResult> {
    if recs == [] then Ok(RuleResult(false, "No salary information"))
    else
      var cur := SafeGetField(recs[0], "Currency", JStr(""));
      if !cur.JStr? then Raised(NO_STRIP_ERROR)
      else
        var currency := Upper(Strip(cur.s));
        var rate := SafeGetField(recs[0], "Preferred Rate", JNull);
        var availability := SafeGetField(recs[0], "Availability (hrs/wk)", JNull);
        var rateOk := RateOk(currency, rate, env);
        var availabilityOk := AvailabilityOk(availability, env);
        if rateOk && availabilityOk then Ok(RuleResult(true, COMPENSATION_OK))
        else
          var issues := (if !rateOk then ["Rate: " + env.show(rate) + " " + currency + " (needs \U{2264} $100.0 USD)"] else [])
                        + (if !availabilityOk then ["Availability: " + env.show(availability) + " hrs/wk (needs \U{2265} 20.0)"] else []);
          Ok(RuleResult(false, Join(issues, "; ")))
  }

  /** The compensation requirement on a list of salary records. */
  predicate CompensationQualifies(recs: seq<Record>, env: Env) {
    recs != [] && SafeGetField(recs[0], "Currency", JStr("")).JStr? &&
    RateOk(Upper(Strip(SafeGetField(recs[0], "Currency", JStr("")).s)), SafeGetField(recs[0], "Preferred Rate", JNull), env) &&
    AvailabilityOk(SafeGetField(recs[0], "Availability (hrs/wk)", JNull), env)
  }

  /** No salary record fails with its own reason; a Currency that is not
      text raises; otherwise the rule passes iff the currency is USD, the
      rate converts and is at most 100 and the availability converts and is
      at least 20 (a missing or unconvertible value fails, never raises);
      later records are never read. */
  lemma CompensationRule(recs: seq<Record>, env: Env)
    ensures recs == [] ==> EvaluateCompensation(recs, env) == Ok(RuleResult(false, "No salary information"))
    ensures EvaluateCompensation(recs, env).Raised? <==>
              recs != [] && !SafeGetField(recs[0], "Currency", JStr("")).JStr?
    ensures EvaluateCompensation(recs, env).Ok? ==>
              (EvaluateCompensation(recs, env).value.meets <==> CompensationQualifies(recs, env))
    ensures recs != [] ==> EvaluateCompensation(recs, env) == EvaluateCompensation([recs[0]], env)
  {
  }

  /** `_evaluate_location`: only the first personal record is read. */
  function EvaluateLocation(recs: seq<Record>): Result<RuleResult> {
    if recs == [] then Ok(RuleResult(false, "No location information"))
    else
      var loc := SafeGetField(recs[0], "Location", JStr(""));
      if !loc.JStr? then Raised(NO_STRIP_ERROR)
      else
        var location := Lower(Strip(loc.s));
        if MentionsAny(location, ALLOWED_LOCATIONS) then Ok(RuleResult(true, "Location: Approved region"))
        else Ok(RuleResult(false, "Location: " + location + " (not in approved regions)"))
  }

  /** The location requirement on a list of personal records. */
  predicate LocationQualifies(recs: seq<Record>) {
    recs != [] && SafeGetField(recs[0], "Location", JStr("")).JStr? &&
    MentionsAny(Lower(Strip(SafeGetField(recs[0], "Location", JStr("")).s)), ALLOWED_LOCATIONS)
  }

  /** No personal record fails with its own reason; a Location that is not
      text raises; otherwise the rule passes iff the stripped, lower-cased
      location contains an allowed token; later records are never read. */
  lemma LocationRule(recs: seq<Record>)
    ensures recs == [] ==> EvaluateLocation(recs) == Ok(RuleResult(false, "No location information"))
    ensures EvaluateLocation(recs).Raised? <==> recs != [] && !SafeGetField(recs[0], "Location", JStr("")).JStr?
    ensures EvaluateLocation(recs).Ok? ==> (EvaluateLocation(recs).value.meets <==> LocationQualifies(recs))
    ensures recs != [] ==> EvaluateLocation(recs) == EvaluateLocation([recs[0]])
  {
  }

  /** The location test is substring containment, so "Australia" passes
      through the token "us". */
  lemma AustraliaPasses()
    ensures MentionsAny(Lower(Strip("Australia")), ALLOWED_LOCATIONS)
  {
    var s := "Australia";
    assert StripStart(s) == s;
    assert StripEnd(s) == s;
    var low := Lower(s);
    assert low == "australia" by {
      assert |low| == 9;
      forall i | 0 <= i < 9 ensures low[i] == "australia"[i] {
      }
    }
    ContainsAt(low, "us", 1);
    assert "us" in ALLOWED_LOCATIONS;
  }

  /** `evaluate_applicant`'s result: either a document problem found before
      any rule runs, or the three rules and the reasons split between the
      passing and the failing list. */
  datatype Evaluation =
    | Unreadable(error: Error)
    | Assessed(eligible: bool, reasons: seq<string>, failReasons: seq<string>, compressedJson: Json,
               experience: RuleResult, compensation: RuleResult, location: RuleResult)

  /** The evaluation built from the three rule results, in the order
      experience, compensation, location. */
  function Assess(exp: RuleResult, comp: RuleResult, loc: RuleResult, cj: Json): Evaluation {
    Assessed(exp.meets && comp.meets && loc.meets,
             (if exp.meets then [exp.reason] else []) + (if comp.meets then [comp.reason] else [])
             + (if loc.meets then [loc.reason] else []),
             (if !exp.meets then ["Experience: " + exp.reason] else [])
             + (if !comp.meets then ["Compensation: " + comp.reason] else [])
             + (if !loc.meets then ["Location: " + loc.reason] else []),
             cj, exp, comp, loc)
  }

  /** The reasons of the rules that pass, in order. */
  function Passing(rules: seq<RuleResult>): seq<string> {
    if rules == [] then [] else (if rules[0].meets then [rules[0].reason] else []) + Passing(rules[1..])
  }

  /** The labelled reasons of the rules that fail, in order. */
  function Failing(rules: seq<RuleResult>, labels: seq<string>): seq<string>
    requires |labels| == |rules|
  {
    if rules == [] then []
    else (if !rules[0].meets then [labels[0] + rules[0].reason] else []) + Failing(rules[1..], labels[1..])
  }

  /** Each rule lands in exactly one of the two lists. */
  lemma {:induction false} PassingFailingSplit(rules: seq<RuleResult>, labels: seq<string>)
    requires |labels| == |rules|
    ensures |Passing(rules)| + |Failing(rules, labels)| == |rules|
    ensures Failing(rules, labels) == [] <==> forall i :: 0 <= i < |rules| ==> rules[i].meets
    ensures |Passing(rules)| == |rules| <==> forall i :: 0 <= i < |rules| ==> rules[i].meets
    decreases |rules|
  {
    if rules != [] {
      PassingFailingSplit(rules[1..], labels[1..]);
      assert forall i :: 0 <= i < |rules| - 1 ==> rules[1..][i] == rules[i + 1];
      if !rules[0].meets {
        assert |Passing(rules[1..])| <= |rules| - 1;
      }
    }
  }

  const RULE_LABELS := ["Experience: ", "Compensation: ", "Location: "]

  /** `reasons` are the passing rules' reasons and `fail_reasons` the
      failing ones' labelled reasons, both in rule order; eligibility is the
      conjunction of the three rules, which is the same as having no failure
      reason and the same as having three passing reasons. */
  lemma AssessPartition(exp: RuleResult, comp: RuleResult, loc: RuleResult, cj: Json)
    ensures var ev := Assess(exp, comp, loc, cj);
            ev.reasons == Passing([exp, comp, loc]) && ev.failReasons == Failing([exp, comp, loc], RULE_LABELS) &&
            |ev.reasons| + |ev.failReasons| == 3 &&
            (ev.eligible <==> ev.failReasons == []) && (ev.eligible <==> |ev.reasons| == 3)
  {
    var rules := [exp, comp, loc];
    PassingThree(exp, comp, loc);
    FailingThree(exp, comp, loc);
    PassingFailingSplit(rules, RULE_LABELS);
    assert (forall i :: 0 <= i < |rules| ==> rules[i].meets) <==> exp.meets && comp.meets && loc.meets by {
      assert rules[0] == exp && rules[1] == comp && rules[2] == loc;
    }
  }

  lemma PassingThree(exp: RuleResult, comp: RuleResult, loc: RuleResult)
    ensures Passing([exp, comp, loc]) ==
            (if exp.meets then [exp.reason] else []) + (if comp.meets then [comp.reason] else [])
            + (if loc.meets then [loc.reason] else [])
  {
    assert [exp, comp, loc][1..] == [comp, loc] && [comp, loc][1..] == [loc] && [loc][1..] == [];
    assert Passing([loc]) == (if loc.meets then [loc.reason] else []) + Passing([]);
    assert Passing([comp, loc]) == (if comp.meets then [comp.reason] else []) + Passing([loc]);
  }

  lemma FailingThree(exp: RuleResult, comp: RuleResult, loc: RuleResult)
    ensures Failing([exp, comp, loc], RULE_LABELS) ==
            (if !exp.meets then ["Experience: " + exp.reason] else [])
            + (if !comp.meets then ["Compensation: " + comp.reason] else [])
            + (if !loc.meets then ["Location: " + loc.reason] else [])
  {
    assert [exp, comp, loc][1..] == [comp, loc] && [comp, loc][1..] == [loc] && [loc][1..] == [];
    assert RULE_LABELS[1..] == ["Compensation: ", "Location: "] && RULE_LABELS[1..][1..] == ["Location: "];
    assert ["Location: "][1..] == [];
    assert Failing([loc], ["Location: "]) == (if !loc.meets then ["Location: " + loc.reason] else []) + Failing([], []);
    assert Failing([comp, loc], RULE_LABELS[1..]) ==
           (if !comp.meets then ["Compensation: " + comp.reason] else []) + Failing([loc], ["Location: "]);
  }

  /** `evaluate_applicant(applicant)` against the child tables. */
  function EvaluateApplicant(app: Record, personalRows: seq<Record>, expRows: seq<Record>, salaryRows: seq<Record>,
                             codec: Codec, env: Env): Result<Evaluation>
  {
    var cj := SafeGetField(app, "Compressed JSON", JNull);
    if !Truthy(cj) then Ok(Unreadable(NoCompressedJson))
    else if ParseStored(codec, cj).None? then Ok(Unreadable(InvalidJson))
    else
      var exp := EvaluateExperience(LinkedRecords(expRows, app.id), env);
      if exp.Raised? then Raised(exp.exception)
      else
        var comp := EvaluateCompensation(LinkedRecords(salaryRows, app.id), env);
        if comp.Raised? then Raised(comp.exception)
        else
          var loc := EvaluateLocation(LinkedRecords(personalRows, app.id));
          if loc.Raised? then Raised(loc.exception)
          else Ok(Assess(exp.value, comp.value, loc.value, cj))
  }

  /** A missing or unparsable document is reported before any child table
      is looked at: the outcome is the same whatever the tables hold. */
  lemma UnreadableFirst(app: Record, p1: seq<Record>, e1: seq<Record>, s1: seq<Record>,
                        p2: seq<Record>, e2: seq<Record>, s2: seq<Record>, codec: Codec, env: Env)
    requires !Truthy(SafeGetField(app, "Compressed JSON", JNull)) ||
             ParseStored(codec, SafeGetField(app, "Compressed JSON", JNull)).None?
    ensures EvaluateApplicant(app, p1, e1, s1, codec, env) == EvaluateApplicant(app, p2, e2, s2, codec, env)
    ensures EvaluateApplicant(app, p1, e1, s1, codec, env) ==
              Ok(Unreadable(if !Truthy(SafeGetField(app, "Compressed JSON", JNull)) then NoCompressedJson else InvalidJson))
  {
  }

  /** An applicant with a readable document is eligible iff all three rules
      hold on its linked records. */
  lemma EligibleIffAllRules(app: Record, personalRows: seq<Record>, expRows: seq<Record>, salaryRows: seq<Record>,
                            codec: Codec, env: Env)
    requires EvaluateApplicant(app, personalRows, expRows, salaryRows, codec, env).Ok?
    requires EvaluateApplicant(app, personalRows, expRows, salaryRows, codec, env).value.Assessed?
    ensures var expRecs := LinkedRecords(expRows, app.id);
            EvaluateApplicant(app, personalRows, expRows, salaryRows, codec, env).value.eligible <==>
              (ExperienceDays(expRecs, env.parseDate, env.today).value >= MIN_EXPERIENCE_DAYS || HasTier1(expRecs, IsTier1)) &&
              CompensationQualifies(LinkedRecords(salaryRows, app.id), env) &&
              LocationQualifies(LinkedRecords(personalRows, app.id))
  {
    ExperienceRule(LinkedRecords(expRows, app.id), env);
    CompensationRule(LinkedRecords(salaryRows, app.id), env);
  }

  /** `shortlist_applicant`'s result. */
  datatype ShortlistResult = Listed(reasons: seq<string>) | NotListed(reason: string)

  const NOT_SELECTED := "Does not meet criteria"

  /** The evaluation selects the applicant. */
  predicate Selected(ev: Result<Evaluation>) {
    ev.Ok? && ev.value.Assessed? && ev.value.eligible
  }

  /** The message of the `KeyError` raised when a rejection is printed for
      an evaluation that has no `fail_reasons`: the one of an unreadable
      document. */
  const MISSING_FAIL_REASONS := "'fail_reasons'"

  /** What `shortlist_applicant` returns for an evaluation: store failures
      are swallowed, so a selected applicant is always reported shortlisted;
      an unreadable document raises while its rejection is printed. */
  function ShortlistOutcome(ev: Result<Evaluation>): Result<ShortlistResult> {
    if ev.Raised? then Raised(ev.exception)
    else if ev.value.Unreadable? then Raised(MISSING_FAIL_REASONS)
    else if ev.value.eligible then Ok(Listed(ev.value.reasons))
    else Ok(NotListed(NOT_SELECTED))
  }

  /** The fields of the lead record. */
  function LeadFields(id: string, reasons: seq<string>, cj: Json): Fields {
    map[SHORTLIST_LINK_FIELD := JArr([JStr(id)]), "Compressed JSON" := cj, "Score Reason" := JStr(Join(reasons, "\n "))]
  }

  /** The lead written for an evaluation (empty when none is written). */
  function LeadOf(id: string, ev: Result<Evaluation>): Fields {
    if Selected(ev) then LeadFields(id, ev.value.reasons, ev.value.compressedJson) else map[]
  }

  const STATUS_YES: Fields := map["Shortlist Status" := JStr("yes")]

  /** The tables shortlisting writes to, and the store's id counter. */
  datatype Tables = Tables(applicants: seq<Record>, shortlisted: seq<Record>, created: nat)

  /** The writes `shortlist_applicant` makes for an evaluation: a selected
      applicant gets a lead and, unless the lead is refused, the status
      "yes" (a refused status update is swallowed); anything else causes no
      write. */
  function ShortlistWrites(t: Tables, app: Record, ev: Result<Evaluation>, svc: Service): Tables {
    if !Selected(ev) || svc.refusesCreate(Shortlisted, LeadOf(app.id, ev)) then t
    else
      Tables(if svc.refusesUpdate(app.id, STATUS_YES) then t.applicants else Patch(t.applicants, app.id, STATUS_YES),
             t.shortlisted + [Record(MintId(t.created), Some(LeadOf(app.id, ev)))],
             t.created + 1)
  }

  /** `shortlist_applicant(applicant)`: a selected applicant gets a lead and
      then the status "yes"; a refused create skips the status update; a
      rejected applicant causes no write. */
  method ShortlistApplicant(store: Store, app: Record, codec: Codec, env: Env, svc: Service)
    returns (r: Result<ShortlistResult>)
    modifies store
    ensures var ev := EvaluateApplicant(app, old(store.personal), old(store.experience), old(store.salary), codec, env);
            r == ShortlistOutcome(ev)
    ensures var ev := EvaluateApplicant(app, old(store.personal), old(store.experience), old(store.salary), codec, env);
            Tables(store.applicants, store.shortlisted, store.created) ==
              ShortlistWrites(Tables(old(store.applicants), old(store.shortlisted), old(store.created)), app, ev, svc)
    ensures store.personal == old(store.personal) && store.experience == old(store.experience)
    ensures store.salary == old(store.salary)
  {
    var ev := EvaluateApplicant(app, store.personal, store.experience, store.salary, codec, env);
    if ev.Raised? {
      return Raised(ev.exception);
    }
    if !ev.value.Assessed? {
      return Raised(MISSING_FAIL_REASONS);
    }
    if !ev.value.eligible {
      return Ok(NotListed(NOT_SELECTED));
    }
    var lead := LeadFields(app.id, ev.value.reasons, ev.value.compressedJson);
    var created, _ := store.Create(Shortlisted, lead, svc);
    if created {
      if FindRecord(store.applicants, app.id).None? {
        PatchAbsent(store.applicants, app.id, STATUS_YES);
      }
      var _ := store.UpdateApplicant(app.id, STATUS_YES, svc);
    }
    r := Ok(Listed(ev.value.reasons));
  }

  /** The three lists `shortlist_all_applicants` returns. */
  datatype ShortlistReport = ShortlistReport(
    success: seq<(string, seq<string>)>,
    failed: seq<(string, string)>,
    ineligible: seq<(string, string)>)

  /** `safe_get_field(applicant, "Shortlist Status") == "yes"`. */
  predicate AlreadyShortlisted(app: Record) {
    SafeGetField(app, "Shortlist Status", JNull) == JStr("yes")
  }

  /** Files one applicant's result: a rejection whose reason mentions
      "Error" counts as failed, any other as ineligible. */
  function AddOutcome(rep: ShortlistReport, id: string, o: ShortlistResult): ShortlistReport {
    match o
    case Listed(reasons) => rep.(success := rep.success + [(id, reasons)])
    case NotListed(reason) =>
      if Contains(reason, "Error") then rep.(failed := rep.failed + [(id, reason)])
      else rep.(ineligible := rep.ineligible + [(id, reason)])
  }

  /** Each applicant's evaluation against the given child tables. */
  function Evaluations(personalRows: seq<Record>, expRows: seq<Record>, salaryRows: seq<Record>,
                       codec: Codec, env: Env): Record -> Result<Evaluation>
  {
    app => EvaluateApplicant(app, personalRows, expRows, salaryRows, codec, env)
  }

  /** What `shortlist_applicant` gives each applicant, `evals` giving its
      evaluation. */
  function OutcomesOf(evals: Record -> Result<Evaluation>): Record -> Result<ShortlistResult> {
    app => ShortlistOutcome(evals(app))
  }

  /** What `shortlist_applicant` gives each applicant of the listing,
      against the given child tables. */
  function Outcomes(personalRows: seq<Record>, expRows: seq<Record>, salaryRows: seq<Record>,
                    codec: Codec, env: Env): Record -> Result<ShortlistResult>
  {
    OutcomesOf(Evaluations(personalRows, expRows, salaryRows, codec, env))
  }

  /** The report over the listing `apps`, `outcome` giving each applicant's
      result; the first exception propagates. */
  function ShortlistAllReport(apps: seq<Record>, outcome: Record -> Result<ShortlistResult>): Result<ShortlistReport>
  {
    if apps == [] then Ok(ShortlistReport([], [], []))
    else
      var prev := ShortlistAllReport(apps[..|apps| - 1], outcome);
      var app := apps[|apps| - 1];
      if prev.Raised? || AlreadyShortlisted(app) then prev
      else if outcome(app).Raised? then Raised(outcome(app).exception)
      else Ok(AddOutcome(prev.value, app.id, outcome(app).value))
  }

  lemma ShortlistAllReportStep(apps: seq<Record>, i: nat, outcome: Record -> Result<ShortlistResult>)
    requires i < |apps|
    ensures var prev := ShortlistAllReport(apps[..i], outcome);
            ShortlistAllReport(apps[..i + 1], outcome) ==
              if prev.Raised? || AlreadyShortlisted(apps[i]) then prev
              else if outcome(apps[i]).Raised? then Raised(outcome(apps[i]).exception)
              else Ok(AddOutcome(prev.value, apps[i].id, outcome(apps[i]).value))
  {
    assert apps[..i + 1][..i] == apps[..i];
  }

  /** Once the batch has raised, later applicants change nothing. */
  lemma {:induction false} RaisedStays(apps: seq<Record>, i: nat, j: nat, outcome: Record -> Result<ShortlistResult>)
    requires i <= j <= |apps|
    requires ShortlistAllReport(apps[..i], outcome).Raised?
    ensures ShortlistAllReport(apps[..j], outcome) == ShortlistAllReport(apps[..i], outcome)
    decreases j
  {
    if j > i {
      RaisedStays(apps, i, j - 1, outcome);
      ShortlistAllReportStep(apps, j - 1, outcome);
    }
  }

  /** How many applicants of the listing are already shortlisted. */
  function CountAlready(apps: seq<Record>): nat {
    if apps == [] then 0
    else CountAlready(apps[..|apps| - 1]) + (if AlreadyShortlisted(apps[|apps| - 1]) then 1 else 0)
  }

  /** "Does not meet criteria" does not contain "Error". */
  lemma NoErrorInRejection()
    ensures !Contains(NOT_SELECTED, "Error")
  {
    var s := NOT_SELECTED;
    forall i | 0 <= i <= |s| ensures !StartsWith(s[i..], "Error") {
      if i + 5 <= |s| {
        assert s[i..][..5] != "Error" by {
          assert s[i..][0] == s[i] && s[i] != 'E';
        }
      }
    }
    NotContains(s, "Error");
  }

  /** A text in which the pattern starts nowhere does not contain it. */
  lemma {:induction false} NotContains(s: string, t: string)
    requires forall i :: 0 <= i <= |s| ==> !StartsWith(s[i..], t)
    ensures !Contains(s, t)
    decreases |s|
  {
    assert s[0..] == s;
    if s != [] {
      forall i | 0 <= i <= |s[1..]| ensures !StartsWith(s[1..][i..], t) {
        assert s[1..][i..] == s[i + 1..];
      }
      NotContains(s[1..], t);
    }
  }

  /** `shortlist_applicant` never reports an error: it either shortlists or
      rejects with "Does not meet criteria", which does not contain "Error". */
  lemma OutcomeNeverFailed(ev: Result<Evaluation>)
    ensures ShortlistOutcome(ev).Ok? && ShortlistOutcome(ev).value.NotListed? ==>
              ShortlistOutcome(ev).value.reason == NOT_SELECTED && !Contains(NOT_SELECTED, "Error")
  {
    NoErrorInRejection();
  }

  /** The batch raises iff some applicant not yet shortlisted has a result
      that raises. */
  lemma {:induction false} ShortlistAllRaises(apps: seq<Record>, outcome: Record -> Result<ShortlistResult>)
    ensures ShortlistAllReport(apps, outcome).Raised? <==>
              exists k :: 0 <= k < |apps| && !AlreadyShortlisted(apps[k]) && outcome(apps[k]).Raised?
    decreases |apps|
  {
    if apps != [] {
      var init := apps[..|apps| - 1];
      ShortlistAllRaises(init, outcome);
      if ShortlistAllReport(init, outcome).Raised? {
        var k :| 0 <= k < |init| && !AlreadyShortlisted(init[k]) && outcome(init[k]).Raised?;
        assert apps[k] == init[k];
      } else if exists k :: 0 <= k < |apps| && !AlreadyShortlisted(apps[k]) && outcome(apps[k]).Raised? {
        var k :| 0 <= k < |apps| && !AlreadyShortlisted(apps[k]) && outcome(apps[k]).Raised?;
        if k < |init| {
          assert init[k] == apps[k];
        }
      }
    }
  }

  /** A shortlisting result raises iff the evaluation raises or finds the
      document unreadable. */
  lemma OutcomeRaises(app: Record, personalRows: seq<Record>, expRows: seq<Record>, salaryRows: seq<Record>,
                      codec: Codec, env: Env)
    ensures var ev := EvaluateApplicant(app, personalRows, expRows, salaryRows, codec, env);
            Outcomes(personalRows, expRows, salaryRows, codec, env)(app).Raised? <==>
              ev.Raised? || ev.value.Unreadable?
  {
    assert Outcomes(personalRows, expRows, salaryRows, codec, env)(app) ==
           ShortlistOutcome(EvaluateApplicant(app, personalRows, expRows, salaryRows, codec, env));
  }

  /** An applicant not yet shortlisted whose document is missing or does not
      parse makes the whole batch raise. */
  lemma UnreadableStopsBatch(apps: seq<Record>, personalRows: seq<Record>, expRows: seq<Record>,
                             salaryRows: seq<Record>, codec: Codec, env: Env, k: nat)
    requires k < |apps| && !AlreadyShortlisted(apps[k])
    requires !Truthy(SafeGetField(apps[k], "Compressed JSON", JNull)) ||
             ParseStored(codec, SafeGetField(apps[k], "Compressed JSON", JNull)).None?
    ensures ShortlistAllReport(apps, Outcomes(personalRows, expRows, salaryRows, codec, env)).Raised?
  {
    UnreadableFirst(apps[k], personalRows, expRows, salaryRows, personalRows, expRows, salaryRows, codec, env);
    ShortlistAllRaises(apps, Outcomes(personalRows, expRows, salaryRows, codec, env));
  }

  /** Where an applicant's result is filed: a listed one in `success` with
      its reasons, a rejection in `failed` when its reason mentions "Error"
      and in `ineligible` otherwise. */
  predicate FiledAs(rep: ShortlistReport, id: string, o: ShortlistResult) {
    match o
    case Listed(reasons) => (id, reasons) in rep.success
    case NotListed(reason) =>
      if Contains(reason, "Error") then (id, reason) in rep.failed else (id, reason) in rep.ineligible
  }

  /** Without an exception, every applicant not yet shortlisted lands in
      exactly one list, where its result says, and every entry of the lists
      comes from such an applicant: the ones already shortlisted are in
      none. */
  lemma ShortlistAllPartition(apps: seq<Record>, outcome: Record -> Result<ShortlistResult>)
    ensures var r := ShortlistAllReport(apps, outcome);
            r.Ok? ==> |r.value.success| + |r.value.failed| + |r.value.ineligible| + CountAlready(apps) == |apps|
    ensures var r := ShortlistAllReport(apps, outcome);
            r.Ok? ==> forall k :: 0 <= k < |apps| && !AlreadyShortlisted(apps[k]) ==>
                        outcome(apps[k]).Ok? && FiledAs(r.value, apps[k].id, outcome(apps[k]).value)
    ensures var r := ShortlistAllReport(apps, outcome);
            r.Ok? ==> forall e :: e in r.value.success ==>
                        exists k :: 0 <= k < |apps| && !AlreadyShortlisted(apps[k]) && apps[k].id == e.0 &&
                                    outcome(apps[k]) == Ok(Listed(e.1))
    ensures var r := ShortlistAllReport(apps, outcome);
            r.Ok? ==> forall e :: e in r.value.failed + r.value.ineligible ==>
                        exists k :: 0 <= k < |apps| && !AlreadyShortlisted(apps[k]) && apps[k].id == e.0 &&
                                    outcome(apps[k]) == Ok(NotListed(e.1)) &&
                                    (e in r.value.failed <==> Contains(e.1, "Error"))
  {
    ShortlistAllCounts(apps, outcome);
    ShortlistAllFiled(apps, outcome);
    ShortlistAllListedFrom(apps, outcome);
    ShortlistAllRejectedFrom(apps, outcome);
  }

  /** The three lists and the applicants already shortlisted account for
      the whole listing. */
  lemma {:induction false} ShortlistAllCounts(apps: seq<Record>, outcome: Record -> Result<ShortlistResult>)
    ensures var r := ShortlistAllReport(apps, outcome);
            r.Ok? ==> |r.value.success| + |r.value.failed| + |r.value.ineligible| + CountAlready(apps) == |apps|
    decreases |apps|
  {
    if apps != [] {
      ShortlistAllCounts(apps[..|apps| - 1], outcome);
    }
  }

  /** Every applicant not yet shortlisted is filed where its result says. */
  lemma {:induction false} ShortlistAllFiled(apps: seq<Record>, outcome: Record -> Result<ShortlistResult>)
    ensures var r := ShortlistAllReport(apps, outcome);
            r.Ok? ==> forall k :: 0 <= k < |apps| && !AlreadyShortlisted(apps[k]) ==>
                        outcome(apps[k]).Ok? && FiledAs(r.value, apps[k].id, outcome(apps[k]).value)
    decreases |apps|
  {
    if apps != [] {
      var init := apps[..|apps| - 1];
      var last := apps[|apps| - 1];
      ShortlistAllFiled(init, outcome);
      var prev := ShortlistAllReport(init, outcome);
      var r := ShortlistAllReport(apps, outcome);
      if r.Ok? {
        assert prev.Ok?;
        assert forall k :: 0 <= k < |init| ==> init[k] == apps[k];
        if !AlreadyShortlisted(last) {
          var o := outcome(last).value;
          assert r.value == AddOutcome(prev.value, last.id, o);
          assert FiledAs(r.value, last.id, o);
          forall k | 0 <= k < |init| && !AlreadyShortlisted(apps[k])
            ensures FiledAs(r.value, apps[k].id, outcome(apps[k]).value)
          {
            assert FiledAs(prev.value, init[k].id, outcome(init[k]).value);
          }
        }
      }
    }
  }

  /** Every entry of `success` comes from an applicant that was listed. */
  lemma {:induction false} ShortlistAllListedFrom(apps: seq<Record>, outcome: Record -> Result<ShortlistResult>)
    ensures var r := ShortlistAllReport(apps, outcome);
            r.Ok? ==> forall e :: e in r.value.success ==>
                        exists k :: 0 <= k < |apps| && !AlreadyShortlisted(apps[k]) && apps[k].id == e.0 &&
                                    outcome(apps[k]) == Ok(Listed(e.1))
    decreases |apps|
  {
    if apps != [] {
      var init := apps[..|apps| - 1];
      ShortlistAllListedFrom(init, outcome);
      var r := ShortlistAllReport(apps, outcome);
      if r.Ok? {
        assert forall k :: 0 <= k < |init| ==> init[k] == apps[k];
      }
    }
  }

  /** Every entry of `failed` or `ineligible` comes from an applicant that
      was turned down, and sits in `failed` exactly when its reason
      mentions "Error". */
  lemma {:induction false} ShortlistAllRejectedFrom(apps: seq<Record>, outcome: Record -> Result<ShortlistResult>)
    ensures var r := ShortlistAllReport(apps, outcome);
            r.Ok? ==> forall e :: e in r.value.failed + r.value.ineligible ==>
                        exists k :: 0 <= k < |apps| && !AlreadyShortlisted(apps[k]) && apps[k].id == e.0 &&
                                    outcome(apps[k]) == Ok(NotListed(e.1)) &&
                                    (e in r.value.failed <==> Contains(e.1, "Error"))
    decreases |apps|
  {
    if apps != [] {
      var init := apps[..|apps| - 1];
      ShortlistAllRejectedFrom(init, outcome);
      var r := ShortlistAllReport(apps, outcome);
      if r.Ok? {
        assert forall k :: 0 <= k < |init| ==> init[k] == apps[k];
      }
    }
  }

  /** The `failed` list of `shortlist_all_applicants` is always empty: a
      rejection only ever carries "Does not meet criteria". */
  lemma {:induction false} ShortlistNeverFails(apps: seq<Record>, personalRows: seq<Record>, expRows: seq<Record>,
                                               salaryRows: seq<Record>, codec: Codec, env: Env)
    ensures var r := ShortlistAllReport(apps, Outcomes(personalRows, expRows, salaryRows, codec, env));
            r.Ok? ==> r.value.failed == []
    decreases |apps|
  {
    if apps != [] {
      var last := apps[|apps| - 1];
      ShortlistNeverFails(apps[..|apps| - 1], personalRows, expRows, salaryRows, codec, env);
      OutcomeNeverFailed(EvaluateApplicant(last, personalRows, expRows, salaryRows, codec, env));
    }
  }

  /** Shortlisting one applicant keeps the applicants' ids and only adds
      leads. */
  lemma WritesKeepIds(t: Tables, app: Record, ev: Result<Evaluation>, svc: Service)
    ensures SameIds(ShortlistWrites(t, app, ev, svc).applicants, t.applicants)
    ensures t.shortlisted <= ShortlistWrites(t, app, ev, svc).shortlisted
  {
    forall x ensures FindRecord(ShortlistWrites(t, app, ev, svc).applicants, x).Some? == FindRecord(t.applicants, x).Some? {
      PatchKeepsIds(t.applicants, app.id, STATUS_YES, x);
    }
  }

  /** The tables after the batch over the listing `apps`, starting from
      `t0`, `evals` giving each applicant's evaluation: each applicant not
      yet shortlisted gets the writes of its evaluation, until the first
      exception. */
  function ShortlistAllTables(apps: seq<Record>, evals: Record -> Result<Evaluation>, svc: Service, t0: Tables): Tables {
    if apps == [] then t0
    else
      var init := apps[..|apps| - 1];
      var prev := ShortlistAllTables(init, evals, svc, t0);
      var app := apps[|apps| - 1];
      if ShortlistAllReport(init, OutcomesOf(evals)).Raised? || AlreadyShortlisted(app) then prev
      else ShortlistWrites(prev, app, evals(app), svc)
  }

  lemma ShortlistAllTablesStep(apps: seq<Record>, i: nat, evals: Record -> Result<Evaluation>, svc: Service, t0: Tables)
    requires i < |apps|
    ensures var prev := ShortlistAllTables(apps[..i], evals, svc, t0);
            ShortlistAllTables(apps[..i + 1], evals, svc, t0) ==
              if ShortlistAllReport(apps[..i], OutcomesOf(evals)).Raised? || AlreadyShortlisted(apps[i]) then prev
              else ShortlistWrites(prev, apps[i], evals(apps[i]), svc)
  {
    assert apps[..i + 1][..i] == apps[..i];
  }

  /** Once the batch has raised, later applicants write nothing. */
  lemma RaisedWritesNothing(apps: seq<Record>, i: nat, evals: Record -> Result<Evaluation>,
                            svc: Service, t0: Tables)
    requires i <= |apps|
    requires ShortlistAllReport(apps[..i], OutcomesOf(evals)).Raised?
    ensures ShortlistAllTables(apps, evals, svc, t0) == ShortlistAllTables(apps[..i], evals, svc, t0)
  {
    RaisedWritesNothingUpTo(apps, i, |apps|, evals, svc, t0);
    PrefixAll(apps);
  }

  lemma {:induction false} RaisedWritesNothingUpTo(apps: seq<Record>, i: nat, j: nat,
                                                   evals: Record -> Result<Evaluation>, svc: Service, t0: Tables)
    requires i <= j <= |apps|
    requires ShortlistAllReport(apps[..i], OutcomesOf(evals)).Raised?
    ensures ShortlistAllTables(apps[..j], evals, svc, t0) == ShortlistAllTables(apps[..i], evals, svc, t0)
    decreases j
  {
    if j > i {
      RaisedWritesNothingUpTo(apps, i, j - 1, evals, svc, t0);
      RaisedStays(apps, i, j - 1, OutcomesOf(evals));
      ShortlistAllTablesStep(apps, j - 1, evals, svc, t0);
    }
  }

  /** The record is a lead linked to the applicant `id` whose score reason
      joins `reasons`. */
  predicate LeadFor(lead: Record, id: string, reasons: seq<string>) {
    lead.fields.Some? && SHORTLIST_LINK_FIELD in lead.fields.value && "Score Reason" in lead.fields.value &&
    lead.fields.value[SHORTLIST_LINK_FIELD] == JArr([JStr(id)]) &&
    lead.fields.value["Score Reason"] == JStr(Join(reasons, "\n "))
  }

  /** The leads `t` holds beyond those of `t0` are one per entry of
      `succ`, in the same order, each under the next minted id, linked to
      its applicant and carrying its reasons. */
  predicate LeadsMatch(t: Tables, succ: seq<(string, seq<string>)>, t0: Tables) {
    |t.shortlisted| == |t0.shortlisted| + |succ| && t.created == t0.created + |succ| &&
    t.shortlisted[..|t0.shortlisted|] == t0.shortlisted &&
    forall i :: 0 <= i < |succ| ==> LeadAt(t, succ, t0, i)
  }

  /** The `i`-th lead beyond those of `t0` has the `i`-th minted id and
      belongs to the `i`-th entry of `succ`. */
  predicate LeadAt(t: Tables, succ: seq<(string, seq<string>)>, t0: Tables, i: nat)
    requires i < |succ| && |t.shortlisted| == |t0.shortlisted| + |succ|
  {
    t.shortlisted[|t0.shortlisted| + i].id == MintId(t0.created + i) &&
    LeadFor(t.shortlisted[|t0.shortlisted| + i], succ[i].0, succ[i].1)
  }

  lemma PrefixOfAppend<T>(s: seq<T>, x: T, n: nat)
    requires n <= |s|
    ensures (s + [x])[..n] == s[..n]
  {
  }

  /** One applicant keeps the leads in step with the `success` list when
      its lead is accepted. */
  lemma LeadStep(t: Tables, rep: ShortlistReport, app: Record, ev: Result<Evaluation>, svc: Service, t0: Tables)
    requires LeadsMatch(t, rep.success, t0)
    requires ShortlistOutcome(ev).Ok? && !svc.refusesCreate(Shortlisted, LeadOf(app.id, ev))
    ensures LeadsMatch(ShortlistWrites(t, app, ev, svc), AddOutcome(rep, app.id, ShortlistOutcome(ev).value).success, t0)
  {
    var after := ShortlistWrites(t, app, ev, svc);
    var succ := AddOutcome(rep, app.id, ShortlistOutcome(ev).value).success;
    if Selected(ev) {
      assert after.shortlisted == t.shortlisted + [Record(MintId(t.created), Some(LeadOf(app.id, ev)))];
      assert succ == rep.success + [(app.id, ev.value.reasons)];
      var n := |t0.shortlisted|;
      assert |after.shortlisted| == n + |succ|;
      forall i | 0 <= i < |succ|
        ensures LeadAt(after, succ, t0, i)
      {
        if i < |rep.success| {
          assert LeadAt(t, rep.success, t0, i);
          assert after.shortlisted[n + i] == t.shortlisted[n + i] && succ[i] == rep.success[i];
        } else {
          assert after.shortlisted[n + i] == Record(MintId(t.created), Some(LeadOf(app.id, ev)));
          assert i == |rep.success| && |succ| == |rep.success| + 1;
          assert succ[i] == (app.id, ev.value.reasons);
        }
      }
      PrefixOfAppend(t.shortlisted, Record(MintId(t.created), Some(LeadOf(app.id, ev))), n);
      assert after.shortlisted[..n] == t0.shortlisted;
      assert after.created == t0.created + |succ|;
    } else {
      assert succ == rep.success;
    }
  }

  /** When every lead is accepted and the batch completes, the leads added
      match the `success` list. */
  lemma {:induction false} LeadsFollowSuccesses(apps: seq<Record>, evals: Record -> Result<Evaluation>, svc: Service,
                                                t0: Tables)
    requires forall f :: !svc.refusesCreate(Shortlisted, f)
    requires ShortlistAllReport(apps, OutcomesOf(evals)).Ok?
    ensures LeadsMatch(ShortlistAllTables(apps, evals, svc, t0), ShortlistAllReport(apps, OutcomesOf(evals)).value.success, t0)
    decreases |apps|
  {
    if apps == [] {
      assert t0.shortlisted[..|t0.shortlisted|] == t0.shortlisted;
    } else {
      var init := apps[..|apps| - 1];
      var app := apps[|apps| - 1];
      assert ShortlistAllReport(init, OutcomesOf(evals)).Ok?;
      LeadsFollowSuccesses(init, evals, svc, t0);
      if !AlreadyShortlisted(app) {
        assert OutcomesOf(evals)(app) == ShortlistOutcome(evals(app));
        LeadStep(ShortlistAllTables(init, evals, svc, t0), ShortlistAllReport(init, OutcomesOf(evals)).value,
                 app, evals(app), svc, t0);
      }
    }
  }

  /** `shortlist_all_applicants()`: evaluates every applicant of the listing
      whose status is not already "yes", against the child tables, which it
      never changes. */
  method ShortlistAllApplicants(store: Store, codec: Codec, env: Env, svc: Service)
    returns (r: Result<ShortlistReport>)
    modifies store
    ensures r == ShortlistAllReport(old(store.applicants),
                                    Outcomes(old(store.personal), old(store.experience), old(store.salary), codec, env))
    ensures Tables(store.applicants, store.shortlisted, store.created) ==
              ShortlistAllTables(old(store.applicants),
                                 Evaluations(old(store.personal), old(store.experience), old(store.salary), codec, env),
                                 svc, Tables(old(store.applicants), old(store.shortlisted), old(store.created)))
    ensures SameIds(store.applicants, old(store.applicants))
    ensures old(store.shortlisted) <= store.shortlisted
    ensures store.personal == old(store.personal) && store.experience == old(store.experience)
    ensures store.salary == old(store.salary)
  {
    var apps := store.GetAllApplicants();
    var report := ShortlistReport([], [], []);
    ghost var evals := Evaluations(store.personal, store.experience, store.salary, codec, env);
    ghost var outcome := OutcomesOf(evals);
    ghost var t0 := Tables(store.applicants, store.shortlisted, store.created);
    var i := 0;
    while i < |apps|
      invariant 0 <= i <= |apps|
      invariant ShortlistAllReport(apps[..i], outcome) == Ok(report)
      invariant Tables(store.applicants, store.shortlisted, store.created) ==
                  ShortlistAllTables(apps[..i], evals, svc, t0)
      invariant SameIds(store.applicants, apps)
      invariant old(store.shortlisted) <= store.shortlisted
      invariant store.personal == old(store.personal) && store.experience == old(store.experience)
      invariant store.salary == old(store.salary)
    {
      var app := apps[i];
      ShortlistAllReportStep(apps, i, outcome);
      ShortlistAllTablesStep(apps, i, evals, svc, t0);
      if AlreadyShortlisted(app) {
        i := i + 1;
        continue;
      }
      ghost var before := Tables(store.applicants, store.shortlisted, store.created);
      assert evals(app) == EvaluateApplicant(app, store.personal, store.experience, store.salary, codec, env);
      var res := ShortlistApplicant(store, app, codec, env, svc);
      WritesKeepIds(before, app, evals(app), svc);
      assert res == outcome(app);
      match res {
        case Raised(e) =>
          r := Raised(e);
          RaisedStays(apps, i + 1, |apps|, outcome);
          RaisedWritesNothing(apps, i + 1, evals, svc, t0);
          PrefixAll(apps);
          return;
        case Ok(Listed(reasons)) =>
          report := report.(success := report.success + [(app.id, reasons)]);
          i := i + 1;
        case Ok(NotListed(reason)) =>
          if Contains(reason, "Error") {
            report := report.(failed := report.failed + [(app.id, reason)]);
            i := i + 1;
            continue;
          }
          report := report.(ineligible := report.ineligible + [(app.id, reason)]);
          i := i + 1;
      }
    }
    PrefixAll(apps);
    r := Ok(report);
  }
}
