/** utils/helpers.py: the defaulting field lookup, the experience-days
    calculator and the retry-with-backoff loop. */
module Helpers {
  import opened Wrappers
  import opened Values

  /** `safe_get_field(record, name, default)`: the stored value when the
      record has a fields map holding `name`, else `default`. A stored JSON
      null is returned as it is: only an absent key falls back. */
  function SafeGetField(r: Record, name: string, default: Json): (v: Json)
    ensures (r.fields.None? || name !in r.fields.value) ==> v == default
    ensures r.fields.Some? && name in r.fields.value ==> v == r.fields.value[name]
  {
    Lookup(FieldsOf(r), name, default)
  }

  /** `parse_date_safe(value)`: a falsy value is no date; a string is handed to
      the date parser `parse` (a day number, or None when the text is not a
      date); any other value makes the parser raise, which is caught. */
  function ParseDateSafe(v: Json, parse: string -> Option<int>): (d: Option<int>)
    ensures !Truthy(v) ==> d.None?
    ensures d.Some? ==> v.JStr? && parse(v.s) == d
  {
    if !Truthy(v) then None
    else if v.JStr? then parse(v.s)
    else None
  }

  /** The exception raised by `end_date >= start_date` when `end_date` is None. */
  const COMPARE_NONE_ERROR := "'>=' not supported between instances of 'NoneType' and 'datetime.date'"

  /** What one work-experience record adds to `total_days`. */
  function Contribution(rec: Record, parse: string -> Option<int>, today: int): (c: Result<nat>)
    ensures c.Raised? ==> c.exception == COMPARE_NONE_ERROR
  {
    var start := ParseDateSafe(SafeGetField(rec, "Start", JNull), parse);
    if start.None? then Ok(0)
    else
      var endField := SafeGetField(rec, "End", JNull);
      var endDate := if Truthy(endField) then ParseDateSafe(endField, parse) else Some(today);
      if endDate.None? then Raised(COMPARE_NONE_ERROR)
      else if endDate.value >= start.value then Ok(endDate.value - start.value)
      else Ok(0)
  }

  /** How one record contributes: skipped without a usable Start, counted up
      to today without an End, and raising on an End that does not parse. */
  lemma ContributionCases(rec: Record, parse: string -> Option<int>, today: int)
    // no usable Start: the record is skipped and the loop goes on
    ensures ParseDateSafe(SafeGetField(rec, "Start", JNull), parse).None? ==> Contribution(rec, parse, today) == Ok(0)
    // an empty or missing End counts the role up to today
    ensures ParseDateSafe(SafeGetField(rec, "Start", JNull), parse).Some? &&
            !Truthy(SafeGetField(rec, "End", JNull)) ==>
              var start := ParseDateSafe(SafeGetField(rec, "Start", JNull), parse).value;
              Contribution(rec, parse, today) == Ok(if today >= start then today - start else 0)
    // a non-empty End that does not parse raises
    ensures Contribution(rec, parse, today).Raised? <==>
              ParseDateSafe(SafeGetField(rec, "Start", JNull), parse).Some? &&
              Truthy(SafeGetField(rec, "End", JNull)) &&
              ParseDateSafe(SafeGetField(rec, "End", JNull), parse).None?
  {
  }

  /** Adds two partial totals; an exception wins (and they all carry the
      same message). */
  function Add(a: Result<nat>, b: Result<nat>): Result<nat> {
    if a.Raised? then a else if b.Raised? then b else Ok(a.value + b.value)
  }

  /** `total_days` after the loop of `calculate_experience_years` over `recs`
      (the source divides it by 365.25 to get years). */
  function ExperienceDays(recs: seq<Record>, parse: string -> Option<int>, today: int): (r: Result<nat>)
    ensures recs == [] ==> r == Ok(0)
    ensures r.Raised? ==> r.exception == COMPARE_NONE_ERROR
  {
    if recs == [] then Ok(0)
    else Add(ExperienceDays(recs[..|recs| - 1], parse, today), Contribution(recs[|recs| - 1], parse, today))
  }

  /** The total is the plain sum over the records: no overlap is removed. */
  lemma {:induction false} ExperienceDaysConcat(a: seq<Record>, b: seq<Record>, parse: string -> Option<int>, today: int)
    ensures ExperienceDays(a + b, parse, today) ==
            Add(ExperienceDays(a, parse, today), ExperienceDays(b, parse, today))
    decreases |b|
  {
    if b == [] {
      assert a + b == a;
    } else {
      var b', x := b[..|b| - 1], b[|b| - 1];
      var ab := a + b;
      assert ab[..|ab| - 1] == a + b';
      assert ab[|ab| - 1] == x;
      var c := Contribution(x, parse, today);
      assert ExperienceDays(ab, parse, today) == Add(ExperienceDays(a + b', parse, today), c);
      assert ExperienceDays(b, parse, today) == Add(ExperienceDays(b', parse, today), c);
      ExperienceDaysConcat(a, b', parse, today);
    }
  }

  lemma ExperienceDaysSingle(x: Record, parse: string -> Option<int>, today: int)
    ensures ExperienceDays([x], parse, today) == Contribution(x, parse, today)
  {
    assert [x][..0] == [];
  }

  /** The order of the records does not matter. */
  lemma ExperienceDaysSwap(a: seq<Record>, b: seq<Record>, parse: string -> Option<int>, today: int)
    ensures ExperienceDays(a + b, parse, today) == ExperienceDays(b + a, parse, today)
  {
    ExperienceDaysConcat(a, b, parse, today);
    ExperienceDaysConcat(b, a, parse, today);
  }

  /** Adding a record anywhere never decreases the total, and a record with
      an unusable Start changes nothing. */
  lemma ExperienceDaysGrows(a: seq<Record>, x: Record, b: seq<Record>, parse: string -> Option<int>, today: int)
    requires ExperienceDays(a + [x] + b, parse, today).Ok?
    ensures ExperienceDays(a + b, parse, today).Ok?
    ensures ExperienceDays(a + b, parse, today).value <= ExperienceDays(a + [x] + b, parse, today).value
    ensures ParseDateSafe(SafeGetField(x, "Start", JNull), parse).None? ==>
              ExperienceDays(a + b, parse, today) == ExperienceDays(a + [x] + b, parse, today)
  {
    ExperienceDaysConcat(a + [x], b, parse, today);
    ExperienceDaysConcat(a, [x], parse, today);
    ExperienceDaysConcat(a, b, parse, today);
    ExperienceDaysSingle(x, parse, today);
  }

  /** One record with a parsable Start and a non-empty, unparsable End makes
      the whole calculation raise, wherever it stands. */
  lemma BadEndRaises(a: seq<Record>, x: Record, b: seq<Record>, parse: string -> Option<int>, today: int)
    requires ParseDateSafe(SafeGetField(x, "Start", JNull), parse).Some?
    requires Truthy(SafeGetField(x, "End", JNull))
    requires ParseDateSafe(SafeGetField(x, "End", JNull), parse).None?
    ensures ExperienceDays(a + [x] + b, parse, today).Raised?
  {
    ExperienceDaysConcat(a + [x], b, parse, today);
    ExperienceDaysConcat(a, [x], parse, today);
    ExperienceDaysSingle(x, parse, today);
  }

  /** One more record adds its contribution to the running total. */
  lemma ExperienceDaysStep(recs: seq<Record>, i: nat, parse: string -> Option<int>, today: int)
    requires i < |recs|
    ensures ExperienceDays(recs[..i + 1], parse, today) ==
              Add(ExperienceDays(recs[..i], parse, today), Contribution(recs[i], parse, today))
  {
    PrefixStep(recs, i);
  }

  /** Once a prefix raises, the whole calculation raises the same way. */
  lemma ExperienceDaysRaisedStays(recs: seq<Record>, n: nat, parse: string -> Option<int>, today: int)
    requires n <= |recs|
    requires ExperienceDays(recs[..n], parse, today).Raised?
    ensures ExperienceDays(recs, parse, today) == ExperienceDays(recs[..n], parse, today)
  {
    assert recs == recs[..n] + recs[n..];
    ExperienceDaysConcat(recs[..n], recs[n..], parse, today);
  }

  /** The loop of `calculate_experience_years`, returning `total_days`. */
  method CalculateExperienceDays(recs: seq<Record>, parse: string -> Option<int>, today: int)
    returns (r: Result<nat>)
    ensures r == ExperienceDays(recs, parse, today)
  {
    var total: nat := 0;
    var i := 0;
    while i < |recs|
      invariant 0 <= i <= |recs|
      invariant ExperienceDays(recs[..i], parse, today) == Ok(total)
    {
      ExperienceDaysStep(recs, i, parse, today);
      // the body of the loop for one record
      var c := Contribution(recs[i], parse, today);
      if c.Raised? {
        r := c;
        ExperienceDaysRaisedStays(recs, i + 1, parse, today);
        return;
      }
      total := total + c.value;
      i := i + 1;
    }
    PrefixAll(recs);
    r := Ok(total);
  }

  /** One call of the wrapped function: it returns a value or raises. */
  datatype Attempt<T> = Returned(value: T) | Threw(error: string)

  /** What the wrapper of `retry_with_backoff` ends with: a value, the last
      attempt's exception re-raised, or None when no attempt was made. */
  datatype Retried<T> = Gave(value: T) | Reraised(error: string) | NoResult

  function Pow(b: int, e: nat): int {
    if e == 0 then 1 else b * Pow(b, e - 1)
  }

  /** The waits after failed attempts 0 .. n-1: `backoff_factor ** attempt`. */
  function Waits(factor: int, n: nat): (w: seq<int>)
    ensures |w| == n && forall j :: 0 <= j < n ==> w[j] == Pow(factor, j)
  {
    if n == 0 then [] else Waits(factor, n - 1) + [Pow(factor, n - 1)]
  }

  ghost predicate ThrewBefore<T>(call: nat -> Attempt<T>, k: nat) {
    forall j :: 0 <= j < k ==> call(j).Threw?
  }

  /** `retry_with_backoff(max_retries, backoff_factor)` applied to a function
      whose attempt number `k` behaves as `call(k)`. The waits (the source
      sleeps for them) are returned instead of slept. */
  method RetryWithBackoff<T(==)>(maxRetries: int, backoffFactor: int, call: nat -> Attempt<T>)
    returns (r: Retried<T>, waits: seq<int>)
    // no attempt at all when max_retries <= 0
    ensures r.NoResult? <==> maxRetries <= 0
    ensures r.NoResult? ==> waits == []
    // the first successful attempt's value, after at most max_retries calls
    ensures r.Gave? ==> exists k :: 0 <= k < maxRetries && ThrewBefore(call, k) &&
                                    call(k) == Returned(r.value) && waits == Waits(backoffFactor, k)
    // every attempt failed: the last one's exception propagates
    ensures r.Reraised? ==> maxRetries >= 1 && ThrewBefore(call, maxRetries) &&
                            call(maxRetries - 1) == Threw(r.error) &&
                            waits == Waits(backoffFactor, maxRetries - 1)
  {
    waits := [];
    var attempt := 0;
    while attempt < maxRetries
      invariant 0 <= attempt && (maxRetries >= 1 ==> attempt <= maxRetries - 1)
      invariant maxRetries <= 0 ==> attempt == 0
      invariant ThrewBefore(call, attempt)
      invariant waits == Waits(backoffFactor, attempt)
    {
      var outcome := call(attempt);
      if outcome.Returned? {
        r := Gave(outcome.value);
        return;
      }
      if attempt == maxRetries - 1 {
        r := Reraised(outcome.error);
        return;
      }
      waits := waits + [Pow(backoffFactor, attempt)];
      attempt := attempt + 1;
    }
    r := NoResult;
  }
}
