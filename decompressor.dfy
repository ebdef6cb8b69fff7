/** processors/decompressor.py: turning an applicant's compressed document
    back into personal, experience and salary records. */
module Decompressor {
  import opened Wrappers
  import opened Values
  import opened Helpers
  import opened Airtable
  import opened Compressor

  /** The field maps of the `_create_*` methods: the compressor's rules read
      backwards, with the same keep conditions. */
  function Inverse(rules: seq<Rule>): seq<Rule> {
    seq(|rules|, i requires 0 <= i < |rules| => Rule(rules[i].target, rules[i].source, rules[i].keep))
  }

  /** One rule of a projection: its target is present exactly when the rule
      keeps its source, with the source's value. */
  lemma ProjectAt(src: Fields, rules: seq<Rule>, i: nat)
    requires DistinctTargets(rules) && i < |rules|
    ensures rules[i].target in Project(src, rules) <==> Kept(rules[i], src)
    ensures Kept(rules[i], src) ==> Project(src, rules)[rules[i].target] == src[rules[i].source]
  {
    ProjectSpec(src, rules);
  }

  /** The round trip for the key written by one rule. */
  lemma ProjectRoundTripAt(src: Fields, rules: seq<Rule>, i: nat)
    requires DistinctTargets(rules) && DistinctSources(rules) && i < |rules|
    ensures var m := Project(src, rules);
            var m2 := Project(Project(m, Inverse(rules)), rules);
            (rules[i].target in m2 <==> rules[i].target in m) &&
            (rules[i].target in m ==> m2[rules[i].target] == m[rules[i].target])
  {
    var inv := Inverse(rules);
    var m := Project(src, rules);
    var w := Project(m, inv);
    assert inv[i].source == rules[i].target && inv[i].target == rules[i].source && inv[i].keep == rules[i].keep;
    ProjectAt(src, rules, i);
    ProjectAt(m, inv, i);
    ProjectAt(w, rules, i);
  }

  /** Reading a projection back and projecting again gives the same projection. */
  lemma ProjectRoundTrip(src: Fields, rules: seq<Rule>)
    requires DistinctTargets(rules) && DistinctSources(rules)
    ensures Project(Project(Project(src, rules), Inverse(rules)), rules) == Project(src, rules)
  {
    var m := Project(src, rules);
    var m2 := Project(Project(m, Inverse(rules)), rules);
    ProjectSpec(src, rules);
    ProjectSpec(Project(m, Inverse(rules)), rules);
    forall k | k in m2 ensures k in m && m2[k] == m[k] {
      var i :| 0 <= i < |rules| && rules[i].target == k;
      ProjectRoundTripAt(src, rules, i);
    }
    forall k | k in m ensures k in m2 {
      var i :| 0 <= i < |rules| && rules[i].target == k;
      ProjectRoundTripAt(src, rules, i);
    }
    assert m2.Keys == m.Keys;
  }

  /** A key that no rule reads or writes. */
  predicate Unmapped(k: string, rules: seq<Rule>) {
    forall i :: 0 <= i < |rules| ==> rules[i].source != k && rules[i].target != k
  }

  /** Setting a field that no rule reads leaves a projection unchanged. */
  lemma {:induction false} ProjectIgnoresUnmapped(src: Fields, k: string, v: Json, rules: seq<Rule>)
    requires Unmapped(k, rules)
    ensures Project(src[k := v], rules) == Project(src, rules)
    decreases |rules|
  {
    if rules != [] {
      ProjectIgnoresUnmapped(src, k, v, rules[..|rules| - 1]);
    }
  }

  /** `{LINK_FIELD: [applicant_id]}` followed by the copied fields. */
  function RecordFields(id: string, data: Fields, rules: seq<Rule>): Fields {
    Project(data, Inverse(rules))[LINK_FIELD := JArr([JStr(id)])]
  }

  /** The rules of the model never touch the link field, so a created record
      has more than the link field exactly when something was copied. */
  lemma RecordFieldsSize(id: string, data: Fields, rules: seq<Rule>)
    requires DistinctSources(rules) && Unmapped(LINK_FIELD, rules)
    ensures |RecordFields(id, data, rules)| > 1 <==> Project(data, Inverse(rules)) != map[]
    ensures RecordFields(id, data, rules)[LINK_FIELD] == JArr([JStr(id)])
  {
    var p := Project(data, Inverse(rules));
    ProjectSpec(data, Inverse(rules));
    assert |p[LINK_FIELD := JArr([JStr(id)])]| == |p| + 1;
    if p == map[] {
      assert |p| == 0;
    } else {
      var k :| k in p;
      assert |p| >= 1;
    }
  }

  /** The records a step creates, and the error that ends it, if any. */
  datatype Plan = Plan(done: seq<Fields>, err: Option<Error>)

  /** `if len(fields) > 1: table.create(fields)`; a refused create raises. */
  function CreatePlan(t: Table, fields: Fields, svc: Service): Plan {
    if |fields| <= 1 then Plan([], None)
    else if svc.refusesCreate(t, fields) then Plan([], Some(WriteRefused))
    else Plan([fields], None)
  }

  /** `_create_personal_record` and `_create_salary_record`: a falsy part is
      skipped, a truthy non-object makes `.get` raise. */
  function SinglePlan(t: Table, id: string, data: Json, rules: seq<Rule>, svc: Service): (r: Plan)
    ensures |r.done| <= 1
  {
    if !Truthy(data) then Plan([], None)
    else if !data.JObj? then Plan([], Some(NotAnObject))
    else CreatePlan(t, RecordFields(id, data.members, rules), svc)
  }

  /** The loop of `_create_experience_records` over a list: it stops at the
      first entry that is not an object or whose create is refused. */
  function ExperienceRun(id: string, items: seq<Json>, svc: Service): Plan {
    if items == [] then Plan([], None)
    else
      var prev := ExperienceRun(id, items[..|items| - 1], svc);
      var item := items[|items| - 1];
      if prev.err.Some? then prev
      else if !item.JObj? then Plan(prev.done, Some(NotAnObject))
      else
        var step := CreatePlan(Experience, RecordFields(id, item.members, EXPERIENCE_RULES), svc);
        Plan(prev.done + step.done, step.err)
  }

  /** `_create_experience_records` on any JSON value: a text iterates over its
      characters and an object over its keys, which have no `.get`; a number,
      a boolean or null cannot be iterated at all. */
  function ExperiencePlan(id: string, v: Json, svc: Service): Plan {
    match v
    case JArr(items) => ExperienceRun(id, items, svc)
    case JStr(s) => if s == "" then Plan([], None) else Plan([], Some(NotAnObject))
    case JObj(m) => if m == map[] then Plan([], None) else Plan([], Some(NotAnObject))
    case _ => Plan([], Some(NotIterable))
  }

  /** The loop raises only on an entry that is not an object or on a refused create. */
  lemma {:induction false} ExperienceRunErrors(id: string, items: seq<Json>, svc: Service)
    ensures var err := ExperienceRun(id, items, svc).err;
            err.None? || err == Some(NotAnObject) || err == Some(WriteRefused)
    decreases |items|
  {
    if items != [] {
      ExperienceRunErrors(id, items[..|items| - 1], svc);
    }
  }

  /** What one entry of the list does on its own. */
  function EntryPlan(id: string, item: Json, svc: Service): Plan {
    if !item.JObj? then Plan([], Some(NotAnObject))
    else CreatePlan(Experience, RecordFields(id, item.members, EXPERIENCE_RULES), svc)
  }

  /** One more entry, after a prefix that raised nothing. */
  lemma ExperienceRunStep(id: string, items: seq<Json>, i: nat, done: seq<Fields>, svc: Service)
    requires i < |items| && ExperienceRun(id, items[..i], svc) == Plan(done, None)
    ensures ExperienceRun(id, items[..i + 1], svc) ==
              Plan(done + EntryPlan(id, items[i], svc).done, EntryPlan(id, items[i], svc).err)
  {
    assert items[..i + 1][..i] == items[..i];
    assert done + [] == done;
  }

  /** Once the loop has stopped, later entries change nothing. */
  lemma {:induction false} ExperienceRunStops(id: string, items: seq<Json>, k: nat, svc: Service)
    requires k <= |items| && ExperienceRun(id, items[..k], svc).err.Some?
    ensures ExperienceRun(id, items, svc) == ExperienceRun(id, items[..k], svc)
    decreases |items| - k
  {
    if k == |items| {
      assert items[..k] == items;
    } else {
      var init := items[..|items| - 1];
      assert init[..k] == items[..k];
      ExperienceRunStops(id, init, k, svc);
    }
  }

  /** The child tables and the store's creation counter. */
  datatype Children = Children(personal: seq<Record>, experience: seq<Record>, salary: seq<Record>, created: nat)

  /** A child table after `_clear_existing_records`: every record sharing an
      id with a record linked to the applicant is gone. */
  function Cleared(rows: seq<Record>, id: string): seq<Record> {
    Without(rows, IdSet(LinkedRecords(rows, id)))
  }

  /** Nothing linked to the applicant survives the clearing; every other
      record with an id of its own does. */
  lemma ClearedUnlinks(rows: seq<Record>, id: string)
    ensures LinkedRecords(Cleared(rows, id), id) == []
    ensures forall x :: x in rows && x.id !in IdSet(LinkedRecords(rows, id)) ==> x in Cleared(rows, id)
  {
    var linked := LinkedRecords(rows, id);
    LinkedRecordsSpec(rows, id);
    WithoutSpec(rows, IdSet(linked));
    forall x | x in Cleared(rows, id) ensures !LinkedTo(x, id) {
      assert x in rows && x.id !in IdSet(linked);
      assert x !in linked;
    }
    LinkedRecordsNone(Cleared(rows, id), id);
  }

  datatype DecompressResult = Decompressed(doc: Json) | DecompressFailed(error: Error)

  /** The child tables once `_clear_existing_records` has run. */
  function ClearedChildren(c: Children, id: string): Children {
    Children(Cleared(c.personal, id), Cleared(c.experience, id), Cleared(c.salary, id), c.created)
  }

  /** The stages of `decompress_applicant_data` on the document's parts,
      read with `json_data.get(key, default)`. */
  function PersonalPlan(id: string, doc: Fields, svc: Service): Plan {
    SinglePlan(Personal, id, Lookup(doc, "personal", JObj(map[])), PERSONAL_RULES, svc)
  }

  function ExperienceListPlan(id: string, doc: Fields, svc: Service): Plan {
    ExperiencePlan(id, Lookup(doc, "experience", JArr([])), svc)
  }

  function SalaryPlan(id: string, doc: Fields, svc: Service): Plan {
    SinglePlan(Salary, id, Lookup(doc, "salary", JObj(map[])), SALARY_RULES, svc)
  }

  /** The three creating stages run in turn from the cleared tables; each
      runs only if the one before raised nothing. */
  function Stages(c0: Children, pp: Plan, ep: Plan, sp: Plan): (Children, Option<Error>) {
    var c1 := c0.(personal := c0.personal + Minted(c0.created, pp.done), created := c0.created + |pp.done|);
    if pp.err.Some? then (c1, pp.err)
    else
      var c2 := c1.(experience := c1.experience + Minted(c1.created, ep.done), created := c1.created + |ep.done|);
      if ep.err.Some? then (c2, ep.err)
      else
        var c3 := c2.(salary := c2.salary + Minted(c2.created, sp.done), created := c2.created + |sp.done|);
        (c3, sp.err)
  }

  /** The three `_create_*` calls on a document object. */
  function Recreate(c0: Children, id: string, doc: Fields, svc: Service): (Children, Option<Error>) {
    Stages(c0, PersonalPlan(id, doc, svc), ExperienceListPlan(id, doc, svc), SalaryPlan(id, doc, svc))
  }

  lemma RecreateStages(c0: Children, id: string, doc: Fields, svc: Service)
    ensures Recreate(c0, id, doc, svc) ==
            Stages(c0, PersonalPlan(id, doc, svc), ExperienceListPlan(id, doc, svc), SalaryPlan(id, doc, svc))
  {
  }

  /** The child tables and the result of `decompress_applicant_data(id)`,
      from the applicants table and the child tables it starts with. */
  function Decompress(applicants: seq<Record>, c: Children, id: string, codec: Codec, svc: Service)
    : (Children, DecompressResult)
  {
    match FindRecord(applicants, id)
    case None => (c, DecompressFailed(RecordNotFound))
    case Some(app) =>
      var stored := SafeGetField(app, "Compressed JSON", JNull);
      if !Truthy(stored) then (c, DecompressFailed(NoCompressedJson))
      else
        match ParseStored(codec, stored)
        case None => (c, DecompressFailed(InvalidJson))
        case Some(doc) =>
          if !doc.JObj? then (ClearedChildren(c, id), DecompressFailed(NotAnObject))
          else
            var (c3, err) := Recreate(ClearedChildren(c, id), id, doc.members, svc);
            (c3, if err.Some? then DecompressFailed(err.value) else Decompressed(doc))
  }

  /** Records created in two runs are the records created in one. */
  /** Records created after earlier ones extend the table in order. */
  lemma MintedAppend(base: seq<Record>, rows: seq<Record>, n: nat, a: seq<Fields>, b: seq<Fields>)
    requires rows == base + Minted(n, a)
    ensures rows + Minted(n + |a|, b) == base + Minted(n, a + b)
  {
    MintedConcat(n, a, b);
  }

  lemma {:induction false} MintedConcat(n: nat, a: seq<Fields>, b: seq<Fields>)
    ensures Minted(n, a + b) == Minted(n, a) + Minted(n + |a|, b)
    decreases |a|
  {
    if a == [] {
      assert a + b == b;
    } else {
      assert (a + b)[1..] == a[1..] + b;
      MintedConcat(n + 1, a[1..], b);
    }
  }

  /** `if len(fields) > 1: table.create(fields)`. */
  method CreateIfPopulated(store: Store, t: Table, fields: Fields, svc: Service) returns (err: Option<Error>)
    modifies store
    ensures err == CreatePlan(t, fields, svc).err
    ensures store.Rows(t) == old(store.Rows(t)) + Minted(old(store.created), CreatePlan(t, fields, svc).done)
    ensures store.created == old(store.created) + |CreatePlan(t, fields, svc).done|
    ensures t != Applicants ==> store.applicants == old(store.applicants)
    ensures t != Personal ==> store.personal == old(store.personal)
    ensures t != Experience ==> store.experience == old(store.experience)
    ensures t != Salary ==> store.salary == old(store.salary)
    ensures t != Shortlisted ==> store.shortlisted == old(store.shortlisted)
  {
    err := None;
    if |fields| > 1 {
      var ok, _ := store.Create(t, fields, svc);
      if !ok {
        err := Some(WriteRefused);
      }
    }
  }

  /** `_create_personal_record(id, personal_data)`. */
  method CreatePersonalRecord(store: Store, id: string, data: Json, svc: Service) returns (err: Option<Error>)
    modifies store
    ensures err == SinglePlan(Personal, id, data, PERSONAL_RULES, svc).err
    ensures store.personal ==
              old(store.personal) + Minted(old(store.created), SinglePlan(Personal, id, data, PERSONAL_RULES, svc).done)
    ensures store.created == old(store.created) + |SinglePlan(Personal, id, data, PERSONAL_RULES, svc).done|
    ensures store.applicants == old(store.applicants) && store.experience == old(store.experience)
    ensures store.salary == old(store.salary) && store.shortlisted == old(store.shortlisted)
  {
    if !Truthy(data) {
      return None;
    }
    if !data.JObj? {
      return Some(NotAnObject);
    }
    err := CreateIfPopulated(store, Personal, RecordFields(id, data.members, PERSONAL_RULES), svc);
  }

  /** `_create_salary_record(id, salary_data)`. */
  method CreateSalaryRecord(store: Store, id: string, data: Json, svc: Service) returns (err: Option<Error>)
    modifies store
    ensures err == SinglePlan(Salary, id, data, SALARY_RULES, svc).err
    ensures store.salary ==
              old(store.salary) + Minted(old(store.created), SinglePlan(Salary, id, data, SALARY_RULES, svc).done)
    ensures store.created == old(store.created) + |SinglePlan(Salary, id, data, SALARY_RULES, svc).done|
    ensures store.applicants == old(store.applicants) && store.experience == old(store.experience)
    ensures store.personal == old(store.personal) && store.shortlisted == old(store.shortlisted)
  {
    if !Truthy(data) {
      return None;
    }
    if !data.JObj? {
      return Some(NotAnObject);
    }
    err := CreateIfPopulated(store, Salary, RecordFields(id, data.members, SALARY_RULES), svc);
  }

  /** The body of the loop of `_create_experience_records` for one entry:
      `.get` raises on an entry that is not an object. */
  method CreateExperienceEntry(store: Store, id: string, item: Json, svc: Service) returns (err: Option<Error>)
    modifies store
    ensures err == EntryPlan(id, item, svc).err
    ensures store.experience == old(store.experience) + Minted(old(store.created), EntryPlan(id, item, svc).done)
    ensures store.created == old(store.created) + |EntryPlan(id, item, svc).done|
    ensures store.applicants == old(store.applicants) && store.personal == old(store.personal)
    ensures store.salary == old(store.salary) && store.shortlisted == old(store.shortlisted)
  {
    if !item.JObj? {
      return Some(NotAnObject);
    }
    err := CreateIfPopulated(store, Experience, RecordFields(id, item.members, EXPERIENCE_RULES), svc);
  }

  /** The loop of `_create_experience_records` over a list of entries. */
  method CreateExperienceEntries(store: Store, id: string, items: seq<Json>, svc: Service) returns (err: Option<Error>)
    modifies store
    ensures err == ExperienceRun(id, items, svc).err
    ensures store.experience ==
              old(store.experience) + Minted(old(store.created), ExperienceRun(id, items, svc).done)
    ensures store.created == old(store.created) + |ExperienceRun(id, items, svc).done|
    ensures store.applicants == old(store.applicants) && store.personal == old(store.personal)
    ensures store.salary == old(store.salary) && store.shortlisted == old(store.shortlisted)
  {
    var i := 0;
    ghost var done: seq<Fields> := [];
    err := None;
    while i < |items| && err.None?
      invariant 0 <= i <= |items|
      invariant ExperienceRun(id, items[..i], svc) == Plan(done, err)
      invariant store.experience == old(store.experience) + Minted(old(store.created), done)
      invariant store.created == old(store.created) + |done|
      invariant store.applicants == old(store.applicants) && store.personal == old(store.personal)
      invariant store.salary == old(store.salary) && store.shortlisted == old(store.shortlisted)
    {
      ExperienceRunStep(id, items, i, done, svc);
      ghost var step := EntryPlan(id, items[i], svc);
      ghost var rows := store.experience;
      err := CreateExperienceEntry(store, id, items[i], svc);
      MintedAppend(old(store.experience), rows, old(store.created), done, step.done);
      done := done + step.done;
      i := i + 1;
    }
    if err.Some? {
      ExperienceRunStops(id, items, i, svc);
    } else {
      PrefixAll(items);
    }
  }

  /** `_create_experience_records(id, experience_list)`. */
  method CreateExperienceRecords(store: Store, id: string, v: Json, svc: Service) returns (err: Option<Error>)
    modifies store
    ensures err == ExperiencePlan(id, v, svc).err
    ensures store.experience ==
              old(store.experience) + Minted(old(store.created), ExperiencePlan(id, v, svc).done)
    ensures store.created == old(store.created) + |ExperiencePlan(id, v, svc).done|
    ensures store.applicants == old(store.applicants) && store.personal == old(store.personal)
    ensures store.salary == old(store.salary) && store.shortlisted == old(store.shortlisted)
  {
    match v {
      case JArr(items) =>
        err := CreateExperienceEntries(store, id, items, svc);
      case JStr(s) =>
        err := if s == "" then None else Some(NotAnObject);
      case JObj(m) =>
        err := if m == map[] then None else Some(NotAnObject);
      case _ =>
        err := Some(NotIterable);
    }
  }

  const CHILD_TABLES: seq<Table> := [Personal, Experience, Salary]

  /** The inner loop of `_clear_existing_records`: delete, one id at a
      time, the records of one table linked to the applicant. */
  method DeleteLinked(store: Store, t: Table, id: string)
    modifies store
    ensures store.Rows(t) == Cleared(old(store.Rows(t)), id)
    ensures t != Applicants ==> store.applicants == old(store.applicants)
    ensures t != Personal ==> store.personal == old(store.personal)
    ensures t != Experience ==> store.experience == old(store.experience)
    ensures t != Salary ==> store.salary == old(store.salary)
    ensures t != Shortlisted ==> store.shortlisted == old(store.shortlisted)
    ensures store.created == old(store.created)
  {
    var existing := LinkedRecords(store.Rows(t), id);
    ghost var rows0 := store.Rows(t);
    WithoutNothing(rows0);
    assert IdSet(existing[..0]) == {};
    var j := 0;
    while j < |existing|
      invariant 0 <= j <= |existing|
      invariant store.Rows(t) == Without(rows0, IdSet(existing[..j]))
      invariant t != Applicants ==> store.applicants == old(store.applicants)
      invariant t != Personal ==> store.personal == old(store.personal)
      invariant t != Experience ==> store.experience == old(store.experience)
      invariant t != Salary ==> store.salary == old(store.salary)
      invariant t != Shortlisted ==> store.shortlisted == old(store.shortlisted)
      invariant store.created == old(store.created)
    {
      store.Delete(t, existing[j].id);
      WithoutTwice(rows0, IdSet(existing[..j]), {existing[j].id});
      PrefixStep(existing, j);
      j := j + 1;
    }
    PrefixAll(existing);
  }

  /** `_clear_existing_records(id)`: the personal, experience and salary
      tables in turn lose every record linked to the applicant. */
  method ClearExistingRecords(store: Store, id: string)
    modifies store
    ensures store.personal == Cleared(old(store.personal), id)
    ensures store.experience == Cleared(old(store.experience), id)
    ensures store.salary == Cleared(old(store.salary), id)
    ensures store.applicants == old(store.applicants) && store.shortlisted == old(store.shortlisted)
    ensures store.created == old(store.created)
  {
    var i := 0;
    while i < |CHILD_TABLES|
      invariant 0 <= i <= |CHILD_TABLES|
      invariant store.personal == if i > 0 then Cleared(old(store.personal), id) else old(store.personal)
      invariant store.experience == if i > 1 then Cleared(old(store.experience), id) else old(store.experience)
      invariant store.salary == if i > 2 then Cleared(old(store.salary), id) else old(store.salary)
      invariant store.applicants == old(store.applicants) && store.shortlisted == old(store.shortlisted)
      invariant store.created == old(store.created)
    {
      DeleteLinked(store, CHILD_TABLES[i], id);
      i := i + 1;
    }
  }

  /** The three `_create_*` calls of `decompress_applicant_data`; the first
      exception ends the sequence. */
  method RecreateRecords(store: Store, id: string, doc: Fields, svc: Service) returns (err: Option<Error>)
    modifies store
    ensures (Children(store.personal, store.experience, store.salary, store.created), err) ==
            Recreate(Children(old(store.personal), old(store.experience), old(store.salary), old(store.created)), id, doc, svc)
    ensures store.applicants == old(store.applicants) && store.shortlisted == old(store.shortlisted)
  {
    ghost var c0 := Children(store.personal, store.experience, store.salary, store.created);
    ghost var pp, ep, sp := PersonalPlan(id, doc, svc), ExperienceListPlan(id, doc, svc), SalaryPlan(id, doc, svc);
    RecreateStages(c0, id, doc, svc);
    PlansOfDocument(id, doc, svc);
    err := CreatePersonalRecord(store, id, Lookup(doc, "personal", JObj(map[])), svc);
    if err.Some? {
      StagesFirstRaises(c0, pp, ep, sp, store.personal, store.created, err);
      return;
    }
    ghost var p1, n1 := store.personal, store.created;
    err := CreateExperienceRecords(store, id, Lookup(doc, "experience", JArr([])), svc);
    if err.Some? {
      StagesSecondRaises(c0, pp, ep, sp, p1, n1, store.experience, store.created, err);
      return;
    }
    ghost var e2, n2 := store.experience, store.created;
    err := CreateSalaryRecord(store, id, Lookup(doc, "salary", JObj(map[])), svc);
    StagesAllRun(c0, pp, ep, sp, p1, n1, e2, n2, store.salary, store.created, err);
  }

  /** `decompress_applicant_data(id)`: every exception is reported in the result. */
  method DecompressApplicantData(store: Store, id: string, codec: Codec, svc: Service) returns (r: DecompressResult)
    modifies store
    ensures (Children(store.personal, store.experience, store.salary, store.created), r) ==
            Decompress(old(store.applicants),
                       Children(old(store.personal), old(store.experience), old(store.salary), old(store.created)),
                       id, codec, svc)
    ensures store.applicants == old(store.applicants) && store.shortlisted == old(store.shortlisted)
  {
    ghost var c := Children(store.personal, store.experience, store.salary, store.created);
    var app := store.GetApplicant(id);
    if app.None? {
      return DecompressFailed(RecordNotFound);
    }
    var stored := SafeGetField(app.value, "Compressed JSON", JNull);
    if !Truthy(stored) {
      return DecompressFailed(NoCompressedJson);
    }
    var parsed := ParseStored(codec, stored);
    if parsed.None? {
      return DecompressFailed(InvalidJson);
    }
    var doc := parsed.value;
    ClearExistingRecords(store, id);
    ghost var c0 := ClearedChildren(c, id);
    assert Children(store.personal, store.experience, store.salary, store.created) == c0;
    if !doc.JObj? {
      return DecompressFailed(NotAnObject);
    }
    var err := RecreateRecords(store, id, doc.members, svc);
    if err.Some? {
      return DecompressFailed(err.value);
    }
    r := Decompressed(doc);
  }

  /** The first two characters of a name (a space where there is none),
      which with its length tell the names of the field maps apart. */
  function Initial(s: string): char {
    if |s| < 1 then ' ' else s[0]
  }

  function Second(s: string): char {
    if |s| < 2 then ' ' else s[1]
  }

  /** The three field maps of the model are well formed and leave the link
      field alone. */
  lemma PersonalRulesWellFormed()
    ensures DistinctTargets(PERSONAL_RULES) && DistinctSources(PERSONAL_RULES) && Unmapped(LINK_FIELD, PERSONAL_RULES)
  {
    var r := PERSONAL_RULES;
    forall i, j | 0 <= i < j < |r| ensures r[i].target != r[j].target && r[i].source != r[j].source {
      var t1, t2, s1, s2 := r[i].target, r[j].target, r[i].source, r[j].source;
      assert |t1| != |t2| || Initial(t1) != Initial(t2) || Second(t1) != Second(t2);
      assert |s1| != |s2| || Initial(s1) != Initial(s2) || Second(s1) != Second(s2);
    }
    forall i | 0 <= i < |r| ensures r[i].source != LINK_FIELD && r[i].target != LINK_FIELD {
      var s1, t1 := r[i].source, r[i].target;
      assert |s1| != |LINK_FIELD| || Initial(s1) != Initial(LINK_FIELD) || Second(s1) != Second(LINK_FIELD);
      assert |t1| != |LINK_FIELD| || Initial(t1) != Initial(LINK_FIELD) || Second(t1) != Second(LINK_FIELD);
    }
  }

  lemma ExperienceRulesWellFormed()
    ensures DistinctTargets(EXPERIENCE_RULES) && DistinctSources(EXPERIENCE_RULES) && Unmapped(LINK_FIELD, EXPERIENCE_RULES)
  {
    var r := EXPERIENCE_RULES;
    forall i, j | 0 <= i < j < |r| ensures r[i].target != r[j].target && r[i].source != r[j].source {
      var t1, t2, s1, s2 := r[i].target, r[j].target, r[i].source, r[j].source;
      assert |t1| != |t2| || Initial(t1) != Initial(t2) || Second(t1) != Second(t2);
      assert |s1| != |s2| || Initial(s1) != Initial(s2) || Second(s1) != Second(s2);
    }
    forall i | 0 <= i < |r| ensures r[i].source != LINK_FIELD && r[i].target != LINK_FIELD {
      var s1, t1 := r[i].source, r[i].target;
      assert |s1| != |LINK_FIELD| || Initial(s1) != Initial(LINK_FIELD) || Second(s1) != Second(LINK_FIELD);
      assert |t1| != |LINK_FIELD| || Initial(t1) != Initial(LINK_FIELD) || Second(t1) != Second(LINK_FIELD);
    }
  }

  lemma SalaryRulesWellFormed()
    ensures DistinctTargets(SALARY_RULES) && DistinctSources(SALARY_RULES) && Unmapped(LINK_FIELD, SALARY_RULES)
  {
    var r := SALARY_RULES;
    forall i, j | 0 <= i < j < |r| ensures r[i].target != r[j].target && r[i].source != r[j].source {
      var t1, t2, s1, s2 := r[i].target, r[j].target, r[i].source, r[j].source;
      assert |t1| != |t2| || Initial(t1) != Initial(t2) || Second(t1) != Second(t2);
      assert |s1| != |s2| || Initial(s1) != Initial(s2) || Second(s1) != Second(s2);
    }
    forall i | 0 <= i < |r| ensures r[i].source != LINK_FIELD && r[i].target != LINK_FIELD {
      var s1, t1 := r[i].source, r[i].target;
      assert |s1| != |LINK_FIELD| || Initial(s1) != Initial(LINK_FIELD) || Second(s1) != Second(LINK_FIELD);
      assert |t1| != |LINK_FIELD| || Initial(t1) != Initial(LINK_FIELD) || Second(t1) != Second(LINK_FIELD);
    }
  }

  /** The store accepts every create. */
  ghost predicate AcceptsCreates(svc: Service) {
    forall t, f :: !svc.refusesCreate(t, f)
  }

  /** Every field map links back to the applicant. */
  predicate AllLinked(fl: seq<Fields>, id: string) {
    forall i :: 0 <= i < |fl| ==> LINK_FIELD in fl[i] && fl[i][LINK_FIELD] == JArr([JStr(id)])
  }

  lemma {:induction false} MintedLinked(n: nat, fl: seq<Fields>, id: string)
    requires AllLinked(fl, id)
    ensures LinkedRecords(Minted(n, fl), id) == Minted(n, fl)
    decreases |fl|
  {
    if fl != [] {
      MintedLinked(n + 1, fl[1..], id);
    }
  }

  lemma {:induction false} ExperienceRunLinked(id: string, items: seq<Json>, svc: Service)
    ensures AllLinked(ExperienceRun(id, items, svc).done, id)
    decreases |items|
  {
    if items != [] {
      ExperienceRunLinked(id, items[..|items| - 1], svc);
    }
  }

  /** Every record a stage creates links back to the applicant. */
  lemma PlansLinked(id: string, doc: Fields, svc: Service)
    ensures AllLinked(PersonalPlan(id, doc, svc).done, id)
    ensures AllLinked(ExperienceListPlan(id, doc, svc).done, id)
    ensures AllLinked(SalaryPlan(id, doc, svc).done, id)
  {
    var e := Lookup(doc, "experience", JArr([]));
    if e.JArr? {
      ExperienceRunLinked(id, e.items, svc);
    }
  }

  /** The error a run of stages ends with is the first stage's error. */
  lemma StagesError(c0: Children, pp: Plan, ep: Plan, sp: Plan)
    ensures Stages(c0, pp, ep, sp).1 == if pp.err.Some? then pp.err else if ep.err.Some? then ep.err else sp.err
  {
  }

  /** The errors the recreation can end with. */
  lemma RecreateErrors(c0: Children, id: string, doc: Fields, svc: Service)
    ensures Recreate(c0, id, doc, svc).1 in {None, Some(NotAnObject), Some(NotIterable), Some(WriteRefused)}
  {
    var pp, ep, sp := PersonalPlan(id, doc, svc), ExperienceListPlan(id, doc, svc), SalaryPlan(id, doc, svc);
    StagesError(c0, pp, ep, sp);
    var e := Lookup(doc, "experience", JArr([]));
    if e.JArr? {
      ExperienceRunErrors(id, e.items, svc);
    }
  }

  /** Nothing is deleted or created unless the stored document parses: a
      missing applicant, a missing document and unparsable text leave the
      child tables as they were, and no later stage reports those errors. */
  lemma DecompressFailsBeforeClearing(applicants: seq<Record>, c: Children, id: string, codec: Codec, svc: Service)
    ensures var out := Decompress(applicants, c, id, codec, svc);
            out.1.DecompressFailed? && out.1.error in {RecordNotFound, NoCompressedJson, InvalidJson} ==> out.0 == c
    ensures var out := Decompress(applicants, c, id, codec, svc);
            out.0 != c ==>
              FindRecord(applicants, id).Some? &&
              ParseStored(codec, SafeGetField(FindRecord(applicants, id).value, "Compressed JSON", JNull)).Some?
  {
    if FindRecord(applicants, id).Some? {
      var stored := SafeGetField(FindRecord(applicants, id).value, "Compressed JSON", JNull);
      if Truthy(stored) && ParseStored(codec, stored).Some? && ParseStored(codec, stored).value.JObj? {
        RecreateErrors(ClearedChildren(c, id), id, ParseStored(codec, stored).value.members, svc);
      }
    }
  }

  /** Once the document has parsed to an object, the tables are cleared and
      recreated, and the result is that of the recreation. */
  lemma DecompressParsed(applicants: seq<Record>, c: Children, id: string, codec: Codec, svc: Service, doc: Json)
    requires FindRecord(applicants, id).Some?
    requires ParseStored(codec, SafeGetField(FindRecord(applicants, id).value, "Compressed JSON", JNull)) == Some(doc)
    requires Truthy(SafeGetField(FindRecord(applicants, id).value, "Compressed JSON", JNull)) && doc.JObj?
    ensures var rec := Recreate(ClearedChildren(c, id), id, doc.members, svc);
            Decompress(applicants, c, id, codec, svc) ==
            (rec.0, if rec.1.Some? then DecompressFailed(rec.1.value) else Decompressed(doc))
  {
  }

  /** The three stages read their parts of the document. */
  lemma PlansOfDocument(id: string, doc: Fields, svc: Service)
    ensures PersonalPlan(id, doc, svc) == SinglePlan(Personal, id, Lookup(doc, "personal", JObj(map[])), PERSONAL_RULES, svc)
    ensures ExperienceListPlan(id, doc, svc) == ExperiencePlan(id, Lookup(doc, "experience", JArr([])), svc)
    ensures SalaryPlan(id, doc, svc) == SinglePlan(Salary, id, Lookup(doc, "salary", JObj(map[])), SALARY_RULES, svc)
  {
  }

  /** The personal stage raised: the later stages do not run. */
  lemma StagesFirstRaises(c0: Children, pp: Plan, ep: Plan, sp: Plan, p1: seq<Record>, n1: nat, err: Option<Error>)
    requires p1 == c0.personal + Minted(c0.created, pp.done) && n1 == c0.created + |pp.done| && err == pp.err
    requires err.Some?
    ensures (Children(p1, c0.experience, c0.salary, n1), err) == Stages(c0, pp, ep, sp)
  {
  }

  /** The experience stage raised: the salary stage does not run. */
  lemma StagesSecondRaises(c0: Children, pp: Plan, ep: Plan, sp: Plan, p1: seq<Record>, n1: nat,
                           e2: seq<Record>, n2: nat, err: Option<Error>)
    requires p1 == c0.personal + Minted(c0.created, pp.done) && n1 == c0.created + |pp.done| && pp.err.None?
    requires e2 == c0.experience + Minted(n1, ep.done) && n2 == n1 + |ep.done| && err == ep.err
    requires err.Some?
    ensures (Children(p1, e2, c0.salary, n2), err) == Stages(c0, pp, ep, sp)
  {
  }

  /** No stage raised before the salary stage: all three ran. */
  lemma StagesAllRun(c0: Children, pp: Plan, ep: Plan, sp: Plan, p1: seq<Record>, n1: nat,
                     e2: seq<Record>, n2: nat, s3: seq<Record>, n3: nat, err: Option<Error>)
    requires p1 == c0.personal + Minted(c0.created, pp.done) && n1 == c0.created + |pp.done| && pp.err.None?
    requires e2 == c0.experience + Minted(n1, ep.done) && n2 == n1 + |ep.done| && ep.err.None?
    requires s3 == c0.salary + Minted(n2, sp.done) && n3 == n2 + |sp.done| && err == sp.err
    ensures (Children(p1, e2, s3, n3), err) == Stages(c0, pp, ep, sp)
  {
    StagesOk(c0, n1, n2, pp, ep, sp);
  }

  /** Stages that raise nothing append every planned record, numbered on
      from the creation counter. */
  lemma StagesOk(c0: Children, n1: nat, n2: nat, pp: Plan, ep: Plan, sp: Plan)
    requires n1 == c0.created + |pp.done| && n2 == n1 + |ep.done|
    requires pp.err.None? && ep.err.None?
    ensures Stages(c0, pp, ep, sp) ==
              (Children(c0.personal + Minted(c0.created, pp.done), c0.experience + Minted(n1, ep.done),
                        c0.salary + Minted(n2, sp.done), n2 + |sp.done|), sp.err)
  {
  }

  /** Records that all link back, appended to a table with nothing linked,
      are exactly the records linked to the applicant. */
  lemma AppendedLinks(rows: seq<Record>, id: string, n: nat, fl: seq<Fields>)
    requires LinkedRecords(rows, id) == [] && AllLinked(fl, id)
    ensures LinkedRecords(rows + Minted(n, fl), id) == Minted(n, fl)
  {
    MintedLinked(n, fl, id);
    LinkedRecordsConcat(rows, Minted(n, fl), id);
  }

  /** Stages that raise nothing append their records to tables with nothing
      linked; when every new record links back, the linked records are
      exactly the new ones. */
  lemma StagesLinks(c0: Children, id: string, pp: Plan, ep: Plan, sp: Plan)
    requires Stages(c0, pp, ep, sp).1.None?
    requires LinkedRecords(c0.personal, id) == [] && LinkedRecords(c0.experience, id) == []
    requires LinkedRecords(c0.salary, id) == []
    requires AllLinked(pp.done, id) && AllLinked(ep.done, id) && AllLinked(sp.done, id)
    ensures var c3 := Stages(c0, pp, ep, sp).0;
            && LinkedRecords(c3.personal, id) == Minted(c0.created, pp.done)
            && LinkedRecords(c3.experience, id) == Minted(c0.created + |pp.done|, ep.done)
            && LinkedRecords(c3.salary, id) == Minted(c0.created + |pp.done| + |ep.done|, sp.done)
            && c3.personal == c0.personal + LinkedRecords(c3.personal, id)
            && c3.experience == c0.experience + LinkedRecords(c3.experience, id)
            && c3.salary == c0.salary + LinkedRecords(c3.salary, id)
  {
    var n1 := c0.created + |pp.done|;
    var n2 := n1 + |ep.done|;
    StagesError(c0, pp, ep, sp);
    StagesOk(c0, n1, n2, pp, ep, sp);
    AppendedLinks(c0.personal, id, c0.created, pp.done);
    AppendedLinks(c0.experience, id, n1, ep.done);
    AppendedLinks(c0.salary, id, n2, sp.done);
  }

  /** The cleared tables have nothing linked to the applicant. */
  lemma ClearedChildrenUnlinked(c: Children, id: string)
    ensures var c0 := ClearedChildren(c, id);
            && LinkedRecords(c0.personal, id) == [] && LinkedRecords(c0.experience, id) == []
            && LinkedRecords(c0.salary, id) == []
  {
    ClearedUnlinks(c.personal, id);
    ClearedUnlinks(c.experience, id);
    ClearedUnlinks(c.salary, id);
  }

  /** A recreation that raises nothing leaves each child table as the
      cleared table followed by the new records, and those are exactly the
      records linked to the applicant: at most one personal and one salary
      record. */
  lemma RecreatedTables(c: Children, id: string, doc: Fields, svc: Service)
    requires Recreate(ClearedChildren(c, id), id, doc, svc).1.None?
    ensures var c3 := Recreate(ClearedChildren(c, id), id, doc, svc).0;
            && c3.personal == Cleared(c.personal, id) + LinkedRecords(c3.personal, id)
            && c3.experience == Cleared(c.experience, id) + LinkedRecords(c3.experience, id)
            && c3.salary == Cleared(c.salary, id) + LinkedRecords(c3.salary, id)
            && |LinkedRecords(c3.personal, id)| <= 1 && |LinkedRecords(c3.salary, id)| <= 1
  {
    var c0 := ClearedChildren(c, id);
    var pp, ep, sp := PersonalPlan(id, doc, svc), ExperienceListPlan(id, doc, svc), SalaryPlan(id, doc, svc);
    assert Recreate(c0, id, doc, svc) == Stages(c0, pp, ep, sp);
    PlansLinked(id, doc, svc);
    ClearedChildrenUnlinked(c, id);
    StagesLinks(c0, id, pp, ep, sp);
  }

  /** After a successful decompression each child table is the cleared table
      followed by the new records, and those are exactly the records linked
      to the applicant: at most one personal and one salary record. */
  lemma DecompressedTables(applicants: seq<Record>, c: Children, id: string, codec: Codec, svc: Service)
    requires Decompress(applicants, c, id, codec, svc).1.Decompressed?
    ensures var c2 := Decompress(applicants, c, id, codec, svc).0;
            && c2.personal == Cleared(c.personal, id) + LinkedRecords(c2.personal, id)
            && c2.experience == Cleared(c.experience, id) + LinkedRecords(c2.experience, id)
            && c2.salary == Cleared(c.salary, id) + LinkedRecords(c2.salary, id)
            && |LinkedRecords(c2.personal, id)| <= 1 && |LinkedRecords(c2.salary, id)| <= 1
  {
    var app := FindRecord(applicants, id).value;
    var doc := ParseStored(codec, SafeGetField(app, "Compressed JSON", JNull)).value;
    DecompressParsed(applicants, c, id, codec, svc, doc);
    RecreatedTables(c, id, doc.members, svc);
  }

  /** A part that the store accepts gives one record exactly when something
      is copied, and that record holds the copied fields and the link. */
  lemma SinglePlanAccepted(t: Table, id: string, m: Fields, rules: seq<Rule>, svc: Service)
    requires AcceptsCreates(svc) && DistinctSources(rules) && Unmapped(LINK_FIELD, rules)
    ensures SinglePlan(t, id, JObj(m), rules, svc) ==
            Plan(if Project(m, Inverse(rules)) != map[] then [RecordFields(id, m, rules)] else [], None)
  {
    RecordFieldsSize(id, m, rules);
    if m == map[] {
      ProjectOfEmpty(Inverse(rules));
    }
  }

  /** The personal fields read back from a personal object. */
  lemma PersonalFieldsRead(m: Fields)
    ensures var p := Project(m, Inverse(PERSONAL_RULES));
            && (p != map[] <==>
                  ("name" in m && Truthy(m["name"])) || ("email" in m && Truthy(m["email"])) ||
                  ("location" in m && Truthy(m["location"])) || ("linkedin" in m && Truthy(m["linkedin"])))
            && ("name" in m && Truthy(m["name"]) ==> "Full Name" in p && p["Full Name"] == m["name"])
  {
    PersonalRulesWellFormed();
    var inv := Inverse(PERSONAL_RULES);
    ProjectSpec(m, inv);
    assert inv[0] == Rule("name", "Full Name", WhenTruthy) && inv[1] == Rule("email", "Email", WhenTruthy);
    assert inv[2] == Rule("location", "Location", WhenTruthy) && inv[3] == Rule("linkedin", "LinkedIn", WhenTruthy);
    var p := Project(m, inv);
    if p != map[] {
      var k :| k in p;
      var i :| 0 <= i < |inv| && inv[i].target == k;
      assert Kept(inv[i], m);
    }
  }

  /** A personal object gives a record exactly when one of its four keys is
      truthy; the record links back to the applicant and carries the values. */
  lemma PersonalRecordCreated(id: string, m: Fields, svc: Service)
    requires AcceptsCreates(svc)
    ensures var done := SinglePlan(Personal, id, JObj(m), PERSONAL_RULES, svc).done;
            && |done| <= 1
            && (|done| == 1 <==>
                  ("name" in m && Truthy(m["name"])) || ("email" in m && Truthy(m["email"])) ||
                  ("location" in m && Truthy(m["location"])) || ("linkedin" in m && Truthy(m["linkedin"])))
            && (|done| == 1 ==> done[0][LINK_FIELD] == JArr([JStr(id)]))
            && (|done| == 1 && "name" in m && Truthy(m["name"]) ==>
                  "Full Name" in done[0] && done[0]["Full Name"] == m["name"])
  {
    PersonalRulesWellFormed();
    SinglePlanAccepted(Personal, id, m, PERSONAL_RULES, svc);
    PersonalFieldsRead(m);
  }

  /** The salary fields read back from a salary object. */
  lemma SalaryFieldsRead(m: Fields)
    ensures var p := Project(m, Inverse(SALARY_RULES));
            && (p != map[] <==>
                  ("preferred_rate" in m && m["preferred_rate"] != JNull) ||
                  ("minimum_rate" in m && m["minimum_rate"] != JNull) ||
                  ("currency" in m && Truthy(m["currency"])) ||
                  ("availability" in m && m["availability"] != JNull))
            && ("preferred_rate" in m && m["preferred_rate"] != JNull ==>
                  "Preferred Rate" in p && p["Preferred Rate"] == m["preferred_rate"])
  {
    SalaryRulesWellFormed();
    var inv := Inverse(SALARY_RULES);
    ProjectSpec(m, inv);
    assert inv[0] == Rule("preferred_rate", "Preferred Rate", WhenNotNull);
    assert inv[1] == Rule("minimum_rate", "Minimum Rate", WhenNotNull);
    assert inv[2] == Rule("currency", "Currency", WhenTruthy);
    assert inv[3] == Rule("availability", "Availability (hrs/wk)", WhenNotNull);
    var p := Project(m, inv);
    if p != map[] {
      var k :| k in p;
      var i :| 0 <= i < |inv| && inv[i].target == k;
      assert Kept(inv[i], m);
    }
  }

  /** A salary object gives a record exactly when a rate or the availability
      is not null, or the currency is truthy: a zero rate is copied. */
  lemma SalaryRecordCreated(id: string, m: Fields, svc: Service)
    requires AcceptsCreates(svc)
    ensures var done := SinglePlan(Salary, id, JObj(m), SALARY_RULES, svc).done;
            && |done| <= 1
            && (|done| == 1 <==>
                  ("preferred_rate" in m && m["preferred_rate"] != JNull) ||
                  ("minimum_rate" in m && m["minimum_rate"] != JNull) ||
                  ("currency" in m && Truthy(m["currency"])) ||
                  ("availability" in m && m["availability"] != JNull))
            && (|done| == 1 ==> done[0][LINK_FIELD] == JArr([JStr(id)]))
            && (|done| == 1 && "preferred_rate" in m && m["preferred_rate"] != JNull ==>
                  "Preferred Rate" in done[0] && done[0]["Preferred Rate"] == m["preferred_rate"])
  {
    SalaryRulesWellFormed();
    SinglePlanAccepted(Salary, id, m, SALARY_RULES, svc);
    SalaryFieldsRead(m);
  }

  /** The field maps created from a list of experience objects: one per
      entry with a copied field, in list order. */
  function ExperienceFields(id: string, items: seq<Json>): (fl: seq<Fields>)
    ensures |fl| <= |items|
  {
    if items == [] then []
    else
      var f := if items[|items| - 1].JObj? then RecordFields(id, items[|items| - 1].members, EXPERIENCE_RULES) else map[];
      ExperienceFields(id, items[..|items| - 1]) + (if |f| > 1 then [f] else [])
  }

  /** A list of objects that the store accepts is created entry by entry,
      skipping the entries with nothing to copy. */
  lemma {:induction false} ExperienceRunCreates(id: string, items: seq<Json>, svc: Service)
    requires AcceptsCreates(svc)
    requires forall i :: 0 <= i < |items| ==> items[i].JObj?
    ensures ExperienceRun(id, items, svc) == Plan(ExperienceFields(id, items), None)
    decreases |items|
  {
    if items != [] {
      ExperienceRunCreates(id, items[..|items| - 1], svc);
    }
  }

  /** A document object with none of the three parts recreates nothing,
      whatever else it holds: the missing parts default to empty values. */
  lemma MissingPartsCreateNothing(c0: Children, id: string, doc: Fields, svc: Service)
    requires "personal" !in doc && "experience" !in doc && "salary" !in doc
    ensures Recreate(c0, id, doc, svc) == (c0, None)
  {
    assert PersonalPlan(id, doc, svc) == Plan([], None) by {
      assert PersonalPlan(id, doc, svc) == PersonalPlan(id, map[], svc);
    }
    assert ExperienceListPlan(id, doc, svc) == Plan([], None) by {
      assert ExperienceListPlan(id, doc, svc) == ExperienceListPlan(id, map[], svc);
    }
    assert SalaryPlan(id, doc, svc) == Plan([], None) by {
      assert SalaryPlan(id, doc, svc) == SalaryPlan(id, map[], svc);
    }
    assert c0.personal + [] == c0.personal;
    assert c0.experience + [] == c0.experience;
    assert c0.salary + [] == c0.salary;
  }

  lemma {:induction false} ProjectOfEmpty(rules: seq<Rule>)
    ensures Project(map[], rules) == map[]
    decreases |rules|
  {
    if rules != [] {
      ProjectOfEmpty(rules[..|rules| - 1]);
    }
  }

  /** A compressed part read back into a record and compressed again is the
      same part, and it is written only when it is not empty. */
  lemma RecreatedPart(id: string, f: Fields, rules: seq<Rule>)
    requires DistinctTargets(rules) && DistinctSources(rules) && Unmapped(LINK_FIELD, rules)
    ensures var part := Project(f, rules);
            && Project(RecordFields(id, part, rules), rules) == part
            && (|RecordFields(id, part, rules)| > 1 <==> part != map[])
  {
    var part := Project(f, rules);
    var w := Project(part, Inverse(rules));
    ProjectRoundTrip(f, rules);
    ProjectIgnoresUnmapped(w, LINK_FIELD, JArr([JStr(id)]), rules);
    RecordFieldsSize(id, part, rules);
    ProjectOfEmpty(rules);
    ProjectOfEmpty(Inverse(rules));
  }

  /** The first record's part, as the compressor builds it. */
  function FirstPart(recs: seq<Record>, rules: seq<Rule>): Fields {
    if recs == [] then map[] else Project(FieldsOf(recs[0]), rules)
  }

  /** Decompressing a part and compressing the created records gives the part back. */
  lemma SingleRoundTrip(t: Table, id: string, recs: seq<Record>, rules: seq<Rule>, svc: Service, n: nat)
    requires DistinctTargets(rules) && DistinctSources(rules) && Unmapped(LINK_FIELD, rules)
    requires AcceptsCreates(svc)
    ensures var part := FirstPart(recs, rules);
            var plan := SinglePlan(t, id, JObj(part), rules, svc);
            plan.err.None? && FirstPart(Minted(n, plan.done), rules) == part
  {
    if recs != [] {
      RecreatedPart(id, FieldsOf(recs[0]), rules);
    }
  }

  lemma ExperienceListSingleton(rec: Record)
    ensures ExperienceList([rec]) == if ExperienceItem(rec) != map[] then [JObj(ExperienceItem(rec))] else []
  {
    assert [rec][..0] == [];
  }

  /** Decompressing the experience list and compressing the created records
      gives the list back. */
  lemma {:induction false} ExperienceRoundTrip(id: string, e: seq<Record>, svc: Service, n: nat)
    requires AcceptsCreates(svc)
    ensures var items := ExperienceList(e);
            ExperienceRun(id, items, svc) == Plan(ExperienceFields(id, items), None) &&
            ExperienceList(Minted(n, ExperienceFields(id, items))) == items
    decreases |e|
  {
    var items := ExperienceList(e);
    ExperienceListSpec(e);
    forall i | 0 <= i < |items| ensures items[i].JObj? {
      assert items[i] in items;
    }
    ExperienceRunCreates(id, items, svc);
    if e != [] {
      var init := e[..|e| - 1];
      var rec := e[|e| - 1];
      var item := ExperienceItem(rec);
      ExperienceRoundTrip(id, init, svc, n);
      var fl0 := ExperienceFields(id, ExperienceList(init));
      if item == map[] {
        assert items == ExperienceList(init) + [];
        assert items == ExperienceList(init);
      } else {
        assert items == ExperienceList(init) + [JObj(item)];
        assert items[..|items| - 1] == ExperienceList(init);
        ExperienceRulesWellFormed();
        RecreatedPart(id, FieldsOf(rec), EXPERIENCE_RULES);
        var f := RecordFields(id, item, EXPERIENCE_RULES);
        assert ExperienceFields(id, items) == fl0 + [f];
        MintedConcat(n, fl0, [f]);
        ExperienceListConcat(Minted(n, fl0), Minted(n + |fl0|, [f]));
        var r := Record(MintId(n + |fl0|), Some(f));
        assert Minted(n + |fl0|, [f]) == [r];
        ExperienceListSingleton(r);
      }
    }
  }

  /** The personal part read back into a record and compressed again. */
  lemma PersonalRoundTrip(id: string, p: seq<Record>, svc: Service, n: nat)
    requires AcceptsCreates(svc)
    ensures var plan := SinglePlan(Personal, id, JObj(PersonalObject(p)), PERSONAL_RULES, svc);
            plan.err.None? && PersonalObject(Minted(n, plan.done)) == PersonalObject(p)
  {
    PersonalRulesWellFormed();
    SingleRoundTrip(Personal, id, p, PERSONAL_RULES, svc, n);
  }

  /** The salary part read back into a record and compressed again. */
  lemma SalaryRoundTrip(id: string, s: seq<Record>, svc: Service, n: nat)
    requires AcceptsCreates(svc)
    ensures var plan := SinglePlan(Salary, id, JObj(SalaryObject(s)), SALARY_RULES, svc);
            plan.err.None? && SalaryObject(Minted(n, plan.done)) == SalaryObject(s)
  {
    SalaryRulesWellFormed();
    SingleRoundTrip(Salary, id, s, SALARY_RULES, svc, n);
  }

  /** The stages read the three parts the compressor wrote. */
  lemma DocumentPlans(id: string, p: seq<Record>, e: seq<Record>, s: seq<Record>, svc: Service)
    ensures var doc := Document(p, e, s).members;
            && PersonalPlan(id, doc, svc) == SinglePlan(Personal, id, JObj(PersonalObject(p)), PERSONAL_RULES, svc)
            && ExperienceListPlan(id, doc, svc) == ExperienceRun(id, ExperienceList(e), svc)
            && SalaryPlan(id, doc, svc) == SinglePlan(Salary, id, JObj(SalaryObject(s)), SALARY_RULES, svc)
  {
  }

  /** Stages, numbering their records from `n0`, `n1` and `n2` in turn, that
      raise nothing and whose records give back the three parts. */
  ghost predicate GivesBack(n0: nat, n1: nat, n2: nat, pp: Plan, ep: Plan, sp: Plan,
                            p: seq<Record>, e: seq<Record>, s: seq<Record>) {
    && n1 == n0 + |pp.done| && n2 == n1 + |ep.done|
    && pp.err.None? && ep.err.None? && sp.err.None?
    && PersonalObject(Minted(n0, pp.done)) == PersonalObject(p)
    && ExperienceList(Minted(n1, ep.done)) == ExperienceList(e)
    && SalaryObject(Minted(n2, sp.done)) == SalaryObject(s)
  }

  /** Stages that give back the three parts, run on the cleared tables, give
      back the document. */
  lemma StagesDocument(c: Children, id: string, n1: nat, n2: nat, pp: Plan, ep: Plan, sp: Plan,
                       p: seq<Record>, e: seq<Record>, s: seq<Record>)
    requires GivesBack(c.created, n1, n2, pp, ep, sp, p, e, s)
    requires AllLinked(pp.done, id) && AllLinked(ep.done, id) && AllLinked(sp.done, id)
    ensures Stages(ClearedChildren(c, id), pp, ep, sp).1.None?
    ensures var c3 := Stages(ClearedChildren(c, id), pp, ep, sp).0;
            DocumentOf(c3.personal, c3.experience, c3.salary, id) == Document(p, e, s)
  {
    var c0 := ClearedChildren(c, id);
    ClearedChildrenUnlinked(c, id);
    StagesOk(c0, n1, n2, pp, ep, sp);
    AppendedLinks(c0.personal, id, c0.created, pp.done);
    AppendedLinks(c0.experience, id, n1, ep.done);
    AppendedLinks(c0.salary, id, n2, sp.done);
  }

  /** Each stage on a document the compressor built raises nothing, and its
      records give the part back. */
  lemma PlansRoundTrip(id: string, p: seq<Record>, e: seq<Record>, s: seq<Record>, svc: Service, n: nat)
    returns (n1: nat, n2: nat)
    requires AcceptsCreates(svc)
    ensures var doc := Document(p, e, s).members;
            GivesBack(n, n1, n2, PersonalPlan(id, doc, svc), ExperienceListPlan(id, doc, svc), SalaryPlan(id, doc, svc),
                      p, e, s)
  {
    var doc := Document(p, e, s).members;
    var pp, ep, sp := PersonalPlan(id, doc, svc), ExperienceListPlan(id, doc, svc), SalaryPlan(id, doc, svc);
    n1 := n + |pp.done|;
    n2 := n1 + |ep.done|;
    DocumentPlans(id, p, e, s, svc);
    PersonalRoundTrip(id, p, svc, n);
    ExperienceRoundTrip(id, e, svc, n1);
    SalaryRoundTrip(id, s, svc, n2);
  }

  /** Recreating the records from a document the compressor built and
      compressing them again gives the same document. */
  lemma DocumentOfRecreated(c: Children, id: string, p: seq<Record>, e: seq<Record>, s: seq<Record>, svc: Service)
    requires AcceptsCreates(svc)
    ensures var out := Recreate(ClearedChildren(c, id), id, Document(p, e, s).members, svc);
            out.1.None? && DocumentOf(out.0.personal, out.0.experience, out.0.salary, id) == Document(p, e, s)
  {
    var doc := Document(p, e, s).members;
    var n1, n2 := PlansRoundTrip(id, p, e, s, svc, c.created);
    PlansLinked(id, doc, svc);
    RecreateStages(ClearedChildren(c, id), id, doc, svc);
    StagesDocument(c, id, n1, n2, PersonalPlan(id, doc, svc), ExperienceListPlan(id, doc, svc), SalaryPlan(id, doc, svc), p, e, s);
  }

  /** Decompressing a document the compressor produced and compressing the
      recreated records again gives the same document, when the store
      accepts every create. */
  lemma DecompressThenCompress(applicants: seq<Record>, c: Children, id: string, codec: Codec, svc: Service,
                               p: seq<Record>, e: seq<Record>, s: seq<Record>, text: string)
    requires FindRecord(applicants, id).Some?
    requires SafeGetField(FindRecord(applicants, id).value, "Compressed JSON", JNull) == JStr(text) && text != ""
    requires codec.decode(text) == Some(Document(p, e, s))
    requires AcceptsCreates(svc)
    ensures var out := Decompress(applicants, c, id, codec, svc);
            out.1 == Decompressed(Document(p, e, s)) &&
            DocumentOf(out.0.personal, out.0.experience, out.0.salary, id) == Document(p, e, s)
  {
    DecompressParsed(applicants, c, id, codec, svc, Document(p, e, s));
    DocumentOfRecreated(c, id, p, e, s, svc);
  }
}
