/** utils/airtable_client.py: the record store with its five tables, and the
    `linked_records` filter over a child table. */
module Airtable {
  import opened Wrappers
  import opened Values
  import opened Text
  import opened Helpers

  datatype Table = Applicants | Personal | Experience | Salary | Shortlisted

  /** The back-reference field of the child tables (config.py, default value). */
  const LINK_FIELD := "Applicant ID"
  /** The back-reference field of the shortlisted-leads table. */
  const SHORTLIST_LINK_FIELD := "Applicant ID"

  /** `applicant_id in r.get("fields", {}).get(LINK_FIELD, [])`: list
      membership for a list of ids, substring for a text, key membership for
      an object; a missing field is the empty list. */
  predicate LinkedTo(r: Record, applicantId: string) {
    match SafeGetField(r, LINK_FIELD, JArr([]))
    case JArr(items) => JStr(applicantId) in items
    case JStr(s) => Contains(s, applicantId)
    case JObj(m) => applicantId in m
    case _ => false
  }

  /** `xs` is `ys` with some elements left out, order kept. */
  predicate IsSubsequence(xs: seq<Record>, ys: seq<Record>) {
    if xs == [] then true
    else if ys == [] then false
    else if xs[0] == ys[0] then IsSubsequence(xs[1..], ys[1..])
    else IsSubsequence(xs, ys[1..])
  }

  /** `linked_records(table, applicant_id)`: the rows of the child table that
      refer back to the applicant, in the table's order. */
  function LinkedRecords(rows: seq<Record>, applicantId: string): seq<Record> {
    if rows == [] then []
    else if LinkedTo(rows[0], applicantId) then [rows[0]] + LinkedRecords(rows[1..], applicantId)
    else LinkedRecords(rows[1..], applicantId)
  }

  /** The linked records are exactly the rows that refer to the applicant,
      in the table's order; a row without the link field is left out. */
  lemma {:induction false} LinkedRecordsSpec(rows: seq<Record>, applicantId: string)
    ensures forall x :: x in LinkedRecords(rows, applicantId) <==> x in rows && LinkedTo(x, applicantId)
    ensures IsSubsequence(LinkedRecords(rows, applicantId), rows)
    ensures |LinkedRecords(rows, applicantId)| <= |rows|
    decreases |rows|
  {
    if rows != [] {
      LinkedRecordsSpec(rows[1..], applicantId);
      var r := LinkedRecords(rows, applicantId);
      if LinkedTo(rows[0], applicantId) {
        assert r[1..] == LinkedRecords(rows[1..], applicantId);
      }
    }
  }

  /** With no row referring to the applicant there is nothing linked. */
  lemma {:induction false} LinkedRecordsNone(rows: seq<Record>, applicantId: string)
    requires forall x :: x in rows ==> !LinkedTo(x, applicantId)
    ensures LinkedRecords(rows, applicantId) == []
    decreases |rows|
  {
    if rows != [] {
      assert rows[0] in rows;
      LinkedRecordsNone(rows[1..], applicantId);
    }
  }

  lemma {:induction false} LinkedRecordsConcat(a: seq<Record>, b: seq<Record>, applicantId: string)
    ensures LinkedRecords(a + b, applicantId) == LinkedRecords(a, applicantId) + LinkedRecords(b, applicantId)
    decreases |a|
  {
    if a != [] {
      assert (a + b)[1..] == a[1..] + b;
      LinkedRecordsConcat(a[1..], b, applicantId);
    } else {
      assert a + b == b;
    }
  }

  /** The first record with the given id (ids are unique in Airtable). */
  function FindRecord(rows: seq<Record>, id: string): (r: Option<Record>)
    ensures r.Some? ==> r.value in rows && r.value.id == id
    ensures r.None? ==> forall x :: x in rows ==> x.id != id
  {
    if rows == [] then None
    else if rows[0].id == id then Some(rows[0])
    else FindRecord(rows[1..], id)
  }

  /** `table.update(id, fields)`: the given fields are merged into every
      record with that id; the other records and fields stay as they were. */
  function Patch(rows: seq<Record>, id: string, fields: Fields): (r: seq<Record>)
    ensures |r| == |rows|
    ensures forall i :: 0 <= i < |rows| ==>
              r[i] == if rows[i].id == id then Record(id, Some(FieldsOf(rows[i]) + fields)) else rows[i]
  {
    if rows == [] then []
    else
      [if rows[0].id == id then Record(id, Some(FieldsOf(rows[0]) + fields)) else rows[0]] +
      Patch(rows[1..], id, fields)
  }

  /** Patching never changes which ids a table holds. */
  lemma {:induction false} PatchKeepsIds(rows: seq<Record>, id: string, fields: Fields, x: string)
    ensures FindRecord(Patch(rows, id, fields), x).Some? == FindRecord(rows, x).Some?
    decreases |rows|
  {
    if rows != [] {
      PatchKeepsIds(rows[1..], id, fields, x);
    }
  }

  /** A record whose id is not patched is still there. */
  lemma PatchKeepsOthers(rows: seq<Record>, id: string, fields: Fields, x: Record)
    requires x in rows && x.id != id
    ensures x in Patch(rows, id, fields)
  {
    var i :| 0 <= i < |rows| && rows[i] == x;
    assert Patch(rows, id, fields)[i] == x;
  }

  /** Two tables that hold the same ids. */
  ghost predicate SameIds(a: seq<Record>, b: seq<Record>) {
    forall x :: FindRecord(a, x).Some? == FindRecord(b, x).Some?
  }

  /** The updates keep the set of ids the table holds. */
  lemma {:induction false} PatchEachSameIds(rows: seq<Record>, apps: seq<Record>, write: Record -> Option<Fields>)
    ensures SameIds(PatchEach(rows, apps, write), rows)
    decreases |apps|
  {
    if apps != [] {
      var prev := PatchEach(rows, apps[..|apps| - 1], write);
      PatchEachSameIds(rows, apps[..|apps| - 1], write);
      var last := apps[|apps| - 1];
      if write(last).Some? {
        forall x ensures FindRecord(Patch(prev, last.id, write(last).value), x).Some? == FindRecord(rows, x).Some? {
          PatchKeepsIds(prev, last.id, write(last).value, x);
        }
      }
    }
  }

  /** Patching an id the table does not hold changes nothing. */
  lemma PatchAbsent(rows: seq<Record>, id: string, fields: Fields)
    requires FindRecord(rows, id).None?
    ensures Patch(rows, id, fields) == rows
  {
    assert forall i :: 0 <= i < |rows| ==> rows[i] in rows;
  }

  /** The table after `update(app.id, f)` for each applicant of the listing,
      in order, that `write` gives fields `f` for. */
  function PatchEach(rows: seq<Record>, apps: seq<Record>, write: Record -> Option<Fields>): (r: seq<Record>)
    ensures |r| == |rows|
  {
    if apps == [] then rows
    else
      var prev := PatchEach(rows, apps[..|apps| - 1], write);
      var w := write(apps[|apps| - 1]);
      if w.Some? then Patch(prev, apps[|apps| - 1].id, w.value) else prev
  }

  /** One more applicant in the listing. */
  lemma PatchEachStep(rows: seq<Record>, apps: seq<Record>, i: nat, write: Record -> Option<Fields>)
    requires i < |apps|
    ensures PatchEach(rows, apps[..i + 1], write) ==
              if write(apps[i]).Some? then Patch(PatchEach(rows, apps[..i], write), apps[i].id, write(apps[i]).value)
              else PatchEach(rows, apps[..i], write)
  {
    assert apps[..i + 1][..i] == apps[..i];
  }

  /** The updates keep the id at every position. */
  lemma {:induction false} PatchEachShape(rows: seq<Record>, apps: seq<Record>, write: Record -> Option<Fields>)
    ensures forall i :: 0 <= i < |rows| ==> PatchEach(rows, apps, write)[i].id == rows[i].id
    decreases |apps|
  {
    if apps != [] {
      PatchEachShape(rows, apps[..|apps| - 1], write);
    }
  }

  /** A record that no update names is still in the table. */
  lemma {:induction false} PatchEachUntouched(rows: seq<Record>, apps: seq<Record>, write: Record -> Option<Fields>, x: Record)
    requires x in rows
    requires forall k :: 0 <= k < |apps| && apps[k].id == x.id ==> write(apps[k]).None?
    ensures x in PatchEach(rows, apps, write)
    decreases |apps|
  {
    if apps != [] {
      var init := apps[..|apps| - 1];
      assert forall k :: 0 <= k < |init| ==> init[k] == apps[k];
      PatchEachUntouched(rows, init, write, x);
      if write(apps[|apps| - 1]).Some? {
        PatchKeepsOthers(PatchEach(rows, init, write), apps[|apps| - 1].id, write(apps[|apps| - 1]).value, x);
      }
    }
  }

  /** The last update of an id leaves its fields on every record with that id. */
  lemma {:induction false} PatchEachWritten(rows: seq<Record>, apps: seq<Record>, write: Record -> Option<Fields>,
                                            k: nat, i: nat)
    requires k < |apps| && i < |rows| && rows[i].id == apps[k].id && write(apps[k]).Some?
    requires forall j :: k < j < |apps| ==> apps[j].id != apps[k].id
    ensures var after := FieldsOf(PatchEach(rows, apps, write)[i]);
            forall key :: key in write(apps[k]).value ==> key in after && after[key] == write(apps[k]).value[key]
    decreases |apps|
  {
    var init := apps[..|apps| - 1];
    PatchEachShape(rows, init, write);
    if k < |apps| - 1 {
      assert forall j :: k < j < |init| ==> init[j] == apps[j];
      PatchEachWritten(rows, init, write, k, i);
    }
  }

  /** The rows left after deleting every id in `ids`. */
  function Without(rows: seq<Record>, ids: set<string>): seq<Record> {
    if rows == [] then []
    else if rows[0].id in ids then Without(rows[1..], ids)
    else [rows[0]] + Without(rows[1..], ids)
  }

  /** Deleting keeps exactly the records whose id was not deleted. */
  lemma {:induction false} WithoutSpec(rows: seq<Record>, ids: set<string>)
    ensures forall x :: x in Without(rows, ids) <==> x in rows && x.id !in ids
    decreases |rows|
  {
    if rows != [] {
      WithoutSpec(rows[1..], ids);
    }
  }

  lemma {:induction false} WithoutTwice(rows: seq<Record>, a: set<string>, b: set<string>)
    ensures Without(Without(rows, a), b) == Without(rows, a + b)
    decreases |rows|
  {
    if rows != [] {
      WithoutTwice(rows[1..], a, b);
    }
  }

  lemma {:induction false} WithoutNothing(rows: seq<Record>)
    ensures Without(rows, {}) == rows
    decreases |rows|
  {
    if rows != [] {
      WithoutNothing(rows[1..]);
    }
  }

  /** The ids of the given records. */
  function IdSet(rows: seq<Record>): (s: set<string>)
    ensures forall x :: x in rows ==> x.id in s
  {
    if rows == [] then {} else IdSet(rows[..|rows| - 1]) + {rows[|rows| - 1].id}
  }

  /** The id the store gives to the `n`-th record it creates. */
  function MintId(n: nat): string {
    "rec" + NatToString(n)
  }

  /** Distinct creation counts give distinct ids, so every record the store
      creates gets an id no earlier creation used. */
  lemma MintIdInjective(m: nat, n: nat)
    requires m != n
    ensures MintId(m) != MintId(n)
  {
    if MintId(m) == MintId(n) {
      assert NatToString(m) == MintId(m)[3..];
      assert NatToString(n) == MintId(n)[3..];
      ParseNatToString(m);
      ParseNatToString(n);
    }
  }

  /** The records created, in order, from a list of field maps, numbered from `n`. */
  function Minted(n: nat, fieldsList: seq<Fields>): (r: seq<Record>)
    decreases |fieldsList|
    ensures |r| == |fieldsList|
  {
    if fieldsList == [] then [] else [Record(MintId(n), Some(fieldsList[0]))] + Minted(n + 1, fieldsList[1..])
  }

  /** The `i`-th created record carries the `i`-th field map and the
      `(n + i)`-th id. */
  lemma {:induction false} MintedAt(n: nat, fieldsList: seq<Fields>, i: nat)
    requires i < |fieldsList|
    ensures Minted(n, fieldsList)[i] == Record(MintId(n + i), Some(fieldsList[i]))
    decreases i
  {
    if i > 0 {
      MintedAt(n + 1, fieldsList[1..], i - 1);
    }
  }

  /** Whether the remote store refuses a call (network, authentication,
      validation, rate limit): decided by the environment, not by the model. */
  datatype Service = Service(
    refusesCreate: (Table, Fields) -> bool,
    refusesUpdate: (string, Fields) -> bool)

  /** The record store the pipeline shares: one list of records per table. */
  class Store {
    var applicants: seq<Record>
    var personal: seq<Record>
    var experience: seq<Record>
    var salary: seq<Record>
    var shortlisted: seq<Record>
    /** How many records this store has created so far. */
    var created: nat

    constructor (applicants: seq<Record>, personal: seq<Record>, experience: seq<Record>,
                 salary: seq<Record>, shortlisted: seq<Record>)
      ensures this.applicants == applicants && this.personal == personal
      ensures this.experience == experience && this.salary == salary
      ensures this.shortlisted == shortlisted && created == 0
    {
      this.applicants, this.personal, this.experience := applicants, personal, experience;
      this.salary, this.shortlisted, this.created := salary, shortlisted, 0;
    }

    /** `table.all()`. */
    function Rows(t: Table): seq<Record>
      reads this
    {
      match t
      case Applicants => applicants
      case Personal => personal
      case Experience => experience
      case Salary => salary
      case Shortlisted => shortlisted
    }

    /** `get_all_applicants()`. */
    method GetAllApplicants() returns (rows: seq<Record>)
      ensures rows == applicants
    {
      rows := applicants;
    }

    /** `get_applicant(id)`; the store's "not found" error is None. */
    method GetApplicant(id: string) returns (r: Option<Record>)
      ensures r == FindRecord(applicants, id)
    {
      r := FindRecord(applicants, id);
    }

    /** `update_applicant(id, fields)`: fails when no applicant has that id or
      the store refuses; otherwise only that applicant's fields change. */
    method UpdateApplicant(id: string, fields: Fields, svc: Service) returns (ok: bool)
      modifies this
      ensures ok <==> FindRecord(old(applicants), id).Some? && !svc.refusesUpdate(id, fields)
      ensures applicants == if ok then Patch(old(applicants), id, fields) else old(applicants)
      ensures personal == old(personal) && experience == old(experience) && salary == old(salary)
      ensures shortlisted == old(shortlisted) && created == old(created)
    {
      ok := FindRecord(applicants, id).Some? && !svc.refusesUpdate(id, fields);
      if ok {
        applicants := Patch(applicants, id, fields);
      }
    }

    /** `table.create(fields)`: appends a record with a new id. */
    method Create(t: Table, fields: Fields, svc: Service) returns (ok: bool, id: string)
      modifies this
      ensures ok <==> !svc.refusesCreate(t, fields)
      ensures ok ==> id == MintId(old(created)) && created == old(created) + 1
      ensures ok ==> Rows(t) == old(Rows(t)) + [Record(id, Some(fields))]
      ensures !ok ==> Rows(t) == old(Rows(t)) && created == old(created)
      ensures t != Applicants ==> applicants == old(applicants)
      ensures t != Personal ==> personal == old(personal)
      ensures t != Experience ==> experience == old(experience)
      ensures t != Salary ==> salary == old(salary)
      ensures t != Shortlisted ==> shortlisted == old(shortlisted)
    {
      ok := !svc.refusesCreate(t, fields);
      id := MintId(created);
      if !ok {
        return;
      }
      var r := Record(id, Some(fields));
      match t {
        case Applicants => applicants := applicants + [r];
        case Personal => personal := personal + [r];
        case Experience => experience := experience + [r];
        case Salary => salary := salary + [r];
        case Shortlisted => shortlisted := shortlisted + [r];
      }
      created := created + 1;
    }

    /** `table.delete(id)`. */
    method Delete(t: Table, id: string)
      modifies this
      ensures Rows(t) == Without(old(Rows(t)), {id})
      ensures t != Applicants ==> applicants == old(applicants)
      ensures t != Personal ==> personal == old(personal)
      ensures t != Experience ==> experience == old(experience)
      ensures t != Salary ==> salary == old(salary)
      ensures t != Shortlisted ==> shortlisted == old(shortlisted)
      ensures created == old(created)
    {
      match t
      case Applicants => applicants := Without(applicants, {id});
      case Personal => personal := Without(personal, {id});
      case Experience => experience := Without(experience, {id});
      case Salary => salary := Without(salary, {id});
      case Shortlisted => shortlisted := Without(shortlisted, {id});
    }
  }
}
