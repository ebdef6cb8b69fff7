# Contractor applicant pipeline, modelled in Dafny

This project models the core of an applicant-processing pipeline built on an Airtable base. It has five tables:
- Applicants;
- Personal Details;
- Work Experience;
- Salary Preferences;
- Shortlisted Leads.

The pipeline runs three phases over these tables:

1. **Compression.** Each applicant's linked personal, experience and salary records are folded into one JSON document. The document is stored in the applicant's `Compressed JSON` field. The decompressor is the inverse: it deletes the linked records and recreates them from the document.
2. **Shortlisting.** Three business rules are applied to every applicant: experience, compensation and location. Eligible applicants get a lead record and the status "yes".
3. **LLM evaluation.** The document is sent to a language model. Its reply is decoded as JSON first; when that fails, it is parsed as section-structured text. A summary, a score and follow-up questions are then written back. An evaluation is skipped when it is already up to date.

The driver (`main.py`) has three jobs:
- it selects applicants by mode;
- it runs the phases in order;
- it turns the result into an exit code.

The store is a class with one `seq<Record>` per table, and its methods update those tables in place. Field values and documents are one `Json` datatype, and Python truthiness is `Values.Truthy`. Several outside services are oracles, passed in as parameters:
- JSON encoding and decoding, the sorted-key dump and its digest (`Values.Codec`);
- date parsing and today's date, text-to-float conversion and number formatting (`Shortlister.Env`);
- the language model (a function from the document to a completion);
- refusals by the remote store (`Airtable.Service`).

Dates are day numbers. Years of experience are integer days: `years >= 4.0` is exactly `days >= 1461`. The constants from `config.py` are carried over as `const`s:
- the tier-1 companies;
- the allowed location tokens;
- the rate, availability and experience thresholds.

Modules follow the source files:
- `wrappers.dfy`, `text.dfy` and `values.dfy` hold the shared datatypes, Python's string methods and the JSON value;
- `helpers.dfy` and `airtable.dfy` model `utils/`;
- `compressor.dfy`, `decompressor.dfy`, `shortlister.dfy` and `llm_evaluator.dfy` model `processors/`;
- `pipeline.dfy` models `main.py`.

## Model

| member | source | states |
|---|---|---|
| Helpers.SafeGetField | utils/helpers.py:24-26 | the default when the record has no fields or lacks the key, otherwise the stored value |
| Helpers.ParseDateSafe | utils/helpers.py:28-35 | a falsy value gives no date; a date only comes from a string the parser accepts |
| Helpers.ContributionCases | utils/helpers.py:43-52 | a record without a usable Start adds 0 and the loop goes on; an empty or missing End counts up to today (0 when the start is later); the record raises iff its Start parses and its End is non-empty but does not parse |
| Helpers.ExperienceDays | utils/helpers.py:37-54 | no records give 0 days; the only exception is the comparison with a missing end date |
| Helpers.ExperienceDaysConcat | utils/helpers.py:41-54 | the total over a concatenation is the sum of the totals (no overlap is removed), and an exception in either part raises |
| Helpers.ExperienceDaysSwap | utils/helpers.py:41-54 | the order of the records does not change the total |
| Helpers.ExperienceDaysGrows | utils/helpers.py:41-54 | inserting a record anywhere never lowers the total; a record without a usable Start leaves it unchanged |
| Helpers.BadEndRaises | utils/helpers.py:28-51 | one record with a parsable Start and an unparsable non-empty End makes the whole computation raise |
| Helpers.CalculateExperienceDays | utils/helpers.py:37-54 | the loop computes exactly the day total `ExperienceDays` |
| Helpers.Waits | utils/helpers.py:17-19 | the wait after failed attempt j is `backoff_factor ** j` |
| Helpers.RetryWithBackoff | utils/helpers.py:6-22 | at most `max_retries` calls; the first success is returned after all earlier calls raised; when all raise, the last exception is re-raised; with `max_retries <= 0` nothing is called and None is returned; the waits taken are those of the failed attempts |
| Airtable.LinkedRecordsSpec | utils/airtable_client.py:25-28 | the linked records are exactly the rows whose link list holds the id (a row without the field is left out), as an order-preserving subsequence |
| Airtable.LinkedRecordsConcat | utils/airtable_client.py:25-28 | filtering distributes over concatenation of the table |
| Airtable.LinkedRecordsNone | utils/airtable_client.py:25-28 | with no row referring to the applicant, nothing is linked |
| Airtable.FindRecord | utils/airtable_client.py:17-19 | the record found is in the table with that id; None means no record has that id |
| Airtable.Patch | utils/airtable_client.py:21-23 | an update merges the fields into the records with that id and leaves every other record as it was |
| Airtable.WithoutSpec | utils/airtable_client.py:25-28 | after deleting a set of ids, exactly the records with other ids remain |
| Airtable.WithoutTwice | utils/airtable_client.py:25-28 | two rounds of deletion equal one deletion of both id sets |
| Airtable.MintedAt | utils/airtable_client.py:7-11 | the i-th created record carries the i-th field map under the i-th new id |
| Airtable.Store.constructor | utils/airtable_client.py:5-11 | a store holds the five given tables and has created nothing yet |
| Airtable.Store.GetAllApplicants | utils/airtable_client.py:13-15 | returns the applicants table and changes nothing |
| Airtable.Store.GetApplicant | utils/airtable_client.py:17-19 | the applicant with that id, or None when there is none |
| Airtable.Store.UpdateApplicant | utils/airtable_client.py:21-23 | succeeds iff the id exists and the store accepts the write; then only that applicant's fields change and every other table is unchanged |
| Airtable.Store.Create | utils/airtable_client.py:7-11 | an accepted create appends one record to that table only, under the id `MintId(created)` numbered by the count of earlier creates, and bumps the count; a refused create changes nothing |
| Airtable.MintIdInjective | utils/airtable_client.py:7-11 | two creates with different counts get different ids, so a created id was never handed out by an earlier create |
| Airtable.Store.Delete | utils/airtable_client.py:7-11 | that table afterwards holds exactly its old records without those with that id, in order; the other tables and the create count are unchanged |
| Compressor.ProjectSpec | processors/compressor.py:37-79 | a projected object holds exactly the kept targets, each with its source field's value |
| Compressor.PersonalObjectSpec | processors/compressor.py:37-47 | only the first personal record is read; name, email, location and linkedin appear iff Full Name, Email, Location and LinkedIn are truthy |
| Compressor.ExperienceListSpec | processors/compressor.py:50-66 | every experience entry is a non-empty object |
| Compressor.ExperienceList | processors/compressor.py:50-66 | there are never more entries than records |
| Compressor.ExperienceListConcat | processors/compressor.py:50-66 | entries follow the records in order: the list of a concatenation is the concatenation of the lists |
| Compressor.ExperienceListSingle | processors/compressor.py:51-66 | one record gives one entry iff one of its mapped fields is truthy |
| Compressor.SalaryObjectSpec | processors/compressor.py:69-79 | only the first salary record is read; the rates and the availability are kept whenever they are not None (so 0 is kept); the currency is kept only when truthy |
| Compressor.DocumentShape | processors/compressor.py:81-85 | the document is an object whose keys are exactly personal, experience and salary; with no child records it is `{"personal": {}, "experience": [], "salary": {}}` |
| Compressor.BuildJsonStructure | processors/compressor.py:34-86 | the loop builds exactly the document of the three record lists |
| Compressor.CompressApplicantData | processors/compressor.py:10-32 | the result is the compression outcome; the only write is that applicant's `Compressed JSON`; a failure is returned, never raised |
| Compressor.CompressAllPartition | processors/compressor.py:87-111 | the three lists together count the applicants, the skipped ones being exactly those that already have a document; each applicant without a document is in success when its compression succeeds and in failed with its error otherwise; every listed id comes from such an applicant with that outcome |
| Compressor.CompressStep | processors/compressor.py:93-105 | compressing one applicant keeps the table's ids, so later outcomes in the batch equal those against the starting table |
| Compressor.CompressBatchStep | processors/compressor.py:93-105 | one step of the batch loop: the outcome is the one against the starting table, and the table afterwards is the starting table with the first i+1 applicants' writes applied |
| Compressor.CompressedCarryDocument | processors/compressor.py:87-111 | after the batch an applicant compressed successfully holds, as `Compressed JSON`, the encoding of the document built from its linked records, and its id is in success |
| Compressor.UncompressedUntouched | processors/compressor.py:87-111 | an applicant whose id is not in success keeps its record unchanged |
| Compressor.CompressAllApplicants | processors/compressor.py:87-111 | the report is the batch report over the starting table; the new applicants table is the old one with `Compressed JSON` written for each successfully compressed applicant, in listing order; an applicant not compressed keeps its record; the child tables are unchanged |
| Decompressor.ProjectRoundTrip | processors/decompressor.py:42-97 | for field maps with distinct keys, sending a projected object back through the inverse map and forward again gives the same object |
| Decompressor.DecompressFailsBeforeClearing | processors/decompressor.py:11-23 | an unknown applicant, a missing document and an unparsable document all fail with no record deleted or created; the tables change only when the document parses |
| Decompressor.DecompressedTables | processors/decompressor.py:11-40 | on success, each child table is its old rows without those linked to the applicant, followed by the newly linked records; at most one personal and one salary record are linked |
| Decompressor.RecreateErrors | processors/decompressor.py:24-33 | recreation fails only because a part is not an object, the experience list is not iterable, or the store refused a write |
| Decompressor.PersonalRecordCreated | processors/decompressor.py:42-59 | a personal record is created iff one of name, email, location and linkedin is truthy, and it carries the applicant link |
| Decompressor.SalaryRecordCreated | processors/decompressor.py:80-97 | a salary record is created iff one field was copied: a rate or the availability when not None, or the currency when truthy |
| Decompressor.ExperienceRunCreates | processors/decompressor.py:61-78 | when the store accepts every write, one experience record is created per entry with a copied field, in list order, and the run ends without error |
| Decompressor.MissingPartsCreateNothing | processors/decompressor.py:26-28 | a document without personal, experience and salary keys creates no record and succeeds |
| Decompressor.ClearExistingRecords | processors/decompressor.py:35-40 | the three child tables lose exactly the records linked to the applicant |
| Decompressor.DeleteLinked | processors/decompressor.py:35-40 | one child table loses exactly the records linked to the applicant, in order; every other table is unchanged |
| Decompressor.CreatePersonalRecord | processors/decompressor.py:42-59 | appends the personal record the plan calls for, or reports the refused write |
| Decompressor.CreateExperienceRecords | processors/decompressor.py:61-78 | appends one record per populated entry, stopping at the first refused write |
| Decompressor.CreateExperienceEntry | processors/decompressor.py:63-78 | one entry of the list: a non-object raises; otherwise the record with its copied fields is appended under the next minted id when a field was copied, or the refused write is reported |
| Decompressor.CreateExperienceEntries | processors/decompressor.py:63-78 | the loop appends, in list order and under consecutive minted ids, exactly the records of the entries before the first error, and returns that error |
| Decompressor.CreateSalaryRecord | processors/decompressor.py:80-97 | appends the salary record the plan calls for, or reports the refused write |
| Decompressor.RecreateRecords | processors/decompressor.py:24-28 | the three creation steps run in order and stop at the first error |
| Decompressor.DecompressApplicantData | processors/decompressor.py:11-33 | the new tables and the result are those of `Decompress` on the old state; the applicants and leads are unchanged |
| Decompressor.DecompressThenCompress | processors/decompressor.py:42-97 | decompressing a document the compressor built, then compressing again, yields the same document |
| Shortlister.Tier1MatchSpec | processors/shortlister.py:91-97 | the search reports the Company of the first tier-1 record; None means no record is tier-1; it raises only at a non-text Company, with no tier-1 record before it |
| Shortlister.Tier1Found | processors/shortlister.py:91-97 | when the search does not raise, it finds a company iff some record's stripped, lower-cased Company contains a tier-1 token |
| Shortlister.ExperienceRule | processors/shortlister.py:69-89 | experience passes iff the days reach four years or a tier-1 employer is found; a failure reason is the years text |
| Shortlister.CompensationRule | processors/shortlister.py:99-130 | no records fail with "No salary information"; only the first record is read; it passes iff the stripped, upper-cased currency is USD, the rate is at most 100 and the availability at least 20; a bad number fails rather than raising |
| Shortlister.LocationRule | processors/shortlister.py:132-145 | no records fail with "No location information"; only the first record is read; it passes iff the lower-cased location contains an allowed token; it raises iff the Location is not text |
| Shortlister.AustraliaPasses | config.py:33-35 | containment is by substring, so "Australia" passes through "us" |
| Shortlister.PassingFailingSplit | processors/shortlister.py:41-57 | each rule lands in exactly one of the passing and failing lists |
| Shortlister.AssessPartition | processors/shortlister.py:35-57 | eligible is the AND of the three rules; reasons are the passing ones in rule order; fail reasons are the failing ones, each with its label |
| Shortlister.UnreadableFirst | processors/shortlister.py:15-23 | a missing or unparsable document gives ineligible with its reason, whatever the child tables hold |
| Shortlister.EligibleIffAllRules | processors/shortlister.py:12-67 | with a readable document, the applicant is eligible iff all three rules pass on its linked records |
| Shortlister.ShortlistApplicant | processors/shortlister.py:147-180 | an unreadable document raises (the missing `fail_reasons` key); an ineligible applicant gets "Does not meet criteria" and no write; an eligible one gets a lead, then status "yes", unless the create was refused; it is reported shortlisted in either case |
| Shortlister.OutcomeRaises | processors/shortlister.py:147-155 | shortlisting one applicant raises iff its evaluation raises or finds the document unreadable |
| Shortlister.WritesKeepIds | processors/shortlister.py:157-178 | shortlisting one applicant keeps the applicant ids and only adds leads |
| Shortlister.ShortlistAllPartition | processors/shortlister.py:182-204 | when the batch completes, applicants with status "yes" are skipped unrecorded and the three lists count all the others; each other applicant is filed under its own outcome (success with its reasons, failed when the reason contains "Error", ineligible otherwise); every listed entry comes from such an applicant with that outcome |
| Shortlister.OutcomeNeverFailed | processors/shortlister.py:147-180 | a rejection's reason never contains "Error" |
| Shortlister.ShortlistNeverFails | processors/shortlister.py:182-204 | the failed list of the batch is always empty |
| Shortlister.ShortlistAllRaises | processors/shortlister.py:182-204 | the batch raises iff some applicant not yet shortlisted has an outcome that raises: an evaluation that raises or an unreadable document |
| Shortlister.UnreadableStopsBatch | processors/shortlister.py:147-155 | an applicant not yet shortlisted whose document is missing or does not parse makes the whole batch raise |
| Shortlister.RaisedWritesNothing | processors/shortlister.py:182-204 | once the batch has raised, the later applicants write nothing |
| Shortlister.LeadStep | processors/shortlister.py:157-178 | one accepted lead keeps the leads table equal to the starting one plus one lead per success so far |
| Shortlister.LeadsFollowSuccesses | processors/shortlister.py:157-204 | when the store accepts every lead and the batch completes, the leads table is the starting one plus one lead per success, in order |
| Shortlister.ShortlistAllApplicants | processors/shortlister.py:182-204 | the report is the batch report over the starting table; the new applicants and leads tables are those of the batch's writes (a lead, then status "yes", per eligible applicant) applied in listing order; ids are kept and leads only added |
| LlmEvaluator.ParseLlmResponse | processors/llm_evaluator.py:119-167 | the loop computes exactly the parse of the reply's classified lines; it never raises |
| LlmEvaluator.NoHeadersGiveDefaults | processors/llm_evaluator.py:124-129 | a reply without a header line parses to empty summary, issues and follow-ups and score 0 |
| LlmEvaluator.BodyFromStart | processors/llm_evaluator.py:134-160 | lines before the first header are dropped |
| LlmEvaluator.SectionBody | processors/llm_evaluator.py:135-165 | a text section whose header is followed only by body lines has as value its header's remaining text plus the non-blank lines, joined by line breaks and stripped; blank lines are dropped |
| LlmEvaluator.SectionEndsAtNextHeader | processors/llm_evaluator.py:135-165 | a text section ends at the next header line; anything after it that does not reopen the section leaves its value alone, so the value of any section, not only the last one, is its own body |
| LlmEvaluator.RestartForgetsEarlier | processors/llm_evaluator.py:135-140 | a repeated header restarts its section: what came before the last occurrence is forgotten |
| LlmEvaluator.ScoreKept | processors/llm_evaluator.py:141-148 | a "Score: N" line keeps its integer when only blank lines follow it |
| LlmEvaluator.ScoreBecomesText | processors/llm_evaluator.py:134-165 | once a non-blank line follows the last "Score:" line, the score becomes the stripped text of the lines up to the next header, joined by line breaks |
| LlmEvaluator.ScoreLineRead | processors/llm_evaluator.py:141-148 | the line "Score: " followed by the decimal digits of n is read as the score line of n |
| LlmEvaluator.JoinCharsSpread | processors/llm_evaluator.py:230 | joining a string's characters puts a line break between every two of them |
| LlmEvaluator.WriteBackFields | processors/llm_evaluator.py:230-239 | a parsed-text reply always gives a write-back; the write names exactly LLM Summary, LLM Score and LLM Follow-Ups, never LLM Data Hash |
| LlmEvaluator.SkipRule | processors/llm_evaluator.py:178-194 | the evaluation is skipped iff the document parses, the stored hash matches and a summary is present; a missing or unparsable document and an up-to-date one are decided without the model |
| LlmEvaluator.ReevaluatedEveryRun | processors/llm_evaluator.py:189-239 | without a stored hash, an applicant is never skipped, even after its own write-back |
| LlmEvaluator.EvaluateApplicant | processors/llm_evaluator.py:174-247 | the result is the evaluation outcome; the applicant is patched exactly when a write-back is made, which happens also when the usage is None and the result is then a failure; no other table changes |
| LlmEvaluator.WriteOfOutcome | processors/llm_evaluator.py:221-247 | for an applicant in the table, a write-back is made iff the outcome is an evaluation or the usage-None failure, and an evaluation writes its reply's fields |
| LlmEvaluator.LlmAllPartition | processors/llm_evaluator.py:249-282 | the three lists together count the applicants; an applicant is skipped with "No compressed JSON" iff it has no document; every other applicant is filed under its own outcome; every listed entry comes from such an applicant with that outcome |
| LlmEvaluator.NeverFailsForMissingDocument | processors/llm_evaluator.py:255-261 | the batch never reports "No compressed JSON found" as a failure |
| LlmEvaluator.EvaluateAllApplicants | processors/llm_evaluator.py:249-282 | the report is the batch report over the starting table; the new applicants table is the old one with each applicant's write-back applied in listing order; ids are kept and the child tables are unchanged |
| LlmEvaluator.LlmBatchStep | processors/llm_evaluator.py:249-282 | evaluating an applicant against the table the earlier write-backs left gives the outcome against the starting table |
| LlmEvaluator.EvaluatedCarryReply | processors/llm_evaluator.py:229-244 | after the batch an applicant evaluated successfully holds every field of its reply's write-back, and its id is in success |
| Pipeline.SelectionSpec | main.py:16-32 | the selection is an order-preserving subsequence of the listing holding exactly the applicants the mode wants ("all" every one, "new_only" those without a document, "changed" those with a document but no summary, any other mode none) |
| Pipeline.ModesDisjoint | main.py:16-32 | "new_only" and "changed" never select the same applicant |
| Pipeline.GetApplicantsForProcessing | main.py:16-32 | returns the mode's selection of the applicants table |
| Pipeline.RecompressPartition | main.py:79-96 | in mode "all" the success and failed lists count the selection and nothing is skipped; each selected applicant is in success when its compression succeeds and in failed with its error otherwise; every listed id comes from such an applicant |
| Pipeline.RunCompressionPhase | main.py:79-102 | mode "all" recompresses the selection one by one; any other mode runs the batch compression and ignores the selection; the applicants table afterwards is `AfterCompression` of the old tables, and the child and lead tables are unchanged |
| Pipeline.RecompressStep | main.py:84-93 | recompressing one selected applicant against the table the earlier writes left gives the outcome against the starting table, and the table stays the starting one with the first i+1 writes |
| Pipeline.RecompressSelected | main.py:81-93 | the report is the recompression report of the selection, and the applicants table is the old one with each selected applicant's `Compressed JSON` rewritten in selection order |
| Pipeline.RunFullPipeline | main.py:34-77 | there is no work iff nothing is selected, and then nothing changes; an unknown single applicant raises before any write; the compression report depends on the mode; shortlisting runs over the table compression left and the LLM evaluation over the table shortlisting left, with the resulting leads and applicants tables stated; a raising shortlisting ends the run with its exception; shortlisting never fails and LLM evaluation never fails for a missing document |
| Pipeline.UnparsableDocumentStopsRun | main.py:53-61 | outside mode "all", an applicant not yet shortlisted whose stored document does not parse survives compression and makes shortlisting raise, so the run ends with exit code 2 |
| Pipeline.ExitCodeMeaning | main.py:175-188 | the code is 0, 1 or 2; it is 2 iff the run raised, and 1 iff a completed run has a compression or LLM failure |

## Left out

- Network, authentication and Airtable API behaviour are not modelled. A write the remote store refuses is decided by the `Service` parameter. Listing the applicants never fails.
- `get_applicant` with an unknown id: the store's exception is the constant `NOT_FOUND`. Exception message texts in general are `Error` values or constant strings, not Python's formatted messages.
- JSON text encoding and decoding, `json.dumps(sort_keys=True)` and MD5 are the `Codec` parameter.
  - JSON objects are maps, so key order does not exist in the model. Two documents differing only in key order are the same value, and so hash the same.
- Date parsing (`dateutil`) and `datetime.now()` are the `parse` and `today` parameters. Dates are day numbers.
- Floating point is not modelled:
  - the `/ 365.25` division becomes the 1461-day threshold;
  - `float()` on text goes through the `parseFloat` parameter;
  - NaN and infinities are not represented;
  - the years text in a reason is rendered from the day count, not by Python's `:.1f` formatting.
- The language model call and `_build_evaluation_prompt` (processors/llm_evaluator.py:41-116,196-221) are a function from the document to a completion. The prompt text is not modelled.
- A missing `usage` counts 0 tokens. A `usage` of `None` fails the applicant after the write-back, as Python's AttributeError does, with the constant error `NoTokenCount`.
- LlmEvaluator.FollowUpsText: a JSON object as `follow_ups` is reported as a malformed result. Python would join its keys.
- `time.sleep` is not modelled. The retry wrapper returns the waits it would take, and the pause between LLM requests is left out.
- The `retry_with_backoff` decorator on `evaluate_applicant` and `compress_all_applicants` is modelled as a single call. Both functions catch their own exceptions, so no retry can happen.
- Text: `lower` and `upper` change only the ASCII letters; `strip` uses Python's full whitespace set.
- Text.ParseInt: accepts an optional sign and ASCII digits. The underscores between digits and the non-ASCII digits that Python's `int()` also accepts are rejected.
- Airtable.LinkedTo: a link field that is neither a list, a string nor an object (a number, a boolean or null) makes Python's `in` raise TypeError. The model treats such a row as not linked.
- Airtable.Store.Delete: a delete never fails. The remote delete can raise partway through `_clear_existing_records`, leaving only some linked records deleted; that partial clear is not modelled.
- Airtable.Store.Create: the new id is `MintId` of the create count, distinct from every earlier created id. The ids of the rows the store starts with are not constrained, so it is not stated that no such row already carries a minted id.
- Not part of this model:
  - all console output (`print`) and `_print_pipeline_summary`;
  - the `--dry-run` option and argument parsing in `main()`;
  - `manual_tools.py`;
  - `seed_data.py`;
  - the environment loading of `config.py` (its constants are carried as `const`s).
