# Attendance reconciliation engine, modelled in Dafny

The attendance tracker is a Google Apps Script job. It walks a Drive folder
tree for Google Forms and reads every response of every form it has not
reconciled before. For each response it extracts an email and a display name
from the answers, and it keeps one row per person (Name, Email, Count) in a
master sheet. A hidden log sheet (the *ledger*) lists the ids of forms
already reconciled, so a re-run never counts a form twice. There are two
variants:

- `automaticLibrary.js` is configurable, keeps statistics and returns a
  summary;
- `automaticManual.js` is a stand-alone script with hard-coded names, an
  always-on RSVP filter and no statistics.

This project models the engine both files share, in the form the code takes:

- `text.dfy`: ASCII `toLowerCase`, `trim` and `includes` on strings.
- `forms.dfy`: the data the platform hands over. A source is a form with id,
  name, responses and whether it can be opened. A folder holds forms and
  subfolders.
- `classifier.dfy`: the per-response loop. It folds the (title, answer) items
  into four accumulators by substring rules, and then resolves a display
  name.
- `identity.dfy`: `emailMap`, a JavaScript `Map`. It is modelled as a key
  sequence in first-insertion order plus a map, as a `Store` value and as the
  `IdentityMap` class. The file also holds the merge of one response.
- `ledger.dfy`: the JavaScript `Set` of form ids (`IdSet`).
- `walker.dfy`: the library's `processFolder`. Specification functions over a
  `State` value (store, new ids, counters) sit next to the methods that update
  the `emailMap`, `newlyProcessedFormIds` and `stats` objects. Each method is
  proved to follow its function.
- `walk_facts.dfy`: what the walk does as a whole. It covers:
  - depth-first pre-order;
  - the closed form "merge the responses of the reconciled forms, in order";
  - count conservation and longest-name growth;
  - ledger idempotence and RSVP exclusion.
- `sheets.dfy`: the master and log sheets below their header rows. It
  covers:
  - loading the store and the ledger;
  - writing the store back over the master sheet;
  - appending the new ids;
  - the export-then-load round trip.
- `importer.dfy`: the library's `importFormsToSpreadsheet(config)`. It covers
  configuration checks and defaults, the folder lookup, the run as a
  function, the method that performs it, the summary, and the idempotence of
  a whole run.
- `manual.dfy`: the stand-alone script. Its own methods (`if`/`else` name
  resolution, the walk without counters, early returns when a folder is
  missing) are proved against the same specification with the RSVP filter
  on.
- `scenarios.dfy`: concrete cases:
  - two spellings of one address make one identity;
  - an empty form is ledgered;
  - a ledgered form is ignored;
  - an RSVP form is skipped.

Platform calls become parameters:

- Drive's folder search is a sequence of folders, in the order the search
  returns them.
- A form that cannot be opened is a source with `openable == false`.
- The sheets are `OutputSheet.body` (rows 2 to the last row) and
  `LogSheet.ids`.

Behaviour of the code that the model keeps as written:

- **`newEmailsAdded` is always 0.** The walk adds to `stats.newEmailsAdded`
  (automaticLibrary.js:286), but the summary reads `stats.newEmails`
  (automaticLibrary.js:170), which starts at 0 and is never changed.
  `Importer.SummaryCounts` states this.
- **Ledger check during a run.** The check consults only the ids of earlier
  runs (automaticLibrary.js:225). A form met twice in one walk is
  reconciled twice (`WalkFacts.MetTwiceInOneRun`).
- **Sheets are written before the folder lookup.** A missing parent folder or
  subfolder is reported only after the spreadsheet and both sheets have been
  opened or created (automaticLibrary.js:44-72 before 103-122), so a lookup
  failure does not leave the destination wholly untouched. The model follows
  the code but leaves sheet creation out (see below). A failed run leaves the
  rows of both sheets unchanged.
- **The manual script always looks up its subfolder**, even under an empty
  name (automaticManual.js:66). It returns quietly when either lookup fails.

## Model

| member | source | states |
|---|---|---|
| Text.ContainsSpec | automaticLibrary.js:264-267 | `includes(p)` holds exactly when `p` occurs at some position of the string |
| Text.TrimIdempotent | automaticLibrary.js:262 | trimming an already trimmed answer changes nothing |
| Text.TrimLowerCommute | automaticLibrary.js:272 | lower-casing and trimming commute |
| Text.NormalizeIdempotent | automaticLibrary.js:272 | normalising an email twice gives the same key as once |
| Text.NormalizeNonEmpty | automaticLibrary.js:272 | an email with a non-blank character normalises to a non-empty key |
| Classifier.ClassifyResponse | automaticLibrary.js:254-268 | the loop over a response's items leaves the four accumulators equal to the fold of the item rules over the items, starting from the respondent email and empty names; the manual script does the same at automaticManual.js:149-168 |
| Classifier.KindOf | automaticLibrary.js:264-267 | the rule an item's lower-cased title selects, in the code's precedence; `KindOfRules` states what each kind means |
| Classifier.KindOfRules | automaticLibrary.js:264-267 | an item feeds the email exactly when its title mentions "email", and is ignored exactly when it mentions neither "email" nor "name". A first-name item mentions "first" and "name"; a last-name item mentions "last" and "name" but not "first" |
| Classifier.Step | automaticLibrary.js:259-267 | one item's effect on the four accumulators; `StepField` states it field by field |
| Classifier.Fold | automaticLibrary.js:258-268 | the items applied in document order; `NoMatchKeeps` and `LastMatchWins` state the result |
| Classifier.Classify | automaticLibrary.js:254-268 | the fold from the respondent email and empty names; `ClassifyByLastMatch` characterises it from the items alone |
| Classifier.StepField | automaticLibrary.js:259-267 | an item changes only the accumulator its lower-cased title selects ("email", else "first"+"name", else "last"+"name", else "name"). A falsy answer changes nothing. An email item needs an answer that is non-blank once trimmed, while a name item takes its trimmed answer even when that is empty |
| Classifier.NoMatchKeeps | automaticLibrary.js:255-256 | an accumulator no item feeds keeps its initial value |
| Classifier.LastMatchWins | automaticLibrary.js:258-268 | an accumulator ends with the trimmed answer of the last item in document order that feeds it |
| Classifier.ClassifyByLastMatch | automaticLibrary.js:258-268 | the classifier characterised by the items alone: the email is the last non-blank email answer, else the respondent email; each name is the last answer of its kind, else "" |
| Classifier.EmailSource | automaticLibrary.js:256-264 | the resolved email is the respondent email, or it is already trimmed, non-blank, and equal to the trimmed answer of some email item of the response |
| Classifier.FinalName | automaticLibrary.js:270 | the name is empty exactly when all three parts are. With both parts present it is "first last"; otherwise a non-empty full name wins; otherwise it is the first name if present, else the last name |
| Identity.Put | automaticLibrary.js:278-280 | `Map.set` stores the entry under the key and changes no other entry. A present key keeps its position, a new key is appended last, and the key sequence stays duplicate-free and in step with the map |
| Identity.Merge | automaticLibrary.js:272-282 | a present key counts one more and takes the candidate name only when strictly longer, keeping its position; an absent key is appended with count 1; no other entry changes |
| Identity.MergeCounts | automaticLibrary.js:274-281 | one merge adds exactly 1 to the merged key's count, leaves other counts alone, and sets the name length to the larger of old and candidate |
| Identity.IdentityMap.constructor | automaticLibrary.js:75 | `new Map()` is empty |
| Identity.IdentityMap.Set | automaticLibrary.js:84 | `emailMap.set` changes the object as `Put` does and keeps it well formed |
| Ledger.AddId | automaticLibrary.js:285 | adding an id keeps the set duplicate-free |
| Ledger.AddIdsSpec | automaticLibrary.js:285 | adding ids in order keeps the earlier ids first, ends with exactly the old ids and the added ones, and stays duplicate-free |
| Ledger.IdSet.constructor | automaticLibrary.js:101 | `new Set()` is empty |
| Ledger.IdSet.Add | automaticLibrary.js:247 | `Set.add` changes the object as `AddId` does |
| Walker.AbsorbEffect | automaticLibrary.js:271-282 | a response whose resolved email is empty (tested before normalising) leaves the store unchanged; any other is merged under its lower-cased trimmed email and the store grows by at most one key, at the end |
| Walker.KeyOf | automaticLibrary.js:271-272 | the key a response merges under: its resolved email lower-cased and trimmed, none when that email is empty; `Importer.KeyIsClean` states when the key is clean |
| Walker.CandidateName | automaticLibrary.js:270 | the display name a response offers, by `FinalName` |
| Walker.Absorb | automaticLibrary.js:271-282 | one response merged into the store keeps the store well formed; `AbsorbEffect` states the rest |
| Walker.ResponsesStep | automaticLibrary.js:252-283 | a form's responses handled in order; `ResponsesStepFrame` and `WalkFacts.ResponsesStepStore` state the effect |
| Walker.IsRsvp | automaticLibrary.js:230 | the name filter: the lower-cased name contains "rsvp" (`Text.ContainsSpec` gives the containment its meaning) |
| Walker.ResponsesStepFrame | automaticLibrary.js:252-253 | each response of a form counts once in `responsesProcessed`, whether or not it has an email, and changes nothing else but the store |
| Walker.FormStep | automaticLibrary.js:225-249 | a ledgered form changes nothing (checked before the RSVP filter). An RSVP form with the filter on only counts as skipped. A form that cannot be opened changes neither store nor ids. An opened form counts as processed and new and is ledgered after its responses |
| Walker.WalkForms | automaticLibrary.js:217-295 | the forms of one folder handled in iterator order; `WalkFacts.WalkFormsAppend` and `WalkFacts.WalkFolderEffect` state the effect |
| Walker.WalkFolder | automaticLibrary.js:210-303 | a folder's forms, then each subfolder recursively; `WalkFacts.WalkIsPreorder` and `WalkFacts.WalkFolderEffect` state the effect |
| Walker.WalkSubfolders | automaticLibrary.js:299-302 | the first n subfolders walked in order; `WalkFacts.WalkSubfoldersIsPreorder` states the effect |
| Walker.Stats.constructor | automaticLibrary.js:125-131 | all counters start at 0 |
| Walker.ProcessResponse | automaticLibrary.js:252-283 | the response loop body counts the response and updates `emailMap` as `Absorb` specifies |
| Walker.ProcessForm | automaticLibrary.js:217-295 | the body of the form loop leaves `emailMap`, the new ids and `stats` exactly as `FormStep` specifies |
| Walker.OpenStep | automaticLibrary.js:241-285 | an opened form counts once as processed and once as new, each of its responses counts once, and its id is then added to the run's new ids |
| Walker.OpenForm | automaticLibrary.js:237-286 | the rest of the `try` block, once the form is open, leaves `emailMap`, the new ids and `stats` exactly as `OpenStep` specifies |
| Walker.ProcessFolder | automaticLibrary.js:210-303 | `processFolder` leaves the three objects as the walk specification says: forms first, then each subfolder recursively |
| WalkFacts.WalkIsPreorder | automaticLibrary.js:214-302 | walking a folder is processing the forms of its depth-first pre-order list, in order |
| WalkFacts.WalkSubfoldersIsPreorder | automaticLibrary.js:299-302 | the recursive calls on the subfolders process the concatenated pre-order lists of the subfolders |
| WalkFacts.WalkFormsAppend | automaticLibrary.js:217-295 | processing two lists of forms one after the other is processing their concatenation |
| WalkFacts.FormStepEffect | automaticLibrary.js:221-294 | one form in closed form: the store merges its responses and its id is added exactly when it is reconciled (not ledgered, not filtered, openable); each counter moves by the stated amount |
| WalkFacts.WalkFolderEffect | automaticLibrary.js:210-303 | the walk merges, in order, the responses of the forms it reconciles and adds their ids; it counts them, the skipped RSVP forms and their responses; `newEmails` never changes |
| WalkFacts.WalkFolderIgnoresStats | automaticLibrary.js:210-303 | the store and the new ids a walk leaves do not depend on the counters it starts from |
| WalkFacts.MergeAllCounts | automaticLibrary.js:274-281 | count conservation: after merging responses, an email's count is its old count plus the number of responses resolving to it; its name length is the longest of the old one and all names offered |
| WalkFacts.MergeAllKeepsKeys | automaticLibrary.js:278-280 | merging never removes or reorders keys: old keys stay first, in order |
| WalkFacts.WalkConservesCounts | automaticLibrary.js:252-283 | over a whole walk, an email's count grows by the number of reconciled responses resolving to it, and its name never gets shorter |
| WalkFacts.LongestOfferedAtLeast | automaticLibrary.js:277 | the longest name offered is at least the starting length |
| WalkFacts.ReconciledMembers | automaticLibrary.js:225-238 | a form is among the reconciled ones exactly when it is in the walk and passes the ledger check, the RSVP filter and the open |
| WalkFacts.ReconciledIds | automaticLibrary.js:225-247 | an id is among the ids of the reconciled forms exactly when some form with that id passes the ledger check, the RSVP filter and the open |
| WalkFacts.WalkNewIds | automaticLibrary.js:285 | the ids a walk adds are exactly the ids of the forms it reconciles |
| WalkFacts.RsvpNeverLedgered | automaticLibrary.js:230-235 | with the filter on, an RSVP form's id is never added to the ledger |
| WalkFacts.LedgeredFormsIgnored | automaticLibrary.js:225-228 | forms whose ids are all ledgered reconcile nothing, skip nothing and leave the state unchanged |
| WalkFacts.SecondWalkReconcilesNothing | automaticLibrary.js:225-228 | once the ids of the reconciled forms are in the ledger, the same forms reconcile nothing |
| WalkFacts.MetTwiceInOneRun | automaticLibrary.js:225 | a form met twice in one walk merges its responses twice and counts twice, while its id is recorded once |
| Sheets.LoadRowsClean | automaticLibrary.js:79-86 | the loaded store is well formed and every key is a non-empty normalised email |
| Sheets.LoadRows | automaticLibrary.js:79-86 | the store loaded from the master sheet's rows; `LoadRowsKeys` and `LoadRowsLastWins` state its keys and entries |
| Sheets.LoadRowsKeys | automaticLibrary.js:81-85 | an email is loaded exactly when some row's email normalises to it; rows with an empty normalised email are dropped |
| Sheets.LoadRowsKeysFromRows | automaticLibrary.js:81-85 | every loaded key is non-empty and comes from some row |
| Sheets.LoadRowsKeysOfRows | automaticLibrary.js:81-85 | every row whose normalised email is non-empty gives a key |
| Sheets.LoadRowsLastWins | automaticLibrary.js:84 | a loaded entry holds the name and count of the last row with that email |
| Sheets.LoadStore | automaticLibrary.js:74-88 | the load loop builds a fresh `emailMap` equal to the load specification of the sheet's rows; the manual script does the same at automaticManual.js:33-45 |
| Sheets.BuildRows | automaticLibrary.js:136-139 | the export rows are name, email, count per entry, in the map's key order |
| Sheets.RowsOf | automaticLibrary.js:136-139 | one row (name, email, count) per entry, in the map's key order; `LoadRowsOf` states the round trip |
| Sheets.Overwrite | automaticLibrary.js:143-153 | the written sheet starts with the new rows, and every old row beyond them is cleared |
| Sheets.WriteRows | automaticLibrary.js:141-154 | writing from row 2, then clearing the surplus (or every row when there is nothing to write), leaves the sheet as `Overwrite` says; the manual script does the same at automaticManual.js:80-97 |
| Sheets.OverwriteTwice | automaticLibrary.js:141-154 | writing the same rows again changes nothing |
| Sheets.LoadIgnoresBlanks | automaticLibrary.js:83 | cleared rows load as nothing |
| Sheets.LoadRowsOf | automaticLibrary.js:136-139 | the rows of a clean store load back to that store, keys in the same order |
| Sheets.ExportThenLoad | automaticLibrary.js:136-154 | round trip: a clean store written over any master sheet loads back unchanged |
| Sheets.LoadLedger | automaticLibrary.js:90-99 | the ledger loop builds a fresh set holding exactly the log sheet's ids; the manual script does the same at automaticManual.js:47-54 |
| Sheets.AppendLedger | automaticLibrary.js:156-161 | the run's new ids are appended after the log sheet's last row, in insertion order; earlier rows are untouched; the manual script does the same at automaticManual.js:99-106 |
| Importer.Resolve | automaticLibrary.js:27-40 | the configuration is rejected exactly when it is missing or a required name is empty. An empty subfolder name means none, an empty log sheet name becomes "Processed", and the RSVP filter is on unless explicitly `false` |
| Importer.FindFolder | automaticLibrary.js:105-109 | the folder found is the first with that name; none is found exactly when no folder has the name |
| Importer.Target | automaticLibrary.js:103-122 | the walk starts at the first parent found by name or, with a subfolder configured, at the first child with the subfolder name among that parent's subfolders. A missing parent is `ParentFolderNotFound`; a parent without such a child is `SubfolderNotFound` |
| Importer.Walked | automaticLibrary.js:124-133 | the walk starts from the loaded store, no new ids and zero counters, and leaves a well-formed store |
| Importer.Reconcile | automaticLibrary.js:124-161 | the walk, then the store written over the master sheet and the new ids appended to the ledger; `Run`, `ReconcileTwice` and `RunCounts` state its properties |
| Importer.Run | automaticLibrary.js:26-184 | a run succeeds exactly when the configuration resolves and the target exists. A failure leaves both sheets as they were. A success only appends to the ledger and deletes no row of the master sheet (rows it empties stay as blank rows, see `Sheets.WriteRows` below) |
| Importer.ImportFormsToSpreadsheet | automaticLibrary.js:26-184 | the entry point returns the result and leaves the sheets exactly as `Run` specifies |
| Importer.ProcessAndExport | automaticLibrary.js:124-172 | the walk, the write of the rows, the append of the new ids and the summary leave the sheets and the result exactly as `Reconcile` specifies |
| Importer.SummaryCounts | automaticLibrary.js:163-172 | `formsProcessed` and `newFormsProcessed` are both the number of reconciled forms, `skippedForms` counts RSVP forms not yet ledgered, and `responsesProcessed` counts their responses. `newEmailsAdded` is always 0, and `totalEmails` is at least the number of loaded emails |
| Importer.KeyIsClean | automaticLibrary.js:271-272 | with a well-formed respondent email, a response's key is non-empty and normalised |
| Importer.MergeAllClean | automaticLibrary.js:271-282 | merging such responses keeps the store clean |
| Importer.WalkedIsClean | automaticLibrary.js:136-154 | the master sheet written by a run loads back to exactly the store the walk built |
| Importer.RunCounts | automaticLibrary.js:74-161 | count conservation across a run: an email's count in the master sheet grows by exactly the number of newly reconciled responses resolving to it |
| Importer.LedgerCoversRun | automaticLibrary.js:156-161 | after a run the ledger holds the id of every form the run reconciled, so a walk against it reconciles none of them |
| Importer.IdleWalk | automaticLibrary.js:124-133 | a walk that reconciles no form leaves the loaded store as it is, adds no id, and counts no processed form or response |
| Importer.ReconcileTwice | automaticLibrary.js:90-161 | idempotence: a second run on what a run left reconciles and counts nothing and leaves both sheets as they are |
| Importer.RunTwice | automaticLibrary.js:26-184 | with the same configuration and Drive, a second run succeeds, processes nothing and changes neither sheet |
| Manual.ResolveName | automaticManual.js:170-173 | the `if`/`else` chain gives the same name as the library's conditional expression |
| Manual.ProcessResponse | automaticManual.js:148-189 | the response loop body updates `emailMap` as `Absorb` specifies; an empty email returns before any change |
| Manual.ProcessForm | automaticManual.js:117-201 | a form is merged and ledgered exactly when it is not ledgered, not an RSVP form (the filter is always on) and can be opened; otherwise nothing changes |
| Manual.ProcessFolder | automaticManual.js:109-211 | the script's walk leaves the store and the new ids exactly as the library's walk with the RSVP filter on, forms first and then each subfolder recursively |
| Manual.ManualRun | automaticManual.js:58-106 | a missing parent folder or subfolder ends the run with both sheets untouched |
| Manual.ImportFormsToSpreadsheet | automaticManual.js:2-107 | the script leaves the sheets exactly as `ManualRun` specifies with its constant folder names |
| Manual.ManualIsLibrary | automaticManual.js:2-107 | with non-empty folder names the script leaves the sheets exactly as the library configured with the same names and the default RSVP filter |
| Manual.ManualRunTwice | automaticManual.js:47-106 | idempotence of the script: a second run changes neither sheet |
| Scenarios.SameAddressTwoSpellings | automaticLibrary.js:271-282 | responses from "Al@X.com" naming "Al" and from "al@x.com" naming "Alice" make one identity "al@x.com" named "Alice" with count 2 |
| Scenarios.SameKeyTwice | automaticLibrary.js:271-282 | two responses whose emails normalise to the same key make one identity with both names merged, in order |
| Scenarios.EmptyFormIsLedgered | automaticLibrary.js:245-248 | a new form without responses is ledgered and counted as new, with the store unchanged |
| Scenarios.LedgeredFormSkipped | automaticLibrary.js:225-228 | a form already in the ledger changes nothing |
| Scenarios.RsvpFormSkipped | automaticLibrary.js:230-235 | "Spring RSVP Form" with the filter on is only counted as skipped |

## Left out

- Drive, Spreadsheet and Forms calls are left out: opening or creating the spreadsheet, `insertSheet`, `appendRow` of headers, `hideSheet`, `getUrl`, `openById`, and iterators. Folders, forms and sheets are given as data. The spreadsheet URL is not part of the modelled summary.
- Creating a missing master or log sheet is left out. The model starts from existing sheets; a new sheet is one with no rows below its header.
- The manual script crashes when no "Master Attendance" file exists (automaticManual.js:10-17). This is platform behaviour and is not modelled.
- Logging (`log`, `console.log`, the `verbose` option), the per-folder `formCount` and the per-form new-email counters only produce log text. They are left out.
- Lower-casing and trimming are ASCII only. Answers are optional strings. `toString()` of array answers (checkboxes) and of non-string cells is not modelled, and neither are names or counts in the sheet that are not strings or integers.
- A form is treated as failing only when opening it or reading its responses throws. An exception thrown part-way through a form's responses would leave earlier merges in place without ledgering the form; that case is not modelled.
- Concurrent runs against the same sheets are not modelled.
- The sheet's columns beyond the third are not modelled.
- Importer.Resolve: a `skipRSVP` value other than a boolean is not modelled. The code treats any value but `false` as on.
- Sheets.WriteRows: cleared rows stay in the model as blank rows, while the sheet's last row would move up. A blank row loads as nothing and is cleared again, so no later read differs.
- Importer.Run, Importer.RunTwice, Importer.ImportFormsToSpreadsheet: the master sheet and the log sheet are assumed to be two different sheets. Both are looked up by name in one spreadsheet (automaticLibrary.js:56, :66), and nothing stops `outputSheetName` from equalling the resolved log-sheet name. Then one sheet serves as both. The ledger is read from column A of the master rows (:91-96), the new ids are appended below the exported rows (:156-160), and the next export overwrites or clears them (:144-153). Ids ledgered earlier are then lost, those forms are reconciled and counted again on a later run, and the promises "only appends to the ledger" and "a second run processes nothing" do not hold.
- WalkFacts.MergeAllCounts: states the length of the kept name, not which of several equally long names is kept (the earliest).
- WalkFacts.RsvpNeverLedgered: assumes that form ids identify forms, i.e. two forms met with the same id are the same file.
- Importer.ReconcileTwice, Importer.RunTwice, Importer.RunCounts, Manual.ManualRunTwice, Importer.WalkedIsClean, Importer.KeyIsClean, Importer.MergeAllClean: assume every respondent email is empty or has a non-blank character. A blank-only respondent email would be counted under the empty key and dropped when the sheet is reloaded.
- Identity.Merge, Identity.MergeCounts, WalkFacts.MergeAllCounts: name lengths are counted in Unicode characters (the length of a Dafny string), while JavaScript's `.length` counts UTF-16 code units. For a name with characters outside the Basic Multilingual Plane (an emoji, say) the "strictly longer" test can decide differently.
