/** The stand-alone script automaticManual.js: the same reconciliation with
    the folder names as constants, the RSVP filter always on, no counters and
    no summary, and a quiet early return (nothing written) when a folder is
    missing. The subfolder lookup is always made, even with an empty name. */
module Manual {
  import opened Wrappers
  import opened Forms
  import opened Classifier
  import opened Identity
  import opened Ledger
  import opened Walker
  import opened WalkFacts
  import opened Sheets
  import opened Importer

  const ParentFolderName := ""
  const SubfolderName := ""
  const OutputSpreadsheetName := "Master Attendance"
  const OutputSheetName := "TestFinal"

  /** The display name by an `if`/`else` chain; the library computes it with
      a conditional expression. */
  method ResolveName(firstName: string, lastName: string, fullName: string) returns (finalName: string)
    ensures finalName == FinalName(firstName, lastName, fullName)
  {
    finalName := "";
    if firstName != "" && lastName != "" {
      finalName := firstName + " " + lastName;
    } else if fullName != "" {
      finalName := fullName;
    } else {
      finalName := if firstName != "" then firstName else lastName;
    }
  }

  /** The body of the loop over one form's responses. */
  method ProcessResponse(response: Response, emailMap: IdentityMap)
    requires emailMap.Valid()
    modifies emailMap
    ensures emailMap.Valid()
    ensures emailMap.Value() == Absorb(old(emailMap.Value()), response)
  {
    var email, firstName, lastName, fullName := ClassifyResponse(response);
    var finalName := ResolveName(firstName, lastName, fullName);
    ghost var before := emailMap.Value();
    assert KeyOf(response) == if email == "" then None else Some(Text.Normalize(email));
    assert CandidateName(response) == finalName;
    if email == "" {
      return;
    }
    email := Text.Trim(Text.Lower(email));
    if emailMap.Has(email) {
      var existing := emailMap.Get(email);
      existing := existing.(count := existing.count + 1);
      if |finalName| > |existing.name| {
        existing := existing.(name := finalName);
      }
      emailMap.Set(email, existing);
      assert emailMap.Value() == Merge(before, email, finalName);
    } else {
      emailMap.Set(email, Entry(finalName, 1));
      assert emailMap.Value() == Merge(before, email, finalName);
    }
  }

  /** One form: ledger check, RSVP filter, open, merge, ledger. */
  method ProcessForm(formFile: Source, emailMap: IdentityMap, processedForms: IdSet, newIds: IdSet)
    requires emailMap.Valid() && newIds.Valid() && processedForms != newIds
    modifies emailMap, newIds
    ensures emailMap.Valid() && newIds.Valid()
    ensures emailMap.Value()
            == if Reconciles(formFile, Elements(processedForms), true)
               then MergeAll(old(emailMap.Value()), formFile.responses) else old(emailMap.Value())
    ensures newIds.ids
            == if Reconciles(formFile, Elements(processedForms), true)
               then AddId(old(newIds.ids), formFile.id) else old(newIds.ids)
  {
    var formId := formFile.id;
    var formName := formFile.name;
    if processedForms.Has(formId) {
      return;
    }
    if IsRsvp(formName) {
      return;
    }
    if !formFile.openable {
      return;
    }
    var formResponses := formFile.responses;
    if |formResponses| == 0 {
      newIds.Add(formId);
      return;
    }
    ghost var start := emailMap.Value();
    var k := 0;
    while k < |formResponses|
      invariant 0 <= k <= |formResponses|
      invariant emailMap.Valid() && newIds.ids == old(newIds.ids)
      invariant emailMap.Value() == MergeAll(start, formResponses[..k])
    {
      ProcessResponse(formResponses[k], emailMap);
      assert formResponses[..k + 1][..k] == formResponses[..k];
      k := k + 1;
    }
    assert formResponses[..k] == formResponses;
    newIds.Add(formId);
  }

  /** `processFolder`: the forms of `folder`, then each subfolder. The store
      and the new ids end as the library's walk with the RSVP filter on leaves
      them (the script keeps no counters). */
  method ProcessFolder(folder: Folder, emailMap: IdentityMap, processedForms: IdSet, newIds: IdSet)
    requires emailMap.Valid() && newIds.Valid() && processedForms != newIds
    modifies emailMap, newIds
    ensures emailMap.Valid() && newIds.Valid()
    ensures emailMap.Value()
            == WalkFolder(folder, Elements(processedForms), true, State(old(emailMap.Value()), old(newIds.ids), Zero)).store
    ensures newIds.ids
            == WalkFolder(folder, Elements(processedForms), true, State(old(emailMap.Value()), old(newIds.ids), Zero)).newIds
    decreases folder
  {
    ghost var prior := Elements(processedForms);
    ghost var start := State(emailMap.Value(), newIds.ids, Zero);
    var forms := folder.forms;
    var i := 0;
    while i < |forms|
      invariant 0 <= i <= |forms|
      invariant emailMap.Valid() && newIds.Valid()
      invariant emailMap.Value() == WalkForms(forms[..i], prior, true, start).store
      invariant newIds.ids == WalkForms(forms[..i], prior, true, start).newIds
    {
      ghost var before := WalkForms(forms[..i], prior, true, start);
      FormStepData(forms[i], prior, true, before);
      ProcessForm(forms[i], emailMap, processedForms, newIds);
      assert forms[..i + 1][..i] == forms[..i];
      assert WalkForms(forms[..i + 1], prior, true, start) == FormStep(forms[i], prior, true, before);
      i := i + 1;
    }
    assert forms[..i] == forms;
    ghost var afterForms := WalkForms(forms, prior, true, start);
    var subfolders := folder.subfolders;
    var j := 0;
    while j < |subfolders|
      invariant 0 <= j <= |subfolders|
      invariant emailMap.Valid() && newIds.Valid()
      invariant emailMap.Value() == WalkSubfolders(folder, j, prior, true, afterForms).store
      invariant newIds.ids == WalkSubfolders(folder, j, prior, true, afterForms).newIds
    {
      ghost var before := WalkSubfolders(folder, j, prior, true, afterForms);
      ProcessFolder(subfolders[j], emailMap, processedForms, newIds);
      assert WalkSubfolders(folder, j + 1, prior, true, afterForms) == WalkFolder(subfolders[j], prior, true, before);
      WalkFolderIgnoresStats(subfolders[j], prior, true, before, State(before.store, before.newIds, Zero));
      j := j + 1;
    }
  }

  /** What a run leaves in the two sheets. */
  datatype After = After(body: seq<Row>, ledger: seq<string>)

  /** One run of the script with the given folder names: a missing parent
      or subfolder ends it with both sheets untouched. */
  function ManualRun(parentName: string, subfolderName: string, drive: seq<Folder>,
                     body: seq<Row>, ledger: seq<string>): (r: After)
    ensures (forall f :: f in drive ==> f.name != parentName) ==> r == After(body, ledger)
    ensures FindFolder(drive, parentName).Some?
            && (forall f :: f in FindFolder(drive, parentName).value.subfolders ==> f.name != subfolderName)
            ==> r == After(body, ledger)
  {
    var parentFolders := FindFolder(drive, parentName);
    if parentFolders.None? then After(body, ledger)
    else
      var subfolders := FindFolder(parentFolders.value.subfolders, subfolderName);
      if subfolders.None? then After(body, ledger)
      else
        var o := Reconcile(subfolders.value, true, body, ledger);
        After(o.body, o.ledger)
  }

  /** The script's `importFormsToSpreadsheet()` on the master sheet
      "TestFinal" and the log sheet "Processed". */
  method ImportFormsToSpreadsheet(drive: seq<Folder>, outputSheet: OutputSheet, logSheet: LogSheet)
    modifies outputSheet, logSheet
    ensures After(outputSheet.body, logSheet.ids)
            == ManualRun(ParentFolderName, SubfolderName, drive, old(outputSheet.body), old(logSheet.ids))
  {
    var emailMap := LoadStore(outputSheet);
    var processedForms := LoadLedger(logSheet);
    assert Elements(processedForms) == Prior(logSheet.ids);
    var newlyProcessedFormIds := new IdSet();

    var parentFolders := FindFolder(drive, ParentFolderName);
    if parentFolders.None? {
      return;
    }
    var parentFolder := parentFolders.value;
    var subfolders := FindFolder(parentFolder.subfolders, SubfolderName);
    if subfolders.None? {
      return;
    }
    var eventsFolder := subfolders.value;

    ProcessFolder(eventsFolder, emailMap, processedForms, newlyProcessedFormIds);
    ghost var walked := Walked(eventsFolder, true, old(outputSheet.body), old(logSheet.ids));
    assert emailMap.Value() == walked.store && newlyProcessedFormIds.ids == walked.newIds;

    var allRows := BuildRows(emailMap);
    WriteRows(outputSheet, allRows);
    AppendLedger(logSheet, newlyProcessedFormIds);
  }

  /** With non-empty folder names, the script leaves the sheets exactly as
      the library does when configured with the same names, the script's
      spreadsheet and sheet names and the RSVP filter at its default. */
  lemma ManualIsLibrary(parentName: string, subfolderName: string, drive: seq<Folder>,
                        body: seq<Row>, ledger: seq<string>)
    requires parentName != "" && subfolderName != ""
    ensures var lib := Run(Some(Options(parentName, OutputSpreadsheetName, OutputSheetName, subfolderName,
                                        DefaultLogSheetName, None)), drive, body, ledger);
            ManualRun(parentName, subfolderName, drive, body, ledger) == After(lib.body, lib.ledger)
  {
  }

  /** Idempotence of the script: a second run right after the first changes
      neither sheet. */
  lemma ManualRunTwice(parentName: string, subfolderName: string, drive: seq<Folder>,
                       body: seq<Row>, ledger: seq<string>)
    requires forall f :: f in drive && f.name == parentName ==>
               forall g :: g in f.subfolders ==> RespondentsWellFormed(Preorder(g))
    ensures var first := ManualRun(parentName, subfolderName, drive, body, ledger);
            ManualRun(parentName, subfolderName, drive, first.body, first.ledger) == first
  {
    var parentFolders := FindFolder(drive, parentName);
    if parentFolders.Some? {
      var subfolders := FindFolder(parentFolders.value.subfolders, subfolderName);
      if subfolders.Some? {
        ReconcileTwice(subfolders.value, true, body, ledger);
      }
    }
  }
}
