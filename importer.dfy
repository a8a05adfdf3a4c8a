/** The library's entry point `importFormsToSpreadsheet(config)`: validate the
    configuration, load the master sheet and the ledger, find the target
    folder, walk it, write the store back over the master sheet, append the
    new ids to the ledger, and return a summary.

    Drive's folder search is a parameter: `drive` lists the folders a search
    by name may return, in the order it returns them. */
module Importer {
  import opened Wrappers
  import opened Text
  import opened Forms
  import opened Classifier
  import opened Identity
  import opened Ledger
  import opened Walker
  import opened WalkFacts
  import opened Sheets

  /** The caller's `config` object. A missing string option is `""`; a
      missing `skipRSVP` is `None`. */
  datatype Options = Options(parentFolderName: string, outputSpreadsheetName: string, outputSheetName: string,
                             subfolderName: string, logSheetName: string, skipRsvp: Option<bool>)

  /** The resolved `CONFIG` object. */
  datatype Config = Config(parentFolderName: string, subfolderName: Option<string>,
                           outputSpreadsheetName: string, outputSheetName: string,
                           logSheetName: string, skipRsvp: bool)

  /** The errors the entry point throws. */
  datatype Failure = MissingConfig | ParentFolderNotFound(parent: string) | SubfolderNotFound(subfolder: string)

  /** The returned summary (without the spreadsheet URL). */
  datatype Summary = Summary(totalEmails: nat, formsProcessed: int, newFormsProcessed: int,
                             skippedForms: int, responsesProcessed: int, newEmailsAdded: int)

  const DefaultLogSheetName := "Processed"

  /** Configuration check and defaults: the three required names must be
      non-empty; an empty subfolder name means none; the log sheet defaults
      to "Processed"; the RSVP filter is on unless explicitly `false`. */
  function Resolve(config: Option<Options>): (r: Result<Config, Failure>)
    ensures r.Err? <==> config.None? || config.value.parentFolderName == ""
                        || config.value.outputSpreadsheetName == "" || config.value.outputSheetName == ""
    ensures r.Err? ==> r.error == MissingConfig
    ensures r.Ok? ==> && r.value.parentFolderName == config.value.parentFolderName
                      && r.value.outputSpreadsheetName == config.value.outputSpreadsheetName
                      && r.value.outputSheetName == config.value.outputSheetName
                      && (r.value.subfolderName.Some? <==> config.value.subfolderName != "")
                      && (r.value.subfolderName.Some? ==> r.value.subfolderName.value == config.value.subfolderName)
                      && r.value.logSheetName != ""
                      && (config.value.logSheetName != "" ==> r.value.logSheetName == config.value.logSheetName)
                      && (config.value.logSheetName == "" ==> r.value.logSheetName == DefaultLogSheetName)
                      && (r.value.skipRsvp <==> config.value.skipRsvp != Some(false))
  {
    if config.None? then Err(MissingConfig)
    else
      var c := config.value;
      if c.parentFolderName == "" || c.outputSpreadsheetName == "" || c.outputSheetName == "" then Err(MissingConfig)
      else
        Ok(Config(c.parentFolderName,
                  if c.subfolderName != "" then Some(c.subfolderName) else None,
                  c.outputSpreadsheetName,
                  c.outputSheetName,
                  if c.logSheetName != "" then c.logSheetName else DefaultLogSheetName,
                  c.skipRsvp != Some(false)))
  }

  /** `getFoldersByName(name).next()`: the first folder with that name, if
      any. */
  function FindFolder(folders: seq<Folder>, name: string): (r: Option<Folder>)
    ensures r.None? <==> forall i :: 0 <= i < |folders| ==> folders[i].name != name
    ensures r.Some? ==> exists i :: 0 <= i < |folders| && folders[i] == r.value
                                    && r.value.name == name
                                    && forall j :: 0 <= j < i ==> folders[j].name != name
    decreases |folders|
  {
    if folders == [] then None
    else if folders[0].name == name then Some(folders[0])
    else
      var r := FindFolder(folders[1..], name);
      if r.Some? then
        var i :| 0 <= i < |folders[1..]| && folders[1..][i] == r.value && r.value.name == name
                 && forall j :: 0 <= j < i ==> folders[1..][j].name != name;
        assert folders[i + 1] == r.value;
        r
      else r
  }

  /** The folder a run walks: the parent found by name, or its child named
      by the subfolder option. */
  function Target(config: Config, drive: seq<Folder>): (r: Result<Folder, Failure>)
    ensures r.Err? && r.error.ParentFolderNotFound? <==> forall f :: f in drive ==> f.name != config.parentFolderName
    ensures r.Err? ==> r.error.ParentFolderNotFound? || (config.subfolderName.Some? && r.error == SubfolderNotFound(config.subfolderName.value))
    ensures r.Ok? && config.subfolderName.None? ==> r.value in drive && r.value.name == config.parentFolderName
    ensures r.Ok? && config.subfolderName.Some? ==>
              r.value.name == config.subfolderName.value
              && exists p :: p in drive && p.name == config.parentFolderName && r.value in p.subfolders
    ensures r.Ok? && config.subfolderName.None? ==> Some(r.value) == FindFolder(drive, config.parentFolderName)
    ensures FindFolder(drive, config.parentFolderName).Some? && config.subfolderName.Some? ==>
              var first := FindFolder(drive, config.parentFolderName).value;
              && (r.Ok? <==> FindFolder(first.subfolders, config.subfolderName.value).Some?)
              && (r.Ok? ==> Some(r.value) == FindFolder(first.subfolders, config.subfolderName.value))
  {
    var parent := FindFolder(drive, config.parentFolderName);
    if parent.None? then Err(ParentFolderNotFound(config.parentFolderName))
    else if config.subfolderName.None? then Ok(parent.value)
    else
      var sub := FindFolder(parent.value.subfolders, config.subfolderName.value);
      if sub.None? then Err(SubfolderNotFound(config.subfolderName.value))
      else Ok(sub.value)
  }

  /** The ids ledgered by earlier runs. */
  function Prior(ledger: seq<string>): set<string> {
    set id | id in ledger
  }

  /** The state after walking `target` on top of what the sheets hold. */
  function Walked(target: Folder, skipRsvp: bool, body: seq<Row>, ledger: seq<string>): (st: State)
    ensures st.store.Valid()
  {
    var st := WalkFolder(target, Prior(ledger), skipRsvp, State(LoadRows(body), [], Zero));
    LoadRowsClean(body);
    WalkFolderEffect(target, Prior(ledger), skipRsvp, State(LoadRows(body), [], Zero));
    MergeAllKeepsKeys(LoadRows(body), ResponsesOf(Reconciled(Preorder(target), Prior(ledger), skipRsvp)));
    st
  }

  function SummaryOf(st: State): Summary {
    Summary(|st.store.keys|, st.stats.formsProcessed, st.stats.newForms, st.stats.skippedForms,
            st.stats.responsesProcessed, st.stats.newEmails)
  }

  /** What a run returns and leaves in the two sheets. */
  datatype Outcome = Outcome(result: Result<Summary, Failure>, body: seq<Row>, ledger: seq<string>)

  /** The sheets after the walk of `target`: the store's rows over the
      master sheet, the new ids after the ledger. */
  function Reconcile(target: Folder, skipRsvp: bool, body: seq<Row>, ledger: seq<string>): Outcome {
    var st := Walked(target, skipRsvp, body, ledger);
    Outcome(Ok(SummaryOf(st)), Overwrite(body, RowsOf(st.store)), ledger + st.newIds)
  }

  /** One run of the entry point. A failure leaves both sheets as they
      were; a success only appends to the ledger and deletes no row of
      the master sheet. */
  function Run(config: Option<Options>, drive: seq<Folder>, body: seq<Row>, ledger: seq<string>): (r: Outcome)
    ensures r.result.Ok? <==> Resolve(config).Ok? && Target(Resolve(config).value, drive).Ok?
    ensures r.result.Err? ==> r.body == body && r.ledger == ledger
    ensures r.result.Ok? ==> |r.ledger| >= |ledger| && r.ledger[..|ledger|] == ledger && |r.body| >= |body|
  {
    match Resolve(config)
    case Err(e) => Outcome(Err(e), body, ledger)
    case Ok(c) =>
      match Target(c, drive)
      case Err(e) => Outcome(Err(e), body, ledger)
      case Ok(target) =>
        var r := Reconcile(target, c.skipRsvp, body, ledger);
        assert r.ledger[..|ledger|] == ledger;
        r
  }

  /** `importFormsToSpreadsheet(config)` on the given master and log sheets. */
  method ImportFormsToSpreadsheet(config: Option<Options>, drive: seq<Folder>,
                                  outputSheet: OutputSheet, logSheet: LogSheet)
    returns (result: Result<Summary, Failure>)
    modifies outputSheet, logSheet
    ensures Outcome(result, outputSheet.body, logSheet.ids) == Run(config, drive, old(outputSheet.body), old(logSheet.ids))
  {
    if config.None? || config.value.parentFolderName == "" || config.value.outputSpreadsheetName == ""
       || config.value.outputSheetName == "" {
      return Err(MissingConfig);
    }
    var options := config.value;
    var CONFIG := Config(options.parentFolderName,
                         if options.subfolderName != "" then Some(options.subfolderName) else None,
                         options.outputSpreadsheetName,
                         options.outputSheetName,
                         if options.logSheetName != "" then options.logSheetName else DefaultLogSheetName,
                         options.skipRsvp != Some(false));
    assert Resolve(config) == Ok(CONFIG);

    var emailMap := LoadStore(outputSheet);
    var processedForms := LoadLedger(logSheet);
    assert Elements(processedForms) == Prior(logSheet.ids);
    var newlyProcessedFormIds := new IdSet();

    var parentFolders := FindFolder(drive, CONFIG.parentFolderName);
    if parentFolders.None? {
      return Err(ParentFolderNotFound(CONFIG.parentFolderName));
    }
    var targetFolder := parentFolders.value;
    if CONFIG.subfolderName.Some? {
      var subfolders := FindFolder(targetFolder.subfolders, CONFIG.subfolderName.value);
      if subfolders.None? {
        return Err(SubfolderNotFound(CONFIG.subfolderName.value));
      }
      targetFolder := subfolders.value;
    }
    assert Target(CONFIG, drive) == Ok(targetFolder);

    result := ProcessAndExport(targetFolder, CONFIG.skipRsvp, emailMap, processedForms, newlyProcessedFormIds,
                               outputSheet, logSheet);
  }

  /** The second half of the entry point: the walk, the export, the ledger
      append and the summary. */
  method ProcessAndExport(targetFolder: Folder, skipRsvp: bool, emailMap: IdentityMap, processedForms: IdSet,
                          newlyProcessedFormIds: IdSet, outputSheet: OutputSheet, logSheet: LogSheet)
    returns (result: Result<Summary, Failure>)
    requires emailMap.Valid() && emailMap.Value() == LoadRows(outputSheet.body)
    requires Elements(processedForms) == Prior(logSheet.ids)
    requires newlyProcessedFormIds.Valid() && newlyProcessedFormIds.ids == []
    requires processedForms != newlyProcessedFormIds
    modifies emailMap, newlyProcessedFormIds, outputSheet, logSheet
    ensures Outcome(result, outputSheet.body, logSheet.ids)
            == Reconcile(targetFolder, skipRsvp, old(outputSheet.body), old(logSheet.ids))
  {
    var stats := new Stats();
    ProcessFolder(targetFolder, emailMap, processedForms, newlyProcessedFormIds, skipRsvp, stats);
    assert Snapshot(emailMap, newlyProcessedFormIds, stats)
           == Walked(targetFolder, skipRsvp, old(outputSheet.body), old(logSheet.ids));

    var allRows := BuildRows(emailMap);
    WriteRows(outputSheet, allRows);
    AppendLedger(logSheet, newlyProcessedFormIds);

    result := Ok(Summary(emailMap.Size(), stats.formsProcessed, stats.newForms, stats.skippedForms,
                         stats.responsesProcessed, stats.newEmails));
  }

  // ---------------------------------------------------------------------------
  // The summary.

  /** The summary in terms of the forms the walk reconciled: every
      reconciled form counts both as processed and as new, skipped forms are
      the RSVP forms not yet ledgered, every response of a reconciled form
      is counted, and `newEmailsAdded` is always 0 (the walk adds to a
      different counter than the one the summary reads). */
  lemma SummaryCounts(target: Folder, skipRsvp: bool, body: seq<Row>, ledger: seq<string>)
    ensures var s := Reconcile(target, skipRsvp, body, ledger).result.value;
            var done := Reconciled(Preorder(target), Prior(ledger), skipRsvp);
            && s.formsProcessed == s.newFormsProcessed == |done|
            && s.skippedForms == SkippedCount(Preorder(target), Prior(ledger), skipRsvp)
            && s.responsesProcessed == |ResponsesOf(done)|
            && s.newEmailsAdded == 0
            && s.totalEmails >= |LoadRows(body).keys|
  {
    var start := State(LoadRows(body), [], Zero);
    var done := Reconciled(Preorder(target), Prior(ledger), skipRsvp);
    WalkFolderEffect(target, Prior(ledger), skipRsvp, start);
    MergeAllKeepsKeys(LoadRows(body), ResponsesOf(done));
  }

  // ---------------------------------------------------------------------------
  // What the sheets hold after a run.

  /** Every respondent email is empty or has a non-blank character, as the
      addresses Google Forms collects do. */
  predicate RespondentsWellFormed(forms: seq<Source>) {
    forall src, response :: src in forms && response in src.responses ==>
      response.respondentEmail == "" || Trim(response.respondentEmail) != ""
  }

  /** The key a response merges under is a clean store key. */
  lemma KeyIsClean(response: Response)
    requires response.respondentEmail == "" || Trim(response.respondentEmail) != ""
    ensures KeyOf(response).Some? ==> KeyOf(response).value != "" && Normalize(KeyOf(response).value) == KeyOf(response).value
  {
    var email := Classify(response).email;
    if email != "" {
      EmailSource(response.items, Initial(response));
      NormalizeNonEmpty(email);
      NormalizeIdempotent(email);
    }
  }

  lemma {:induction false} MergeAllClean(s: Store, responses: seq<Response>)
    requires Clean(s)
    requires forall r :: r in responses ==> r.respondentEmail == "" || Trim(r.respondentEmail) != ""
    ensures Clean(MergeAll(s, responses))
    decreases |responses|
  {
    if responses != [] {
      var n := |responses| - 1;
      MergeAllClean(s, responses[..n]);
      KeyIsClean(responses[n]);
    }
  }

  lemma {:induction false} ResponsesOfMembers(forms: seq<Source>, response: Response)
    requires response in ResponsesOf(forms)
    ensures exists src :: src in forms && response in src.responses
    decreases |forms|
  {
    var n := |forms| - 1;
    if response in ResponsesOf(forms[..n]) {
      ResponsesOfMembers(forms[..n], response);
      var src :| src in forms[..n] && response in src.responses;
      assert src in forms;
    } else {
      assert forms[n] in forms;
    }
  }

  /** With well-formed respondent emails the store a run writes is clean,
      so the master sheet loads back to exactly that store. */
  lemma WalkedIsClean(target: Folder, skipRsvp: bool, body: seq<Row>, ledger: seq<string>)
    requires RespondentsWellFormed(Preorder(target))
    ensures Clean(Walked(target, skipRsvp, body, ledger).store)
    ensures LoadRows(Reconcile(target, skipRsvp, body, ledger).body) == Walked(target, skipRsvp, body, ledger).store
  {
    var prior := Prior(ledger);
    var done := Reconciled(Preorder(target), prior, skipRsvp);
    WalkFolderEffect(target, prior, skipRsvp, State(LoadRows(body), [], Zero));
    LoadRowsClean(body);
    ReconciledMembers(Preorder(target), prior, skipRsvp);
    forall r | r in ResponsesOf(done)
      ensures r.respondentEmail == "" || Trim(r.respondentEmail) != ""
    {
      ResponsesOfMembers(done, r);
    }
    MergeAllClean(LoadRows(body), ResponsesOf(done));
    var st := Walked(target, skipRsvp, body, ledger);
    ExportThenLoad(st.store, body);
  }

  /** Count conservation across a run: the count the master sheet holds for
      an email grows by exactly the number of responses of newly reconciled
      forms that resolve to it. */
  lemma RunCounts(target: Folder, skipRsvp: bool, body: seq<Row>, ledger: seq<string>, email: string)
    requires RespondentsWellFormed(Preorder(target))
    ensures CountOf(LoadRows(Reconcile(target, skipRsvp, body, ledger).body), email)
            == CountOf(LoadRows(body), email)
               + Hits(ResponsesOf(Reconciled(Preorder(target), Prior(ledger), skipRsvp)), email)
  {
    WalkedIsClean(target, skipRsvp, body, ledger);
    WalkFolderEffect(target, Prior(ledger), skipRsvp, State(LoadRows(body), [], Zero));
    MergeAllCounts(LoadRows(body), ResponsesOf(Reconciled(Preorder(target), Prior(ledger), skipRsvp)), email);
  }

  /** After a run, the ledger holds the id of every form the run reconciled,
      so a walk against that ledger reconciles none of them. */
  lemma LedgerCoversRun(target: Folder, skipRsvp: bool, body: seq<Row>, ledger: seq<string>)
    ensures Reconciled(Preorder(target), Prior(Reconcile(target, skipRsvp, body, ledger).ledger), skipRsvp) == []
  {
    var st1 := Walked(target, skipRsvp, body, ledger);
    var forms := Preorder(target);
    var done := Reconciled(forms, Prior(ledger), skipRsvp);
    WalkFolderEffect(target, Prior(ledger), skipRsvp, State(LoadRows(body), [], Zero));
    var ledgered := set id | id in st1.newIds;
    AddIdsSpec([], IdsOf(done));
    IdsOfMembers(done);
    forall src | src in done
      ensures src.id in ledgered
    {
      var i :| 0 <= i < |done| && done[i] == src;
      assert IdsOf(done)[i] == src.id;
    }
    assert Prior(ledger + st1.newIds) == Prior(ledger) + ledgered;
    SecondWalkReconcilesNothing(forms, Prior(ledger), skipRsvp, ledgered);
  }

  /** A walk that reconciles no form leaves the loaded store as it is, adds
      no id and counts no processed form or response. */
  lemma IdleWalk(target: Folder, skipRsvp: bool, body: seq<Row>, ledger: seq<string>)
    requires Reconciled(Preorder(target), Prior(ledger), skipRsvp) == []
    ensures Walked(target, skipRsvp, body, ledger).store == LoadRows(body)
    ensures Walked(target, skipRsvp, body, ledger).newIds == []
    ensures Walked(target, skipRsvp, body, ledger).stats.formsProcessed == 0
    ensures Walked(target, skipRsvp, body, ledger).stats.responsesProcessed == 0
  {
    WalkFolderEffect(target, Prior(ledger), skipRsvp, State(LoadRows(body), [], Zero));
    AddIdsSpec([], []);
  }

  /** Idempotence: running again on what a run left reconciles nothing and
      leaves both sheets as they are. */
  lemma ReconcileTwice(target: Folder, skipRsvp: bool, body: seq<Row>, ledger: seq<string>)
    requires RespondentsWellFormed(Preorder(target))
    ensures var first := Reconcile(target, skipRsvp, body, ledger);
            var second := Reconcile(target, skipRsvp, first.body, first.ledger);
            && second.body == first.body
            && second.ledger == first.ledger
            && second.result.value.formsProcessed == 0
            && second.result.value.responsesProcessed == 0
            && second.result.value.totalEmails == first.result.value.totalEmails
  {
    var first := Reconcile(target, skipRsvp, body, ledger);
    var st1 := Walked(target, skipRsvp, body, ledger);
    WalkedIsClean(target, skipRsvp, body, ledger);
    LedgerCoversRun(target, skipRsvp, body, ledger);
    IdleWalk(target, skipRsvp, first.body, first.ledger);
    var st2 := Walked(target, skipRsvp, first.body, first.ledger);
    assert st2.store == st1.store && st2.newIds == [];
    OverwriteTwice(body, RowsOf(st1.store));
    assert first.ledger + [] == first.ledger;
  }

  /** The same for the entry point: with the same configuration and Drive,
      a second run succeeds, processes nothing and changes nothing. */
  lemma RunTwice(config: Option<Options>, drive: seq<Folder>, body: seq<Row>, ledger: seq<string>)
    requires Resolve(config).Ok? && Target(Resolve(config).value, drive).Ok?
    requires RespondentsWellFormed(Preorder(Target(Resolve(config).value, drive).value))
    ensures var first := Run(config, drive, body, ledger);
            var second := Run(config, drive, first.body, first.ledger);
            && second.result.Ok?
            && second.body == first.body
            && second.ledger == first.ledger
            && second.result.value.formsProcessed == 0
            && second.result.value.responsesProcessed == 0
  {
    var c := Resolve(config).value;
    ReconcileTwice(Target(c, drive).value, c.skipRsvp, body, ledger);
  }
}
