/** The folder walk of automaticLibrary.js (`processFolder`): forms of a folder
    first, in iterator order, then each subfolder recursively. Each form goes
    through the ledger check, the RSVP filter, the open, and then the merge of
    each of its responses into `emailMap`; the shared `emailMap`,
    `newlyProcessedFormIds` and `stats` objects are updated in place.

    The specification is a set of functions over a `State` value; the methods
    update the objects and are proved to follow it. */
module Walker {
  import opened Wrappers
  import opened Text
  import opened Forms
  import opened Classifier
  import opened Identity
  import opened Ledger

  /** The `stats` object's counters. */
  datatype Counters = Counters(formsProcessed: int, newForms: int, skippedForms: int,
                               responsesProcessed: int, newEmails: int)

  const Zero := Counters(0, 0, 0, 0, 0)

  /** What the walk updates: the store, the ids reconciled in this run, and
      the counters. */
  datatype State = State(store: Store, newIds: seq<string>, stats: Counters)

  // ---------------------------------------------------------------------------
  // Specification.

  /** The store key a response merges under: its resolved email, lower-cased
      and trimmed; `None` when the resolved email is empty. The emptiness test
      comes before the normalisation. */
  function KeyOf(response: Response): Option<string> {
    var fields := Classify(response);
    if fields.email == "" then None else Some(Normalize(fields.email))
  }

  /** The display name a response offers. */
  function CandidateName(response: Response): string {
    var fields := Classify(response);
    FinalName(fields.firstName, fields.lastName, fields.fullName)
  }

  /** The store after one response. */
  function Absorb(s: Store, response: Response): (r: Store)
    ensures s.Valid() ==> r.Valid()
  {
    match KeyOf(response)
    case None => s
    case Some(key) => Merge(s, key, CandidateName(response))
  }

  /** A response whose resolved email is empty (tested before normalising)
      leaves the store unchanged; any other is merged under its normalised
      email, and the store grows by at most that one key, at the end. */
  lemma AbsorbEffect(s: Store, response: Response)
    ensures Classify(response).email == "" ==> Absorb(s, response) == s
    ensures Classify(response).email != "" ==>
              && Normalize(Classify(response).email) in Absorb(s, response).entries
              && |s.keys| <= |Absorb(s, response).keys| <= |s.keys| + 1
              && Absorb(s, response).keys[..|s.keys|] == s.keys
  {
  }

  /** One response: counted as examined, then merged when it has an email. */
  function ResponseStep(st: State, response: Response): State {
    st.(store := Absorb(st.store, response),
        stats := st.stats.(responsesProcessed := st.stats.responsesProcessed + 1))
  }

  /** The responses of one form, in order. */
  function ResponsesStep(responses: seq<Response>, st: State): State
    decreases |responses|
  {
    if responses == [] then st
    else ResponseStep(ResponsesStep(responses[..|responses| - 1], st), responses[|responses| - 1])
  }

  /** The name filter: the lower-cased name contains "rsvp". */
  predicate IsRsvp(name: string) {
    Contains(Lower(name), "rsvp")
  }

  /** One form: skipped without a trace when its id was ledgered by an
      earlier run; counted as skipped, and not ledgered, when the RSVP filter
      is on and its name matches; left out of the ledger when it cannot be
      opened; otherwise counted, its responses merged, and its id added to
      the run's new ids. */
  function FormStep(src: Source, prior: set<string>, skipRsvp: bool, st: State): (r: State)
    ensures src.id in prior ==> r == st
    ensures src.id !in prior && skipRsvp && IsRsvp(src.name)
            ==> r.store == st.store && r.newIds == st.newIds
                && r.stats == st.stats.(skippedForms := st.stats.skippedForms + 1)
    ensures src.id in prior || (skipRsvp && IsRsvp(src.name)) || !src.openable
            ==> r.store == st.store && r.newIds == st.newIds
    ensures src.id !in prior && !(skipRsvp && IsRsvp(src.name)) && src.openable
            ==> r.newIds == AddId(st.newIds, src.id)
                && r.stats.formsProcessed == st.stats.formsProcessed + 1
                && r.stats.newForms == st.stats.newForms + 1
  {
    if src.id in prior then st
    else if skipRsvp && IsRsvp(src.name) then
      st.(stats := st.stats.(skippedForms := st.stats.skippedForms + 1))
    else if !src.openable then st
    else OpenStep(src, st)
  }

  /** A form that opened: counted as processed and new, its responses merged
      one by one, then its id added to the run's new ids. */
  function OpenStep(src: Source, st: State): (r: State)
    ensures r.newIds == AddId(st.newIds, src.id)
    ensures r.stats == st.stats.(formsProcessed := st.stats.formsProcessed + 1,
                                 newForms := st.stats.newForms + 1,
                                 responsesProcessed := st.stats.responsesProcessed + |src.responses|)
  {
    var begun := st.(stats := st.stats.(formsProcessed := st.stats.formsProcessed + 1,
                                         newForms := st.stats.newForms + 1));
    if |src.responses| == 0 then begun.(newIds := AddId(begun.newIds, src.id))
    else
      ResponsesStepFrame(src.responses, begun);
      var merged := ResponsesStep(src.responses, begun);
      merged.(newIds := AddId(merged.newIds, src.id))
  }

  /** The responses of a form change neither the run's new ids nor any
      counter but `responsesProcessed`, which grows by their number. */
  lemma {:induction false} ResponsesStepFrame(responses: seq<Response>, st: State)
    ensures ResponsesStep(responses, st).newIds == st.newIds
    ensures ResponsesStep(responses, st).stats
            == st.stats.(responsesProcessed := st.stats.responsesProcessed + |responses|)
    decreases |responses|
  {
    if responses != [] {
      ResponsesStepFrame(responses[..|responses| - 1], st);
    }
  }

  /** The forms of one folder, in iterator order. */
  function WalkForms(forms: seq<Source>, prior: set<string>, skipRsvp: bool, st: State): State
    decreases |forms|
  {
    if forms == [] then st
    else FormStep(forms[|forms| - 1], prior, skipRsvp, WalkForms(forms[..|forms| - 1], prior, skipRsvp, st))
  }

  /** One folder: its forms, then its subfolders. */
  function WalkFolder(f: Folder, prior: set<string>, skipRsvp: bool, st: State): State
    decreases f, |f.subfolders| + 1
  {
    WalkSubfolders(f, |f.subfolders|, prior, skipRsvp, WalkForms(f.forms, prior, skipRsvp, st))
  }

  /** The first `n` subfolders of `f`, each walked recursively, in order. */
  function WalkSubfolders(f: Folder, n: nat, prior: set<string>, skipRsvp: bool, st: State): State
    requires n <= |f.subfolders|
    decreases f, n
  {
    if n == 0 then st
    else WalkFolder(f.subfolders[n - 1], prior, skipRsvp, WalkSubfolders(f, n - 1, prior, skipRsvp, st))
  }

  // ---------------------------------------------------------------------------
  // The objects and the methods that update them.

  /** The script's `stats` object. */
  class Stats {
    var formsProcessed: int
    var newForms: int
    var skippedForms: int
    var responsesProcessed: int
    var newEmails: int

    function Value(): Counters
      reads this
    {
      Counters(formsProcessed, newForms, skippedForms, responsesProcessed, newEmails)
    }

    constructor ()
      ensures Value() == Zero
    {
      formsProcessed, newForms, skippedForms, responsesProcessed, newEmails := 0, 0, 0, 0, 0;
    }
  }

  function Snapshot(emailMap: IdentityMap, newIds: IdSet, stats: Stats): State
    reads emailMap, newIds, stats
  {
    State(emailMap.Value(), newIds.ids, stats.Value())
  }

  function Elements(ids: IdSet): set<string>
    reads ids
  {
    set id | id in ids.ids
  }

  /** The body of the loop over one form's responses. */
  method ProcessResponse(response: Response, emailMap: IdentityMap, stats: Stats)
    requires emailMap.Valid()
    modifies emailMap, stats
    ensures emailMap.Valid()
    ensures emailMap.Value() == Absorb(old(emailMap.Value()), response)
    ensures stats.Value() == old(stats.Value()).(responsesProcessed := old(stats.responsesProcessed) + 1)
  {
    stats.responsesProcessed := stats.responsesProcessed + 1;
    var email, firstName, lastName, fullName := ClassifyResponse(response);
    var finalName := FinalName(firstName, lastName, fullName);
    ghost var before := emailMap.Value();
    assert KeyOf(response) == if email == "" then None else Some(Normalize(email));
    assert CandidateName(response) == finalName;
    if email == "" {
      return;
    }
    email := Trim(Lower(email));
    if emailMap.Has(email) {
      var existing := emailMap.Get(email);
      existing := existing.(count := existing.count + 1);
      if |finalName| > |existing.name| {
        existing := existing.(name := finalName);
      }
      emailMap.Set(email, existing);
      assert emailMap.Value() == Merge(before, email, finalName);
    } else {
      emailMap.Set(email, Entry(finalName, 1));
      assert emailMap.Value() == Merge(before, email, finalName);
    }
  }

  /** The body of the loop over a folder's forms (the `try` block and its
      `catch`). */
  method ProcessForm(formFile: Source, emailMap: IdentityMap, processedForms: IdSet, newIds: IdSet,
                     skipRsvp: bool, stats: Stats)
    requires emailMap.Valid() && newIds.Valid() && processedForms != newIds
    modifies emailMap, newIds, stats
    ensures emailMap.Valid() && newIds.Valid()
    ensures Snapshot(emailMap, newIds, stats)
            == FormStep(formFile, Elements(processedForms), skipRsvp, old(Snapshot(emailMap, newIds, stats)))
  {
    var formId := formFile.id;
    var formName := formFile.name;
    if processedForms.Has(formId) {
      return;
    }
    if skipRsvp && Contains(Lower(formName), "rsvp") {
      stats.skippedForms := stats.skippedForms + 1;
      return;
    }
    if !formFile.openable {
      // Opening the form or reading its responses threw; the catch only logs.
      return;
    }
    OpenForm(formFile, emailMap, newIds, stats);
  }

  /** The rest of the `try` block, once the form is open. */
  method OpenForm(formFile: Source, emailMap: IdentityMap, newIds: IdSet, stats: Stats)
    requires emailMap.Valid() && newIds.Valid()
    modifies emailMap, newIds, stats
    ensures emailMap.Valid() && newIds.Valid()
    ensures Snapshot(emailMap, newIds, stats) == OpenStep(formFile, old(Snapshot(emailMap, newIds, stats)))
  {
    var formId := formFile.id;
    var formResponses := formFile.responses;
    var responseCount := |formResponses|;
    stats.formsProcessed := stats.formsProcessed + 1;
    stats.newForms := stats.newForms + 1;
    if responseCount == 0 {
      newIds.Add(formId);
      return;
    }
    ghost var begun := Snapshot(emailMap, newIds, stats);
    var k := 0;
    while k < |formResponses|
      invariant 0 <= k <= |formResponses|
      invariant emailMap.Valid() && newIds.Valid()
      invariant Snapshot(emailMap, newIds, stats) == ResponsesStep(formResponses[..k], begun)
    {
      ProcessResponse(formResponses[k], emailMap, stats);
      assert formResponses[..k + 1][..k] == formResponses[..k];
      k := k + 1;
    }
    assert formResponses[..k] == formResponses;
    newIds.Add(formId);
  }

  /** `processFolder`: the forms of `folder`, then each subfolder. */
  method ProcessFolder(folder: Folder, emailMap: IdentityMap, processedForms: IdSet, newIds: IdSet,
                       skipRsvp: bool, stats: Stats)
    requires emailMap.Valid() && newIds.Valid() && processedForms != newIds
    modifies emailMap, newIds, stats
    ensures emailMap.Valid() && newIds.Valid()
    ensures Snapshot(emailMap, newIds, stats)
            == WalkFolder(folder, Elements(processedForms), skipRsvp, old(Snapshot(emailMap, newIds, stats)))
    decreases folder
  {
    ghost var prior := Elements(processedForms);
    ghost var start := Snapshot(emailMap, newIds, stats);
    var forms := folder.forms;
    var i := 0;
    while i < |forms|
      invariant 0 <= i <= |forms|
      invariant emailMap.Valid() && newIds.Valid()
      invariant Snapshot(emailMap, newIds, stats) == WalkForms(forms[..i], prior, skipRsvp, start)
    {
      ProcessForm(forms[i], emailMap, processedForms, newIds, skipRsvp, stats);
      assert forms[..i + 1][..i] == forms[..i];
      i := i + 1;
    }
    assert forms[..i] == forms;
    ghost var afterForms := Snapshot(emailMap, newIds, stats);
    var subfolders := folder.subfolders;
    var j := 0;
    while j < |subfolders|
      invariant 0 <= j <= |subfolders|
      invariant emailMap.Valid() && newIds.Valid()
      invariant Snapshot(emailMap, newIds, stats) == WalkSubfolders(folder, j, prior, skipRsvp, afterForms)
    {
      ProcessFolder(subfolders[j], emailMap, processedForms, newIds, skipRsvp, stats);
      j := j + 1;
    }
  }
}
