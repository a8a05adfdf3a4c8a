/** What the folder walk of automaticLibrary.js guarantees, proved about its
    specification in module Walker:
    - the walk visits the forms of the tree in depth-first pre-order, forms of
      a folder before its subfolders;
    - its overall effect is fixed by the list of forms it reconciles: their
      responses are merged in order, their ids are added to the run's new ids,
      and the counters grow by what they contain;
    - counts are conserved and names never get shorter;
    - an RSVP form never reaches the ledger, a ledgered form is never
      reconciled again, and a second run over the same tree reconciles
      nothing. */
module WalkFacts {
  import opened Wrappers
  import opened Text
  import opened Forms
  import opened Classifier
  import opened Identity
  import opened Ledger
  import opened Walker

  // ---------------------------------------------------------------------------
  // Depth-first pre-order.

  /** The forms of the tree in depth-first pre-order: those of `f` first,
      then those under each subfolder in turn. */
  function Preorder(f: Folder): seq<Source>
    decreases f, |f.subfolders| + 1
  {
    f.forms + PreorderSubfolders(f, |f.subfolders|)
  }

  function PreorderSubfolders(f: Folder, n: nat): seq<Source>
    requires n <= |f.subfolders|
    decreases f, n
  {
    if n == 0 then [] else PreorderSubfolders(f, n - 1) + Preorder(f.subfolders[n - 1])
  }

  lemma {:induction false} WalkFormsAppend(a: seq<Source>, b: seq<Source>, prior: set<string>, skipRsvp: bool, st: State)
    ensures WalkForms(a + b, prior, skipRsvp, st) == WalkForms(b, prior, skipRsvp, WalkForms(a, prior, skipRsvp, st))
    decreases |b|
  {
    if b == [] {
      assert a + b == a;
    } else {
      var n := |b| - 1;
      assert (a + b)[..|a + b| - 1] == a + b[..n];
      WalkFormsAppend(a, b[..n], prior, skipRsvp, st);
    }
  }

  /** The walk of a folder is the walk of the forms of its tree, taken in
      depth-first pre-order. */
  lemma {:induction false} WalkIsPreorder(f: Folder, prior: set<string>, skipRsvp: bool, st: State)
    ensures WalkFolder(f, prior, skipRsvp, st) == WalkForms(Preorder(f), prior, skipRsvp, st)
    decreases f, |f.subfolders| + 1
  {
    var afterForms := WalkForms(f.forms, prior, skipRsvp, st);
    WalkSubfoldersIsPreorder(f, |f.subfolders|, prior, skipRsvp, afterForms);
    WalkFormsAppend(f.forms, PreorderSubfolders(f, |f.subfolders|), prior, skipRsvp, st);
  }

  lemma {:induction false} WalkSubfoldersIsPreorder(f: Folder, n: nat, prior: set<string>, skipRsvp: bool, st: State)
    requires n <= |f.subfolders|
    ensures WalkSubfolders(f, n, prior, skipRsvp, st) == WalkForms(PreorderSubfolders(f, n), prior, skipRsvp, st)
    decreases f, n
  {
    if n > 0 {
      WalkSubfoldersIsPreorder(f, n - 1, prior, skipRsvp, st);
      WalkIsPreorder(f.subfolders[n - 1], prior, skipRsvp, WalkSubfolders(f, n - 1, prior, skipRsvp, st));
      WalkFormsAppend(PreorderSubfolders(f, n - 1), Preorder(f.subfolders[n - 1]), prior, skipRsvp, st);
    }
  }

  // ---------------------------------------------------------------------------
  // The walk in terms of the forms it reconciles.

  /** A form the walk reconciles: not ledgered by an earlier run, not removed
      by the RSVP filter, and openable. */
  predicate Reconciles(src: Source, prior: set<string>, skipRsvp: bool) {
    src.id !in prior && !(skipRsvp && IsRsvp(src.name)) && src.openable
  }

  /** A form the RSVP filter removes (after the ledger check). */
  predicate SkippedAsRsvp(src: Source, prior: set<string>, skipRsvp: bool) {
    src.id !in prior && skipRsvp && IsRsvp(src.name)
  }

  function Reconciled(forms: seq<Source>, prior: set<string>, skipRsvp: bool): seq<Source>
    decreases |forms|
  {
    if forms == [] then []
    else
      var n := |forms| - 1;
      Reconciled(forms[..n], prior, skipRsvp) + (if Reconciles(forms[n], prior, skipRsvp) then [forms[n]] else [])
  }

  function SkippedCount(forms: seq<Source>, prior: set<string>, skipRsvp: bool): nat
    decreases |forms|
  {
    if forms == [] then 0
    else
      var n := |forms| - 1;
      SkippedCount(forms[..n], prior, skipRsvp) + (if SkippedAsRsvp(forms[n], prior, skipRsvp) then 1 else 0)
  }

  function IdsOf(forms: seq<Source>): seq<string>
    decreases |forms|
  {
    if forms == [] then [] else IdsOf(forms[..|forms| - 1]) + [forms[|forms| - 1].id]
  }

  /** All responses of the given forms, form after form. */
  function ResponsesOf(forms: seq<Source>): seq<Response>
    decreases |forms|
  {
    if forms == [] then [] else ResponsesOf(forms[..|forms| - 1]) + forms[|forms| - 1].responses
  }

  /** The store after merging the responses in order. */
  function MergeAll(s: Store, responses: seq<Response>): Store
    decreases |responses|
  {
    if responses == [] then s
    else Absorb(MergeAll(s, responses[..|responses| - 1]), responses[|responses| - 1])
  }

  lemma {:induction false} MergeAllAppend(s: Store, a: seq<Response>, b: seq<Response>)
    ensures MergeAll(s, a + b) == MergeAll(MergeAll(s, a), b)
    decreases |b|
  {
    if b == [] {
      assert a + b == a;
    } else {
      var n := |b| - 1;
      assert (a + b)[..|a + b| - 1] == a + b[..n];
      MergeAllAppend(s, a, b[..n]);
    }
  }

  lemma {:induction false} ResponsesStepStore(responses: seq<Response>, st: State)
    ensures ResponsesStep(responses, st).store == MergeAll(st.store, responses)
    decreases |responses|
  {
    if responses != [] {
      ResponsesStepStore(responses[..|responses| - 1], st);
    }
  }

  lemma {:induction false} ReconciledMembers(forms: seq<Source>, prior: set<string>, skipRsvp: bool)
    ensures forall src :: src in Reconciled(forms, prior, skipRsvp) <==> src in forms && Reconciles(src, prior, skipRsvp)
    decreases |forms|
  {
    if forms != [] {
      var n := |forms| - 1;
      ReconciledMembers(forms[..n], prior, skipRsvp);
      assert forms == forms[..n] + [forms[n]];
    }
  }

  lemma {:induction false} IdsOfMembers(forms: seq<Source>)
    ensures |IdsOf(forms)| == |forms|
    ensures forall i :: 0 <= i < |forms| ==> IdsOf(forms)[i] == forms[i].id
    decreases |forms|
  {
    if forms != [] {
      IdsOfMembers(forms[..|forms| - 1]);
    }
  }

  lemma SnocResponses(done: seq<Source>, src: Source)
    ensures ResponsesOf(done + [src]) == ResponsesOf(done) + src.responses
    ensures IdsOf(done + [src]) == IdsOf(done) + [src.id]
  {
    assert (done + [src])[..|done|] == done;
  }

  /** One form's effect in closed form. */
  lemma FormStepEffect(src: Source, prior: set<string>, skipRsvp: bool, st: State)
    ensures FormStep(src, prior, skipRsvp, st).store
            == if Reconciles(src, prior, skipRsvp) then MergeAll(st.store, src.responses) else st.store
    ensures FormStep(src, prior, skipRsvp, st).newIds
            == if Reconciles(src, prior, skipRsvp) then AddId(st.newIds, src.id) else st.newIds
    ensures FormStep(src, prior, skipRsvp, st).stats
            == Counters(st.stats.formsProcessed + (if Reconciles(src, prior, skipRsvp) then 1 else 0),
                        st.stats.newForms + (if Reconciles(src, prior, skipRsvp) then 1 else 0),
                        st.stats.skippedForms + (if SkippedAsRsvp(src, prior, skipRsvp) then 1 else 0),
                        st.stats.responsesProcessed + (if Reconciles(src, prior, skipRsvp) then |src.responses| else 0),
                        st.stats.newEmails)
  {
    if Reconciles(src, prior, skipRsvp) {
      var begun := st.(stats := st.stats.(formsProcessed := st.stats.formsProcessed + 1,
                                          newForms := st.stats.newForms + 1));
      ResponsesStepFrame(src.responses, begun);
      ResponsesStepStore(src.responses, begun);
    }
  }

  lemma {:induction false} WalkFormsStore(forms: seq<Source>, prior: set<string>, skipRsvp: bool, st: State)
    ensures WalkForms(forms, prior, skipRsvp, st).store
            == MergeAll(st.store, ResponsesOf(Reconciled(forms, prior, skipRsvp)))
    decreases |forms|
  {
    if forms != [] {
      var n := |forms| - 1;
      var src := forms[n];
      var before := WalkForms(forms[..n], prior, skipRsvp, st);
      var done := Reconciled(forms[..n], prior, skipRsvp);
      WalkFormsStore(forms[..n], prior, skipRsvp, st);
      FormStepEffect(src, prior, skipRsvp, before);
      if Reconciles(src, prior, skipRsvp) {
        assert Reconciled(forms, prior, skipRsvp) == done + [src];
        MergeAllAppend(st.store, ResponsesOf(done), src.responses);
        SnocResponses(done, src);
      } else {
        assert Reconciled(forms, prior, skipRsvp) == done;
      }
    }
  }

  lemma {:induction false} WalkFormsIds(forms: seq<Source>, prior: set<string>, skipRsvp: bool, st: State)
    ensures WalkForms(forms, prior, skipRsvp, st).newIds
            == AddIds(st.newIds, IdsOf(Reconciled(forms, prior, skipRsvp)))
    decreases |forms|
  {
    if forms != [] {
      var n := |forms| - 1;
      var src := forms[n];
      var before := WalkForms(forms[..n], prior, skipRsvp, st);
      var done := Reconciled(forms[..n], prior, skipRsvp);
      WalkFormsIds(forms[..n], prior, skipRsvp, st);
      FormStepEffect(src, prior, skipRsvp, before);
      if Reconciles(src, prior, skipRsvp) {
        assert Reconciled(forms, prior, skipRsvp) == done + [src];
        SnocResponses(done, src);
        assert (IdsOf(done) + [src.id])[..|IdsOf(done)|] == IdsOf(done);
      } else {
        assert Reconciled(forms, prior, skipRsvp) == done;
      }
    }
  }

  lemma {:induction false} WalkFormsStats(forms: seq<Source>, prior: set<string>, skipRsvp: bool, st: State)
    ensures WalkForms(forms, prior, skipRsvp, st).stats
            == Counters(st.stats.formsProcessed + |Reconciled(forms, prior, skipRsvp)|,
                        st.stats.newForms + |Reconciled(forms, prior, skipRsvp)|,
                        st.stats.skippedForms + SkippedCount(forms, prior, skipRsvp),
                        st.stats.responsesProcessed + |ResponsesOf(Reconciled(forms, prior, skipRsvp))|,
                        st.stats.newEmails)
    decreases |forms|
  {
    if forms != [] {
      var n := |forms| - 1;
      var src := forms[n];
      var before := WalkForms(forms[..n], prior, skipRsvp, st);
      var done := Reconciled(forms[..n], prior, skipRsvp);
      assert WalkForms(forms, prior, skipRsvp, st) == FormStep(src, prior, skipRsvp, before);
      WalkFormsStats(forms[..n], prior, skipRsvp, st);
      FormStepEffect(src, prior, skipRsvp, before);
      if Reconciles(src, prior, skipRsvp) {
        assert Reconciled(forms, prior, skipRsvp) == done + [src];
        SnocResponses(done, src);
      } else {
        assert Reconciled(forms, prior, skipRsvp) == done;
      }
    }
  }

  /** The whole effect of walking a list of forms: the store is the old one
      with the responses of the reconciled forms merged in order; their ids,
      in order, are added to the run's new ids; `formsProcessed` and
      `newForms` grow by their number, `skippedForms` by the number of RSVP
      forms, `responsesProcessed` by the number of their responses, and
      `newEmails` never changes. */
  lemma WalkFormsEffect(forms: seq<Source>, prior: set<string>, skipRsvp: bool, st: State)
    ensures WalkForms(forms, prior, skipRsvp, st).store
            == MergeAll(st.store, ResponsesOf(Reconciled(forms, prior, skipRsvp)))
    ensures WalkForms(forms, prior, skipRsvp, st).newIds
            == AddIds(st.newIds, IdsOf(Reconciled(forms, prior, skipRsvp)))
    ensures WalkForms(forms, prior, skipRsvp, st).stats
            == Counters(st.stats.formsProcessed + |Reconciled(forms, prior, skipRsvp)|,
                        st.stats.newForms + |Reconciled(forms, prior, skipRsvp)|,
                        st.stats.skippedForms + SkippedCount(forms, prior, skipRsvp),
                        st.stats.responsesProcessed + |ResponsesOf(Reconciled(forms, prior, skipRsvp))|,
                        st.stats.newEmails)
  {
    WalkFormsStore(forms, prior, skipRsvp, st);
    WalkFormsIds(forms, prior, skipRsvp, st);
    WalkFormsStats(forms, prior, skipRsvp, st);
  }

  /** The same for a folder, through its pre-order list of forms. */
  lemma WalkFolderEffect(f: Folder, prior: set<string>, skipRsvp: bool, st: State)
    ensures WalkFolder(f, prior, skipRsvp, st).store
            == MergeAll(st.store, ResponsesOf(Reconciled(Preorder(f), prior, skipRsvp)))
    ensures WalkFolder(f, prior, skipRsvp, st).newIds
            == AddIds(st.newIds, IdsOf(Reconciled(Preorder(f), prior, skipRsvp)))
    ensures WalkFolder(f, prior, skipRsvp, st).stats
            == Counters(st.stats.formsProcessed + |Reconciled(Preorder(f), prior, skipRsvp)|,
                        st.stats.newForms + |Reconciled(Preorder(f), prior, skipRsvp)|,
                        st.stats.skippedForms + SkippedCount(Preorder(f), prior, skipRsvp),
                        st.stats.responsesProcessed + |ResponsesOf(Reconciled(Preorder(f), prior, skipRsvp))|,
                        st.stats.newEmails)
  {
    WalkIsPreorder(f, prior, skipRsvp, st);
    WalkFormsEffect(Preorder(f), prior, skipRsvp, st);
  }

  /** The data half of `FormStepEffect`, for callers that keep no counters. */
  lemma FormStepData(src: Source, prior: set<string>, skipRsvp: bool, st: State)
    ensures FormStep(src, prior, skipRsvp, st).store
            == if Reconciles(src, prior, skipRsvp) then MergeAll(st.store, src.responses) else st.store
    ensures FormStep(src, prior, skipRsvp, st).newIds
            == if Reconciles(src, prior, skipRsvp) then AddId(st.newIds, src.id) else st.newIds
  {
    FormStepEffect(src, prior, skipRsvp, st);
  }

  /** The data half of `WalkFolderEffect`. */
  lemma WalkFolderData(f: Folder, prior: set<string>, skipRsvp: bool, st: State)
    ensures WalkFolder(f, prior, skipRsvp, st).store
            == MergeAll(st.store, ResponsesOf(Reconciled(Preorder(f), prior, skipRsvp)))
    ensures WalkFolder(f, prior, skipRsvp, st).newIds
            == AddIds(st.newIds, IdsOf(Reconciled(Preorder(f), prior, skipRsvp)))
  {
    WalkIsPreorder(f, prior, skipRsvp, st);
    WalkFormsStore(Preorder(f), prior, skipRsvp, st);
    WalkFormsIds(Preorder(f), prior, skipRsvp, st);
  }

  /** The store and the new ids a walk leaves depend on the store and the new
      ids it starts from, never on the counters. */
  lemma WalkFolderIgnoresStats(f: Folder, prior: set<string>, skipRsvp: bool, st1: State, st2: State)
    requires st1.store == st2.store && st1.newIds == st2.newIds
    ensures WalkFolder(f, prior, skipRsvp, st1).store == WalkFolder(f, prior, skipRsvp, st2).store
    ensures WalkFolder(f, prior, skipRsvp, st1).newIds == WalkFolder(f, prior, skipRsvp, st2).newIds
  {
    WalkFolderData(f, prior, skipRsvp, st1);
    WalkFolderData(f, prior, skipRsvp, st2);
  }

  // ---------------------------------------------------------------------------
  // Counts and names.

  /** The number of responses that merge under `key`. */
  function Hits(responses: seq<Response>, key: string): nat
    decreases |responses|
  {
    if responses == [] then 0
    else
      var n := |responses| - 1;
      Hits(responses[..n], key) + (if KeyOf(responses[n]) == Some(key) then 1 else 0)
  }

  /** The largest of `start` and the lengths of the names offered by the
      responses that merge under `key`. */
  function LongestOffered(start: nat, responses: seq<Response>, key: string): nat
    decreases |responses|
  {
    if responses == [] then start
    else
      var n := |responses| - 1;
      var longest := LongestOffered(start, responses[..n], key);
      if KeyOf(responses[n]) == Some(key) then Max(longest, |CandidateName(responses[n])|) else longest
  }

  /** Conservation: the count of every key grows by exactly the number of
      merged responses that resolve to it. Longest name: the name length of
      every key becomes the largest of its old length and the lengths of all
      names offered for it. */
  lemma {:induction false} MergeAllCounts(s: Store, responses: seq<Response>, key: string)
    ensures CountOf(MergeAll(s, responses), key) == CountOf(s, key) + Hits(responses, key)
    ensures NameLength(MergeAll(s, responses), key) == LongestOffered(NameLength(s, key), responses, key)
    decreases |responses|
  {
    if responses != [] {
      var n := |responses| - 1;
      var before := MergeAll(s, responses[..n]);
      MergeAllCounts(s, responses[..n], key);
      match KeyOf(responses[n])
      case None =>
      case Some(k) => MergeCounts(before, k, CandidateName(responses[n]), key);
    }
  }

  /** Keys are never removed and keep their positions; new keys go after
      them. */
  lemma {:induction false} MergeAllKeepsKeys(s: Store, responses: seq<Response>)
    ensures |s.keys| <= |MergeAll(s, responses).keys|
    ensures MergeAll(s, responses).keys[..|s.keys|] == s.keys
    ensures forall k :: k in s.entries ==> k in MergeAll(s, responses).entries
    ensures s.Valid() ==> MergeAll(s, responses).Valid()
    decreases |responses|
  {
    if responses != [] {
      var n := |responses| - 1;
      MergeAllKeepsKeys(s, responses[..n]);
      var before := MergeAll(s, responses[..n]);
      match KeyOf(responses[n])
      case None =>
      case Some(k) =>
        if k !in before.entries {
          assert (before.keys + [k])[..|s.keys|] == before.keys[..|s.keys|];
        }
    }
  }

  /** Conservation over a whole walk: after walking a folder, each key's count
      is its count before plus the number of responses of the reconciled
      forms that resolve to it. */
  lemma WalkConservesCounts(f: Folder, prior: set<string>, skipRsvp: bool, st: State, key: string)
    ensures CountOf(WalkFolder(f, prior, skipRsvp, st).store, key)
            == CountOf(st.store, key) + Hits(ResponsesOf(Reconciled(Preorder(f), prior, skipRsvp)), key)
    ensures NameLength(WalkFolder(f, prior, skipRsvp, st).store, key) >= NameLength(st.store, key)
  {
    var responses := ResponsesOf(Reconciled(Preorder(f), prior, skipRsvp));
    WalkFolderEffect(f, prior, skipRsvp, st);
    MergeAllCounts(st.store, responses, key);
    LongestOfferedAtLeast(NameLength(st.store, key), responses, key);
  }

  lemma {:induction false} LongestOfferedAtLeast(start: nat, responses: seq<Response>, key: string)
    ensures LongestOffered(start, responses, key) >= start
    decreases |responses|
  {
    if responses != [] {
      LongestOfferedAtLeast(start, responses[..|responses| - 1], key);
    }
  }

  // ---------------------------------------------------------------------------
  // The ledger.

  /** Form ids identify forms: two forms met with the same id are the same
      form (one Drive file reached through two folders). */
  ghost predicate IdsIdentify(forms: seq<Source>) {
    forall a, b :: a in forms && b in forms && a.id == b.id ==> a == b
  }

  /** The ids of the reconciled forms are the ids of the forms that reconcile. */
  lemma ReconciledIds(forms: seq<Source>, prior: set<string>, skipRsvp: bool, id: string)
    ensures id in IdsOf(Reconciled(forms, prior, skipRsvp))
            <==> exists src :: src in forms && Reconciles(src, prior, skipRsvp) && src.id == id
  {
    var done := Reconciled(forms, prior, skipRsvp);
    ReconciledMembers(forms, prior, skipRsvp);
    IdsOfMembers(done);
    if id in IdsOf(done) {
      var i :| 0 <= i < |IdsOf(done)| && IdsOf(done)[i] == id;
      assert done[i] in done;
    }
    if exists src :: src in forms && Reconciles(src, prior, skipRsvp) && src.id == id {
      var src :| src in forms && Reconciles(src, prior, skipRsvp) && src.id == id;
      var i :| 0 <= i < |done| && done[i] == src;
      assert IdsOf(done)[i] == id;
    }
  }

  /** The ids the walk adds are exactly the ids of the forms it reconciles. */
  lemma WalkNewIds(forms: seq<Source>, prior: set<string>, skipRsvp: bool, st: State, id: string)
    ensures id in WalkForms(forms, prior, skipRsvp, st).newIds
            <==> id in st.newIds || exists src :: src in forms && Reconciles(src, prior, skipRsvp) && src.id == id
  {
    WalkFormsIds(forms, prior, skipRsvp, st);
    AddIdsSpec(st.newIds, IdsOf(Reconciled(forms, prior, skipRsvp)));
    ReconciledIds(forms, prior, skipRsvp, id);
  }

  /** Skip exclusion: with the RSVP filter on, an RSVP form's id is never
      added to the ledger by a walk. */
  lemma RsvpNeverLedgered(f: Folder, prior: set<string>, st: State, src: Source)
    requires src in Preorder(f) && IsRsvp(src.name) && src.id !in st.newIds
    requires IdsIdentify(Preorder(f))
    ensures src.id !in WalkFolder(f, prior, true, st).newIds
  {
    WalkIsPreorder(f, prior, true, st);
    WalkNewIds(Preorder(f), prior, true, st, src.id);
  }

  /** A form whose id the ledger already holds contributes nothing to the
      walk: not a count, not a merge, not an id. */
  lemma LedgeredFormsIgnored(forms: seq<Source>, prior: set<string>, skipRsvp: bool)
    requires forall src :: src in forms ==> src.id in prior
    ensures Reconciled(forms, prior, skipRsvp) == [] && SkippedCount(forms, prior, skipRsvp) == 0
    ensures forall st :: WalkForms(forms, prior, skipRsvp, st) == st
  {
    ReconciledMembers(forms, prior, skipRsvp);
    NoneSkipped(forms, prior, skipRsvp);
    forall st ensures WalkForms(forms, prior, skipRsvp, st) == st {
      WalkFormsEffect(forms, prior, skipRsvp, st);
      AddIdsSpec(st.newIds, []);
    }
  }

  lemma {:induction false} NoneSkipped(forms: seq<Source>, prior: set<string>, skipRsvp: bool)
    requires forall src :: src in forms ==> src.id in prior
    ensures SkippedCount(forms, prior, skipRsvp) == 0
    decreases |forms|
  {
    if forms != [] {
      var n := |forms| - 1;
      assert forall src :: src in forms[..n] ==> src in forms;
      NoneSkipped(forms[..n], prior, skipRsvp);
    }
  }

  /** Idempotence: once the ids a walk reconciles are in the ledger, a second
      walk over the same forms reconciles nothing. */
  lemma SecondWalkReconcilesNothing(forms: seq<Source>, prior: set<string>, skipRsvp: bool, ledgered: set<string>)
    requires forall src :: src in Reconciled(forms, prior, skipRsvp) ==> src.id in ledgered
    ensures Reconciled(forms, prior + ledgered, skipRsvp) == []
  {
    ReconciledMembers(forms, prior, skipRsvp);
    ReconciledMembers(forms, prior + ledgered, skipRsvp);
  }

  /** The ledger check consults only the ids of earlier runs: a form met
      twice in one walk (one file filed in two folders) is reconciled both
      times, its responses merged and counted twice, while the new-id set
      records its id once. */
  lemma MetTwiceInOneRun(src: Source, prior: set<string>, skipRsvp: bool, st: State)
    requires Reconciles(src, prior, skipRsvp)
    ensures WalkForms([src, src], prior, skipRsvp, st).store == MergeAll(MergeAll(st.store, src.responses), src.responses)
    ensures WalkForms([src, src], prior, skipRsvp, st).newIds == AddId(st.newIds, src.id)
    ensures WalkForms([src, src], prior, skipRsvp, st).stats.formsProcessed == st.stats.formsProcessed + 2
  {
    var once := FormStep(src, prior, skipRsvp, st);
    assert WalkForms([src], prior, skipRsvp, st) == once by {
      assert [src][..0] == [];
    }
    assert WalkForms([src, src], prior, skipRsvp, st) == FormStep(src, prior, skipRsvp, once) by {
      assert [src, src][..1] == [src];
    }
    FormStepEffect(src, prior, skipRsvp, st);
    FormStepEffect(src, prior, skipRsvp, once);
  }
}
