/** Concrete runs of the engine: one identity from two spellings of the same
    address, a form without responses, a form already in the ledger, and an
    RSVP form. */
module Scenarios {
  import opened Wrappers
  import opened Text
  import opened Forms
  import opened Classifier
  import opened Identity
  import opened Ledger
  import opened Walker
  import opened WalkFacts

  /** A response answering only a "Name" question. */
  function Named(respondentEmail: string, name: string): Response {
    Response(respondentEmail, [Item("Name", Some(name))])
  }

  lemma NamedFields(respondentEmail: string, name: string)
    requires name != [] && !IsSpace(name[0]) && !IsSpace(name[|name| - 1])
    ensures Classify(Named(respondentEmail, name)) == Fields(respondentEmail, "", "", name)
  {
    TrimStartNoop(name);
    TrimEndNoop(name);
    assert Trim(name) == name;
    assert Lower("Name") == "name";
    ContainsSpec("name", "email");
    ContainsSpec("name", "first");
    ContainsSpec("name", "last");
    assert "name"[0..4] == "name" && "name"[0] != "last"[0];
    assert !OccursAt("name", "last", 0);
    assert StartsWith("name", "name");
    assert KindOf(Lower("Name")) == FullNameField;
    var response := Named(respondentEmail, name);
    assert response.items[..0] == [];
    assert Fold(response.items, Initial(response)) == Step(Initial(response), response.items[0]);
  }

  lemma AbsorbNamed(s: Store, respondentEmail: string, name: string)
    requires respondentEmail != ""
    requires name != [] && !IsSpace(name[0]) && !IsSpace(name[|name| - 1])
    ensures Absorb(s, Named(respondentEmail, name)) == Merge(s, Normalize(respondentEmail), name)
  {
    NamedFields(respondentEmail, name);
  }

  lemma NormalizeSpellings()
    ensures Normalize("Al@X.com") == "al@x.com" && Normalize("al@x.com") == "al@x.com"
  {
    assert Lower("Al@X.com") == "al@x.com";
    assert Lower("al@x.com") == "al@x.com";
    TrimStartNoop("al@x.com");
    TrimEndNoop("al@x.com");
  }

  lemma MergeAllPair(s: Store, r1: Response, r2: Response)
    ensures MergeAll(s, [r1, r2]) == Absorb(Absorb(s, r1), r2)
  {
    assert MergeAll(s, [r1]) == Absorb(s, r1) by {
      assert [r1][..0] == [];
      assert MergeAll(s, [r1]) == Absorb(MergeAll(s, []), r1);
    }
    assert [r1, r2][..1] == [r1];
    assert MergeAll(s, [r1, r2]) == Absorb(MergeAll(s, [r1]), r2);
  }

  lemma MergeAlThenAlice()
    ensures Merge(Merge(Empty, "al@x.com", "Al"), "al@x.com", "Alice")
            == Store(["al@x.com"], map["al@x.com" := Entry("Alice", 2)])
  {
    var once := Merge(Empty, "al@x.com", "Al");
    assert once == Store(["al@x.com"], map["al@x.com" := Entry("Al", 1)]);
    var twice := Merge(once, "al@x.com", "Alice");
    assert twice == Store(["al@x.com"], once.entries["al@x.com" := Entry("Alice", 2)]);
    assert twice.entries == map["al@x.com" := Entry("Alice", 2)];
  }

  /** Two responses whose emails normalise to the same key, the second
      offering a longer name, make one identity with that name and count 2. */
  lemma SameKeyTwice(e1: string, n1: string, e2: string, n2: string, key: string)
    requires e1 != "" && e2 != "" && Normalize(e1) == key && Normalize(e2) == key
    requires n1 != [] && !IsSpace(n1[0]) && !IsSpace(n1[|n1| - 1])
    requires n2 != [] && !IsSpace(n2[0]) && !IsSpace(n2[|n2| - 1])
    ensures MergeAll(Empty, [Named(e1, n1), Named(e2, n2)]) == Merge(Merge(Empty, key, n1), key, n2)
  {
    MergeAllPair(Empty, Named(e1, n1), Named(e2, n2));
    AbsorbNamed(Empty, e1, n1);
    AbsorbNamed(Merge(Empty, key, n1), e2, n2);
  }

  /** Two responses from "Al@X.com" and "al@x.com" offering "Al" and then
      "Alice" make one identity, keyed "al@x.com", named "Alice", count 2. */
  lemma SameAddressTwoSpellings()
    ensures MergeAll(Empty, [Named("Al@X.com", "Al"), Named("al@x.com", "Alice")])
            == Store(["al@x.com"], map["al@x.com" := Entry("Alice", 2)])
  {
    NormalizeSpellings();
    SameKeyTwice("Al@X.com", "Al", "al@x.com", "Alice", "al@x.com");
    MergeAlThenAlice();
  }

  /** A new form without responses: ledgered, counted as processed, the
      store unchanged. */
  lemma EmptyFormIsLedgered(id: string, name: string, prior: set<string>, skipRsvp: bool, st: State)
    requires id !in prior && !IsRsvp(name)
    ensures var r := FormStep(Source(id, name, true, []), prior, skipRsvp, st);
            && r.store == st.store
            && r.newIds == AddId(st.newIds, id)
            && r.stats.newForms == st.stats.newForms + 1
  {
    FormStepEffect(Source(id, name, true, []), prior, skipRsvp, st);
  }

  /** The same form on the next run, its id now in the ledger: nothing
      happens, whatever its responses. */
  lemma LedgeredFormSkipped(src: Source, prior: set<string>, skipRsvp: bool, st: State)
    requires src.id in prior
    ensures FormStep(src, prior, skipRsvp, st) == st
  {
  }

  /** "Spring RSVP Form" with the filter on, and not yet ledgered: counted as
      skipped, never ledgered, no identity data. */
  lemma RsvpFormSkipped(id: string, responses: seq<Response>, prior: set<string>, st: State)
    requires id !in prior
    ensures var r := FormStep(Source(id, "Spring RSVP Form", true, responses), prior, true, st);
            && r.store == st.store
            && r.newIds == st.newIds
            && r.stats.skippedForms == st.stats.skippedForms + 1
  {
    assert Lower("Spring RSVP Form") == "spring rsvp form";
    assert OccursAt("spring rsvp form", "rsvp", 7);
    ContainsSpec("spring rsvp form", "rsvp");
    assert IsRsvp("Spring RSVP Form");
  }
}
