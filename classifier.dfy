/** The response classifier: one response's (title, answer) items are folded
    into four accumulators (email, first name, last name, full name) by
    substring rules on the lower-cased title, and a display name is resolved
    from them. */
module Classifier {
  import opened Wrappers
  import opened Text
  import opened Forms

  /** The accumulator an item feeds, decided by its lower-cased title. */
  datatype Kind = EmailField | FirstNameField | LastNameField | FullNameField | Ignored

  /** The precedence of the rules: "email"; else "first" and "name"; else
      "last" and "name"; else "name" without "email". */
  function KindOf(title: string): Kind {
    if Contains(title, "email") then EmailField
    else if Contains(title, "first") && Contains(title, "name") then FirstNameField
    else if Contains(title, "last") && Contains(title, "name") then LastNameField
    else if Contains(title, "name") && !Contains(title, "email") then FullNameField
    else Ignored
  }

  /** What each kind means for the title: an email item exactly when it
      mentions "email"; ignored exactly when it mentions neither "email" nor
      "name"; a last-name item never mentions "first". */
  lemma KindOfRules(title: string)
    ensures KindOf(title) == EmailField <==> Contains(title, "email")
    ensures KindOf(title) == Ignored <==> !Contains(title, "email") && !Contains(title, "name")
    ensures KindOf(title) == FirstNameField ==> Contains(title, "first") && Contains(title, "name")
    ensures KindOf(title) == LastNameField ==> Contains(title, "last") && Contains(title, "name") && !Contains(title, "first")
    ensures KindOf(title) == FullNameField ==> Contains(title, "name")
  {
  }

  /** JavaScript truthiness of an answer: present and not the empty string. */
  predicate Truthy(answer: Option<string>) {
    answer.Some? && answer.value != ""
  }

  datatype Fields = Fields(email: string, firstName: string, lastName: string, fullName: string)

  /** The accumulators before the first item: the respondent email, and empty
      names. */
  function Initial(response: Response): Fields {
    Fields(response.respondentEmail, "", "", "")
  }

  /** The effect of one item on the accumulators. */
  function Step(acc: Fields, item: Item): Fields {
    if !Truthy(item.answer) then acc
    else
      var answer := Trim(item.answer.value);
      match KindOf(Lower(item.title))
      case EmailField => acc.(email := if answer != "" then answer else acc.email)
      case FirstNameField => acc.(firstName := answer)
      case LastNameField => acc.(lastName := answer)
      case FullNameField => acc.(fullName := answer)
      case Ignored => acc
  }

  /** The items applied in document order. */
  function Fold(items: seq<Item>, acc: Fields): Fields
    decreases |items|
  {
    if items == [] then acc
    else Step(Fold(items[..|items| - 1], acc), items[|items| - 1])
  }

  function Classify(response: Response): Fields {
    Fold(response.items, Initial(response))
  }

  /** The display name: "first last" when both parts are present, else the
      full name, else whichever part is present (`""` when none is). */
  function FinalName(firstName: string, lastName: string, fullName: string): (r: string)
    ensures r == "" <==> firstName == "" && lastName == "" && fullName == ""
    ensures r == firstName + " " + lastName || r == fullName || r == firstName || r == lastName
    ensures firstName != "" && lastName != "" ==> r == firstName + " " + lastName
    ensures !(firstName != "" && lastName != "") && fullName != "" ==> r == fullName
    ensures !(firstName != "" && lastName != "") && fullName == "" ==> r == (if firstName != "" then firstName else lastName)
  {
    if firstName != "" && lastName != "" then firstName + " " + lastName
    else if fullName != "" then fullName
    else if firstName != "" then firstName
    else lastName
  }

  /** The classifier's loop over the items of one response, reassigning the
      four accumulators. */
  method ClassifyResponse(response: Response) returns (email: string, firstName: string, lastName: string, fullName: string)
    ensures Fields(email, firstName, lastName, fullName) == Classify(response)
  {
    fullName, firstName, lastName := "", "", "";
    email := response.respondentEmail;
    var items := response.items;
    var i := 0;
    while i < |items|
      invariant 0 <= i <= |items|
      invariant Fields(email, firstName, lastName, fullName) == Fold(items[..i], Initial(response))
    {
      var title := Lower(items[i].title);
      var answer := items[i].answer;
      if answer.Some? && answer.value != "" {
        var answerString := Trim(answer.value);
        if Contains(title, "email") {
          email := if answerString != "" then answerString else email;
        } else if Contains(title, "first") && Contains(title, "name") {
          firstName := answerString;
        } else if Contains(title, "last") && Contains(title, "name") {
          lastName := answerString;
        } else if Contains(title, "name") && !Contains(title, "email") {
          fullName := answerString;
        }
      }
      assert items[..i + 1][..i] == items[..i];
      i := i + 1;
    }
    assert items[..i] == items;
  }

  // ---------------------------------------------------------------------------
  // Last match wins.

  /** The item is one the accumulator of kind `k` takes its value from. An
      email item feeds only with an answer that is non-empty once trimmed. */
  predicate Feeds(item: Item, k: Kind) {
    && Truthy(item.answer)
    && KindOf(Lower(item.title)) == k
    && (k == EmailField ==> Trim(item.answer.value) != "")
  }

  function Field(acc: Fields, k: Kind): string {
    match k
    case EmailField => acc.email
    case FirstNameField => acc.firstName
    case LastNameField => acc.lastName
    case FullNameField => acc.fullName
    case Ignored => ""
  }

  /** Each item changes at most one accumulator: the one it feeds. */
  lemma StepField(acc: Fields, item: Item, k: Kind)
    requires k != Ignored
    ensures Feeds(item, k) ==> Field(Step(acc, item), k) == Trim(item.answer.value)
    ensures !Feeds(item, k) ==> Field(Step(acc, item), k) == Field(acc, k)
  {
  }

  /** An accumulator no item feeds keeps its initial value. */
  lemma {:induction false} NoMatchKeeps(items: seq<Item>, acc: Fields, k: Kind)
    requires k != Ignored
    requires forall j :: 0 <= j < |items| ==> !Feeds(items[j], k)
    ensures Field(Fold(items, acc), k) == Field(acc, k)
    decreases |items|
  {
    if items != [] {
      var n := |items| - 1;
      assert forall j :: 0 <= j < n ==> items[..n][j] == items[j];
      NoMatchKeeps(items[..n], acc, k);
      StepField(Fold(items[..n], acc), items[n], k);
    }
  }

  /** The value of an accumulator after the fold is the trimmed answer of the
      LAST item in document order that feeds it. */
  lemma {:induction false} LastMatchWins(items: seq<Item>, acc: Fields, k: Kind, j: nat)
    requires k != Ignored
    requires j < |items| && Feeds(items[j], k)
    requires forall j' :: j < j' < |items| ==> !Feeds(items[j'], k)
    ensures Field(Fold(items, acc), k) == Trim(items[j].answer.value)
    decreases |items|
  {
    var n := |items| - 1;
    var prefix := items[..n];
    StepField(Fold(prefix, acc), items[n], k);
    if j < n {
      assert prefix[j] == items[j];
      assert forall j' :: j < j' < n ==> prefix[j'] == items[j'];
      LastMatchWins(prefix, acc, k, j);
    }
  }

  /** The classifier in terms of the items alone: the email is the last email
      item with a non-blank answer (else the respondent email), and each name
      accumulator is the last item of its kind (else `""`). */
  lemma ClassifyByLastMatch(response: Response, k: Kind)
    requires k != Ignored
    ensures (forall j :: 0 <= j < |response.items| ==> !Feeds(response.items[j], k))
            ==> Field(Classify(response), k) == (if k == EmailField then response.respondentEmail else "")
    ensures forall j :: 0 <= j < |response.items| && Feeds(response.items[j], k)
                        && (forall j' :: j < j' < |response.items| ==> !Feeds(response.items[j'], k))
                        ==> Field(Classify(response), k) == Trim(response.items[j].answer.value)
  {
    if forall j :: 0 <= j < |response.items| ==> !Feeds(response.items[j], k) {
      NoMatchKeeps(response.items, Initial(response), k);
    }
    forall j | 0 <= j < |response.items| && Feeds(response.items[j], k)
               && (forall j' :: j < j' < |response.items| ==> !Feeds(response.items[j'], k))
      ensures Field(Classify(response), k) == Trim(response.items[j].answer.value)
    {
      LastMatchWins(response.items, Initial(response), k, j);
    }
  }

  /** The resolved email is either the respondent email or the trimmed,
      non-blank answer of an email item of the response. */
  lemma {:induction false} EmailSource(items: seq<Item>, acc: Fields)
    ensures var e := Fold(items, acc).email;
            || e == acc.email
            || (&& Trim(e) != [] && Trim(e) == e
                && exists j :: 0 <= j < |items| && Feeds(items[j], EmailField) && e == Trim(items[j].answer.value))
    decreases |items|
  {
    if items != [] {
      var n := |items| - 1;
      EmailSource(items[..n], acc);
      var before := Fold(items[..n], acc);
      var item := items[n];
      StepField(before, item, EmailField);
      if Feeds(item, EmailField) {
        TrimIdempotent(item.answer.value);
      } else if before.email != acc.email {
        var j :| 0 <= j < n && Feeds(items[..n][j], EmailField) && before.email == Trim(items[..n][j].answer.value);
        assert items[..n][j] == items[j];
      }
    }
  }
}
