/** The new-study-set form (app/sets/new/page.tsx): the editable list of
    flashcards with its add, remove and update handlers, and the submit path
    that validates the form and builds the StudySet and Term rows it inserts. */
module NewStudySet {
  import opened Wrappers
  import opened JsText

  /** One card of the form. The id is a client-generated UUID used only to
      identify the card inside the form. */
  datatype Flashcard = Flashcard(id: string, term: string, definition: string)

  /** The text field of a card that updateFlashcard writes. */
  datatype Field = TermField | DefinitionField

  function BlankCard(id: string): Flashcard {
    Flashcard(id, "", "")
  }

  function FieldOf(c: Flashcard, f: Field): string {
    match f
    case TermField => c.term
    case DefinitionField => c.definition
  }

  function OtherField(f: Field): Field {
    if f == TermField then DefinitionField else TermField
  }

  function WithField(c: Flashcard, f: Field, v: string): Flashcard {
    match f
    case TermField => c.(term := v)
    case DefinitionField => c.(definition := v)
  }

  function Ids(cards: seq<Flashcard>): set<string> {
    set c | c in cards :: c.id
  }

  predicate DistinctIds(cards: seq<Flashcard>) {
    forall i, j :: 0 <= i < j < |cards| ==> cards[i].id != cards[j].id
  }

  /** What the form keeps true of its list: at least two cards, no two with the
      same id (the ids are fresh UUIDs). */
  predicate WellFormed(cards: seq<Flashcard>) {
    |cards| >= 2 && DistinctIds(cards)
  }

  const MinimumFlashcardsMessage: string := "Minimum 2 flashcards required"

  // ---------------------------------------------------------------------------
  // The list operations, as the new arrays the handlers pass to setFlashcards
  // ---------------------------------------------------------------------------

  /** The initial list: two blank cards, well formed exactly when the two
      generated ids differ. */
  function InitialFlashcards(id1: string, id2: string): (r: seq<Flashcard>)
    ensures |r| == 2
    ensures forall c :: c in r ==> c.term == "" && c.definition == ""
    ensures WellFormed(r) <==> id1 != id2
  {
    var r := [BlankCard(id1), BlankCard(id2)];
    assert r[0].id == id1 && r[1].id == id2;
    r
  }

  /** addFlashcard: every existing card stays where it was and one blank card
      is added at the end; a fresh id keeps the list well formed. */
  function AddStep(cards: seq<Flashcard>, newId: string): (r: seq<Flashcard>)
    ensures |r| == |cards| + 1 && r[..|cards|] == cards && r[|cards|] == BlankCard(newId)
    ensures WellFormed(cards) && newId !in Ids(cards) ==> WellFormed(r)
  {
    var r := cards + [BlankCard(newId)];
    assert forall i :: 0 <= i < |cards| ==> cards[i] in cards;
    r
  }

  /** The filter of removeFlashcard: the cards whose id differs, in order. */
  function WithoutId(cards: seq<Flashcard>, id: string): (r: seq<Flashcard>)
    ensures |r| <= |cards|
  {
    if cards == [] then []
    else if cards[0].id == id then WithoutId(cards[1..], id)
    else [cards[0]] + WithoutId(cards[1..], id)
  }

  /** The filter keeps exactly the cards whose id differs, and leaves a list
      without that id unchanged. */
  lemma {:induction false} WithoutIdMembers(cards: seq<Flashcard>, id: string)
    ensures forall c :: c in WithoutId(cards, id) <==> c in cards && c.id != id
    ensures id !in Ids(cards) ==> WithoutId(cards, id) == cards
  {
    if cards != [] {
      WithoutIdMembers(cards[1..], id);
      assert cards == [cards[0]] + cards[1..];
      if id !in Ids(cards) {
        assert cards[0] in cards;
        assert id !in Ids(cards[1..]) by {
          forall c | c in cards[1..] ensures c.id != id {
            assert c in cards;
          }
        }
      }
    }
  }

  /** Filtering distributes over concatenation: the kept cards stay in their
      original relative order. */
  lemma {:induction false} WithoutIdConcat(a: seq<Flashcard>, b: seq<Flashcard>, id: string)
    ensures WithoutId(a + b, id) == WithoutId(a, id) + WithoutId(b, id)
  {
    if a != [] {
      assert (a + b)[0] == a[0] && (a + b)[1..] == a[1..] + b;
      WithoutIdConcat(a[1..], b, id);
    } else {
      assert a + b == b;
    }
  }

  /** With distinct ids, removing the id of card k removes exactly that card. */
  lemma {:induction false} WithoutIdUnique(cards: seq<Flashcard>, k: nat)
    requires DistinctIds(cards) && k < |cards|
    ensures WithoutId(cards, cards[k].id) == cards[..k] + cards[k + 1..]
  {
    var id := cards[k].id;
    var tail := cards[1..];
    if k == 0 {
      IdOutside(cards, 1, |cards|, 0);
      assert cards[1..|cards|] == tail;
      assert cards[..0] + tail == tail;
    } else {
      DistinctTail(cards);
      assert tail[k - 1] == cards[k];
      WithoutIdUnique(tail, k - 1);
      assert WithoutId(cards, id) == [cards[0]] + WithoutId(tail, id);
      assert cards[..k] + cards[k + 1..] == [cards[0]] + (tail[..k - 1] + tail[k..]);
    }
  }

  lemma DistinctTail(cards: seq<Flashcard>)
    requires DistinctIds(cards) && cards != []
    ensures DistinctIds(cards[1..])
  {
    var tail := cards[1..];
    forall i, j | 0 <= i < j < |tail| ensures tail[i].id != tail[j].id {
      assert tail[i] == cards[i + 1] && tail[j] == cards[j + 1];
    }
  }

  /** With distinct ids, the id of card k is carried by no card of a range
      that leaves k out, so filtering that range by it changes nothing. */
  lemma IdOutside(cards: seq<Flashcard>, lo: nat, hi: nat, k: nat)
    requires DistinctIds(cards) && lo <= hi <= |cards| && k < |cards| && !(lo <= k < hi)
    ensures cards[k].id !in Ids(cards[lo..hi])
    ensures WithoutId(cards[lo..hi], cards[k].id) == cards[lo..hi]
  {
    forall c | c in cards[lo..hi] ensures c.id != cards[k].id {
      var j :| 0 <= j < hi - lo && cards[lo..hi][j] == c;
      assert cards[lo + j] == c;
    }
    WithoutIdMembers(cards[lo..hi], cards[k].id);
  }

  /** Filtering a list with distinct ids keeps them distinct. */
  lemma {:induction false} WithoutIdDistinct(cards: seq<Flashcard>, id: string)
    requires DistinctIds(cards)
    ensures DistinctIds(WithoutId(cards, id))
  {
    if cards != [] {
      WithoutIdDistinct(cards[1..], id);
      WithoutIdMembers(cards[1..], id);
      assert cards[0].id !in Ids(cards[1..]) by {
        forall c | c in cards[1..] ensures c.id != cards[0].id {
          var j :| 0 <= j < |cards[1..]| && cards[1..][j] == c;
          assert cards[1 + j] == c;
        }
      }
      var rest := WithoutId(cards[1..], id);
      assert forall j :: 0 <= j < |rest| ==> rest[j] in cards[1..];
    }
  }

  /** removeFlashcard: refused with a message while the list has two cards or
      fewer; otherwise the cards with that id are filtered out. */
  function RemoveStep(cards: seq<Flashcard>, id: string): (r: Result<seq<Flashcard>, string>)
    ensures r.Failure? <==> |cards| <= 2
    ensures r.Failure? ==> r.error == MinimumFlashcardsMessage
    ensures r.Success? ==> r.value == WithoutId(cards, id)
  {
    if |cards| <= 2 then Failure(MinimumFlashcardsMessage)
    else Success(WithoutId(cards, id))
  }

  /** A removal the form accepts takes away at most one card of a well-formed
      list, so the list stays well formed. */
  lemma RemoveStepKeepsWellFormed(cards: seq<Flashcard>, id: string)
    requires WellFormed(cards)
    ensures RemoveStep(cards, id).Success? ==>
              WellFormed(RemoveStep(cards, id).value)
              && |RemoveStep(cards, id).value| >= |cards| - 1
  {
    if |cards| > 2 {
      WithoutIdDistinct(cards, id);
      WithoutIdMembers(cards, id);
      if id in Ids(cards) {
        var c :| c in cards && c.id == id;
        var k :| 0 <= k < |cards| && cards[k] == c;
        WithoutIdUnique(cards, k);
      }
    }
  }

  /** updateFlashcard: the list keeps its length, order and ids; the cards
      with that id get the value in the named field; every other field and
      every other card is unchanged. */
  function UpdateStep(cards: seq<Flashcard>, id: string, f: Field, v: string): (r: seq<Flashcard>)
    ensures |r| == |cards|
    ensures forall i :: 0 <= i < |r| ==> r[i].id == cards[i].id
    ensures forall i :: 0 <= i < |r| ==> FieldOf(r[i], OtherField(f)) == FieldOf(cards[i], OtherField(f))
    ensures forall i :: 0 <= i < |r| ==> FieldOf(r[i], f) == if cards[i].id == id then v else FieldOf(cards[i], f)
    ensures WellFormed(cards) ==> WellFormed(r)
  {
    seq(|cards|, i requires 0 <= i < |cards| =>
      if cards[i].id == id then WithField(cards[i], f, v) else cards[i])
  }

  // ---------------------------------------------------------------------------
  // Any sequence of handler calls
  // ---------------------------------------------------------------------------

  datatype Action = Add(newId: string) | Remove(id: string) | Update(id: string, field: Field, value: string)

  /** The list after one handler call; a refused removal leaves it as it was. */
  function Step(cards: seq<Flashcard>, a: Action): seq<Flashcard> {
    match a
    case Add(newId) => AddStep(cards, newId)
    case Remove(id) => (match RemoveStep(cards, id) case Success(r) => r case Failure(_) => cards)
    case Update(id, f, v) => UpdateStep(cards, id, f, v)
  }

  function Run(cards: seq<Flashcard>, actions: seq<Action>): seq<Flashcard>
    decreases |actions|
  {
    if actions == [] then cards else Run(Step(cards, actions[0]), actions[1..])
  }

  /** Every added card gets an id not already in the list (what fresh UUIDs give). */
  predicate FreshAdds(cards: seq<Flashcard>, actions: seq<Action>)
    decreases |actions|
  {
    actions == []
    || ((actions[0].Add? ==> actions[0].newId !in Ids(cards))
        && FreshAdds(Step(cards, actions[0]), actions[1..]))
  }

  /** Every handler call keeps the list well formed. */
  lemma {:induction false} RunKeepsWellFormed(cards: seq<Flashcard>, actions: seq<Action>)
    requires WellFormed(cards) && FreshAdds(cards, actions)
    ensures WellFormed(Run(cards, actions))
    decreases |actions|
  {
    if actions != [] {
      if actions[0].Remove? {
        RemoveStepKeepsWellFormed(cards, actions[0].id);
      }
      RunKeepsWellFormed(Step(cards, actions[0]), actions[1..]);
    }
  }

  /** From the initial state, the list never has fewer than two cards. */
  lemma NeverBelowTwo(id1: string, id2: string, actions: seq<Action>)
    requires id1 != id2 && FreshAdds(InitialFlashcards(id1, id2), actions)
    ensures |Run(InitialFlashcards(id1, id2), actions)| >= 2
  {
    RunKeepsWellFormed(InitialFlashcards(id1, id2), actions);
  }

  /** The minimum rests on the ids being distinct: removeFlashcard drops every
      card with the id, so duplicates could take three cards down to one. */
  lemma DuplicateIdsBreakMinimum()
    ensures var cards := [BlankCard("a"), BlankCard("a"), BlankCard("b")];
            RemoveStep(cards, "a") == Success([BlankCard("b")])
  {
    var cards := [BlankCard("a"), BlankCard("a"), BlankCard("b")];
    var last := [BlankCard("b")];
    assert cards[1..][1..] == last && last[1..] == [];
    assert WithoutId(last, "a") == last + WithoutId([], "a");
    assert WithoutId(cards[1..], "a") == WithoutId(last, "a");
    assert WithoutId(cards, "a") == WithoutId(cards[1..], "a");
    assert WithoutId(cards, "a") == last;
    assert |cards| == 3;
    assert RemoveStep(cards, "a").Success?;
    assert RemoveStep(cards, "a") == Success(last);
  }

  // ---------------------------------------------------------------------------
  // The form as component state
  // ---------------------------------------------------------------------------

  class FlashcardForm {
    var title: string
    var description: string
    var flashcards: seq<Flashcard>

    ghost predicate Valid()
      reads this
    {
      WellFormed(flashcards)
    }

    /** The form as first rendered: empty title and description, two blank
        cards with fresh ids. */
    constructor (id1: string, id2: string)
      requires id1 != id2
      ensures Valid()
      ensures title == "" && description == "" && flashcards == InitialFlashcards(id1, id2)
    {
      title := "";
      description := "";
      flashcards := [BlankCard(id1), BlankCard(id2)];
    }

    method AddFlashcard(newId: string)
      requires Valid() && newId !in Ids(flashcards)
      modifies this`flashcards
      ensures Valid()
      ensures flashcards == old(flashcards) + [BlankCard(newId)]
    {
      flashcards := AddStep(flashcards, newId);
    }

    /** Returns the error message shown when the removal is refused. */
    method RemoveFlashcard(id: string) returns (error: Option<string>)
      requires Valid()
      modifies this`flashcards
      ensures Valid()
      ensures |old(flashcards)| <= 2 ==> error == Some(MinimumFlashcardsMessage) && flashcards == old(flashcards)
      ensures |old(flashcards)| > 2 ==> error == None && flashcards == WithoutId(old(flashcards), id)
    {
      RemoveStepKeepsWellFormed(flashcards, id);
      var r := RemoveStep(flashcards, id);
      if r.Failure? {
        error := Some(r.error);
      } else {
        error := None;
        flashcards := r.value;
      }
    }

    method UpdateFlashcard(id: string, f: Field, v: string)
      requires Valid()
      modifies this`flashcards
      ensures Valid()
      ensures flashcards == UpdateStep(old(flashcards), id, f, v)
    {
      flashcards := UpdateStep(flashcards, id, f, v);
    }
  }

  // ---------------------------------------------------------------------------
  // handleSubmit
  // ---------------------------------------------------------------------------

  datatype SubmitError = NotLoggedIn | TitleRequired | TooFewFlashcards | TooFewComplete

  function ErrorMessage(e: SubmitError): string {
    match e
    case NotLoggedIn => "You must be logged in to create a study set"
    case TitleRequired => "Title is required"
    case TooFewFlashcards => "At least 2 flashcards are required"
    case TooFewComplete => "At least 2 complete flashcards are required (both term and definition)"
  }

  /** A card counts when both fields are non-empty once trimmed. */
  predicate IsComplete(c: Flashcard) {
    Trim(c.term) != "" && Trim(c.definition) != ""
  }

  /** validFlashcards: the complete cards, in order. */
  function CompleteCards(cards: seq<Flashcard>): (r: seq<Flashcard>)
    ensures |r| <= |cards|
  {
    if cards == [] then []
    else if IsComplete(cards[0]) then [cards[0]] + CompleteCards(cards[1..])
    else CompleteCards(cards[1..])
  }

  /** The complete cards are exactly the cards of the list whose trimmed term
      and definition are both non-empty. */
  lemma {:induction false} CompleteCardsMembers(cards: seq<Flashcard>)
    ensures forall c :: c in CompleteCards(cards) <==> c in cards && IsComplete(c)
  {
    if cards != [] {
      CompleteCardsMembers(cards[1..]);
      assert cards == [cards[0]] + cards[1..];
    }
  }

  /** The filter distributes over concatenation, so complete cards keep their
      relative order. */
  lemma {:induction false} CompleteCardsConcat(a: seq<Flashcard>, b: seq<Flashcard>)
    ensures CompleteCards(a + b) == CompleteCards(a) + CompleteCards(b)
  {
    if a != [] {
      assert (a + b)[0] == a[0] && (a + b)[1..] == a[1..] + b;
      CompleteCardsConcat(a[1..], b);
    } else {
      assert a + b == b;
    }
  }

  /** The guard chain of handleSubmit: the first failing rule, in the order
      user, title, number of cards, number of complete cards, is reported; when
      all pass, the complete cards go on to be inserted. */
  function Validate(user: Option<string>, title: string, cards: seq<Flashcard>): (r: Result<seq<Flashcard>, SubmitError>)
    ensures r == Failure(NotLoggedIn) <==> user.None?
    ensures r == Failure(TitleRequired) <==> user.Some? && AllWhitespace(title)
    ensures r == Failure(TooFewFlashcards) <==> user.Some? && !AllWhitespace(title) && |cards| < 2
    ensures r == Failure(TooFewComplete) <==>
              user.Some? && !AllWhitespace(title) && |cards| >= 2 && |CompleteCards(cards)| < 2
    ensures r.Success? ==> r.value == CompleteCards(cards) && |r.value| >= 2
  {
    TrimEmptyIff(title);
    if user.None? then Failure(NotLoggedIn)
    else if Trim(title) == "" then Failure(TitleRequired)
    else if |cards| < 2 then Failure(TooFewFlashcards)
    else
      var valid := CompleteCards(cards);
      if |valid| < 2 then Failure(TooFewComplete) else Success(valid)
  }

  /** The card-count rule never fires for a list the form keeps well formed. */
  lemma WellFormedPassesCardCount(user: Option<string>, title: string, cards: seq<Flashcard>)
    requires WellFormed(cards)
    ensures Validate(user, title, cards) != Failure(TooFewFlashcards)
  {
  }

  /** A row of the Term table as handleSubmit inserts it. */
  datatype TermRow = TermRow(id: string, studySetId: string, word: string, definition: string, rank: int, ephemeral: bool)

  /** termsToInsert: one row per complete card, in order, with trimmed text,
      rank = index + 1, not ephemeral, owned by the new set; each row takes the
      next fresh id. */
  function TermRows(valid: seq<Flashcard>, studySetId: string, termIds: seq<string>): (r: seq<TermRow>)
    requires |termIds| >= |valid|
    ensures |r| == |valid|
    ensures forall i :: 0 <= i < |r| ==>
              && r[i].id == termIds[i] && r[i].studySetId == studySetId
              && r[i].word == Trim(valid[i].term) && r[i].definition == Trim(valid[i].definition)
              && r[i].rank == i + 1 && !r[i].ephemeral
  {
    seq(|valid|, i requires 0 <= i < |valid| =>
      TermRow(termIds[i], studySetId, Trim(valid[i].term), Trim(valid[i].definition), i + 1, false))
  }

  function Ranks(rows: seq<TermRow>): set<int> {
    set row | row in rows :: row.rank
  }

  /** Rows ranked by position carry exactly the ranks 1..N, increasing. */
  lemma PositionalRanksDense(rows: seq<TermRow>)
    requires forall i :: 0 <= i < |rows| ==> rows[i].rank == i + 1
    ensures forall k :: k in Ranks(rows) <==> 1 <= k <= |rows|
    ensures forall i, j :: 0 <= i < j < |rows| ==> rows[i].rank < rows[j].rank
  {
    forall k | 1 <= k <= |rows| ensures k in Ranks(rows) {
      assert rows[k - 1] in rows;
    }
  }

  /** The ranks of the inserted rows are exactly 1..N: no gaps, no repeats. */
  lemma TermRowsRanksDense(valid: seq<Flashcard>, studySetId: string, termIds: seq<string>)
    requires |termIds| >= |valid|
    ensures var rows := TermRows(valid, studySetId, termIds);
            && (forall k :: k in Ranks(rows) <==> 1 <= k <= |rows|)
            && forall i, j :: 0 <= i < j < |rows| ==> rows[i].rank < rows[j].rank
  {
    PositionalRanksDense(TermRows(valid, studySetId, termIds));
  }

  /** Rows built from complete cards carry non-empty text with no surrounding
      whitespace. */
  lemma TermRowsTextTrimmed(valid: seq<Flashcard>, studySetId: string, termIds: seq<string>)
    requires |termIds| >= |valid|
    requires forall c :: c in valid ==> IsComplete(c)
    ensures forall row :: row in TermRows(valid, studySetId, termIds) ==>
              row.word != "" && row.definition != ""
              && Trim(row.word) == row.word && Trim(row.definition) == row.definition
  {
    var rows := TermRows(valid, studySetId, termIds);
    forall row | row in rows
      ensures row.word != "" && row.definition != ""
      ensures Trim(row.word) == row.word && Trim(row.definition) == row.definition
    {
      var i :| 0 <= i < |rows| && rows[i] == row;
      assert valid[i] in valid;
      TrimIdempotent(valid[i].term);
      TrimIdempotent(valid[i].definition);
    }
  }

  /** A row of the StudySet table as handleSubmit inserts it. */
  datatype StudySetRow = StudySetRow(
    id: string, userId: string, title: string, description: Option<string>,
    setType: string, visibility: string, wordLanguage: string, definitionLanguage: string,
    created: bool, createdAt: string, savedAt: string)

  /** The study set row: trimmed title, a description that is null when it
      trims to nothing, and the fixed defaults of a new set. */
  function StudySetRowFor(id: string, userId: string, title: string, description: string, now: string): (r: StudySetRow)
    ensures r.id == id && r.userId == userId && r.title == Trim(title)
    ensures r.description.None? <==> AllWhitespace(description)
    ensures r.description.Some? ==> r.description.value == Trim(description) && r.description.value != ""
    ensures r.setType == "Default" && r.visibility == "Public" && r.created
    ensures r.wordLanguage == "en" && r.definitionLanguage == "en"
    ensures r.createdAt == now && r.savedAt == now
  {
    TrimEmptyIff(description);
    var d := Trim(description);
    StudySetRow(id, userId, Trim(title), if d == "" then None else Some(d),
                "Default", "Public", "en", "en", true, now, now)
  }

  datatype InsertPlan = InsertPlan(studySet: StudySetRow, terms: seq<TermRow>)

  /** What handleSubmit would send: nothing when validation fails; otherwise
      the study set row and at least two Term rows, ranked 1..N, built from the
      complete cards in order. */
  function PlanSubmit(user: Option<string>, title: string, description: string, cards: seq<Flashcard>,
                      studySetId: string, termIds: seq<string>, now: string): (r: Result<InsertPlan, SubmitError>)
    requires |termIds| >= |cards|
    ensures r.Failure? <==> Validate(user, title, cards).Failure?
    ensures r.Failure? ==> r.error == Validate(user, title, cards).error
    ensures r.Success? ==>
              && user.Some? && r.value.studySet.userId == user.value
              && r.value.studySet.title != "" && r.value.studySet.id == studySetId
              && |r.value.terms| == |CompleteCards(cards)| >= 2
              && (forall k :: k in Ranks(r.value.terms) <==> 1 <= k <= |r.value.terms|)
              && forall row :: row in r.value.terms ==> row.studySetId == studySetId && row.word != "" && row.definition != ""
    ensures r.Success? ==>
              r.value == InsertPlan(StudySetRowFor(studySetId, user.value, title, description, now),
                                    TermRows(CompleteCards(cards), studySetId, termIds))
  {
    match Validate(user, title, cards)
    case Failure(e) => Failure(e)
    case Success(valid) =>
      TrimEmptyIff(title);
      TermRowsRanksDense(valid, studySetId, termIds);
      CompleteCardsMembers(cards);
      TermRowsTextTrimmed(valid, studySetId, termIds);
      Success(InsertPlan(StudySetRowFor(studySetId, user.value, title, description, now),
                         TermRows(valid, studySetId, termIds)))
  }

  datatype Toast = ErrorToast(message: string) | SuccessToast(message: string)

  /** What one submit does: the inserts it sends, the toast it shows, where it
      navigates, and whether the form is left in its submitting state. */
  datatype SubmitEffect = SubmitEffect(
    studySetInsert: Option<StudySetRow>, termsInsert: Option<seq<TermRow>>,
    toast: Toast, redirect: Option<string>, submitting: bool)

  const SubmitFailedMessage: string := "Failed to create study set"
  const SubmitSucceededMessage: string := "Study set created successfully!"

  /** The toast for a failed insert: the error's message, or the fallback when
      that message is empty. */
  function InsertErrorText(message: string): (r: string)
    ensures r != ""
    ensures message != "" ==> r == message
    ensures message == "" ==> r == SubmitFailedMessage
  {
    if message == "" then SubmitFailedMessage else message
  }

  /** handleSubmit end to end. The two inserts' outcomes are inputs (None for
      success, Some(message) for an error): a validation failure sends nothing;
      the Term insert is sent only after the StudySet insert succeeded; only
      when both succeed does the page navigate to the new set. */
  function HandleSubmit(user: Option<string>, title: string, description: string, cards: seq<Flashcard>,
                        studySetId: string, termIds: seq<string>, now: string,
                        studySetError: Option<string>, termsError: Option<string>): (e: SubmitEffect)
    requires |termIds| >= |cards|
    ensures Validate(user, title, cards).Failure? ==>
              && e.studySetInsert.None? && e.termsInsert.None? && e.redirect.None? && !e.submitting
              && e.toast == ErrorToast(ErrorMessage(Validate(user, title, cards).error))
    ensures e.termsInsert.Some? ==> e.studySetInsert.Some? && studySetError.None?
    ensures e.redirect.Some? <==> Validate(user, title, cards).Success? && studySetError.None? && termsError.None?
    ensures e.redirect.Some? ==> e.redirect.value == "/sets/" + studySetId && e.toast == SuccessToast(SubmitSucceededMessage)
    ensures e.submitting <==> e.redirect.Some?
    ensures Validate(user, title, cards).Success? ==>
              e.studySetInsert == Some(StudySetRowFor(studySetId, user.value, title, description, now))
    ensures Validate(user, title, cards).Success? && studySetError.None? ==>
              e.termsInsert == Some(TermRows(CompleteCards(cards), studySetId, termIds))
    ensures Validate(user, title, cards).Success? && studySetError.Some? ==>
              e.termsInsert.None? && e.toast == ErrorToast(InsertErrorText(studySetError.value))
    ensures Validate(user, title, cards).Success? && studySetError.None? && termsError.Some? ==>
              e.toast == ErrorToast(InsertErrorText(termsError.value))
    ensures e.toast.ErrorToast? ==> e.toast.message != ""
  {
    match PlanSubmit(user, title, description, cards, studySetId, termIds, now)
    case Failure(err) => SubmitEffect(None, None, ErrorToast(ErrorMessage(err)), None, false)
    case Success(plan) =>
      if studySetError.Some? then
        SubmitEffect(Some(plan.studySet), None, ErrorToast(InsertErrorText(studySetError.value)), None, false)
      else if termsError.Some? then
        SubmitEffect(Some(plan.studySet), Some(plan.terms), ErrorToast(InsertErrorText(termsError.value)), None, false)
      else
        SubmitEffect(Some(plan.studySet), Some(plan.terms), SuccessToast(SubmitSucceededMessage), Some("/sets/" + studySetId), true)
  }

  /** A submit whose validation passes and whose inserts both succeed sends
      the study set row and the rows of the complete cards, then redirects. */
  lemma SubmitSucceeds(user: string, title: string, description: string, cards: seq<Flashcard>,
                       studySetId: string, termIds: seq<string>, now: string)
    requires |termIds| >= |cards| && Validate(Some(user), title, cards).Success?
    ensures HandleSubmit(Some(user), title, description, cards, studySetId, termIds, now, None, None)
            == SubmitEffect(Some(StudySetRowFor(studySetId, user, title, description, now)),
                            Some(TermRows(CompleteCards(cards), studySetId, termIds)),
                            SuccessToast(SubmitSucceededMessage), Some("/sets/" + studySetId), true)
  {
  }

  /** Text typed into a card without surrounding whitespace. */
  predicate TrimmedText(s: string) {
    s != "" && Trim(s) == s
  }

  /** Two filled cards, an empty description and both inserts succeeding:
      one StudySet row with a null description, two Term rows ranked 1 and 2
      holding the texts as typed, and a redirect to the new set. */
  lemma TwoCardSubmit(user: string, title: string, first: Flashcard, second: Flashcard,
                      studySetId: string, termId1: string, termId2: string, now: string)
    requires !AllWhitespace(title)
    requires TrimmedText(first.term) && TrimmedText(first.definition)
    requires TrimmedText(second.term) && TrimmedText(second.definition)
    ensures var e := HandleSubmit(Some(user), title, "", [first, second], studySetId, [termId1, termId2], now, None, None);
            && e.studySetInsert.Some? && e.studySetInsert.value.description.None?
            && e.termsInsert == Some([TermRow(termId1, studySetId, first.term, first.definition, 1, false),
                                      TermRow(termId2, studySetId, second.term, second.definition, 2, false)])
            && e.redirect == Some("/sets/" + studySetId)
  {
    var cards := [first, second];
    TwoCardsComplete(first, second);
    TrimEmptyIff(title);
    SubmitSucceeds(user, title, "", cards, studySetId, [termId1, termId2], now);
    var rows := TermRows(cards, studySetId, [termId1, termId2]);
    assert rows == [rows[0], rows[1]];
  }

  /** Two cards typed without surrounding whitespace are both complete. */
  lemma TwoCardsComplete(first: Flashcard, second: Flashcard)
    requires TrimmedText(first.term) && TrimmedText(first.definition)
    requires TrimmedText(second.term) && TrimmedText(second.definition)
    ensures CompleteCards([first, second]) == [first, second]
  {
    CompleteCardSingle(first);
    CompleteCardSingle(second);
    CompleteCardsConcat([first], [second]);
    assert [first] + [second] == [first, second];
  }

  lemma CompleteCardSingle(c: Flashcard)
    requires IsComplete(c)
    ensures CompleteCards([c]) == [c]
  {
    assert [c][1..] == [];
  }
}
