/** The dashboard's list of study sets (components/study-sets-list.tsx): which
    of its four states it renders, and the number of Term rows it shows for
    each set. */
module StudySetsList {
  import opened Wrappers

  /** A StudySet row as the list reads it; the description column is nullable. */
  datatype StudySet = StudySet(id: string, title: string, description: Option<string>, createdAt: string, userId: string)

  /** A Term row, reduced to the one column the list reads. */
  datatype Term = Term(studySetId: string)

  /** The fetched terms, with a null result read as no terms (`terms?.forEach`). */
  function TermsOrEmpty(terms: Option<seq<Term>>): seq<Term> {
    match terms
    case None => []
    case Some(ts) => ts
  }

  /** How many of the terms belong to set s. */
  function Occurrences(terms: seq<Term>, s: string): (n: nat)
    ensures n <= |terms|
  {
    if terms == [] then 0
    else
      var last := |terms| - 1;
      Occurrences(terms[..last], s) + (if terms[last].studySetId == s then 1 else 0)
  }

  /** A set has a non-zero count exactly when one of the terms belongs to it. */
  lemma {:induction false} OccurrencesPositive(terms: seq<Term>, s: string)
    ensures Occurrences(terms, s) > 0 <==> s in SetIdsOf(terms)
  {
    if terms != [] {
      var last := |terms| - 1;
      OccurrencesPositive(terms[..last], s);
      assert terms == terms[..last] + [terms[last]];
      assert SetIdsOf(terms) == SetIdsOf(terms[..last]) + {terms[last].studySetId};
    }
  }

  function SetIdsOf(terms: seq<Term>): set<string> {
    set t | t in terms :: t.studySetId
  }

  /** `termCounts.get(id) || 0`: the count stored for id, or 0 when there is none. */
  function CountOrZero(counts: map<string, nat>, id: string): nat {
    if id in counts then counts[id] else 0
  }

  /** The sum of the counts held in a map. */
  ghost function Total(m: map<string, nat>): nat
    decreases |m|
  {
    if |m| == 0 then 0
    else
      var k :| k in m;
      m[k] + Total(m - {k})
  }

  /** Total does not depend on which key the definition picks first. */
  lemma {:induction false} TotalRemove(m: map<string, nat>, k: string)
    requires k in m
    ensures Total(m) == m[k] + Total(m - {k})
    decreases |m|
  {
    var k' := PickKey(m);
    if k' != k {
      var withoutK', withoutK := m - {k'}, m - {k};
      RemoveOther(m, k', k);
      RemoveOther(m, k, k');
      TotalRemove(withoutK', k);
      TotalRemove(withoutK, k');
    }
  }

  /** The key Total's definition peels off first. */
  lemma PickKey(m: map<string, nat>) returns (k: string)
    requires |m| > 0
    ensures k in m && Total(m) == m[k] + Total(m - {k})
  {
    k :| k in m && Total(m) == m[k] + Total(m - {k});
  }

  /** Dropping key a from m keeps every other key b with its value, makes the
      map one entry smaller, and commutes with dropping b. */
  lemma RemoveOther(m: map<string, nat>, a: string, b: string)
    requires a in m && b in m && a != b
    ensures b in m - {a} && (m - {a})[b] == m[b]
    ensures |m - {a}| == |m| - 1
    ensures m - {a} - {b} == m - {b} - {a}
  {
    assert (m - {a}).Keys == m.Keys - {a};
  }

  /** Setting one entry changes the total by the difference. */
  lemma TotalUpdate(m: map<string, nat>, k: string, v: nat)
    ensures Total(m[k := v]) == Total(m) - CountOrZero(m, k) + v
  {
    TotalRemove(m[k := v], k);
    UpdateThenRemove(m, k, v);
    if k in m {
      TotalRemove(m, k);
    }
  }

  /** Removing a key forgets what was stored under it. */
  lemma UpdateThenRemove(m: map<string, nat>, k: string, v: nat)
    ensures m[k := v] - {k} == m - {k}
    ensures k !in m ==> m - {k} == m
  {
  }

  /** The tally loop of StudySetsList: one map update per term, each adding 1
      to the entry of the term's set. Afterwards every set's count is the
      number of its terms, only sets that have terms get an entry, and the
      counts add up to the number of terms. A null terms value gives an empty
      map. */
  method TallyTermCounts(terms: Option<seq<Term>>) returns (counts: map<string, nat>)
    ensures forall s :: CountOrZero(counts, s) == Occurrences(TermsOrEmpty(terms), s)
    ensures counts.Keys == SetIdsOf(TermsOrEmpty(terms))
    ensures terms.None? ==> counts == map[]
  {
    var ts := TermsOrEmpty(terms);
    counts := map[];
    var i := 0;
    while i < |ts|
      invariant 0 <= i <= |ts|
      invariant forall s :: CountOrZero(counts, s) == Occurrences(ts[..i], s)
      invariant counts.Keys == SetIdsOf(ts[..i])
    {
      var id := ts[i].studySetId;
      var next := CountOrZero(counts, id) + 1;
      PrefixStep(ts, i);
      var updated := counts[id := next];
      assert forall s :: CountOrZero(updated, s) == CountOrZero(counts, s) + (if id == s then 1 else 0);
      counts := updated;
      i := i + 1;
    }
    assert ts[..|ts|] == ts;
  }

  /** Each term adds exactly 1 to exactly one entry, so the counts of a
      completed tally add up to the number of terms. */
  lemma {:induction false} TallySumsToLength(ts: seq<Term>, counts: map<string, nat>)
    requires counts.Keys == SetIdsOf(ts)
    requires forall s :: CountOrZero(counts, s) == Occurrences(ts, s)
    ensures Total(counts) == |ts|
    decreases |ts|
  {
    if ts == [] {
      assert counts == map[];
    } else {
      var last := |ts| - 1;
      var id := ts[last].studySetId;
      var before := Untallied(counts, id);
      UntalliedIsTally(ts, counts);
      TallySumsToLength(ts[..last], before);
      TotalUntallied(counts, id);
    }
  }

  /** Taking one back from a positive entry lowers the total by one. */
  lemma TotalUntallied(counts: map<string, nat>, id: string)
    requires id in counts && counts[id] >= 1
    ensures Total(Untallied(counts, id)) + 1 == Total(counts)
  {
    var before := Untallied(counts, id);
    TotalRemove(counts, id);
    if id in before {
      TotalUpdate(before, id, counts[id]);
      assert before[id := counts[id]] == counts;
    }
  }

  /** The counts before the last term was tallied: one less for its set, and
      no entry once that reaches 0. */
  function Untallied(counts: map<string, nat>, id: string): map<string, nat> {
    if CountOrZero(counts, id) <= 1 then counts - {id} else counts[id := counts[id] - 1]
  }

  lemma UntalliedIsTally(ts: seq<Term>, counts: map<string, nat>)
    requires ts != []
    requires counts.Keys == SetIdsOf(ts)
    requires forall s :: CountOrZero(counts, s) == Occurrences(ts, s)
    ensures var before := Untallied(counts, ts[|ts| - 1].studySetId);
            && before.Keys == SetIdsOf(ts[..|ts| - 1])
            && (forall s :: CountOrZero(before, s) == Occurrences(ts[..|ts| - 1], s))
            && ts[|ts| - 1].studySetId in counts && counts[ts[|ts| - 1].studySetId] >= 1
            && (ts[|ts| - 1].studySetId in before ==> before[ts[|ts| - 1].studySetId] == counts[ts[|ts| - 1].studySetId] - 1)
  {
    var last := |ts| - 1;
    var id := ts[last].studySetId;
    PrefixStep(ts, last);
    assert ts[..last + 1] == ts;
    OccurrencesPositive(ts[..last], id);
    OccurrencesPositive(ts, id);
  }

  /** Extending a prefix of the terms by one term adds one to the count of
      that term's set and nothing to the others. */
  lemma PrefixStep(ts: seq<Term>, i: nat)
    requires i < |ts|
    ensures forall s :: Occurrences(ts[..i + 1], s) == Occurrences(ts[..i], s) + (if ts[i].studySetId == s then 1 else 0)
    ensures SetIdsOf(ts[..i + 1]) == SetIdsOf(ts[..i]) + {ts[i].studySetId}
  {
    assert ts[..i + 1][..i] == ts[..i];
    assert ts[..i + 1] == ts[..i] + [ts[i]];
  }

  /** Counting over two concatenated lists adds the counts. */
  lemma {:induction false} OccurrencesConcat(a: seq<Term>, b: seq<Term>, s: string)
    ensures Occurrences(a + b, s) == Occurrences(a, s) + Occurrences(b, s)
    decreases |b|
  {
    if b == [] {
      assert a + b == a;
    } else {
      var last := |b| - 1;
      assert (a + b)[..|a + b| - 1] == a + b[..last];
      OccurrencesConcat(a, b[..last], s);
    }
  }

  /** The count of a set does not depend on the order of the terms. */
  lemma {:induction false} OccurrencesPermutation(ts: seq<Term>, us: seq<Term>, s: string)
    requires multiset(ts) == multiset(us)
    ensures Occurrences(ts, s) == Occurrences(us, s)
    decreases |ts|
  {
    if ts != [] {
      var last := |ts| - 1;
      var x := ts[last];
      assert ts == ts[..last] + [x];
      assert multiset(ts[..last]) == multiset(ts) - multiset{x};
      assert x in multiset(us);
      var j :| 0 <= j < |us| && us[j] == x;
      var rest := RemoveAt(us, j, s);
      OccurrencesPermutation(ts[..last], rest, s);
    } else {
      assert |us| == |multiset(us)| == 0;
    }
  }

  /** Taking out the term at position j: the rest holds one copy fewer of it,
      and its set counts one fewer when the term belongs to it. */
  lemma RemoveAt(us: seq<Term>, j: nat, s: string) returns (rest: seq<Term>)
    requires j < |us|
    ensures rest == us[..j] + us[j + 1..]
    ensures multiset(rest) == multiset(us) - multiset{us[j]}
    ensures Occurrences(us, s) == Occurrences(rest, s) + (if us[j].studySetId == s then 1 else 0)
  {
    var x := us[j];
    rest := us[..j] + us[j + 1..];
    assert us == us[..j] + [x] + us[j + 1..];
    assert multiset(us) == multiset(us[..j]) + multiset{x} + multiset(us[j + 1..]);
    OccurrencesConcat(us[..j] + [x], us[j + 1..], s);
    OccurrencesConcat(us[..j], [x], s);
    OccurrencesConcat(us[..j], us[j + 1..], s);
    assert [x][..0] == [];
  }

  /** Hence the whole tally is order independent: any two maps that meet the
      tally's postconditions for two orderings of the same terms are equal. */
  lemma TallyOrderIndependent(ts: seq<Term>, us: seq<Term>, c1: map<string, nat>, c2: map<string, nat>)
    requires multiset(ts) == multiset(us)
    requires c1.Keys == SetIdsOf(ts) && c2.Keys == SetIdsOf(us)
    requires forall s :: CountOrZero(c1, s) == Occurrences(ts, s)
    requires forall s :: CountOrZero(c2, s) == Occurrences(us, s)
    ensures c1 == c2
  {
    forall s | s in c1 ensures s in c2 && c1[s] == c2[s] {
      OccurrencesPermutation(ts, us, s);
      assert CountOrZero(c1, s) == CountOrZero(c2, s);
      var t :| t in ts && t.studySetId == s;
      assert t in multiset(us);
    }
    forall s | s in c2 ensures s in c1 {
      var t :| t in us && t.studySetId == s;
      assert t in multiset(ts);
    }
  }

  // ---------------------------------------------------------------------------
  // What the component renders
  // ---------------------------------------------------------------------------

  /** The four states of the component, in the order it tests them. */
  datatype Branch = Loading | LoadError(message: string) | NoSets | ListSets(sets: seq<StudySet>)

  /** The branch selection: any loading flag shows the spinner, even beside an
      error; then an error; then a null or empty list; then the list. */
  function SelectBranch(authLoading: bool, setsLoading: bool, termsLoading: bool,
                        setsError: Option<string>, studySets: Option<seq<StudySet>>): (b: Branch)
    ensures b.Loading? <==> authLoading || setsLoading || termsLoading
    ensures b.LoadError? <==> !(authLoading || setsLoading || termsLoading) && setsError.Some?
    ensures b.LoadError? ==> b.message == setsError.value
    ensures b.NoSets? <==> !(authLoading || setsLoading || termsLoading) && setsError.None?
                           && (studySets.None? || studySets.value == [])
    ensures b.ListSets? ==> studySets == Some(b.sets) && b.sets != []
  {
    if authLoading || setsLoading || termsLoading then Loading
    else if setsError.Some? then LoadError(setsError.value)
    else if studySets.None? || |studySets.value| == 0 then NoSets
    else ListSets(studySets.value)
  }

  /** One card of the grid. */
  datatype SetCard = SetCard(id: string, title: string, description: string, flashcards: nat, createdAt: string)

  /** What is on screen. */
  datatype View = Spinner | ErrorText(text: string) | EmptyText(text: string) | Grid(cards: seq<SetCard>)

  const NoSetsText: string := "No study sets found. Create your first study set!"
  const NoDescriptionText: string := "No description"

  /** `set.description || "No description"`: null and the empty string fall back. */
  function DescriptionShown(description: Option<string>): (r: string)
    ensures r != ""
    ensures description.Some? && description.value != "" ==> r == description.value
    ensures description.None? || description.value == "" ==> r == NoDescriptionText
  {
    match description
    case None => NoDescriptionText
    case Some(d) => if d == "" then NoDescriptionText else d
  }

  /** StudySetsList: the view for the fetched data. In the grid, each set keeps
      its position and shows the number of fetched terms that belong to it, 0
      when none do. The fetched sets are not filtered by user. */
  method RenderStudySetsList(authLoading: bool, setsLoading: bool, termsLoading: bool,
                             setsError: Option<string>, studySets: Option<seq<StudySet>>,
                             terms: Option<seq<Term>>) returns (view: View)
    ensures view.Spinner? <==> authLoading || setsLoading || termsLoading
    ensures view.ErrorText? <==> SelectBranch(authLoading, setsLoading, termsLoading, setsError, studySets).LoadError?
    ensures view.ErrorText? ==> view.text == "Error loading study sets: " + setsError.value
    ensures view.EmptyText? <==> SelectBranch(authLoading, setsLoading, termsLoading, setsError, studySets).NoSets?
    ensures view.EmptyText? ==> view.text == NoSetsText
    ensures view.Grid? ==> studySets.Some? && |view.cards| == |studySets.value| > 0
    ensures view.Grid? ==> forall i :: 0 <= i < |view.cards| ==>
              && view.cards[i].id == studySets.value[i].id
              && view.cards[i].title == studySets.value[i].title
              && view.cards[i].description == DescriptionShown(studySets.value[i].description)
              && view.cards[i].createdAt == studySets.value[i].createdAt
              && view.cards[i].flashcards == Occurrences(TermsOrEmpty(terms), studySets.value[i].id)
  {
    match SelectBranch(authLoading, setsLoading, termsLoading, setsError, studySets)
    case Loading =>
      view := Spinner;
    case LoadError(message) =>
      view := ErrorText("Error loading study sets: " + message);
    case NoSets =>
      view := EmptyText(NoSetsText);
    case ListSets(sets) =>
      var counts := TallyTermCounts(terms);
      var cards := [];
      var i := 0;
      while i < |sets|
        invariant 0 <= i <= |sets| && |cards| == i
        invariant forall k :: 0 <= k < i ==>
                    cards[k] == SetCard(sets[k].id, sets[k].title, DescriptionShown(sets[k].description),
                                        CountOrZero(counts, sets[k].id), sets[k].createdAt)
      {
        var studySet := sets[i];
        cards := cards + [SetCard(studySet.id, studySet.title, DescriptionShown(studySet.description),
                                  CountOrZero(counts, studySet.id), studySet.createdAt)];
        i := i + 1;
      }
      view := Grid(cards);
  }

  /** With no terms fetched (null), every listed set shows a count of 0. */
  lemma NullTermsShowZero(s: string)
    ensures Occurrences(TermsOrEmpty(None), s) == 0
  {
  }
}
