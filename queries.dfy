/**
 * What the repository's queries compute, stated as functions over the list of
 * entries: the distinct-value aggregators, the single-facet filters and the
 * title orders, with the properties each of them promises.
 */
module Queries {
  import opened Base
  import opened Text
  import opened Sorting
  import opened Model

  // ------------------------------------------------------------ facets

  /** The list-valued fields the aggregators and filters look into. */
  datatype Facet = Genres | Platforms | Tags

  function FacetOf(e: Entry, f: Facet): seq<string> {
    match f
    case Genres => e.genres
    case Platforms => e.platforms
    case Tags => e.tags
  }

  /** The single-valued fields with an aggregator and an exact-match filter. */
  datatype Credit = Publisher | Developer

  function CreditOf(e: Entry, c: Credit): Option<string> {
    match c
    case Publisher => e.publisher
    case Developer => e.developer
  }

  // ------------------------------------------------------ distinct values

  predicate NoDuplicates<T(==)>(s: seq<T>) {
    forall i, j :: 0 <= i < j < |s| ==> s[i] != s[j]
  }

  /** The first occurrence of each value, in order of first appearance. */
  function Distinct(s: seq<string>): (r: seq<string>)
    ensures forall x :: x in r <==> x in s
    ensures NoDuplicates(r)
  {
    if s == [] then []
    else
      var d := Distinct(s[..|s| - 1]);
      var x := s[|s| - 1];
      assert s == s[..|s| - 1] + [x];
      if x in d then d else d + [x]
  }

  /** Appending one value adds it at the end unless it is already there. */
  lemma DistinctSnoc(s: seq<string>, x: string)
    ensures Distinct(s + [x]) == if x in Distinct(s) then Distinct(s) else Distinct(s) + [x]
  {
    assert (s + [x])[..|s|] == s;
  }

  /** Every value of a list facet, entry after entry. */
  function FacetValues(games: seq<Entry>, f: Facet): seq<string> {
    if games == [] then []
    else FacetValues(games[..|games| - 1], f) + FacetOf(games[|games| - 1], f)
  }

  /** The publisher (or developer) of each entry that has a non-empty one. */
  function CreditValues(games: seq<Entry>, c: Credit): seq<string> {
    if games == [] then []
    else
      var v := CreditOf(games[|games| - 1], c);
      CreditValues(games[..|games| - 1], c) + (if v.Some? && v.value != "" then [v.value] else [])
  }

  lemma FacetValuesSnoc(games: seq<Entry>, i: nat, f: Facet)
    requires i < |games|
    ensures FacetValues(games[..i + 1], f) == FacetValues(games[..i], f) + FacetOf(games[i], f)
  {
    assert games[..i + 1][..i] == games[..i];
  }

  lemma CreditValuesSnoc(games: seq<Entry>, i: nat, c: Credit)
    requires i < |games|
    ensures var v := CreditOf(games[i], c);
      CreditValues(games[..i + 1], c) ==
        CreditValues(games[..i], c) + (if v.Some? && v.value != "" then [v.value] else [])
  {
    assert games[..i + 1][..i] == games[..i];
  }

  lemma {:induction false} FacetValuesMembers(games: seq<Entry>, f: Facet, x: string)
    ensures x in FacetValues(games, f) <==> exists i :: 0 <= i < |games| && x in FacetOf(games[i], f)
  {
    if games != [] {
      var init := games[..|games| - 1];
      FacetValuesMembers(init, f, x);
      if x in FacetValues(games, f) && x !in FacetValues(init, f) {
        assert x in FacetOf(games[|games| - 1], f);
      }
      if exists i :: 0 <= i < |games| && x in FacetOf(games[i], f) {
        var i :| 0 <= i < |games| && x in FacetOf(games[i], f);
        if i < |games| - 1 {
          assert init[i] == games[i];
        }
      }
    }
  }

  lemma {:induction false} CreditValuesMembers(games: seq<Entry>, c: Credit, x: string)
    ensures x in CreditValues(games, c) <==>
      x != "" && exists i :: 0 <= i < |games| && CreditOf(games[i], c) == Some(x)
  {
    if games != [] {
      var init := games[..|games| - 1];
      CreditValuesMembers(init, c, x);
      if exists i :: 0 <= i < |games| && CreditOf(games[i], c) == Some(x) {
        var i :| 0 <= i < |games| && CreditOf(games[i], c) == Some(x);
        if i < |games| - 1 {
          assert init[i] == games[i];
        }
      }
    }
  }

  // ------------------------------------------------ case-insensitive order

  /** `String::compareToIgnoreCase` used as the sort's comparator. */
  predicate IgnoreCaseOrder(a: string, b: string) {
    CompareIgnoreCase(a, b) <= 0
  }

  lemma IgnoreCaseOrderPreorder()
    ensures TotalPreorder(IgnoreCaseOrder)
  {
    forall a, b ensures IgnoreCaseOrder(a, b) || IgnoreCaseOrder(b, a) {
      CompareIgnoreCaseSign(a, b);
      CompareIgnoreCaseSign(b, a);
      IgnoreCaseLeTotal(a, b);
    }
    forall a, b, c | IgnoreCaseOrder(a, b) && IgnoreCaseOrder(b, c) ensures IgnoreCaseOrder(a, c) {
      CompareIgnoreCaseSign(a, b);
      CompareIgnoreCaseSign(b, c);
      CompareIgnoreCaseSign(a, c);
      IgnoreCaseLeTransitive(a, b, c);
    }
  }

  /** An aggregator's result: the distinct values, sorted case-insensitively. */
  function Aggregate(values: seq<string>): seq<string> {
    Sort(Distinct(values), IgnoreCaseOrder)
  }

  lemma NoDuplicatesCount<T>(s: seq<T>, x: T)
    requires NoDuplicates(s)
    ensures multiset(s)[x] <= 1
    decreases |s|
  {
    if s != [] {
      assert s == [s[0]] + s[1..];
      NoDuplicatesCount(s[1..], x);
      if s[0] == x {
        assert x !in s[1..];
      }
    }
  }

  lemma {:induction false} CountNoDuplicates<T>(s: seq<T>)
    requires forall x :: multiset(s)[x] <= 1
    ensures NoDuplicates(s)
  {
    forall i, j | 0 <= i < j < |s| ensures s[i] != s[j] {
      var x := s[i];
      assert s == s[..i] + [s[i]] + s[i + 1..j] + [s[j]] + s[j + 1..];
      assert multiset(s)[x] >= 1 + (if s[j] == x then 1 else 0);
    }
  }

  /**
   * Each value at most once (case-sensitive equality), every value one the
   * input holds and every input value present, in case-insensitive order.
   */
  lemma AggregateSpec(values: seq<string>)
    ensures NoDuplicates(Aggregate(values))
    ensures forall x :: x in Aggregate(values) <==> x in values
    ensures Sorted(Aggregate(values), IgnoreCaseOrder)
  {
    var d := Distinct(values);
    var r := Aggregate(values);
    IgnoreCaseOrderPreorder();
    SortSorted(d, IgnoreCaseOrder);
    forall x ensures multiset(r)[x] <= 1 {
      NoDuplicatesCount(d, x);
    }
    CountNoDuplicates(r);
    forall x ensures x in r <==> x in values {
      assert x in r <==> x in multiset(r);
      assert x in d <==> x in multiset(d);
    }
  }

  // --------------------------------------------------------------- filters

  /** One filter condition of the `getGamesBy...` queries, for a given non-empty value. */
  datatype Criterion =
    | HasFacet(facet: Facet, value: string)    // the list contains the value
    | HasCredit(credit: Credit, value: string) // the field equals the value
    | YearIn(lo: int, hi: int)                 // a release year within [lo, hi]

  predicate Matches(e: Entry, c: Criterion) {
    match c
    case HasFacet(f, v) => v in FacetOf(e, f)
    case HasCredit(k, v) => CreditOf(e, k) == Some(v)
    case YearIn(lo, hi) => e.releaseYear.Some? && lo <= e.releaseYear.value <= hi
  }

  /** The entries that meet the condition, in list order. */
  function Select(games: seq<Entry>, c: Criterion): (r: seq<Entry>)
    ensures |r| <= |games|
  {
    if games == [] then []
    else
      var g := games[|games| - 1];
      Select(games[..|games| - 1], c) + (if Matches(g, c) then [g] else [])
  }

  /** An entry is selected exactly when it is in the list and meets the condition. */
  lemma {:induction false} SelectMembers(games: seq<Entry>, c: Criterion, g: Entry)
    ensures g in Select(games, c) <==> g in games && Matches(g, c)
  {
    if games != [] {
      var init := games[..|games| - 1];
      SelectMembers(init, c, g);
      assert games == init + [games[|games| - 1]];
    }
  }

  /** Selecting keeps the list order: selecting from a concatenation concatenates the selections. */
  lemma {:induction false} SelectAppend(a: seq<Entry>, b: seq<Entry>, c: Criterion)
    ensures Select(a + b, c) == Select(a, c) + Select(b, c)
    decreases |b|
  {
    if b == [] {
      assert a + b == a;
    } else {
      var init := b[..|b| - 1];
      SelectAppend(a, init, c);
      assert (a + b)[..|a + b| - 1] == a + init;
      assert (a + b)[|a + b| - 1] == b[|b| - 1];
    }
  }

  /** When every entry meets the condition the whole list comes back. */
  lemma {:induction false} SelectAll(games: seq<Entry>, c: Criterion)
    requires forall i :: 0 <= i < |games| ==> Matches(games[i], c)
    ensures Select(games, c) == games
  {
    if games != [] {
      SelectAll(games[..|games| - 1], c);
      assert games == games[..|games| - 1] + [games[|games| - 1]];
    }
  }

  // ------------------------------------------------------------ title sorts

  /** The comparator of `getGamesSortedByTitleAsc`: absent titles first. */
  function CompareTitlesAsc(g1: Entry, g2: Entry): int {
    if g1.title.None? && g2.title.None? then 0
    else if g1.title.None? then -1
    else if g2.title.None? then 1
    else CompareIgnoreCase(g1.title.value, g2.title.value)
  }

  /** The comparator of `getGamesSortedByTitleDesc`: absent titles last, the rest reversed. */
  function CompareTitlesDesc(g1: Entry, g2: Entry): int {
    if g1.title.None? && g2.title.None? then 0
    else if g1.title.None? then 1
    else if g2.title.None? then -1
    else CompareIgnoreCase(g2.title.value, g1.title.value)
  }

  predicate TitleAscOrder(g1: Entry, g2: Entry) {
    CompareTitlesAsc(g1, g2) <= 0
  }

  predicate TitleDescOrder(g1: Entry, g2: Entry) {
    CompareTitlesDesc(g1, g2) <= 0
  }

  lemma TitleAscPreorder()
    ensures TotalPreorder(TitleAscOrder)
  {
    IgnoreCaseOrderPreorder();
    assert forall g1, g2 :: (TitleAscOrder(g1, g2) <==>
      g1.title.None? || (g2.title.Some? && IgnoreCaseOrder(g1.title.value, g2.title.value)));
  }

  lemma TitleDescPreorder()
    ensures TotalPreorder(TitleDescOrder)
  {
    IgnoreCaseOrderPreorder();
    assert forall g1, g2 :: (TitleDescOrder(g1, g2) <==>
      g2.title.None? || (g1.title.Some? && IgnoreCaseOrder(g2.title.value, g1.title.value)));
  }

  /**
   * The ascending title sort: a permutation of the list, entries without a
   * title ahead of all others, the titled ones in case-insensitive order.
   */
  lemma SortedByTitleAsc(games: seq<Entry>)
    ensures multiset(Sort(games, TitleAscOrder)) == multiset(games)
    ensures var r := Sort(games, TitleAscOrder);
      forall i, j :: 0 <= i < j < |r| && r[j].title.None? ==> r[i].title.None?
    ensures var r := Sort(games, TitleAscOrder);
      forall i, j :: 0 <= i < j < |r| && r[i].title.Some? && r[j].title.Some? ==>
        IgnoreCaseLe(r[i].title.value, r[j].title.value)
  {
    var r := Sort(games, TitleAscOrder);
    TitleAscPreorder();
    SortSorted(games, TitleAscOrder);
    forall i, j | 0 <= i < j < |r| && r[i].title.Some? && r[j].title.Some?
      ensures IgnoreCaseLe(r[i].title.value, r[j].title.value)
    {
      assert TitleAscOrder(r[i], r[j]);
      CompareIgnoreCaseSign(r[i].title.value, r[j].title.value);
    }
  }

  /**
   * The descending title sort: a permutation of the list, entries without a
   * title behind all others, the titled ones in reverse case-insensitive order.
   */
  lemma SortedByTitleDesc(games: seq<Entry>)
    ensures multiset(Sort(games, TitleDescOrder)) == multiset(games)
    ensures var r := Sort(games, TitleDescOrder);
      forall i, j :: 0 <= i < j < |r| && r[i].title.None? ==> r[j].title.None?
    ensures var r := Sort(games, TitleDescOrder);
      forall i, j :: 0 <= i < j < |r| && r[i].title.Some? && r[j].title.Some? ==>
        IgnoreCaseLe(r[j].title.value, r[i].title.value)
  {
    var r := Sort(games, TitleDescOrder);
    TitleDescPreorder();
    SortSorted(games, TitleDescOrder);
    forall i, j | 0 <= i < j < |r| && r[i].title.Some? && r[j].title.Some?
      ensures IgnoreCaseLe(r[j].title.value, r[i].title.value)
    {
      assert TitleDescOrder(r[i], r[j]);
      CompareIgnoreCaseSign(r[j].title.value, r[i].title.value);
    }
  }
}
