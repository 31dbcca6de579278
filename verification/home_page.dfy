/** The home page's derivation of its three views from the fetched listings:
    filter by offer or by type, sort, keep the first eight.

    The source sorts by `new Date(_id).getTime()`, descending. For identifiers
    that are not date strings every key is NaN, every comparison counts as a
    tie, and the stable sort keeps the input order. The model therefore sorts
    by an abstract `rank` supplied by the caller; a constant rank reproduces
    the NaN behaviour exactly (`ConstantRankKeepsOrder`). */
module HomePage {
  import opened Wrappers
  import opened JsText
  import opened Records

  datatype ViewKind = RecentOffers | ForRent | ForSale

  const PageSize: nat := 8

  /** The filter of each view: an offer with a truthy discount, or a
      case-insensitive type of "rent" or "sale". */
  predicate Matches(kind: ViewKind, l: Listing) {
    match kind
    case RecentOffers => l.offer && NumTruthy(l.discountPrice)
    case ForRent => ToLower(l.listingType) == "rent"
    case ForSale => ToLower(l.listingType) == "sale"
  }

  /** `listings.filter(...)`, in input order. */
  function Filter(kind: ViewKind, s: seq<Listing>): (r: seq<Listing>)
    ensures |r| <= |s|
    ensures forall i :: 0 <= i < |r| ==> Matches(kind, r[i])
    ensures multiset(r) <= multiset(s)
    ensures forall l :: l in s && Matches(kind, l) ==> l in r
    decreases |s|
  {
    if |s| == 0 then []
    else
      var rest := Filter(kind, s[1..]);
      assert s == [s[0]] + s[1..];
      if Matches(kind, s[0]) then [s[0]] + rest else rest
  }

  /** A single listing is kept exactly when it matches. */
  lemma FilterSingle(kind: ViewKind, x: Listing)
    ensures Filter(kind, [x]) == if Matches(kind, x) then [x] else []
  {
    assert [x][1..] == [];
  }

  /** Filtering a list with a head keeps that head exactly when it matches. */
  lemma FilterCons(kind: ViewKind, x: Listing, u: seq<Listing>)
    ensures Filter(kind, [x] + u) == (if Matches(kind, x) then [x] else []) + Filter(kind, u)
  {
    assert ([x] + u)[0] == x;
    assert ([x] + u)[1..] == u;
  }

  lemma ConcatAssoc<T>(a: seq<T>, b: seq<T>, c: seq<T>)
    ensures a + (b + c) == (a + b) + c
  {
  }

  /** One step of `FilterAppend`: the kept head goes in front of both parts. */
  lemma FilterAppendStep(kind: ViewKind, x: Listing, u: seq<Listing>, t: seq<Listing>)
    ensures Filter(kind, [x] + u) + Filter(kind, t)
            == (if Matches(kind, x) then [x] else []) + (Filter(kind, u) + Filter(kind, t))
  {
    FilterCons(kind, x, u);
    ConcatAssoc(if Matches(kind, x) then [x] else [], Filter(kind, u), Filter(kind, t));
  }

  /** Filtering keeps input order: it distributes over concatenation. */
  lemma {:induction false} FilterAppend(kind: ViewKind, s: seq<Listing>, t: seq<Listing>)
    ensures Filter(kind, s + t) == Filter(kind, s) + Filter(kind, t)
    decreases |s|
  {
    if |s| == 0 {
      assert s + t == t;
    } else {
      var x, u := s[0], s[1..];
      assert s == [x] + u;
      assert s + t == [x] + (u + t);
      FilterAppend(kind, u, t);
      FilterCons(kind, x, u + t);
      FilterAppendStep(kind, x, u, t);
    }
  }

  /** Filtering keeps every match exactly as often as the input holds it, and
      no other listing. */
  lemma {:induction false} FilterCounts(kind: ViewKind, s: seq<Listing>)
    ensures forall l :: multiset(Filter(kind, s))[l] == if Matches(kind, l) then multiset(s)[l] else 0
    decreases |s|
  {
    if |s| > 0 {
      FilterCounts(kind, s[1..]);
      assert s == [s[0]] + s[1..];
      assert multiset(s) == multiset{s[0]} + multiset(s[1..]);
      FilterCons(kind, s[0], s[1..]);
    }
  }

  /** Sorted from the highest rank down. */
  predicate SortedDesc(s: seq<Listing>, rank: Listing -> int) {
    forall i, j :: 0 <= i < j < |s| ==> rank(s[i]) >= rank(s[j])
  }

  /** Every entry of a list holding `t`'s entries plus `x` is ranked at most
      `b` when `x` and all of `t` are. */
  lemma RanksBounded(r: seq<Listing>, t: seq<Listing>, x: Listing, rank: Listing -> int, b: int)
    requires multiset(r) == multiset(t) + multiset{x}
    requires rank(x) <= b
    requires forall k :: 0 <= k < |t| ==> rank(t[k]) <= b
    ensures forall k :: 0 <= k < |r| ==> rank(r[k]) <= b
  {
    forall k | 0 <= k < |r| ensures rank(r[k]) <= b {
      assert r[k] in multiset(r);
      if r[k] != x {
        assert r[k] in multiset(t);
        var m :| 0 <= m < |t| && t[m] == r[k];
      }
    }
  }

  /** A head ranked at least as high as every entry of a sorted tail keeps
      the list sorted. */
  lemma ConsSorted(h: Listing, t: seq<Listing>, rank: Listing -> int)
    requires SortedDesc(t, rank)
    requires forall k :: 0 <= k < |t| ==> rank(t[k]) <= rank(h)
    ensures SortedDesc([h] + t, rank)
  {
  }

  /** Insert `x` before the first entry it is not ranked below, so that
      entries of equal rank keep their relative order. */
  function Insert(x: Listing, s: seq<Listing>, rank: Listing -> int): (r: seq<Listing>)
    requires SortedDesc(s, rank)
    ensures multiset(r) == multiset(s) + multiset{x}
    ensures SortedDesc(r, rank)
    decreases |s|
  {
    if |s| == 0 || rank(x) >= rank(s[0]) then
      ConsSorted(x, s, rank);
      [x] + s
    else
      var t := s[1..];
      var rest := Insert(x, t, rank);
      assert s == [s[0]] + t;
      assert forall k :: 0 <= k < |t| ==> rank(t[k]) <= rank(s[0]) by {
        forall k | 0 <= k < |t| ensures rank(t[k]) <= rank(s[0]) {
          assert t[k] == s[k + 1];
        }
      }
      RanksBounded(rest, t, x, rank, rank(s[0]));
      ConsSorted(s[0], rest, rank);
      [s[0]] + rest
  }

  /** A stable sort, highest rank first. */
  function SortByRank(s: seq<Listing>, rank: Listing -> int): (r: seq<Listing>)
    ensures multiset(r) == multiset(s)
    ensures |r| == |s|
    ensures SortedDesc(r, rank)
    decreases |s|
  {
    if |s| == 0 then []
    else
      assert s == [s[0]] + s[1..];
      Insert(s[0], SortByRank(s[1..], rank), rank)
  }

  /** When every key ties, sorting changes nothing. */
  lemma {:induction false} ConstantRankKeepsOrder(s: seq<Listing>, rank: Listing -> int)
    requires forall a: Listing, b: Listing :: rank(a) == rank(b)
    ensures SortByRank(s, rank) == s
    decreases |s|
  {
    if |s| > 0 {
      ConstantRankKeepsOrder(s[1..], rank);
      assert SortByRank(s, rank) == Insert(s[0], s[1..], rank);
      assert s == [s[0]] + s[1..];
    }
  }

  /** `.slice(0, 8)`. */
  function TakePage(s: seq<Listing>): (r: seq<Listing>)
    ensures |r| == if |s| < PageSize then |s| else PageSize
    ensures r == s[..|r|]
  {
    if |s| <= PageSize then s else s[..PageSize]
  }

  /** One derived view. */
  function View(kind: ViewKind, all: seq<Listing>, rank: Listing -> int): seq<Listing> {
    TakePage(SortByRank(Filter(kind, all), rank))
  }

  /** Every view holds min(8, number of matches) listings, highest rank
      first. */
  lemma ViewSizeAndOrder(kind: ViewKind, all: seq<Listing>, rank: Listing -> int)
    ensures |View(kind, all, rank)| == Min(PageSize, |Filter(kind, all)|)
    ensures SortedDesc(View(kind, all, rank), rank)
  {
  }

  /** The page is a prefix, so it holds no entry more often than the list. */
  lemma TakePageWithin(s: seq<Listing>)
    ensures multiset(TakePage(s)) <= multiset(s)
  {
    var v := TakePage(s);
    assert s == v + s[|v|..];
    assert multiset(s) == multiset(v) + multiset(s[|v|..]);
  }

  /** Drawing entries from a list of matches yields only matches. */
  lemma DrawnFromMatches(kind: ViewKind, f: seq<Listing>, w: seq<Listing>)
    requires multiset(w) <= multiset(f)
    requires forall k :: 0 <= k < |f| ==> Matches(kind, f[k])
    ensures forall i :: 0 <= i < |w| ==> Matches(kind, w[i])
  {
    forall i | 0 <= i < |w| ensures Matches(kind, w[i]) {
      assert w[i] in multiset(w);
      assert w[i] in multiset(f);
      var k :| 0 <= k < |f| && f[k] == w[i];
    }
  }

  /** Every view holds only matching listings, each taken from the fetched
      list without duplication. */
  lemma ViewProperties(kind: ViewKind, all: seq<Listing>, rank: Listing -> int)
    ensures var v := View(kind, all, rank);
            && (forall i :: 0 <= i < |v| ==> Matches(kind, v[i]))
            && multiset(v) <= multiset(all)
  {
    var f := Filter(kind, all);
    var sorted := SortByRank(f, rank);
    TakePageWithin(sorted);
    DrawnFromMatches(kind, f, TakePage(sorted));
  }

  function Min(a: int, b: int): int { if a < b then a else b }

  /** No listing is both in the rent view and in the sale view. */
  lemma RentAndSaleDisjoint(all: seq<Listing>, rank: Listing -> int)
    ensures forall l :: !(l in View(ForRent, all, rank) && l in View(ForSale, all, rank))
  {
    ViewProperties(ForRent, all, rank);
    ViewProperties(ForSale, all, rank);
  }

  /** The three views the page holds; all empty until a fetch succeeds. */
  datatype HomeState = HomeState(recent: seq<Listing>, rent: seq<Listing>, sale: seq<Listing>)

  const Initial: HomeState := HomeState([], [], [])

  datatype FetchOutcome = Fetched(all: seq<Listing>) | FetchFailed

  /** `fetchListings`: a successful fetch sets all three views; a failure is
      only logged, and the views keep what they held. */
  function FetchListings(s: HomeState, outcome: FetchOutcome, rank: Listing -> int): (r: HomeState)
    ensures outcome.FetchFailed? ==> r == s
    ensures outcome.Fetched? ==>
      r == HomeState(View(RecentOffers, outcome.all, rank), View(ForRent, outcome.all, rank), View(ForSale, outcome.all, rank))
  {
    match outcome
    case FetchFailed => s
    case Fetched(all) =>
      HomeState(View(RecentOffers, all, rank), View(ForRent, all, rank), View(ForSale, all, rank))
  }

  /** A failed first fetch leaves the page with three empty views. */
  lemma FailedFetchShowsNothing(rank: Listing -> int)
    ensures FetchListings(Initial, FetchFailed, rank) == HomeState([], [], [])
  {
  }

  /** After a successful fetch each view holds only listings of its kind, at
      most eight, and the rent and sale views share none. */
  lemma FetchedViewsWellFormed(s: HomeState, all: seq<Listing>, rank: Listing -> int)
    ensures var r := FetchListings(s, Fetched(all), rank);
            && (forall i :: 0 <= i < |r.recent| ==> Matches(RecentOffers, r.recent[i]))
            && (forall i :: 0 <= i < |r.rent| ==> Matches(ForRent, r.rent[i]))
            && (forall i :: 0 <= i < |r.sale| ==> Matches(ForSale, r.sale[i]))
            && |r.recent| <= 8 && |r.rent| <= 8 && |r.sale| <= 8
            && (forall l :: !(l in r.rent && l in r.sale))
  {
    var r := FetchListings(s, Fetched(all), rank);
    assert r.recent == View(RecentOffers, all, rank);
    assert r.rent == View(ForRent, all, rank);
    assert r.sale == View(ForSale, all, rank);
    ViewProperties(RecentOffers, all, rank);
    ViewProperties(ForRent, all, rank);
    ViewProperties(ForSale, all, rank);
    RentAndSaleDisjoint(all, rank);
  }
}
