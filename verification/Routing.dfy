/** Route selection for outbound and inbound messages (gateway/route_table.go). */
module Routing {
  import opened Options
  import opened Seqs

  // ---- Sorting ---------------------------------------------------------------

  ghost predicate SortedBy<T>(s: seq<T>, rank: T -> real) {
    forall i, j :: 0 <= i < j < |s| ==> rank(s[i]) <= rank(s[j])
  }

  /** What `sort.Slice` promises: an ordered permutation, with ties in any order. */
  method SortSlice<T>(s: seq<T>, rank: T -> real) returns (r: seq<T>)
    ensures SortedBy(r, rank)
    ensures multiset(r) == multiset(s)
  {
    r := [];
    for i := 0 to |s|
      invariant SortedBy(r, rank)
      invariant multiset(r) == multiset(s[..i])
    {
      assert s[..i + 1] == s[..i] + [s[i]];
      r := InsertSorted(r, s[i], rank);
    }
    assert s[..|s|] == s;
  }

  method InsertSorted<T>(s: seq<T>, x: T, rank: T -> real) returns (r: seq<T>)
    requires SortedBy(s, rank)
    ensures SortedBy(r, rank)
    ensures multiset(r) == multiset(s) + multiset{x}
  {
    var k := |s|;
    while k > 0 && rank(x) < rank(s[k - 1])
      invariant 0 <= k <= |s|
      invariant k < |s| ==> rank(x) < rank(s[k])
    {
      k := k - 1;
    }
    r := s[..k] + [x] + s[k..];
    SortedAround(s, k, x, rank);
    CountAround(s, k, x);
  }

  lemma CountAround<T>(s: seq<T>, k: nat, x: T)
    requires k <= |s|
    ensures multiset(s[..k] + [x] + s[k..]) == multiset(s) + multiset{x}
  {
    assert s == s[..k] + s[k..];
  }

  lemma SortedAround<T>(s: seq<T>, k: nat, x: T, rank: T -> real)
    requires SortedBy(s, rank) && k <= |s|
    requires k < |s| ==> rank(x) <= rank(s[k])
    requires k > 0 ==> rank(s[k - 1]) <= rank(x)
    ensures SortedBy(s[..k] + [x] + s[k..], rank)
  {
    var r := s[..k] + [x] + s[k..];
    forall i, j | 0 <= i < j < |r| ensures rank(r[i]) <= rank(r[j]) {
      assert i < k ==> r[i] == s[i] && rank(s[i]) <= rank(s[k - 1]);
      assert j > k ==> r[j] == s[j - 1] && rank(s[k]) <= rank(s[j - 1]);
      assert i > k ==> r[i] == s[i - 1];
      assert j < k ==> r[j] == s[j];
    }
  }

  // ---- Outbound routes -------------------------------------------------------

  /** `RoutePool`. */
  datatype RoutePool = RoutePool(name: string, cost: real)

  class MTRoute {
    const prefix: string
    const strategy: string
    const pools: seq<RoutePool>
    var rrIndex: nat

    constructor (prefix: string, strategy: string, pools: seq<RoutePool>)
      ensures this.prefix == prefix && this.strategy == strategy && this.pools == pools && rrIndex == 0
    {
      this.prefix, this.strategy, this.pools, rrIndex := prefix, strategy, pools, 0;
    }
  }

  const DEFAULT_ROUTE := "*"

  predicate Matches(prefix: string, msisdn: string) {
    prefix == DEFAULT_ROUTE || prefix <= msisdn
  }

  /** Longer prefixes first, the default route last. */
  function Rank(prefix: string): real {
    if prefix == DEFAULT_ROUTE then 1.0 else -(|prefix| as real)
  }

  /** The comparison that `AddRoute` sorts by. */
  predicate Before(p: string, q: string) {
    if p == DEFAULT_ROUTE then false else if q == DEFAULT_ROUTE then true else |p| > |q|
  }

  lemma BeforeIsRank(p: string, q: string)
    ensures Before(p, q) <==> Rank(p) < Rank(q)
  {
  }

  function RouteRank(route: MTRoute): real {
    Rank(route.prefix)
  }

  /** `prefix` is the most specific of the configured prefixes that match. */
  ghost predicate MostSpecific(prefix: string, prefixes: set<string>, msisdn: string) {
    && prefix in prefixes && Matches(prefix, msisdn)
    && forall p :: p in prefixes && Matches(p, msisdn) && p != prefix ==>
         p == DEFAULT_ROUTE || (prefix != DEFAULT_ROUTE && |p| < |prefix|)
  }

  /** The prefixes decide the route: no two are most specific. */
  lemma MostSpecificUnique(p: string, q: string, prefixes: set<string>, msisdn: string)
    requires MostSpecific(p, prefixes, msisdn) && MostSpecific(q, prefixes, msisdn)
    ensures p == q
  {
  }

  /** Matching prefixes of one number differ in length, so lower rank is more specific. */
  lemma RankDecides(p: string, q: string, msisdn: string)
    requires Matches(p, msisdn) && Matches(q, msisdn) && p != q && Rank(p) <= Rank(q)
    ensures q == DEFAULT_ROUTE || (p != DEFAULT_ROUTE && |q| < |p|)
  {
  }

  // ---- Strategies ------------------------------------------------------------

  /** No listed pool is healthy and has a submitter; `up` names those that are. */
  ghost predicate AllDown(pools: seq<RoutePool>, up: set<string>) {
    forall i :: 0 <= i < |pools| ==> pools[i].name !in up
  }

  /** Pool `i` is the first in list order that is up. */
  ghost predicate FirstUp(pools: seq<RoutePool>, up: set<string>, i: nat) {
    i < |pools| && pools[i].name in up && forall j :: 0 <= j < i ==> pools[j].name !in up
  }

  /** Pool `i` is up and none that is up costs less. */
  ghost predicate CheapestUp(pools: seq<RoutePool>, up: set<string>, i: nat) {
    i < |pools| && pools[i].name in up &&
    forall j :: 0 <= j < |pools| && pools[j].name in up ==> pools[i].cost <= pools[j].cost
  }

  function Turn(start: nat, d: nat, n: nat): nat
    requires n > 0
  {
    (start + d) % n
  }

  /** Pool `Turn(start, d)` is the first in cyclic order from `start` that is up. */
  ghost predicate NextUp(pools: seq<RoutePool>, up: set<string>, start: nat, d: nat) {
    d < |pools| && pools[Turn(start, d, |pools|)].name in up &&
    forall e :: 0 <= e < d ==> pools[Turn(start, e, |pools|)].name !in up
  }

  method Failover(route: MTRoute, up: set<string>) returns (r: Option<string>)
    ensures r.None? <==> AllDown(route.pools, up)
    ensures r.Some? ==> exists i: nat :: FirstUp(route.pools, up, i) && route.pools[i].name == r.value
  {
    for i := 0 to |route.pools|
      invariant forall j :: 0 <= j < i ==> route.pools[j].name !in up
    {
      if route.pools[i].name in up {
        assert FirstUp(route.pools, up, i);
        return Some(route.pools[i].name);
      }
    }
    return None;
  }

  method RoundRobin(route: MTRoute, up: set<string>) returns (r: Option<string>)
    modifies route`rrIndex
    ensures r.None? <==> AllDown(route.pools, up)
    ensures r.Some? ==> exists d: nat :: NextUp(route.pools, up, old(route.rrIndex), d)
                          && route.pools[Turn(old(route.rrIndex), d, |route.pools|)].name == r.value
    ensures route.rrIndex == old(route.rrIndex) + (if route.pools == [] then 0 else 1)
  {
    var n := |route.pools|;
    if n == 0 {
      return None;
    }
    var idx := route.rrIndex;
    route.rrIndex := route.rrIndex + 1;
    for i := 0 to n
      invariant forall e :: 0 <= e < i ==> route.pools[Turn(idx, e, n)].name !in up
    {
      var candidate := route.pools[Turn(idx, i, n)];
      if candidate.name in up {
        assert NextUp(route.pools, up, idx, i);
        return Some(candidate.name);
      }
    }
    EveryTurn(route.pools, up, idx);
    return None;
  }

  /** A full turn asks every pool. */
  lemma EveryTurn(pools: seq<RoutePool>, up: set<string>, start: nat)
    requires pools != [] && forall e :: 0 <= e < |pools| ==> pools[Turn(start, e, |pools|)].name !in up
    ensures AllDown(pools, up)
  {
    forall i | 0 <= i < |pools| ensures pools[i].name !in up {
      var e := TurnOf(start, i, |pools|);
      assert pools[Turn(start, e, |pools|)].name !in up;
    }
  }

  lemma TurnOf(start: nat, i: nat, n: nat) returns (e: nat)
    requires i < n
    ensures e < n && Turn(start, e, n) == i
  {
    var c := start % n;
    e := if c <= i then i - c else n - c + i;
    var q := start / n;
    assert start == q * n + c;
    ModOf(q + (if c <= i then 0 else 1), n, i);
  }

  lemma Distribute(a: int, b: int, n: int)
    ensures (a + b) * n == a * n + b * n
  {
  }

  lemma NoMultiple(k: int, n: nat)
    requires 0 - n < k * n < n
    ensures k == 0
  {
    if k >= 1 {
      Distribute(k - 1, 1, n);
    } else if k <= -1 {
      Distribute(k + 1, -1, n);
    }
  }

  lemma ModOf(q: nat, n: nat, i: nat)
    requires i < n
    ensures (q * n + i) % n == i && (q * n + i) / n == q
  {
    var x := q * n + i;
    var k, j := x / n, x % n;
    assert k * n + j == q * n + i;
    Distribute(k, 0 - q, n);
    NoMultiple(k - q, n);
  }

  method LeastCost(route: MTRoute, up: set<string>) returns (r: Option<string>)
    ensures r.None? <==> AllDown(route.pools, up)
    ensures r.Some? ==> exists i: nat :: CheapestUp(route.pools, up, i) && route.pools[i].name == r.value
  {
    var sorted := SortSlice(route.pools, (p: RoutePool) => p.cost);
    for i := 0 to |sorted|
      invariant forall j :: 0 <= j < i ==> sorted[j].name !in up
    {
      if sorted[i].name in up {
        ghost var k := FirstIsCheapest(route.pools, sorted, up, i);
        return Some(sorted[i].name);
      }
    }
    SameDown(route.pools, sorted, up);
    return None;
  }

  lemma SameDown(pools: seq<RoutePool>, sorted: seq<RoutePool>, up: set<string>)
    requires multiset(sorted) == multiset(pools) && AllDown(sorted, up)
    ensures AllDown(pools, up)
  {
    forall i | 0 <= i < |pools| ensures pools[i].name !in up {
      InBoth(pools, sorted, pools[i]);
    }
  }

  lemma FirstIsCheapest(pools: seq<RoutePool>, sorted: seq<RoutePool>, up: set<string>, i: nat) returns (k: nat)
    requires multiset(sorted) == multiset(pools) && SortedBy(sorted, (p: RoutePool) => p.cost)
    requires FirstUp(sorted, up, i)
    ensures CheapestUp(pools, up, k) && pools[k] == sorted[i]
  {
    InBoth(sorted, pools, sorted[i]);
    k :| 0 <= k < |pools| && pools[k] == sorted[i];
    forall j | 0 <= j < |pools| && pools[j].name in up ensures pools[k].cost <= pools[j].cost {
      InBoth(pools, sorted, pools[j]);
      var l :| 0 <= l < |sorted| && sorted[l] == pools[j];
      assert i <= l;
    }
  }

  // ---- Fairness --------------------------------------------------------------

  /** How many of `m` calls from counter `start` begin at position `p`. */
  function Starts(start: nat, m: nat, n: nat, p: nat): nat
    requires n > 0
  {
    if m == 0 then 0
    else Starts(start, m - 1, n, p) + (if Turn(start, m - 1, n) == p then 1 else 0)
  }

  /** With all pools up, the call at counter `start` picks position `start % n`. */
  lemma AllUpPicks(pools: seq<RoutePool>, up: set<string>, start: nat, d: nat)
    requires NextUp(pools, up, start, d) && forall i :: 0 <= i < |pools| ==> pools[i].name in up
    ensures d == 0 && Turn(start, d, |pools|) == start % |pools|
  {
    assert pools[Turn(start, 0, |pools|)].name in up;
  }

  /** `t / n` counts the multiples passed; one more step passes one exactly at residue `n - 1`. */
  lemma StepQuotient(t: nat, n: nat)
    requires n > 0
    ensures (t + 1) / n == t / n + (if t % n == n - 1 then 1 else 0)
  {
    var q, i := t / n, t % n;
    assert t == q * n + i;
    if i == n - 1 {
      assert t + 1 == (q + 1) * n + 0;
      ModOf(q + 1, n, 0);
    } else {
      assert t + 1 == q * n + (i + 1);
      ModOf(q, n, i + 1);
    }
  }

  lemma ShiftResidue(t: nat, n: nat, p: nat)
    requires p < n
    ensures (t + (n - 1 - p)) % n == n - 1 <==> t % n == p
  {
    var q, i := t / n, t % n;
    assert t == q * n + i;
    var s := i + (n - 1 - p);
    if s < n {
      assert t + (n - 1 - p) == q * n + s;
      ModOf(q, n, s);
    } else {
      assert t + (n - 1 - p) == (q + 1) * n + (s - n);
      ModOf(q + 1, n, s - n);
    }
  }

  lemma {:induction false} StartsClosed(start: nat, m: nat, n: nat, p: nat)
    requires p < n
    ensures Starts(start, m, n, p) == (start + m + (n - 1 - p)) / n - (start + (n - 1 - p)) / n
  {
    if m > 0 {
      StartsClosed(start, m - 1, n, p);
      StepQuotient(start + (m - 1) + (n - 1 - p), n);
      ShiftResidue(start + (m - 1), n, p);
    }
  }

  lemma SumParts(q: nat, i: nat, r: nat, j: nat, n: nat, t: nat)
    requires i < n && j < n && t == q * n + i + (r * n + j)
    ensures t / n == q + r + (if i + j < n then 0 else 1)
  {
    Distribute(q, r, n);
    if i + j < n {
      ModOf(q + r, n, i + j);
    } else {
      Distribute(q + r, 1, n);
      ModOf(q + r + 1, n, i + j - n);
    }
  }

  lemma SumQuotient(a: nat, m: nat, n: nat)
    requires n > 0
    ensures m / n <= (a + m) / n - a / n <= m / n + 1
  {
    SumParts(a / n, a % n, m / n, m % n, n, a + m);
  }

  /** Any window of `m` calls begins at each of `n` positions `m / n` times, or once more. */
  lemma FairShare(start: nat, m: nat, n: nat, p: nat)
    requires p < n
    ensures m / n <= Starts(start, m, n, p) <= m / n + 1
  {
    StartsClosed(start, m, n, p);
    SumQuotient(start + (n - 1 - p), m, n);
    assert start + m + (n - 1 - p) == start + (n - 1 - p) + m;
  }

  /** How often a position was picked. */
  function Occurs(picks: seq<nat>, p: nat): nat {
    if picks == [] then 0 else Occurs(picks[..|picks| - 1], p) + (if picks[|picks| - 1] == p then 1 else 0)
  }

  ghost predicate InTurn(picks: seq<nat>, start: nat, n: nat)
    requires n > 0
  {
    forall k :: 0 <= k < |picks| ==> picks[k] == Turn(start, k, n)
  }

  lemma {:induction false} OccursIsStarts(picks: seq<nat>, start: nat, n: nat, p: nat)
    requires n > 0 && InTurn(picks, start, n)
    ensures Occurs(picks, p) == Starts(start, |picks|, n, p)
  {
    if picks != [] {
      OccursIsStarts(picks[..|picks| - 1], start, n, p);
    }
  }

  /** Consecutive calls with all pools up pick each listed pool equally often, to within one. */
  method PickRepeatedly(route: MTRoute, up: set<string>, m: nat) returns (names: seq<string>, ghost picks: seq<nat>)
    requires route.pools != [] && forall i :: 0 <= i < |route.pools| ==> route.pools[i].name in up
    modifies route`rrIndex
    ensures |names| == |picks| == m && route.rrIndex == old(route.rrIndex) + m
    ensures forall k :: 0 <= k < m ==> picks[k] < |route.pools| && names[k] == route.pools[picks[k]].name
    ensures forall p :: 0 <= p < |route.pools| ==> m / |route.pools| <= Occurs(picks, p) <= m / |route.pools| + 1
  {
    names, picks := [], [];
    ghost var start, n := route.rrIndex, |route.pools|;
    for k := 0 to m
      invariant |names| == |picks| == k && route.rrIndex == start + k
      invariant InTurn(picks, start, n)
      invariant forall j :: 0 <= j < k ==> picks[j] < n && names[j] == route.pools[picks[j]].name
    {
      var r := RoundRobin(route, up);
      assert route.pools[0].name in up;
      ghost var d: nat :| NextUp(route.pools, up, start + k, d) && route.pools[Turn(start + k, d, n)].name == r.value;
      AllUpPicks(route.pools, up, start + k, d);
      names, picks := names + [r.value], picks + [Turn(start, k, n)];
    }
    forall p | 0 <= p < n ensures m / n <= Occurs(picks, p) <= m / n + 1 {
      OccursIsStarts(picks, start, n, p);
      FairShare(start, m, n, p);
    }
  }

  // ---- The outbound table ----------------------------------------------------

  ghost predicate Listed(routes: seq<MTRoute>, view: map<string, MTRoute>) {
    forall i :: 0 <= i < |routes| ==> routes[i].prefix in view && view[routes[i].prefix] == routes[i]
  }

  ghost predicate Present(routes: seq<MTRoute>, view: map<string, MTRoute>) {
    forall p :: p in view ==> view[p] in routes && view[p].prefix == p
  }

  ghost predicate NoTwins(routes: seq<MTRoute>) {
    forall i, j :: 0 <= i < j < |routes| ==> routes[i].prefix != routes[j].prefix
  }

  /** The list of routes holds exactly the routes of `view`, each under its prefix and once. */
  ghost predicate Holds(routes: seq<MTRoute>, view: map<string, MTRoute>) {
    Listed(routes, view) && Present(routes, view) && NoTwins(routes)
  }

  function Without<T>(s: seq<T>, i: nat): (r: seq<T>)
    requires i < |s|
    ensures |r| == |s| - 1 && forall j :: 0 <= j < |r| ==> r[j] == s[if j < i then j else j + 1]
  {
    s[..i] + s[i + 1..]
  }

  lemma StaysIn<T>(s: seq<T>, i: nat, j: nat)
    requires i < |s| && j < |s| && i != j
    ensures s[j] in Without(s, i)
  {
    assert Without(s, i)[if j < i then j else j - 1] == s[j];
  }

  lemma HoldsWithout(routes: seq<MTRoute>, view: map<string, MTRoute>, i: nat)
    requires Holds(routes, view) && i < |routes|
    ensures Holds(Without(routes, i), view - {routes[i].prefix})
  {
    ListedWithout(routes, view, i);
    PresentWithout(routes, view, i);
    NoTwinsWithout(routes, i);
  }

  lemma ListedWithout(routes: seq<MTRoute>, view: map<string, MTRoute>, i: nat)
    requires Listed(routes, view) && NoTwins(routes) && i < |routes|
    ensures Listed(Without(routes, i), view - {routes[i].prefix})
  {
  }

  lemma PresentWithout(routes: seq<MTRoute>, view: map<string, MTRoute>, i: nat)
    requires Present(routes, view) && i < |routes|
    ensures Present(Without(routes, i), view - {routes[i].prefix})
  {
    forall p | p in view && p != routes[i].prefix ensures view[p] in Without(routes, i) {
      var j :| 0 <= j < |routes| && routes[j] == view[p];
      StaysIn(routes, i, j);
    }
  }

  lemma NoTwinsWithout(routes: seq<MTRoute>, i: nat)
    requires NoTwins(routes) && i < |routes|
    ensures NoTwins(Without(routes, i))
  {
  }

  lemma HoldsOneMore(routes: seq<MTRoute>, view: map<string, MTRoute>, route: MTRoute)
    requires Holds(routes, view) && route.prefix !in view
    ensures Holds(routes + [route], view[route.prefix := route])
  {
    var more := routes + [route];
    assert more[|routes|] == route;
    forall p | p in view ensures view[p] in more {
      assert view[p] in routes;
    }
  }

  lemma NoneTwice(routes: seq<MTRoute>, i: nat, j: nat)
    requires i < j < |routes| && routes[i] == routes[j]
    ensures multiset(routes)[routes[i]] >= 2
  {
    assert routes == routes[..j] + routes[j..];
    assert routes[..j][i] == routes[i] && routes[j..][0] == routes[j];
    assert multiset(routes) == multiset(routes[..j]) + multiset(routes[j..]);
    assert routes[i] in routes[..j] && routes[i] in routes[j..];
  }

  lemma EachOnce(routes: seq<MTRoute>, view: map<string, MTRoute>, r: MTRoute)
    requires Holds(routes, view)
    ensures multiset(routes)[r] <= 1
    decreases |routes|
  {
    if routes != [] {
      var last := |routes| - 1;
      HoldsWithout(routes, view, last);
      assert Without(routes, last) == routes[..last];
      EachOnce(routes[..last], view - {routes[last].prefix}, r);
      assert routes == routes[..last] + [routes[last]];
      assert r == routes[last] ==> r !in routes[..last];
    }
  }

  /** The order of the list does not matter. */
  lemma HoldsPermuted(routes: seq<MTRoute>, other: seq<MTRoute>, view: map<string, MTRoute>)
    requires Holds(routes, view) && multiset(other) == multiset(routes)
    ensures Holds(other, view)
  {
    forall i | 0 <= i < |other| ensures other[i].prefix in view && view[other[i].prefix] == other[i] {
      assert other[i] in multiset(other);
      assert other[i] in routes;
    }
    forall p | p in view ensures view[p] in other {
      assert view[p] in multiset(routes);
    }
    forall i, j | 0 <= i < j < |other| ensures other[i].prefix != other[j].prefix {
      if other[i] == other[j] {
        NoneTwice(other, i, j);
        EachOnce(routes, view, other[i]);
      }
    }
  }

  lemma Replaced(view: map<string, MTRoute>, prefix: string, route: MTRoute)
    ensures (view - {prefix})[prefix := route] == view[prefix := route]
  {
  }

  method SortedWith(routes: seq<MTRoute>, ghost view: map<string, MTRoute>, route: MTRoute) returns (sorted: seq<MTRoute>)
    requires Holds(routes, view) && route.prefix !in view
    ensures Holds(sorted, view[route.prefix := route]) && SortedBy(sorted, RouteRank)
  {
    HoldsOneMore(routes, view, route);
    sorted := SortSlice(routes + [route], RouteRank);
    HoldsPermuted(routes + [route], sorted, view[route.prefix := route]);
  }

  method IndexOf(routes: seq<MTRoute>, prefix: string) returns (i: nat)
    ensures i <= |routes| && (i < |routes| ==> routes[i].prefix == prefix)
    ensures forall j :: 0 <= j < i ==> routes[j].prefix != prefix
  {
    i := 0;
    while i < |routes| && routes[i].prefix != prefix
      invariant i <= |routes| && forall j :: 0 <= j < i ==> routes[j].prefix != prefix
    {
      i := i + 1;
    }
  }

  lemma NotConfigured(routes: seq<MTRoute>, view: map<string, MTRoute>, prefix: string)
    requires Holds(routes, view) && forall j :: 0 <= j < |routes| ==> routes[j].prefix != prefix
    ensures prefix !in view && view - {prefix} == view
  {
  }

  /** How the route of a number was chosen. */
  datatype Choice = NoRoute | NoPool(prefix: string) | Chosen(prefix: string, pool: string)

  class MTRouteTable {
    var routes: seq<MTRoute>
    /** The configured routes by prefix. */
    ghost var view: map<string, MTRoute>

    ghost predicate Valid()
      reads this
    {
      Holds(routes, view) && SortedBy(routes, RouteRank)
    }

    constructor ()
      ensures Valid() && view == map[]
    {
      routes, view := [], map[];
    }

    /** `removeByPrefixLocked`. */
    method RemoveByPrefix(prefix: string) returns (found: bool)
      requires Valid()
      modifies this
      ensures Valid() && view == old(view) - {prefix} && found == (prefix in old(view))
    {
      var i := IndexOf(routes, prefix);
      found := i < |routes|;
      if found {
        HoldsWithout(routes, view, i);
        SortedWithout(routes, i, RouteRank);
        routes := Without(routes, i);
        view := view - {prefix};
      } else {
        NotConfigured(routes, view, prefix);
      }
    }

    method AddRoute(route: MTRoute)
      requires Valid()
      modifies this
      ensures Valid() && view == old(view)[route.prefix := route]
    {
      var _ := RemoveByPrefix(route.prefix);
      Replaced(old(view), route.prefix, route);
      routes := SortedWith(routes, view, route);
      view := view[route.prefix := route];
    }

    method RemoveRoute(prefix: string) returns (found: bool)
      requires Valid()
      modifies this
      ensures Valid() && view == old(view) - {prefix} && found == (prefix in old(view))
    {
      found := RemoveByPrefix(prefix);
    }

    /** The route that `Resolve` applies: the most specific one, however the table came about. */
    method Match(msisdn: string) returns (r: Option<MTRoute>)
      requires Valid()
      ensures r.Some? ==> MostSpecific(r.value.prefix, view.Keys, msisdn) && view[r.value.prefix] == r.value
      ensures r.None? <==> forall p :: p in view ==> !Matches(p, msisdn)
    {
      for i := 0 to |routes|
        invariant forall j :: 0 <= j < i ==> !Matches(routes[j].prefix, msisdn)
      {
        if routes[i].prefix == DEFAULT_ROUTE || routes[i].prefix <= msisdn {
          FirstIsMostSpecific(routes, view, msisdn, i);
          return Some(routes[i]);
        }
      }
      return None;
    }

    /** The most specific route answers by its strategy, and no other route changes. */
    method Resolve(msisdn: string, up: set<string>) returns (c: Choice)
      requires Valid()
      modifies routes
      ensures Valid() && view == old(view)
      ensures c.NoRoute? <==> forall p :: p in view ==> !Matches(p, msisdn)
      ensures !c.NoRoute? ==>
                && MostSpecific(c.prefix, view.Keys, msisdn)
                && Selects(view[c.prefix], old(view[c.prefix].rrIndex), up, if c.Chosen? then Some(c.pool) else None)
                && forall r :: r in routes && r != view[c.prefix] ==> r.rrIndex == old(r.rrIndex)
    {
      var route := Match(msisdn);
      if route.None? {
        return NoRoute;
      }
      var pool := ApplyStrategy(route.value, up);
      return if pool.Some? then Chosen(route.value.prefix, pool.value) else NoPool(route.value.prefix);
    }
  }

  /** What the strategy of `route` may answer from counter `start`. */
  ghost predicate Selects(route: MTRoute, start: nat, up: set<string>, r: Option<string>) {
    var pools := route.pools;
    if route.strategy !in STRATEGIES || AllDown(pools, up) then r.None?
    else
      && r.Some?
      && (route.strategy == "failover" ==> exists i: nat :: FirstUp(pools, up, i) && pools[i].name == r.value)
      && (route.strategy == "round_robin" ==>
            exists d: nat :: NextUp(pools, up, start, d) && pools[Turn(start, d, |pools|)].name == r.value)
      && (route.strategy == "least_cost" ==> exists i: nat :: CheapestUp(pools, up, i) && pools[i].name == r.value)
  }

  const STRATEGIES := {"failover", "round_robin", "least_cost"}

  /** `applyStrategy`. */
  method ApplyStrategy(route: MTRoute, up: set<string>) returns (r: Option<string>)
    modifies route`rrIndex
    ensures Selects(route, old(route.rrIndex), up, r)
    ensures route.rrIndex == old(route.rrIndex) +
              (if route.strategy == "round_robin" && route.pools != [] then 1 else 0)
  {
    if route.strategy == "failover" {
      r := Failover(route, up);
    } else if route.strategy == "round_robin" {
      r := RoundRobin(route, up);
    } else if route.strategy == "least_cost" {
      r := LeastCost(route, up);
    } else {
      r := None;
    }
  }

  lemma FirstIsMostSpecific(routes: seq<MTRoute>, view: map<string, MTRoute>, msisdn: string, i: nat)
    requires Holds(routes, view) && SortedBy(routes, RouteRank)
    requires i < |routes| && Matches(routes[i].prefix, msisdn)
    requires forall j :: 0 <= j < i ==> !Matches(routes[j].prefix, msisdn)
    ensures MostSpecific(routes[i].prefix, view.Keys, msisdn)
  {
    forall p | p in view && Matches(p, msisdn) && p != routes[i].prefix
      ensures p == DEFAULT_ROUTE || (routes[i].prefix != DEFAULT_ROUTE && |p| < |routes[i].prefix|)
    {
      var j :| 0 <= j < |routes| && routes[j] == view[p];
      RankDecides(routes[i].prefix, p, msisdn);
    }
  }

  // ---- Inbound routes --------------------------------------------------------

  /** `MOTarget`. */
  datatype MOTarget = MOTarget(kind: string, connId: string, callbackUrl: string)

  /** `MORoute`. */
  datatype MORoute = MORoute(destPattern: string, sourcePrefix: string, target: MOTarget, priority: int)

  /** A trailing "*" makes the destination pattern a prefix; an empty source prefix matches all. */
  predicate MatchesMO(r: MORoute, source: string, dest: string) {
    var n := |r.destPattern|;
    && (if n > 0 && r.destPattern[n - 1] == '*' then r.destPattern[..n - 1] <= dest else dest == r.destPattern)
    && (r.sourcePrefix == "" || r.sourcePrefix <= source)
  }

  ghost predicate StartsWith(s: string, prefix: string) {
    exists rest :: s == prefix + rest
  }

  lemma PrefixIsStart(s: string, prefix: string)
    ensures prefix <= s <==> StartsWith(s, prefix)
  {
    if prefix <= s {
      assert s == prefix + s[|prefix|..];
    }
  }

  /**
   * Which messages an inbound route takes: "p*" those to an address that starts with p, so "*" all;
   * another pattern those to exactly that address; and of these only those from an address that
   * starts with the source prefix, if there is one.
   */
  lemma MOCases(p: string, prefix: string, target: MOTarget, priority: int, source: string, dest: string)
    ensures MatchesMO(MORoute(p + "*", prefix, target, priority), source, dest) <==>
            StartsWith(dest, p) && StartsWith(source, prefix)
    ensures p == "" || p[|p| - 1] != '*' ==>
            (MatchesMO(MORoute(p, prefix, target, priority), source, dest) <==> dest == p && StartsWith(source, prefix))
  {
    PrefixIsStart(source, prefix);
    PrefixIsStart(dest, p);
    assert (p + "*")[..|p|] == p;
  }

  function Urgency(r: MORoute): real {
    -(r.priority as real)
  }

  class MORouteTable {
    var routes: seq<MORoute>

    ghost predicate Valid()
      reads this
    {
      SortedBy(routes, Urgency)
    }

    constructor ()
      ensures Valid() && routes == []
    {
      routes := [];
    }

    method AddRoute(route: MORoute)
      requires Valid()
      modifies this
      ensures Valid() && multiset(routes) == multiset(old(routes)) + multiset{route}
    {
      routes := SortSlice(routes + [route], Urgency);
    }

    /** One route with this pattern and source prefix goes, if there is one. */
    method RemoveRoute(destPattern: string, sourcePrefix: string) returns (found: bool)
      requires Valid()
      modifies this
      ensures Valid()
      ensures found <==> exists r :: r in old(routes) && r.destPattern == destPattern && r.sourcePrefix == sourcePrefix
      ensures !found ==> routes == old(routes)
      ensures found ==> exists r :: r in old(routes) && r.destPattern == destPattern && r.sourcePrefix == sourcePrefix
                          && multiset(routes) == multiset(old(routes)) - multiset{r}
    {
      for i := 0 to |routes|
        invariant Valid() && routes == old(routes)
        invariant forall j :: 0 <= j < i ==> routes[j].destPattern != destPattern || routes[j].sourcePrefix != sourcePrefix
      {
        if routes[i].destPattern == destPattern && routes[i].sourcePrefix == sourcePrefix {
          CountWithout(routes, i);
          SortedWithout(routes, i, Urgency);
          assert routes[i] in old(routes);
          routes := Without(routes, i);
          return true;
        }
      }
      return false;
    }

    /** The answer is a matching route that no matching route outranks. */
    method Resolve(source: string, dest: string) returns (r: Option<MOTarget>)
      requires Valid()
      ensures r.None? <==> forall m :: m in routes ==> !MatchesMO(m, source, dest)
      ensures r.Some? ==> exists m :: m in routes && MatchesMO(m, source, dest) && m.target == r.value
                            && forall o :: o in routes && MatchesMO(o, source, dest) ==> o.priority <= m.priority
    {
      for i := 0 to |routes|
        invariant forall j :: 0 <= j < i ==> !MatchesMO(routes[j], source, dest)
      {
        if MatchesMO(routes[i], source, dest) {
          FirstHasPriority(routes, source, dest, i);
          return Some(routes[i].target);
        }
      }
      return None;
    }
  }

  lemma CountWithout<T>(s: seq<T>, i: nat)
    requires i < |s|
    ensures multiset(Without(s, i)) == multiset(s) - multiset{s[i]}
  {
    assert s == s[..i] + [s[i]] + s[i + 1..];
  }

  lemma SortedWithout<T>(s: seq<T>, i: nat, rank: T -> real)
    requires SortedBy(s, rank) && i < |s|
    ensures SortedBy(Without(s, i), rank)
  {
  }

  lemma FirstHasPriority(routes: seq<MORoute>, source: string, dest: string, i: nat)
    requires SortedBy(routes, Urgency) && i < |routes|
    requires forall j :: 0 <= j < i ==> !MatchesMO(routes[j], source, dest)
    ensures forall o :: o in routes && MatchesMO(o, source, dest) ==> o.priority <= routes[i].priority
  {
    forall o | o in routes && MatchesMO(o, source, dest) ensures o.priority <= routes[i].priority {
      var j :| 0 <= j < |routes| && routes[j] == o;
      assert Urgency(routes[i]) <= Urgency(routes[j]);
    }
  }
}
