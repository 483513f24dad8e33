/** The route-selection helpers and the time formatting of utils.py. */
module Utils {
  import opened Seqs
  import opened Decimal

  type Road = string
  type Route = seq<Road>

  /** One training epoch's record as main.py collects it: the mean episode reward and
      the routes reported during the epoch. */
  datatype EpochResult = EpochResult(episodeRewardMean: int, optimalRoutes: seq<Route>)

  /** numpy's `argmax`: the FIRST position of a maximal element. */
  function ArgMax(s: seq<int>): (k: nat)
    requires |s| > 0
    ensures k < |s|
    ensures forall j :: 0 <= j < |s| ==> s[j] <= s[k]
    ensures forall j :: 0 <= j < k ==> s[j] < s[k]
  {
    if |s| == 1 then 0
    else
      var k := ArgMax(s[..|s| - 1]);
      if s[|s| - 1] > s[k] then |s| - 1 else k
  }

  function RewardMeans(results: seq<EpochResult>): (erms: seq<int>)
    ensures |erms| == |results|
    ensures forall i :: 0 <= i < |results| ==> erms[i] == results[i].episodeRewardMean
  {
    seq(|results|, i requires 0 <= i < |results| => results[i].episodeRewardMean)
  }

  /** `get_max_erm`: the first epoch with the largest mean reward, and that reward. */
  function GetMaxErm(results: seq<EpochResult>): (r: (nat, int))
    requires |results| > 0
    ensures r.0 < |results| && r.1 == results[r.0].episodeRewardMean
    ensures forall j :: 0 <= j < |results| ==> results[j].episodeRewardMean <= r.1
    ensures forall j :: 0 <= j < r.0 ==> results[j].episodeRewardMean < r.1
  {
    var erms := RewardMeans(results);
    var index := ArgMax(erms);
    (index, results[index].episodeRewardMean)
  }

  /** `routes_len.min()`: the length of a shortest route. */
  function MinLength(routes: seq<Route>): (m: nat)
    requires |routes| > 0
    ensures forall i :: 0 <= i < |routes| ==> m <= |routes[i]|
    ensures exists i :: 0 <= i < |routes| && |routes[i]| == m
  {
    if |routes| == 1 then |routes[0]|
    else
      var m := MinLength(routes[1..]);
      if |routes[0]| <= m then |routes[0]|
      else
        assert forall i :: 1 <= i < |routes| ==> routes[i] == routes[1..][i - 1];
        m
  }

  /** The list comprehension of `get_min_length_routes`: the routes of length `m`, in input order. */
  function RoutesOfLength(routes: seq<Route>, m: nat): (r: seq<Route>)
    ensures forall x :: x in r <==> x in routes && |x| == m
  {
    if |routes| == 0 then []
    else
      var rest := RoutesOfLength(routes[1..], m);
      if |routes[0]| == m then [routes[0]] + rest else rest
  }

  /** The set conversion of `get_min_length_routes`: duplicates dropped, first occurrences kept. */
  function Dedup(s: seq<Route>): (r: seq<Route>)
    ensures Distinct(r)
    ensures forall x :: x in r <==> x in s
  {
    if |s| == 0 then []
    else
      var d := Dedup(s[..|s| - 1]);
      assert forall x :: x in s <==> x in s[..|s| - 1] || x == s[|s| - 1];
      if s[|s| - 1] in d then d else d + [s[|s| - 1]]
  }

  /** `get_min_length_routes`: every shortest input route exactly once. */
  function GetMinLengthRoutes(routes: seq<Route>): (r: seq<Route>)
    requires |routes| > 0
    ensures |r| > 0 && Distinct(r)
    ensures forall x :: x in r ==> x in routes && |x| == MinLength(routes)
    ensures forall i :: 0 <= i < |routes| && |routes[i]| == MinLength(routes) ==> routes[i] in r
  {
    var m := MinLength(routes);
    var i :| 0 <= i < |routes| && |routes[i]| == m;
    assert routes[i] in RoutesOfLength(routes, m);
    Dedup(RoutesOfLength(routes, m))
  }

  /** The generator of `get_route_with_max_pr`: how many positions of `route` hold a preferred
      road (a road that occurs twice counts twice). */
  function PreferredCount(route: Route, preferred: set<Road>): (n: nat)
    ensures n <= |route|
  {
    if |route| == 0 then 0
    else PreferredCount(route[..|route| - 1], preferred) + (if route[|route| - 1] in preferred then 1 else 0)
  }

  /** Counting is additive over concatenation. */
  lemma {:induction false} PreferredCountAppend(a: Route, b: Route, preferred: set<Road>)
    ensures PreferredCount(a + b, preferred) == PreferredCount(a, preferred) + PreferredCount(b, preferred)
    decreases |b|
  {
    if |b| > 0 {
      assert (a + b)[..|a + b| - 1] == a + b[..|b| - 1];
      PreferredCountAppend(a, b[..|b| - 1], preferred);
    } else {
      assert a + b == a;
    }
  }

  /** A route counts all its positions exactly when every road on it is preferred. */
  lemma {:induction false} PreferredCountFull(route: Route, preferred: set<Road>)
    ensures PreferredCount(route, preferred) == |route| <==> forall i :: 0 <= i < |route| ==> route[i] in preferred
    decreases |route|
  {
    if |route| > 0 {
      var init := route[..|route| - 1];
      PreferredCountFull(init, preferred);
      assert forall i :: 0 <= i < |init| ==> init[i] == route[i];
    }
  }

  function PreferredCounts(routes: seq<Route>, preferred: set<Road>): (counts: seq<int>)
    ensures |counts| == |routes|
    ensures forall i :: 0 <= i < |routes| ==> counts[i] == PreferredCount(routes[i], preferred)
  {
    seq(|routes|, i requires 0 <= i < |routes| => PreferredCount(routes[i], preferred))
  }

  /** `get_route_with_max_pr`: the first route with the most preferred-road occurrences. */
  function GetRouteWithMaxPr(routes: seq<Route>, preferred: set<Road>): (r: Route)
    requires |routes| > 0
    ensures forall j :: 0 <= j < |routes| ==> PreferredCount(routes[j], preferred) <= PreferredCount(r, preferred)
    ensures exists k :: 0 <= k < |routes| && routes[k] == r &&
                        forall j :: 0 <= j < k ==> PreferredCount(routes[j], preferred) < PreferredCount(r, preferred)
  {
    var counts := PreferredCounts(routes, preferred);
    var index := ArgMax(counts);
    routes[index]
  }

  /** `format_seconds`: minutes and seconds, each formatted with "02d", joined by ':'. */
  function FormatSeconds(seconds: int): string {
    PadTwo(seconds / 60) + ":" + PadTwo(seconds % 60)
  }

  /** For a non-negative count the result reads MM:SS: at least two minute digits, exactly two
      second digits below 60, and together they give back `seconds`; the minutes take exactly two
      characters below 100 minutes and have no leading zero when they take more. */
  lemma FormatSecondsRoundTrip(seconds: int)
    requires seconds >= 0
    ensures var r := FormatSeconds(seconds); var n := |r|;
      n >= 5 && r[n - 3] == ':' && AllDigits(r[..n - 3]) && AllDigits(r[n - 2..]) &&
      DigitsValue(r[n - 2..]) < 60 &&
      60 * DigitsValue(r[..n - 3]) + DigitsValue(r[n - 2..]) == seconds &&
      (seconds < 6000 <==> n == 5) && (n > 5 ==> r[0] != '0')
  {
    var mm, ss := PadTwo(seconds / 60), PadTwo(seconds % 60);
    PadTwoNonNegative(seconds / 60);
    PadTwoNonNegative(seconds % 60);
    var r := FormatSeconds(seconds);
    assert r == mm + ":" + ss;
    assert r[..|r| - 3] == mm;
    assert r[|r| - 2..] == ss;
  }
}
