/** Which decode ranks a prefill rank sends to, for any two tensor-parallel sizes. */
module RankMap {
  import opened Arith
  import opened Completion

  /** A target worker: its id within the instance and its tensor-parallel rank. */
  datatype Worker = Worker(id: nat, rank: nat)

  predicate Divides(p: nat, d: nat)
    requires p > 0 && d > 0
  {
    if p >= d then p % d == 0 else d % p == 0
  }

  /** Targets of prefill rank r of p, in data-parallel replica dp of an instance with d ranks. */
  function Dist(r: nat, p: nat, d: nat, dp: nat): (ts: seq<Worker>)
    requires p > 0 && d > 0 && r < p
    ensures forall i :: 0 <= i < |ts| ==> ts[i].rank < d && ts[i].id == Times(dp, d) + ts[i].rank
  {
    var base := Times(dp, d);
    if d == p then [Worker(base + r, r)]
    else if p > d then
      QuotientPositive(p, d);
      var n := p / d;
      if Times(d, n) != p then []
      else
        BelowGroup(r, d, n);
        [Worker(base + r / n, r / n)]
    else
      var n := d / p;
      if Times(p, n) != d then []
      else
        GroupBelow(r, p, n);
        Neighbours(base, Times(r, n), n)
  }

  /** The workers of n consecutive ranks. */
  function Neighbours(base: nat, first: nat, n: nat): (ts: seq<Worker>)
    ensures |ts| == n && forall j :: 0 <= j < n ==> ts[j] == Worker(base + first + j, first + j)
  {
    seq(n, j requires 0 <= j < n => Worker(base + first + j, first + j))
  }

  lemma QuotientPositive(p: nat, d: nat)
    requires 0 < d <= p
    ensures p / d > 0
  {
    assert p == p / d * d + p % d;
  }

  lemma BelowGroup(r: nat, d: nat, n: nat)
    requires r < Times(d, n) && n > 0
    ensures r / n < d
  {
    assert r == r / n * n + r % n;
    if r / n >= d { MulMono(d, r / n, n); }
  }

  /** r lies in group t of size n. */
  lemma InGroup(r: nat, n: nat, t: nat)
    requires n > 0
    ensures r / n == t <==> Times(t, n) <= r < Times(t, n) + n
  {
    if t * n <= r < t * n + n {
      DivMod(t, n, r - t * n);
    } else {
      assert r == r / n * n + r % n;
    }
  }

  lemma GroupBelow(r: nat, p: nat, n: nat)
    requires r < p
    ensures Times(r, n) + n <= Times(p, n)
  {
    MulMono(r + 1, p, n);
  }

  /** Signals awaited from each prefill rank. */
  function SignalsPerWorker(p: nat, d: nat): nat
    requires p > 0
  {
    if d > p && d % p == 0 then d / p else 1
  }

  /** Prefill rank r sends to decode rank t of replica dp. */
  predicate SendsTo(r: nat, p: nat, d: nat, dp: nat, t: nat)
    requires p > 0 && d > 0 && r < p
  {
    exists i :: 0 <= i < |Dist(r, p, d, dp)| && Dist(r, p, d, dp)[i] == Worker(Times(dp, d) + t, t)
  }

  lemma ExactGroups(p: nat, d: nat)
    requires 0 < d <= p
    ensures Times(d, p / d) == p <==> p % d == 0
    ensures p / d > 0
  {
    assert p == p / d * d + p % d;
    assert p / d * d == d * (p / d);
  }

  lemma DownTo(r: nat, p: nat, d: nat, dp: nat, n: nat)
    requires 0 < d <= p && r < p && n > 0 && n == p / d && Times(d, n) == p
    ensures Dist(r, p, d, dp) == [Worker(Times(dp, d) + r / n, r / n)]
  {
    hide Times;
    if p == d {
      Same(r, p, d, n);
    }
  }

  lemma Same(r: nat, p: nat, d: nat, n: nat)
    requires p == d > 0 && n == p / d
    ensures n == 1 && r / n == r
  {
  }

  lemma UpTo(r: nat, p: nat, d: nat, dp: nat, n: nat)
    requires 0 < p < d && r < p && n > 0 && n == d / p && Times(p, n) == d
    ensures |Dist(r, p, d, dp)| == n
    ensures forall i :: 0 <= i < n ==> Dist(r, p, d, dp)[i] == Worker(Times(dp, d) + Times(r, n) + i, Times(r, n) + i)
  {
  }

  lemma SendsDown(r: nat, p: nat, d: nat, dp: nat, n: nat, t: nat)
    requires 0 < d <= p && r < p && n > 0 && n == p / d && Times(d, n) == p
    ensures SendsTo(r, p, d, dp, t) <==> t == r / n
  {
    hide Dist, Times;
    DownTo(r, p, d, dp, n);
    assert Dist(r, p, d, dp)[0] == Worker(Times(dp, d) + r / n, r / n);
  }

  lemma SendsUp(r: nat, p: nat, d: nat, dp: nat, n: nat, t: nat)
    requires 0 < p < d && r < p && n > 0 && n == d / p && Times(p, n) == d
    ensures SendsTo(r, p, d, dp, t) <==> r == t / n
  {
    hide Dist, Times;
    UpTo(r, p, d, dp, n);
    InGroup(t, n, r);
    if r == t / n {
      var i := t - Times(r, n);
      assert Dist(r, p, d, dp)[i] == Worker(Times(dp, d) + t, t);
    }
  }

  /** The equations between the ranks of a pair that the parsers rely on, in every replica. */
  lemma RankEquations(r: nat, p: nat, d: nat, dp: nat, t: nat)
    requires p > 0 && d > 0 && r < p && t < d && Divides(p, d)
    ensures p / d > 0 || d / p > 0
    ensures p >= d ==> p / d > 0 && (SendsTo(r, p, d, dp, t) <==> t == r / (p / d))
    ensures p < d ==> d / p > 0 && (SendsTo(r, p, d, dp, t) <==> r == t / (d / p))
  {
    hide Dist, Times, SendsTo;
    if p >= d {
      ExactGroups(p, d);
      SendsDown(r, p, d, dp, p / d, t);
    } else {
      ExactGroups(d, p);
      SendsUp(r, p, d, dp, d / p, t);
    }
  }

  /** How many of the first k prefill ranks send to decode rank t. */
  function Hits(k: nat, p: nat, d: nat, dp: nat, t: nat): nat
    requires p > 0 && d > 0 && k <= p
  {
    if k == 0 then 0 else Hits(k - 1, p, d, dp, t) + if SendsTo(k - 1, p, d, dp, t) then 1 else 0
  }

  lemma {:induction false} HitsWide(k: nat, p: nat, d: nat, dp: nat, t: nat, n: nat)
    requires 0 < d <= p && k <= p && t < d && p % d == 0 && n == p / d
    ensures Hits(k, p, d, dp, t) == if k <= t * n then 0 else if k <= t * n + n then k - t * n else n
  {
    hide SendsTo;
    ExactGroups(p, d);
    if k > 0 {
      HitsWide(k - 1, p, d, dp, t, n);
      RankEquations(k - 1, p, d, dp, t);
      InGroup(k - 1, n, t);
    }
  }

  lemma {:induction false} HitsNarrow(k: nat, p: nat, d: nat, dp: nat, t: nat, n: nat)
    requires 0 < p < d && k <= p && t < d && d % p == 0 && n == d / p && n > 0
    ensures Hits(k, p, d, dp, t) == if k <= t / n then 0 else 1
  {
    hide SendsTo;
    if k > 0 {
      HitsNarrow(k - 1, p, d, dp, t, n);
      RankEquations(k - 1, p, d, dp, t);
    }
  }

  /** Over all prefill ranks every decode rank is hit, exactly p / d times when there are more
      prefill ranks and exactly once otherwise. */
  lemma Balanced(p: nat, d: nat, dp: nat, t: nat)
    requires p > 0 && d > 0 && t < d && Divides(p, d)
    ensures Hits(p, p, d, dp, t) == if p >= d then p / d else 1
  {
    hide Hits;
    if p >= d {
      var n := p / d;
      ExactGroups(p, d);
      HitsWide(p, p, d, dp, t, n);
      assert t * n + n <= p by { GroupBelow(t, d, n); }
    } else {
      var n := d / p;
      ExactGroups(d, p);
      HitsNarrow(p, p, d, dp, t, n);
      assert t / n < p by { BelowGroup(t, p, n); }
    }
  }

  /** A prefill rank awaits as many signals as it has targets exactly when the sizes divide. */
  lemma FanOut(r: nat, p: nat, d: nat, dp: nat)
    requires p > 0 && d > 0 && r < p
    ensures |Dist(r, p, d, dp)| == SignalsPerWorker(p, d) <==> Divides(p, d)
  {
    if p >= d { ExactGroups(p, d); } else { ExactGroups(d, p); }
  }

  ghost function Interval(lo: nat, n: nat): (s: set<nat>)
    ensures |s| == n && forall i :: i in s <==> lo <= i < lo + n
  {
    if n == 0 then {} else Interval(lo, n - 1) + {lo + n - 1}
  }

  ghost function Elements(xs: seq<nat>): (s: set<nat>)
    requires forall i, j :: 0 <= i < j < |xs| ==> xs[i] != xs[j]
    ensures |s| == |xs| && forall x :: x in s <==> x in xs
  {
    if xs == [] then {}
    else
      assert xs == xs[..|xs| - 1] + [xs[|xs| - 1]];
      Elements(xs[..|xs| - 1]) + {xs[|xs| - 1]}
  }

  /** n distinct numbers of an interval of size n are all of it. */
  lemma Pigeonhole(xs: seq<nat>, lo: nat, n: nat, x: nat)
    requires |xs| >= n && lo <= x < lo + n
    requires forall i :: 0 <= i < |xs| ==> lo <= xs[i] < lo + n
    requires forall i, j :: 0 <= i < j < |xs| ==> xs[i] != xs[j]
    ensures x in xs
  {
    assert Elements(xs) <= Interval(lo, n);
    SubsetSize(Elements(xs), Interval(lo, n));
    assert x in Interval(lo, n);
  }

  /** Once a prefill rank has delivered all signals it awaits, one per distinct target, every
      decode rank it sends to has reported. */
  lemma EveryPairReported(r: nat, p: nat, d: nat, dp: nat, t: nat, reports: seq<nat>)
    requires p > 0 && d > 0 && r < p && t < d && Divides(p, d) && SendsTo(r, p, d, dp, t)
    requires |reports| >= SignalsPerWorker(p, d)
    requires forall i :: 0 <= i < |reports| ==> reports[i] < d && SendsTo(r, p, d, dp, reports[i])
    requires forall i, j :: 0 <= i < j < |reports| ==> reports[i] != reports[j]
    ensures t in reports
  {
    hide SendsTo;
    RankEquations(r, p, d, dp, t);
    forall i | 0 <= i < |reports| ensures if p >= d then reports[i] == t else r * (d / p) <= reports[i] < r * (d / p) + d / p {
      RankEquations(r, p, d, dp, reports[i]);
      if p < d { InGroup(reports[i], d / p, r); }
    }
    if p >= d {
      assert reports[0] == t;
    } else {
      InGroup(t, d / p, r);
      Pigeonhole(reports, r * (d / p), d / p, t);
    }
  }

  /** Signals that prefill rank r delivers for a request: one per target, or, when the sizes do not
      divide and there is no target, one that reports the failure. */
  function SignalsSent(r: nat, p: nat, d: nat, dp: nat): nat
    requires p > 0 && d > 0 && r < p
  {
    if Dist(r, p, d, dp) == [] then 1 else |Dist(r, p, d, dp)|
  }

  /** For any two sizes a rank delivers exactly the signals that are awaited from it; it has
      targets if and only if the sizes divide. */
  lemma AwaitedIsSent(r: nat, p: nat, d: nat, dp: nat)
    requires p > 0 && d > 0 && r < p
    ensures SignalsSent(r, p, d, dp) == SignalsPerWorker(p, d)
    ensures Dist(r, p, d, dp) != [] <==> Divides(p, d)
  {
    if p >= d { ExactGroups(p, d); } else { ExactGroups(d, p); }
  }

  /** Three ranks cannot feed two: nobody is sent to, and one failure is awaited from each. */
  lemma ThreeToTwo(r: nat)
    requires r < 3
    ensures Dist(r, 3, 2, 0) == [] && SignalsPerWorker(3, 2) == 1 == SignalsSent(r, 3, 2, 0)
  {
  }

  /** When the request is complete, every pair of a prefill and a decode rank that are linked has
      reported. `target` tells which decode rank a signal is about: each signal of a rank is about
      one of its targets, and no two about the same. */
  lemma CompleteMeansEveryPair(m: Signals, p: nat, d: nat, dp: nat, target: (nat, nat) -> nat, r: nat, t: nat)
    requires p > 0 && d > 0 && Divides(p, d) && Complete(Rule(SignalsPerWorker(p, d), []), m, p)
    requires forall k: nat, i: nat :: k < p && i < |Of(m, k)| ==> target(k, i) < d && SendsTo(k, p, d, dp, target(k, i))
    requires forall k: nat, i: nat, j: nat :: k < p && i < j < |Of(m, k)| ==> target(k, i) != target(k, j)
    requires r < p && t < d && SendsTo(r, p, d, dp, t)
    ensures exists i: nat :: i < |Of(m, r)| && target(r, i) == t
  {
    hide SendsTo;
    var n := |Of(m, r)|;
    var reports := seq(n, i requires 0 <= i < n => target(r, i));
    assert Ready(Rule(SignalsPerWorker(p, d), []), Of(m, r));
    EveryPairReported(r, p, d, dp, t, reports);
    var i :| 0 <= i < |reports| && reports[i] == t;
    assert target(r, i) == t;
  }
}
