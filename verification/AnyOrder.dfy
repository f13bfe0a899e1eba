/** Dependencies merged one at a time in any order: the same end, in a bounded
    number of raises. */
module AnyOrder {
  import opened Basics
  import opened Availability
  import opened Impact
  import opened Rounds
  import opened ImpactTheorems

  ghost predicate Picks(g: Estate, picks: seq<nat>) { forall k :: 0 <= k < |picks| ==> picks[k] < |g.deps| }

  /** Each picked dependency merged into the statuses as they then stand. */
  ghost function Merged(g: Estate, base: Statuses, picks: seq<nat>): (r: Run)
    requires Proper(g, base) && Picks(g, picks)
    ensures Proper(g, r.st) && Below(base, r.st)
  {
    hide EdgeStep, Effect;
    if picks == [] then Run(base, map[], map[])
    else
      var s := Merged(g, base, picks[..|picks| - 1]);
      EdgeStep(g, picks[|picks| - 1], s, s.st)
  }

  /** How many of the picks changed a status. */
  ghost function Raises(g: Estate, base: Statuses, picks: seq<nat>): nat
    requires Proper(g, base) && Picks(g, picks)
  {
    if picks == [] then 0
    else
      Raises(g, base, picks[..|picks| - 1])
      + if Merged(g, base, picks).st != Merged(g, base, picks[..|picks| - 1]).st then 1 else 0
  }

  ghost function Damage(st: Statuses): nat { |Bad(st)| + |Downs(st)| }

  lemma DamageGrows(g: Estate, a: Statuses, b: Statuses)
    requires Proper(g, a) && Proper(g, b) && Below(a, b)
    ensures Damage(a) <= Damage(b) <= 2 * |g.services| && (a != b ==> Damage(a) < Damage(b))
  {
    hide Proper, Below, Bad, Downs;
    BadGrows(g, a, b);
    BadGrows(g, b, b);
    DownsGrow(a, b);
    SubsetCount(Bad(a), Bad(b));
    SubsetCount(Downs(a), Downs(b));
    SubsetCount(Downs(b), Bad(b));
  }

  lemma {:induction false} RaisesAreDamage(g: Estate, base: Statuses, picks: seq<nat>)
    requires Proper(g, base) && Picks(g, picks)
    ensures Damage(base) + Raises(g, base, picks) <= Damage(Merged(g, base, picks).st)
  {
    hide Proper, Below, Damage, EdgeStep;
    if picks != [] {
      var init := picks[..|picks| - 1];
      RaisesAreDamage(g, base, init);
      DamageGrows(g, Merged(g, base, init).st, Merged(g, base, picks).st);
    }
  }

  /** However long the run, statuses change at most twice per service. */
  lemma RaisesBounded(g: Estate, base: Statuses, picks: seq<nat>)
    requires Proper(g, base) && Picks(g, picks)
    ensures Raises(g, base, picks) <= 2 * |g.services|
  {
    hide Proper, Below, Damage, Merged, Raises;
    RaisesAreDamage(g, base, picks);
    DamageGrows(g, base, Merged(g, base, picks).st);
  }

  lemma {:induction false} MergedWithin(g: Estate, base: Statuses, picks: seq<nat>, t: Statuses)
    requires Proper(g, base) && Picks(g, picks) && Proper(g, t) && Stable(g, t) && Below(base, t)
    ensures Below(Merged(g, base, picks).st, t)
  {
    hide Proper, Below, EdgeStep, StableAt;
    if picks != [] {
      var init, last := picks[..|picks| - 1], picks[|picks| - 1];
      MergedWithin(g, base, init, t);
      var s := Merged(g, base, init);
      assert StableAt(g, t, last);
      StepWithin(g, last, s, s.st, t);
    }
  }

  /** Whatever the order, a run has nothing left to change exactly when it stands
      where the rounds end -- and, with at most twenty services, where the report
      stands. */
  lemma AnyOrderSameEnd(g: Estate, base: Statuses, picks: seq<nat>)
    requires Proper(g, base) && Picks(g, picks)
    ensures Stable(g, Merged(g, base, picks).st) <==> Merged(g, base, picks).st == After(g, base, |g.services|).st
    ensures |g.services| <= MAX_ITERATIONS ==> Report(g, base).st == After(g, base, |g.services|).st
  {
    hide Proper, Below, Merged, After, Stable, Report;
    SettledAfterServices(g, base, |g.services|);
    if |g.services| <= MAX_ITERATIONS {
      SettledAfterServices(g, base, MAX_ITERATIONS);
      ReportIs(g, base);
      LeastUnique(g, base, Report(g, base).st, After(g, base, |g.services|).st);
    }
    var st := Merged(g, base, picks).st;
    if Stable(g, st) {
      forall t | Proper(g, t) && Stable(g, t) && Below(base, t) ensures Below(st, t) { MergedWithin(g, base, picks, t); }
      LeastUnique(g, base, st, After(g, base, |g.services|).st);
    }
  }

  /** g and h list the same dependencies, in whatever order and however often. */
  ghost predicate SameDependencies(g: Estate, h: Estate) {
    && h == g.(deps := h.deps)
    && forall d :: d in g.deps <==> d in h.deps
  }

  lemma SameEffect(g: Estate, h: Estate, d: Dependency, st: Statuses)
    requires h == g.(deps := h.deps)
    ensures Effect(g, d, st, st) == Effect(h, d, st, st)
  {
    hide PoolStatus, ApplyReach, Propagate;
    if d.provider.ViaRoute? && d.provider.route in g.routes { SamePool(g, h, d.provider.route, st); }
  }

  lemma SameStable(g: Estate, h: Estate, st: Statuses)
    requires SameDependencies(g, h) && Proper(g, st) && Stable(g, st)
    ensures Proper(h, st) && Stable(h, st)
  {
    hide Effect;
    forall i | 0 <= i < |h.deps| ensures StableAt(h, st, i) {
      var d := h.deps[i];
      assert d in g.deps;
      var j :| 0 <= j < |g.deps| && g.deps[j] == d;
      assert StableAt(g, st, j);
      SameEffect(g, h, d, st);
    }
  }

  /** Once settled, statuses do not depend on how the dependencies are listed. */
  lemma ListOrderIrrelevant(g: Estate, h: Estate, base: Statuses, r: nat)
    requires SameDependencies(g, h) && Proper(g, base) && r >= |g.services|
    ensures Proper(h, base) && After(g, base, r).st == After(h, base, r).st
  {
    hide Below, After, Stable;
    SettledAfterServices(g, base, r);
    SettledAfterServices(h, base, r);
    var a, b := After(g, base, r).st, After(h, base, r).st;
    SameStable(g, h, a);
    SameStable(h, g, b);
    SameRankSame(g, a, b);
  }

  /** No estate of n services has its reported statuses changed by listing the
      same dependencies otherwise. */
  ghost predicate ReportIgnoresOrder(n: nat) {
    forall g: Estate, h: Estate, base: Statuses ::
      |g.services| == n && SameDependencies(g, h) && Proper(g, base) ==> Proper(h, base) && Report(g, base).st == Report(h, base).st
  }

  /** The chain listed near end first. */
  function NearChain(n: nat): Estate
    requires n > 0
  {
    Chain(n).(deps := seq(n, j requires 0 <= j < n =>
      if j == 0 then Dependency(0, ViaEndpoint(n - 1), Hard, None, false, ReachDown)
      else Dependency(j, ViaEndpoint(j - 1), Hard, None, false, ReachUnknown)))
  }

  lemma NearSame(n: nat)
    requires n > 0
    ensures SameDependencies(Chain(n), NearChain(n))
  {
    hide UpTo;
    var g, h := Chain(n), NearChain(n);
    forall d | d in g.deps ensures d in h.deps {
      var j :| 0 <= j < n && g.deps[j] == d;
      assert h.deps[if j == n - 1 then 0 else n - 1 - j] == d;
    }
    forall d | d in h.deps ensures d in g.deps {
      var j :| 0 <= j < n && h.deps[j] == d;
      assert g.deps[if j == 0 then n - 1 else n - 1 - j] == d;
    }
  }

  lemma NearStep(n: nat, k: nat, s: Run, start: Statuses)
    requires k < n && s.st == FirstDown(n, k, 0) && start == FirstDown(n, 0, 0)
    ensures Proper(NearChain(n), s.st) && Proper(NearChain(n), start) && |NearChain(n).deps| == n
    ensures EdgeStep(NearChain(n), k, s, start).st == FirstDown(n, k + 1, 0)
  {
    hide UpTo, Below;
    ChainShape(n, k, 0);
    ChainShape(n, 0, 0);
    var g := NearChain(n);
    var d := g.deps[k];
    assert d == if k == 0 then Dependency(0, ViaEndpoint(n - 1), Hard, None, false, ReachDown)
                else Dependency(k, ViaEndpoint(k - 1), Hard, None, false, ReachUnknown);
    var e := d.provider.endpoint;
    assert g.endpoints[e] == e && e in g.services && d.consumer in g.services;
    assert k > 0 ==> Lookup(s.st, e) == Down;
    assert Effect(g, d, s.st, start) == Some(Propagation(Down, false));
    hide Effect, NearChain;
    StepMerges(g, k, s, start);
    OneMoreDown(n, k);
  }

  lemma OneMoreDown(n: nat, k: nat)
    requires k < n
    ensures var st := FirstDown(n, k, 0); k in st && st[k := st[k].Worse(Down)] == FirstDown(n, k + 1, 0)
  {
    hide UpTo;
  }

  lemma {:induction false} NearRound(n: nat, s: Run, k: nat)
    requires n > 0 && k <= n && s.st == FirstDown(n, 0, 0)
    ensures Proper(NearChain(n), s.st) && |NearChain(n).deps| == n && RoundUpTo(NearChain(n), s, k).st == FirstDown(n, k, 0)
  {
    hide *;
    NearStep(n, 0, s, s.st);
    if k == 0 {
      RoundNone(NearChain(n), s);
    } else {
      NearRound(n, s, k - 1);
      NearStep(n, k - 1, RoundUpTo(NearChain(n), s, k - 1), s.st);
      RoundStep(NearChain(n), s, k - 1);
    }
  }

  /** Listed near end first, the whole chain is down after one round and stays so. */
  lemma NearSettles(n: nat)
    requires n > MAX_ITERATIONS
    ensures Proper(NearChain(n), FirstDown(n, 0, 0))
    ensures var st := Report(NearChain(n), FirstDown(n, 0, 0)).st; MAX_ITERATIONS in st && st[MAX_ITERATIONS] == Down
  {
    hide UpTo, Proper, RoundUpTo, After, Report, NearChain;
    var g, base := NearChain(n), FirstDown(n, 0, 0);
    NearRound(n, Run(base, map[], map[]), n);
    RunNone(g, base);
    AfterStep(g, base, 0);
    ReportIs(g, base);
    AfterGrows(g, base, 1, MAX_ITERATIONS);
    assert MAX_ITERATIONS in FirstDown(n, n, 0);
  }

  /** The order in which dependencies are listed never matters to the report of an
      estate of n services exactly when n is at most twenty. */
  lemma ReportIgnoresOrderIff(n: nat)
    ensures ReportIgnoresOrder(n) <==> n <= 20
  {
    hide Below, After, Stable, Effect, Proper, Report, SameDependencies, Chain, NearChain, FirstDown;
    if n <= MAX_ITERATIONS {
      forall g: Estate, h: Estate, base: Statuses | |g.services| == n && SameDependencies(g, h) && Proper(g, base)
        ensures Proper(h, base) && Report(g, base).st == Report(h, base).st
      {
        ListOrderIrrelevant(g, h, base, MAX_ITERATIONS);
        ReportIs(g, base);
        ReportIs(h, base);
      }
    } else {
      ChainOutrunsCap(n);
      NearSame(n);
      NearSettles(n);
      assert Report(Chain(n), FirstDown(n, 0, 0)).st != Report(NearChain(n), FirstDown(n, 0, 0)).st;
    }
  }
}
