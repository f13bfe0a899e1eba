/** The fixed point: what the propagation rounds converge to, how many of them
    it takes, and when the cap on them cuts the answer short. */
module Rounds {
  import opened Basics
  import opened Availability
  import opened Impact

  const MAX_ITERATIONS: nat := 20

  /** Statuses so far; the dependency that last worsened each service; and the
      first startup dependency found unmet for each. */
  datatype Run = Run(st: Statuses, via: map<nat, nat>, wont: map<nat, nat>)

  // ---- rounds as functions

  ghost function EdgeStep(g: Estate, i: nat, s: Run, start: Statuses): (r: Run)
    requires i < |g.deps| && Proper(g, s.st) && Proper(g, start)
    ensures Proper(g, r.st) && Below(s.st, r.st)
  {
    var d := g.deps[i];
    var e := Effect(g, d, s.st, start);
    EffectMonotone(g, g, d, s.st, start, s.st, start);
    if e.None? then s
    else
      var wont := if e.value.wontRestart && d.consumer !in s.wont then s.wont[d.consumer := i] else s.wont;
      var merged := s.st[d.consumer].Worse(e.value.status);
      if merged == s.st[d.consumer] then s.(wont := wont)
      else Run(s.st[d.consumer := merged], s.via[d.consumer := i], wont)
  }

  ghost function RoundUpTo(g: Estate, s: Run, k: nat): (r: Run)
    requires k <= |g.deps| && Proper(g, s.st)
    ensures Proper(g, r.st) && Below(s.st, r.st)
  {
    hide EdgeStep, Effect;
    if k == 0 then s else EdgeStep(g, k - 1, RoundUpTo(g, s, k - 1), s.st)
  }

  ghost function After(g: Estate, base: Statuses, rounds: nat): (r: Run)
    requires Proper(g, base)
    ensures Proper(g, r.st) && Below(base, r.st)
  {
    hide RoundUpTo;
    if rounds == 0 then Run(base, map[], map[]) else RoundUpTo(g, After(g, base, rounds - 1), |g.deps|)
  }

  /** A step merges its effect into its consumer, and does nothing else to statuses. */
  lemma StepMerges(g: Estate, i: nat, s: Run, start: Statuses)
    requires i < |g.deps| && Proper(g, s.st) && Proper(g, start)
    ensures var d := g.deps[i]; var e := Effect(g, d, s.st, start);
            && (e.Some? ==> d.consumer in s.st)
            && EdgeStep(g, i, s, start).st == if e.None? then s.st else s.st[d.consumer := s.st[d.consumer].Worse(e.value.status)]
  {
    hide Below;
    EffectOfConsumer(g, g.deps[i], s.st, start);
    hide Effect;
  }

  lemma EffectOfConsumer(g: Estate, d: Dependency, st: Statuses, start: Statuses)
    ensures Effect(g, d, st, start).Some? ==> d.consumer in g.services
  {
  }

  // ---- stable statuses

  ghost predicate StableAt(g: Estate, st: Statuses, i: nat)
    requires i < |g.deps| && Proper(g, st)
  {
    var e := Effect(g, g.deps[i], st, st);
    e.Some? ==> e.value.status.Rank() <= st[g.deps[i].consumer].Rank()
  }

  /** No dependency would worsen any service. */
  ghost predicate Stable(g: Estate, st: Statuses)
    requires Proper(g, st)
  {
    forall i :: 0 <= i < |g.deps| ==> StableAt(g, st, i)
  }

  /** The least stable statuses at least as bad as base: a meaning that knows
      nothing of edge order or rounds. */
  ghost predicate Least(g: Estate, base: Statuses, st: Statuses) {
    && Proper(g, st) && Below(base, st) && Stable(g, st)
    && forall t :: Proper(g, t) && Stable(g, t) && Below(base, t) ==> Below(st, t)
  }

  lemma SameRankSame(g: Estate, a: Statuses, b: Statuses)
    requires Proper(g, a) && Proper(g, b) && Below(a, b) && Below(b, a)
    ensures a == b
  {
    forall s | s in a ensures a[s] == b[s] {}
  }

  /** There is only one. */
  lemma LeastUnique(g: Estate, base: Statuses, a: Statuses, b: Statuses)
    requires Least(g, base, a) && Least(g, base, b)
    ensures a == b
  {
    SameRankSame(g, a, b);
  }

  lemma {:induction false} RoundWithin(g: Estate, s: Run, t: Statuses, k: nat)
    requires k <= |g.deps| && Proper(g, s.st) && Proper(g, t) && Stable(g, t) && Below(s.st, t)
    ensures Below(RoundUpTo(g, s, k).st, t)
  {
    hide Effect, Proper, Below;
    if k > 0 {
      RoundWithin(g, s, t, k - 1);
      StepWithin(g, k - 1, RoundUpTo(g, s, k - 1), s.st, t);
    }
  }

  /** No step leaves the stable statuses above it. */
  lemma StepWithin(g: Estate, i: nat, s: Run, start: Statuses, t: Statuses)
    requires i < |g.deps| && Proper(g, s.st) && Proper(g, start) && Proper(g, t)
    requires StableAt(g, t, i) && Below(s.st, t) && Below(start, t)
    ensures Below(EdgeStep(g, i, s, start).st, t)
  {
    hide Effect;
    var e := Effect(g, g.deps[i], s.st, start);
    EffectMonotone(g, g, g.deps[i], s.st, start, t, t);
    EffectConsumer(g, g.deps[i], t);
    if e.Some? { Raised(s.st, t, g.deps[i].consumer, e.value.status); }
  }

  lemma Raised(a: Statuses, t: Statuses, c: nat, x: Status)
    requires Below(a, t) && c in t && x.Rank() <= t[c].Rank()
    ensures Below(a, t) && c in a && Below(a[c := a[c].Worse(x)], t)
  {
  }

  lemma {:induction false} AfterWithin(g: Estate, base: Statuses, t: Statuses, rounds: nat)
    requires Proper(g, base) && Proper(g, t) && Stable(g, t) && Below(base, t)
    ensures Below(After(g, base, rounds).st, t)
  {
    hide RoundUpTo, Proper, Below, Stable;
    if rounds > 0 {
      AfterWithin(g, base, t, rounds - 1);
      RoundWithin(g, After(g, base, rounds - 1), t, |g.deps|);
    }
  }

  lemma BelowTransitive(a: Statuses, b: Statuses, c: Statuses)
    requires Below(a, b) && Below(b, c)
    ensures Below(a, c)
  {
  }

  /** Statuses only worsen as a round goes on. */
  lemma {:induction false} RoundGrows(g: Estate, s: Run, k: nat, n: nat)
    requires k <= n <= |g.deps| && Proper(g, s.st)
    ensures Below(RoundUpTo(g, s, k).st, RoundUpTo(g, s, n).st)
  {
    hide Effect, Proper, Below, EdgeStep;
    if k == n {
      BelowReflexive(RoundUpTo(g, s, k).st);
    } else {
      RoundGrows(g, s, k, n - 1);
      BelowTransitive(RoundUpTo(g, s, k).st, RoundUpTo(g, s, n - 1).st, RoundUpTo(g, s, n).st);
    }
  }

  lemma BelowReflexive(a: Statuses)
    ensures Below(a, a)
  {
  }

  /** A round that changes no status leaves every prefix of itself unchanged. */
  lemma QuietPrefix(g: Estate, s: Run, k: nat)
    requires k <= |g.deps| && Proper(g, s.st) && RoundUpTo(g, s, |g.deps|).st == s.st
    ensures RoundUpTo(g, s, k).st == s.st
  {
    hide Proper, Below, EdgeStep, RoundUpTo;
    RoundGrows(g, s, k, |g.deps|);
    SameRankSame(g, RoundUpTo(g, s, k).st, s.st);
  }

  /** A round that changes no status has reached a stable one. */
  lemma QuietIsStable(g: Estate, s: Run)
    requires Proper(g, s.st) && RoundUpTo(g, s, |g.deps|).st == s.st
    ensures Stable(g, s.st)
  {
    hide *;
    forall i | 0 <= i < |g.deps| ensures StableAt(g, s.st, i) { QuietStableAt(g, s, i); }
    AllStable(g, s.st);
  }

  lemma AllStable(g: Estate, st: Statuses)
    requires Proper(g, st) && forall i :: 0 <= i < |g.deps| ==> StableAt(g, st, i)
    ensures Stable(g, st)
  {
    hide StableAt, Proper;
  }

  lemma QuietStableAt(g: Estate, s: Run, i: nat)
    requires i < |g.deps| && Proper(g, s.st) && RoundUpTo(g, s, |g.deps|).st == s.st
    ensures StableAt(g, s.st, i)
  {
    hide *;
    QuietPrefix(g, s, i);
    QuietPrefix(g, s, i + 1);
    RoundStep(g, s, i);
    QuietStep(g, i, RoundUpTo(g, s, i), s.st);
  }

  lemma RoundStep(g: Estate, s: Run, k: nat)
    requires k < |g.deps| && Proper(g, s.st)
    ensures RoundUpTo(g, s, k + 1) == EdgeStep(g, k, RoundUpTo(g, s, k), s.st)
  {
    hide EdgeStep, Proper, Below;
  }

  lemma QuietStep(g: Estate, i: nat, s: Run, start: Statuses)
    requires i < |g.deps| && Proper(g, s.st) && s.st == start && EdgeStep(g, i, s, start).st == start
    ensures StableAt(g, start, i)
  {
    hide Effect;
    var d := g.deps[i];
    EffectMonotone(g, g, d, start, start, start, start);
    EffectConsumer(g, d, start);
  }

  lemma EffectConsumer(g: Estate, d: Dependency, st: Statuses)
    ensures Effect(g, d, st, st).Some? ==> d.consumer in g.services
  {
  }

  /** Once stable, statuses are the least stable ones -- however the edges were
      ordered. */
  lemma StableIsLeast(g: Estate, base: Statuses, rounds: nat)
    requires Proper(g, base) && Stable(g, After(g, base, rounds).st)
    ensures Least(g, base, After(g, base, rounds).st)
  {
    hide Proper, Below, Stable, After;
    forall t | Proper(g, t) && Stable(g, t) && Below(base, t) ensures Below(After(g, base, rounds).st, t) {
      AfterWithin(g, base, t, rounds);
    }
  }

  // ---- how many rounds

  ghost function Downs(st: Statuses): set<nat> { set s | s in st && st[s] == Down }
  ghost function Bad(st: Statuses): set<nat> { set s | s in st && st[s] != OK }

  ghost predicate IsDown(e: Option<Propagation>) { e.Some? && e.value.status == Down }

  /** Whether a dependency takes its consumer down depends on what is down and on
      nothing else. */
  lemma DownFromDowns(g: Estate, d: Dependency, a: Statuses, a0: Statuses, b: Statuses, b0: Statuses)
    requires Proper(g, a) && Proper(g, b) && Proper(g, a0) && Proper(g, b0) && Downs(a) == Downs(b) && Downs(a0) == Downs(b0)
    ensures IsDown(Effect(g, d, a, a0)) <==> IsDown(Effect(g, d, b, b0))
  {
    hide Lookup, RouteStatus, Proper, Downs;
    match d.provider {
      case ViaEndpoint(e) => if e in g.endpoints { LookupDown(g, a, b, g.endpoints[e]); }
      case ViaRoute(r) => if r in g.routes { RouteDown(g, r, a0, b0); }
      case NoProvider =>
    }
  }

  lemma LookupDown(g: Estate, a: Statuses, b: Statuses, id: nat)
    requires Proper(g, a) && Proper(g, b) && Downs(a) == Downs(b)
    ensures Lookup(a, id) == Down <==> Lookup(b, id) == Down
  {
    assert id in Downs(a) <==> id in Downs(b);
  }

  lemma RouteDown(g: Estate, r: nat, a: Statuses, b: Statuses)
    requires r in g.routes && Proper(g, a) && Proper(g, b) && Downs(a) == Downs(b)
    ensures RouteStatus(g, r, a) == Down <==> RouteStatus(g, r, b) == Down
  {
    hide Lookup, Proper, Downs;
    var ms := PoolOf(g, r);
    forall k | 0 <= k < |ms| ensures MemberStatus(g, r, a, ms[k]) == Down <==> MemberStatus(g, r, b, ms[k]) == Down {
      LookupDown(g, a, b, g.endpoints[ms[k]]);
    }
    var e := g.routes[r].frontend;
    if e in g.endpoints { LookupDown(g, a, b, g.endpoints[e]); }
  }

  lemma DownsGrow(a: Statuses, b: Statuses)
    requires Below(a, b)
    ensures Downs(a) <= Downs(b)
  {
  }

  lemma BadGrows(g: Estate, a: Statuses, b: Statuses)
    requires Proper(g, a) && Proper(g, b) && Below(a, b)
    ensures Bad(a) <= Bad(b) && Downs(a) <= Bad(a) && |Bad(a)| <= |g.services|
    ensures a != b && Downs(a) == Downs(b) ==> Bad(a) < Bad(b)
  {
    assert Bad(a) <= g.services;
    SubsetCount(Bad(a), g.services);
    if a != b && Downs(a) == Downs(b) {
      if Bad(a) == Bad(b) {
        forall s | s in a ensures a[s] == b[s] {
          assert s in Downs(a) <==> s in Downs(b);
          assert s in Bad(a) <==> s in Bad(b);
        }
      }
    }
  }

  /** A round that takes nothing more down has settled what is down for good. */
  lemma {:induction false} DownsSettle(g: Estate, s: Run, t: Run, k: nat)
    requires k <= |g.deps| && Proper(g, s.st) && Proper(g, t.st)
    requires t.st == RoundUpTo(g, s, |g.deps|).st && Downs(t.st) == Downs(s.st)
    ensures Downs(RoundUpTo(g, t, k).st) == Downs(s.st)
  {
    hide Effect, Proper, Below, EdgeStep, RoundUpTo, Downs;
    if k == 0 {
      RoundNone(g, t);
    } else {
      DownsSettle(g, s, t, k - 1);
      SettledPrefix(g, s, k - 1);
      SettledPrefix(g, s, k);
      RoundStep(g, s, k - 1);
      RoundStep(g, t, k - 1);
      DownFromDowns(g, g.deps[k - 1], RoundUpTo(g, s, k - 1).st, s.st, RoundUpTo(g, t, k - 1).st, t.st);
      StepDowns(g, k - 1, RoundUpTo(g, s, k - 1), s.st);
      StepDowns(g, k - 1, RoundUpTo(g, t, k - 1), t.st);
    }
  }

  lemma RoundNone(g: Estate, s: Run)
    requires Proper(g, s.st)
    ensures RoundUpTo(g, s, 0) == s
  {
  }

  lemma SettledPrefix(g: Estate, s: Run, k: nat)
    requires k <= |g.deps| && Proper(g, s.st) && Downs(RoundUpTo(g, s, |g.deps|).st) == Downs(s.st)
    ensures Downs(RoundUpTo(g, s, k).st) == Downs(s.st)
  {
    hide Proper, Below, RoundUpTo, Downs;
    RoundGrows(g, s, k, |g.deps|);
    DownsGrow(RoundUpTo(g, s, k).st, RoundUpTo(g, s, |g.deps|).st);
    DownsGrow(s.st, RoundUpTo(g, s, k).st);
  }

  /** One step takes down its consumer or nothing. */
  lemma StepDowns(g: Estate, i: nat, s: Run, start: Statuses)
    requires i < |g.deps| && Proper(g, s.st) && Proper(g, start)
    ensures Downs(EdgeStep(g, i, s, start).st) ==
            Downs(s.st) + if IsDown(Effect(g, g.deps[i], s.st, start)) then {g.deps[i].consumer} else {}
  {
    hide Effect, EdgeStep, Below;
    StepMerges(g, i, s, start);
    var d := g.deps[i];
    var e := Effect(g, d, s.st, start);
    BelowReflexive(s.st);
    BelowReflexive(start);
    EffectMonotone(g, g, d, s.st, start, s.st, start);
  }

  /** Statuses evolve from statuses alone. */
  lemma {:induction false} RoundOfStatuses(g: Estate, s: Run, t: Run, k: nat)
    requires k <= |g.deps| && Proper(g, s.st) && s.st == t.st
    ensures RoundUpTo(g, s, k).st == RoundUpTo(g, t, k).st
  {
    hide Effect, Proper, Below;
    if k > 0 { RoundOfStatuses(g, s, t, k - 1); }
  }

  ghost predicate Quiet(g: Estate, base: Statuses, r: nat)
    requires Proper(g, base)
  {
    After(g, base, r + 1).st == After(g, base, r).st
  }

  lemma AfterStep(g: Estate, base: Statuses, r: nat)
    requires Proper(g, base)
    ensures After(g, base, r + 1) == RoundUpTo(g, After(g, base, r), |g.deps|)
  {
    hide RoundUpTo, Proper, Below;
  }

  lemma QuietPersists(g: Estate, base: Statuses, r: nat)
    requires Proper(g, base) && Quiet(g, base, r)
    ensures Quiet(g, base, r + 1)
  {
    hide RoundUpTo, Proper, Below, After;
    AfterStep(g, base, r);
    AfterStep(g, base, r + 1);
    RoundOfStatuses(g, After(g, base, r), After(g, base, r + 1), |g.deps|);
  }

  /** After r rounds either nothing is changing any more, or r services are not
      fine -- r of them down, unless what is down has settled. */
  lemma {:induction false} EachRoundCosts(g: Estate, base: Statuses, r: nat)
    requires Proper(g, base)
    ensures var st := After(g, base, r).st;
            || (r > 0 && Quiet(g, base, r - 1))
            || (|Bad(st)| >= r && (|Downs(st)| >= r || (r > 0 && Downs(st) == Downs(After(g, base, r - 1).st))))
  {
    hide RoundUpTo, Proper, Below, After, Downs, Bad;
    if r > 0 {
      EachRoundCosts(g, base, r - 1);
      AfterStep(g, base, r - 1);
      var s, t := After(g, base, r - 1), After(g, base, r);
      DownsGrow(s.st, t.st);
      BadGrows(g, s.st, t.st);
      BadGrows(g, t.st, t.st);
      SubsetCount(Downs(s.st), Downs(t.st));
      SubsetCount(Bad(s.st), Bad(t.st));
      SubsetCount(Downs(t.st), Bad(t.st));
      if r > 1 && Quiet(g, base, r - 2) {
        QuietPersists(g, base, r - 2);
      } else if r > 1 && Downs(s.st) == Downs(After(g, base, r - 2).st) {
        AfterStep(g, base, r - 2);
        DownsSettle(g, After(g, base, r - 2), s, |g.deps|);
      }
    }
  }

  /** Statuses are final after at most as many rounds as there are services. */
  lemma SettledAfterServices(g: Estate, base: Statuses, r: nat)
    requires Proper(g, base) && r >= |g.services|
    ensures Quiet(g, base, r) && Stable(g, After(g, base, r).st) && Least(g, base, After(g, base, r).st)
  {
    hide RoundUpTo, Proper, Below, After, Downs, Bad, Stable;
    EachRoundCosts(g, base, r + 1);
    AfterStep(g, base, r);
    BadGrows(g, After(g, base, r + 1).st, After(g, base, r + 1).st);
    QuietIsStable(g, After(g, base, r));
    StableIsLeast(g, base, r);
  }

  /** So there is exactly one least stable assignment, and the rounds find it. */
  lemma LeastExactlyOne(g: Estate, base: Statuses, st: Statuses)
    requires Proper(g, base)
    ensures Least(g, base, st) <==> st == After(g, base, |g.services|).st
  {
    hide RoundUpTo, Proper, Below, After, Stable;
    SettledAfterServices(g, base, |g.services|);
    if Least(g, base, st) { LeastUnique(g, base, st, After(g, base, |g.services|).st); }
  }

  // ---- the engine's loop

  method RouteTable(g: Estate, st: Statuses) returns (table: map<nat, Status>)
    ensures table.Keys == g.routes.Keys && forall r :: r in table ==> table[r] == RouteStatus(g, r, st)
  {
    hide RouteStatus;
    table := map[];
    var todo := g.routes.Keys;
    while todo != {}
      invariant todo <= g.routes.Keys && table.Keys == g.routes.Keys - todo
      invariant forall r :: r in table ==> table[r] == RouteStatus(g, r, st)
      decreases |todo|
    {
      var r :| r in todo;
      var s := ComputeRouteStatus(g, r, st);
      table := table[r := s];
      todo := todo - {r};
    }
  }

  /** What one dependency does, looked up from the route table of this round. */
  method ComputeEffect(g: Estate, d: Dependency, st: Statuses, table: map<nat, Status>, ghost start: Statuses)
    returns (e: Option<Propagation>)
    requires table.Keys == g.routes.Keys && forall r :: r in table ==> table[r] == RouteStatus(g, r, start)
    requires Proper(g, st)
    ensures e == Effect(g, d, st, start)
  {
    hide RouteStatus, Propagate, ApplyReach;
    if d.retired || d.consumer !in st {
      return None;
    }
    var p: Option<Status> := None;
    match d.provider {
      case ViaEndpoint(ep) =>
        if ep in g.endpoints && g.endpoints[ep] in g.services {
          p := Some(Lookup(st, g.endpoints[ep]));
        }
      case ViaRoute(r) =>
        if r in g.routes {
          p := Some(table[r]);
        }
      case NoProvider =>
    }
    if p.None? {
      return None;
    }
    e := Some(Propagate(d.nature, d.tolerance, ApplyReach(p.value, d.reach), g.window));
  }

  method RunRound(g: Estate, s: Run) returns (r: Run, changed: bool)
    requires Proper(g, s.st)
    ensures r == RoundUpTo(g, s, |g.deps|) && (!changed ==> r == s)
  {
    hide Effect, Proper, Below;
    var table := RouteTable(g, s.st);
    r, changed := s, false;
    for i := 0 to |g.deps|
      invariant r == RoundUpTo(g, s, i) && (!changed ==> r == s)
    {
      var step := RunEdge(g, i, r, table, s.st);
      RoundStep(g, s, i);
      changed := changed || step != r;
      r := step;
    }
  }

  method RunEdge(g: Estate, i: nat, s: Run, table: map<nat, Status>, ghost start: Statuses) returns (r: Run)
    requires i < |g.deps| && Proper(g, s.st) && Proper(g, start)
    requires table.Keys == g.routes.Keys && forall k :: k in table ==> table[k] == RouteStatus(g, k, start)
    ensures r == EdgeStep(g, i, s, start)
  {
    hide RouteStatus, Below;
    var d := g.deps[i];
    var e := ComputeEffect(g, d, s.st, table, start);
    r := s;
    if e.Some? {
      var consumer := s.st[d.consumer];
      if e.value.wontRestart && d.consumer !in s.wont {
        r := r.(wont := r.wont[d.consumer := i]);
      }
      var merged := consumer.Worse(e.value.status);
      if merged != consumer {
        r := r.(st := r.st[d.consumer := merged], via := r.via[d.consumer := i]);
      }
    }
  }

  /** What the engine reports: the run at the cap, or earlier once nothing changes. */
  ghost function Report(g: Estate, base: Statuses): (r: Run)
    requires Proper(g, base)
    ensures Proper(g, r.st) && Below(base, r.st)
  {
    hide Proper, Below;
    After(g, base, MAX_ITERATIONS)
  }

  lemma ReportIs(g: Estate, base: Statuses)
    requires Proper(g, base)
    ensures Report(g, base) == After(g, base, MAX_ITERATIONS)
  {
  }

  /** A round that changes nothing is followed by no other that does. */
  lemma {:induction false} QuietForGood(g: Estate, base: Statuses, r: nat, n: nat)
    requires Proper(g, base) && 0 < r <= n && After(g, base, r) == After(g, base, r - 1)
    ensures After(g, base, n) == After(g, base, r)
  {
    hide *;
    if r < n {
      QuietForGood(g, base, r, n - 1);
      AfterStep(g, base, n - 1);
      AfterStep(g, base, r - 1);
    }
  }

  /** Rounds until one changes nothing, or until the cap. */
  method PhasePropagate(g: Estate, base: Statuses) returns (r: Run, iterations: nat)
    requires Proper(g, base)
    ensures 1 <= iterations <= 20 && r == After(g, base, iterations) == Report(g, base)
    ensures iterations == 20 || After(g, base, iterations) == After(g, base, iterations - 1)
    ensures |g.services| <= 20 ==> Least(g, base, r.st)
  {
    hide RoundUpTo, Proper, Below, Least, Stable;
    r, iterations := Run(base, map[], map[]), 0;
    while iterations < MAX_ITERATIONS
      invariant iterations <= MAX_ITERATIONS && Proper(g, r.st) && r == After(g, base, iterations)
    {
      AfterStep(g, base, iterations);
      var next, changed := RunRound(g, r);
      iterations := iterations + 1;
      r := next;
      if !changed {
        break;
      }
    }
    if iterations < MAX_ITERATIONS { QuietForGood(g, base, iterations, MAX_ITERATIONS); }
    if |g.services| <= MAX_ITERATIONS { Converged(g, base, iterations); }
  }

  lemma Converged(g: Estate, base: Statuses, r: nat)
    requires Proper(g, base) && r > 0
    requires r >= |g.services| || After(g, base, r) == After(g, base, r - 1)
    ensures Least(g, base, After(g, base, r).st)
  {
    hide RoundUpTo, Proper, Below, Least, Stable, After;
    if r >= |g.services| {
      SettledAfterServices(g, base, r);
    } else {
      AfterStep(g, base, r - 1);
      QuietIsStable(g, After(g, base, r - 1));
      StableIsLeast(g, base, r - 1);
    }
  }
}
