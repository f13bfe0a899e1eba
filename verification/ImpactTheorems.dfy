/** What a report from the impact engine can be relied on for, and where it
    cannot. */
module ImpactTheorems {
  import opened Basics
  import opened Availability
  import opened Impact
  import opened Rounds

  // ---- more loss, longer outage: never better

  /** A worse start or a longer window never improves any service. */
  lemma WorseInWorseOut(g: Estate, h: Estate, base: Statuses, base': Statuses, a: Statuses, b: Statuses)
    requires h == g.(window := h.window) && g.window <= h.window
    requires Least(g, base, a) && Least(h, base', b) && Below(base, base')
    ensures Below(a, b)
  {
    hide Below, Effect, Proper;
    StillStable(g, h, b);
    BelowTransitive(base, base', b);
  }

  lemma StillStable(g: Estate, h: Estate, st: Statuses)
    requires h == g.(window := h.window) && g.window <= h.window && Proper(h, st) && Stable(h, st)
    ensures Proper(g, st) && Stable(g, st)
  {
    hide Effect, Below;
    BelowReflexive(st);
    forall i | 0 <= i < |g.deps| ensures StableAt(g, st, i) {
      assert StableAt(h, st, i);
      EffectMonotone(g, h, g.deps[i], st, st, st, st);
    }
  }

  /** An instance as placed; disabled ones are neither capacity nor loss. */
  datatype Instance = Instance(id: string, role: string, shard: string, disabled: bool)

  ghost function Health(instances: seq<Instance>, dead: set<string>): (r: seq<InstanceHealth>)
  {
    if instances == [] then []
    else
      var i := instances[|instances| - 1];
      Health(instances[..|instances| - 1], dead)
      + if i.disabled then [] else [InstanceHealth(i.id, i.role, i.shard, i.id !in dead)]
  }

  lemma {:induction false} MoreDeadMoreLost(instances: seq<Instance>, dead: set<string>, more: set<string>)
    requires dead <= more
    ensures MoreDead(Health(instances, dead), Health(instances, more))
  {
    if instances != [] { MoreDeadMoreLost(instances[..|instances| - 1], dead, more); }
  }

  /** Each service's own capacity verdict, before anything spreads. */
  ghost function Capacity(g: Estate, policies: map<nat, Policy>, placed: map<nat, seq<Instance>>, dead: set<string>): Statuses
    requires policies.Keys == g.services
  {
    map s | s in g.services :: Verdict(policies[s], Health(if s in placed then placed[s] else [], dead))
  }

  // the same, round by round, so that it holds of what is reported at the cap

  lemma StepBelow(g: Estate, h: Estate, i: nat, s: Run, start: Statuses, t: Run, start': Statuses)
    requires h == g.(window := h.window) && g.window <= h.window && i < |g.deps|
    requires Proper(g, s.st) && Proper(g, start) && Proper(g, t.st) && Proper(g, start') && Below(s.st, t.st) && Below(start, start')
    ensures Proper(h, t.st) && Proper(h, start') && Below(EdgeStep(g, i, s, start).st, EdgeStep(h, i, t, start').st)
  {
    hide Effect, EdgeStep, Below, Proper;
    ProperAnyWindow(g, h, t.st);
    ProperAnyWindow(g, h, start');
    var d := g.deps[i];
    EffectMonotone(g, h, d, s.st, start, t.st, start');
    StepMerges(g, i, s, start);
    StepMerges(h, i, t, start');
    var e, f := Effect(g, d, s.st, start), Effect(h, d, t.st, start');
    if e.Some? { Merging(s.st, t.st, d.consumer, e.value.status, f.value.status); }
  }

  lemma Merging(a: Statuses, b: Statuses, c: nat, x: Status, y: Status)
    requires Below(a, b) && c in a && x.Rank() <= y.Rank()
    ensures c in b && Below(a[c := a[c].Worse(x)], b[c := b[c].Worse(y)])
  {
  }

  lemma ProperAnyWindow(g: Estate, h: Estate, st: Statuses)
    requires h == g.(window := h.window)
    ensures Proper(g, st) <==> Proper(h, st)
  {
  }

  lemma {:induction false} RoundBelow(g: Estate, h: Estate, s: Run, t: Run, k: nat)
    requires h == g.(window := h.window) && g.window <= h.window && k <= |g.deps|
    requires Proper(g, s.st) && Proper(h, t.st) && Below(s.st, t.st)
    ensures Below(RoundUpTo(g, s, k).st, RoundUpTo(h, t, k).st)
  {
    hide *;
    if k == 0 {
      RoundNone(g, s);
      RoundNone(h, t);
    } else {
      RoundBelow(g, h, s, t, k - 1);
      var s', t' := RoundUpTo(g, s, k - 1), RoundUpTo(h, t, k - 1);
      ProperAnyWindow(g, h, t.st);
      ProperAnyWindow(g, h, t'.st);
      StepBelow(g, h, k - 1, s', s.st, t', t.st);
      RoundStep(g, s, k - 1);
      RoundStep(h, t, k - 1);
    }
  }

  /** A worse start or a longer window is nowhere better after any number of
      rounds, settled or not. */
  lemma {:induction false} WorseInWorseAfter(g: Estate, h: Estate, base: Statuses, base': Statuses, r: nat)
    requires h == g.(window := h.window) && g.window <= h.window
    requires Proper(g, base) && Proper(h, base') && Below(base, base')
    ensures Below(After(g, base, r).st, After(h, base', r).st)
  {
    hide *;
    if r == 0 {
      RunNone(g, base);
      RunNone(h, base');
    } else {
      WorseInWorseAfter(g, h, base, base', r - 1);
      AfterStep(g, base, r - 1);
      AfterStep(h, base', r - 1);
      RoundBelow(g, h, After(g, base, r - 1), After(h, base', r - 1), |g.deps|);
    }
  }

  lemma CapacityProper(g: Estate, policies: map<nat, Policy>, placed: map<nat, seq<Instance>>, dead: set<string>)
    requires policies.Keys == g.services
    ensures Proper(g, Capacity(g, policies, placed, dead))
  {
    hide Health;
  }

  /** Taking more away, for longer, makes no service's report better, whatever the
      size of the estate. */
  lemma MoreLossNeverHelps(g: Estate, h: Estate, policies: map<nat, Policy>, placed: map<nat, seq<Instance>>,
                           dead: set<string>, more: set<string>)
    requires h == g.(window := h.window) && g.window <= h.window && policies.Keys == g.services && dead <= more
    ensures Proper(g, Capacity(g, policies, placed, dead)) && Proper(h, Capacity(h, policies, placed, more))
    ensures Below(Report(g, Capacity(g, policies, placed, dead)).st, Report(h, Capacity(h, policies, placed, more)).st)
  {
    hide Verdict, Health, Proper, Report;
    CapacityProper(g, policies, placed, dead);
    CapacityProper(h, policies, placed, more);
    var x, y := Capacity(g, policies, placed, dead), Capacity(h, policies, placed, more);
    forall s | s in x ensures x[s].Rank() <= y[s].Rank() {
      var mine := if s in placed then placed[s] else [];
      MoreDeadMoreLost(mine, dead, more);
      LossNeverHelps(policies[s], Health(mine, dead), Health(mine, more));
    }
    WorseInWorseAfter(g, h, x, y, MAX_ITERATIONS);
    ReportIs(g, x);
    ReportIs(h, y);
  }

  // ---- the cap on rounds

  /** Services 0 .. n-1, each needing the one before it, listed far end first;
      service 0 needs the last one over a severed path. */
  function Chain(n: nat): Estate
    requires n > 0
  {
    Estate(UpTo(n), map k | k in UpTo(n) :: k, map[], map[],
           seq(n, j requires 0 <= j < n =>
             if j < n - 1 then Dependency(n - 1 - j, ViaEndpoint(n - 2 - j), Hard, None, false, ReachUnknown)
             else Dependency(0, ViaEndpoint(n - 1), Hard, None, false, ReachDown)),
           map[], 0)
  }

  /** The first r services down and, while a round is under way, the next one
      once its dependency has been looked at. */
  function FirstDown(n: nat, r: nat, k: nat): Statuses {
    map s | s in UpTo(n) :: if s < r || (s == r && n - 1 - s < k && (s > 0 || k == n)) then Down else OK
  }

  lemma ChainShape(n: nat, r: nat, k: nat)
    requires n > 0
    ensures |Chain(n).deps| == n && |Chain(n).services| == n && Proper(Chain(n), FirstDown(n, r, k))
    ensures r < n ==> FirstDown(n, r, n) == FirstDown(n, r + 1, 0)
  {
    hide UpTo;
  }

  lemma {:induction false} ChainRound(n: nat, r: nat, s: Run, k: nat)
    requires n > 0 && r < n && k <= n && s.st == FirstDown(n, r, 0)
    ensures |Chain(n).deps| == n && Proper(Chain(n), s.st) && RoundUpTo(Chain(n), s, k).st == FirstDown(n, r, k)
  {
    hide *;
    ChainShape(n, r, 0);
    if k == 0 {
      RoundNone(Chain(n), s);
    } else {
      ChainRound(n, r, s, k - 1);
      ChainStep(n, r, RoundUpTo(Chain(n), s, k - 1), s.st, k - 1);
      RoundStep(Chain(n), s, k - 1);
    }
  }

  lemma ChainStep(n: nat, r: nat, s: Run, start: Statuses, j: nat)
    requires n > 0 && r < n && j < n && s.st == FirstDown(n, r, j) && start == FirstDown(n, r, 0)
    ensures |Chain(n).deps| == n && Proper(Chain(n), s.st) && Proper(Chain(n), start)
    ensures EdgeStep(Chain(n), j, s, start).st == FirstDown(n, r, j + 1)
  {
    hide *;
    ChainShape(n, r, j);
    ChainShape(n, r, 0);
    ChainEffect(n, r, j, start);
    StepMerges(Chain(n), j, s, start);
    ChainNext(n, r, j);
  }

  lemma ChainNext(n: nat, r: nat, j: nat)
    requires n > 0 && r < n && j < n
    ensures |Chain(n).deps| == n
    ensures var c, st := Chain(n).deps[j].consumer, FirstDown(n, r, j);
            c in st && st[c := st[c].Worse(if ChainHit(n, r, j) then Down else OK)] == FirstDown(n, r, j + 1)
  {
    hide UpTo;
    var c := if j < n - 1 then n - 1 - j else 0;
    assert Chain(n).deps[j].consumer == c;
    var st, next := FirstDown(n, r, j), FirstDown(n, r, j + 1);
    forall s | s in st ensures next[s] == if s == c then st[c].Worse(if ChainHit(n, r, j) then Down else OK) else st[s] {}
  }

  /** Dependency j takes its consumer down in round r. */
  predicate ChainHit(n: nat, r: nat, j: nat) { j == n - 1 || n - 1 - j <= r }

  lemma ChainEffect(n: nat, r: nat, j: nat, start: Statuses)
    requires n > 0 && r < n && j < n
    ensures |Chain(n).deps| == n
    ensures Effect(Chain(n), Chain(n).deps[j], FirstDown(n, r, j), start)
            == Some(Propagation(if ChainHit(n, r, j) then Down else OK, false))
  {
    hide UpTo;
    var g := Chain(n);
    var d := g.deps[j];
    var e := d.provider.endpoint;
    assert g.endpoints[e] == e && e in g.services && d.consumer in g.services;
    assert j < n - 1 ==> Lookup(FirstDown(n, r, j), e) == if e < r then Down else OK;
  }

  lemma {:induction false} ChainAfter(n: nat, r: nat)
    requires n > 0 && r <= n
    ensures Proper(Chain(n), FirstDown(n, 0, 0)) && After(Chain(n), FirstDown(n, 0, 0), r).st == FirstDown(n, r, 0)
  {
    hide *;
    ChainShape(n, 0, 0);
    if r == 0 {
      RunNone(Chain(n), FirstDown(n, 0, 0));
    } else {
      ChainAfter(n, r - 1);
      var s := After(Chain(n), FirstDown(n, 0, 0), r - 1);
      ChainShape(n, r - 1, n);
      ChainRound(n, r - 1, s, n);
      AfterStep(Chain(n), FirstDown(n, 0, 0), r - 1);
    }
  }

  lemma RunNone(g: Estate, base: Statuses)
    requires Proper(g, base)
    ensures After(g, base, 0) == Run(base, map[], map[])
  {
  }

  /** A chain longer than the cap is reported with a service still fine whose
      hard dependency is down. */
  lemma ChainOutrunsCap(n: nat)
    requires n > MAX_ITERATIONS
    ensures |Chain(n).services| == n && Proper(Chain(n), FirstDown(n, 0, 0))
    ensures var g, st := Chain(n), Report(Chain(n), FirstDown(n, 0, 0)).st;
            && Dependency(MAX_ITERATIONS, ViaEndpoint(MAX_ITERATIONS - 1), Hard, None, false, ReachUnknown) in g.deps
            && MAX_ITERATIONS - 1 in g.endpoints && g.endpoints[MAX_ITERATIONS - 1] == MAX_ITERATIONS - 1
            && MAX_ITERATIONS in st && st[MAX_ITERATIONS] == OK
            && MAX_ITERATIONS - 1 in st && st[MAX_ITERATIONS - 1] == Down
            && !Stable(g, st)
  {
    hide Below, After;
    ChainAfter(n, MAX_ITERATIONS);
    ChainShape(n, MAX_ITERATIONS, 0);
    var g, st := Chain(n), FirstDown(n, MAX_ITERATIONS, 0);
    var i := n - 1 - MAX_ITERATIONS;
    assert g.deps[i] == Dependency(MAX_ITERATIONS, ViaEndpoint(MAX_ITERATIONS - 1), Hard, None, false, ReachUnknown);
    assert g.endpoints[MAX_ITERATIONS - 1] == MAX_ITERATIONS - 1;
    assert Effect(g, g.deps[i], st, st) == Some(Propagation(Down, false));
    assert !StableAt(g, st, i);
  }

  ghost predicate CapSuffices(n: nat) {
    forall g: Estate, base: Statuses :: |g.services| == n && Proper(g, base) ==> Least(g, base, Report(g, base).st)
  }

  /** Twenty rounds give the right answer for every estate of n services exactly
      when n is at most twenty. */
  lemma CapSufficesIff(n: nat)
    ensures CapSuffices(n) <==> n <= 20
  {
    hide Below, After, Stable, Effect, Proper;
    if n <= MAX_ITERATIONS {
      forall g: Estate, base: Statuses | |g.services| == n && Proper(g, base) ensures Least(g, base, Report(g, base).st) {
        SettledAfterServices(g, base, MAX_ITERATIONS);
      }
    } else {
      ChainOutrunsCap(n);
      assert !Least(Chain(n), FirstDown(n, 0, 0), Report(Chain(n), FirstDown(n, 0, 0)).st);
    }
  }

  // ---- what via and the won't-restart list mean

  /** Dependency i, as things stand, makes its consumer c at least as bad as x. */
  ghost predicate Explains(g: Estate, i: nat, c: nat, st: Statuses, x: nat) {
    && i < |g.deps| && g.deps[i].consumer == c
    && var e := Effect(g, g.deps[i], st, st); e.Some? && e.value.status.Rank() >= x
  }

  ghost predicate Unmet(g: Estate, i: nat, c: nat, st: Statuses) {
    && i < |g.deps| && g.deps[i].consumer == c
    && var e := Effect(g, g.deps[i], st, st); e.Some? && e.value.wontRestart
  }

  /** Every recorded dependency accounts for what is recorded against it. */
  ghost predicate Accounted(g: Estate, base: Statuses, s: Run)
    requires Proper(g, base) && Proper(g, s.st)
  {
    && (forall c :: c in s.st ==> (c in s.via <==> s.st[c] != base[c]))
    && (forall c :: c in s.via ==> c in s.st && Explains(g, s.via[c], c, s.st, s.st[c].Rank()))
    && (forall c :: c in s.wont ==> Unmet(g, s.wont[c], c, s.st))
  }

  /** Worse statuses keep an explanation and an unmet dependency. */
  lemma StillExplains(g: Estate, i: nat, c: nat, a: Statuses, b: Statuses, x: nat)
    requires Proper(g, a) && Proper(g, b) && Below(a, b)
    ensures Explains(g, i, c, a, x) ==> Explains(g, i, c, b, x)
    ensures Unmet(g, i, c, a) ==> Unmet(g, i, c, b)
  {
    hide Effect, Proper, Below;
    if i < |g.deps| { EffectMonotone(g, g, g.deps[i], a, a, b, b); }
  }

  /** A step raises its consumer and records it, or leaves statuses alone. */
  lemma StepShape(g: Estate, i: nat, s: Run, start: Statuses)
    requires i < |g.deps| && Proper(g, s.st) && Proper(g, start)
    ensures var r, c := EdgeStep(g, i, s, start), g.deps[i].consumer;
            && (|| (r.st == s.st && r.via == s.via)
                || (c in s.st && c in r.st && r.st == s.st[c := r.st[c]] && r.st[c].Rank() > s.st[c].Rank() && r.via == s.via[c := i]))
            && (r.wont == s.wont || (c !in s.wont && r.wont == s.wont[c := i]))
  {
    hide Effect, Below;
  }

  lemma StepAccounts(g: Estate, base: Statuses, i: nat, s: Run, start: Statuses)
    requires i < |g.deps| && Proper(g, base) && Proper(g, s.st) && Proper(g, start) && Below(base, s.st) && Below(start, s.st)
    requires Accounted(g, base, s)
    ensures Accounted(g, base, EdgeStep(g, i, s, start))
  {
    hide Explains, Unmet, EdgeStep, Effect, Proper, Below;
    StepChanged(g, base, i, s, start);
    StepVia(g, i, s, start);
    StepWont(g, i, s, start);
  }

  lemma StepChanged(g: Estate, base: Statuses, i: nat, s: Run, start: Statuses)
    requires i < |g.deps| && Proper(g, base) && Proper(g, s.st) && Proper(g, start) && Below(base, s.st)
    requires forall c :: c in s.st ==> (c in s.via <==> s.st[c] != base[c])
    ensures var r := EdgeStep(g, i, s, start); forall c :: c in r.st ==> c in base && (c in r.via <==> r.st[c] != base[c])
  {
    hide *;
    StepShape(g, i, s, start);
    var r, c := EdgeStep(g, i, s, start), g.deps[i].consumer;
    if r.st != s.st {
      RisenDiffers(base, s.st, c, r.st[c]);
    } else {
      BelowKeys(base, s.st);
    }
  }

  lemma RisenDiffers(base: Statuses, st: Statuses, c: nat, x: Status)
    requires Below(base, st) && c in st && x.Rank() > st[c].Rank()
    ensures base.Keys == st.Keys && base[c] != x
  {
  }

  lemma BelowKeys(a: Statuses, b: Statuses)
    requires Below(a, b)
    ensures a.Keys == b.Keys
  {
  }

  lemma StepVia(g: Estate, i: nat, s: Run, start: Statuses)
    requires i < |g.deps| && Proper(g, s.st) && Proper(g, start) && Below(start, s.st)
    requires forall c :: c in s.via ==> c in s.st && Explains(g, s.via[c], c, s.st, s.st[c].Rank())
    ensures var r := EdgeStep(g, i, s, start);
            forall c :: c in r.via ==> c in r.st && Explains(g, r.via[c], c, r.st, r.st[c].Rank())
  {
    hide Explains, EdgeStep, Proper, Effect, Below;
    var r := EdgeStep(g, i, s, start);
    StepShape(g, i, s, start);
    StepReason(g, i, s, start);
    forall c | c in s.via ensures Explains(g, s.via[c], c, r.st, s.st[c].Rank()) { StillExplains(g, s.via[c], c, s.st, r.st, s.st[c].Rank()); }
  }

  lemma StepWont(g: Estate, i: nat, s: Run, start: Statuses)
    requires i < |g.deps| && Proper(g, s.st) && Proper(g, start) && Below(start, s.st)
    requires forall c :: c in s.wont ==> Unmet(g, s.wont[c], c, s.st)
    ensures var r := EdgeStep(g, i, s, start); forall c :: c in r.wont ==> Unmet(g, r.wont[c], c, r.st)
  {
    hide Unmet, Explains, EdgeStep, Proper, Effect, Below;
    var r := EdgeStep(g, i, s, start);
    StepShape(g, i, s, start);
    StepReason(g, i, s, start);
    forall c | c in s.wont ensures Unmet(g, s.wont[c], c, r.st) { StillExplains(g, s.wont[c], c, s.st, r.st, 0); }
  }

  /** What the step itself records, it can account for. */
  lemma StepReason(g: Estate, i: nat, s: Run, start: Statuses)
    requires i < |g.deps| && Proper(g, s.st) && Proper(g, start) && Below(start, s.st)
    ensures var r, c := EdgeStep(g, i, s, start), g.deps[i].consumer;
            && (r.st != s.st ==> c in r.st && Explains(g, i, c, r.st, r.st[c].Rank()))
            && (r.wont != s.wont ==> Unmet(g, i, c, r.st))
  {
    hide Effect;
    var r, d := EdgeStep(g, i, s, start), g.deps[i];
    BelowTransitive(start, s.st, r.st);
    EffectMonotone(g, g, d, s.st, start, r.st, r.st);
  }

  lemma {:induction false} RoundAccounts(g: Estate, base: Statuses, s: Run, k: nat)
    requires k <= |g.deps| && Proper(g, base) && Proper(g, s.st) && Below(base, s.st) && Accounted(g, base, s)
    ensures Accounted(g, base, RoundUpTo(g, s, k))
  {
    hide *;
    if k == 0 {
      RoundNone(g, s);
    } else {
      RoundAccounts(g, base, s, k - 1);
      BelowTransitive(base, s.st, RoundUpTo(g, s, k - 1).st);
      StepAccounts(g, base, k - 1, RoundUpTo(g, s, k - 1), s.st);
      RoundStep(g, s, k - 1);
    }
  }

  lemma {:induction false} AfterAccounts(g: Estate, base: Statuses, r: nat)
    requires Proper(g, base)
    ensures Accounted(g, base, After(g, base, r))
  {
    hide RoundUpTo, Explains, Unmet, Proper, Below;
    if r > 0 {
      AfterAccounts(g, base, r - 1);
      RoundAccounts(g, base, After(g, base, r - 1), |g.deps|);
    }
  }

  // ---- the last rounds

  /** In a round that changes no status, every unmet startup dependency looked at
      puts its consumer on the list. */
  lemma {:induction false} QuietFlags(g: Estate, s: Run, k: nat, i: nat)
    requires Proper(g, s.st) && RoundUpTo(g, s, |g.deps|).st == s.st && i < k <= |g.deps|
    ensures Unmet(g, i, g.deps[i].consumer, s.st) ==> g.deps[i].consumer in RoundUpTo(g, s, k).wont
    ensures s.wont.Keys <= RoundUpTo(g, s, k).wont.Keys
  {
    hide Effect, Proper, Below, RoundUpTo;
    RoundStep(g, s, k - 1);
    QuietPrefix(g, s, k - 1);
    if k == 1 { RoundNone(g, s); } else { QuietFlags(g, s, k - 1, if i < k - 1 then i else 0); }
  }

  /** A round from settled statuses with a complete list changes nothing. */
  lemma {:induction false} NothingLeft(g: Estate, s: Run, k: nat)
    requires k <= |g.deps| && Proper(g, s.st) && Stable(g, s.st)
    requires forall i :: 0 <= i < |g.deps| && Unmet(g, i, g.deps[i].consumer, s.st) ==> g.deps[i].consumer in s.wont
    ensures RoundUpTo(g, s, k) == s
  {
    hide Effect, Proper, Below;
    if k > 0 {
      NothingLeft(g, s, k - 1);
      assert StableAt(g, s.st, k - 1);
      IdleStep(g, k - 1, s);
    }
  }

  lemma IdleStep(g: Estate, i: nat, s: Run)
    requires i < |g.deps| && Proper(g, s.st) && StableAt(g, s.st, i)
    requires Unmet(g, i, g.deps[i].consumer, s.st) ==> g.deps[i].consumer in s.wont
    ensures EdgeStep(g, i, s, s.st) == s
  {
    hide Effect, Below;
  }

  /** Left to itself the loop stops: after one round per service and one more,
      nothing changes. */
  lemma StopsOnItsOwn(g: Estate, base: Statuses, r: nat)
    requires Proper(g, base) && r > |g.services|
    ensures After(g, base, r + 1) == After(g, base, r)
  {
    hide RoundUpTo, Proper, Below, After, Stable, Unmet, Least;
    SettledAfterServices(g, base, r - 1);
    SettledAfterServices(g, base, r);
    AfterStep(g, base, r - 1);
    AfterStep(g, base, r);
    var s, t := After(g, base, r - 1), After(g, base, r);
    forall i | 0 <= i < |g.deps| && Unmet(g, i, g.deps[i].consumer, t.st) ensures g.deps[i].consumer in t.wont {
      QuietFlags(g, s, |g.deps|, i);
    }
    NothingLeft(g, t, |g.deps|);
  }

  /** Once a round has changed nothing, the report explains itself: a service has
      a via exactly when it is worse than its own capacity made it, the via
      carried exactly the status shown, and the won't-restart list is exactly
      the services with an unmet startup dependency. */
  lemma ReportExplains(g: Estate, base: Statuses, r: nat, c: nat)
    requires Proper(g, base) && After(g, base, r + 1) == After(g, base, r) && c in g.services
    ensures var s := After(g, base, r);
            && c in s.st && (c in s.via <==> s.st[c] != base[c])
            && (c in s.via ==> Explains(g, s.via[c], c, s.st, s.st[c].Rank()) && !Explains(g, s.via[c], c, s.st, s.st[c].Rank() + 1))
            && (c in s.wont <==> exists i :: Unmet(g, i, c, s.st))
  {
    hide RoundUpTo, After, Effect;
    var s := After(g, base, r);
    AfterAccounts(g, base, r);
    AfterStep(g, base, r);
    QuietIsStable(g, s);
    if c in s.via { assert StableAt(g, s.st, s.via[c]); }
    if i :| Unmet(g, i, c, s.st) { QuietFlags(g, s, |g.deps|, i); }
  }

  /** The chain with one dependency more, listed first: service 0 needs the last
      service at startup. */
  function StartupChain(n: nat): Estate
    requires n > 0
  {
    var g := Chain(n);
    g.(deps := [Dependency(0, ViaEndpoint(n - 1), Startup, None, false, ReachUnknown)] + g.deps)
  }

  lemma StartupShape(n: nat)
    requires n > 0
    ensures var g, h := Chain(n), StartupChain(n);
            && h == g.(deps := h.deps) && |h.deps| == n + 1 && |g.deps| == n && |h.services| == n
            && (forall j :: 0 <= j < n ==> h.deps[j + 1] == g.deps[j])
  {
    hide UpTo;
    ChainShape(n, 0, 0);
  }

  /** The extra dependency leaves statuses alone and puts service 0 on the list
      once the last service is down at the start of a round. */
  lemma StartupStep(n: nat, r: nat, s: Run)
    requires n > 0 && r <= n && s.st == FirstDown(n, r, 0)
    ensures Proper(StartupChain(n), s.st)
    ensures var t := EdgeStep(StartupChain(n), 0, s, s.st);
            && t.st == s.st && t.wont.Keys == s.wont.Keys + if r == n then {0} else {}
  {
    hide UpTo, Below;
    ChainShape(n, r, 0);
    StartupShape(n);
    var g := StartupChain(n);
    ProperList(Chain(n), g, s.st);
    var d := g.deps[0];
    assert d == Dependency(0, ViaEndpoint(n - 1), Startup, None, false, ReachUnknown);
    assert g.endpoints[n - 1] == n - 1 && n - 1 in g.services && 0 in g.services;
    assert Lookup(s.st, n - 1) == if r == n then Down else OK;
    assert Effect(g, d, s.st, s.st) == Some(Propagation(OK, r == n));
    hide Effect, StartupChain, FirstDown;
    OkStep(g, 0, s, r == n);
  }

  lemma OkStep(g: Estate, i: nat, s: Run, flag: bool)
    requires i < |g.deps| && Proper(g, s.st) && g.deps[i].consumer in s.st && Effect(g, g.deps[i], s.st, s.st) == Some(Propagation(OK, flag))
    ensures var t := EdgeStep(g, i, s, s.st);
            t.st == s.st && t.wont.Keys == s.wont.Keys + if flag then {g.deps[i].consumer} else {}
  {
    hide Effect, Below;
  }

  /** A hard dependency adds nothing to the list. */
  lemma HardStep(g: Estate, h: Estate, i: nat, k: nat, s: Run, t: Run, start: Statuses)
    requires h == g.(deps := h.deps) && i < |g.deps| && k < |h.deps| && h.deps[k] == g.deps[i] && g.deps[i].nature == Hard
    requires Proper(g, s.st) && Proper(g, start) && t.st == s.st
    ensures Proper(h, t.st) && Proper(h, start)
    ensures EdgeStep(h, k, t, start).st == EdgeStep(g, i, s, start).st && EdgeStep(h, k, t, start).wont == t.wont
  {
    hide Below, Effect, EdgeStep, Proper;
    ProperList(g, h, t.st);
    ProperList(g, h, start);
    EffectIgnoresList(g, h, g.deps[i], s.st, start);
    HardNeverFlags(h, h.deps[k], t.st, start);
    StepMerges(g, i, s, start);
    StepMerges(h, k, t, start);
    UnflaggedStep(h, k, t, start);
  }

  lemma UnflaggedStep(g: Estate, i: nat, s: Run, start: Statuses)
    requires i < |g.deps| && Proper(g, s.st) && Proper(g, start)
    ensures var e := Effect(g, g.deps[i], s.st, start); (e.None? || !e.value.wontRestart) ==> EdgeStep(g, i, s, start).wont == s.wont
  {
    hide Effect, Below;
  }

  lemma HardNeverFlags(g: Estate, d: Dependency, st: Statuses, start: Statuses)
    requires d.nature == Hard
    ensures var e := Effect(g, d, st, start); e.Some? ==> !e.value.wontRestart
  {
    hide ProviderStatus;
  }

  lemma EffectIgnoresList(g: Estate, h: Estate, d: Dependency, st: Statuses, start: Statuses)
    requires h == g.(deps := h.deps)
    ensures Effect(g, d, st, start) == Effect(h, d, st, start)
  {
    hide PoolStatus, ApplyReach, Propagate;
    if d.provider.ViaRoute? && d.provider.route in g.routes { SamePool(g, h, d.provider.route, start); }
  }

  lemma ChainIsHard(n: nat, j: nat)
    requires n > 0 && j < n
    ensures |Chain(n).deps| == n && Chain(n).deps[j].nature == Hard
  {
    hide UpTo;
  }

  lemma {:induction false} StartupRound(n: nat, r: nat, s: Run, k: nat)
    requires n > 0 && r <= n && k <= n && s.st == FirstDown(n, r, 0)
    ensures |StartupChain(n).deps| == n + 1 && |Chain(n).deps| == n && Proper(StartupChain(n), s.st) && Proper(Chain(n), s.st)
    ensures var t := RoundUpTo(StartupChain(n), s, k + 1);
            && t.st == RoundUpTo(Chain(n), s, k).st && t.wont.Keys == s.wont.Keys + if r == n then {0} else {}
  {
    hide *;
    StartupShape(n);
    ChainShape(n, r, 0);
    ProperList(Chain(n), StartupChain(n), s.st);
    var g, h := Chain(n), StartupChain(n);
    if k == 0 {
      RoundNone(g, s);
      RoundNone(h, s);
      RoundStep(h, s, 0);
      StartupStep(n, r, s);
    } else {
      StartupRound(n, r, s, k - 1);
      ChainIsHard(n, k - 1);
      HardStep(g, h, k - 1, k, RoundUpTo(g, s, k - 1), RoundUpTo(h, s, k), s.st);
      RoundStep(g, s, k - 1);
      RoundStep(h, s, k);
    }
  }

  lemma ProperList(g: Estate, h: Estate, st: Statuses)
    requires h == g.(deps := h.deps)
    ensures Proper(g, st) <==> Proper(h, st)
  {
  }

  lemma {:induction false} StartupAfter(n: nat, r: nat)
    requires n > 0 && r <= n
    ensures Proper(StartupChain(n), FirstDown(n, 0, 0))
    ensures var t := After(StartupChain(n), FirstDown(n, 0, 0), r); t.st == FirstDown(n, r, 0) && t.wont.Keys == {}
  {
    hide *;
    StartupShape(n);
    ChainShape(n, 0, 0);
    var g, h, base := Chain(n), StartupChain(n), FirstDown(n, 0, 0);
    ProperList(g, h, base);
    if r == 0 {
      RunNone(h, base);
    } else {
      StartupAfter(n, r - 1);
      var s := After(h, base, r - 1);
      StartupRound(n, r - 1, s, n);
      ChainRound(n, r - 1, s, n);
      ChainShape(n, r - 1, n);
      AfterStep(h, base, r - 1);
    }
  }

  /** The bound is attained for every number of services: here one round per
      service is not enough, and one more still changes the report. */
  lemma NeedsOneMore(n: nat)
    requires n > 0
    ensures |StartupChain(n).services| == n && Proper(StartupChain(n), FirstDown(n, 0, 0))
    ensures After(StartupChain(n), FirstDown(n, 0, 0), n + 1) != After(StartupChain(n), FirstDown(n, 0, 0), n)
  {
    hide *;
    StartupShape(n);
    StartupAfter(n, n);
    var h, base := StartupChain(n), FirstDown(n, 0, 0);
    var s := After(h, base, n);
    StartupRound(n, n, s, n);
    AfterStep(h, base, n);
  }

  // ---- a route whose proxy's service is not in the graph

  /** d reaches its provider through a route whose frontend endpoint belongs to a
      service the graph does not hold. */
  ghost predicate Dangling(g: Estate, d: Dependency) {
    && d.provider.ViaRoute? && d.provider.route in g.routes
    && var e := g.routes[d.provider.route].frontend; e in g.endpoints && g.endpoints[e] !in g.services
  }

  ghost predicate NetworkFine(g: Estate) {
    && (forall i :: 0 <= i < |g.deps| ==> g.deps[i].reach == ReachUnknown || g.deps[i].reach == ReachOK)
    && (forall k :: k in g.memberReach ==> g.memberReach[k] == ReachUnknown || g.memberReach[k] == ReachOK)
  }

  ghost predicate AllFine(g: Estate, st: Statuses) { Proper(g, st) && forall s :: s in st ==> st[s] == OK }

  /** With every service fine and no network effect, a live dependency still
      degrades its consumer exactly when it is hard and dangling. */
  lemma FineEffect(g: Estate, i: nat, st: Statuses)
    requires i < |g.deps| && NetworkFine(g) && AllFine(g, st)
    ensures var d := g.deps[i]; var e := Effect(g, d, st, st);
            e.Some? && e.value.status.Rank() > 0 <==> !d.retired && d.consumer in g.services && d.nature == Hard && Dangling(g, d)
  {
    var d := g.deps[i];
    if d.provider.ViaRoute? && d.provider.route in g.routes { FinePool(g, d.provider.route, st); }
    hide PoolStatus;
  }

  lemma FinePool(g: Estate, r: nat, st: Statuses)
    requires r in g.routes && NetworkFine(g) && AllFine(g, st)
    ensures PoolStatus(g, r, st) == OK
  {
    var ms := PoolOf(g, r);
    forall k | 0 <= k < |ms| ensures MemberStatus(g, r, st, ms[k]) == OK {}
    assert ms == [] || MemberStatus(g, r, st, ms[0]) == OK;
  }

  /** Fine statuses are stable exactly when no live hard dependency goes through a
      dangling route. */
  lemma FineStableIff(g: Estate, st: Statuses)
    requires NetworkFine(g) && AllFine(g, st)
    ensures Stable(g, st) <==> forall i :: 0 <= i < |g.deps| ==> !Stale(g, g.deps[i])
  {
    hide Effect, Dangling, NetworkFine;
    forall i | 0 <= i < |g.deps| ensures StableAt(g, st, i) <==> !Stale(g, g.deps[i]) {
      FineEffect(g, i, st);
      EffectConsumer(g, g.deps[i], st);
    }
  }

  /** A live hard dependency on a route whose frontend service is missing. */
  ghost predicate Stale(g: Estate, d: Dependency) {
    !d.retired && d.consumer in g.services && d.nature == Hard && Dangling(g, d)
  }

  /** An estate in which nothing is wrong is reported fine exactly when it holds no
      stale dependency. */
  lemma FineStaysFineIff(g: Estate, st: Statuses)
    requires NetworkFine(g) && AllFine(g, st)
    ensures Report(g, st).st == st <==> forall i :: 0 <= i < |g.deps| ==> !Stale(g, g.deps[i])
  {
    hide Stale, NetworkFine, Stable, Below, After, Report, Proper, RoundUpTo;
    FineStableIff(g, st);
    RunNone(g, st);
    AfterStep(g, st, 0);
    ReportIs(g, st);
    BelowReflexive(st);
    if Stable(g, st) {
      AfterWithin(g, st, st, MAX_ITERATIONS);
      SameRankSame(g, st, Report(g, st).st);
    }
    if Report(g, st).st == st {
      AfterGrows(g, st, 1, MAX_ITERATIONS);
      SameRankSame(g, st, After(g, st, 1).st);
      QuietIsStable(g, After(g, st, 0));
    }
  }

  lemma {:induction false} AfterGrows(g: Estate, base: Statuses, r: nat, n: nat)
    requires Proper(g, base) && r <= n
    ensures Below(After(g, base, r).st, After(g, base, n).st)
  {
    hide Proper, Below, After, RoundUpTo;
    if r == n {
      BelowReflexive(After(g, base, r).st);
    } else {
      AfterGrows(g, base, r, n - 1);
      AfterStep(g, base, n - 1);
      BelowTransitive(After(g, base, r).st, After(g, base, n - 1).st, After(g, base, n).st);
    }
  }

  /** The smallest case: one service, a hard dependency, a stale frontend. */
  lemma StaleFrontendDegrades()
    ensures var g := Estate({0}, map[5 := 9], map[7 := Route(5, 3)], map[],
                            [Dependency(0, ViaRoute(7), Hard, None, false, ReachUnknown)], map[], 0);
            var st := map[0 := OK];
            NetworkFine(g) && AllFine(g, st) && !Stable(g, st)
  {
    var g := Estate({0}, map[5 := 9], map[7 := Route(5, 3)], map[],
                    [Dependency(0, ViaRoute(7), Hard, None, false, ReachUnknown)], map[], 0);
    var st: Statuses := map[0 := OK];
    FineEffect(g, 0, st);
    assert Dangling(g, g.deps[0]);
    assert !StableAt(g, st, 0);
  }
}
