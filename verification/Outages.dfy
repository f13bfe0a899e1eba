/** What an impact report says, read off the estate and the reported statuses:
    who is down, who is hurt and who would not restart, and because of what. */
module Outages {
  import opened Basics
  import opened Availability
  import opened Impact
  import opened Rounds
  import opened ImpactTheorems

  /** A service that is nowhere in the statuses is neither. */
  ghost predicate IsDownAt(st: Statuses, s: nat) { s in st && st[s] == Down }
  ghost predicate IsFineAt(st: Statuses, s: nat) { s in st && st[s] == OK }

  /** e is a backend of the route whose service the graph holds. */
  ghost predicate Backend(g: Estate, route: nat, e: nat) {
    && route in g.routes && g.routes[route].pool in g.pools && e in g.pools[g.routes[route].pool]
    && e in g.endpoints && g.endpoints[e] in g.services
  }

  ghost predicate Severed(g: Estate, route: nat, e: nat) { (route, e) in g.memberReach && g.memberReach[(route, e)] == ReachDown }
  ghost predicate Strained(g: Estate, route: nat, e: nat) { (route, e) in g.memberReach && g.memberReach[(route, e)] == ReachDegraded }

  ghost predicate BackendDown(g: Estate, st: Statuses, route: nat, e: nat) {
    Backend(g, route, e) && (Severed(g, route, e) || IsDownAt(st, g.endpoints[e]))
  }

  ghost predicate BackendHurt(g: Estate, st: Statuses, route: nat, e: nat) {
    Backend(g, route, e) && (Severed(g, route, e) || Strained(g, route, e) || !IsFineAt(st, g.endpoints[e]))
  }

  ghost predicate FrontDown(g: Estate, st: Statuses, route: nat) {
    route in g.routes && g.routes[route].frontend in g.endpoints && IsDownAt(st, g.endpoints[g.routes[route].frontend])
  }

  /** A frontend of a service the graph does not hold is hurt. */
  ghost predicate FrontHurt(g: Estate, st: Statuses, route: nat) {
    route in g.routes && g.routes[route].frontend in g.endpoints && !IsFineAt(st, g.endpoints[g.routes[route].frontend])
  }

  ghost predicate RouteLost(g: Estate, st: Statuses, route: nat) {
    FrontDown(g, st, route) || ((exists e :: Backend(g, route, e)) && forall e :: Backend(g, route, e) ==> BackendDown(g, st, route, e))
  }

  ghost predicate RouteHurt(g: Estate, st: Statuses, route: nat) {
    FrontHurt(g, st, route) || exists e :: BackendHurt(g, st, route, e)
  }

  ghost predicate Resolved(g: Estate, d: Dependency) {
    match d.provider
    case ViaEndpoint(e) => e in g.endpoints && g.endpoints[e] in g.services
    case ViaRoute(r) => r in g.routes
    case NoProvider => false
  }

  /** What d's consumer sees at the other end, its own path there included. */
  ghost predicate SeenDown(g: Estate, d: Dependency, st: Statuses) {
    && Resolved(g, d)
    && (|| d.reach == ReachDown
        || (d.provider.ViaEndpoint? && IsDownAt(st, g.endpoints[d.provider.endpoint]))
        || (d.provider.ViaRoute? && RouteLost(g, st, d.provider.route)))
  }

  ghost predicate SeenHurt(g: Estate, d: Dependency, st: Statuses) {
    && Resolved(g, d)
    && (|| d.reach == ReachDown || d.reach == ReachDegraded
        || (d.provider.ViaEndpoint? && !IsFineAt(st, g.endpoints[d.provider.endpoint]))
        || (d.provider.ViaRoute? && RouteHurt(g, st, d.provider.route)))
  }

  // ---- the two readings of a provider agree

  lemma {:induction false} MembersAre(g: Estate, es: seq<nat>)
    ensures forall e :: e in Members(g, es) <==> e in es && e in g.endpoints && g.endpoints[e] in g.services
  {
    if es != [] {
      MembersAre(g, es[..|es| - 1]);
      assert es == es[..|es| - 1] + [es[|es| - 1]];
    }
  }

  lemma PoolIsBackends(g: Estate, route: nat)
    requires route in g.routes
    ensures forall e :: e in PoolOf(g, route) <==> Backend(g, route, e)
  {
    hide Members;
    var pool := g.routes[route].pool;
    MembersAre(g, if pool in g.pools then g.pools[pool] else []);
  }

  lemma MemberMeans(g: Estate, route: nat, st: Statuses, e: nat)
    requires Proper(g, st) && Backend(g, route, e)
    ensures MemberStatus(g, route, st, e) == Down <==> BackendDown(g, st, route, e)
    ensures MemberStatus(g, route, st, e).Rank() > 0 <==> BackendHurt(g, st, route, e)
  {
  }

  lemma PoolMeans(g: Estate, route: nat, st: Statuses)
    requires Proper(g, st) && route in g.routes
    ensures PoolStatus(g, route, st) == Down <==>
            (exists e :: Backend(g, route, e)) && forall e :: Backend(g, route, e) ==> BackendDown(g, st, route, e)
    ensures PoolStatus(g, route, st) == OK <==> forall e :: !BackendHurt(g, st, route, e)
    ensures PoolStatus(g, route, st) != Unset
  {
    hide MemberStatus, Backend, Severed, Strained, IsDownAt, IsFineAt, Members, Proper;
    PoolIsBackends(g, route);
    var ms := PoolOf(g, route);
    forall k | 0 <= k < |ms|
      ensures MemberStatus(g, route, st, ms[k]) == Down <==> BackendDown(g, st, route, ms[k])
      ensures MemberStatus(g, route, st, ms[k]).Rank() > 0 <==> BackendHurt(g, st, route, ms[k])
    {
      MemberMeans(g, route, st, ms[k]);
    }
    hide PoolOf, BackendDown;
    forall e | Backend(g, route, e) ensures exists k :: 0 <= k < |ms| && ms[k] == e {}
    if ms != [] { assert Backend(g, route, ms[0]); }
    assert forall k :: 0 <= k < |ms| ==> Backend(g, route, ms[k]);
  }

  lemma RouteMeans(g: Estate, route: nat, st: Statuses)
    requires Proper(g, st) && route in g.routes
    ensures RouteStatus(g, route, st) == Down <==> RouteLost(g, st, route)
    ensures RouteStatus(g, route, st) == OK <==> !RouteHurt(g, st, route)
  {
    hide PoolStatus, Backend, BackendDown, BackendHurt;
    PoolMeans(g, route, st);
  }

  lemma SeenMeans(g: Estate, d: Dependency, st: Statuses)
    requires Proper(g, st)
    ensures var p := ProviderStatus(g, d, st, st);
            && (p.Some? <==> Resolved(g, d))
            && (p.Some? ==> (ApplyReach(p.value, d.reach) == Down <==> SeenDown(g, d, st)))
            && (p.Some? ==> (ApplyReach(p.value, d.reach) == OK <==> !SeenHurt(g, d, st)))
  {
    hide RouteStatus, RouteLost, RouteHurt;
    if d.provider.ViaRoute? && d.provider.route in g.routes { RouteMeans(g, d.provider.route, st); }
  }

  /** The nature table, read off what the consumer sees. */
  lemma EffectMeans(g: Estate, d: Dependency, st: Statuses)
    requires Proper(g, st)
    ensures var e := Effect(g, d, st, st); var live := !d.retired && d.consumer in g.services;
            && (e.Some? && e.value.status == Down <==> live && d.nature == Hard && SeenDown(g, d, st))
            && (e.Some? && e.value.status.Rank() > 0 <==> live && Hurts(g, d, st))
            && (e.Some? && e.value.wontRestart <==> live && d.nature == Startup && SeenDown(g, d, st))
  {
    hide ProviderStatus, Resolved, ApplyReach;
    SeenMeans(g, d, st);
    SeenWorse(g, d, st);
    hide SeenDown, SeenHurt;
  }

  /** What is seen down is seen hurt, and only something there is seen at all. */
  lemma SeenWorse(g: Estate, d: Dependency, st: Statuses)
    requires Proper(g, st)
    ensures SeenDown(g, d, st) ==> SeenHurt(g, d, st)
    ensures SeenHurt(g, d, st) ==> Resolved(g, d)
  {
    hide Backend, Severed, Strained;
    if d.provider.ViaRoute? && RouteLost(g, st, d.provider.route) && !FrontDown(g, st, d.provider.route) {
      var e :| Backend(g, d.provider.route, e);
      assert BackendDown(g, st, d.provider.route, e);
      assert BackendHurt(g, st, d.provider.route, e);
    }
  }

  /** The dependencies that cost their consumer anything. */
  ghost predicate Hurts(g: Estate, d: Dependency, st: Statuses) {
    || (d.nature == Hard && SeenHurt(g, d, st))
    || (d.nature == Soft && SeenDown(g, d, st))
    || (d.nature == Async && SeenDown(g, d, st) && d.tolerance.Some? && d.tolerance.value < g.window)
  }

  // ---- the settled report

  /** Once a round changes no status, a service is down exactly when its own
      capacity left it down or a live hard dependency of it is seen down. */
  lemma DownWhen(g: Estate, base: Statuses, r: nat, s: nat)
    requires Proper(g, base) && s in g.services && After(g, base, r + 1).st == After(g, base, r).st
    ensures var st := After(g, base, r).st;
            IsDownAt(st, s) <==>
              || base[s] == Down
              || exists i :: 0 <= i < |g.deps| && g.deps[i].consumer == s && !g.deps[i].retired && g.deps[i].nature == Hard && SeenDown(g, g.deps[i], st)
  {
    hide Effect, SeenDown, SeenHurt, Hurts, Stable, After, Proper, Below;
    var st := After(g, base, r).st;
    QuietRound(g, base, r);
    Grown(g, base, st, s);
    if st[s] == Down && base[s] != Down {
      var i := Reason(g, base, r, s);
      EffectMeans(g, g.deps[i], st);
    }
    if i :| 0 <= i < |g.deps| && g.deps[i].consumer == s && !g.deps[i].retired && g.deps[i].nature == Hard && SeenDown(g, g.deps[i], st) {
      EffectMeans(g, g.deps[i], st);
      StableDep(g, st, i);
    }
  }

  /** It is short of ok exactly when its own capacity left it so, or a live
      dependency of it is hard on something hurt, soft on something down, or async
      on something down for longer than its tolerance. Startup and optional
      dependencies change no status. */
  lemma HurtWhen(g: Estate, base: Statuses, r: nat, s: nat)
    requires Proper(g, base) && s in g.services && After(g, base, r + 1).st == After(g, base, r).st
    ensures var st := After(g, base, r).st;
            !IsFineAt(st, s) <==>
              || base[s] != OK
              || exists i :: 0 <= i < |g.deps| && g.deps[i].consumer == s && !g.deps[i].retired && Hurts(g, g.deps[i], st)
  {
    hide Effect, SeenDown, SeenHurt, Hurts, Stable, After, Proper, Below;
    var st := After(g, base, r).st;
    QuietRound(g, base, r);
    Grown(g, base, st, s);
    if st[s] != OK && base[s] == OK {
      var i := Reason(g, base, r, s);
      EffectMeans(g, g.deps[i], st);
    }
    if i :| 0 <= i < |g.deps| && g.deps[i].consumer == s && !g.deps[i].retired && Hurts(g, g.deps[i], st) {
      EffectMeans(g, g.deps[i], st);
      StableDep(g, st, i);
    }
  }

  lemma Grown(g: Estate, base: Statuses, st: Statuses, s: nat)
    requires Proper(g, base) && Proper(g, st) && Below(base, st) && s in g.services
    ensures s in base && s in st && base[s] != Unset && st[s] != Unset && base[s].Rank() <= st[s].Rank()
  {
  }

  /** The dependency on record for a service that is worse than it started. */
  lemma Reason(g: Estate, base: Statuses, r: nat, s: nat) returns (i: nat)
    requires Proper(g, base) && s in base && s in After(g, base, r).st && After(g, base, r).st[s] != base[s]
    ensures var st := After(g, base, r).st;
            && i < |g.deps| && g.deps[i].consumer == s
            && var e := Effect(g, g.deps[i], st, st); e.Some? && e.value.status.Rank() >= st[s].Rank()
  {
    hide Effect, After, Proper, Below, Unmet;
    AfterAccounts(g, base, r);
    var t := After(g, base, r);
    assert Explains(g, t.via[s], s, t.st, t.st[s].Rank());
    i := t.via[s];
  }

  lemma UnmetOnList(g: Estate, base: Statuses, r: nat, s: nat) returns (i: nat)
    requires Proper(g, base) && s in After(g, base, r).wont
    ensures Unmet(g, i, s, After(g, base, r).st)
  {
    hide Explains, After, Proper, Below, Unmet;
    AfterAccounts(g, base, r);
    i := After(g, base, r).wont[s];
  }

  lemma QuietRound(g: Estate, base: Statuses, r: nat)
    requires Proper(g, base) && After(g, base, r + 1).st == After(g, base, r).st
    ensures Stable(g, After(g, base, r).st)
  {
    hide *;
    AfterStep(g, base, r);
    QuietIsStable(g, After(g, base, r));
  }

  lemma StableDep(g: Estate, st: Statuses, i: nat)
    requires Proper(g, st) && Stable(g, st) && i < |g.deps|
    ensures var e := Effect(g, g.deps[i], st, st);
            e.Some? ==> g.deps[i].consumer in st && e.value.status.Rank() <= st[g.deps[i].consumer].Rank()
  {
    assert StableAt(g, st, i);
    EffectConsumer(g, g.deps[i], st);
    hide Effect;
  }

  /** And it would not come back from a restart exactly when a live startup
      dependency of it is seen down. */
  lemma WontRestartWhen(g: Estate, base: Statuses, r: nat, s: nat)
    requires Proper(g, base) && s in g.services && After(g, base, r + 1) == After(g, base, r)
    ensures var t := After(g, base, r);
            s in t.wont <==>
            exists i :: 0 <= i < |g.deps| && g.deps[i].consumer == s && !g.deps[i].retired && g.deps[i].nature == Startup && SeenDown(g, g.deps[i], t.st)
  {
    hide Effect, SeenDown, SeenHurt, Hurts, After, RoundUpTo, Proper, Below;
    var t := After(g, base, r);
    AfterStep(g, base, r);
    if s in t.wont {
      var i := UnmetOnList(g, base, r, s);
      EffectMeans(g, g.deps[i], t.st);
    }
    if i :| 0 <= i < |g.deps| && g.deps[i].consumer == s && !g.deps[i].retired && g.deps[i].nature == Startup && SeenDown(g, g.deps[i], t.st) {
      EffectMeans(g, g.deps[i], t.st);
      QuietFlags(g, t, |g.deps|, i);
    }
  }

  /** Every estate of up to twenty services is reported settled. */
  lemma ReportSettled(g: Estate, base: Statuses)
    requires Proper(g, base) && |g.services| <= 20
    ensures Report(g, base) == After(g, base, 20) && After(g, base, 21).st == After(g, base, 20).st
    ensures |g.services| < 20 ==> After(g, base, 21) == After(g, base, 20)
  {
    hide After, RoundUpTo, Proper, Below, Stable, Least, Report;
    ReportIs(g, base);
    SettledAfterServices(g, base, 20);
    AfterStep(g, base, 20);
    if |g.services| < 20 { StopsOnItsOwn(g, base, 20); }
  }
}
