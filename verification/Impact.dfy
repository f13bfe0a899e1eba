/** How an outage spreads: the propagation rounds of the impact engine over
    services, endpoints, routes and their backend pools. */
module Impact {
  import opened Basics
  import opened Availability

  datatype Nature = Hard | Soft | Startup | Async | NoEffect
  datatype Reach = ReachUnknown | ReachOK | ReachDegraded | ReachDown
  datatype Provider = ViaEndpoint(endpoint: nat) | ViaRoute(route: nat) | NoProvider

  /** reach is the network's verdict on the consumer's path to the provider. */
  datatype Dependency = Dependency(
    consumer: nat, provider: Provider, nature: Nature, tolerance: Option<int>, retired: bool, reach: Reach)

  datatype Route = Route(frontend: nat, pool: nat)

  /** endpoints gives each endpoint's service; memberReach the network's verdict
      on a route's path to a pool member. */
  datatype Estate = Estate(
    services: set<nat>, endpoints: map<nat, nat>, routes: map<nat, Route>, pools: map<nat, seq<nat>>,
    deps: seq<Dependency>, memberReach: map<(nat, nat), Reach>, window: int)

  type Statuses = map<nat, Status>

  function Lookup(st: Statuses, id: nat): Status { if id in st then st[id] else Unset }

  function ApplyReach(s: Status, r: Reach): Status {
    match r
    case ReachDown => Down
    case ReachDegraded => s.Worse(Degraded)
    case _ => s
  }

  // ---- routes

  /** The pool members whose service is in the graph. */
  function Members(g: Estate, es: seq<nat>): (r: seq<nat>)
    ensures forall k :: 0 <= k < |r| ==> r[k] in g.endpoints && g.endpoints[r[k]] in g.services
  {
    if es == [] then []
    else
      var e := es[|es| - 1];
      Members(g, es[..|es| - 1]) + if e in g.endpoints && g.endpoints[e] in g.services then [e] else []
  }

  function MemberStatus(g: Estate, route: nat, st: Statuses, e: nat): Status
    requires e in g.endpoints
  {
    ApplyReach(Lookup(st, g.endpoints[e]), if (route, e) in g.memberReach then g.memberReach[(route, e)] else ReachUnknown)
  }

  function PoolOf(g: Estate, route: nat): (r: seq<nat>)
    requires route in g.routes
    ensures forall k :: 0 <= k < |r| ==> r[k] in g.endpoints && g.endpoints[r[k]] in g.services
  {
    var pool := g.routes[route].pool;
    Members(g, if pool in g.pools then g.pools[pool] else [])
  }

  /** A pool is down when every member is, fine when every member is, and
      degraded otherwise; an empty pool is fine. */
  ghost function PoolStatus(g: Estate, route: nat, st: Statuses): Status
    requires route in g.routes
  {
    var ms := PoolOf(g, route);
    if ms == [] then OK
    else if forall k :: 0 <= k < |ms| ==> MemberStatus(g, route, st, ms[k]) == Down then Down
    else if forall k :: 0 <= k < |ms| ==> MemberStatus(g, route, st, ms[k]).Rank() == 0 then OK
    else Degraded
  }

  ghost function RouteStatus(g: Estate, route: nat, st: Statuses): Status
    requires route in g.routes
  {
    var e := g.routes[route].frontend;
    var frontend := if e in g.endpoints then Lookup(st, g.endpoints[e]) else OK;
    frontend.Worse(PoolStatus(g, route, st))
  }

  method ComputeRouteStatus(g: Estate, route: nat, st: Statuses) returns (r: Status)
    requires route in g.routes
    ensures r == RouteStatus(g, route, st)
  {
    hide MemberStatus;
    var e := g.routes[route].frontend;
    var frontend := if e in g.endpoints then Lookup(st, g.endpoints[e]) else OK;
    var ms := PoolOf(g, route);
    var pool := OK;
    if |ms| > 0 {
      var alive, degraded := 0, 0;
      for k := 0 to |ms|
        invariant 0 <= degraded <= alive <= k
        invariant alive == 0 <==> forall j :: 0 <= j < k ==> MemberStatus(g, route, st, ms[j]) == Down
        invariant alive == k && degraded == 0 <==> forall j :: 0 <= j < k ==> MemberStatus(g, route, st, ms[j]).Rank() == 0
      {
        var s := MemberStatus(g, route, st, ms[k]);
        if s != Down {
          alive := alive + 1;
          if s == Degraded {
            degraded := degraded + 1;
          }
        }
      }
      pool := if alive == 0 then Down else if alive < |ms| || degraded > 0 then Degraded else OK;
    }
    r := frontend.Worse(pool);
  }

  // ---- one dependency

  datatype Propagation = Propagation(status: Status, wontRestart: bool)

  /** The nature table. */
  function Propagate(nature: Nature, tolerance: Option<int>, provider: Status, window: int): Propagation {
    if provider == OK then Propagation(OK, false)
    else match nature
      case Hard => Propagation(if provider == Down then Down else Degraded, false)
      case Soft => Propagation(if provider == Down then Degraded else OK, false)
      case Async =>
        Propagation(if provider == Down && tolerance.Some? && tolerance.value < window then Degraded else OK, false)
      case Startup => Propagation(OK, provider == Down)
      case NoEffect => Propagation(OK, false)
  }

  /** The provider as the consumer sees it: endpoints as they stand, routes as
      they stood when the round began. */
  ghost function ProviderStatus(g: Estate, d: Dependency, st: Statuses, start: Statuses): Option<Status> {
    match d.provider
    case ViaEndpoint(e) =>
      if e in g.endpoints && g.endpoints[e] in g.services then Some(Lookup(st, g.endpoints[e])) else None
    case ViaRoute(r) => if r in g.routes then Some(RouteStatus(g, r, start)) else None
    case NoProvider => None
  }

  /** What dependency d does to its consumer, if it does anything at all. */
  ghost function Effect(g: Estate, d: Dependency, st: Statuses, start: Statuses): Option<Propagation> {
    var p := ProviderStatus(g, d, st, start);
    if d.retired || d.consumer !in g.services || p.None? then None
    else Some(Propagate(d.nature, d.tolerance, ApplyReach(p.value, d.reach), g.window))
  }

  // ---- order on statuses

  ghost predicate Proper(g: Estate, st: Statuses) {
    st.Keys == g.services && forall s :: s in st ==> st[s] != Unset
  }

  ghost predicate Below(a: Statuses, b: Statuses) {
    a.Keys == b.Keys && forall s :: s in a ==> a[s].Rank() <= b[s].Rank()
  }

  /** How bad a provider looks to the nature table: a missing status counts as
      degraded there, although it ranks as fine. */
  function Seen(s: Status): nat {
    match s
    case OK => 0
    case Down => 2
    case _ => 1
  }

  lemma PropagateMonotone(nature: Nature, tolerance: Option<int>, p: Status, q: Status, v: int, w: int)
    requires Seen(p) <= Seen(q) && v <= w
    ensures var a, b := Propagate(nature, tolerance, p, v), Propagate(nature, tolerance, q, w);
            a.status.Rank() <= b.status.Rank() && (a.wontRestart ==> b.wontRestart) && a.status != Unset
  {
  }

  lemma LookupMonotone(g: Estate, a: Statuses, b: Statuses, id: nat)
    requires Proper(g, a) && Proper(g, b) && Below(a, b)
    ensures Seen(Lookup(a, id)) <= Seen(Lookup(b, id)) && Lookup(a, id).Rank() <= Lookup(b, id).Rank()
    ensures Lookup(a, id) == Unset <==> Lookup(b, id) == Unset
  {
  }

  lemma PoolMonotone(g: Estate, route: nat, a: Statuses, b: Statuses)
    requires Proper(g, a) && Proper(g, b) && Below(a, b) && route in g.routes
    ensures PoolStatus(g, route, a).Rank() <= PoolStatus(g, route, b).Rank()
  {
    hide Lookup, Proper, Below;
    var ms := PoolOf(g, route);
    forall k | 0 <= k < |ms| ensures MemberStatus(g, route, a, ms[k]).Rank() <= MemberStatus(g, route, b, ms[k]).Rank() {
      LookupMonotone(g, a, b, g.endpoints[ms[k]]);
    }
  }

  lemma RouteMonotone(g: Estate, h: Estate, r: nat, a: Statuses, b: Statuses)
    requires h == g.(window := h.window) && r in g.routes && Proper(g, a) && Proper(g, b) && Below(a, b)
    ensures Seen(RouteStatus(g, r, a)) <= Seen(RouteStatus(h, r, b))
  {
    hide Lookup, PoolStatus, Proper, Below;
    PoolMonotone(g, r, a, b);
    SamePool(g, h, r, b);
    PoolProper(g, r, a);
    PoolProper(g, r, b);
    var e := g.routes[r].frontend;
    if e in g.endpoints { LookupMonotone(g, a, b, g.endpoints[e]); }
  }

  /** Worse statuses never make a dependency gentler. */
  lemma EffectMonotone(g: Estate, h: Estate, d: Dependency, a: Statuses, a0: Statuses, b: Statuses, b0: Statuses)
    requires h == g.(window := h.window) && g.window <= h.window
    requires Proper(g, a) && Proper(g, b) && Below(a, b) && Proper(g, a0) && Proper(g, b0) && Below(a0, b0)
    ensures var e, f := Effect(g, d, a, a0), Effect(h, d, b, b0);
            && (e.None? <==> f.None?)
            && (e.Some? ==> e.value.status.Rank() <= f.value.status.Rank() && (e.value.wontRestart ==> f.value.wontRestart))
            && (e.Some? ==> e.value.status != Unset)
  {
    hide ProviderStatus, Proper, Below, Propagate, ApplyReach;
    ProviderMonotone(g, h, d, a, a0, b, b0);
    var p, q := ProviderStatus(g, d, a, a0), ProviderStatus(h, d, b, b0);
    if p.Some? {
      ReachMonotone(p.value, q.value, d.reach);
      PropagateMonotone(d.nature, d.tolerance, ApplyReach(p.value, d.reach), ApplyReach(q.value, d.reach), g.window, h.window);
    }
  }

  lemma ReachMonotone(p: Status, q: Status, r: Reach)
    requires Seen(p) <= Seen(q)
    ensures Seen(ApplyReach(p, r)) <= Seen(ApplyReach(q, r))
  {
  }

  lemma ProviderMonotone(g: Estate, h: Estate, d: Dependency, a: Statuses, a0: Statuses, b: Statuses, b0: Statuses)
    requires h == g.(window := h.window)
    requires Proper(g, a) && Proper(g, b) && Below(a, b) && Proper(g, a0) && Proper(g, b0) && Below(a0, b0)
    ensures var p, q := ProviderStatus(g, d, a, a0), ProviderStatus(h, d, b, b0);
            (p.None? <==> q.None?) && (p.Some? ==> Seen(p.value) <= Seen(q.value))
  {
    hide Lookup, RouteStatus, Proper, Below, Seen;
    match d.provider {
      case ViaEndpoint(e) =>
        if e in g.endpoints { LookupMonotone(g, a, b, g.endpoints[e]); }
      case ViaRoute(r) =>
        if r in g.routes { RouteMonotone(g, h, r, a0, b0); }
      case NoProvider =>
    }
  }

  lemma PoolProper(g: Estate, route: nat, st: Statuses)
    requires route in g.routes
    ensures PoolStatus(g, route, st) != Unset
  {
  }

  lemma {:induction false} SameMembers(g: Estate, h: Estate, es: seq<nat>)
    requires h == g.(window := h.window, deps := h.deps)
    ensures Members(g, es) == Members(h, es)
  {
    if es != [] { SameMembers(g, h, es[..|es| - 1]); }
  }

  lemma SamePool(g: Estate, h: Estate, route: nat, st: Statuses)
    requires h == g.(window := h.window, deps := h.deps) && route in g.routes
    ensures PoolStatus(g, route, st) == PoolStatus(h, route, st)
  {
    hide Members, Lookup, ApplyReach;
    var pool := g.routes[route].pool;
    SameMembers(g, h, if pool in g.pools then g.pools[pool] else []);
    var ms := PoolOf(g, route);
    assert forall k :: 0 <= k < |ms| ==> MemberStatus(g, route, st, ms[k]) == MemberStatus(h, route, st, ms[k]);
  }
}
