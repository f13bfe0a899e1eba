/** What losing instances does to a service, under each availability policy. */
module Availability {
  import opened Basics
  import opened Sorting

  /** Unset is the zero value a missing lookup yields; it ranks with OK. */
  datatype Status = Unset | OK | Degraded | Down
  {
    function Rank(): nat {
      match this
      case Down => 2
      case Degraded => 1
      case _ => 0
    }

    /** The more severe of two; the receiver wins a tie. */
    function Worse(other: Status): Status { if other.Rank() > Rank() then other else this }
  }

  datatype Kind = Standalone | Quorum | ActiveActive | ActivePassive | Sharded | OtherKind
  datatype Policy = Policy(kind: Kind, minHealthy: Option<int>, failover: string)

  const FAILOVER_AUTO: string := "auto"
  const PRIMARY: string := "primary"
  const STANDBY: string := "standby"

  datatype InstanceHealth = InstanceHealth(id: string, role: string, shard: string, alive: bool)
  {
    function ShardKey(): string { if shard == "" then role else shard }
  }

  function AliveCount(): InstanceHealth -> int { (i: InstanceHealth) => if i.alive then 1 else 0 }

  function Surviving(s: seq<InstanceHealth>): int { SumBy(AliveCount(), s) }

  function Needed(p: Policy): int { if p.minHealthy.Some? && p.minHealthy.value > 0 then p.minHealthy.value else 1 }

  ghost predicate AllAlive(s: seq<InstanceHealth>) { forall i :: i in s ==> i.alive }
  ghost predicate NoneAlive(s: seq<InstanceHealth>) { forall i :: i in s ==> !i.alive }
  ghost predicate Has(s: seq<InstanceHealth>, role: string) { exists i :: i in s && i.role == role }
  ghost predicate HasAlive(s: seq<InstanceHealth>, role: string) { exists i :: i in s && i.role == role && i.alive }

  ghost predicate ShardDead(s: seq<InstanceHealth>, key: string) { forall i :: i in s && i.ShardKey() == key ==> !i.alive }

  /** Some shard has no survivor. */
  ghost predicate ShardLost(s: seq<InstanceHealth>) { exists i :: i in s && ShardDead(s, i.ShardKey()) }

  /** The policy's verdict, said of the instances rather than computed. */
  ghost function Verdict(p: Policy, s: seq<InstanceHealth>): Status {
    if AllAlive(s) then OK
    else if NoneAlive(s) then Down
    else match p.kind
      case Standalone => OK
      case Quorum => if 2 * Surviving(s) > |s| then OK else Down
      case ActiveActive => if Surviving(s) < Needed(p) then Degraded else OK
      case ActivePassive =>
        if !Has(s, PRIMARY) then Degraded
        else if HasAlive(s, PRIMARY) then OK
        else if !HasAlive(s, STANDBY) then Down
        else if p.failover == FAILOVER_AUTO then OK
        else Degraded
      case Sharded => if ShardLost(s) then Degraded else OK
      case OtherKind => Degraded
  }

  // ---- counting survivors

  lemma {:induction false} SurvivingBounds(s: seq<InstanceHealth>)
    ensures 0 <= Surviving(s) <= |s|
    ensures Surviving(s) == |s| <==> AllAlive(s)
    ensures Surviving(s) == 0 <==> NoneAlive(s)
  {
    if s != [] {
      var init, x := s[..|s| - 1], s[|s| - 1];
      SurvivingBounds(init);
      assert s == init + [x];
      assert forall i :: i in s <==> i in init || i == x;
    }
  }

  method CountSurviving(instances: seq<InstanceHealth>) returns (n: int)
    ensures n == Surviving(instances)
  {
    n := 0;
    for k := 0 to |instances|
      invariant n == Surviving(instances[..k])
    {
      assert instances[..k + 1][..k] == instances[..k];
      if instances[k].alive {
        n := n + 1;
      }
    }
    assert instances[..|instances|] == instances;
  }

  /** Which roles are present, and which of them are served. */
  method Roles(instances: seq<InstanceHealth>) returns (hasPrimary: bool, primaryAlive: bool, standbyAlive: bool)
    ensures hasPrimary == Has(instances, PRIMARY)
    ensures primaryAlive == HasAlive(instances, PRIMARY) && standbyAlive == HasAlive(instances, STANDBY)
  {
    hasPrimary, primaryAlive, standbyAlive := false, false, false;
    for k := 0 to |instances|
      invariant hasPrimary == Has(instances[..k], PRIMARY)
      invariant primaryAlive == HasAlive(instances[..k], PRIMARY) && standbyAlive == HasAlive(instances[..k], STANDBY)
    {
      var i := instances[k];
      assert instances[..k + 1] == instances[..k] + [i];
      assert forall j :: j in instances[..k + 1] <==> j in instances[..k] || j == i;
      if i.role == PRIMARY {
        hasPrimary := true;
        if i.alive {
          primaryAlive := true;
        }
      } else if i.role == STANDBY {
        if i.alive {
          standbyAlive := true;
        }
      }
    }
    assert instances[..|instances|] == instances;
  }

  /** Survivors per shard, counted instance by instance, until one shard has none. */
  method AnyShardLost(instances: seq<InstanceHealth>) returns (lost: bool)
    ensures lost == ShardLost(instances)
  {
    var alive: map<string, nat> := map[];
    for k := 0 to |instances|
      invariant forall key :: key in alive <==> exists i :: i in instances[..k] && i.ShardKey() == key
      invariant forall key :: key in alive ==> (alive[key] > 0 <==> exists i :: i in instances[..k] && i.ShardKey() == key && i.alive)
    {
      var i := instances[k];
      var key := i.ShardKey();
      assert forall j :: j in instances[..k + 1] <==> j in instances[..k] || j == i by {
        assert instances[..k + 1] == instances[..k] + [i];
      }
      if key !in alive {
        alive := alive[key := 0];
      }
      if i.alive {
        alive := alive[key := alive[key] + 1];
      }
    }
    assert instances[..|instances|] == instances;
    if key :| key in alive && alive[key] == 0 {
      return true;
    }
    forall i | i in instances ensures exists j :: j in instances && j.ShardKey() == i.ShardKey() && j.alive {
      assert i.ShardKey() in alive;
    }
    return false;
  }

  method Evaluate(p: Policy, instances: seq<InstanceHealth>) returns (r: Status)
    ensures r == Verdict(p, instances)
  {
    hide AllAlive, NoneAlive, Has, HasAlive, ShardLost;
    SurvivingBounds(instances);
    var total := |instances|;
    var surviving := CountSurviving(instances);
    if surviving == total {
      return OK;
    }
    if surviving == 0 {
      return Down;
    }
    match p.kind {
      case Standalone =>
        return OK;
      case Quorum =>
        return if surviving < total / 2 + 1 then Down else OK;
      case ActiveActive =>
        return if surviving < Needed(p) then Degraded else OK;
      case ActivePassive =>
        var hasPrimary, primaryAlive, standbyAlive := Roles(instances);
        if !hasPrimary {
          return Degraded;
        }
        if primaryAlive {
          return OK;
        }
        if !standbyAlive {
          return Down;
        }
        return if p.failover == FAILOVER_AUTO then OK else Degraded;
      case Sharded =>
        var lost := AnyShardLost(instances);
        return if lost then Degraded else OK;
      case OtherKind =>
        return Degraded;
    }
  }

  // ---- what each policy asks of the survivors

  /** Which instances are alive, by place. */
  ghost function Alive(s: seq<InstanceHealth>): set<nat> { set k: nat | k < |s| && s[k].alive }

  lemma {:induction false} SurvivingIsAlive(s: seq<InstanceHealth>)
    ensures Surviving(s) == |Alive(s)| <= |s|
  {
    if s == [] {
      assert Alive(s) == {};
    } else {
      var init := s[..|s| - 1];
      SurvivingIsAlive(init);
      assert Alive(s) == Alive(init) + if s[|s| - 1].alive then {|s| - 1} else {};
    }
  }

  lemma NoneOrAll(s: seq<InstanceHealth>)
    ensures AllAlive(s) <==> |Alive(s)| == |s|
    ensures NoneAlive(s) <==> |Alive(s)| == 0
  {
    hide AllAlive, NoneAlive;
    SurvivingBounds(s);
    SurvivingIsAlive(s);
  }

  /** Whatever the policy: untouched is fine, and nothing left is down. */
  lemma WholeOrGone(p: Policy, s: seq<InstanceHealth>)
    ensures |Alive(s)| == |s| ==> Verdict(p, s) == OK
    ensures s != [] && |Alive(s)| == 0 ==> Verdict(p, s) == Down
    ensures 0 < |Alive(s)| < |s| && p.kind == Standalone ==> Verdict(p, s) == OK
    ensures 0 < |Alive(s)| < |s| && p.kind == OtherKind ==> Verdict(p, s) == Degraded
  {
    hide AllAlive, NoneAlive;
    NoneOrAll(s);
  }

  /** Short of some but not of all, an active-active service is fine exactly when
      the configured minimum is alive, and any survivor will do without one. */
  lemma ActiveActiveThreshold(p: Policy, s: seq<InstanceHealth>)
    requires p.kind == ActiveActive && 0 < |Alive(s)| < |s|
    ensures p.minHealthy.Some? && p.minHealthy.value > 0 ==>
              Verdict(p, s) == if |Alive(s)| >= p.minHealthy.value then OK else Degraded
    ensures p.minHealthy.None? || p.minHealthy.value <= 0 ==> Verdict(p, s) == OK
  {
    hide AllAlive, NoneAlive;
    NoneOrAll(s);
    SurvivingIsAlive(s);
  }

  /** A quorum is a strict majority. */
  lemma QuorumIsMajority(p: Policy, s: seq<InstanceHealth>)
    requires p.kind == Quorum && s != []
    ensures Verdict(p, s) == if 2 * |Alive(s)| > |s| then OK else Down
  {
    hide AllAlive, NoneAlive;
    NoneOrAll(s);
    SurvivingIsAlive(s);
  }

  /** No split brain: two sides of a quorum service that are both fine share an
      instance alive on both. */
  lemma QuorumsMeet(p: Policy, s: seq<InstanceHealth>, t: seq<InstanceHealth>)
    requires p.kind == Quorum && s != [] && |s| == |t| && Verdict(p, s) == Verdict(p, t) == OK
    ensures exists k :: 0 <= k < |s| && s[k].alive && t[k].alive
  {
    hide Verdict;
    QuorumIsMajority(p, s);
    QuorumIsMajority(p, t);
    var a, b := Alive(s), Alive(t);
    SubsetCount(a + b, UpTo(|s|));
    assert |a + b| == |a| + |b| - |a * b|;
    var k :| k in a * b;
  }

  /** With a primary among the instances, the primary alone is enough; without it
      alive, a live standby is fine under automatic failover and degraded under
      any other, and no standby is down. */
  lemma ActivePassiveRoles(p: Policy, s: seq<InstanceHealth>)
    requires p.kind == ActivePassive && 0 < |Alive(s)| < |s|
    ensures var primary := exists k :: 0 <= k < |s| && s[k].role == "primary";
            var served := exists k :: 0 <= k < |s| && s[k].role == "primary" && s[k].alive;
            var standby := exists k :: 0 <= k < |s| && s[k].role == "standby" && s[k].alive;
            && (Verdict(p, s) == OK <==> served || (primary && standby && p.failover == "auto"))
            && (Verdict(p, s) == Down <==> primary && !served && !standby)
            && Verdict(p, s) != Unset
  {
    hide AllAlive, NoneAlive;
    NoneOrAll(s);
    ByPlace(s, "primary");
    ByPlace(s, "standby");
    hide Has, HasAlive;
  }

  lemma ByPlace(s: seq<InstanceHealth>, role: string)
    ensures Has(s, role) <==> exists k :: 0 <= k < |s| && s[k].role == role
    ensures HasAlive(s, role) <==> exists k :: 0 <= k < |s| && s[k].role == role && s[k].alive
  {
  }

  /** The same shard by name; an instance without one goes by its role. */
  ghost predicate Together(a: InstanceHealth, b: InstanceHealth) {
    (if b.shard != "" then b.shard else b.role) == if a.shard != "" then a.shard else a.role
  }

  /** x's shard has a survivor. */
  ghost predicate Served(s: seq<InstanceHealth>, x: InstanceHealth) {
    exists j :: 0 <= j < |s| && Together(x, s[j]) && s[j].alive
  }

  lemma ServedIff(s: seq<InstanceHealth>, x: InstanceHealth)
    ensures Served(s, x) <==> !ShardDead(s, x.ShardKey())
  {
  }

  /** A sharded service is fine exactly when every instance has a live one in its
      shard, and down only when nothing is left. */
  lemma ShardedServed(p: Policy, s: seq<InstanceHealth>)
    requires p.kind == Sharded
    ensures Verdict(p, s) == OK <==> forall k :: 0 <= k < |s| ==> Served(s, s[k])
    ensures Verdict(p, s) == Down <==> s != [] && |Alive(s)| == 0
  {
    hide Served, ShardDead, AllAlive, NoneAlive;
    NoneOrAll(s);
    forall k | 0 <= k < |s| ensures Served(s, s[k]) <==> !ShardDead(s, s[k].ShardKey()) { ServedIff(s, s[k]); }
    assert ShardLost(s) <==> !forall k :: 0 <= k < |s| ==> Served(s, s[k]);
    if s != [] { EndsServed(s, s[0]); }
  }

  lemma EndsServed(s: seq<InstanceHealth>, x: InstanceHealth)
    requires x in s
    ensures AllAlive(s) ==> forall k :: 0 <= k < |s| ==> Served(s, s[k])
    ensures NoneAlive(s) ==> !Served(s, x)
  {
    if AllAlive(s) {
      forall k | 0 <= k < |s| ensures Served(s, s[k]) { assert Together(s[k], s[k]) && s[k].alive; }
    }
  }

  // ---- what the verdict does not depend on, and how it moves

  /** The verdict depends only on which instances there are, not on their order. */
  lemma OrderIrrelevant(p: Policy, a: seq<InstanceHealth>, b: seq<InstanceHealth>)
    requires multiset(a) == multiset(b)
    ensures Verdict(p, a) == Verdict(p, b)
  {
    hide SumBy, NoDup, AllAlive, NoneAlive, Has, HasAlive, ShardLost;
    Rearranged(a, b);
    SumRearranged(AliveCount(), a, b);
    SameMembers(a, b);
  }

  lemma SameMembers(a: seq<InstanceHealth>, b: seq<InstanceHealth>)
    requires forall x :: x in a <==> x in b
    ensures AllAlive(a) == AllAlive(b) && NoneAlive(a) == NoneAlive(b) && ShardLost(a) == ShardLost(b)
    ensures forall role :: Has(a, role) == Has(b, role) && HasAlive(a, role) == HasAlive(b, role)
  {
    forall key ensures ShardDead(a, key) == ShardDead(b, key) {}
    hide ShardDead;
    if ShardLost(a) { var i :| i in a && ShardDead(a, i.ShardKey()); assert i in b && ShardDead(b, i.ShardKey()); }
    if ShardLost(b) { var i :| i in b && ShardDead(b, i.ShardKey()); assert i in a && ShardDead(a, i.ShardKey()); }
  }

  /** t is s with more instances dead. */
  ghost predicate MoreDead(s: seq<InstanceHealth>, t: seq<InstanceHealth>) {
    |s| == |t| && forall k :: 0 <= k < |s| ==> s[k].(alive := false) == t[k].(alive := false) && (t[k].alive ==> s[k].alive)
  }

  lemma {:induction false} FewerSurvive(s: seq<InstanceHealth>, t: seq<InstanceHealth>)
    requires MoreDead(s, t)
    ensures Surviving(t) <= Surviving(s)
  {
    if s != [] { FewerSurvive(s[..|s| - 1], t[..|t| - 1]); }
  }

  /** Losing more instances never improves the verdict, under any policy. */
  lemma LossNeverHelps(p: Policy, s: seq<InstanceHealth>, t: seq<InstanceHealth>)
    requires MoreDead(s, t)
    ensures Verdict(p, s).Rank() <= Verdict(p, t).Rank()
  {
    hide SumBy, AllAlive, NoneAlive, Has, HasAlive, ShardLost, MoreDead;
    FewerSurvive(s, t);
    SameLength(s, t);
    Pairwise(s, t);
    SurvivingBounds(s);
    SurvivingBounds(t);
  }

  lemma SameLength(s: seq<InstanceHealth>, t: seq<InstanceHealth>)
    requires MoreDead(s, t)
    ensures |s| == |t|
  {
  }

  lemma Pairwise(s: seq<InstanceHealth>, t: seq<InstanceHealth>)
    requires MoreDead(s, t)
    ensures AllAlive(t) ==> AllAlive(s)
    ensures NoneAlive(s) ==> NoneAlive(t)
    ensures forall role :: Has(s, role) <==> Has(t, role)
    ensures forall role :: HasAlive(t, role) ==> HasAlive(s, role)
    ensures ShardLost(s) ==> ShardLost(t)
  {
    forall i | i in s ensures exists k :: 0 <= k < |s| && s[k] == i {}
    if AllAlive(t) { forall k | 0 <= k < |s| ensures s[k].alive { assert t[k] in t; } }
    if NoneAlive(s) { forall k | 0 <= k < |t| ensures !t[k].alive { assert s[k] in s; } }
    forall role ensures Has(s, role) <==> Has(t, role) {
      if k :| 0 <= k < |s| && s[k].role == role { assert s[k] in s && t[k] in t && t[k].role == role; }
    }
    forall role | HasAlive(t, role) ensures HasAlive(s, role) {
      var i :| i in t && i.role == role && i.alive;
      var k :| 0 <= k < |t| && t[k] == i;
      assert s[k] in s;
    }
    if ShardLost(s) {
      var i :| i in s && ShardDead(s, i.ShardKey());
      var k :| 0 <= k < |s| && s[k] == i;
      assert t[k] in t;
      forall j | j in t && j.ShardKey() == t[k].ShardKey() ensures !j.alive {
        var m :| 0 <= m < |t| && t[m] == j;
        assert s[m] in s;
      }
      assert ShardDead(t, t[k].ShardKey());
    }
  }
}
