/** An operator's override of an observation: created, amended, cleared, and
    bounded to a day after the last decision whatever the clock does. */
module Overrides {

  const SECOND: int := 1_000_000_000
  const DAY: int := 86_400

  const ACTIVE: string := "active"
  const CLEARED: string := "cleared"
  const USER: string := "user"

  /** Instants are nanoseconds since the zero time; stored stamps are whole
      seconds, rounded down. */
  function Stamp(t: int): int { t / SECOND }

  /** Stamps as stored; everything else as entered. */
  datatype Record = Record(id: string, entityType: string, entityID: string, state: string, reason: string, actor: string,
                           lifecycle: string, createdAt: int, updatedAt: int, expiresAt: int)

  datatype Spec = Spec(entityType: string, entityID: string, state: string, reason: string, expiresAt: int)
  datatype Actor = Actor(id: string, kind: string)

  predicate Space(c: char) {
    || '\t' <= c <= '\r' || c == ' ' || c == '\U{85}' || c == '\U{A0}' || c == '\U{1680}'
    || '\U{2000}' <= c <= '\U{200a}' || c == '\U{2028}' || c == '\U{2029}' || c == '\U{202f}' || c == '\U{205f}' || c == '\U{3000}'
  }

  function Trim(s: string): (r: string)
    ensures |r| <= |s|
    ensures r != "" ==> !Space(r[0]) && !Space(r[|r| - 1])
    decreases |s|
  {
    if s == "" then ""
    else if Space(s[0]) then Trim(s[1..])
    else if Space(s[|s| - 1]) then Trim(s[..|s| - 1])
    else s
  }

  predicate KnownState(s: string) { s == "up" || s == "degraded" || s == "down" || s == "unknown" }
  predicate KnownType(s: string) { s == "asset" || s == "service_instance" }

  function Baseline(o: Record): int { if o.updatedAt > o.createdAt then o.updatedAt else o.createdAt }

  /** What a stored row must satisfy, whatever the time is. */
  predicate Sound(o: Record) {
    && KnownType(o.entityType) && Trim(o.entityID) != "" && (o.lifecycle == ACTIVE || o.lifecycle == CLEARED)
    && KnownState(o.state) && Trim(o.reason) != "" && Trim(o.actor) != ""
    && o.expiresAt > o.createdAt && o.expiresAt - Baseline(o) <= DAY
  }

  predicate Timely(expires: int, now: int) { expires != 0 && now < expires <= now + DAY * SECOND }

  predicate InForce(o: Record, t: int) { o.lifecycle == ACTIVE && Stamp(t) < o.expiresAt }

  // ---- rounding to seconds

  /** Rounding both ends down to the second never stretches an accepted period
      past the day. */
  lemma RoundingKeepsTheDay(expires: int, now: int)
    requires Timely(expires, now)
    ensures 0 <= Stamp(expires) - Stamp(now) <= 86_400
  {
  }

  // ---- one override

  function Fresh(id: string, spec: Spec, actor: Actor, now: int): Record {
    Record(id, spec.entityType, spec.entityID, spec.state, Trim(spec.reason), Trim(actor.id),
           ACTIVE, Stamp(now), Stamp(now), Stamp(spec.expiresAt))
  }

  /** Nothing here speaks of rounded times but the last clause: an override
      lapsing within the second it is created in is refused. */
  predicate Creatable(spec: Spec, actor: Actor, now: int) {
    && actor.kind == USER && Trim(actor.id) != "" && KnownState(spec.state) && Timely(spec.expiresAt, now)
    && KnownType(spec.entityType) && Trim(spec.entityID) != "" && Trim(spec.reason) != ""
    && Stamp(now) < Stamp(spec.expiresAt)
  }

  function Amended(o: Record, spec: Spec, now: int): Record {
    o.(state := spec.state, reason := Trim(spec.reason), expiresAt := Stamp(spec.expiresAt), updatedAt := Stamp(now))
  }

  predicate Amendable(o: Record, spec: Spec, actor: Actor, now: int) {
    && actor.kind == USER && o.lifecycle == ACTIVE && KnownState(spec.state) && Timely(spec.expiresAt, now)
    && KnownType(o.entityType) && Trim(o.entityID) != "" && Trim(o.actor) != "" && Trim(spec.reason) != ""
    && o.createdAt < Stamp(spec.expiresAt)
  }

  predicate Clearable(o: Record, actor: Actor) { actor.kind == USER && o.lifecycle == ACTIVE }

  /** t is s from i up to j, and only white space surrounds it. */
  ghost predicate Cut(s: string, t: string, i: int, j: int) {
    0 <= i <= j <= |s| && t == s[i..j] && forall k :: 0 <= k < i || j <= k < |s| ==> Space(s[k])
  }

  /** What trimming takes off either end is white space, and it stops at the
      first and at the last character that is not. */
  lemma {:induction false} TrimCuts(s: string)
    ensures exists i, j :: Cut(s, Trim(s), i, j)
    decreases |s|
  {
    hide Space, Cut;
    if s == "" || !(Space(s[0]) || Space(s[|s| - 1])) {
      CutNothing(s);
      assert Cut(s, Trim(s), 0, |s|);
    } else if Space(s[0]) {
      TrimCuts(s[1..]);
      var i, j :| Cut(s[1..], Trim(s[1..]), i, j);
      CutFront(s, Trim(s), i, j);
    } else {
      TrimCuts(s[..|s| - 1]);
      var i, j :| Cut(s[..|s| - 1], Trim(s[..|s| - 1]), i, j);
      CutBack(s, Trim(s), i, j);
    }
  }

  lemma CutNothing(s: string)
    ensures Cut(s, s, 0, |s|)
  {
    hide Space;
  }

  lemma CutFront(s: string, t: string, i: int, j: int)
    requires s != "" && Space(s[0]) && Cut(s[1..], t, i, j)
    ensures Cut(s, t, i + 1, j + 1)
  {
    hide Space;
    assert s[1..][i..j] == s[i + 1..j + 1];
    forall k | 0 <= k < i + 1 || j + 1 <= k < |s| ensures Space(s[k]) { if k > 0 { assert s[k] == s[1..][k - 1]; } }
  }

  lemma CutBack(s: string, t: string, i: int, j: int)
    requires s != "" && Space(s[|s| - 1]) && Cut(s[..|s| - 1], t, i, j)
    ensures Cut(s, t, i, j)
  {
    hide Space;
    var init := s[..|s| - 1];
    assert init[i..j] == s[i..j];
    forall k | 0 <= k < i || j <= k < |s| ensures Space(s[k]) { if k < |init| { assert s[k] == init[k]; } }
  }

  /** Something other than white space is written there. */
  ghost predicate Filled(s: string) { exists k :: 0 <= k < |s| && !Space(s[k]) }

  lemma FilledIff(s: string)
    ensures Trim(s) != "" <==> Filled(s)
  {
    hide Trim, Space;
    TrimCuts(s);
    var i, j :| Cut(s, Trim(s), i, j);
    if i < j { assert Trim(s)[0] == s[i] && !Space(s[i]); }
  }

  /** Everything creation asks for, in the operator's terms and in nanoseconds. */
  lemma CreatedWhen(spec: Spec, actor: Actor, now: int)
    ensures Creatable(spec, actor, now) <==>
            && actor.kind == "user" && Filled(actor.id) && Filled(spec.reason) && Filled(spec.entityID)
            && spec.state in ["up", "degraded", "down", "unknown"] && spec.entityType in ["asset", "service_instance"]
            && spec.expiresAt != 0 && now < spec.expiresAt <= now + 86_400_000_000_000
            && now / 1_000_000_000 < spec.expiresAt / 1_000_000_000
  {
    hide Trim, Filled;
    FilledIff(actor.id);
    FilledIff(spec.reason);
    FilledIff(spec.entityID);
  }

  /** Everything an amendment of a stored row asks for. */
  lemma AmendedWhen(o: Record, spec: Spec, actor: Actor, now: int)
    requires o.lifecycle in ["active", "cleared"] && o.entityType in ["asset", "service_instance"] && Filled(o.entityID) && Filled(o.actor)
    ensures Amendable(o, spec, actor, now) <==>
            && actor.kind == "user" && o.lifecycle == "active" && Filled(spec.reason)
            && spec.state in ["up", "degraded", "down", "unknown"]
            && spec.expiresAt != 0 && now < spec.expiresAt <= now + 86_400_000_000_000
            && o.createdAt < spec.expiresAt / 1_000_000_000
  {
    hide Trim, Filled;
    FilledIff(o.actor);
    FilledIff(spec.reason);
    FilledIff(o.entityID);
  }

  lemma {:induction false} TrimTwice(s: string)
    ensures Trim(Trim(s)) == Trim(s)
    decreases |s|
  {
    if s != "" {
      if Space(s[0]) { TrimTwice(s[1..]); } else if Space(s[|s| - 1]) { TrimTwice(s[..|s| - 1]); }
    }
  }

  /** What creation accepts, the row check accepts: its ceiling never refuses a
      period that was within the day before rounding. */
  lemma FreshIsSound(id: string, spec: Spec, actor: Actor, now: int)
    requires Timely(spec.expiresAt, now) && actor.kind == USER
    ensures KnownState(spec.state) && Trim(actor.id) != "" && Sound(Fresh(id, spec, actor, now)) <==> Creatable(spec, actor, now)
  {
    hide Trim, Space;
    RoundingKeepsTheDay(spec.expiresAt, now);
    TrimTwice(spec.reason);
    TrimTwice(actor.id);
  }

  lemma AmendedIsSound(o: Record, spec: Spec, actor: Actor, now: int)
    requires Timely(spec.expiresAt, now) && actor.kind == USER && o.lifecycle == ACTIVE
    ensures Sound(Amended(o, spec, now)) <==> Amendable(o, spec, actor, now)
  {
    hide Trim, Space;
    RoundingKeepsTheDay(spec.expiresAt, now);
    TrimTwice(spec.reason);
  }

  class HealthOverride {
    const id: string
    var entityType: string
    var entityID: string
    var state: string
    var reason: string
    var actor: string
    var lifecycle: string
    var createdAt: int
    var updatedAt: int
    var expiresAt: int

    constructor (o: Record)
      ensures Value() == o
    {
      id := o.id;
      entityType, entityID, state, reason, actor := o.entityType, o.entityID, o.state, o.reason, o.actor;
      lifecycle, createdAt, updatedAt, expiresAt := o.lifecycle, o.createdAt, o.updatedAt, o.expiresAt;
    }

    function Value(): Record
      reads this
    {
      Record(id, entityType, entityID, state, reason, actor, lifecycle, createdAt, updatedAt, expiresAt)
    }

    /** Leaves the reason trimmed, accepted or not. */
    method Validate() returns (ok: bool)
      modifies this`reason
      ensures ok <==> old(Sound(Value()))
      ensures Value() == old(Value()).(reason := Trim(old(reason)))
    {
      ok := KnownType(entityType) && Trim(entityID) != "" && (lifecycle == ACTIVE || lifecycle == CLEARED) && KnownState(state);
      reason := Trim(reason);
      ok := ok && reason != "" && Trim(actor) != "" && expiresAt > createdAt;
      var baseline := createdAt;
      if updatedAt > baseline {
        baseline := updatedAt;
      }
      if expiresAt - baseline > DAY {
        ok := false;
      }
    }

    /** A refusal changes nothing. */
    method Amend(spec: Spec, who: Actor, now: int) returns (ok: bool)
      modifies this
      ensures ok <==> old(Amendable(Value(), spec, who, now))
      ensures Value() == if ok then old(Value()).(state := spec.state, reason := Trim(spec.reason), updatedAt := now / 1_000_000_000,
                                                  expiresAt := spec.expiresAt / 1_000_000_000) else old(Value())
    {
      hide Trim, Space, Sound;
      if who.kind != USER || lifecycle != ACTIVE || !KnownState(spec.state) || !Timely(spec.expiresAt, now) {
        return false;
      }
      AmendedIsSound(Value(), spec, who, now);
      SoundTrims(Amended(Value(), spec, now), spec.reason);
      var amended := new HealthOverride(Value());
      amended.state, amended.reason := spec.state, spec.reason;
      amended.expiresAt, amended.updatedAt := Stamp(spec.expiresAt), Stamp(now);
      ok := amended.Validate();
      if ok {
        state, reason, expiresAt, updatedAt := amended.state, amended.reason, amended.expiresAt, amended.updatedAt;
      }
    }

    method Clear(who: Actor, now: int) returns (ok: bool)
      modifies this
      ensures ok <==> old(Clearable(Value(), who))
      ensures Value() == if ok then old(Value()).(lifecycle := "cleared", updatedAt := now / 1_000_000_000) else old(Value())
    {
      ok := who.kind == USER && lifecycle == ACTIVE;
      if ok {
        lifecycle := CLEARED;
        updatedAt := Stamp(now);
      }
    }

    method IsActiveAt(t: int) returns (r: bool)
      ensures r <==> InForce(Value(), t)
    {
      r := lifecycle == ACTIVE && Stamp(t) < expiresAt;
    }
  }

  lemma SoundTrims(o: Record, reason: string)
    requires o.reason == Trim(reason)
    ensures Sound(o) <==> Sound(o.(reason := reason))
  {
    hide Trim, Space;
    TrimTwice(reason);
  }

  method NewHealthOverride(id: string, spec: Spec, who: Actor, now: int) returns (o: HealthOverride?)
    ensures o != null <==> Creatable(spec, who, now)
    ensures o != null ==> fresh(o) && o.Value() == Record(id, spec.entityType, spec.entityID, spec.state, Trim(spec.reason), Trim(who.id), "active",
                                                          now / 1_000_000_000, now / 1_000_000_000, spec.expiresAt / 1_000_000_000)
  {
    hide Trim, Space, Sound;
    var refused := who.kind != USER || Trim(who.id) == "" || !KnownState(spec.state) || !Timely(spec.expiresAt, now);
    o := new HealthOverride(Fresh(id, spec, who, now).(reason := spec.reason));
    SoundTrims(Fresh(id, spec, who, now), spec.reason);
    if !refused { FreshIsSound(id, spec, who, now); }
    var ok := o.Validate();
    if refused || !ok {
      o := null;
    }
  }

  // ---- every run of the store

  /** A row and the instant of the last decision about it. */
  datatype Entry = Entry(o: Record, decided: int)
  type Table = map<string, Entry>

  /** A form is judged when it is made and stored a little later. */
  datatype Event =
    | Create(id: string, spec: Spec, who: Actor, made: int, known: bool, now: int)
    | Amend(target: string, spec: Spec, who: Actor, now: int)
    | Clear(target: string, who: Actor, now: int)

  predicate Same(a: Record, b: Record) { a.entityType == b.entityType && a.entityID == b.entityID }

  function Shut(o: Record, now: int): Record { o.(lifecycle := CLEARED, updatedAt := Stamp(now)) }

  /** Creating over a lapsed override clears it; over one in force, it fails. */
  ghost function Created(t: Table, o: Record, made: int, now: int): Table {
    if o.id in t || exists k :: k in t && Same(t[k].o, o) && InForce(t[k].o, now) then t
    else
      (map k | k in t :: if Same(t[k].o, o) && t[k].o.lifecycle == ACTIVE then t[k].(o := Shut(t[k].o, now)) else t[k])
      [o.id := Entry(o, made)]
  }

  ghost function Step(t: Table, e: Event): Table {
    match e
    case Create(id, spec, who, made, known, now) =>
      if Creatable(spec, who, made) && known then Created(t, Fresh(id, spec, who, made), made, now) else t
    case Amend(id, spec, who, now) =>
      if id in t && Amendable(t[id].o, spec, who, now) then t[id := Entry(Amended(t[id].o, spec, now), now)] else t
    case Clear(id, who, now) =>
      if id in t && Clearable(t[id].o, who) then t[id := t[id].(o := Shut(t[id].o, now))] else t
  }

  ghost function After(events: seq<Event>): Table {
    if events == [] then map[] else Step(After(events[..|events| - 1]), events[|events| - 1])
  }

  /** A row as it can come to be. */
  ghost predicate Kept(id: string, e: Entry) {
    && e.o.id == id && Sound(e.o.(lifecycle := ACTIVE, updatedAt := Stamp(e.decided)))
    && (if e.o.lifecycle == ACTIVE then e.o.updatedAt == Stamp(e.decided) else e.o.lifecycle == CLEARED)
    && e.o.expiresAt - Stamp(e.decided) <= DAY
  }

  ghost predicate OnePerEntity(t: Table) {
    forall j, k :: j in t && k in t && t[j].o.lifecycle == ACTIVE && t[k].o.lifecycle == ACTIVE && Same(t[j].o, t[k].o) ==> j == k
  }

  ghost predicate AllKept(t: Table) { forall k :: k in t ==> Kept(k, t[k]) }

  lemma FreshKept(id: string, spec: Spec, who: Actor, made: int)
    requires Creatable(spec, who, made)
    ensures Kept(id, Entry(Fresh(id, spec, who, made), made))
  {
    hide Trim, Space;
    FreshIsSound(id, spec, who, made);
    RoundingKeepsTheDay(spec.expiresAt, made);
  }

  lemma AmendedKept(id: string, e: Entry, spec: Spec, who: Actor, now: int)
    requires Kept(id, e) && Amendable(e.o, spec, who, now)
    ensures Kept(id, Entry(Amended(e.o, spec, now), now))
  {
    hide Trim, Space;
    AmendedIsSound(e.o, spec, who, now);
    RoundingKeepsTheDay(spec.expiresAt, now);
    var r := Amended(e.o, spec, now);
    assert r == r.(lifecycle := ACTIVE, updatedAt := Stamp(now));
  }

  lemma ShutKept(id: string, e: Entry, now: int)
    requires Kept(id, e)
    ensures Kept(id, e.(o := Shut(e.o, now)))
  {
    hide Sound;
    var a := e.o.(lifecycle := ACTIVE, updatedAt := Stamp(e.decided));
    assert Shut(e.o, now).(lifecycle := ACTIVE, updatedAt := Stamp(e.decided)) == a;
  }

  lemma StepKeeps(t: Table, e: Event)
    requires AllKept(t) && OnePerEntity(t)
    ensures AllKept(Step(t, e)) && OnePerEntity(Step(t, e))
  {
    hide Kept, Creatable, Amendable;
    match e {
      case Create(id, spec, who, made, known, now) =>
        if Creatable(spec, who, made) { FreshKept(id, spec, who, made); }
        forall k | k in t ensures Kept(k, t[k].(o := Shut(t[k].o, now))) { ShutKept(k, t[k], now); }
      case Amend(id, spec, who, now) =>
        if id in t && Amendable(t[id].o, spec, who, now) { AmendedKept(id, t[id], spec, who, now); AmendedActive(t[id].o, spec, who, now); }
      case Clear(id, who, now) =>
        if id in t { ShutKept(id, t[id], now); }
    }
  }

  lemma AmendedActive(o: Record, spec: Spec, who: Actor, now: int)
    requires Amendable(o, spec, who, now)
    ensures o.lifecycle == ACTIVE
  {
    hide Trim, Space;
  }

  lemma {:induction false} RunKeeps(events: seq<Event>)
    ensures AllKept(After(events)) && OnePerEntity(After(events))
  {
    hide Kept, Step;
    if events != [] {
      RunKeeps(events[..|events| - 1]);
      StepKeeps(After(events[..|events| - 1]), events[|events| - 1]);
    }
  }

  /** Over every run, whatever the clock reads: an override is in force only
      before the day after the last decision about it is out, and no entity has
      two in force at once. */
  lemma NeverUnattended(events: seq<Event>, j: string, k: string, t: int)
    requires var s := After(events); j in s && k in s && InForce(s[j].o, t) && InForce(s[k].o, t)
    ensures t < After(events)[j].decided + 86_400_000_000_000
    ensures Same(After(events)[j].o, After(events)[k].o) ==> j == k
  {
    hide After, Sound;
    RunKeeps(events);
    assert Kept(j, After(events)[j]);
  }

  /** What no step may touch: the entity, the author and the creation time; and
      once cleared, anything at all. */
  ghost predicate Preserves(a: Table, b: Table) {
    forall k :: k in a ==>
      && k in b && Same(a[k].o, b[k].o) && a[k].o.actor == b[k].o.actor && a[k].o.createdAt == b[k].o.createdAt
      && (a[k].o.lifecycle != ACTIVE ==> a[k] == b[k])
  }

  lemma StepPreserves(t: Table, e: Event)
    ensures Preserves(t, Step(t, e))
  {
    hide Creatable, Amendable, Preserves;
    PreservesItself(t);
    match e {
      case Create(id, spec, who, made, known, now) => CreatedPreserves(t, Fresh(id, spec, who, made), made, now);
      case Amend(id, spec, who, now) =>
        if id in t && Amendable(t[id].o, spec, who, now) { AmendedPreserves(t, id, spec, who, now); }
      case Clear(id, who, now) =>
        if id in t && Clearable(t[id].o, who) { ClearedPreserves(t, id, who, now); }
    }
  }

  lemma PreservesItself(t: Table)
    ensures Preserves(t, t)
  {
  }

  lemma CreatedPreserves(t: Table, o: Record, made: int, now: int)
    ensures Preserves(t, Created(t, o, made, now))
  {
  }

  lemma AmendedPreserves(t: Table, id: string, spec: Spec, who: Actor, now: int)
    requires id in t && Amendable(t[id].o, spec, who, now)
    ensures Preserves(t, t[id := Entry(Amended(t[id].o, spec, now), now)])
  {
    AmendedActive(t[id].o, spec, who, now);
    hide Amendable;
  }

  lemma ClearedPreserves(t: Table, id: string, who: Actor, now: int)
    requires id in t && Clearable(t[id].o, who)
    ensures Preserves(t, t[id := t[id].(o := Shut(t[id].o, now))])
  {
  }

  lemma {:induction false} RunPreserves(events: seq<Event>, more: seq<Event>)
    ensures Preserves(After(events), After(events + more))
  {
    hide Step;
    if more == [] {
      assert events + more == events;
    } else {
      var init, last := more[..|more| - 1], more[|more| - 1];
      RunPreserves(events, init);
      assert (events + more)[..|events + more| - 1] == events + init;
      StepPreserves(After(events + init), last);
    }
  }

  /** Clearing leaves a sound row exactly when the clock reads no earlier than a
      day before the expiry, or the row was created no earlier than that. */
  lemma ClearSoundIff(id: string, e: Entry, now: int)
    requires Kept(id, e)
    ensures Sound(Shut(e.o, now)) <==> Stamp(now) + DAY >= e.o.expiresAt || e.o.createdAt + DAY >= e.o.expiresAt
  {
    hide Trim, Space;
  }

  /** Over every run, a row fails its own check only from a clear by a clock that
      far behind: active rows pass it, and so do the rows a creation supersedes. */
  lemma StepSoundIff(events: seq<Event>, e: Event, k: string)
    requires k in Step(After(events), e) && (k in After(events) ==> Sound(After(events)[k].o))
    ensures Sound(Step(After(events), e)[k].o) <==>
            !(&& e.Clear? && e.target == k && k in After(events) && Clearable(After(events)[k].o, e.who)
              && Stamp(e.now) + DAY < After(events)[k].o.expiresAt && After(events)[k].o.createdAt + DAY < After(events)[k].o.expiresAt)
  {
    hide After, Sound, Kept, Creatable, Amendable, Trim, Space;
    var t := After(events);
    RunKeeps(events);
    RunKeeps(events + [e]);
    assert (events + [e])[..|events|] == events && After(events + [e]) == Step(t, e) by { AfterMore(events, e); }
    var u := Step(t, e);
    assert Kept(k, u[k]);
    if u[k].o.lifecycle == ACTIVE {
      ActiveSound(k, u[k]);
    } else if k in t && t[k].o.lifecycle == ACTIVE {
      assert Kept(k, t[k]);
      ShutBy(t, e, k);
      ClearSoundIff(k, t[k], e.now);
    } else {
      StepPreserves(t, e);
      if k !in t { NewIsActive(t, e, k); }
    }
  }

  /** A creation takes effect exactly when it was acceptable as made, its entity
      is known, its id is new and no override of its entity is in force; it then
      leaves no other active override of that entity and touches no other. */
  lemma CreationOutcome(t: Table, e: Event)
    requires e.Create?
    ensures var o := Fresh(e.id, e.spec, e.who, e.made); var u := Step(t, e);
            && (u != t <==> Creatable(e.spec, e.who, e.made) && e.known && e.id !in t &&
                              forall k :: k in t && t[k].o.entityType == e.spec.entityType && t[k].o.entityID == e.spec.entityID ==> !InForce(t[k].o, e.now))
            && (u != t ==>
                  && u.Keys == t.Keys + {e.id} && u[e.id] == Entry(o, e.made)
                  && forall k :: k in t ==>
                       if t[k].o.entityType == e.spec.entityType && t[k].o.entityID == e.spec.entityID
                       then u[k].o.lifecycle != ACTIVE && (t[k].o.lifecycle != ACTIVE ==> u[k] == t[k])
                       else u[k] == t[k])
  {
    hide Creatable, InForce;
    var u := Step(t, e);
    assert e.id !in t && e.id in u ==> u != t;
  }

  lemma NewIsActive(t: Table, e: Event, k: string)
    requires k in Step(t, e) && k !in t
    ensures Step(t, e)[k].o.lifecycle == ACTIVE
  {
    hide Creatable, Amendable;
  }

  /** A row is shut by its own clear or, once lapsed, by a creation. */
  lemma ShutBy(t: Table, e: Event, k: string)
    requires k in t && k in Step(t, e) && t[k].o.lifecycle == ACTIVE && Step(t, e)[k].o.lifecycle != ACTIVE
    ensures Step(t, e)[k].o == Shut(t[k].o, e.now)
    ensures (e.Clear? && e.target == k && Clearable(t[k].o, e.who)) || (e.Create? && Stamp(e.now) >= t[k].o.expiresAt)
  {
    hide Creatable, Amendable;
    if e.Amend? && e.target in t && Amendable(t[e.target].o, e.spec, e.who, e.now) { AmendedActive(t[e.target].o, e.spec, e.who, e.now); }
    if e.Create? { assert !InForce(t[k].o, e.now); }
  }

  lemma AfterMore(events: seq<Event>, e: Event)
    ensures After(events + [e]) == Step(After(events), e)
  {
    hide Step;
    assert (events + [e])[..|events|] == events;
  }

  lemma ActiveSound(id: string, e: Entry)
    requires Kept(id, e) && e.o.lifecycle == ACTIVE
    ensures Sound(e.o)
  {
    hide Sound;
    assert e.o == e.o.(lifecycle := ACTIVE, updatedAt := Stamp(e.decided));
  }

  /** Clearing at or after the last decision always leaves a sound row. */
  lemma ClearedInOrder(id: string, e: Entry, now: int)
    requires Kept(id, e) && e.decided <= now
    ensures Sound(Shut(e.o, now))
  {
    hide Trim, Space;
  }

  /** The same request made fresh and made as an amendment: once the clock has
      reached the creation time, what may be created may be amended in, and the
      converse fails only within one second. */
  lemma SameVerdict(o: Record, spec: Spec, who: Actor, now: int)
    requires Sound(o) && o.lifecycle == ACTIVE && Same(o, Fresh("", spec, who, now)) && Trim(who.id) != "" && o.createdAt <= Stamp(now)
    ensures Creatable(spec, who, now) <==> Amendable(o, spec, who, now) && Stamp(now) < Stamp(spec.expiresAt)
  {
  }

  /** A new override is in force at once; an amended one exactly when its expiry
      is in a later second than the amendment. */
  lemma InForceAtOnce(id: string, o: Record, spec: Spec, who: Actor, now: int)
    ensures Creatable(spec, who, now) ==> InForce(Fresh(id, spec, who, now), now)
    ensures Amendable(o, spec, who, now) ==> (InForce(Amended(o, spec, now), now) <==> Stamp(now) != Stamp(spec.expiresAt))
  {
    hide Trim, Space;
    if Amendable(o, spec, who, now) { RoundingKeepsTheDay(spec.expiresAt, now); }
  }

  /** A clock set back before a clear leaves a row that fails its own check:
      created, renewed a day later, cleared by a clock that has lost that day. */
  lemma SlowClockClear()
    ensures var who := Actor("u", USER);
            var s := After([Create("a", Spec("asset", "x", "up", "r", 9 * SECOND), who, SECOND, true, SECOND),
                            Amend("a", Spec("asset", "x", "up", "r", (2 * DAY + 2) * SECOND), who, (DAY + 2) * SECOND),
                            Clear("a", who, SECOND)]);
            "a" in s && !Sound(s["a"].o)
  {
    var who := Actor("u", USER);
    var c := Create("a", Spec("asset", "x", "up", "r", 9 * SECOND), who, SECOND, true, SECOND);
    var m := Amend("a", Spec("asset", "x", "up", "r", (2 * DAY + 2) * SECOND), who, (DAY + 2) * SECOND);
    var d := Clear("a", who, SECOND);
    assert Trim("x") == "x" && Trim("r") == "r" && Trim("u") == "u";
    var o := Record("a", "asset", "x", "up", "r", "u", ACTIVE, 1, 1, 9);
    var p := o.(updatedAt := DAY + 2, expiresAt := 2 * DAY + 2);
    assert Step(map[], c) == map["a" := Entry(o, SECOND)];
    assert Step(map["a" := Entry(o, SECOND)], m) == map["a" := Entry(p, (DAY + 2) * SECOND)];
    hide Step;
    AfterThree(c, m, d);
    assert !Sound(Shut(p, SECOND));
    ClearsTo(p, (DAY + 2) * SECOND, who, SECOND);
  }

  lemma AfterThree(a: Event, b: Event, c: Event)
    ensures After([a, b, c]) == Step(Step(Step(map[], a), b), c)
  {
    hide Step;
    assert [a, b, c][..2] == [a, b] && [a, b][..1] == [a] && [a][..0] == [];
    assert After([a]) == Step(map[], a);
    assert After([a, b]) == Step(After([a]), b);
  }

  lemma ClearsTo(o: Record, decided: int, who: Actor, now: int)
    requires Clearable(o, who)
    ensures Step(map[o.id := Entry(o, decided)], Clear(o.id, who, now)) == map[o.id := Entry(Shut(o, now), decided)]
  {
  }
}
