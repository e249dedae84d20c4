/** The automatic-query limiter: a budget per room and hour, a cooldown per room and query,
    and a policy that degrades for good once the budget is spent. */
module AutoQuery {
  import opened Options
  import opened Text
  import opened Budget

  const LOCAL_AUTO := "local-auto"
  const HOUR := 3_600_000_000_000

  datatype Policy = Policy(mode: string, allowed: seq<string>, budget: int, cooldown: int, target: string)

  // ---------------------------------------------------------------------------
  // Under the lock
  // ---------------------------------------------------------------------------

  datatype Decision = Allowed | Denied(reason: string)

  /** Grant times per room, and per room and query the end of the cooldown. */
  datatype Limits = Limits(hits: map<string, seq<int>>, until: map<string, int>)

  /** One evaluation that got as far as the lock. */
  datatype Ask = Ask(room: string, key: string, now: int, policy: Policy)

  function Hits(l: Limits, room: string): seq<int> {
    if room in l.hits then l.hits[room] else []
  }

  function EvaluateLocked(l: Limits, ask: Ask): (Decision, Limits) {
    if ask.key in l.until && ask.now < l.until[ask.key] then (Denied("cooldown"), l)
    else
      var kept := Recent(Hits(l, ask.room), ask.now - HOUR);
      if |kept| >= ask.policy.budget then (Denied("budget"), l.(hits := l.hits[ask.room := kept]))
      else (Allowed, Limits(l.hits[ask.room := kept + [ask.now]],
                            l.until[ask.key := ask.now + ask.policy.cooldown]))
  }

  datatype Served = Served(decisions: seq<Decision>, limits: Limits)

  function LockedRun(asks: seq<Ask>): (r: Served)
    ensures |r.decisions| == |asks|
  {
    if asks == [] then Served([], Limits(map[], map[]))
    else
      var before := LockedRun(asks[..|asks| - 1]);
      var (d, l) := EvaluateLocked(before.limits, asks[|asks| - 1]);
      Served(before.decisions + [d], l)
  }

  // ---------------------------------------------------------------------------
  // The specification: a decision depends on the grants so far and on nothing else
  // ---------------------------------------------------------------------------

  /** Some earlier grant of the same room and query is less than its cooldown ago. */
  ghost predicate CoolingDown(log: seq<Ask>, key: string, now: int) {
    exists g :: g in log && g.key == key && now < g.now + g.policy.cooldown
  }

  /** The grants of the room after the cutoff. */
  function RoomGrants(log: seq<Ask>, room: string, cutoff: int): nat {
    if log == [] then 0
    else
      var last := log[|log| - 1];
      RoomGrants(log[..|log| - 1], room, cutoff) + (if last.room == room && last.now > cutoff then 1 else 0)
  }

  ghost function SpecDecide(log: seq<Ask>, ask: Ask): Decision {
    if CoolingDown(log, ask.key, ask.now) then Denied("cooldown")
    else if RoomGrants(log, ask.room, ask.now - HOUR) >= ask.policy.budget then Denied("budget")
    else Allowed
  }

  ghost function Granted(asks: seq<Ask>): seq<Ask> {
    if asks == [] then []
    else
      var log := Granted(asks[..|asks| - 1]);
      var ask := asks[|asks| - 1];
      if SpecDecide(log, ask).Allowed? then log + [ask] else log
  }

  predicate ClockOk(asks: seq<Ask>) {
    forall i, j :: 0 <= i < j < |asks| ==> asks[i].now <= asks[j].now
  }

  /** What the limiter remembers agrees with the log wherever a later evaluation can look. */
  ghost predicate Remembers(l: Limits, log: seq<Ask>, last: int) {
    && (forall key, now :: now >= last ==>
          ((key in l.until && now < l.until[key]) <==> CoolingDown(log, key, now)))
    && (forall room, cutoff :: cutoff >= last - HOUR ==>
          |Recent(Hits(l, room), cutoff)| == RoomGrants(log, room, cutoff))
  }

  lemma {:induction false} RoomGrantsAppend(log: seq<Ask>, ask: Ask, room: string, cutoff: int)
    ensures RoomGrants(log + [ask], room, cutoff)
         == RoomGrants(log, room, cutoff) + (if ask.room == room && ask.now > cutoff then 1 else 0)
  {
    assert (log + [ask])[..|log|] == log;
  }

  lemma {:induction false} DecidesAsSpec(l: Limits, log: seq<Ask>, ask: Ask, last: int)
    requires Remembers(l, log, last) && last <= ask.now
    ensures EvaluateLocked(l, ask).0 == SpecDecide(log, ask)
  {
    assert |Recent(Hits(l, ask.room), ask.now - HOUR)| == RoomGrants(log, ask.room, ask.now - HOUR);
  }

  /** An evaluation touches the hits of its own room only. */
  lemma HitsOf(l: Limits, ask: Ask, room: string)
    ensures var kept, after := Recent(Hits(l, ask.room), ask.now - HOUR), Hits(EvaluateLocked(l, ask).1, room);
            if room != ask.room || EvaluateLocked(l, ask).0 == Denied("cooldown") then after == Hits(l, room)
            else if EvaluateLocked(l, ask).0.Allowed? then after == kept + [ask.now]
            else after == kept
  {
  }

  lemma {:induction false} HitsAfter(l: Limits, ask: Ask, room: string, cutoff: int)
    requires cutoff >= ask.now - HOUR
    ensures Recent(Hits(EvaluateLocked(l, ask).1, room), cutoff)
         == Recent(Hits(l, room), cutoff)
            + (if EvaluateLocked(l, ask).0.Allowed? && room == ask.room && ask.now > cutoff then [ask.now] else [])
  {
    HitsOf(l, ask, room);
    var kept := Recent(Hits(l, ask.room), ask.now - HOUR);
    RecentTwice(Hits(l, ask.room), ask.now - HOUR, cutoff);
    RecentAppend(kept, ask.now, cutoff);
  }

  lemma StepRemembersRooms(l: Limits, log: seq<Ask>, ask: Ask, room: string, cutoff: int)
    requires cutoff >= ask.now - HOUR && EvaluateLocked(l, ask).0 == SpecDecide(log, ask)
    requires |Recent(Hits(l, room), cutoff)| == RoomGrants(log, room, cutoff)
    ensures |Recent(Hits(EvaluateLocked(l, ask).1, room), cutoff)|
         == RoomGrants(if SpecDecide(log, ask).Allowed? then log + [ask] else log, room, cutoff)
  {
    HitsAfter(l, ask, room, cutoff);
    RoomGrantsAppend(log, ask, room, cutoff);
  }

  lemma {:induction false} CoolingDownAppend(log: seq<Ask>, ask: Ask, key: string, now: int)
    ensures CoolingDown(log + [ask], key, now)
       <==> CoolingDown(log, key, now) || (key == ask.key && now < ask.now + ask.policy.cooldown)
  {
    assert ask in log + [ask];
    assert forall g :: g in log + [ask] <==> g in log || g == ask;
  }

  lemma StepRemembersKeys(l: Limits, log: seq<Ask>, ask: Ask, last: int, key: string, now: int)
    requires Remembers(l, log, last) && last <= ask.now <= now
    ensures (key in EvaluateLocked(l, ask).1.until && now < EvaluateLocked(l, ask).1.until[key])
       <==> CoolingDown(if SpecDecide(log, ask).Allowed? then log + [ask] else log, key, now)
  {
    DecidesAsSpec(l, log, ask, last);
    CoolingDownAppend(log, ask, key, now);
    assert (key in l.until && now < l.until[key]) <==> CoolingDown(log, key, now);
    assert CoolingDown(log, ask.key, now) ==> CoolingDown(log, ask.key, ask.now);
  }

  lemma {:induction false} RunRemembers(asks: seq<Ask>)
    requires ClockOk(asks)
    ensures Remembers(LockedRun(asks).limits, Granted(asks), if asks == [] then 0 else asks[|asks| - 1].now)
    ensures asks == [] ==> forall last :: Remembers(LockedRun(asks).limits, Granted(asks), last)
  {
    if asks != [] {
      var earlier, ask := asks[..|asks| - 1], asks[|asks| - 1];
      RunRemembers(earlier);
      var last := if earlier == [] then ask.now else earlier[|earlier| - 1].now;
      var l, log := LockedRun(earlier).limits, Granted(earlier);
      assert Remembers(l, log, last);
      var l' := LockedRun(asks).limits;
      forall key, now | now >= ask.now
        ensures (key in l'.until && now < l'.until[key]) <==> CoolingDown(Granted(asks), key, now)
      {
        StepRemembersKeys(l, log, ask, last, key, now);
      }
      forall room, cutoff | cutoff >= ask.now - HOUR
        ensures |Recent(Hits(l', room), cutoff)| == RoomGrants(Granted(asks), room, cutoff)
      {
        DecidesAsSpec(l, log, ask, last);
        StepRemembersRooms(l, log, ask, room, cutoff);
      }
    }
  }

  /** Main result: over any run with a clock that does not go back, and any policy at each
      evaluation, every decision is the one the grants so far call for. A denial leaves the
      grants as they are, so it uses up neither budget nor cooldown. */
  lemma LimiterDecidesByGrants(asks: seq<Ask>, i: nat)
    requires ClockOk(asks) && i < |asks|
    ensures LockedRun(asks[..i + 1]).decisions[i] == SpecDecide(Granted(asks[..i]), asks[i])
  {
    var earlier := asks[..i];
    assert asks[..i + 1][..i] == earlier;
    RunRemembers(earlier);
    DecidesAsSpec(LockedRun(earlier).limits, Granted(earlier), asks[i],
                  if i == 0 then asks[i].now else asks[i - 1].now);
  }

  /** The run's decisions do not change when more follow. */
  lemma {:induction false} DecisionsStay(asks: seq<Ask>, i: nat)
    requires i < |asks|
    ensures LockedRun(asks).decisions[i] == LockedRun(asks[..i + 1]).decisions[i]
  {
    if i + 1 == |asks| {
      assert asks[..i + 1] == asks;
    } else {
      DecisionsStay(asks[..|asks| - 1], i);
      assert asks[..|asks| - 1][..i + 1] == asks[..i + 1];
    }
  }

  /** With this grant, the room has at most the budget of grants in the trailing hour, and
      every earlier grant of the same room and query is at least its cooldown ago. */
  ghost predicate WithinLimits(log: seq<Ask>, ask: Ask) {
    && RoomGrants(log + [ask], ask.room, ask.now - HOUR) <= ask.policy.budget
    && (forall g :: g in log && g.key == ask.key ==> g.now + g.policy.cooldown <= ask.now)
  }

  lemma {:induction false} AllowedMeansWithinLimits(log: seq<Ask>, ask: Ask)
    requires SpecDecide(log, ask).Allowed?
    ensures WithinLimits(log, ask)
  {
    RoomGrantsAppend(log, ask, ask.room, ask.now - HOUR);
  }

  /** Main result, the limits themselves: every evaluation that is allowed keeps them. */
  lemma {:induction false} GrantsKeepLimits(asks: seq<Ask>, i: nat)
    requires ClockOk(asks) && i < |asks| && LockedRun(asks).decisions[i].Allowed?
    ensures WithinLimits(Granted(asks[..i]), asks[i])
  {
    DecisionsStay(asks, i);
    LimiterDecidesByGrants(asks, i);
    AllowedMeansWithinLimits(Granted(asks[..i]), asks[i]);
  }

  // ---------------------------------------------------------------------------
  // The manager
  // ---------------------------------------------------------------------------

  /** normalize is the intent catalog's, lower is strings.ToLower. fallback is the manager's own
      policy for rooms without one; catalog is what normalizing fills gaps with. */
  datatype Config = Config(
    normalize: string -> Option<string>, lower: string -> string, fallback: Policy, catalog: Policy, hasStore: bool)

  datatype Message = Message(chatID: string, room: string)

  function NormalizeHandlers(cfg: Config, raw: seq<string>): seq<string> {
    if raw == [] then []
    else (match cfg.normalize(raw[0]) case Some(id) => [id] case None => []) + NormalizeHandlers(cfg, raw[1..])
  }

  function Normalize(cfg: Config, p: Policy): Policy {
    Policy(
      if p.mode == "" then cfg.catalog.mode else p.mode,
      if p.allowed == [] then cfg.catalog.allowed else NormalizeHandlers(cfg, p.allowed),
      if p.budget <= 0 then cfg.catalog.budget else p.budget,
      if p.cooldown <= 0 then cfg.catalog.cooldown else p.cooldown,
      if p.target == "" then cfg.catalog.target else p.target)
  }

  function RoomID(msg: Message): string {
    if Trim(msg.chatID) != "" then Trim(msg.chatID) else Trim(msg.room)
  }

  /** The limiter counts messages without a room under one name. */
  function LimitRoomID(msg: Message): string {
    if RoomID(msg) == "" then "_default" else RoomID(msg)
  }

  function QueryKey(cfg: Config, room: string, query: string): string {
    cfg.lower(Trim(room)) + "|" + cfg.lower(Trim(query))
  }

  function PolicyFor(cfg: Config, stored: map<string, Policy>, msg: Message): Policy {
    if RoomID(msg) == "" || !cfg.hasStore || RoomID(msg) !in stored then cfg.fallback
    else Normalize(cfg, stored[RoomID(msg)])
  }

  predicate AllowsHandler(cfg: Config, p: Policy, handler: string) {
    match cfg.normalize(handler)
    case None => false
    case Some(id) => id != "" && id in Normalize(cfg, p).allowed
  }

  predicate Degrades(cfg: Config, p: Policy) {
    p.target != "" && p.target != p.mode && cfg.hasStore
  }

  function AskOf(cfg: Config, msg: Message, query: string, now: int, p: Policy): Ask {
    Ask(LimitRoomID(msg), QueryKey(cfg, LimitRoomID(msg), query), now, p)
  }

  datatype World = World(limits: Limits, stored: map<string, Policy>)

  function Evaluate(cfg: Config, w: World, msg: Message, query: string, handlers: seq<string>, now: int)
    : (Decision, World)
  {
    var p := PolicyFor(cfg, w.stored, msg);
    if p.mode != LOCAL_AUTO then (Denied("room-policy"), w)
    else if forall h :: h in handlers ==> !AllowsHandler(cfg, p, h) then (Denied("handler-not-allowed"), w)
    else
      var (d, l) := EvaluateLocked(w.limits, AskOf(cfg, msg, query, now, p));
      (d, World(l, if d == Denied("budget") && Degrades(cfg, p)
                   then w.stored[Trim(LimitRoomID(msg)) := Normalize(cfg, p.(mode := p.target))]
                   else w.stored))
  }

  class AutoQueryManager {
    const cfg: Config
    var roomHits: map<string, seq<int>>
    var queryCooldowns: map<string, int>
    var stored: map<string, Policy>

    ghost function View(): World
      reads this
    {
      World(Limits(roomHits, queryCooldowns), stored)
    }

    constructor (cfg: Config, stored: map<string, Policy>)
      ensures this.cfg == cfg && View() == World(Limits(map[], map[]), stored)
    {
      this.cfg, this.stored, roomHits, queryCooldowns := cfg, stored, map[], map[];
    }

    method PruneWindow(hits: seq<int>, now: int, window: int) returns (filtered: seq<int>)
      ensures filtered == Recent(hits, now - window)
    {
      filtered := [];
      for i := 0 to |hits|
        invariant filtered == Recent(hits[..i], now - window)
      {
        assert hits[..i + 1][..i] == hits[..i];
        if hits[i] > now - window {
          filtered := filtered + [hits[i]];
        }
      }
      assert hits[..|hits|] == hits;
    }

    method HasAllowedHandler(p: Policy, handlers: seq<string>) returns (found: bool)
      ensures found <==> exists h :: h in handlers && AllowsHandler(cfg, p, h)
    {
      for i := 0 to |handlers|
        invariant forall h :: h in handlers[..i] ==> !AllowsHandler(cfg, p, h)
      {
        if AllowsHandler(cfg, p, handlers[i]) {
          return true;
        }
      }
      found := false;
    }

    method EvaluateUnderLock(ask: Ask) returns (d: Decision)
      modifies this
      ensures (d, View().limits) == EvaluateLocked(old(View().limits), ask)
      ensures stored == old(stored)
    {
      if ask.key in queryCooldowns && ask.now < queryCooldowns[ask.key] {
        return Denied("cooldown");
      }
      var hits := PruneWindow(if ask.room in roomHits then roomHits[ask.room] else [], ask.now, HOUR);
      if |hits| >= ask.policy.budget {
        roomHits := roomHits[ask.room := hits];
        return Denied("budget");
      }
      roomHits := roomHits[ask.room := hits + [ask.now]];
      queryCooldowns := queryCooldowns[ask.key := ask.now + ask.policy.cooldown];
      d := Allowed;
    }

    method SetRoomPolicy(room: string, p: Policy) returns (ok: bool)
      modifies this
      ensures ok == cfg.hasStore
      ensures View() == Next(cfg, old(View()), SetPolicy(room, p))
      ensures forall msg :: ok && RoomID(msg) == Trim(room) != "" && CatalogOk(cfg, p) ==>
                (PolicyFor(cfg, stored, msg) == Normalize(cfg, p) <==> KnowsSome(cfg, p))
      ensures forall msg :: !ok || RoomID(msg) != Trim(room) ==>
                PolicyFor(cfg, stored, msg) == PolicyFor(cfg, old(stored), msg)
    {
      ok := cfg.hasStore;
      if ok {
        stored := stored[Trim(room) := Normalize(cfg, p)];
        if CatalogOk(cfg, p) {
          NormalizedTwice(cfg, p);
        }
      }
    }

    method EvaluateAutomatic(msg: Message, query: string, handlers: seq<string>, now: int) returns (d: Decision)
      modifies this
      ensures (d, View()) == Evaluate(cfg, old(View()), msg, query, handlers, now)
    {
      var p := PolicyFor(cfg, stored, msg);
      if p.mode != LOCAL_AUTO {
        return Denied("room-policy");
      }
      var found := HasAllowedHandler(p, handlers);
      if !found {
        return Denied("handler-not-allowed");
      }
      d := EvaluateUnderLock(AskOf(cfg, msg, query, now, p));
      if d == Denied("budget") && Degrades(cfg, p) {
        stored := stored[Trim(LimitRoomID(msg)) := Normalize(cfg, p.(mode := p.target))];
      }
    }
  }

  // ---------------------------------------------------------------------------
  // Degradation
  // ---------------------------------------------------------------------------

  datatype Event =
    | Query(msg: Message, query: string, handlers: seq<string>, now: int)
    | SetPolicy(room: string, policy: Policy)

  function Next(cfg: Config, w: World, e: Event): World {
    match e
    case Query(msg, query, handlers, now) => Evaluate(cfg, w, msg, query, handlers, now).1
    case SetPolicy(room, p) =>
      if cfg.hasStore then w.(stored := w.stored[Trim(room) := Normalize(cfg, p)]) else w
  }

  function After(cfg: Config, w: World, events: seq<Event>): World
    decreases |events|
  {
    if events == [] then w else After(cfg, Next(cfg, w, events[0]), events[1..])
  }

  /** The room's stored policy allows no automatic query. */
  predicate Degraded(w: World, room: string) {
    room in w.stored && w.stored[room].mode != "" && w.stored[room].mode != LOCAL_AUTO
  }

  /** This query is denied for the budget, and the denial degrades the policy in force. */
  predicate DegradesNow(cfg: Config, w: World, q: Event)
    requires q.Query?
  {
    && Evaluate(cfg, w, q.msg, q.query, q.handlers, q.now).0 == Denied("budget")
    && Degrades(cfg, PolicyFor(cfg, w.stored, q.msg))
  }

  lemma {:induction false} DefaultRoomIsTrimmed()
    ensures Trim("_default") == "_default"
  {}

  lemma LimitRoomIDIsTrimmed(msg: Message)
    ensures Trim(LimitRoomID(msg)) == LimitRoomID(msg)
  {
    TrimTwice(msg.chatID);
    TrimTwice(msg.room);
    DefaultRoomIsTrimmed();
  }

  lemma {:induction false} EvaluateKeepsDegraded(cfg: Config, w: World, q: Event, room: string)
    requires q.Query? && Degraded(w, room)
    ensures Degraded(Next(cfg, w, q), room)
  {
    LimitRoomIDIsTrimmed(q.msg);
  }

  lemma {:induction false} StaysDegraded(cfg: Config, w: World, events: seq<Event>, room: string)
    requires Degraded(w, room)
    requires forall e :: e in events && e.SetPolicy? ==> Trim(e.room) != room
    ensures Degraded(After(cfg, w, events), room)
    decreases |events|
  {
    if events != [] {
      assert events[0] in events;
      if events[0].Query? {
        EvaluateKeepsDegraded(cfg, w, events[0], room);
      }
      StaysDegraded(cfg, Next(cfg, w, events[0]), events[1..], room);
    }
  }

  /** Main result: after a budget denial that degrades a room the store knows, whatever
      happens short of setting that room's policy, no automatic query of the room is granted. */
  lemma {:induction false} DegradationIsSticky(cfg: Config, w: World, q: Event, events: seq<Event>, later: Event)
    requires q.Query? && later.Query? && DegradesNow(cfg, w, q)
    requires RoomID(q.msg) != "" && RoomID(later.msg) == RoomID(q.msg)
    requires forall e :: e in events && e.SetPolicy? ==> Trim(e.room) != RoomID(q.msg)
    ensures Evaluate(cfg, After(cfg, Next(cfg, w, q), events), later.msg, later.query, later.handlers, later.now).0
         == Denied("room-policy")
  {
    LimitRoomIDIsTrimmed(q.msg);
    StaysDegraded(cfg, Next(cfg, w, q), events, RoomID(q.msg));
  }

  /** It takes effect exactly when the message names its room: without one the denial is
      written under a name that is never read back. */
  lemma DegradationTakesEffectIffRoomKnown(cfg: Config, w: World, q: Event)
    requires q.Query? && DegradesNow(cfg, w, q)
    ensures PolicyFor(cfg, Next(cfg, w, q).stored, q.msg).mode != LOCAL_AUTO <==> RoomID(q.msg) != ""
  {
    LimitRoomIDIsTrimmed(q.msg);
  }

  // ---------------------------------------------------------------------------
  // Reading a stored policy back
  // ---------------------------------------------------------------------------

  /** The catalog's own ids are their own normal form, and the defaults are such ids. */
  ghost predicate CatalogOk(cfg: Config, p: Policy) {
    && (forall h :: h in p.allowed ==>
          match cfg.normalize(h) case Some(id) => cfg.normalize(id) == Some(id) case None => true)
    && (forall h :: h in cfg.catalog.allowed ==> cfg.normalize(h) == Some(h))
    && cfg.catalog.allowed != [] && cfg.catalog.mode != "" && cfg.catalog.target != ""
    && cfg.catalog.budget > 0 && cfg.catalog.cooldown > 0
  }

  lemma {:induction false} NormalizeIDs(cfg: Config, ids: seq<string>)
    requires forall h :: h in ids ==> cfg.normalize(h) == Some(h)
    ensures NormalizeHandlers(cfg, ids) == ids
  {
    if ids != [] {
      assert ids[0] in ids;
      forall h | h in ids[1..] ensures h in ids {}
      NormalizeIDs(cfg, ids[1..]);
    }
  }

  lemma {:induction false} NormalizeGivesIDs(cfg: Config, raw: seq<string>)
    requires forall h :: h in raw ==>
                           match cfg.normalize(h) case Some(id) => cfg.normalize(id) == Some(id) case None => true
    ensures forall id :: id in NormalizeHandlers(cfg, raw) ==> cfg.normalize(id) == Some(id)
    ensures NormalizeHandlers(cfg, raw) != [] <==> exists h :: h in raw && cfg.normalize(h).Some?
  {
    if raw != [] {
      assert raw[0] in raw;
      forall h | h in raw[1..] ensures h in raw {}
      NormalizeGivesIDs(cfg, raw[1..]);
    }
  }

  /** The policy lists no handlers, or at least one that the catalog knows. */
  ghost predicate KnowsSome(cfg: Config, p: Policy) {
    p.allowed == [] || exists h :: h in p.allowed && cfg.normalize(h).Some?
  }

  /** Normalizing again changes nothing exactly then. Otherwise nothing was left of the list, and
      the catalog's default handlers take its place. */
  lemma NormalizedTwice(cfg: Config, p: Policy)
    requires CatalogOk(cfg, p)
    ensures Normalize(cfg, Normalize(cfg, p)) == Normalize(cfg, p) <==> KnowsSome(cfg, p)
  {
    NormalizeGivesIDs(cfg, p.allowed);
    NormalizeIDs(cfg, NormalizeHandlers(cfg, p.allowed));
    NormalizeIDs(cfg, cfg.catalog.allowed);
  }

  /** SetRoomPolicy followed by Policy returns the policy that was set, normalized, exactly when
      it lists no handlers or at least one that the catalog knows. Otherwise the room reads back
      with all the default handlers of the catalog. */
  lemma StoredPolicyReadsBack(cfg: Config, w: World, msg: Message, p: Policy)
    requires cfg.hasStore && RoomID(msg) != "" && CatalogOk(cfg, p)
    ensures PolicyFor(cfg, Next(cfg, w, SetPolicy(RoomID(msg), p)).stored, msg) == Normalize(cfg, p)
       <==> KnowsSome(cfg, p)
  {
    RoomIDIsTrimmed(msg);
    NormalizedTwice(cfg, p);
  }

  lemma RoomIDIsTrimmed(msg: Message)
    ensures Trim(RoomID(msg)) == RoomID(msg)
  {
    TrimTwice(msg.chatID);
    TrimTwice(msg.room);
  }
}
