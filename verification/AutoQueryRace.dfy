/** Automatic queries evaluated at the same time. An evaluation reads its room's policy, decides
    under the lock, and stores a degraded policy after releasing it: three steps that others may
    come between. */
module AutoQueryRace {
  import opened Options
  import opened Text
  import opened Budget
  import opened AutoQuery

  type AgentId = nat

  /** p is the policy the evaluation read. */
  datatype Pc = Decide(p: Policy) | Store(p: Policy) | Done(d: Decision)

  datatype Evaluation = Evaluation(msg: Message, query: string, pc: Pc)

  datatype State = State(world: World, agents: map<AgentId, Evaluation>)

  datatype Step =
    | Start(agent: AgentId, msg: Message, query: string, handlers: seq<string>)
    | Go(agent: AgentId, now: int)
    | Set(room: string, policy: Policy)

  /** What reading the policy leads to. */
  function Read(cfg: Config, w: World, msg: Message, handlers: seq<string>): Pc {
    var p := PolicyFor(cfg, w.stored, msg);
    if p.mode != LOCAL_AUTO then Done(Denied("room-policy"))
    else if forall h :: h in handlers ==> !AllowsHandler(cfg, p, h) then Done(Denied("handler-not-allowed"))
    else Decide(p)
  }

  function At(s: State, a: AgentId, pc: Pc): State
    requires a in s.agents
  {
    s.(agents := s.agents[a := s.agents[a].(pc := pc)])
  }

  function Locked(cfg: Config, s: State, a: AgentId, now: int): (Decision, Limits)
    requires a in s.agents && s.agents[a].pc.Decide?
  {
    EvaluateLocked(s.world.limits, AskOf(cfg, s.agents[a].msg, s.agents[a].query, now, s.agents[a].pc.p))
  }

  /** The decision is taken under the lock; a degraded policy is stored later. */
  function Decided(cfg: Config, s: State, a: AgentId, now: int): State
    requires a in s.agents && s.agents[a].pc.Decide?
  {
    var (d, l) := Locked(cfg, s, a, now);
    At(s.(world := s.world.(limits := l)), a,
       if d == Denied("budget") && Degrades(cfg, s.agents[a].pc.p) then Store(s.agents[a].pc.p) else Done(d))
  }

  function Stored(cfg: Config, s: State, a: AgentId): State
    requires a in s.agents && s.agents[a].pc.Store?
  {
    var p := s.agents[a].pc.p;
    At(s.(world := s.world.(stored := s.world.stored[Trim(LimitRoomID(s.agents[a].msg)) := Normalize(cfg, p.(mode := p.target))])),
       a, Done(Denied("budget")))
  }

  function Next(cfg: Config, s: State, e: Step): State {
    match e
    case Start(a, msg, query, handlers) =>
      if a in s.agents then s
      else s.(agents := s.agents[a := Evaluation(msg, query, Read(cfg, s.world, msg, handlers))])
    case Go(a, now) =>
      if a !in s.agents then s
      else if s.agents[a].pc.Decide? then Decided(cfg, s, a, now)
      else if s.agents[a].pc.Store? then Stored(cfg, s, a)
      else s
    case Set(room, p) =>
      s.(world := AutoQuery.Next(cfg, s.world, SetPolicy(room, p)))
  }

  function Run(cfg: Config, s: State, steps: seq<Step>): State
    decreases |steps|
  {
    if steps == [] then s else Run(cfg, Next(cfg, s, steps[0]), steps[1..])
  }

  // ---------- one evaluation alone ----------

  /** Without anything in between the three steps are the evaluation of AutoQuery. */
  lemma AloneIsEvaluate(cfg: Config, s: State, a: AgentId, msg: Message, query: string, handlers: seq<string>, now: int)
    requires a !in s.agents
    ensures var s' := Next(cfg, Next(cfg, Next(cfg, s, Start(a, msg, query, handlers)), Go(a, now)), Go(a, now));
            && s'.world == Evaluate(cfg, s.world, msg, query, handlers, now).1
            && s'.agents[a].pc == Done(Evaluate(cfg, s.world, msg, query, handlers, now).0)
  {
    var s1 := Next(cfg, s, Start(a, msg, query, handlers));
    var s2 := Next(cfg, s1, Go(a, now));
    assert s1.agents[a].msg == msg && s1.agents[a].query == query && s1.world == s.world;
    assert s2.agents[a].msg == msg;
  }

  // ---------- what evaluations hold ----------

  /** An evaluation gets past reading only with an automatic policy, and stores only a policy
      that degrades. */
  predicate Sound(cfg: Config, e: Evaluation) {
    && (e.pc.Decide? ==> e.pc.p.mode == LOCAL_AUTO)
    && (e.pc.Store? ==> e.pc.p.mode == LOCAL_AUTO && Degrades(cfg, e.pc.p))
  }

  ghost predicate AllSound(cfg: Config, s: State) {
    forall a :: a in s.agents ==> Sound(cfg, s.agents[a])
  }

  lemma NextKeepsSound(cfg: Config, s: State, e: Step)
    requires AllSound(cfg, s)
    ensures AllSound(cfg, Next(cfg, s, e))
  {
    if e.Go? && e.agent in s.agents { assert Sound(cfg, s.agents[e.agent]); }
  }

  /** An evaluation of the room that has read a policy it can still be granted with. */
  predicate CanBeGranted(e: Evaluation, room: string) {
    RoomID(e.msg) == room && e.pc.Decide? && e.pc.p.budget > 0
  }

  ghost predicate NoneCanBeGranted(s: State, room: string) {
    forall a :: a in s.agents ==> !CanBeGranted(s.agents[a], room)
  }

  predicate GrantedIn(s: State, room: string, a: AgentId) {
    a in s.agents && RoomID(s.agents[a].msg) == room && s.agents[a].pc == Done(Allowed)
  }

  /** No evaluation of the room is granted between s and s'. */
  ghost predicate NoNewGrant(s: State, s': State, room: string) {
    forall a :: GrantedIn(s', room, a) ==> GrantedIn(s, room, a)
  }

  predicate Leaves(e: Step, room: string) {
    e.Set? ==> Trim(e.room) != room
  }

  ghost predicate AllLeave(steps: seq<Step>, room: string) {
    forall i :: 0 <= i < |steps| ==> Leaves(steps[i], room)
  }

  lemma NextKeepsDegraded(cfg: Config, s: State, e: Step, room: string)
    requires AllSound(cfg, s) && Degraded(s.world, room) && Leaves(e, room)
    ensures Degraded(Next(cfg, s, e).world, room)
  {
    if e.Go? && e.agent in s.agents { assert Sound(cfg, s.agents[e.agent]); }
  }

  lemma ReadOfDegraded(cfg: Config, w: World, msg: Message, handlers: seq<string>)
    requires Degraded(w, RoomID(msg)) && RoomID(msg) != "" && cfg.hasStore
    ensures Read(cfg, w, msg, handlers) == Done(Denied("room-policy"))
  {}

  lemma NextGrantsNone(cfg: Config, s: State, e: Step, room: string)
    requires Degraded(s.world, room) && room != "" && cfg.hasStore && NoneCanBeGranted(s, room)
    ensures NoneCanBeGranted(Next(cfg, s, e), room) && NoNewGrant(s, Next(cfg, s, e), room)
  {
    match e
    case Start(a, msg, query, handlers) =>
      if RoomID(msg) == room { ReadOfDegraded(cfg, s.world, msg, handlers); }
    case Go(a, now) =>
      if a in s.agents { assert !CanBeGranted(s.agents[a], room); }
    case _ =>
  }

  lemma {:induction false} RunGrantsNone(cfg: Config, s: State, steps: seq<Step>, room: string)
    requires AllSound(cfg, s) && Degraded(s.world, room) && room != "" && cfg.hasStore
    requires NoneCanBeGranted(s, room) && AllLeave(steps, room)
    ensures NoNewGrant(s, Run(cfg, s, steps), room)
    decreases |steps|
  {
    if steps != [] {
      var s' := Next(cfg, s, steps[0]);
      assert Leaves(steps[0], room);
      NextKeepsSound(cfg, s, steps[0]);
      NextKeepsDegraded(cfg, s, steps[0], room);
      NextGrantsNone(cfg, s, steps[0], room);
      RunGrantsNone(cfg, s', steps[1..], room);
      forall a | GrantedIn(Run(cfg, s, steps), room, a) ensures GrantedIn(s, room, a) {
        assert GrantedIn(s', room, a);
      }
    }
  }

  // ---------- the evaluation that slips through ----------

  lemma {:induction false} AllOld(h: seq<int>) returns (last: int)
    ensures forall cutoff :: cutoff >= last ==> Recent(h, cutoff) == []
  {
    if h == [] {
      last := 0;
    } else {
      last := AllOld(h[..|h| - 1]);
      if h[|h| - 1] > last { last := h[|h| - 1]; }
    }
  }

  /** Late enough, any evaluation with a budget is granted. */
  lemma GrantedLate(l: Limits, ask: Ask) returns (now: int)
    requires ask.policy.budget > 0
    ensures EvaluateLocked(l, ask.(now := now)).0 == Allowed
  {
    var last := AllOld(Hits(l, ask.room));
    now := last + HOUR;
    if ask.key in l.until && l.until[ask.key] > now { now := l.until[ask.key]; }
  }

  lemma SlipsThrough(cfg: Config, s: State, room: string, a: AgentId) returns (steps: seq<Step>)
    requires a in s.agents && CanBeGranted(s.agents[a], room)
    ensures AllLeave(steps, room) && !NoNewGrant(s, Run(cfg, s, steps), room)
  {
    var e := s.agents[a];
    var ask := AskOf(cfg, e.msg, e.query, 0, e.pc.p);
    var now := GrantedLate(s.world.limits, ask);
    assert ask.(now := now) == AskOf(cfg, e.msg, e.query, now, e.pc.p);
    steps := [Go(a, now)];
    assert Run(cfg, s, steps) == Next(cfg, s, steps[0]);
    assert GrantedIn(Run(cfg, s, steps), room, a);
  }

  /** Main result: from the moment a room's degraded policy is stored, and until that room's
      policy is set, no automatic query of it is granted, whatever runs at the same time, exactly
      when no evaluation that read a policy with a budget before is still to decide. */
  lemma StickyIffNothingInFlight(cfg: Config, s: State, room: string)
    requires AllSound(cfg, s) && Degraded(s.world, room) && room != "" && cfg.hasStore
    ensures NoneCanBeGranted(s, room) <==>
              forall steps :: AllLeave(steps, room) ==> NoNewGrant(s, Run(cfg, s, steps), room)
  {
    if NoneCanBeGranted(s, room) {
      forall steps | AllLeave(steps, room) ensures NoNewGrant(s, Run(cfg, s, steps), room) {
        RunGrantsNone(cfg, s, steps, room);
      }
    } else {
      var a :| a in s.agents && CanBeGranted(s.agents[a], room);
      var steps := SlipsThrough(cfg, s, room, a);
    }
  }

  /** Storing a degradation makes the room degraded, also over a policy that was set since the
      evaluation read its own. */
  lemma StoreDegrades(cfg: Config, s: State, a: AgentId, now: int)
    requires AllSound(cfg, s) && a in s.agents && s.agents[a].pc.Store?
    ensures Degraded(Next(cfg, s, Go(a, now)).world, Trim(LimitRoomID(s.agents[a].msg)))
  {
    assert Sound(cfg, s.agents[a]);
  }
}
