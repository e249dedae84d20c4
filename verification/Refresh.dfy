/** Price refreshes of tracked products: scheduled refreshes, direct ones, read-through ones
    and the watchlist sweeps, interleaved on the refresh flights and the product rows.

    Two results: one refresh body at a time per track; and the persisted in-flight flag is only
    ever set while the flight is held, exactly when the clearing write is reliable. */
module Refresh {
  import opened Options
  import opened Flights

  datatype Tier = Hot | Warm | Cold
  datatype MappingState = Unknown | Verified | NeedsRecheck | Failed

  /** inFlight and attempt are the two columns the flights write. The other columns that
      decide whether a refresh is due are in meta. A zero time is None. */
  datatype Meta = Meta(seen: Option<int>, tier: Tier, mapping: MappingState, failures: int)
  datatype Row = Row(inFlight: bool, attempt: Option<int>, meta: Meta)

  datatype Config = Config(
    minInterval: int, backoff: int, freshness: int,
    hot: int, warm: int, cold: int,
    overlap: bool,        // may two sweeps run at once?
    reliableClear: bool)  // does the deferred clear always reach the store?

  // ---------------------------------------------------------------------------
  // Which products a sweep picks
  // ---------------------------------------------------------------------------

  function IntervalForTier(cfg: Config, tier: Tier): int {
    match tier
    case Hot => cfg.hot
    case Cold => cfg.cold
    case Warm => cfg.warm
  }

  predicate MappingBackoffActive(cfg: Config, row: Row, now: int) {
    && row.meta.mapping == Failed && row.meta.failures > 0
    && row.attempt.Some?
    && cfg.backoff > 0
    && now - row.attempt.value < cfg.backoff
  }

  predicate TooSoon(cfg: Config, row: Row, now: int) {
    row.attempt.Some? && now - row.attempt.value < cfg.minInterval
  }

  predicate IsStale(cfg: Config, row: Row, now: int) {
    row.meta.seen.None? || now - row.meta.seen.value > cfg.freshness
  }

  predicate DueForRefresh(cfg: Config, row: Row, now: int) {
    if row.inFlight || MappingBackoffActive(cfg, row, now) || TooSoon(cfg, row, now) then false
    else if row.meta.seen.None? then true
    else
      var interval := IntervalForTier(cfg, row.meta.tier);
      var interval' := if row.meta.mapping == NeedsRecheck && cfg.backoff > interval then cfg.backoff else interval;
      now - row.meta.seen.value >= interval'
  }

  predicate DueForWarmup(cfg: Config, row: Row, now: int) {
    !row.inFlight && !MappingBackoffActive(cfg, row, now) && !TooSoon(cfg, row, now) && IsStale(cfg, row, now)
  }

  predicate Due(cfg: Config, warmup: bool, row: Row, now: int) {
    if warmup then DueForWarmup(cfg, row, now) else DueForRefresh(cfg, row, now)
  }

  // ---------------------------------------------------------------------------
  // The machine
  // ---------------------------------------------------------------------------

  datatype Kind = Scheduled | Direct | ReadThrough | BySweep(sweep: nat)

  datatype Pc = Budget | Load | Stamp | Mark | Fetch | Metadata | Snapshot | Clear | Finish
              | Closing(flight: FlightId) | Done

  /** start: the time the refresh read before it marked itself in flight. */
  datatype Agent = Agent(kind: Kind, track: TrackId, pc: Pc, start: int)

  /** A sweep works through the products it listed, one refresh at a time. */
  datatype Sweep = Sweep(warmup: bool, listing: map<TrackId, Row>, now: Option<int>,
                         pending: set<TrackId>, running: Option<AgentId>)

  /** A sweep refresh that reached the in-flight mark. */
  datatype Started = Started(track: TrackId, start: int)

  datatype State = State(
    clock: int,
    rows: map<TrackId, Row>,
    ledger: Ledger,
    agents: map<AgentId, Agent>,
    sweeps: map<nat, Sweep>,
    started: seq<Started>)

  datatype Event =
    | Tick(elapsed: nat)
    | Request(agent: AgentId, kind: Kind, track: TrackId)
    | SweepList(sweep: nat, warmup: bool)
    | SweepClock(sweep: nat)
    | SweepPick(sweep: nat, agent: AgentId, track: TrackId, tier: Tier)
    | SweepEnd(sweep: nat)
    | Go(agent: AgentId, ok: bool)
    | Columns(track: TrackId, meta: Meta)
    | Registered(track: TrackId, at: int, meta: Meta)
    | Evict(track: TrackId)

  /** A tracker that has just started: no flag is set and no attempt lies in the future. */
  predicate Fresh(s: State) {
    && s.ledger == EMPTY_LEDGER && s.agents == map[] && s.sweeps == map[] && s.started == []
    && forall t :: t in s.rows ==>
         !s.rows[t].inFlight && (s.rows[t].attempt.Some? ==> s.rows[t].attempt.value <= s.clock)
  }

  function At(s: State, a: AgentId, ag: Agent): State {
    s.(agents := s.agents[a := ag])
  }

  /** The write of MarkRefreshState and UpdateSnapshot; an UPDATE of a missing row does nothing. */
  function Write(rows: map<TrackId, Row>, t: TrackId, attempt: int, inFlight: bool): map<TrackId, Row> {
    if t in rows then rows[t := rows[t].(attempt := Some(attempt), inFlight := inFlight)] else rows
  }

  /** beginRefreshFlight; without the flight the call returns at once. */
  function Enter(s: State, a: AgentId, kind: Kind, t: TrackId): State {
    if t in s.ledger.board.open then At(s, a, Agent(kind, t, Done, 0))
    else At(s.(ledger := Begin(s.ledger, a, t)), a, Agent(kind, t, if kind.Direct? then Load else Budget, 0))
  }

  /** Where a refresh goes when its step only reads or fails. */
  function Move(s: State, ag: Agent, ok: bool): Pc {
    match ag.pc
    case Budget => if ok then Load else Finish
    case Load => if ok && ag.track in s.rows then Stamp else Finish
    case Stamp => Mark
    case Mark => if ok then Fetch else Finish
    case Fetch => if ok then Metadata else Clear
    case Metadata => if ok then Snapshot else Clear
    case Snapshot => Clear
    case Clear => Finish
    case _ => ag.pc
  }

  function RowsAfter(cfg: Config, s: State, ag: Agent, ok: bool): map<TrackId, Row> {
    match ag.pc
    case Mark => if ok then Write(s.rows, ag.track, ag.start, true) else s.rows
    case Metadata =>
      if ok && ag.track !in s.rows then s.rows[ag.track := Row(false, None, Meta(None, Warm, Unknown, 0))] else s.rows
    case Snapshot => if ok then Write(s.rows, ag.track, ag.start, false) else s.rows
    case Clear => if ok || cfg.reliableClear then Write(s.rows, ag.track, s.clock, false) else s.rows
    case _ => s.rows
  }

  function Step(cfg: Config, s: State, a: AgentId, ok: bool): State
    requires a in s.agents
  {
    var ag := s.agents[a];
    if ag.pc == Finish then
      if ag.track in s.ledger.board.open then
        At(s.(ledger := Remove(s.ledger, a, ag.track)), a, ag.(pc := Closing(s.ledger.board.open[ag.track])))
      else At(s, a, ag.(pc := Done))
    else if ag.pc.Closing? then
      At(s.(ledger := Close(s.ledger, a, ag.pc.flight)), a, ag.(pc := Done))
    else
      var s' := s.(rows := RowsAfter(cfg, s, ag, ok),
                   started := if ag.pc == Mark && ok && ag.kind.BySweep? then s.started + [Started(ag.track, ag.start)]
                              else s.started);
      At(s', a, ag.(pc := Move(s, ag, ok), start := if ag.pc == Stamp then s.clock else ag.start))
  }

  predicate Idle(s: State, w: nat)
    requires w in s.sweeps
  {
    s.sweeps[w].running.Some? && s.sweeps[w].running.value in s.agents ==>
      s.agents[s.sweeps[w].running.value].pc == Done
  }

  /** The sweep decides on the row it listed, with the tier it has just been given. */
  function Retiered(row: Row, tier: Tier): Row {
    row.(meta := row.meta.(tier := tier))
  }

  predicate CanPick(cfg: Config, s: State, w: nat, a: AgentId, t: TrackId, tier: Tier) {
    && w in s.sweeps && a !in s.agents && Idle(s, w)
    && s.sweeps[w].now.Some?
    && t in s.sweeps[w].pending && t in s.sweeps[w].listing
    && Due(cfg, s.sweeps[w].warmup, Retiered(s.sweeps[w].listing[t], tier), s.sweeps[w].now.value)
  }

  /** The sweep has taken t off its list and waits for agent a. */
  function Picked(s: State, w: nat, a: AgentId, t: TrackId): State
    requires w in s.sweeps
  {
    s.(sweeps := s.sweeps[w := s.sweeps[w].(pending := s.sweeps[w].pending - {t}, running := Some(a))])
  }

  function Next(cfg: Config, s: State, e: Event): State {
    match e
    case Tick(d) => s.(clock := s.clock + d)
    case Request(a, kind, t) => if a in s.agents || kind.BySweep? then s else Enter(s, a, kind, t)
    case SweepList(w, warmup) =>
      if w in s.sweeps || (!cfg.overlap && s.sweeps != map[]) then s
      else s.(sweeps := s.sweeps[w := Sweep(warmup, s.rows, None, s.rows.Keys, None)])
    case SweepClock(w) =>
      if w in s.sweeps && s.sweeps[w].now.None? then
        s.(sweeps := s.sweeps[w := s.sweeps[w].(now := Some(s.clock))])
      else s
    case SweepPick(w, a, t, tier) =>
      if CanPick(cfg, s, w, a, t, tier) then
        Enter(Picked(s, w, a, t), a, BySweep(w), t)
      else s
    case SweepEnd(w) => if w in s.sweeps && Idle(s, w) then s.(sweeps := s.sweeps - {w}) else s
    case Go(a, ok) => if a in s.agents then Step(cfg, s, a, ok) else s
    case Columns(t, meta) => if t in s.rows then s.(rows := s.rows[t := s.rows[t].(meta := meta)]) else s
    case Registered(t, at, meta) =>
      if at <= s.clock then s.(rows := s.rows[t := Row(false, Some(at), meta)]) else s
    case Evict(t) => s.(rows := s.rows - {t})
  }

  function Run(cfg: Config, s: State, events: seq<Event>): State
    decreases |events|
  {
    if events == [] then s else Run(cfg, Next(cfg, s, events[0]), events[1..])
  }

  // ---------------------------------------------------------------------------
  // Ownership
  // ---------------------------------------------------------------------------

  predicate Owns(pc: Pc) {
    !pc.Closing? && !pc.Done?
  }

  /** The in-flight mark may be set: between MarkRefreshState(true) and the deferred clear. */
  predicate Marked(pc: Pc) {
    pc == Fetch || pc == Metadata || pc == Snapshot || pc == Clear
  }

  predicate DutyIs(ag: Agent, d: Duty) {
    match d
    case Owning(t) => Owns(ag.pc) && ag.track == t
    case ClosingIt(f) => ag.pc == Closing(f)
  }

  ghost predicate Linked(l: Ledger, agents: map<AgentId, Agent>) {
    forall a, d :: HasDuty(l, a, d) <==> a in agents && DutyIs(agents[a], d)
  }

  ghost predicate FlightInv(s: State) {
    LedgerInv(s.ledger) && Linked(s.ledger, s.agents)
  }

  /** The agent is in the body of a refresh of t. */
  ghost predicate InBody(s: State, a: AgentId, t: TrackId) {
    a in s.agents && s.agents[a].track == t && Owns(s.agents[a].pc)
  }

  lemma OneBody(s: State, a: AgentId, b: AgentId, t: TrackId)
    requires FlightInv(s) && InBody(s, a, t)
    ensures t in s.ledger.owners && s.ledger.owners[t].agent == a && t in s.ledger.board.open
    ensures InBody(s, b, t) ==> a == b
  {
    assert HasDuty(s.ledger, a, Owning(t));
    assert HasDuty(s.ledger, b, Owning(t)) <==> InBody(s, b, t);
  }

  lemma {:induction false} Relink(l: Ledger, l': Ledger, agents: map<AgentId, Agent>, a: AgentId, ag: Agent)
    requires Linked(l, agents)
    requires forall b, d :: HasDuty(l', b, d) <==> if b == a then DutyIs(ag, d) else HasDuty(l, b, d)
    ensures Linked(l', agents[a := ag])
  {}

  lemma EnterKeepsLinks(s: State, a: AgentId, kind: Kind, t: TrackId)
    requires FlightInv(s) && a !in s.agents
    ensures Linked(Enter(s, a, kind, t).ledger, Enter(s, a, kind, t).agents)
  {
    if t in s.ledger.board.open {
      Relink(s.ledger, s.ledger, s.agents, a, Enter(s, a, kind, t).agents[a]);
    } else {
      BeginDuties(s.ledger, a, t);
      Relink(s.ledger, Begin(s.ledger, a, t), s.agents, a, Enter(s, a, kind, t).agents[a]);
    }
  }

  lemma {:induction false} EnterKeepsFlights(s: State, a: AgentId, kind: Kind, t: TrackId)
    requires FlightInv(s) && a !in s.agents
    ensures FlightInv(Enter(s, a, kind, t))
  {
    assert a in s.ledger.duties ==> HasDuty(s.ledger, a, s.ledger.duties[a]);
    EnterKeepsLinks(s, a, kind, t);
    BeginKeeps(s.ledger, a, t);
  }

  lemma {:induction false} FinishKeepsFlights(cfg: Config, s: State, a: AgentId, ok: bool)
    requires FlightInv(s) && a in s.agents && s.agents[a].pc == Finish
    ensures FlightInv(Step(cfg, s, a, ok))
  {
    var t := s.agents[a].track;
    OneBody(s, a, a, t);
    RemoveKeeps(s.ledger, a, t);
    RemoveDuties(s.ledger, a, t);
    Relink(s.ledger, Remove(s.ledger, a, t), s.agents, a, s.agents[a].(pc := Closing(s.ledger.board.open[t])));
  }

  lemma CloseKeepsFlights(cfg: Config, s: State, a: AgentId, ok: bool)
    requires FlightInv(s) && a in s.agents && s.agents[a].pc.Closing?
    ensures FlightInv(Step(cfg, s, a, ok))
  {
    var f := s.agents[a].pc.flight;
    assert HasDuty(s.ledger, a, ClosingIt(f));
    CloseKeeps(s.ledger, a, f);
    CloseDuties(s.ledger, a, f);
    Relink(s.ledger, Close(s.ledger, a, f), s.agents, a, s.agents[a].(pc := Done));
  }

  lemma {:induction false} BodyKeepsFlights(cfg: Config, s: State, a: AgentId, ok: bool)
    requires FlightInv(s) && a in s.agents && s.agents[a].pc != Finish && !s.agents[a].pc.Closing?
    ensures FlightInv(Step(cfg, s, a, ok))
  {
    Relink(s.ledger, s.ledger, s.agents, a, Step(cfg, s, a, ok).agents[a]);
  }

  lemma GoKeepsFlights(cfg: Config, s: State, a: AgentId, ok: bool)
    requires FlightInv(s)
    ensures FlightInv(Next(cfg, s, Go(a, ok)))
  {
    if a in s.agents {
      if s.agents[a].pc == Finish {
        FinishKeepsFlights(cfg, s, a, ok);
      } else if s.agents[a].pc.Closing? {
        CloseKeepsFlights(cfg, s, a, ok);
      } else {
        BodyKeepsFlights(cfg, s, a, ok);
      }
    }
  }

  lemma SameFlights(s: State, s': State)
    requires FlightInv(s) && s'.ledger == s.ledger && s'.agents == s.agents
    ensures FlightInv(s')
  {}

  lemma PickKeepsFlights(s: State, w: nat, a: AgentId, t: TrackId)
    requires FlightInv(s) && w in s.sweeps && a !in s.agents
    ensures FlightInv(Enter(Picked(s, w, a, t), a, BySweep(w), t))
  {
    SameFlights(s, Picked(s, w, a, t));
    EnterKeepsFlights(Picked(s, w, a, t), a, BySweep(w), t);
  }

  lemma {:induction false} NextKeepsFlights(cfg: Config, s: State, e: Event)
    requires FlightInv(s)
    ensures FlightInv(Next(cfg, s, e))
  {
    match e
    case Request(a, kind, t) =>
      if a !in s.agents { EnterKeepsFlights(s, a, kind, t); }
    case SweepPick(w, a, t, tier) =>
      if CanPick(cfg, s, w, a, t, tier) { PickKeepsFlights(s, w, a, t); }
    case Go(a, ok) => GoKeepsFlights(cfg, s, a, ok);
    case _ => EventKeepsFlights(cfg, s, e);
  }

  /** Events that start or move no refresh. */
  predicate NoAgentMoves(e: Event) {
    !e.Request? && !e.SweepPick? && !e.Go?
  }

  lemma EventKeepsFlights(cfg: Config, s: State, e: Event)
    requires FlightInv(s) && NoAgentMoves(e)
    ensures FlightInv(Next(cfg, s, e))
  {
    assert Next(cfg, s, e).ledger == s.ledger && Next(cfg, s, e).agents == s.agents;
  }

  lemma {:induction false} RunKeepsFlights(cfg: Config, s: State, events: seq<Event>)
    requires FlightInv(s)
    ensures FlightInv(Run(cfg, s, events))
    decreases |events|
  {
    if events != [] {
      NextKeepsFlights(cfg, s, events[0]);
      RunKeepsFlights(cfg, Next(cfg, s, events[0]), events[1..]);
    }
  }

  /** At most one refresh body runs per track id, whatever started it, and it holds the flight. */
  lemma RefreshMutualExclusion(cfg: Config, s: State, events: seq<Event>, a: AgentId, b: AgentId, t: TrackId)
    requires Fresh(s)
    requires InBody(Run(cfg, s, events), a, t) && InBody(Run(cfg, s, events), b, t)
    ensures a == b && t in Run(cfg, s, events).ledger.board.open
  {
    RunKeepsFlights(cfg, s, events);
    OneBody(Run(cfg, s, events), a, b, t);
  }

  ghost predicate AllDone(s: State) {
    forall a :: a in s.agents ==> s.agents[a].pc == Done
  }

  lemma NobodyLeftNoDuty(s: State)
    requires Linked(s.ledger, s.agents) && AllDone(s)
    ensures s.ledger.duties == map[]
  {
    assert forall a :: a in s.ledger.duties ==> HasDuty(s.ledger, a, s.ledger.duties[a]);
  }

  /** Every begun refresh flight is finished once, also when the budget denied it. */
  lemma FlightsFinishedExactlyOnce(cfg: Config, s: State, events: seq<Event>, f: FlightId)
    requires Fresh(s)
    ensures var r := Run(cfg, s, events);
            && r.ledger.board.closed[f] <= 1
            && (AllDone(r) && f < |r.ledger.board.tracks| ==> r.ledger.board.closed[f] == 1)
  {
    RunKeepsFlights(cfg, s, events);
    var r := Run(cfg, s, events);
    if AllDone(r) {
      NobodyLeftNoDuty(r);
    }
    QuietMeansClosedOnce(r.ledger, f);
  }

  // ---------------------------------------------------------------------------
  // The persisted in-flight flag
  // ---------------------------------------------------------------------------

  /** The refresh of t that is past its mark. */
  ghost predicate MarkedBy(s: State, a: AgentId, t: TrackId) {
    InBody(s, a, t) && Marked(s.agents[a].pc)
  }

  ghost predicate FlagsAreHeld(s: State) {
    forall t :: t in s.rows && s.rows[t].inFlight ==>
                  t in s.ledger.owners && MarkedBy(s, s.ledger.owners[t].agent, t)
  }

  ghost predicate FlagIsHeld(s: State, t: TrackId) {
    t in s.rows && s.rows[t].inFlight ==> t in s.ledger.owners && MarkedBy(s, s.ledger.owners[t].agent, t)
  }

  /** What keeps the flag of u held: it is not newly set, and the owner and its agent stay. */
  ghost predicate FlagStays(s: State, s': State, u: TrackId) {
    && (u in s'.rows && s'.rows[u].inFlight ==> u in s.rows && s.rows[u].inFlight)
    && (u in s.ledger.owners ==>
          && u in s'.ledger.owners && s'.ledger.owners[u] == s.ledger.owners[u]
          && AgentStays(s, s', s.ledger.owners[u].agent))
  }

  predicate AgentStays(s: State, s': State, b: AgentId) {
    b in s.agents ==> b in s'.agents && s'.agents[b] == s.agents[b]
  }

  lemma StayingFlagIsHeld(s: State, s': State, u: TrackId)
    requires FlagIsHeld(s, u) && FlagStays(s, s', u)
    ensures FlagIsHeld(s', u)
  {}

  lemma FlagsTogether(s: State)
    ensures FlagsAreHeld(s) <==> forall u :: FlagIsHeld(s, u)
  {
    if FlagsAreHeld(s) {
      forall u ensures FlagIsHeld(s, u) {}
    } else {
      var t :| t in s.rows && s.rows[t].inFlight && !(t in s.ledger.owners && MarkedBy(s, s.ledger.owners[t].agent, t));
      assert !FlagIsHeld(s, t);
    }
  }

  /** When every flag either stays or is held anyway, all are. */
  lemma FlagsStay(s: State, s': State)
    requires FlagsAreHeld(s)
    requires forall u :: FlagStays(s, s', u) || FlagIsHeld(s', u)
    ensures FlagsAreHeld(s')
  {
    FlagsTogether(s);
    forall u ensures FlagIsHeld(s', u) {
      if FlagStays(s, s', u) { StayingFlagIsHeld(s, s', u); }
    }
    FlagsTogether(s');
  }

  lemma EnterLeavesFlag(s: State, a: AgentId, kind: Kind, t: TrackId, u: TrackId)
    requires OwnersMatch(s.ledger) && a !in s.agents
    ensures FlagStays(s, Enter(s, a, kind, t), u)
  {}

  lemma EnterKeepsFlags(s: State, a: AgentId, kind: Kind, t: TrackId)
    requires FlightInv(s) && a !in s.agents && FlagsAreHeld(s)
    ensures FlagsAreHeld(Enter(s, a, kind, t))
  {
    forall u ensures FlagStays(s, Enter(s, a, kind, t), u) {
      EnterLeavesFlag(s, a, kind, t, u);
    }
    FlagsStay(s, Enter(s, a, kind, t));
  }

  lemma {:induction false} StepLeavesOtherRows(cfg: Config, s: State, a: AgentId, ok: bool, t: TrackId)
    requires a in s.agents && (s.agents[a].track != t || !Owns(s.agents[a].pc))
    ensures var rows := Step(cfg, s, a, ok).rows;
            (t in rows <==> t in s.rows) && (t in s.rows ==> rows[t] == s.rows[t])
  {}

  /** A step of an agent in no body, or in another product's, leaves the flag alone. */
  lemma StepLeavesFlag(cfg: Config, s: State, a: AgentId, ok: bool, u: TrackId)
    requires a in s.agents && !InBody(s, a, u)
    requires s.agents[a].pc == Finish ==> s.agents[a].track != u
    requires u in s.ledger.owners ==> s.ledger.owners[u].agent != a
    ensures FlagStays(s, Step(cfg, s, a, ok), u)
  {
    StepLeavesOtherRows(cfg, s, a, ok, u);
  }

  lemma OwnerIsInBody(s: State, a: AgentId, u: TrackId)
    requires FlightInv(s) && u in s.ledger.owners && s.ledger.owners[u].agent == a
    ensures InBody(s, a, u)
  {
    assert HasDuty(s.ledger, a, Owning(u));
  }

  lemma OwnerKeepsOwn(cfg: Config, s: State, a: AgentId, ok: bool, t: TrackId)
    requires FlightInv(s) && InBody(s, a, t) && FlagIsHeld(s, t) && cfg.reliableClear
    ensures FlagIsHeld(Step(cfg, s, a, ok), t)
  {
    if s.agents[a].pc == Finish {
      FinishKeepsOwn(cfg, s, a, ok, t);
    } else {
      BodyKeepsOwn(cfg, s, a, ok, t);
    }
  }

  lemma FinishKeepsOwn(cfg: Config, s: State, a: AgentId, ok: bool, t: TrackId)
    requires FlightInv(s) && InBody(s, a, t) && FlagIsHeld(s, t) && s.agents[a].pc == Finish
    ensures FlagIsHeld(Step(cfg, s, a, ok), t)
  {
    assert t in s.ledger.owners && s.ledger.owners[t].agent == a by { OneBody(s, a, a, t); }
    assert !MarkedBy(s, a, t);
  }

  lemma BodyKeepsOwn(cfg: Config, s: State, a: AgentId, ok: bool, t: TrackId)
    requires FlightInv(s) && InBody(s, a, t) && FlagIsHeld(s, t) && cfg.reliableClear && s.agents[a].pc != Finish
    ensures FlagIsHeld(Step(cfg, s, a, ok), t)
  {
    assert t in s.ledger.owners && s.ledger.owners[t].agent == a by { OneBody(s, a, a, t); }
    OwnRow(cfg, s, a, ok, t);
  }

  /** Where the refresh of t goes, and whether the flag is set then. */
  lemma OwnRow(cfg: Config, s: State, a: AgentId, ok: bool, t: TrackId)
    requires InBody(s, a, t) && s.agents[a].pc != Finish && cfg.reliableClear
    requires t in s.rows && s.rows[t].inFlight ==> Marked(s.agents[a].pc)
    ensures var s' := Step(cfg, s, a, ok);
            && s'.ledger == s.ledger && InBody(s', a, t)
            && (t in s'.rows && s'.rows[t].inFlight ==> Marked(s'.agents[a].pc))
  {}

  lemma StepKeepsFlags(cfg: Config, s: State, a: AgentId, ok: bool)
    requires FlightInv(s) && a in s.agents && FlagsAreHeld(s) && cfg.reliableClear
    ensures FlagsAreHeld(Step(cfg, s, a, ok))
  {
    FlagsTogether(s);
    forall u ensures FlagStays(s, Step(cfg, s, a, ok), u) || FlagIsHeld(Step(cfg, s, a, ok), u) {
      if InBody(s, a, u) {
        OwnerKeepsOwn(cfg, s, a, ok, u);
      } else {
        if u in s.ledger.owners && s.ledger.owners[u].agent == a { OwnerIsInBody(s, a, u); }
        StepLeavesFlag(cfg, s, a, ok, u);
      }
    }
    FlagsStay(s, Step(cfg, s, a, ok));
  }

  lemma EventLeavesFlag(cfg: Config, s: State, e: Event, u: TrackId)
    requires NoAgentMoves(e)
    ensures FlagStays(s, Next(cfg, s, e), u)
  {}

  lemma NextKeepsFlags(cfg: Config, s: State, e: Event)
    requires FlightInv(s) && FlagsAreHeld(s) && cfg.reliableClear
    ensures FlagsAreHeld(Next(cfg, s, e))
  {
    if NoAgentMoves(e) {
      forall u ensures FlagStays(s, Next(cfg, s, e), u) { EventLeavesFlag(cfg, s, e, u); }
      FlagsStay(s, Next(cfg, s, e));
    } else {
      match e
      case Request(a, kind, t) =>
        if a !in s.agents { EnterKeepsFlags(s, a, kind, t); }
      case SweepPick(w, a, t, tier) =>
        if CanPick(cfg, s, w, a, t, tier) { EnterKeepsFlags(Picked(s, w, a, t), a, BySweep(w), t); }
      case Go(a, ok) =>
        if a in s.agents { StepKeepsFlags(cfg, s, a, ok); }
    }
  }

  lemma {:induction false} RunKeepsFlags(cfg: Config, s: State, events: seq<Event>)
    requires FlightInv(s) && FlagsAreHeld(s) && cfg.reliableClear
    ensures FlagsAreHeld(Run(cfg, s, events))
    decreases |events|
  {
    if events != [] {
      NextKeepsFlags(cfg, s, events[0]);
      NextKeepsFlights(cfg, s, events[0]);
      RunKeepsFlags(cfg, Next(cfg, s, events[0]), events[1..]);
    }
  }

  /** A flag in the store implies an open flight for that track. */
  ghost predicate FlagImpliesFlight(s: State) {
    forall t :: t in s.rows && s.rows[t].inFlight ==> t in s.ledger.board.open
  }

  const NO_META := Meta(None, Warm, Unknown, 0)

  /** One product that was never refreshed, at time zero. */
  const ONE_PRODUCT := State(0, map["p" := Row(false, None, NO_META)], EMPTY_LEDGER, map[], map[], [])

  const LOST_CLEAR := [Request(0, Direct, "p"), Go(0, true), Go(0, true), Go(0, true), Go(0, false), Go(0, false),
                       Go(0, true)]

  lemma {:induction false} RunCons(cfg: Config, s: State, e: Event, rest: seq<Event>)
    ensures Run(cfg, s, [e] + rest) == Run(cfg, Next(cfg, s, e), rest)
  {
    assert ([e] + rest)[1..] == rest;
  }

  lemma {:induction false} RunConcat(cfg: Config, s: State, first: seq<Event>, rest: seq<Event>)
    ensures Run(cfg, s, first + rest) == Run(cfg, Run(cfg, s, first), rest)
    decreases |first|
  {
    if first == [] {
      assert first + rest == rest;
    } else {
      assert (first + rest)[1..] == first[1..] + rest;
      RunConcat(cfg, Next(cfg, s, first[0]), first[1..], rest);
    }
  }

  /** The row after a step of the one refresh at pc. */
  function RowAt(cfg: Config, row: Row, pc: Pc, ok: bool): Row {
    match pc
    case Mark => if ok then row.(attempt := Some(0), inFlight := true) else row
    case Snapshot => if ok then row.(attempt := Some(0), inFlight := false) else row
    case Clear => if ok || cfg.reliableClear then row.(attempt := Some(0), inFlight := false) else row
    case _ => row
  }

  function PcAfter(pc: Pc, ok: bool): Pc {
    match pc
    case Budget => if ok then Load else Finish
    case Load => if ok then Stamp else Finish
    case Stamp => Mark
    case Mark => if ok then Fetch else Finish
    case Fetch => if ok then Metadata else Clear
    case Metadata => if ok then Snapshot else Clear
    case Snapshot => Clear
    case Clear => Finish
    case _ => pc
  }

  /** Agent 0 is past entering and not yet finishing with the one product, at time zero. */
  predicate Solo(s: State, row: Row, ag: Agent) {
    && s.clock == 0 && s.rows == map["p" := row] && 0 in s.agents && s.agents[0] == ag
    && ag.track == "p" && ag.start == 0 && ag.pc != Finish && !ag.pc.Closing? && ag.pc != Done
  }

  lemma SoloRows(cfg: Config, s: State, row: Row, ag: Agent, ok: bool)
    requires Solo(s, row, ag)
    ensures RowsAfter(cfg, s, ag, ok) == map["p" := RowAt(cfg, row, ag.pc, ok)]
    ensures Move(s, ag, ok) == PcAfter(ag.pc, ok)
  {}

  lemma SoloMoves(cfg: Config, s: State, row: Row, ag: Agent, ok: bool)
    requires Solo(s, row, ag)
    ensures Next(cfg, s, Go(0, ok))
         == s.(rows := map["p" := RowAt(cfg, row, ag.pc, ok)],
               agents := s.agents[0 := ag.(pc := PcAfter(ag.pc, ok))],
               started := if ag.pc == Mark && ok && ag.kind.BySweep? then s.started + [Started("p", 0)] else s.started)
  {
    SoloRows(cfg, s, row, ag, ok);
  }

  /** The one product after its refresh by agent 0 reached pc. */
  function Alone(row: Row, pc: Pc): State {
    ONE_PRODUCT.(rows := map["p" := row], ledger := Begin(EMPTY_LEDGER, 0, "p"),
                 agents := map[0 := Agent(Direct, "p", pc, 0)])
  }

  lemma AloneMoves(cfg: Config, row: Row, pc: Pc, ok: bool)
    requires pc != Finish && !pc.Closing? && pc != Done
    ensures Next(cfg, Alone(row, pc), Go(0, ok)) == Alone(RowAt(cfg, row, pc, ok), PcAfter(pc, ok))
  {
    SoloMoves(cfg, Alone(row, pc), row, Agent(Direct, "p", pc, 0), ok);
  }

  lemma AloneEnters(cfg: Config)
    ensures Next(cfg, ONE_PRODUCT, Request(0, Direct, "p")) == Alone(Row(false, None, NO_META), Load)
  {}

  lemma AloneFinishes(cfg: Config, row: Row)
    ensures var s := Next(cfg, Alone(row, Finish), Go(0, true)); s.rows == map["p" := row] && "p" !in s.ledger.board.open
  {}

  lemma LostClearKeepsFlag(cfg: Config, one: State, events: seq<Event>)
    requires !cfg.reliableClear && one == ONE_PRODUCT && events == LOST_CLEAR
    ensures !FlagImpliesFlight(Run(cfg, one, events))
  {
    var on := Row(true, Some(0), NO_META);
    RunCons(cfg, one, events[0], events[1..]);
    assert [events[0]] + events[1..] == events;
    AloneEnters(cfg);
    RunSix(cfg, Alone(Row(false, None, NO_META), Load), events[1..]);
    AloneReachesMark(cfg);
    AloneLosesClear(cfg, on);
    AloneFinishes(cfg, on);
  }

  lemma AloneReachesMark(cfg: Config)
    ensures Next(cfg, Next(cfg, Next(cfg, Alone(Row(false, None, NO_META), Load), Go(0, true)), Go(0, true)), Go(0, true))
         == Alone(Row(true, Some(0), NO_META), Fetch)
  {
    var off := Row(false, None, NO_META);
    AloneMoves(cfg, off, Load, true);
    AloneMoves(cfg, off, Stamp, true);
    AloneMoves(cfg, off, Mark, true);
  }

  lemma AloneLosesClear(cfg: Config, on: Row)
    requires !cfg.reliableClear
    ensures Next(cfg, Next(cfg, Alone(on, Fetch), Go(0, false)), Go(0, false)) == Alone(on, Finish)
  {
    AloneMoves(cfg, on, Fetch, false);
    AloneMoves(cfg, on, Clear, false);
  }

  lemma RunSix(cfg: Config, s: State, events: seq<Event>)
    requires |events| == 6
    ensures Run(cfg, s, events)
         == Next(cfg, Next(cfg, Next(cfg, Next(cfg, Next(cfg, Next(cfg, s,
              events[0]), events[1]), events[2]), events[3]), events[4]), events[5])
  {
    RunThree(cfg, s, events);
    RunThree(cfg, Next(cfg, Next(cfg, Next(cfg, s, events[0]), events[1]), events[2]), events[3..]);
  }

  lemma {:induction false} RunThree(cfg: Config, s: State, events: seq<Event>)
    requires |events| >= 3
    ensures Run(cfg, s, events)
         == Run(cfg, Next(cfg, Next(cfg, Next(cfg, s, events[0]), events[1]), events[2]), events[3..])
  {
    var s1 := Next(cfg, s, events[0]);
    var s2 := Next(cfg, s1, events[1]);
    assert Run(cfg, s1, events[1..]) == Run(cfg, s2, events[1..][1..]);
    assert events[1..][1..] == events[2..] && events[2..][1..] == events[3..];
    assert Run(cfg, s2, events[2..]) == Run(cfg, Next(cfg, s2, events[2]), events[3..]);
  }

  /** The in-flight flag implies a held flight in every run exactly when the deferred clear
      never fails: it runs before the deferred finish. */
  lemma FlagImpliesFlightIffClearIsReliable(cfg: Config)
    ensures cfg.reliableClear <==>
            forall s, events :: Fresh(s) ==> FlagImpliesFlight(Run(cfg, s, events))
  {
    if cfg.reliableClear {
      forall s, events | Fresh(s) ensures FlagImpliesFlight(Run(cfg, s, events)) {
        RunKeepsFlags(cfg, s, events);
        RunKeepsFlights(cfg, s, events);
        assert LedgerInv(Run(cfg, s, events).ledger);
      }
    } else {
      var one, events := ONE_PRODUCT, LOST_CLEAR;
      LostClearKeepsFlag(cfg, one, events);
      assert Fresh(one);
    }
  }
}
