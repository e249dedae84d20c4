/** First-time registration of a product, as an interleaving of lookups and background jobs.

    One event of one agent is one store call, one provider call, one critical section of the
    tracker's mutex, or one channel close. What a call returns is chosen by the event, so a
    theorem over every event list covers every schedule and every provider behaviour. */
module Registration {
  import opened Flights

  /** Where an agent is. `inFlight` tells the second load, inside ensureTrackedDirect, from
      the first one. */
  datatype Pc =
    | Load(inFlight: bool)
    | LoadBase(inFlight: bool)
    | Merge(inFlight: bool, row: TrackId)
    | BeginFlight
    | Wait(flight: FlightId)
    | Admit
    | Resolve
    | Upsert
    | Persist
    | Complete
    | Closing(flight: FlightId)
    | Done

  /** bare: a mobile URL, which names no item. job: the background bootstrap. */
  datatype Agent = Agent(track: TrackId, bare: bool, job: bool, pc: Pc)

  /** upserts: the bootstrap UpsertProduct calls that succeeded.
      evicted: the track ids deleted at some point of the run. */
  datatype State = State(
    rows: set<TrackId>,
    upserts: multiset<TrackId>,
    evicted: set<TrackId>,
    ledger: Ledger,
    agents: map<AgentId, Agent>)

  datatype Answer = Fail | Ok | Absent | Found(row: TrackId) | TimeOut(job: AgentId)

  datatype Event =
    | Lookup(agent: AgentId, track: TrackId, bare: bool)
    | Go(agent: AgentId, answer: Answer)
    | Evict(track: TrackId)

  function Init(rows: set<TrackId>): State {
    State(rows, multiset{}, {}, EMPTY_LEDGER, map[])
  }

  function At(s: State, a: AgentId, pc: Pc): State
    requires a in s.agents
  {
    s.(agents := s.agents[a := s.agents[a].(pc := pc)])
  }

  /** Leaving ensureTracked: an agent inside the flight completes it first. */
  function Exit(inFlight: bool): Pc {
    if inFlight then Complete else Done
  }

  /** No product found. Outside the flight a coalescing tracker begins one and loads again;
      otherwise ensureTrackedDirect loads again at once. Inside, registration is admitted. */
  function Miss(coalescing: bool, inFlight: bool): Pc {
    if inFlight then Admit else if coalescing then BeginFlight else Load(true)
  }

  /** Where an agent goes when all it does is read or fail. An answer that does not fit the
      rows leaves it where it is. */
  function Move(coalescing: bool, rows: set<TrackId>, ag: Agent, answer: Answer): Pc {
    match (ag.pc, answer)
    case (Load(i), Fail) => Exit(i)
    case (Load(i), Found(row)) => if row == ag.track && row in rows then Merge(i, row) else ag.pc
    case (Load(i), Absent) =>
      if ag.track in rows then ag.pc else if ag.bare then LoadBase(i) else Miss(coalescing, i)
    case (LoadBase(i), Fail) => Exit(i)
    case (LoadBase(i), Found(row)) => if row in rows then Merge(i, row) else ag.pc
    case (LoadBase(i), Absent) => Miss(coalescing, i)
    case (Merge(i, _), Fail) => Exit(i)
    case (Merge(i, _), Ok) => Exit(i)
    case (Wait(_), _) => Done
    case (Admit, Fail) => Complete
    case (Admit, Ok) => Resolve
    case (Resolve, Fail) => Complete
    case (Resolve, Ok) => Upsert
    case (Upsert, Fail) => Complete
    case (Upsert, Ok) => Persist
    case (Persist, _) => Complete
    case _ => ag.pc
  }

  /** A leader whose provider call outlived the latency budget starts a job; a job never does. */
  predicate Defers(s: State, ag: Agent, answer: Answer) {
    ag.pc == Resolve && answer.TimeOut? && !ag.job && answer.job !in s.agents
  }

  function Step(coalescing: bool, s: State, a: AgentId, answer: Answer): State
    requires a in s.agents
  {
    var ag := s.agents[a];
    var t := ag.track;
    if ag.pc == BeginFlight then
      if t in s.ledger.board.open then At(s, a, Wait(s.ledger.board.open[t]))
      else At(s.(ledger := Begin(s.ledger, a, t)), a, Load(true))
    else if Defers(s, ag, answer) then
      s.(ledger := HandOver(s.ledger, a, t, answer.job),
         agents := s.agents[a := ag.(pc := Done)][answer.job := Agent(t, ag.bare, true, Resolve)])
    else if ag.pc == Complete then
      if t in s.ledger.board.open then
        At(s.(ledger := Remove(s.ledger, a, t)), a, Closing(s.ledger.board.open[t]))
      else At(s, a, Done)
    else if ag.pc.Closing? then
      At(s.(ledger := Close(s.ledger, a, ag.pc.flight)), a, Done)
    else
      At(Write(s, ag, answer), a, Move(coalescing, s.rows, ag, answer))
  }

  /** The store calls that write a row: UpsertProduct, and UpdateProductMetadata, which
      inserts the row again if it was deleted meanwhile. */
  function Write(s: State, ag: Agent, answer: Answer): State {
    if ag.pc == Upsert && answer.Ok? then
      s.(rows := s.rows + {ag.track}, upserts := s.upserts + multiset{ag.track})
    else if ag.pc.Merge? && answer.Ok? then s.(rows := s.rows + {ag.pc.row})
    else s
  }

  /** An event that cannot happen in s leaves it as it is. */
  function Next(coalescing: bool, s: State, e: Event): State {
    match e
    case Lookup(a, t, bare) =>
      if a in s.agents then s else s.(agents := s.agents[a := Agent(t, bare, false, Load(false))])
    case Go(a, answer) => if a in s.agents then Step(coalescing, s, a, answer) else s
    case Evict(t) => s.(rows := s.rows - {t}, evicted := s.evicted + {t})
  }

  function Run(coalescing: bool, s: State, events: seq<Event>): State
    decreases |events|
  {
    if events == [] then s else Run(coalescing, Next(coalescing, s, events[0]), events[1..])
  }

  // ---------------------------------------------------------------------------
  // The invariant
  // ---------------------------------------------------------------------------

  /** The agent must complete the open flight of its track. */
  predicate Owns(pc: Pc) {
    match pc
    case Load(i) => i
    case LoadBase(i) => i
    case Merge(i, _) => i
    case Admit => true
    case Resolve => true
    case Upsert => true
    case Persist => true
    case Complete => true
    case _ => false
  }

  /** The agent has seen, inside its flight, that its track has no row. */
  predicate SawNoRow(pc: Pc) {
    pc == LoadBase(true) || pc == Admit || pc == Resolve || pc == Upsert
  }

  /** The duty that comes with an agent's place in the code. */
  predicate DutyIs(ag: Agent, d: Duty) {
    match d
    case Owning(t) => Owns(ag.pc) && ag.track == t
    case ClosingIt(f) => ag.pc == Closing(f)
  }

  /** The ledger gives each agent the duty of its place in the code, and nobody else any. */
  ghost predicate Linked(l: Ledger, agents: map<AgentId, Agent>) {
    forall a, d :: HasDuty(l, a, d) <==> a in agents && DutyIs(agents[a], d)
  }

  /** What an agent knows about the rows. */
  ghost predicate Knows(s: State, ag: Agent) {
    && (ag.pc.Merge? ==> ag.pc.row in s.rows || ag.pc.row in s.evicted)
    && (SawNoRow(ag.pc) && ag.track !in s.evicted ==> ag.track !in s.rows)
  }

  ghost predicate RowsAgree(s: State) {
    && (forall a :: a in s.agents ==> Knows(s, s.agents[a]))
    && (forall t :: t in s.upserts && t !in s.evicted ==> s.upserts[t] == 1 && t in s.rows)
  }

  ghost predicate Inv(s: State) {
    LedgerInv(s.ledger) && Linked(s.ledger, s.agents) && RowsAgree(s)
  }

  lemma {:induction false} MoveKeepsDuty(rows: set<TrackId>, ag: Agent, answer: Answer)
    requires !ag.pc.BeginFlight? && ag.pc != Complete && !ag.pc.Closing?
    ensures Owns(Move(true, rows, ag, answer)) <==> Owns(ag.pc)
    ensures !Move(true, rows, ag, answer).Closing?
  {}

  lemma {:induction false} StepKeepsLedger(s: State, a: AgentId, answer: Answer)
    requires Inv(s) && a in s.agents
    ensures LedgerInv(Step(true, s, a, answer).ledger)
  {
    var ag := s.agents[a];
    if ag.pc == BeginFlight {
      assert a in s.ledger.duties ==> HasDuty(s.ledger, a, s.ledger.duties[a]);
      BeginKeeps(s.ledger, a, ag.track);
    } else if Defers(s, ag, answer) {
      assert HasDuty(s.ledger, a, Owning(ag.track));
      assert answer.job in s.ledger.duties ==> HasDuty(s.ledger, answer.job, s.ledger.duties[answer.job]);
      HandOverKeeps(s.ledger, a, ag.track, answer.job);
    } else if ag.pc == Complete {
      assert HasDuty(s.ledger, a, Owning(ag.track));
      RemoveKeeps(s.ledger, a, ag.track);
    } else if ag.pc.Closing? {
      assert HasDuty(s.ledger, a, ClosingIt(ag.pc.flight));
      CloseKeeps(s.ledger, a, ag.pc.flight);
    }
  }

  /** Changing one agent's place and its duty together keeps the link. */
  lemma {:induction false} Relink(l: Ledger, l': Ledger, agents: map<AgentId, Agent>, a: AgentId, ag: Agent)
    requires Linked(l, agents)
    requires forall b, d :: HasDuty(l', b, d) <==> if b == a then DutyIs(ag, d) else HasDuty(l, b, d)
    ensures Linked(l', agents[a := ag])
  {}

  lemma {:induction false} PlainStepKeepsLinks(s: State, a: AgentId, answer: Answer)
    requires Inv(s) && a in s.agents
    requires !Defers(s, s.agents[a], answer) && s.agents[a].pc != Complete && !s.agents[a].pc.Closing?
    requires s.agents[a].pc == BeginFlight ==> s.agents[a].track in s.ledger.board.open
    ensures Linked(Step(true, s, a, answer).ledger, Step(true, s, a, answer).agents)
  {
    PlainStepKeepsDuty(s, a, answer);
    Relink(s.ledger, s.ledger, s.agents, a, Step(true, s, a, answer).agents[a]);
  }

  lemma PlainStepKeepsDuty(s: State, a: AgentId, answer: Answer)
    requires a in s.agents
    requires !Defers(s, s.agents[a], answer) && s.agents[a].pc != Complete && !s.agents[a].pc.Closing?
    requires s.agents[a].pc == BeginFlight ==> s.agents[a].track in s.ledger.board.open
    ensures var s' := Step(true, s, a, answer);
            s'.ledger == s.ledger && s'.agents == s.agents[a := s'.agents[a]]
            && SameDuty(s.agents[a], s'.agents[a])
  {
    if s.agents[a].pc != BeginFlight {
      MoveKeepsDuty(s.rows, s.agents[a], answer);
      assert Step(true, s, a, answer).agents[a] == s.agents[a].(pc := Move(true, s.rows, s.agents[a], answer));
    }
  }

  /** Neither agent closes a channel, and both own a flight or both none. */
  predicate SameDuty(ag: Agent, ag': Agent) {
    ag'.track == ag.track && (Owns(ag'.pc) <==> Owns(ag.pc)) && !ag'.pc.Closing? && !ag.pc.Closing?
  }

  lemma DeferKeepsLinks(s: State, a: AgentId, answer: Answer)
    requires Inv(s) && a in s.agents && Defers(s, s.agents[a], answer)
    ensures Linked(Step(true, s, a, answer).ledger, Step(true, s, a, answer).agents)
  {
    var ag := s.agents[a];
    assert HasDuty(s.ledger, a, Owning(ag.track));
    HandOverDuties(s.ledger, a, ag.track, answer.job);
    var l := s.ledger.(duties := s.ledger.duties - {a});
    assert forall b, d :: HasDuty(l, b, d) <==> b != a && HasDuty(s.ledger, b, d);
    Relink(s.ledger, l, s.agents, a, ag.(pc := Done));
    Relink(l, Step(true, s, a, answer).ledger, s.agents[a := ag.(pc := Done)], answer.job,
           Agent(ag.track, ag.bare, true, Resolve));
  }

  lemma BeginKeepsLinks(s: State, a: AgentId, answer: Answer)
    requires Inv(s) && a in s.agents && s.agents[a].pc == BeginFlight && s.agents[a].track !in s.ledger.board.open
    ensures Linked(Step(true, s, a, answer).ledger, Step(true, s, a, answer).agents)
  {
    BeginDuties(s.ledger, a, s.agents[a].track);
    Relink(s.ledger, Step(true, s, a, answer).ledger, s.agents, a, s.agents[a].(pc := Load(true)));
  }

  lemma CompleteKeepsLinks(s: State, a: AgentId, answer: Answer)
    requires Inv(s) && a in s.agents && s.agents[a].pc == Complete
    ensures Linked(Step(true, s, a, answer).ledger, Step(true, s, a, answer).agents)
  {
    var t := s.agents[a].track;
    assert HasDuty(s.ledger, a, Owning(t));
    RemoveDuties(s.ledger, a, t);
    Relink(s.ledger, Remove(s.ledger, a, t), s.agents, a, s.agents[a].(pc := Closing(s.ledger.board.open[t])));
  }

  lemma CloseKeepsLinks(s: State, a: AgentId, answer: Answer)
    requires Inv(s) && a in s.agents && s.agents[a].pc.Closing?
    ensures Linked(Step(true, s, a, answer).ledger, Step(true, s, a, answer).agents)
  {
    var f := s.agents[a].pc.flight;
    CloseDuties(s.ledger, a, f);
    Relink(s.ledger, Close(s.ledger, a, f), s.agents, a, s.agents[a].(pc := Done));
  }

  lemma StepKeepsLinks(s: State, a: AgentId, answer: Answer)
    requires Inv(s) && a in s.agents
    ensures Linked(Step(true, s, a, answer).ledger, Step(true, s, a, answer).agents)
  {
    var ag := s.agents[a];
    if ag.pc == BeginFlight && ag.track !in s.ledger.board.open {
      BeginKeepsLinks(s, a, answer);
    } else if Defers(s, ag, answer) {
      DeferKeepsLinks(s, a, answer);
    } else if ag.pc == Complete {
      CompleteKeepsLinks(s, a, answer);
    } else if ag.pc.Closing? {
      CloseKeepsLinks(s, a, answer);
    } else {
      PlainStepKeepsLinks(s, a, answer);
    }
  }

  /** One agent moves on without touching the rows. */
  lemma {:induction false} MoveKeepsRows(s: State, s': State, a: AgentId)
    requires RowsAgree(s) && a in s'.agents
    requires s' == s.(ledger := s'.ledger, agents := s.agents[a := s'.agents[a]])
    requires Knows(s, s'.agents[a])
    ensures RowsAgree(s')
  {}

  lemma {:induction false} DeferKeepsRows(s: State, a: AgentId, answer: Answer)
    requires RowsAgree(s) && a in s.agents && Defers(s, s.agents[a], answer)
    ensures RowsAgree(Step(true, s, a, answer))
  {
    var s' := Step(true, s, a, answer);
    forall b | b in s'.agents ensures Knows(s', s'.agents[b]) {
      assert Knows(s, s.agents[a]);
      assert b == a || b == answer.job || Knows(s, s.agents[b]);
    }
  }

  lemma {:induction false} MergeKeepsRows(s: State, a: AgentId)
    requires RowsAgree(s) && a in s.agents && s.agents[a].pc.Merge?
    ensures RowsAgree(Step(true, s, a, Ok))
  {
    var s' := Step(true, s, a, Ok);
    assert Knows(s, s.agents[a]);
    forall b | b in s'.agents ensures Knows(s', s'.agents[b]) {
      assert Knows(s, s.agents[b]);
    }
  }

  /** The heart of exactly-once: while one agent is about to upsert its track, every other
      agent that saw no row is registering another track. */
  lemma UpsertKeepsRows(s: State, a: AgentId)
    requires Inv(s) && a in s.agents && s.agents[a].pc == Upsert
    ensures RowsAgree(Step(true, s, a, Ok))
  {
    var s' := Step(true, s, a, Ok);
    assert Knows(s, s.agents[a]);
    forall b | b in s'.agents ensures Knows(s', s'.agents[b]) {
      assert Knows(s, s.agents[b]);
      if b != a && SawNoRow(s.agents[b].pc) {
        assert HasDuty(s.ledger, b, Owning(s.agents[b].track));
        assert HasDuty(s.ledger, a, Owning(s.agents[a].track));
      }
    }
  }

  lemma {:induction false} MoveKnows(s: State, ag: Agent, answer: Answer)
    requires Knows(s, ag)
    requires !ag.pc.BeginFlight? && !ag.pc.Complete? && !ag.pc.Closing?
    ensures Knows(s, ag.(pc := Move(true, s.rows, ag, answer)))
  {}

  lemma {:induction false} StepKeepsRows(s: State, a: AgentId, answer: Answer)
    requires Inv(s) && a in s.agents
    ensures RowsAgree(Step(true, s, a, answer))
  {
    var ag := s.agents[a];
    if ag.pc == Upsert && answer.Ok? {
      UpsertKeepsRows(s, a);
    } else if ag.pc.Merge? && answer.Ok? {
      MergeKeepsRows(s, a);
    } else if Defers(s, ag, answer) {
      DeferKeepsRows(s, a, answer);
    } else if !ag.pc.BeginFlight? && !ag.pc.Complete? && !ag.pc.Closing? {
      PlainMoveKeepsRows(s, a, answer);
    } else {
      FlightStepKeepsRows(s, a, answer);
    }
  }

  /** Beginning, completing and closing a flight. */
  lemma FlightStepKeepsRows(s: State, a: AgentId, answer: Answer)
    requires RowsAgree(s) && a in s.agents
    requires s.agents[a].pc.BeginFlight? || s.agents[a].pc.Complete? || s.agents[a].pc.Closing?
    ensures RowsAgree(Step(true, s, a, answer))
  {
    assert Knows(s, s.agents[a]);
    MoveKeepsRows(s, Step(true, s, a, answer), a);
  }

  /** A step that only moves on. */
  lemma PlainMoveKeepsRows(s: State, a: AgentId, answer: Answer)
    requires RowsAgree(s) && a in s.agents && !Defers(s, s.agents[a], answer)
    requires !(s.agents[a].pc == Upsert && answer.Ok?) && !(s.agents[a].pc.Merge? && answer.Ok?)
    requires !s.agents[a].pc.BeginFlight? && !s.agents[a].pc.Complete? && !s.agents[a].pc.Closing?
    ensures RowsAgree(Step(true, s, a, answer))
  {
    assert Knows(s, s.agents[a]);
    MoveKnows(s, s.agents[a], answer);
    MoveKeepsRows(s, Step(true, s, a, answer), a);
  }

  lemma {:induction false} EvictKeepsRows(s: State, t: TrackId)
    requires RowsAgree(s)
    ensures RowsAgree(Next(true, s, Evict(t)))
  {
    var s' := Next(true, s, Evict(t));
    forall b | b in s'.agents ensures Knows(s', s'.agents[b]) {
      assert Knows(s, s.agents[b]);
    }
  }

  lemma {:induction false} NextKeepsInv(s: State, e: Event)
    requires Inv(s)
    ensures Inv(Next(true, s, e))
  {
    match e
    case Lookup(a, t, bare) =>
      if a !in s.agents {
        Relink(s.ledger, s.ledger, s.agents, a, Agent(t, bare, false, Load(false)));
        MoveKeepsRows(s, Next(true, s, e), a);
      }
    case Go(a, answer) =>
      if a in s.agents {
        StepKeepsLedger(s, a, answer);
        StepKeepsLinks(s, a, answer);
        StepKeepsRows(s, a, answer);
      }
    case Evict(t) => EvictKeepsRows(s, t);
  }

  lemma {:induction false} RunKeepsInv(s: State, events: seq<Event>)
    requires Inv(s)
    ensures Inv(Run(true, s, events))
    decreases |events|
  {
    if events != [] {
      NextKeepsInv(s, events[0]);
      RunKeepsInv(Next(true, s, events[0]), events[1..]);
    }
  }

  // ---------------------------------------------------------------------------
  // Main results
  // ---------------------------------------------------------------------------

  /** No track id that was never evicted is bootstrapped twice. */
  ghost predicate AtMostOneBootstrap(s: State) {
    forall t :: t !in s.evicted ==> s.upserts[t] <= 1
  }

  /** The run that breaks it without coalescing: two lookups that go in step, so that both
      miss before either has stored the product. */
  function Both(answer: Answer): seq<Event> {
    [Go(0, answer), Go(1, answer)]
  }

  const RACE := [Lookup(0, "p", false), Lookup(1, "p", false)]
                + (Both(Absent) + (Both(Absent) + (Both(Ok) + (Both(Ok) + Both(Ok)))))

  function InStep(pc: Pc): State {
    Init({}).(agents := map[0 := Agent("p", false, false, pc), 1 := Agent("p", false, false, pc)])
  }

  lemma {:induction false} RunTwo(c: bool, s: State, two: seq<Event>, rest: seq<Event>)
    requires |two| == 2
    ensures Run(c, s, two + rest) == Run(c, Next(c, Next(c, s, two[0]), two[1]), rest)
  {
    assert (two + rest)[1..][1..] == rest;
    assert (two + rest)[1..][0] == two[1];
  }

  lemma {:induction false} BothMove(pc: Pc, answer: Answer)
    requires pc == Load(false) || pc == Load(true) || pc == Admit || pc == Resolve
    requires answer == if pc.Load? then Absent else Ok
    ensures Next(false, Next(false, InStep(pc), Go(0, answer)), Go(1, answer))
         == InStep(Move(false, {}, Agent("p", false, false, pc), answer))
  {}

  lemma {:induction false} BothUpsert()
    ensures var s := Next(false, Next(false, InStep(Upsert), Go(0, Ok)), Go(1, Ok));
            s.upserts["p"] == 2 && s.evicted == {}
  {}

  lemma BothRun(pc: Pc, answer: Answer, rest: seq<Event>)
    requires pc == Load(false) || pc == Load(true) || pc == Admit || pc == Resolve
    requires answer == if pc.Load? then Absent else Ok
    ensures Run(false, InStep(pc), Both(answer) + rest)
         == Run(false, InStep(Move(false, {}, Agent("p", false, false, pc), answer)), rest)
  {
    RunTwo(false, InStep(pc), Both(answer), rest);
    BothMove(pc, answer);
  }

  lemma {:induction false} RaceStart(rest: seq<Event>)
    ensures Run(false, Init({}), [Lookup(0, "p", false), Lookup(1, "p", false)] + rest) == Run(false, InStep(Load(false)), rest)
  {
    var two := [Lookup(0, "p", false), Lookup(1, "p", false)];
    RunTwo(false, Init({}), two, rest);
    assert Next(false, Next(false, Init({}), two[0]), two[1]) == InStep(Load(false));
  }

  lemma {:induction false} RaceEnd()
    ensures var s := Run(false, InStep(Upsert), Both(Ok));
            s.upserts["p"] == 2 && s.evicted == {}
  {
    assert Both(Ok) + [] == Both(Ok);
    RunTwo(false, InStep(Upsert), Both(Ok), []);
    BothUpsert();
  }

  lemma RaceLoads(rest: seq<Event>)
    ensures Run(false, InStep(Load(false)), Both(Absent) + (Both(Absent) + rest)) == Run(false, InStep(Admit), rest)
  {
    BothRun(Load(false), Absent, Both(Absent) + rest);
    BothRun(Load(true), Absent, rest);
  }

  lemma RaceResolves(rest: seq<Event>)
    ensures Run(false, InStep(Admit), Both(Ok) + (Both(Ok) + rest)) == Run(false, InStep(Upsert), rest)
  {
    BothRun(Admit, Ok, Both(Ok) + rest);
    BothRun(Resolve, Ok, rest);
  }

  lemma RaceUpsertsTwice(s: State, race: seq<Event>)
    requires s == Init({}) && race == RACE
    ensures Run(false, s, race).upserts["p"] == 2 && Run(false, s, race).evicted == {}
  {
    RaceStart(Both(Absent) + (Both(Absent) + (Both(Ok) + (Both(Ok) + Both(Ok)))));
    RaceLoads(Both(Ok) + (Both(Ok) + Both(Ok)));
    RaceResolves(Both(Ok));
    RaceEnd();
  }

  /** Bootstrap happens at most once per track id in every run exactly when lookups coalesce. */
  lemma ExactlyOnceIffCoalescing(coalescing: bool)
    ensures coalescing <==>
            forall rows, events :: AtMostOneBootstrap(Run(coalescing, Init(rows), events))
  {
    if coalescing {
      forall rows, events ensures AtMostOneBootstrap(Run(coalescing, Init(rows), events)) {
        RunKeepsInv(Init(rows), events);
      }
    } else {
      var s, race := Init({}), RACE;
      RaceUpsertsTwice(s, race);
      assert !AtMostOneBootstrap(Run(false, s, race));
    }
  }

  /** Every reachable state: an open flight has one owner, a leader or job still in its body,
      and when that agent completes by track id it takes its own flight off the map. */
  lemma OneOwnerPerFlight(rows: set<TrackId>, events: seq<Event>, t: TrackId)
    requires t in Run(true, Init(rows), events).ledger.board.open
    ensures var s := Run(true, Init(rows), events);
            && t in s.ledger.owners
            && s.ledger.owners[t].flight == s.ledger.board.open[t]
            && s.ledger.owners[t].agent in s.agents
            && (forall a :: a in s.agents && s.agents[a].track == t ==>
                  (Owns(s.agents[a].pc) <==> a == s.ledger.owners[t].agent))
  {
    RunKeepsInv(Init(rows), events);
    var s := Run(true, Init(rows), events);
    assert HasDuty(s.ledger, s.ledger.owners[t].agent, Owning(t));
    forall a | a in s.agents && s.agents[a].track == t
      ensures Owns(s.agents[a].pc) <==> a == s.ledger.owners[t].agent
    {
      assert HasDuty(s.ledger, a, Owning(t)) <==> DutyIs(s.agents[a], Owning(t));
    }
  }

  ghost predicate AllLeft(s: State) {
    forall a :: a in s.agents ==> s.agents[a].pc.Done? || s.agents[a].pc.Wait?
  }

  lemma NobodyLeftNoDuty(s: State)
    requires Linked(s.ledger, s.agents) && AllLeft(s)
    ensures s.ledger.duties == map[]
  {
    assert forall a :: a in s.ledger.duties ==> HasDuty(s.ledger, a, s.ledger.duties[a]);
  }

  /** No channel is ever closed twice, and once every agent has left, each flight ever begun,
      handed over or not, has had its channel closed exactly once. */
  lemma ChannelsClosedExactlyOnce(rows: set<TrackId>, events: seq<Event>, f: FlightId)
    ensures var s := Run(true, Init(rows), events);
            && s.ledger.board.closed[f] <= 1
            && (AllLeft(s) && f < |s.ledger.board.tracks| ==> s.ledger.board.closed[f] == 1)
  {
    RunKeepsInv(Init(rows), events);
    var s := Run(true, Init(rows), events);
    if AllLeft(s) {
      NobodyLeftNoDuty(s);
    }
    QuietMeansClosedOnce(s.ledger, f);
  }
}
