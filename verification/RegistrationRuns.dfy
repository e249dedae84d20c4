/** What registration brings about over whole runs, measured by the answers the agents got: nothing
    is registered unless every question on the way was answered so, and nothing is left out. */
module RegistrationRuns {
  import opened Flights
  import opened Registration

  /** An agent asked at a place in the code and was answered. */
  datatype Reply = Reply(track: TrackId, bare: bool, at: Pc, answer: Answer)

  /** The store finds a row that is there, and does not find one that is not. */
  predicate Fits(s: State, ag: Agent, answer: Answer) {
    match answer
    case Found(row) => row in s.rows && (ag.pc.Load? ==> row == ag.track)
    case Absent => ag.pc.Load? ==> ag.track !in s.rows
    case _ => true
  }

  function Replies(s: State, e: Event): set<Reply> {
    if e.Go? && e.agent in s.agents && Fits(s, s.agents[e.agent], e.answer)
    then {Reply(s.agents[e.agent].track, s.agents[e.agent].bare, s.agents[e.agent].pc, e.answer)} else {}
  }

  function Log(coalescing: bool, s: State, events: seq<Event>): set<Reply>
    decreases |events|
  {
    if events == [] then {} else Replies(s, events[0]) + Log(coalescing, Next(coalescing, s, events[0]), events[1..])
  }

  // ---------------------------------------------------------------------------
  // Nothing is registered that should not be
  // ---------------------------------------------------------------------------

  /** No product was found, under the track id and, for a mobile URL, under the base id. */
  ghost predicate Missed(log: set<Reply>, t: TrackId, bare: bool, inFlight: bool) {
    && Reply(t, bare, Load(inFlight), Absent) in log
    && (bare ==> Reply(t, bare, LoadBase(inFlight), Absent) in log)
  }

  /** Twice no product was found, registration was admitted, the provider resolved the product
      and the store took it. */
  ghost predicate Earned(log: set<Reply>, t: TrackId, bare: bool) {
    && Missed(log, t, bare, false) && Missed(log, t, bare, true)
    && Reply(t, bare, Admit, Ok) in log
    && Reply(t, bare, Resolve, Ok) in log
    && Reply(t, bare, Upsert, Ok) in log
  }

  /** What must have been answered for an agent to be where it is. */
  ghost predicate CameBy(log: set<Reply>, ag: Agent) {
    var t, bare := ag.track, ag.bare;
    match ag.pc
    case Load(i) => i ==> Missed(log, t, bare, false)
    case LoadBase(i) => bare && Reply(t, bare, Load(i), Absent) in log && (i ==> Missed(log, t, bare, false))
    case BeginFlight => Missed(log, t, bare, false)
    case Admit => Missed(log, t, bare, false) && Missed(log, t, bare, true)
    case Resolve => Missed(log, t, bare, false) && Missed(log, t, bare, true) && Reply(t, bare, Admit, Ok) in log
    case Upsert =>
      && Missed(log, t, bare, false) && Missed(log, t, bare, true)
      && Reply(t, bare, Admit, Ok) in log && Reply(t, bare, Resolve, Ok) in log
    case Persist => Earned(log, t, bare)
    case _ => true
  }

  /** Rows come from upserts and from merges of products that were found. */
  ghost predicate Merged(log: set<Reply>, row: TrackId) {
    exists t, bare, i :: Reply(t, bare, Merge(i, row), Ok) in log
  }

  ghost predicate Accounted(rows: set<TrackId>, s: State, log: set<Reply>) {
    && (forall a :: a in s.agents ==> CameBy(log, s.agents[a]))
    && (forall t :: t in s.upserts ==> Earned(log, t, true) || Earned(log, t, false))
    && (forall t :: t in s.rows ==> t in rows || t in s.upserts || Merged(log, t))
  }

  lemma CameByMore(log: set<Reply>, more: set<Reply>, ag: Agent)
    requires CameBy(log, ag)
    ensures CameBy(log + more, ag)
  {}

  lemma MoveCameBy(coalescing: bool, s: State, ag: Agent, answer: Answer, log: set<Reply>)
    requires CameBy(log, ag) && Fits(s, ag, answer)
    ensures CameBy(log + {Reply(ag.track, ag.bare, ag.pc, answer)},
                   ag.(pc := Move(coalescing, s.rows, ag, answer)))
  {}

  lemma UnfitStays(coalescing: bool, s: State, ag: Agent, answer: Answer)
    requires !Fits(s, ag, answer)
    ensures Move(coalescing, s.rows, ag, answer) == ag.pc || ag.pc.Wait? || ag.pc == Persist
  {}

  predicate Plain(pc: Pc) {
    pc != BeginFlight && pc != Complete && !pc.Closing?
  }

  lemma PlainStep(coalescing: bool, s: State, a: AgentId, answer: Answer)
    requires a in s.agents && Plain(s.agents[a].pc) && !Defers(s, s.agents[a], answer)
    ensures Step(coalescing, s, a, answer).agents
         == s.agents[a := s.agents[a].(pc := Move(coalescing, s.rows, s.agents[a], answer))]
    ensures s.rows <= Step(coalescing, s, a, answer).rows
    ensures s.agents[a].pc == Upsert && answer == Ok ==> s.agents[a].track in Step(coalescing, s, a, answer).rows
  {}

  /** Anything but asking: a flight begins, is handed over, leaves the map or closes. */
  lemma FlightStepCameBy(coalescing: bool, s: State, a: AgentId, answer: Answer, log: set<Reply>, b: AgentId)
    requires a in s.agents && CameBy(log, s.agents[a])
    requires !Plain(s.agents[a].pc) || Defers(s, s.agents[a], answer)
    requires b in Step(coalescing, s, a, answer).agents && (b == a || b !in s.agents)
    ensures CameBy(log, Step(coalescing, s, a, answer).agents[b])
  {}

  lemma PlainStepCameBy(coalescing: bool, s: State, a: AgentId, answer: Answer, log: set<Reply>)
    requires a in s.agents && CameBy(log, s.agents[a])
    requires Plain(s.agents[a].pc) && !Defers(s, s.agents[a], answer)
    ensures CameBy(log + Replies(s, Go(a, answer)), Step(coalescing, s, a, answer).agents[a])
  {
    PlainStep(coalescing, s, a, answer);
    if Fits(s, s.agents[a], answer) {
      MoveCameBy(coalescing, s, s.agents[a], answer, log);
    } else {
      CameByMore(log, Replies(s, Go(a, answer)), s.agents[a]);
      UnfitStays(coalescing, s, s.agents[a], answer);
    }
  }

  lemma OthersStay(coalescing: bool, s: State, a: AgentId, answer: Answer, b: AgentId)
    requires a in s.agents && b in s.agents && b != a
    ensures b in Step(coalescing, s, a, answer).agents && Step(coalescing, s, a, answer).agents[b] == s.agents[b]
  {}

  /** The agents after a step: one moved on, and a job may have come. */
  lemma StepCameBy(coalescing: bool, s: State, a: AgentId, answer: Answer, log: set<Reply>, b: AgentId)
    requires a in s.agents && b in Step(coalescing, s, a, answer).agents
    requires CameBy(log, s.agents[a]) && (b in s.agents ==> CameBy(log, s.agents[b]))
    ensures CameBy(log + Replies(s, Go(a, answer)), Step(coalescing, s, a, answer).agents[b])
  {
    if b in s.agents && b != a {
      OthersStay(coalescing, s, a, answer, b);
      CameByMore(log, Replies(s, Go(a, answer)), s.agents[b]);
    } else if Plain(s.agents[a].pc) && !Defers(s, s.agents[a], answer) {
      PlainStepCameBy(coalescing, s, a, answer, log);
      PlainStep(coalescing, s, a, answer);
    } else {
      FlightStepCameBy(coalescing, s, a, answer, log, b);
      CameByMore(log, Replies(s, Go(a, answer)), Step(coalescing, s, a, answer).agents[b]);
    }
  }

  lemma EarnedMore(log: set<Reply>, more: set<Reply>, t: TrackId, bare: bool)
    requires Earned(log, t, bare)
    ensures Earned(log + more, t, bare)
  {}

  lemma MergedMore(log: set<Reply>, more: set<Reply>, row: TrackId)
    requires Merged(log, row)
    ensures Merged(log + more, row)
  {
    var t, bare, i :| Reply(t, bare, Merge(i, row), Ok) in log;
    assert Reply(t, bare, Merge(i, row), Ok) in log + more;
  }

  lemma StepEarns(coalescing: bool, s: State, a: AgentId, answer: Answer, log: set<Reply>, t: TrackId)
    requires a in s.agents && CameBy(log, s.agents[a])
    requires t in Step(coalescing, s, a, answer).upserts
    requires t in s.upserts ==> Earned(log, t, true) || Earned(log, t, false)
    ensures Earned(log + Replies(s, Go(a, answer)), t, true) || Earned(log + Replies(s, Go(a, answer)), t, false)
  {
    var more := Replies(s, Go(a, answer));
    if t in s.upserts {
      if Earned(log, t, true) { EarnedMore(log, more, t, true); } else { EarnedMore(log, more, t, false); }
    } else {
      assert s.agents[a].track == t && s.agents[a].pc == Upsert && answer == Ok;
      assert Earned(log + more, t, s.agents[a].bare);
    }
  }

  lemma StepAddsRow(coalescing: bool, s: State, a: AgentId, answer: Answer, log: set<Reply>, t: TrackId)
    requires a in s.agents && t in Step(coalescing, s, a, answer).rows && t !in s.rows
    ensures t in Step(coalescing, s, a, answer).upserts || Merged(log + Replies(s, Go(a, answer)), t)
  {
    var ag := s.agents[a];
    if ag.pc.Merge? {
      assert Reply(ag.track, ag.bare, Merge(ag.pc.inFlight, t), Ok) in log + Replies(s, Go(a, answer));
    }
  }

  lemma StepAccounts(coalescing: bool, rows: set<TrackId>, s: State, a: AgentId, answer: Answer, log: set<Reply>)
    requires a in s.agents && Accounted(rows, s, log)
    ensures Accounted(rows, Step(coalescing, s, a, answer), log + Replies(s, Go(a, answer)))
  {
    var s', more := Step(coalescing, s, a, answer), Replies(s, Go(a, answer));
    forall b | b in s'.agents ensures CameBy(log + more, s'.agents[b]) {
      StepCameBy(coalescing, s, a, answer, log, b);
    }
    assert CameBy(log, s.agents[a]);
    forall t | t in s'.upserts ensures Earned(log + more, t, true) || Earned(log + more, t, false) {
      StepEarns(coalescing, s, a, answer, log, t);
    }
    forall t | t in s'.rows ensures t in rows || t in s'.upserts || Merged(log + more, t) {
      if t !in s.rows {
        StepAddsRow(coalescing, s, a, answer, log, t);
      } else if Merged(log, t) {
        MergedMore(log, more, t);
      }
    }
  }

  lemma NextAccounts(coalescing: bool, rows: set<TrackId>, s: State, e: Event, log: set<Reply>)
    requires Accounted(rows, s, log)
    ensures Accounted(rows, Next(coalescing, s, e), log + Replies(s, e))
  {
    if e.Go? && e.agent in s.agents {
      StepAccounts(coalescing, rows, s, e.agent, e.answer, log);
    } else {
      assert log + {} == log;
    }
  }

  lemma {:induction false} RunAccounts(coalescing: bool, rows: set<TrackId>, s: State, events: seq<Event>, log: set<Reply>)
    requires Accounted(rows, s, log)
    ensures Accounted(rows, Run(coalescing, s, events), log + Log(coalescing, s, events))
    decreases |events|
  {
    if events == [] {
      assert log + {} == log;
    } else {
      var s', more := Next(coalescing, s, events[0]), Replies(s, events[0]);
      NextAccounts(coalescing, rows, s, events[0], log);
      RunAccounts(coalescing, rows, s', events[1..], log + more);
      assert log + Log(coalescing, s, events) == log + more + Log(coalescing, s', events[1..]);
    }
  }

  /** Main result: over every run, coalescing or not, with failures, time-outs, jobs and evictions,
      a track is upserted only after it was missed twice (for a mobile URL under the base id too),
      registration was admitted and the provider resolved it; no other row appears but by the merge of
      a product that was found; and the rest of a product is stored only after its row. */
  lemma NothingIsRegisteredUnasked(coalescing: bool, rows: set<TrackId>, events: seq<Event>, t: TrackId)
    ensures var s, log := Run(coalescing, Init(rows), events), Log(coalescing, Init(rows), events);
            && (t in s.upserts ==> Earned(log, t, true) || Earned(log, t, false))
            && (t in s.rows ==> t in rows || t in s.upserts || Merged(log, t))
            && (forall a :: a in s.agents && s.agents[a].pc == Persist ==> Earned(log, s.agents[a].track, s.agents[a].bare))
  {
    RunAccounts(coalescing, rows, Init(rows), events, {});
    assert {} + Log(coalescing, Init(rows), events) == Log(coalescing, Init(rows), events);
  }

  // ---------------------------------------------------------------------------
  // Nothing is left out
  // ---------------------------------------------------------------------------

  /** No product is deleted, and no store, provider or admission fails. Providers may time out. */
  predicate Calm(e: Event) {
    !e.Evict? && !(e.Go? && e.answer == Fail)
  }

  predicate AllCalm(events: seq<Event>) {
    forall i :: 0 <= i < |events| ==> Calm(events[i])
  }

  /** A mobile lookup of the track was answered with a row of the base product. */
  ghost predicate FoundByBase(log: set<Reply>, t: TrackId) {
    exists i, row :: Reply(t, true, LoadBase(i), Found(row)) in log
  }

  ghost predicate Settled(s: State, log: set<Reply>, t: TrackId) {
    t in s.rows || FoundByBase(log, t)
  }

  /** The agent may still register its track. */
  predicate Working(pc: Pc) {
    pc.Load? || pc.LoadBase? || pc == BeginFlight || pc == Admit || pc == Resolve || pc == Upsert
  }

  ghost predicate WorksOn(s: State, b: AgentId, t: TrackId) {
    b in s.agents && s.agents[b].track == t && Working(s.agents[b].pc)
  }

  ghost predicate Served(s: State, log: set<Reply>, t: TrackId) {
    Settled(s, log, t) || exists b :: WorksOn(s, b, t)
  }

  /** What holds of an agent that nothing went wrong for. A track with a row from the start is
      found at once. */
  ghost predicate Placed(rows: set<TrackId>, s: State, log: set<Reply>, ag: Agent) {
    && (ag.track in rows ==> ag.pc == Load(false) || ag.pc == Merge(false, ag.track) || ag.pc == Done)
    && (ag.pc.Merge? ==> ag.pc.row in s.rows && (ag.pc.row == ag.track || FoundByBase(log, ag.track)))
    && (ag.pc == Persist || ag.pc == Complete || ag.pc.Closing? ==> Settled(s, log, ag.track))
  }

  ghost predicate Thorough(rows: set<TrackId>, s: State, log: set<Reply>) {
    && (forall t :: t in s.rows <==> t in rows || t in s.upserts)
    && (forall t :: t in rows ==> t !in s.upserts)
    && (forall a :: a in s.agents ==> Placed(rows, s, log, s.agents[a]) && Served(s, log, s.agents[a].track))
  }

  /** Whoever is told to wait has somebody to wait for. */
  ghost predicate Guarded(s: State) {
    forall a :: a in s.agents && s.agents[a].pc == BeginFlight && s.agents[a].track in s.ledger.board.open ==>
                  exists b :: b in s.agents && s.agents[b].track == s.agents[a].track && Owns(s.agents[b].pc)
  }

  lemma FoundMore(log: set<Reply>, more: set<Reply>, t: TrackId)
    requires FoundByBase(log, t)
    ensures FoundByBase(log + more, t)
  {
    var i, row :| Reply(t, true, LoadBase(i), Found(row)) in log;
    assert Reply(t, true, LoadBase(i), Found(row)) in log + more;
  }

  lemma SettledMore(s: State, s': State, log: set<Reply>, more: set<Reply>, t: TrackId)
    requires Settled(s, log, t) && s.rows <= s'.rows
    ensures Settled(s', log + more, t)
  {
    if t !in s.rows { FoundMore(log, more, t); }
  }

  lemma PlacedMore(rows: set<TrackId>, s: State, s': State, log: set<Reply>, more: set<Reply>, ag: Agent)
    requires Placed(rows, s, log, ag) && s.rows <= s'.rows
    ensures Placed(rows, s', log + more, ag)
  {
    if FoundByBase(log, ag.track) { FoundMore(log, more, ag.track); }
  }

  /** An agent that only asks. A base row that answers it is in the log. */
  lemma MovePlaces(coalescing: bool, rows: set<TrackId>, s: State, s': State, ag: Agent, answer: Answer, log: set<Reply>)
    requires Plain(ag.pc) && answer != Fail && rows <= s.rows <= s'.rows && Placed(rows, s, log, ag)
    requires ag.pc == Upsert && answer == Ok ==> ag.track in s'.rows
    requires ag.pc.LoadBase? && answer.Found? && answer.row in s.rows ==> FoundByBase(log, ag.track)
    ensures Placed(rows, s', log, ag.(pc := Move(coalescing, s.rows, ag, answer)))
  {}

  lemma BaseAnswerIsLogged(s: State, a: AgentId, answer: Answer, log: set<Reply>)
    requires a in s.agents && CameBy(log, s.agents[a])
    requires s.agents[a].pc.LoadBase? && answer.Found? && answer.row in s.rows
    ensures FoundByBase(log + Replies(s, Go(a, answer)), s.agents[a].track)
  {
    var ag := s.agents[a];
    assert Reply(ag.track, true, LoadBase(ag.pc.inFlight), Found(answer.row)) in log + Replies(s, Go(a, answer));
  }

  lemma FlightStepPlaces(coalescing: bool, rows: set<TrackId>, s: State, a: AgentId, answer: Answer, log: set<Reply>, b: AgentId)
    requires a in s.agents && rows <= s.rows && Placed(rows, s, log, s.agents[a])
    requires !Plain(s.agents[a].pc) || Defers(s, s.agents[a], answer)
    requires b in Step(coalescing, s, a, answer).agents && (b == a || b !in s.agents)
    ensures Placed(rows, Step(coalescing, s, a, answer), log, Step(coalescing, s, a, answer).agents[b])
  {}

  /** The agent that moved, or the job it started. */
  lemma StepPlaces(coalescing: bool, rows: set<TrackId>, s: State, a: AgentId, answer: Answer, log: set<Reply>, b: AgentId)
    requires a in s.agents && answer != Fail && CameBy(log, s.agents[a]) && rows <= s.rows
    requires Placed(rows, s, log, s.agents[a])
    requires b in Step(coalescing, s, a, answer).agents && (b == a || b !in s.agents)
    ensures Placed(rows, Step(coalescing, s, a, answer), log + Replies(s, Go(a, answer)), Step(coalescing, s, a, answer).agents[b])
  {
    var ag, s', more := s.agents[a], Step(coalescing, s, a, answer), Replies(s, Go(a, answer));
    PlacedMore(rows, s, s, log, more, ag);
    if Plain(ag.pc) && !Defers(s, ag, answer) {
      PlainStep(coalescing, s, a, answer);
      if ag.pc.LoadBase? && answer.Found? && answer.row in s.rows { BaseAnswerIsLogged(s, a, answer, log); }
      MovePlaces(coalescing, rows, s, s', ag, answer, log + more);
    } else {
      FlightStepPlaces(coalescing, rows, s, a, answer, log + more, b);
    }
  }

  lemma StepGrowsRows(coalescing: bool, rows: set<TrackId>, s: State, a: AgentId, answer: Answer, log: set<Reply>)
    requires a in s.agents && Placed(rows, s, log, s.agents[a])
    requires (forall t :: t in s.rows <==> t in rows || t in s.upserts) && (forall t :: t in rows ==> t !in s.upserts)
    ensures var s' := Step(coalescing, s, a, answer);
            && s.rows <= s'.rows
            && (forall t :: t in s'.rows <==> t in rows || t in s'.upserts)
            && (forall t :: t in rows ==> t !in s'.upserts)
  {}

  /** A track an agent works on, or has seen settled, is served. */
  lemma ServedBy(rows: set<TrackId>, s: State, log: set<Reply>, b: AgentId)
    requires b in s.agents && Placed(rows, s, log, s.agents[b])
    requires s.agents[b].pc != Done && !s.agents[b].pc.Wait?
    ensures Served(s, log, s.agents[b].track)
  {
    if Working(s.agents[b].pc) { assert WorksOn(s, b, s.agents[b].track); }
  }

  /** An agent leaves only when its track is settled, when it waited, or when a job goes on. */
  lemma LeavesServed(coalescing: bool, rows: set<TrackId>, s: State, a: AgentId, answer: Answer, log: set<Reply>)
    requires a in s.agents && answer != Fail && Placed(rows, s, log, s.agents[a])
    requires !s.agents[a].pc.Wait? && s.agents[a].pc != Done && s.agents[a].pc != BeginFlight
    requires Step(coalescing, s, a, answer).agents[a].pc == Done || Step(coalescing, s, a, answer).agents[a].pc.Wait?
    requires s.rows <= Step(coalescing, s, a, answer).rows
    ensures Served(Step(coalescing, s, a, answer), log, s.agents[a].track)
  {
    var s' := Step(coalescing, s, a, answer);
    if Defers(s, s.agents[a], answer) {
      assert WorksOn(s', answer.job, s.agents[a].track);
    } else {
      assert s.agents[a].pc.Merge? ==> s.agents[a].pc.row in s'.rows;
      assert Settled(s', log, s.agents[a].track);
    }
  }

  /** A follower's track is served by the owner of the flight. */
  lemma WaitsServed(coalescing: bool, rows: set<TrackId>, s: State, a: AgentId, answer: Answer, log: set<Reply>)
    requires a in s.agents && s.agents[a].pc == BeginFlight && s.agents[a].track in s.ledger.board.open
    requires Guarded(s) && forall b :: b in s.agents ==> Placed(rows, s, log, s.agents[b])
    ensures Served(Step(coalescing, s, a, answer), log, s.agents[a].track)
  {
    var s' := Step(coalescing, s, a, answer);
    var o :| o in s.agents && s.agents[o].track == s.agents[a].track && Owns(s.agents[o].pc);
    OthersStay(coalescing, s, a, answer, o);
    PlacedMore(rows, s, s', log, {}, s.agents[o]);
    assert log + {} == log;
    ServedBy(rows, s', log, o);
  }

  /** The track of the agent that moved stays served. */
  lemma MoverServed(coalescing: bool, rows: set<TrackId>, s: State, a: AgentId, answer: Answer, log: set<Reply>)
    requires a in s.agents && answer != Fail && Working(s.agents[a].pc) && Guarded(s)
    requires forall b :: b in s.agents ==> Placed(rows, s, log, s.agents[b])
    requires s.rows <= Step(coalescing, s, a, answer).rows
    requires Placed(rows, Step(coalescing, s, a, answer), log, Step(coalescing, s, a, answer).agents[a])
    ensures Served(Step(coalescing, s, a, answer), log, s.agents[a].track)
  {
    var ag, s' := s.agents[a], Step(coalescing, s, a, answer);
    if ag.pc == BeginFlight && ag.track in s.ledger.board.open {
      WaitsServed(coalescing, rows, s, a, answer, log);
    } else if s'.agents[a].pc == Done || s'.agents[a].pc.Wait? {
      LeavesServed(coalescing, rows, s, a, answer, log);
    } else {
      ServedBy(rows, s', log, a);
    }
  }

  lemma StepServes(coalescing: bool, rows: set<TrackId>, s: State, a: AgentId, answer: Answer, log: set<Reply>, t: TrackId)
    requires a in s.agents && answer != Fail && Guarded(s) && Served(s, log, t)
    requires forall b :: b in s.agents ==> Placed(rows, s, log, s.agents[b])
    requires s.rows <= Step(coalescing, s, a, answer).rows
    requires Placed(rows, Step(coalescing, s, a, answer), log, Step(coalescing, s, a, answer).agents[a])
    ensures Served(Step(coalescing, s, a, answer), log, t)
  {
    var s' := Step(coalescing, s, a, answer);
    if !Settled(s, log, t) {
      var b :| WorksOn(s, b, t);
      if b == a {
        MoverServed(coalescing, rows, s, a, answer, log);
      } else {
        OthersStay(coalescing, s, a, answer, b);
        assert WorksOn(s', b, t);
      }
    }
  }

  /** More answers only settle more. */
  lemma ServedMore(s: State, log: set<Reply>, more: set<Reply>, t: TrackId)
    requires Served(s, log, t)
    ensures Served(s, log + more, t)
  {
    if Settled(s, log, t) { SettledMore(s, s, log, more, t); }
  }

  lemma ThoroughMore(rows: set<TrackId>, s: State, log: set<Reply>, more: set<Reply>)
    requires Thorough(rows, s, log)
    ensures Thorough(rows, s, log + more)
  {
    forall a | a in s.agents
      ensures Placed(rows, s, log + more, s.agents[a]) && Served(s, log + more, s.agents[a].track)
    {
      PlacedMore(rows, s, s, log, more, s.agents[a]);
      ServedMore(s, log, more, s.agents[a].track);
    }
  }

  lemma StepIsThorough(coalescing: bool, rows: set<TrackId>, s: State, a: AgentId, answer: Answer, log: set<Reply>)
    requires a in s.agents && answer != Fail && Guarded(s) && Thorough(rows, s, log) && CameBy(log, s.agents[a])
    ensures Thorough(rows, Step(coalescing, s, a, answer), log + Replies(s, Go(a, answer)))
  {
    var s', all := Step(coalescing, s, a, answer), log + Replies(s, Go(a, answer));
    StepGrowsRows(coalescing, rows, s, a, answer, log);
    StepPlaces(coalescing, rows, s, a, answer, log, a);
    ThoroughMore(rows, s, log, Replies(s, Go(a, answer)));
    forall b | b in s'.agents ensures Placed(rows, s', all, s'.agents[b]) && Served(s', all, s'.agents[b].track) {
      if b in s.agents && b != a {
        OthersStay(coalescing, s, a, answer, b);
        PlacedMore(rows, s, s', all, {}, s.agents[b]);
        assert all + {} == all;
      } else {
        StepPlaces(coalescing, rows, s, a, answer, log, b);
        MoversTrack(coalescing, s, a, answer, b);
      }
      StepServes(coalescing, rows, s, a, answer, all, s'.agents[b].track);
    }
  }

  lemma MoversTrack(coalescing: bool, s: State, a: AgentId, answer: Answer, b: AgentId)
    requires a in s.agents && b in Step(coalescing, s, a, answer).agents && (b == a || b !in s.agents)
    ensures Step(coalescing, s, a, answer).agents[b].track == s.agents[a].track
  {}

  lemma LookupIsThorough(coalescing: bool, rows: set<TrackId>, s: State, e: Event, log: set<Reply>)
    requires e.Lookup? && Thorough(rows, s, log)
    ensures Thorough(rows, Next(coalescing, s, e), log)
  {
    var s' := Next(coalescing, s, e);
    forall b | b in s'.agents ensures Placed(rows, s', log, s'.agents[b]) && Served(s', log, s'.agents[b].track) {
      if b in s.agents {
        assert Placed(rows, s, log, s.agents[b]);
        if !Settled(s, log, s.agents[b].track) {
          var c :| WorksOn(s, c, s.agents[b].track);
          assert WorksOn(s', c, s.agents[b].track);
        }
      } else {
        assert WorksOn(s', b, s'.agents[b].track);
      }
    }
  }

  lemma NextIsThorough(coalescing: bool, rows: set<TrackId>, s: State, e: Event, log: set<Reply>)
    requires Calm(e) && Guarded(s) && Thorough(rows, s, log) && Accounted(rows, s, log)
    ensures Thorough(rows, Next(coalescing, s, e), log + Replies(s, e))
  {
    if e.Go? && e.agent in s.agents {
      StepIsThorough(coalescing, rows, s, e.agent, e.answer, log);
    } else {
      assert log + {} == log;
      if e.Lookup? { LookupIsThorough(coalescing, rows, s, e, log); }
    }
  }

  /** With coalescing the invariant of the flights guards; without it nobody ever waits. */
  ghost predicate FlightsOk(coalescing: bool, s: State) {
    if coalescing then Inv(s) else forall a :: a in s.agents ==> s.agents[a].pc != BeginFlight
  }

  lemma OwnerOwns(s: State, t: TrackId)
    requires Inv(s) && t in s.ledger.board.open
    ensures exists b :: b in s.agents && s.agents[b].track == t && Owns(s.agents[b].pc)
  {
    var b := s.ledger.owners[t].agent;
    assert HasDuty(s.ledger, b, Owning(t));
    assert DutyIs(s.agents[b], Owning(t));
  }

  lemma FlightsGuard(coalescing: bool, s: State)
    requires FlightsOk(coalescing, s)
    ensures Guarded(s)
  {
    if coalescing {
      forall a | a in s.agents && s.agents[a].pc == BeginFlight && s.agents[a].track in s.ledger.board.open
        ensures exists b :: b in s.agents && s.agents[b].track == s.agents[a].track && Owns(s.agents[b].pc)
      {
        OwnerOwns(s, s.agents[a].track);
      }
    }
  }

  lemma NextKeepsFlightsOk(coalescing: bool, s: State, e: Event)
    requires FlightsOk(coalescing, s)
    ensures FlightsOk(coalescing, Next(coalescing, s, e))
  {
    if coalescing {
      NextKeepsInv(s, e);
    } else if e.Go? && e.agent in s.agents {
      NobodyBegins(s, e.agent, e.answer);
    }
  }

  lemma NobodyBegins(s: State, a: AgentId, answer: Answer)
    requires a in s.agents && FlightsOk(false, s)
    ensures FlightsOk(false, Step(false, s, a, answer))
  {
    forall b | b in Step(false, s, a, answer).agents ensures Step(false, s, a, answer).agents[b].pc != BeginFlight {
      if b in s.agents && b != a { OthersStay(false, s, a, answer, b); }
    }
  }

  lemma {:induction false} RunIsThorough(coalescing: bool, rows: set<TrackId>, s: State, events: seq<Event>, log: set<Reply>)
    requires AllCalm(events) && FlightsOk(coalescing, s) && Thorough(rows, s, log) && Accounted(rows, s, log)
    ensures Thorough(rows, Run(coalescing, s, events), log + Log(coalescing, s, events))
    decreases |events|
  {
    if events == [] {
      assert log + {} == log;
    } else {
      var s', more := Next(coalescing, s, events[0]), Replies(s, events[0]);
      FlightsGuard(coalescing, s);
      NextKeepsFlightsOk(coalescing, s, events[0]);
      NextIsThorough(coalescing, rows, s, events[0], log);
      NextAccounts(coalescing, rows, s, events[0], log);
      RunIsThorough(coalescing, rows, s', events[1..], log + more);
      assert log + Log(coalescing, s, events) == log + more + Log(coalescing, s', events[1..]);
    }
  }

  lemma {:induction false} CalmEvictsNothing(coalescing: bool, s: State, events: seq<Event>)
    requires AllCalm(events)
    ensures Run(coalescing, s, events).evicted == s.evicted
    decreases |events|
  {
    if events != [] {
      assert Calm(events[0]);
      CalmEvictsNothing(coalescing, Next(coalescing, s, events[0]), events[1..]);
    }
  }

  lemma OnceWhenCoalescing(rows: set<TrackId>, events: seq<Event>, t: TrackId)
    requires AllCalm(events) && t in Run(true, Init(rows), events).upserts
    ensures Run(true, Init(rows), events).upserts[t] == 1
  {
    RunKeepsInv(Init(rows), events);
    CalmEvictsNothing(true, Init(rows), events);
  }

  lemma NextKeepsAgent(coalescing: bool, s: State, e: Event, a: AgentId)
    requires a in s.agents
    ensures var s' := Next(coalescing, s, e);
            a in s'.agents && s'.agents[a].track == s.agents[a].track && s'.agents[a].bare == s.agents[a].bare
  {
    if e.Go? && e.agent in s.agents {
      if e.agent == a { StepKeepsItself(coalescing, s, a, e.answer); } else { OthersStay(coalescing, s, e.agent, e.answer, a); }
    }
  }

  lemma StepKeepsItself(coalescing: bool, s: State, a: AgentId, answer: Answer)
    requires a in s.agents
    ensures var s' := Step(coalescing, s, a, answer);
            a in s'.agents && s'.agents[a].track == s.agents[a].track && s'.agents[a].bare == s.agents[a].bare
  {}

  lemma {:induction false} AgentStays(coalescing: bool, s: State, events: seq<Event>, a: AgentId)
    requires a in s.agents
    ensures var s' := Run(coalescing, s, events);
            a in s'.agents && s'.agents[a].track == s.agents[a].track && s'.agents[a].bare == s.agents[a].bare
    decreases |events|
  {
    if events != [] {
      NextKeepsAgent(coalescing, s, events[0], a);
      AgentStays(coalescing, Next(coalescing, s, events[0]), events[1..], a);
    }
  }

  /** The i-th event is the lookup of an agent that was not there before. */
  predicate LooksUp(coalescing: bool, s: State, events: seq<Event>, i: nat, a: AgentId, t: TrackId) {
    i < |events| && events[i].Lookup? && events[i].agent == a && events[i].track == t
    && a !in Run(coalescing, s, events[..i]).agents
  }

  lemma {:induction false} LookupStays(coalescing: bool, s: State, events: seq<Event>, i: nat, a: AgentId, t: TrackId)
    requires LooksUp(coalescing, s, events, i, a, t)
    ensures a in Run(coalescing, s, events).agents && Run(coalescing, s, events).agents[a].track == t
    decreases |events|
  {
    if i == 0 {
      assert events[..0] == [];
      AgentStays(coalescing, Next(coalescing, s, events[0]), events[1..], a);
    } else {
      assert events[..i][1..] == events[1..][..i - 1];
      LookupStays(coalescing, Next(coalescing, s, events[0]), events[1..], i - 1, a, t);
    }
  }

  /** Main result: in every run in which nothing is deleted and nothing fails, coalescing or not,
      time-outs and jobs included: the rows are those from the start and those upserted, and a track
      with a row from the start is not upserted; once every agent has left, every track looked up
      has its row, but for mobile lookups answered with a row of the base product; and with
      coalescing an upserted track was upserted once. */
  lemma LookupsRegister(coalescing: bool, rows: set<TrackId>, events: seq<Event>)
    requires AllCalm(events)
    ensures var s, log := Run(coalescing, Init(rows), events), Log(coalescing, Init(rows), events);
            && (forall t :: t in s.rows <==> t in rows || t in s.upserts)
            && (forall t :: t in rows ==> t !in s.upserts)
            && (AllLeft(s) ==> forall i, a, t :: LooksUp(coalescing, Init(rows), events, i, a, t) ==>
                  t in s.rows || FoundByBase(log, t))
            && (coalescing ==> forall t :: t in s.upserts ==> s.upserts[t] == 1)
  {
    var s, log := Run(coalescing, Init(rows), events), Log(coalescing, Init(rows), events);
    RunIsThorough(coalescing, rows, Init(rows), events, {});
    assert {} + log == log;
    if AllLeft(s) {
      forall i, a, t | LooksUp(coalescing, Init(rows), events, i, a, t) ensures Settled(s, log, t) {
        LookupStays(coalescing, Init(rows), events, i, a, t);
        assert Served(s, log, s.agents[a].track);
      }
    }
    if coalescing {
      forall t | t in s.upserts ensures s.upserts[t] == 1 { OnceWhenCoalescing(rows, events, t); }
    }
  }

  // ---------------------------------------------------------------------------
  // Nobody goes in circles
  // ---------------------------------------------------------------------------

  /** An answer to the question asked at this place. */
  predicate Answers(pc: Pc, answer: Answer) {
    match pc
    case Load(_) => answer.Fail? || answer.Found? || answer.Absent?
    case LoadBase(_) => answer.Fail? || answer.Found? || answer.Absent?
    case Merge(_, _) => answer.Fail? || answer.Ok?
    case Admit => answer.Fail? || answer.Ok?
    case Resolve => answer.Fail? || answer.Ok?
    case Upsert => answer.Fail? || answer.Ok?
    case _ => true
  }

  /** How many answers an agent can still wait for. */
  function StepsLeft(pc: Pc): nat {
    match pc
    case Load(i) => if i then 9 else 12
    case LoadBase(i) => if i then 8 else 11
    case BeginFlight => 10
    case Merge(_, _) => 3
    case Admit => 6
    case Resolve => 5
    case Upsert => 4
    case Persist => 3
    case Complete => 2
    case Closing(_) => 1
    case Wait(_) => 1
    case Done => 0
  }

  lemma MoveLeadsOut(coalescing: bool, s: State, ag: Agent, answer: Answer)
    requires Plain(ag.pc) && ag.pc != Done && Answers(ag.pc, answer) && Fits(s, ag, answer)
    ensures StepsLeft(Move(coalescing, s.rows, ag, answer)) < StepsLeft(ag.pc)
  {}

  lemma FlightStepLeadsOut(coalescing: bool, s: State, a: AgentId, answer: Answer)
    requires a in s.agents && (!Plain(s.agents[a].pc) || Defers(s, s.agents[a], answer))
    ensures StepsLeft(Step(coalescing, s, a, answer).agents[a].pc) < StepsLeft(s.agents[a].pc)
  {}

  /** Every answered question takes an agent closer to its end, so each lookup and job leaves after
      at most twelve of them, whatever they are and whatever others do in between. */
  lemma EveryAnswerLeadsOut(coalescing: bool, s: State, a: AgentId, answer: Answer)
    requires a in s.agents && s.agents[a].pc != Done
    requires Answers(s.agents[a].pc, answer) && Fits(s, s.agents[a], answer)
    ensures StepsLeft(Next(coalescing, s, Go(a, answer)).agents[a].pc) < StepsLeft(s.agents[a].pc) <= 12
  {
    if Plain(s.agents[a].pc) && !Defers(s, s.agents[a], answer) {
      PlainStep(coalescing, s, a, answer);
      MoveLeadsOut(coalescing, s, s.agents[a], answer);
    } else {
      FlightStepLeadsOut(coalescing, s, a, answer);
    }
  }

  /** A leader whose provider call timed out leaves at once, and one job goes on in its place with the
      flight; a job that times out starts no other. */
  lemma TimeOutStartsOneJob(coalescing: bool, s: State, a: AgentId, j: AgentId, k: AgentId)
    requires a in s.agents && j !in s.agents && s.agents[a].pc == Resolve && !s.agents[a].job
    ensures var s1 := Next(coalescing, s, Go(a, TimeOut(j)));
            && s1.agents.Keys == s.agents.Keys + {j} && s1.rows == s.rows
            && s1.agents[a].pc == Done
            && s1.agents[j] == s.agents[a].(job := true)
            && (s.agents[a].track in s.ledger.owners ==> s1.ledger.owners[s.agents[a].track].agent == j)
            && Next(coalescing, s1, Go(j, TimeOut(k))) == s1
  {
    var s1 := Next(coalescing, s, Go(a, TimeOut(j)));
    assert s1.agents[j := s1.agents[j]] == s1.agents;
  }
}
