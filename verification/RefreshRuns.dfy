/** When a sweep refreshes a product, and what one refresh does from its beginning to its end,
    said about the machine's events without the functions that decide. */
module RefreshRuns {
  import opened Options
  import opened Flights
  import opened Refresh

  // ---------------------------------------------------------------------------
  // When a sweep picks
  // ---------------------------------------------------------------------------

  /** Sweep w, which read the clock at `now` and listed `row` for t, could start agent a on it. */
  predicate Ready(s: State, w: nat, a: AgentId, t: TrackId, row: Row, now: int, warmup: bool) {
    && w in s.sweeps && a !in s.agents && t in s.sweeps[w].pending
    && t in s.sweeps[w].listing && s.sweeps[w].listing[t] == row
    && s.sweeps[w].now == Some(now) && s.sweeps[w].warmup == warmup
    && (s.sweeps[w].running.None? || (s.sweeps[w].running.value in s.agents && s.agents[s.sweeps[w].running.value].pc == Done))
  }

  /** The sweep starts a refresh of t, having given the product this tier. */
  predicate Starts(cfg: Config, s: State, w: nat, a: AgentId, t: TrackId, tier: Tier) {
    var s' := Next(cfg, s, SweepPick(w, a, t, tier));
    a in s'.agents && s'.agents[a].track == t && s'.agents[a].kind == BySweep(w)
  }

  /** Since when a product was not refreshed, as the listed row has it. */
  predicate Free(cfg: Config, row: Row, now: int) {
    && !row.inFlight
    && (row.attempt.Some? ==> now >= row.attempt.value + cfg.minInterval)
    && (row.attempt.Some? && row.meta.mapping == Failed && row.meta.failures > 0 && cfg.backoff > 0 ==>
          now >= row.attempt.value + cfg.backoff)
  }

  /** Main result: a product in flight, tried too recently or backing off is never picked; any other
      that was never seen always is; one seen at v is picked by a plain sweep exactly from its tier's
      interval after v on, or, when its mapping needs a recheck, from the longer of that and the
      backoff on, and by a warm-up sweep exactly past the freshness. */
  lemma PickedIff(cfg: Config, s: State, w: nat, a: AgentId, t: TrackId, tier: Tier, row: Row, now: int, warmup: bool)
    requires Ready(s, w, a, t, row, now, warmup)
    ensures !Free(cfg, row, now) ==> !Starts(cfg, s, w, a, t, tier)
    ensures Free(cfg, row, now) && row.meta.seen.None? ==> Starts(cfg, s, w, a, t, tier)
    ensures forall v :: Free(cfg, row, now) && row.meta.seen == Some(v) && !warmup ==>
              (Starts(cfg, s, w, a, t, tier) <==>
                && (tier == Hot ==> now >= v + cfg.hot)
                && (tier == Warm ==> now >= v + cfg.warm)
                && (tier == Cold ==> now >= v + cfg.cold)
                && (row.meta.mapping == NeedsRecheck ==> now >= v + cfg.backoff))
    ensures forall v :: Free(cfg, row, now) && row.meta.seen == Some(v) && warmup ==>
              (Starts(cfg, s, w, a, t, tier) <==> now > v + cfg.freshness)
  {
    assert Idle(s, w);
    assert CanPick(cfg, s, w, a, t, tier) <==> Due(cfg, warmup, Retiered(row, tier), now);
    PickStarts(cfg, s, w, a, t, tier);
  }

  lemma PickStarts(cfg: Config, s: State, w: nat, a: AgentId, t: TrackId, tier: Tier)
    requires a !in s.agents
    ensures Starts(cfg, s, w, a, t, tier) <==> CanPick(cfg, s, w, a, t, tier)
  {}

  /** The hotter the tier, the sooner it is picked. */
  lemma HotterIsPickedSooner(cfg: Config, s: State, w: nat, a: AgentId, t: TrackId, row: Row, now: int, warmup: bool)
    requires Ready(s, w, a, t, row, now, warmup) && cfg.hot <= cfg.warm <= cfg.cold
    ensures Starts(cfg, s, w, a, t, Cold) ==> Starts(cfg, s, w, a, t, Warm)
    ensures Starts(cfg, s, w, a, t, Warm) ==> Starts(cfg, s, w, a, t, Hot)
  {
    PickedIff(cfg, s, w, a, t, Cold, row, now, warmup);
    PickedIff(cfg, s, w, a, t, Warm, row, now, warmup);
    PickedIff(cfg, s, w, a, t, Hot, row, now, warmup);
  }

  /** What a sweep classifies a product by: when it was last queried, and how often of late. */
  datatype Usage = Usage(lastQueried: Option<int>, recentQueries: int)

  datatype Tiers = Tiers(window: int, hotThreshold: int, warmThreshold: int)

  function ClassifyTier(tiers: Tiers, usage: Usage, now: int): Tier {
    if usage.lastQueried.None? || now - usage.lastQueried.value > 2 * tiers.window then Cold
    else if usage.recentQueries >= tiers.hotThreshold then Hot
    else if usage.recentQueries >= tiers.warmThreshold then Warm
    else Cold
  }

  /** Queried no longer ago and no less often. */
  predicate AtLeastAsUsed(more: Usage, less: Usage) {
    && more.recentQueries >= less.recentQueries
    && (less.lastQueried.Some? ==> more.lastQueried.Some? && more.lastQueried.value >= less.lastQueried.value)
  }

  /** A product is cold when it was not queried within twice the window; within it, hot and warm
      exactly from their thresholds on, hot first. */
  lemma TierIff(tiers: Tiers, usage: Usage, now: int)
    ensures var fresh' := usage.lastQueried.Some? && now <= usage.lastQueried.value + 2 * tiers.window;
            && (ClassifyTier(tiers, usage, now) == Hot <==> fresh' && usage.recentQueries >= tiers.hotThreshold)
            && (ClassifyTier(tiers, usage, now) == Warm <==>
                  fresh' && tiers.warmThreshold <= usage.recentQueries < tiers.hotThreshold)
  {}

  /** Main result: with shorter intervals for hotter tiers, a product used at least as much is picked
      whenever it would be with less use, whatever the window and the thresholds are. */
  lemma MoreUsedIsPickedSooner(cfg: Config, tiers: Tiers, s: State, w: nat, a: AgentId, t: TrackId, row: Row, now: int, warmup: bool,
                               more: Usage, less: Usage)
    requires Ready(s, w, a, t, row, now, warmup) && cfg.hot <= cfg.warm <= cfg.cold && AtLeastAsUsed(more, less)
    requires Starts(cfg, s, w, a, t, ClassifyTier(tiers, less, now))
    ensures Starts(cfg, s, w, a, t, ClassifyTier(tiers, more, now))
  {
    HotterIsPickedSooner(cfg, s, w, a, t, row, now, warmup);
    TierIff(tiers, more, now);
    TierIff(tiers, less, now);
  }

  /** Each of several products is tried at most once a sweep, and only one that was listed. */
  lemma PickedOnce(cfg: Config, s: State, w: nat, a: AgentId, t: TrackId, tier: Tier)
    requires a !in s.agents && Starts(cfg, s, w, a, t, tier)
    ensures w in s.sweeps && t in s.sweeps[w].listing && t in s.sweeps[w].pending
    ensures Next(cfg, s, SweepPick(w, a, t, tier)).sweeps[w].pending == s.sweeps[w].pending - {t}
  {
    PickStarts(cfg, s, w, a, t, tier);
  }

  /** A sweep lists every product as it is then, and reads the clock after that, once. */
  lemma SweepBegins(cfg: Config, s: State, w: nat, warmup: bool, elapsed: nat)
    requires w !in s.sweeps && (cfg.overlap || s.sweeps == map[])
    ensures var listed := Next(cfg, s, SweepList(w, warmup));
            var later := Next(cfg, listed, Tick(elapsed));
            var begun := Next(cfg, later, SweepClock(w));
            && begun.rows == s.rows && begun.agents == s.agents && begun.clock == s.clock + elapsed
            && begun.sweeps == s.sweeps[w := Sweep(warmup, s.rows, Some(s.clock + elapsed), s.rows.Keys, None)]
            && Next(cfg, begun, SweepClock(w)) == begun
  {}

  // ---------------------------------------------------------------------------
  // What one refresh does
  // ---------------------------------------------------------------------------

  /** An agent got this answer at this place. */
  datatype Reply = Reply(agent: AgentId, at: Pc, ok: bool)

  function Log(cfg: Config, s: State, events: seq<Event>): set<Reply>
    decreases |events|
  {
    if events == [] then {} else Replies(s, events[0]) + Log(cfg, Next(cfg, s, events[0]), events[1..])
  }

  function Replies(s: State, e: Event): set<Reply> {
    if e.Go? && e.agent in s.agents then {Reply(e.agent, s.agents[e.agent].pc, e.ok)} else {}
  }

  /** What must have been answered for an agent to be where it is. */
  ghost predicate CameBy(log: set<Reply>, a: AgentId, ag: Agent) {
    && (PastBudget(ag.pc) ==> ag.kind == Direct || Reply(a, Budget, true) in log)
    && (PastLoad(ag.pc) ==> Reply(a, Load, true) in log)
    && (PastMark(ag.pc) ==> Reply(a, Mark, true) in log)
    && (PastFetch(ag.pc) ==> Reply(a, Fetch, true) in log)
    && (ag.pc == Snapshot ==> Reply(a, Metadata, true) in log)
  }

  predicate PastBudget(pc: Pc) { pc == Load || PastLoad(pc) }
  predicate PastLoad(pc: Pc) { pc == Stamp || pc == Mark || PastMark(pc) }
  predicate PastMark(pc: Pc) { pc == Fetch || pc == Clear || PastFetch(pc) }
  predicate PastFetch(pc: Pc) { pc == Metadata || pc == Snapshot }

  ghost predicate AllCameBy(s: State, log: set<Reply>) {
    forall a :: a in s.agents ==> CameBy(log, a, s.agents[a])
  }

  lemma NextCameBy(cfg: Config, s: State, e: Event, log: set<Reply>)
    requires AllCameBy(s, log)
    ensures AllCameBy(Next(cfg, s, e), log + Replies(s, e))
  {
    var s' := Next(cfg, s, e);
    forall a | a in s'.agents ensures CameBy(log + Replies(s, e), a, s'.agents[a]) {
      if a in s.agents { assert CameBy(log, a, s.agents[a]); }
      AgentCameBy(cfg, s, e, log, a);
    }
  }

  lemma AgentCameBy(cfg: Config, s: State, e: Event, log: set<Reply>, a: AgentId)
    requires a in Next(cfg, s, e).agents && (a in s.agents ==> CameBy(log, a, s.agents[a]))
    ensures CameBy(log + Replies(s, e), a, Next(cfg, s, e).agents[a])
  {
    if e.Go? && e.agent == a && a in s.agents {
      StepCameBy(cfg, s, a, e.ok, log);
    } else if a in s.agents {
      OthersStay(cfg, s, e, a);
      CameByMore(log, Replies(s, e), a, s.agents[a]);
    } else {
      NewAgent(cfg, s, e, a);
    }
  }

  lemma CameByMore(log: set<Reply>, more: set<Reply>, a: AgentId, ag: Agent)
    requires CameBy(log, a, ag)
    ensures CameBy(log + more, a, ag)
  {}

  lemma OthersStay(cfg: Config, s: State, e: Event, a: AgentId)
    requires a in s.agents && !(e.Go? && e.agent == a)
    ensures a in Next(cfg, s, e).agents && Next(cfg, s, e).agents[a] == s.agents[a]
  {}

  lemma NewAgent(cfg: Config, s: State, e: Event, a: AgentId)
    requires a !in s.agents && a in Next(cfg, s, e).agents
    ensures var ag := Next(cfg, s, e).agents[a];
            ag.pc == Done || (ag.pc == Budget && ag.kind != Direct) || (ag.pc == Load && ag.kind == Direct)
  {}

  lemma MoveCameBy(s: State, a: AgentId, ag: Agent, ok: bool, start: int, log: set<Reply>)
    requires CameBy(log, a, ag)
    ensures CameBy(log + {Reply(a, ag.pc, ok)}, a, ag.(pc := Move(s, ag, ok), start := start))
  {}

  lemma StepCameBy(cfg: Config, s: State, a: AgentId, ok: bool, log: set<Reply>)
    requires a in s.agents && CameBy(log, a, s.agents[a])
    ensures CameBy(log + Replies(s, Go(a, ok)), a, Step(cfg, s, a, ok).agents[a])
  {
    var ag := s.agents[a];
    if ag.pc != Finish && !ag.pc.Closing? {
      MoveCameBy(s, a, ag, ok, if ag.pc == Stamp then s.clock else ag.start, log);
    }
  }

  lemma {:induction false} RunCameBy(cfg: Config, s: State, events: seq<Event>, log: set<Reply>)
    requires AllCameBy(s, log)
    ensures AllCameBy(Run(cfg, s, events), log + Log(cfg, s, events))
    decreases |events|
  {
    if events == [] {
      assert log + {} == log;
    } else {
      var s', more := Next(cfg, s, events[0]), Replies(s, events[0]);
      NextCameBy(cfg, s, events[0], log);
      RunCameBy(cfg, s', events[1..], log + more);
      assert log + Log(cfg, s, events) == log + more + Log(cfg, s', events[1..]);
    }
  }

  /** Main result: in every run a refresh asks the provider only after the budget granted it (a direct
      one needs no grant), the product was loaded and the in-flight mark was stored; and it stores
      what it fetched only after the provider answered. */
  lemma NothingIsFetchedUnasked(cfg: Config, s: State, events: seq<Event>, a: AgentId)
    requires Fresh(s) && a in Run(cfg, s, events).agents
    ensures var ag, log := Run(cfg, s, events).agents[a], Log(cfg, s, events);
            && (ag.pc == Fetch || ag.pc == Metadata || ag.pc == Snapshot ==>
                  && (ag.kind == Direct || Reply(a, Budget, true) in log)
                  && Reply(a, Load, true) in log && Reply(a, Mark, true) in log)
            && (ag.pc == Metadata || ag.pc == Snapshot ==> Reply(a, Fetch, true) in log)
            && (ag.pc == Snapshot ==> Reply(a, Metadata, true) in log)
  {
    RunCameBy(cfg, s, events, {});
    assert {} + Log(cfg, s, events) == Log(cfg, s, events);
    assert CameBy(Log(cfg, s, events), a, Run(cfg, s, events).agents[a]);
  }

  /** What else writes rows: a registration gives the product a row that is not in flight and was tried
      when it says; queries and mappings change neither of the two; an eviction takes one row; and a
      refresh whose product was evicted meanwhile makes it anew, never seen and never tried. Every
      other row stays. */
  lemma OtherWrites(cfg: Config, s: State, t: TrackId, at: int, meta: Meta, a: AgentId, u: TrackId)
    ensures at <= s.clock ==> Next(cfg, s, Registered(t, at, meta)).rows == s.rows[t := Row(false, Some(at), meta)]
    ensures t in s.rows ==>
              Next(cfg, s, Columns(t, meta)).rows == s.rows[t := Row(s.rows[t].inFlight, s.rows[t].attempt, meta)]
    ensures u in Next(cfg, s, Evict(t)).rows <==> u in s.rows && u != t
    ensures u in s.rows && u != t ==> Next(cfg, s, Evict(t)).rows[u] == s.rows[u]
    ensures a in s.agents && s.agents[a].pc == Metadata && s.agents[a].track == t && t !in s.rows ==>
              var rows := Next(cfg, s, Go(a, true)).rows;
              && rows.Keys == s.rows.Keys + {t}
              && !rows[t].inFlight && rows[t].attempt == None && rows[t].meta.seen == None
              && (u in s.rows ==> rows[u] == s.rows[u])
  {}

  /** s with agent a at work on t, which has this row by now. */
  function AtWork(s: State, a: AgentId, kind: Kind, t: TrackId, pc: Pc, start: int, row: Row): State {
    s.(agents := s.agents[a := Agent(kind, t, pc, start)], rows := s.rows[t := row], ledger := Begin(s.ledger, a, t))
  }

  lemma RowsAtWork(cfg: Config, s: State, a: AgentId, kind: Kind, t: TrackId, pc: Pc, start: int, row: Row, ok: bool)
    ensures var now := AtWork(s, a, kind, t, pc, start, row);
            var rows := RowsAfter(cfg, now, now.agents[a], ok);
            t in rows && rows == s.rows[t := rows[t]]
  {
    assert AtWork(s, a, kind, t, pc, start, row).rows == s.rows[t := row];
  }

  lemma WorksOn(cfg: Config, s: State, a: AgentId, kind: Kind, t: TrackId, pc: Pc, start: int, row: Row, ok: bool)
    requires pc != Finish && !pc.Closing? && !kind.BySweep?
    ensures var now := AtWork(s, a, kind, t, pc, start, row);
            && t in RowsAfter(cfg, now, now.agents[a], ok)
            && Next(cfg, now, Go(a, ok))
               == AtWork(s, a, kind, t, Move(now, now.agents[a], ok), if pc == Stamp then s.clock else start,
                         RowsAfter(cfg, now, now.agents[a], ok)[t])
  {
    RowsAtWork(cfg, s, a, kind, t, pc, start, row, ok);
  }

  const ALL_OK := [true, true, true]

  function Three(a: AgentId, oks: seq<bool>): seq<Event>
    requires |oks| == 3
  {
    [Go(a, oks[0]), Go(a, oks[1]), Go(a, oks[2])]
  }

  /** It marks the product in flight, with the time it read. */
  lemma MarksItself(cfg: Config, s: State, a: AgentId, kind: Kind, t: TrackId, row: Row, start: int)
    requires !kind.BySweep?
    ensures Run(cfg, AtWork(s, a, kind, t, Load, start, row), Three(a, ALL_OK))
         == AtWork(s, a, kind, t, Fetch, s.clock, row.(inFlight := true, attempt := Some(s.clock)))
  {
    RunThree(cfg, AtWork(s, a, kind, t, Load, start, row), Three(a, ALL_OK));
    WorksOn(cfg, s, a, kind, t, Load, start, row, true);
    WorksOn(cfg, s, a, kind, t, Stamp, start, row, true);
    WorksOn(cfg, s, a, kind, t, Mark, s.clock, row, true);
  }

  /** It stores what it fetched and clears the mark, with the time of that. */
  lemma Completes(cfg: Config, s: State, a: AgentId, kind: Kind, t: TrackId, row: Row, start: int)
    requires !kind.BySweep?
    ensures Run(cfg, AtWork(s, a, kind, t, Fetch, start, row), Three(a, ALL_OK))
         == AtWork(s, a, kind, t, Clear, start, row.(inFlight := false, attempt := Some(start)))
  {
    RunThree(cfg, AtWork(s, a, kind, t, Fetch, start, row), Three(a, ALL_OK));
    WorksOn(cfg, s, a, kind, t, Fetch, start, row, true);
    WorksOn(cfg, s, a, kind, t, Metadata, start, row, true);
    WorksOn(cfg, s, a, kind, t, Snapshot, start, row, true);
  }

  lemma GivesUp(cfg: Config, s: State, a: AgentId, kind: Kind, t: TrackId, row: Row, start: int)
    requires !kind.BySweep?
    ensures Next(cfg, AtWork(s, a, kind, t, Fetch, start, row), Go(a, false)) == AtWork(s, a, kind, t, Clear, start, row)
  {
    WorksOn(cfg, s, a, kind, t, Fetch, start, row, false);
  }

  /** Where a refresh of t by a leaves everything: the row not in flight and tried now, the flight
      closed, the agent done, and nothing else touched. */
  ghost predicate Over(s: State, r: State, a: AgentId, kind: Kind, t: TrackId)
    requires t in s.rows
  {
    && r.rows == s.rows[t := s.rows[t].(inFlight := false, attempt := Some(s.clock))]
    && (exists start :: r.agents == s.agents[a := Agent(kind, t, Done, start)])
    && r.ledger.board.open == s.ledger.board.open
    && r.ledger.board.tracks == s.ledger.board.tracks + [t]
    && r.ledger.board.closed == s.ledger.board.closed + multiset{|s.ledger.board.tracks|}
    && r.clock == s.clock && r.sweeps == s.sweeps && r.started == s.started
  }

  lemma Leaves(cfg: Config, s: State, a: AgentId, kind: Kind, t: TrackId, row: Row, start: int)
    requires !kind.BySweep? && t in s.rows && t !in s.ledger.board.open
    requires row.(inFlight := false, attempt := None) == s.rows[t].(inFlight := false, attempt := None)
    ensures Over(s, Run(cfg, AtWork(s, a, kind, t, Clear, start, row), Three(a, ALL_OK)), a, kind, t)
  {
    RunThree(cfg, AtWork(s, a, kind, t, Clear, start, row), Three(a, ALL_OK));
    WorksOn(cfg, s, a, kind, t, Clear, start, row, true);
    var cleared := row.(inFlight := false, attempt := Some(s.clock));
    assert cleared == s.rows[t].(inFlight := false, attempt := Some(s.clock));
    Finishes(cfg, s, a, kind, t, start, cleared);
    Closes(cfg, s, a, kind, t, start, cleared);
  }

  /** s with the flight off the map and its channel still open. */
  function Finished(s: State, a: AgentId, kind: Kind, t: TrackId, start: int, row: Row): State {
    s.(agents := s.agents[a := Agent(kind, t, Closing(|s.ledger.board.tracks|), start)], rows := s.rows[t := row],
       ledger := Remove(Begin(s.ledger, a, t), a, t))
  }

  lemma Finishes(cfg: Config, s: State, a: AgentId, kind: Kind, t: TrackId, start: int, row: Row)
    requires t !in s.ledger.board.open
    ensures Next(cfg, AtWork(s, a, kind, t, Finish, start, row), Go(a, true)) == Finished(s, a, kind, t, start, row)
  {
    var l := Begin(s.ledger, a, t);
    assert t in l.board.open && l.board.open[t] == |s.ledger.board.tracks|;
    assert s.agents[a := Agent(kind, t, Finish, start)][a := Agent(kind, t, Closing(|s.ledger.board.tracks|), start)]
        == s.agents[a := Agent(kind, t, Closing(|s.ledger.board.tracks|), start)];
  }

  lemma Closes(cfg: Config, s: State, a: AgentId, kind: Kind, t: TrackId, start: int, row: Row)
    requires t in s.rows && t !in s.ledger.board.open
    requires row == s.rows[t].(inFlight := false, attempt := Some(s.clock))
    ensures Over(s, Next(cfg, Finished(s, a, kind, t, start, row), Go(a, true)), a, kind, t)
  {
    var r := Next(cfg, Finished(s, a, kind, t, start, row), Go(a, true));
    assert r.agents == s.agents[a := Agent(kind, t, Done, start)];
    assert r.ledger.board.open == s.ledger.board.open;
  }

  /** The budget's answer, which a direct refresh does not ask for. */
  function Granted(a: AgentId, kind: Kind): seq<Event> {
    if kind == Direct then [] else [Go(a, true)]
  }

  lemma Enters(cfg: Config, s: State, a: AgentId, kind: Kind, t: TrackId)
    requires !kind.BySweep? && a !in s.agents && t in s.rows && t !in s.ledger.board.open
    ensures Run(cfg, s, [Request(a, kind, t)] + Granted(a, kind)) == AtWork(s, a, kind, t, Load, 0, s.rows[t])
  {
    RunCons(cfg, s, Request(a, kind, t), Granted(a, kind));
    assert s.rows[t := s.rows[t]] == s.rows;
    if kind != Direct {
      WorksOn(cfg, s, a, kind, t, Budget, 0, s.rows[t], true);
      RunCons(cfg, AtWork(s, a, kind, t, Budget, 0, s.rows[t]), Go(a, true), []);
      assert [Go(a, true)] + [] == [Go(a, true)];
    }
  }

  /** From the request to the in-flight mark. */
  lemma RefreshMarks(cfg: Config, s: State, a: AgentId, kind: Kind, t: TrackId)
    requires !kind.BySweep? && a !in s.agents && t in s.rows && t !in s.ledger.board.open
    ensures Run(cfg, s, [Request(a, kind, t)] + Granted(a, kind) + Three(a, ALL_OK))
         == AtWork(s, a, kind, t, Fetch, s.clock, s.rows[t].(inFlight := true, attempt := Some(s.clock)))
  {
    RunConcat(cfg, s, [Request(a, kind, t)] + Granted(a, kind), Three(a, ALL_OK));
    Enters(cfg, s, a, kind, t);
    MarksItself(cfg, s, a, kind, t, s.rows[t], 0);
  }

  /** Main result: a refresh that nobody interrupts marks the product in flight with the present time
      and, whether the provider answers or not, leaves it not in flight and tried now, its flight
      closed once and everything else as it was. */
  lemma RefreshEndToEnd(cfg: Config, s: State, a: AgentId, kind: Kind, t: TrackId, begun: seq<Event>, fetched: bool, rest: seq<Event>)
    requires !kind.BySweep? && a !in s.agents && t in s.rows && t !in s.ledger.board.open
    requires begun == [Request(a, kind, t)] + Granted(a, kind) + Three(a, ALL_OK)
    requires rest == if fetched then Three(a, ALL_OK) else [Go(a, false)]
    ensures Run(cfg, s, begun).rows == s.rows[t := s.rows[t].(inFlight := true, attempt := Some(s.clock))]
    ensures Over(s, Run(cfg, s, begun + rest + Three(a, ALL_OK)), a, kind, t)
  {
    var row := s.rows[t].(inFlight := true, attempt := Some(s.clock));
    RefreshMarks(cfg, s, a, kind, t);
    RunConcat(cfg, s, begun, rest);
    RunConcat(cfg, s, begun + rest, Three(a, ALL_OK));
    if fetched {
      Completes(cfg, s, a, kind, t, row, s.clock);
      Leaves(cfg, s, a, kind, t, row.(inFlight := false, attempt := Some(s.clock)), s.clock);
    } else {
      RunCons(cfg, Run(cfg, s, begun), Go(a, false), []);
      assert [Go(a, false)] + [] == rest;
      GivesUp(cfg, s, a, kind, t, row, s.clock);
      Leaves(cfg, s, a, kind, t, row, s.clock);
    }
  }
}
