/** Mutations of the access lists at the same time. A call changes the tables, appends its audit
    entry, reads a snapshot and applies it to the controller: four steps that others may come
    between. Nothing in the manager keeps two reloads apart. */
module AccessRace {
  import opened Text
  import opened AccessTables
  import opened Access

  type AgentId = nat

  datatype Pc = Changed(entry: Audit) | Audited | Holding(snapshot: Tables) | Done

  /** changes counts the calls that changed the tables; cache is the controller's copy. */
  datatype State = State(tables: Tables, cache: Tables, audit: seq<Audit>, changes: nat, agents: map<AgentId, Pc>)

  datatype Step = Call(agent: AgentId, actor: Actor, m: Mutation) | Go(agent: AgentId)

  /** After a bootstrap. */
  function Init(t: Tables): State {
    State(t, t, [], 0, map[])
  }

  predicate Reloading(s: State) {
    exists a :: a in s.agents && s.agents[a].Holding?
  }

  function At(s: State, a: AgentId, pc: Pc): State {
    s.(agents := s.agents[a := pc])
  }

  function Called(s: State, a: AgentId, actor: Actor, m: Mutation): State {
    var effect := Change(s.tables, m);
    if effect.Did? && effect.changed
    then At(s.(tables := effect.tables, changes := s.changes + 1), a, Changed(Trimmed(Entry(actor, m))))
    else At(s, a, Done)
  }

  function Advance(overlap: bool, s: State, a: AgentId): State
    requires a in s.agents
  {
    match s.agents[a]
    case Changed(entry) => At(s.(audit := s.audit + [entry]), a, Audited)
    case Audited => if !overlap && Reloading(s) then s else At(s, a, Holding(s.tables))
    case Holding(snapshot) => At(s.(cache := snapshot), a, Done)
    case Done => s
  }

  /** overlap: may a reload read its snapshot while another has not applied its own? */
  function Next(overlap: bool, s: State, e: Step): State {
    match e
    case Call(a, actor, m) => if a in s.agents then s else Called(s, a, actor, m)
    case Go(a) => if a in s.agents then Advance(overlap, s, a) else s
  }

  function Run(overlap: bool, s: State, steps: seq<Step>): State
    decreases |steps|
  {
    if steps == [] then s else Run(overlap, Next(overlap, s, steps[0]), steps[1..])
  }

  /** Nobody is between a change and the end of its reload. */
  ghost predicate Settled(s: State) {
    forall a :: a in s.agents ==> s.agents[a] == Done
  }

  ghost predicate InStep(s: State) {
    Settled(s) ==> s.cache == s.tables
  }

  // ---------- one reload at a time ----------

  /** A call has changed the tables and has yet to read them. */
  predicate ToRead(s: State, a: AgentId) {
    a in s.agents && (s.agents[a].Changed? || s.agents[a].Audited?)
  }

  predicate HoldsTables(s: State, a: AgentId) {
    a in s.agents && s.agents[a] == Holding(s.tables)
  }

  ghost predicate Single(s: State) {
    forall a, b :: a in s.agents && b in s.agents && s.agents[a].Holding? && s.agents[b].Holding? ==> a == b
  }

  /** The copy agrees, or the reload that will make it agree is under way or yet to come. */
  ghost predicate OnTheWay(s: State) {
    || (exists a :: ToRead(s, a))
    || (exists a :: HoldsTables(s, a))
    || (s.cache == s.tables && !Reloading(s))
  }

  lemma CallKeeps(s: State, a: AgentId, actor: Actor, m: Mutation)
    requires Single(s) && OnTheWay(s) && a !in s.agents
    ensures Single(Called(s, a, actor, m)) && OnTheWay(Called(s, a, actor, m))
  {
    var s' := Called(s, a, actor, m);
    if s'.agents[a].Changed? {
      assert ToRead(s', a);
    } else if b :| ToRead(s, b) {
      assert ToRead(s', b);
    } else if b :| HoldsTables(s, b) {
      assert HoldsTables(s', b);
    }
  }

  lemma ApplyKeeps(s: State, a: AgentId)
    requires Single(s) && OnTheWay(s) && a in s.agents && s.agents[a].Holding?
    ensures Single(Advance(false, s, a)) && OnTheWay(Advance(false, s, a))
  {
    var s' := Advance(false, s, a);
    if b :| ToRead(s, b) {
      assert ToRead(s', b);
    } else {
      assert Reloading(s);
      var b :| HoldsTables(s, b);
      assert b == a && s'.cache == s'.tables && !Reloading(s');
    }
  }

  lemma AdvanceKeeps(s: State, a: AgentId)
    requires Single(s) && OnTheWay(s) && a in s.agents
    ensures Single(Advance(false, s, a)) && OnTheWay(Advance(false, s, a))
  {
    var s' := Advance(false, s, a);
    match s.agents[a]
    case Changed(_) => assert ToRead(s', a);
    case Audited => assert ToRead(s', a) || HoldsTables(s', a);
    case Holding(_) => ApplyKeeps(s, a);
    case Done =>
  }

  lemma {:induction false} RunKeeps(s: State, steps: seq<Step>)
    requires Single(s) && OnTheWay(s)
    ensures OnTheWay(Run(false, s, steps))
    decreases |steps|
  {
    if steps != [] {
      match steps[0]
      case Call(a, actor, m) =>
        if a !in s.agents { CallKeeps(s, a, actor, m); }
        RunKeeps(Next(false, s, steps[0]), steps[1..]);
      case Go(a) =>
        if a in s.agents { AdvanceKeeps(s, a); }
        RunKeeps(Next(false, s, steps[0]), steps[1..]);
    }
  }

  // ---------- two reloads that cross ----------

  function AddUser(u: string): Mutation {
    AddAdminUser(u)
  }

  function Users(us: set<string>): Tables {
    EMPTY.(adminUsers := us)
  }

  /** Agent 0 has read its snapshot; agent 1 has not called yet. */
  lemma FirstReads(actor: Actor, u: string) returns (s: State)
    requires IsId(u)
    ensures s == Run(true, Init(EMPTY), [Call(0, actor, AddUser(u)), Go(0), Go(0)])
    ensures s.tables == Users({u}) && s.agents == map[0 := Holding(Users({u}))]
  {
    var steps := [Call(0, actor, AddUser(u)), Go(0), Go(0)];
    RunThree(true, Init(EMPTY), steps, []);
    s := Next(true, Next(true, Next(true, Init(EMPTY), steps[0]), steps[1]), steps[2]);
    assert steps + [] == steps;
    assert {} + {u} == {u};
  }

  /** Agent 1 changes the tables, reads and applies, and only then agent 0 applies. */
  lemma SecondOvertakes(actor: Actor, u: string, v: string, s: State) returns (s': State)
    requires IsId(v) && u != v
    requires s.tables == Users({u}) && s.agents == map[0 := Holding(Users({u}))]
    ensures s' == Run(true, s, [Call(1, actor, AddUser(v)), Go(1), Go(1)] + [Go(1), Go(0), Go(0)])
    ensures Settled(s') && s'.tables == Users({u, v}) && s'.cache == Users({u})
  {
    var first, second := [Call(1, actor, AddUser(v)), Go(1), Go(1)], [Go(1), Go(0), Go(0)];
    RunThree(true, s, first, second);
    var s1 := Next(true, Next(true, Next(true, s, first[0]), first[1]), first[2]);
    assert s1.tables == Users({u, v}) by { assert {u} + {v} == {u, v}; }
    assert s1.agents == map[0 := Holding(Users({u})), 1 := Holding(Users({u, v}))];
    RunThree(true, s1, second, []);
    assert second + [] == second;
    s' := Next(true, Next(true, Next(true, s1, second[0]), second[1]), second[2]);
  }

  lemma RunThree(overlap: bool, s: State, three: seq<Step>, rest: seq<Step>)
    requires |three| == 3
    ensures Run(overlap, s, three + rest)
         == Run(overlap, Next(overlap, Next(overlap, Next(overlap, s, three[0]), three[1]), three[2]), rest)
  {
    var steps := three + rest;
    assert steps[1..][0] == three[1] && steps[1..][1..][0] == three[2] && steps[1..][1..][1..] == rest;
    var s1 := Next(overlap, s, three[0]);
    var s2 := Next(overlap, s1, three[1]);
    assert Run(overlap, s, steps) == Run(overlap, s1, steps[1..]);
    assert Run(overlap, s1, steps[1..]) == Run(overlap, s2, steps[1..][1..]);
  }

  lemma CrossingLeavesStale(actor: Actor, u: string, v: string) returns (steps: seq<Step>)
    requires IsId(u) && IsId(v) && u != v
    ensures !InStep(Run(true, Init(EMPTY), steps))
  {
    var s := FirstReads(actor, u);
    var s' := SecondOvertakes(actor, u, v, s);
    var first := [Call(0, actor, AddUser(u)), Go(0), Go(0)];
    var second := [Call(1, actor, AddUser(v)), Go(1), Go(1)] + [Go(1), Go(0), Go(0)];
    steps := first + second;
    RunThree(true, Init(EMPTY), first, second);
    RunThree(true, Init(EMPTY), first, []);
    assert first + [] == first;
    assert v in s'.tables.adminUsers && v !in s'.cache.adminUsers;
  }

  /** Main result: whenever no call is under way the controller's copy is the tables, in every
      run of concurrent mutations, exactly when no reload begins before another has ended. */
  lemma CopyInStepIffReloadsDoNotOverlap(overlap: bool)
    ensures !overlap <==> forall t, steps :: InStep(Run(overlap, Init(t), steps))
  {
    if overlap {
      assert IsId("u") && IsId("v") by { OneLetter('u'); OneLetter('v'); }
      var steps := CrossingLeavesStale(Actor("", ""), "u", "v");
    } else {
      forall t, steps ensures InStep(Run(overlap, Init(t), steps)) {
        RunKeeps(Init(t), steps);
        SettledAgrees(Run(overlap, Init(t), steps));
      }
    }
  }

  lemma SettledAgrees(s: State)
    requires OnTheWay(s)
    ensures InStep(s)
  {}

  lemma OneLetter(c: char)
    requires !IsSpace(c)
    ensures IsId([c])
  {}

  // ---------- the audit log ----------

  function Owed(agents: map<AgentId, Pc>): set<AgentId> {
    set a | a in agents && agents[a].Changed?
  }

  lemma OwedAfter(agents: map<AgentId, Pc>, a: AgentId, pc: Pc)
    ensures |Owed(agents[a := pc])| == |Owed(agents) - {a}| + if pc.Changed? then 1 else 0
    ensures |Owed(agents) - {a}| == |Owed(agents)| - if a in agents && agents[a].Changed? then 1 else 0
  {
    var others, after := Owed(agents) - {a}, Owed(agents[a := pc]);
    if pc.Changed? {
      assert after == others + {a};
    } else {
      assert after == others;
    }
  }

  ghost predicate AuditCounts(s: State) {
    |s.audit| + |Owed(s.agents)| == s.changes
  }

  lemma NextKeepsAudit(overlap: bool, s: State, e: Step)
    requires AuditCounts(s)
    ensures AuditCounts(Next(overlap, s, e))
  {
    match e
    case Call(a, actor, m) =>
      if a !in s.agents { OwedAfter(s.agents, a, Called(s, a, actor, m).agents[a]); }
    case Go(a) =>
      if a in s.agents && Advance(overlap, s, a) != s { OwedAfter(s.agents, a, Advance(overlap, s, a).agents[a]); }
  }

  lemma {:induction false} RunKeepsAudit(overlap: bool, s: State, steps: seq<Step>)
    requires AuditCounts(s)
    ensures AuditCounts(Run(overlap, s, steps))
    decreases |steps|
  {
    if steps != [] {
      NextKeepsAudit(overlap, s, steps[0]);
      RunKeepsAudit(overlap, Next(overlap, s, steps[0]), steps[1..]);
    }
  }

  /** However mutations interleave, the log has one entry for each change that is settled, and
      never more entries than changes. */
  lemma OneEntryPerChange(overlap: bool, t: Tables, steps: seq<Step>)
    ensures |Run(overlap, Init(t), steps).audit| <= Run(overlap, Init(t), steps).changes
    ensures Settled(Run(overlap, Init(t), steps)) ==>
              |Run(overlap, Init(t), steps).audit| == Run(overlap, Init(t), steps).changes
  {
    assert AuditCounts(Init(t));
    RunKeepsAudit(overlap, Init(t), steps);
    var s := Run(overlap, Init(t), steps);
    if Settled(s) { assert Owed(s.agents) == {}; }
  }
}
