/** Automatic queries message by message: every decision of a run said through the messages granted
    before it, without the limiter's keys and tables. */
module AutoQueryRuns {
  import opened Options
  import opened Text
  import opened AutoQuery

  // ---------------------------------------------------------------------------
  // Which messages share a cooldown
  // ---------------------------------------------------------------------------

  function Topic(cfg: Config, query: string): string {
    cfg.lower(Trim(query))
  }

  /** The same room and query but for case and blanks; or one room's name goes on from the other's
      with a '|', and the one query takes up what is missing. */
  ghost predicate Shares(room: string, topic: string, room': string, topic': string) {
    || (room == room' && topic == topic')
    || (exists x :: room == room' + "|" + x && topic' == x + "|" + topic)
    || (exists x :: room' == room + "|" + x && topic == x + "|" + topic')
  }

  lemma LongerShares(room: string, topic: string, room': string, topic': string)
    requires room + "|" + topic == room' + "|" + topic' && |room| > |room'|
    ensures exists x :: room == room' + "|" + x && topic' == x + "|" + topic
  {
    var n, all := |room'|, room + "|" + topic;
    assert all[..n] == room' && all[n] == '|' && all[n + 1..] == topic';
    assert all[..|room|] == room && all[|room|..] == "|" + topic;
    var x := room[n + 1..];
    assert room[..n] == all[..n] && room[n] == all[n];
    assert room == room' + "|" + x;
    assert topic' == x + "|" + topic;
  }

  lemma JoinedIffShares(room: string, topic: string, room': string, topic': string)
    ensures room + "|" + topic == room' + "|" + topic' <==> Shares(room, topic, room', topic')
  {
    if room + "|" + topic == room' + "|" + topic' {
      if |room| > |room'| {
        LongerShares(room, topic, room', topic');
      } else if |room| < |room'| {
        LongerShares(room', topic', room, topic);
      } else {
        var all := room + "|" + topic;
        assert all[..|room|] == room && all[|room| + 1..] == topic;
        assert all[..|room|] == room' && all[|room| + 1..] == topic';
      }
    }
  }

  /** Two messages share a cooldown exactly then. */
  lemma SharesCooldownIff(cfg: Config, msg: Message, query: string, msg': Message, query': string)
    ensures QueryKey(cfg, LimitRoomID(msg), query) == QueryKey(cfg, LimitRoomID(msg'), query')
       <==> Shares(cfg.lower(LimitRoomID(msg)), Topic(cfg, query), cfg.lower(LimitRoomID(msg')), Topic(cfg, query'))
  {
    LimitRoomIDIsTrimmed(msg);
    LimitRoomIDIsTrimmed(msg');
    JoinedIffShares(cfg.lower(LimitRoomID(msg)), Topic(cfg, query), cfg.lower(LimitRoomID(msg')), Topic(cfg, query'));
  }

  /** In one room that means the same query, and rooms whose lowered names differ and have no '|'
      never share one. */
  lemma SharesOnlyWithBar(room: string, topic: string, room': string, topic': string)
    ensures room == room' ==> (Shares(room, topic, room', topic') <==> topic == topic')
    ensures room != room' && '|' !in room && '|' !in room' ==> !Shares(room, topic, room', topic')
  {
    JoinedIffShares(room, topic, room', topic');
    if room == room' {
      var n := |room + "|"|;
      assert (room + "|" + topic)[n..] == topic && (room + "|" + topic')[n..] == topic';
    }
    forall x ensures '|' in room' + "|" + x && '|' in room + "|" + x {
      BarIsIn(room', x);
      BarIsIn(room, x);
    }
  }

  lemma BarIsIn(room: string, x: string)
    ensures '|' in room + "|" + x
  {
    assert (room + "|" + x)[|room|] == '|';
  }

  /** The room a message counts for: its chat id, else its room, trimmed, else a common one. */
  lemma RoomOf(msg: Message)
    ensures Trim(msg.chatID) != "" ==> LimitRoomID(msg) == Trim(msg.chatID)
    ensures Trim(msg.chatID) == "" != Trim(msg.room) ==> LimitRoomID(msg) == Trim(msg.room)
    ensures Trim(msg.chatID) == "" == Trim(msg.room) ==> LimitRoomID(msg) == "_default"
  {}

  // ---------------------------------------------------------------------------
  // Runs
  // ---------------------------------------------------------------------------

  /** What a fresh manager on this store knows before the i-th event. */
  function WorldAt(cfg: Config, stored: map<string, Policy>, events: seq<Event>, i: nat): World
    requires i <= |events|
  {
    After(cfg, World(Limits(map[], map[]), stored), events[..i])
  }

  predicate IsQuery(events: seq<Event>, i: nat) {
    i < |events| && events[i].Query?
  }

  function PolicyAt(cfg: Config, stored: map<string, Policy>, events: seq<Event>, i: nat): Policy
    requires IsQuery(events, i)
  {
    PolicyFor(cfg, WorldAt(cfg, stored, events, i).stored, events[i].msg)
  }

  function DecisionAt(cfg: Config, stored: map<string, Policy>, events: seq<Event>, i: nat): Decision
    requires IsQuery(events, i)
  {
    Evaluate(cfg, WorldAt(cfg, stored, events, i), events[i].msg, events[i].query, events[i].handlers, events[i].now).0
  }

  predicate GrantedAt(cfg: Config, stored: map<string, Policy>, events: seq<Event>, j: nat) {
    IsQuery(events, j) && DecisionAt(cfg, stored, events, j).Allowed?
  }

  /** The clock of the queries does not go back. */
  predicate TimesOk(events: seq<Event>) {
    forall i, j :: 0 <= i < j < |events| && events[i].Query? && events[j].Query? ==> events[i].now <= events[j].now
  }

  /** Message j has the cooldown of message i still running. */
  ghost predicate Blocks(cfg: Config, stored: map<string, Policy>, events: seq<Event>, j: nat, i: nat)
    requires IsQuery(events, i) && IsQuery(events, j)
  {
    && Shares(cfg.lower(LimitRoomID(events[j].msg)), Topic(cfg, events[j].query),
              cfg.lower(LimitRoomID(events[i].msg)), Topic(cfg, events[i].query))
    && events[i].now < events[j].now + PolicyAt(cfg, stored, events, j).cooldown
  }

  /** The messages granted to the room of message i before it, after the cutoff. */
  function SpentBefore(cfg: Config, stored: map<string, Policy>, events: seq<Event>, room: string, i: nat, cutoff: int): set<nat>
    requires i <= |events|
  {
    set j: nat | j < i && GrantedAt(cfg, stored, events, j) && LimitRoomID(events[j].msg) == room && events[j].now > cutoff
  }

  // ---------- the limiter's own run ----------

  function AskAt(cfg: Config, stored: map<string, Policy>, events: seq<Event>, i: nat): Ask
    requires IsQuery(events, i)
  {
    AskOf(cfg, events[i].msg, events[i].query, events[i].now, PolicyAt(cfg, stored, events, i))
  }

  predicate Reaches(cfg: Config, stored: map<string, Policy>, events: seq<Event>, i: nat)
    requires IsQuery(events, i)
  {
    && PolicyAt(cfg, stored, events, i).mode == LOCAL_AUTO
    && exists h :: h in events[i].handlers && AllowsHandler(cfg, PolicyAt(cfg, stored, events, i), h)
  }

  /** The evaluations that get as far as the lock. */
  function Asks(cfg: Config, stored: map<string, Policy>, events: seq<Event>, i: nat): seq<Ask>
    requires i <= |events|
  {
    if i == 0 then []
    else Asks(cfg, stored, events, i - 1)
         + if IsQuery(events, i - 1) && Reaches(cfg, stored, events, i - 1) then [AskAt(cfg, stored, events, i - 1)] else []
  }

  lemma {:induction false} AfterOneMore(cfg: Config, w: World, events: seq<Event>)
    requires events != []
    ensures After(cfg, w, events) == Next(cfg, After(cfg, w, events[..|events| - 1]), events[|events| - 1])
    decreases |events|
  {
    if |events| > 1 {
      assert events[1..][..|events| - 2] == events[..|events| - 1][1..];
      AfterOneMore(cfg, Next(cfg, w, events[0]), events[1..]);
    } else {
      assert events[..0] == [] && events[1..] == [];
    }
  }

  lemma WorldOneMore(cfg: Config, stored: map<string, Policy>, events: seq<Event>, i: nat)
    requires i < |events|
    ensures WorldAt(cfg, stored, events, i + 1) == Next(cfg, WorldAt(cfg, stored, events, i), events[i])
  {
    AfterOneMore(cfg, World(Limits(map[], map[]), stored), events[..i + 1]);
    assert events[..i + 1][..i] == events[..i];
  }

  lemma LockedOneMore(asks: seq<Ask>, ask: Ask)
    ensures LockedRun(asks + [ask]).limits == EvaluateLocked(LockedRun(asks).limits, ask).1
  {
    assert (asks + [ask])[..|asks|] == asks;
  }

  /** What the i-th event does to the limits. */
  lemma LimitsStep(cfg: Config, stored: map<string, Policy>, events: seq<Event>, i: nat)
    requires i < |events|
    ensures WorldAt(cfg, stored, events, i + 1).limits
         == if IsQuery(events, i) && Reaches(cfg, stored, events, i)
            then EvaluateLocked(WorldAt(cfg, stored, events, i).limits, AskAt(cfg, stored, events, i)).1
            else WorldAt(cfg, stored, events, i).limits
  {
    WorldOneMore(cfg, stored, events, i);
  }

  lemma LimitsOneMore(cfg: Config, stored: map<string, Policy>, events: seq<Event>, i: nat)
    requires i < |events| && WorldAt(cfg, stored, events, i).limits == LockedRun(Asks(cfg, stored, events, i)).limits
    ensures WorldAt(cfg, stored, events, i + 1).limits == LockedRun(Asks(cfg, stored, events, i + 1)).limits
  {
    LimitsStep(cfg, stored, events, i);
    if IsQuery(events, i) && Reaches(cfg, stored, events, i) {
      LockedOneMore(Asks(cfg, stored, events, i), AskAt(cfg, stored, events, i));
    } else {
      assert Asks(cfg, stored, events, i) + [] == Asks(cfg, stored, events, i);
    }
  }

  lemma LimitsStart(cfg: Config, stored: map<string, Policy>, events: seq<Event>)
    ensures WorldAt(cfg, stored, events, 0).limits == LockedRun(Asks(cfg, stored, events, 0)).limits
  {
    assert events[..0] == [];
  }

  lemma LimitsAre(cfg: Config, stored: map<string, Policy>, events: seq<Event>, i: nat)
    requires i <= |events|
    ensures WorldAt(cfg, stored, events, i).limits == LockedRun(Asks(cfg, stored, events, i)).limits
  {
    LimitsStart(cfg, stored, events);
    for k := 0 to i
      invariant WorldAt(cfg, stored, events, k).limits == LockedRun(Asks(cfg, stored, events, k)).limits
    {
      LimitsOneMore(cfg, stored, events, k);
    }
  }

  lemma {:induction false} AsksNotAfter(cfg: Config, stored: map<string, Policy>, events: seq<Event>, i: nat, bound: int)
    requires i <= |events| && forall j: nat :: j < i && IsQuery(events, j) ==> events[j].now <= bound
    ensures forall k :: 0 <= k < |Asks(cfg, stored, events, i)| ==> Asks(cfg, stored, events, i)[k].now <= bound
  {
    if i > 0 {
      AsksNotAfter(cfg, stored, events, i - 1, bound);
      if IsQuery(events, i - 1) { assert AskAt(cfg, stored, events, i - 1).now <= bound; }
    }
  }

  lemma ClockOneMore(asks: seq<Ask>, ask: Ask)
    requires ClockOk(asks) && forall k :: 0 <= k < |asks| ==> asks[k].now <= ask.now
    ensures ClockOk(asks + [ask])
  {}

  lemma {:induction false} AsksInTime(cfg: Config, stored: map<string, Policy>, events: seq<Event>, i: nat)
    requires i <= |events| && TimesOk(events)
    ensures ClockOk(Asks(cfg, stored, events, i))
  {
    if i > 0 {
      AsksInTime(cfg, stored, events, i - 1);
      if IsQuery(events, i - 1) && Reaches(cfg, stored, events, i - 1) {
        AsksNotAfter(cfg, stored, events, i - 1, events[i - 1].now);
        ClockOneMore(Asks(cfg, stored, events, i - 1), AskAt(cfg, stored, events, i - 1));
      } else {
        assert Asks(cfg, stored, events, i - 1) + [] == Asks(cfg, stored, events, i - 1);
      }
    }
  }

  lemma LockedDecision(asks: seq<Ask>, ask: Ask)
    requires ClockOk(asks + [ask])
    ensures EvaluateLocked(LockedRun(asks).limits, ask).0 == SpecDecide(Granted(asks), ask)
  {
    var n := |asks|;
    assert (asks + [ask])[..n] == asks && (asks + [ask])[..n + 1] == asks + [ask];
    LimiterDecidesByGrants(asks + [ask], n);
  }

  lemma ReachedDecision(cfg: Config, stored: map<string, Policy>, events: seq<Event>, i: nat)
    requires IsQuery(events, i) && Reaches(cfg, stored, events, i)
    ensures DecisionAt(cfg, stored, events, i)
         == EvaluateLocked(WorldAt(cfg, stored, events, i).limits, AskAt(cfg, stored, events, i)).0
  {}

  lemma AsksWithNext(cfg: Config, stored: map<string, Policy>, events: seq<Event>, i: nat)
    requires TimesOk(events) && IsQuery(events, i) && Reaches(cfg, stored, events, i)
    ensures ClockOk(Asks(cfg, stored, events, i) + [AskAt(cfg, stored, events, i)])
  {
    AsksInTime(cfg, stored, events, i + 1);
  }

  /** The decision at the lock is the one the limiter's specification calls for. */
  lemma DecidesAtLock(cfg: Config, stored: map<string, Policy>, events: seq<Event>, i: nat)
    requires TimesOk(events) && IsQuery(events, i) && Reaches(cfg, stored, events, i)
    ensures DecisionAt(cfg, stored, events, i)
         == SpecDecide(Granted(Asks(cfg, stored, events, i)), AskAt(cfg, stored, events, i))
  {
    LimitsAre(cfg, stored, events, i);
    AsksWithNext(cfg, stored, events, i);
    LockedDecision(Asks(cfg, stored, events, i), AskAt(cfg, stored, events, i));
    ReachedDecision(cfg, stored, events, i);
  }

  lemma GrantedOneMore(asks: seq<Ask>, ask: Ask)
    ensures Granted(asks + [ask]) == if SpecDecide(Granted(asks), ask).Allowed? then Granted(asks) + [ask] else Granted(asks)
  {
    assert (asks + [ask])[..|asks|] == asks;
  }

  /** The log of the grants before event i, one message longer after it exactly if it was granted. */
  lemma LogStep(cfg: Config, stored: map<string, Policy>, events: seq<Event>, i: nat)
    requires TimesOk(events) && i < |events|
    ensures Granted(Asks(cfg, stored, events, i + 1))
         == if GrantedAt(cfg, stored, events, i) then Granted(Asks(cfg, stored, events, i)) + [AskAt(cfg, stored, events, i)]
            else Granted(Asks(cfg, stored, events, i))
  {
    var asks := Asks(cfg, stored, events, i);
    if IsQuery(events, i) && Reaches(cfg, stored, events, i) {
      DecidesAtLock(cfg, stored, events, i);
      GrantedOneMore(asks, AskAt(cfg, stored, events, i));
    } else {
      assert asks + [] == asks;
    }
  }

  // ---------- the grants as a list ----------

  /** The granted ones of f(0), f(1), ..., f(i - 1). */
  function GrantLog(f: nat -> Option<Ask>, i: nat): seq<Ask> {
    if i == 0 then [] else GrantLog(f, i - 1) + if f(i - 1).Some? then [f(i - 1).value] else []
  }

  predicate StartsCooldown(a: Option<Ask>, key: string, now: int) {
    a.Some? && a.value.key == key && now < a.value.now + a.value.policy.cooldown
  }

  predicate Spends(a: Option<Ask>, room: string, cutoff: int) {
    a.Some? && a.value.room == room && a.value.now > cutoff
  }

  lemma {:induction false} CoolingDownIff(f: nat -> Option<Ask>, i: nat, key: string, now: int)
    ensures CoolingDown(GrantLog(f, i), key, now) <==> exists j: nat :: j < i && StartsCooldown(f(j), key, now)
  {
    if i > 0 {
      CoolingDownIff(f, i - 1, key, now);
      if f(i - 1).Some? {
        CoolingDownAppend(GrantLog(f, i - 1), f(i - 1).value, key, now);
      } else {
        assert GrantLog(f, i) == GrantLog(f, i - 1);
      }
      assert StartsCooldown(f(i - 1), key, now) ==> exists j: nat :: j < i && StartsCooldown(f(j), key, now);
    }
  }

  function Spent(f: nat -> Option<Ask>, i: nat, room: string, cutoff: int): set<nat> {
    set j: nat | j < i && Spends(f(j), room, cutoff)
  }

  lemma {:induction false} SpentCount(f: nat -> Option<Ask>, i: nat, room: string, cutoff: int)
    ensures RoomGrants(GrantLog(f, i), room, cutoff) == |Spent(f, i, room, cutoff)|
  {
    if i == 0 {
      assert Spent(f, 0, room, cutoff) == {};
    } else {
      SpentCount(f, i - 1, room, cutoff);
      var before := Spent(f, i - 1, room, cutoff);
      assert Spent(f, i, room, cutoff) == before + if Spends(f(i - 1), room, cutoff) then {i - 1} else {};
      if f(i - 1).Some? {
        RoomGrantsAppend(GrantLog(f, i - 1), f(i - 1).value, room, cutoff);
      } else {
        assert GrantLog(f, i) == GrantLog(f, i - 1);
      }
    }
  }

  /** Message j, if it was granted. */
  function GrantOf(cfg: Config, stored: map<string, Policy>, events: seq<Event>): (f: nat -> Option<Ask>) {
    (j: nat) => if GrantedAt(cfg, stored, events, j) then Some(AskAt(cfg, stored, events, j)) else None
  }

  lemma GrantOfIs(cfg: Config, stored: map<string, Policy>, events: seq<Event>, j: nat)
    ensures GrantOf(cfg, stored, events)(j)
         == if GrantedAt(cfg, stored, events, j) then Some(AskAt(cfg, stored, events, j)) else None
  {}

  lemma GrantLogStep(f: nat -> Option<Ask>, i: nat)
    ensures GrantLog(f, i + 1) == if f(i).Some? then GrantLog(f, i) + [f(i).value] else GrantLog(f, i)
  {}

  lemma LogOneMore(cfg: Config, stored: map<string, Policy>, events: seq<Event>, i: nat, log: seq<Ask>, f: nat -> Option<Ask>)
    requires TimesOk(events) && i < |events| && f == GrantOf(cfg, stored, events)
    requires Granted(Asks(cfg, stored, events, i)) == log == GrantLog(f, i)
    ensures Granted(Asks(cfg, stored, events, i + 1)) == GrantLog(f, i + 1)
  {
    var more := if GrantedAt(cfg, stored, events, i) then log + [AskAt(cfg, stored, events, i)] else log;
    assert Granted(Asks(cfg, stored, events, i + 1)) == more by { LogStep(cfg, stored, events, i); }
    assert GrantLog(f, i + 1) == more by {
      GrantOfIs(cfg, stored, events, i);
      GrantLogStep(f, i);
    }
  }

  lemma LogIs(cfg: Config, stored: map<string, Policy>, events: seq<Event>, i: nat, f: nat -> Option<Ask>)
    requires TimesOk(events) && i <= |events| && f == GrantOf(cfg, stored, events)
    ensures Granted(Asks(cfg, stored, events, i)) == GrantLog(f, i)
  {
    for k := 0 to i
      invariant Granted(Asks(cfg, stored, events, k)) == GrantLog(f, k)
    {
      LogOneMore(cfg, stored, events, k, GrantLog(f, k), f);
    }
  }

  /** The cooldown of some message granted before covers message i. */
  ghost predicate Blocked(cfg: Config, stored: map<string, Policy>, events: seq<Event>, i: nat)
    requires IsQuery(events, i)
  {
    exists j: nat :: j < i && GrantedAt(cfg, stored, events, j) && Blocks(cfg, stored, events, j, i)
  }

  lemma BlocksIff(cfg: Config, stored: map<string, Policy>, events: seq<Event>, j: nat, i: nat)
    requires IsQuery(events, i)
    ensures GrantedAt(cfg, stored, events, j) && Blocks(cfg, stored, events, j, i)
       <==> StartsCooldown(GrantOf(cfg, stored, events)(j), AskAt(cfg, stored, events, i).key, events[i].now)
  {
    if GrantedAt(cfg, stored, events, j) {
      SharesCooldownIff(cfg, events[j].msg, events[j].query, events[i].msg, events[i].query);
      GrantOfIs(cfg, stored, events, j);
    }
  }

  lemma BlockedIff(cfg: Config, stored: map<string, Policy>, events: seq<Event>, i: nat, f: nat -> Option<Ask>)
    requires IsQuery(events, i) && f == GrantOf(cfg, stored, events)
    ensures Blocked(cfg, stored, events, i)
       <==> exists j: nat :: j < i && StartsCooldown(f(j), AskAt(cfg, stored, events, i).key, events[i].now)
  {
    forall j: nat | j < i
      ensures GrantedAt(cfg, stored, events, j) && Blocks(cfg, stored, events, j, i)
         <==> StartsCooldown(f(j), AskAt(cfg, stored, events, i).key, events[i].now)
    {
      BlocksIff(cfg, stored, events, j, i);
    }
  }

  lemma SpentIs(cfg: Config, stored: map<string, Policy>, events: seq<Event>, room: string, i: nat, cutoff: int)
    requires i <= |events|
    ensures SpentBefore(cfg, stored, events, room, i, cutoff) == Spent(GrantOf(cfg, stored, events), i, room, cutoff)
  {
    var f := GrantOf(cfg, stored, events);
    forall j: nat | j < i
      ensures j in SpentBefore(cfg, stored, events, room, i, cutoff) <==> Spends(f(j), room, cutoff)
    {
      GrantOfIs(cfg, stored, events, j);
    }
  }

  lemma AskFields(cfg: Config, stored: map<string, Policy>, events: seq<Event>, i: nat)
    requires IsQuery(events, i)
    ensures var ask := AskAt(cfg, stored, events, i);
            && ask.room == LimitRoomID(events[i].msg) && ask.now == events[i].now
            && ask.policy == PolicyAt(cfg, stored, events, i)
  {}

  /** The room was granted as many messages within the hour before as the policy allows. */
  predicate Full(cfg: Config, stored: map<string, Policy>, events: seq<Event>, i: nat)
    requires IsQuery(events, i)
  {
    |SpentBefore(cfg, stored, events, LimitRoomID(events[i].msg), i, events[i].now - 3_600_000_000_000)|
      >= PolicyAt(cfg, stored, events, i).budget
  }

  function Verdict(automatic: bool, allowed: bool, blocked: bool, full: bool): Decision {
    if !automatic then Denied("room-policy")
    else if !allowed then Denied("handler-not-allowed")
    else if blocked then Denied("cooldown")
    else if full then Denied("budget")
    else Allowed
  }

  lemma SpecIs(log: seq<Ask>, ask: Ask, room: string, cutoff: int, cooling: bool, full: bool)
    requires ask.room == room && ask.now - HOUR == cutoff
    requires CoolingDown(log, ask.key, ask.now) == cooling && (RoomGrants(log, room, cutoff) >= ask.policy.budget) == full
    ensures SpecDecide(log, ask) == Verdict(true, true, cooling, full)
  {}

  lemma DecidesByLog(cfg: Config, stored: map<string, Policy>, events: seq<Event>, i: nat, f: nat -> Option<Ask>, ask: Ask)
    requires TimesOk(events) && IsQuery(events, i) && Reaches(cfg, stored, events, i)
    requires f == GrantOf(cfg, stored, events) && ask == AskAt(cfg, stored, events, i)
    ensures DecisionAt(cfg, stored, events, i) == SpecDecide(GrantLog(f, i), ask)
  {
    DecidesAtLock(cfg, stored, events, i);
    LogIs(cfg, stored, events, i, f);
  }

  lemma CoolingIs(cfg: Config, stored: map<string, Policy>, events: seq<Event>, i: nat, f: nat -> Option<Ask>, key: string)
    requires IsQuery(events, i)
    requires f == GrantOf(cfg, stored, events) && key == AskAt(cfg, stored, events, i).key
    ensures CoolingDown(GrantLog(f, i), key, events[i].now) == Blocked(cfg, stored, events, i)
  {
    CoolingDownIff(f, i, key, events[i].now);
    BlockedIff(cfg, stored, events, i, f);
  }

  lemma SpentTotal(cfg: Config, stored: map<string, Policy>, events: seq<Event>, room: string, i: nat, cutoff: int, f: nat -> Option<Ask>)
    requires i <= |events| && f == GrantOf(cfg, stored, events)
    ensures RoomGrants(GrantLog(f, i), room, cutoff) == |SpentBefore(cfg, stored, events, room, i, cutoff)|
  {
    SpentCount(f, i, room, cutoff);
    SpentIs(cfg, stored, events, room, i, cutoff);
  }

  lemma FullIs(cfg: Config, stored: map<string, Policy>, events: seq<Event>, i: nat, f: nat -> Option<Ask>, p: Policy)
    requires IsQuery(events, i) && f == GrantOf(cfg, stored, events) && p == PolicyAt(cfg, stored, events, i)
    ensures Full(cfg, stored, events, i)
       <==> RoomGrants(GrantLog(f, i), LimitRoomID(events[i].msg), events[i].now - 3_600_000_000_000) >= p.budget
  {
    SpentTotal(cfg, stored, events, LimitRoomID(events[i].msg), i, events[i].now - 3_600_000_000_000, f);
  }

  /** The decision at the lock, by the messages granted before. */
  lemma AtLock(cfg: Config, stored: map<string, Policy>, events: seq<Event>, i: nat, ask: Ask)
    requires TimesOk(events) && IsQuery(events, i) && Reaches(cfg, stored, events, i)
    requires ask == AskAt(cfg, stored, events, i)
    ensures DecisionAt(cfg, stored, events, i)
         == Verdict(true, true, Blocked(cfg, stored, events, i), Full(cfg, stored, events, i))
  {
    var f := GrantOf(cfg, stored, events);
    AskFields(cfg, stored, events, i);
    DecidesByLog(cfg, stored, events, i, f, ask);
    CoolingIs(cfg, stored, events, i, f, ask.key);
    FullIs(cfg, stored, events, i, f, ask.policy);
    SpecIs(GrantLog(f, i), ask, LimitRoomID(events[i].msg), events[i].now - 3_600_000_000_000,
           Blocked(cfg, stored, events, i), Full(cfg, stored, events, i));
  }

  lemma BeforeLock(cfg: Config, stored: map<string, Policy>, events: seq<Event>, i: nat, p: Policy)
    requires IsQuery(events, i) && !Reaches(cfg, stored, events, i) && p == PolicyAt(cfg, stored, events, i)
    ensures DecisionAt(cfg, stored, events, i)
         == if p.mode != LOCAL_AUTO then Denied("room-policy") else Denied("handler-not-allowed")
  {}

  /** Some handler the message would reach is allowed. */
  predicate SomeAllowed(cfg: Config, p: Policy, handlers: seq<string>) {
    exists h :: h in handlers && AllowsHandler(cfg, p, h)
  }

  /** Main result: over every run of queries and policy changes of a fresh manager, with a clock that
      does not go back, a query is denied for its room's policy, or for having no allowed handler; for
      the cooldown exactly when a message granted before that shares it (in the same room, the same
      query but for case and blanks) is less than its policy's cooldown ago; for the budget exactly when its
      room was granted as many messages within the hour as its policy allows; and granted
      otherwise. */
  lemma DecidedByGrants(cfg: Config, stored: map<string, Policy>, events: seq<Event>, i: nat, p: Policy, d: Decision)
    requires TimesOk(events) && IsQuery(events, i)
    requires p == PolicyAt(cfg, stored, events, i) && d == DecisionAt(cfg, stored, events, i)
    ensures d == Verdict(p.mode == "local-auto", SomeAllowed(cfg, p, events[i].handlers),
                         Blocked(cfg, stored, events, i), Full(cfg, stored, events, i))
  {
    assert Reaches(cfg, stored, events, i) <==> p.mode == "local-auto" && SomeAllowed(cfg, p, events[i].handlers);
    if p.mode == "local-auto" && SomeAllowed(cfg, p, events[i].handlers) {
      AtLock(cfg, stored, events, i, AskAt(cfg, stored, events, i));
    } else {
      BeforeLock(cfg, stored, events, i, p);
    }
  }

  // ---------------------------------------------------------------------------
  // The policy in force
  // ---------------------------------------------------------------------------

  /** Which ids a listing of handlers stands for. */
  lemma {:induction false} NormalizedIds(cfg: Config, raw: seq<string>, id: string)
    ensures id in NormalizeHandlers(cfg, raw) <==> exists h :: h in raw && cfg.normalize(h) == Some(id)
  {
    if raw != [] {
      NormalizedIds(cfg, raw[1..], id);
      assert forall h :: h in raw <==> h == raw[0] || h in raw[1..];
    }
  }

  /** Main result: a policy that was set is in force for its room's messages field by field: what it
      says, and where it says nothing the catalog's default. */
  lemma SetIsInForce(cfg: Config, w: World, room: string, set': Policy, msg: Message, p: Policy)
    requires cfg.hasStore && RoomID(msg) == Trim(room) != "" && CatalogOk(cfg, set') && KnowsSome(cfg, set')
    requires p == PolicyFor(cfg, Next(cfg, w, SetPolicy(room, set')).stored, msg)
    ensures p.mode == if set'.mode != "" then set'.mode else cfg.catalog.mode
    ensures p.target == if set'.target != "" then set'.target else cfg.catalog.target
    ensures p.budget == if set'.budget > 0 then set'.budget else cfg.catalog.budget
    ensures p.cooldown == if set'.cooldown > 0 then set'.cooldown else cfg.catalog.cooldown
    ensures forall id :: id in p.allowed <==>
              if set'.allowed == [] then id in cfg.catalog.allowed
              else exists h :: h in set'.allowed && cfg.normalize(h) == Some(id)
  {
    NormalizedTwice(cfg, set');
    assert p == Normalize(cfg, set');
    forall id ensures id in p.allowed <==>
                        if set'.allowed == [] then id in cfg.catalog.allowed
                        else exists h :: h in set'.allowed && cfg.normalize(h) == Some(id)
    {
      NormalizedIds(cfg, set'.allowed, id);
    }
  }

  /** Without a stored policy, or a room, or a store, the manager's own is in force. */
  lemma FallbackIsInForce(cfg: Config, stored: map<string, Policy>, msg: Message)
    requires !cfg.hasStore || RoomID(msg) == "" || RoomID(msg) !in stored
    ensures PolicyFor(cfg, stored, msg) == cfg.fallback
  {}

  /** A handler is allowed exactly when it and some listed one stand for the same id; an empty list
      stands for the catalog's defaults. */
  lemma AllowsIff(cfg: Config, p: Policy, handler: string)
    ensures p.allowed != [] ==>
              (AllowsHandler(cfg, p, handler) <==>
                exists h, id :: h in p.allowed && id != "" && cfg.normalize(h) == Some(id) && cfg.normalize(handler) == Some(id))
    ensures p.allowed == [] ==>
              (AllowsHandler(cfg, p, handler) <==>
                exists id :: id in cfg.catalog.allowed && id != "" && cfg.normalize(handler) == Some(id))
  {
    match cfg.normalize(handler)
    case None =>
    case Some(id) => NormalizedIds(cfg, p.allowed, id);
  }

  /** Main result: a query changes no stored policy but, on a budget denial under a policy that names
      another mode to fall back to, its own room's; that then reads back with that mode and with the
      budget, cooldown and target it had. */
  lemma QueryStores(cfg: Config, w: World, q: Event, p: Policy)
    requires q.Query? && p == PolicyFor(cfg, w.stored, q.msg)
    ensures var d, after := Evaluate(cfg, w, q.msg, q.query, q.handlers, q.now).0, Next(cfg, w, q).stored;
            if d == Denied("budget") && cfg.hasStore && p.target != "" && p.target != p.mode then
              && LimitRoomID(q.msg) in after
              && (forall room :: room != LimitRoomID(q.msg) ==>
                    (room in after <==> room in w.stored) && (room in after ==> after[room] == w.stored[room]))
              && after[LimitRoomID(q.msg)].mode == p.target && after[LimitRoomID(q.msg)].target == p.target
              && (p.budget > 0 ==> after[LimitRoomID(q.msg)].budget == p.budget)
              && (p.cooldown > 0 ==> after[LimitRoomID(q.msg)].cooldown == p.cooldown)
            else after == w.stored
  {
    LimitRoomIDIsTrimmed(q.msg);
  }
}
