/** The audit log as a record of the tables: what it is enough for. */
module AccessLog {
  import opened Options
  import opened Text
  import opened AccessTables
  import opened Access

  datatype Call = Call(actor: Actor, mutation: Mutation)

  function RunAll(t: Tables, calls: seq<Call>): Tables
    decreases |calls|
  {
    if calls == [] then t else RunAll(After(t, calls[0].mutation), calls[1..])
  }

  /** What Mutate writes to the log over a run. */
  function LogOf(t: Tables, calls: seq<Call>): seq<Audit>
    decreases |calls|
  {
    if calls == [] then []
    else
      var rest := LogOf(After(t, calls[0].mutation), calls[1..]);
      if Changes(t, calls[0].mutation) then [Trimmed(Entry(calls[0].actor, calls[0].mutation))] + rest else rest
  }

  predicate Changes(t: Tables, m: Mutation) {
    Change(t, m).Did? && Change(t, m).changed
  }

  // ---------- reading the log ----------

  /** Where the first colon is. */
  function Colon(s: string): (k: nat)
    ensures k <= |s|
  {
    if s == "" || s[0] == ':' then 0 else 1 + Colon(s[1..])
  }

  function BeforeColon(s: string): string {
    s[..Colon(s)]
  }

  function AfterColon(s: string): string {
    if Colon(s) < |s| then s[Colon(s) + 1..] else ""
  }

  function Decode(a: Audit): Mutation {
    match a.action
    case RoomUpsert(alias) => UpsertRoom(a.targetId, alias)
    case RoomDelete => DeleteRoom(a.targetId)
    case IntentAdd => AddIntent(BeforeColon(a.targetId), AfterColon(a.targetId))
    case IntentRemove => RemoveIntent(BeforeColon(a.targetId), AfterColon(a.targetId))
    case AdminRoomAdd => AddAdminRoom(a.targetId)
    case AdminRoomRemove => RemoveAdminRoom(a.targetId)
    case AdminUserAdd => AddAdminUser(a.targetId)
    case AdminUserRemove => RemoveAdminUser(a.targetId)
    case EnsureAdminRoom => AddAdminRoom(a.targetId)
    case EnsureAdminUser => AddAdminUser(a.targetId)
  }

  function Replay(t: Tables, log: seq<Audit>): Tables
    decreases |log|
  {
    if log == [] then t else Replay(After(t, Decode(log[0])), log[1..])
  }

  /** The chat id of an intent mutation has no colon, which the log uses to set off the intent. */
  predicate NoColon(m: Mutation) {
    m.AddIntent? || m.RemoveIntent? ==> ':' !in m.chatId
  }

  // ---------- an entry tells its mutation ----------

  lemma {:induction false} ColonAt(c: string, i: string)
    requires ':' !in c
    ensures Colon(c + ":" + i) == |c|
  {
    if c == "" {
      assert c + ":" + i == ":" + i;
    } else {
      assert (c + ":" + i)[1..] == c[1..] + ":" + i;
      ColonAt(c[1..], i);
    }
  }

  /** Blanks inside, beside the colon, are not trimmed, and do not matter to the tables. */
  lemma TargetSplits(c: string, i: string)
    requires ':' !in c && Trim(c) != "" && Trim(i) != ""
    ensures var target := Trim(c + ":" + i);
            Trim(BeforeColon(target)) == Trim(c) && Trim(AfterColon(target)) == Trim(i)
  {
    var cl, cr := TrimIs(c);
    var il, ir := TrimIs(i);
    var left, right := Trim(c) + cr, il + Trim(i);
    var mid := left + ":" + right;
    assert c + ":" + i == cl + mid + ir;
    assert mid[|mid| - 1] == Trim(i)[|Trim(i)| - 1];
    TrimOf(cl, mid, ir);
    assert forall k :: 0 <= k < |left| ==> left[k] == c[|cl| + k];
    ColonAt(left, right);
    assert mid[..|left|] == left && mid[|left| + 1..] == right;
    assert "" + Trim(c) + cr == left && il + Trim(i) + "" == right;
    TrimOf("", Trim(c), cr);
    TrimOf(il, Trim(i), "");
  }

  /** The same call but for blanks around its arguments. */
  predicate SameCall(m: Mutation, m': Mutation) {
    match m
    case UpsertRoom(c, alias) => m'.UpsertRoom? && Trim(m'.chatId) == Trim(c) && Trim(m'.alias) == Trim(alias)
    case DeleteRoom(c) => m'.DeleteRoom? && Trim(m'.chatId) == Trim(c)
    case AddIntent(c, i) => m'.AddIntent? && Trim(m'.chatId) == Trim(c) && Trim(m'.intentId) == Trim(i)
    case RemoveIntent(c, i) => m'.RemoveIntent? && Trim(m'.chatId) == Trim(c) && Trim(m'.intentId) == Trim(i)
    case AddAdminRoom(c) => m'.AddAdminRoom? && Trim(m'.chatId) == Trim(c)
    case RemoveAdminRoom(c) => m'.RemoveAdminRoom? && Trim(m'.chatId) == Trim(c)
    case AddAdminUser(u) => m'.AddAdminUser? && Trim(m'.userId) == Trim(u)
    case RemoveAdminUser(u) => m'.RemoveAdminUser? && Trim(m'.userId) == Trim(u)
  }

  lemma SameCallSameEffect(t: Tables, m: Mutation, m': Mutation)
    requires SameCall(m, m')
    ensures After(t, m') == After(t, m)
  {}

  predicate NamesIntent(m: Mutation) {
    m.AddIntent? || m.RemoveIntent?
  }

  lemma IntentEntryTells(actor: Actor, m: Mutation)
    requires NamesIntent(m) && NoColon(m) && Trim(m.chatId) != "" && Trim(m.intentId) != ""
    ensures SameCall(m, Decode(Trimmed(Entry(actor, m))))
  {
    TargetSplits(m.chatId, m.intentId);
  }

  lemma PlainEntryTells(actor: Actor, m: Mutation)
    requires !NamesIntent(m)
    ensures SameCall(m, Decode(Trimmed(Entry(actor, m))))
  {
    match m
    case UpsertRoom(c, alias) =>
      TrimTwice(c);
      TrimTwice(alias);
    case DeleteRoom(c) => TrimTwice(c);
    case AddAdminRoom(c) => TrimTwice(c);
    case RemoveAdminRoom(c) => TrimTwice(c);
    case AddAdminUser(u) => TrimTwice(u);
    case RemoveAdminUser(u) => TrimTwice(u);
  }

  lemma ChangesNamesAll(t: Tables, m: Mutation)
    requires Changes(t, m) && NamesIntent(m)
    ensures Trim(m.chatId) != "" && Trim(m.intentId) != ""
  {}

  /** The entry names the actor, and reads as the call. */
  ghost predicate EntryOf(entry: Audit, call: Call) {
    && entry.actorChatId == Trim(call.actor.chatId)
    && entry.actorUserId == Trim(call.actor.userId)
    && SameCall(call.mutation, Decode(entry))
  }

  lemma EntryOfCall(t: Tables, call: Call)
    requires Changes(t, call.mutation) && NoColon(call.mutation)
    ensures EntryOf(Trimmed(Entry(call.actor, call.mutation)), call)
  {
    if NamesIntent(call.mutation) {
      ChangesNamesAll(t, call.mutation);
      IntentEntryTells(call.actor, call.mutation);
    } else {
      PlainEntryTells(call.actor, call.mutation);
    }
  }

  lemma EntryTells(t: Tables, actor: Actor, m: Mutation)
    requires Changes(t, m) && NoColon(m)
    ensures After(t, Decode(Trimmed(Entry(actor, m)))) == After(t, m)
  {
    EntryOfCall(t, Call(actor, m));
    SameCallSameEffect(t, m, Decode(Trimmed(Entry(actor, m))));
  }

  /** Each entry of the log is that of a call that was made. */
  lemma {:induction false} EntriesAreOfCalls(t: Tables, calls: seq<Call>, k: nat) returns (n: nat)
    requires k < |LogOf(t, calls)| && forall j :: 0 <= j < |calls| ==> NoColon(calls[j].mutation)
    ensures n < |calls| && EntryOf(LogOf(t, calls)[k], calls[n])
    decreases |calls|
  {
    var next, rest := After(t, calls[0].mutation), LogOf(After(t, calls[0].mutation), calls[1..]);
    if Changes(t, calls[0].mutation) && k == 0 {
      n := 0;
      EntryOfCall(t, calls[0]);
    } else {
      var j := if Changes(t, calls[0].mutation) then k - 1 else k;
      assert LogOf(t, calls)[k] == rest[j];
      n := EntriesAreOfCalls(next, calls[1..], j);
      n := n + 1;
    }
  }

  /** Main result: the audit log alone rebuilds the tables: reading it back from the tables the run
      began with leads to those it ended with, whoever made the calls, when no intent was given to or
      taken from a room whose chat id has a colon. */
  lemma {:induction false} LogRebuildsTables(t: Tables, calls: seq<Call>)
    requires forall k :: 0 <= k < |calls| ==> NoColon(calls[k].mutation)
    ensures Replay(t, LogOf(t, calls)) == RunAll(t, calls)
    decreases |calls|
  {
    if calls != [] {
      var m, rest := calls[0].mutation, LogOf(After(t, calls[0].mutation), calls[1..]);
      LogRebuildsTables(After(t, m), calls[1..]);
      if Changes(t, m) {
        EntryTells(t, calls[0].actor, m);
        assert ([Trimmed(Entry(calls[0].actor, m))] + rest)[1..] == rest;
      } else {
        NotAuditedMeansSame(t, m);
      }
    }
  }

  /** With such chat ids no reading does: two calls of one actor leave the same entry and different
      tables, whenever both rooms are on file and neither intent is. */
  lemma ColonsConfuse(t: Tables, actor: Actor, c: string, d: string, i: string)
    requires Sound(t) && Trim(c) == c != "" && Trim(i) == i != "" && Trim(d) == d != ""
    requires Trim(c + ":" + d) == c + ":" + d && Trim(d + ":" + i) == d + ":" + i
    requires c in t.rooms && c + ":" + d in t.rooms
    requires (c, d + ":" + i) !in t.intents && (c + ":" + d, i) !in t.intents
    ensures var a, b := [Call(actor, AddIntent(c, d + ":" + i))], [Call(actor, AddIntent(c + ":" + d, i))];
            LogOf(t, a) == LogOf(t, b) && RunAll(t, a) != RunAll(t, b)
  {
    var a, b := [Call(actor, AddIntent(c, d + ":" + i))], [Call(actor, AddIntent(c + ":" + d, i))];
    assert c + ":" + (d + ":" + i) == (c + ":" + d) + ":" + i;
    assert (c, d + ":" + i) in RunAll(t, a).intents;
    assert |c| < |c + ":" + d|;
    assert (c, d + ":" + i) !in RunAll(t, b).intents;
  }
}
