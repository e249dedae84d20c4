/** Access control: the store's methods, the controller's in-memory copy of the tables, and the
    manager that writes to the first and reloads the second. */
module Access {
  import opened Options
  import opened Text
  import opened AccessTables

  // ---------- the store ----------

  /** An action names its target type too; the details are the alias given, or "source=startup". */
  datatype Action =
    | RoomUpsert(alias: string) | RoomDelete | IntentAdd | IntentRemove
    | AdminRoomAdd | AdminRoomRemove | AdminUserAdd | AdminUserRemove
    | EnsureAdminRoom | EnsureAdminUser

  datatype Audit = Audit(actorChatId: string, actorUserId: string, action: Action, targetId: string)

  datatype RoomRow = RoomRow(chatId: string, alias: string, allowIntents: seq<string>)

  datatype AclSnapshot = AclSnapshot(rooms: seq<RoomRow>, adminRooms: seq<string>, adminUsers: seq<string>)

  /** The rows of a query in some order, each once. */
  ghost predicate Lists<T(!new)>(rows: seq<T>, of: set<T>) {
    && (forall x :: x in rows <==> x in of)
    && (forall i, j :: 0 <= i < j < |rows| ==> rows[i] != rows[j])
  }

  /** Reads a table; the database's order is not modelled. */
  method Query<T(!new, ==)>(of: set<T>) returns (rows: seq<T>)
    ensures Lists(rows, of)
  {
    rows := [];
    var todo := of;
    while todo != {}
      invariant todo <= of
      invariant Lists(rows, of - todo)
    {
      var x :| x in todo;
      rows := rows + [x];
      todo := todo - {x};
    }
  }

  /** What a call on tables `before` answers (None for an error) and leaves. */
  ghost predicate Performs(before: Tables, m: Mutation, r: Option<bool>, after: Tables) {
    var effect := Change(before, m);
    if effect.Failed? then r == None && after == before
    else r == Some(effect.changed) && after == effect.tables
  }

  ghost predicate HasEveryRoom(rows: seq<RoomRow>, t: Tables) {
    forall c :: c in t.rooms ==> exists k :: 0 <= k < |rows| && rows[k].chatId == c
  }

  ghost predicate ShowsRooms(rows: seq<RoomRow>, t: Tables) {
    forall k :: 0 <= k < |rows| ==> RowShows(rows[k], t)
  }

  ghost predicate Shows(s: AclSnapshot, t: Tables) {
    && HasEveryRoom(s.rooms, t) && ShowsRooms(s.rooms, t)
    && Lists(s.adminRooms, t.adminRooms)
    && Lists(s.adminUsers, t.adminUsers)
  }

  ghost predicate RowShows(row: RoomRow, t: Tables) {
    && row.chatId in t.rooms
    && row.alias == t.rooms[row.chatId]
    && (forall i :: i in row.allowIntents <==> (row.chatId, i) in t.intents)
  }

  ghost predicate Indexes(index: map<string, nat>, ids: seq<string>) {
    && (forall j :: 0 <= j < |ids| ==> ids[j] in index && index[ids[j]] == j)
    && (forall c :: c in index ==> index[c] < |ids| && ids[index[c]] == c)
  }

  class ACLStore {
    var rooms: map<string, string>
    var intents: set<(string, string)>
    var adminRooms: set<string>
    var adminUsers: set<string>
    var audit: seq<Audit>

    function View(): Tables
      reads this
    {
      Tables(rooms, intents, adminRooms, adminUsers)
    }

    constructor ()
      ensures View() == EMPTY && audit == []
    {
      rooms, intents, adminRooms, adminUsers, audit := map[], {}, {}, {}, [];
    }

    method UpsertRoom(chatId: string, alias: string) returns (r: Option<bool>)
      modifies this
      ensures Performs(old(View()), Mutation.UpsertRoom(chatId, alias), r, View()) && audit == old(audit)
    {
      var id := Trim(chatId);
      if id == "" { return Some(false); }
      rooms := rooms[id := Trim(alias)];
      r := Some(true);
    }

    method DeleteRoom(chatId: string) returns (r: Option<bool>)
      modifies this
      ensures Performs(old(View()), Mutation.DeleteRoom(chatId), r, View()) && audit == old(audit)
    {
      var id := Trim(chatId);
      if id == "" || id !in rooms { return Some(false); }
      rooms := rooms - {id};
      intents := OfOtherRooms(intents, id);
      r := Some(true);
    }

    method UpsertRoomIntent(chatId: string, intentId: string) returns (r: Option<bool>)
      modifies this
      ensures Performs(old(View()), AddIntent(chatId, intentId), r, View()) && audit == old(audit)
    {
      var row := (Trim(chatId), Trim(intentId));
      if row.0 == "" || row.1 == "" || row in intents { return Some(false); }
      if row.0 !in rooms { return None; }
      intents := intents + {row};
      r := Some(true);
    }

    method DeleteRoomIntent(chatId: string, intentId: string) returns (r: Option<bool>)
      modifies this
      ensures Performs(old(View()), RemoveIntent(chatId, intentId), r, View()) && audit == old(audit)
    {
      var row := (Trim(chatId), Trim(intentId));
      if row.0 == "" || row.1 == "" || row !in intents { return Some(false); }
      intents := intents - {row};
      r := Some(true);
    }

    method UpsertAdminRoom(chatId: string) returns (r: Option<bool>)
      modifies this
      ensures Performs(old(View()), AddAdminRoom(chatId), r, View()) && audit == old(audit)
    {
      var id := Trim(chatId);
      if id == "" || id in adminRooms { return Some(false); }
      adminRooms := adminRooms + {id};
      r := Some(true);
    }

    method DeleteAdminRoom(chatId: string) returns (r: Option<bool>)
      modifies this
      ensures Performs(old(View()), RemoveAdminRoom(chatId), r, View()) && audit == old(audit)
    {
      var id := Trim(chatId);
      if id == "" || id !in adminRooms { return Some(false); }
      adminRooms := adminRooms - {id};
      r := Some(true);
    }

    method UpsertAdminUser(userId: string) returns (r: Option<bool>)
      modifies this
      ensures Performs(old(View()), AddAdminUser(userId), r, View()) && audit == old(audit)
    {
      var id := Trim(userId);
      if id == "" || id in adminUsers { return Some(false); }
      adminUsers := adminUsers + {id};
      r := Some(true);
    }

    method DeleteAdminUser(userId: string) returns (r: Option<bool>)
      modifies this
      ensures Performs(old(View()), RemoveAdminUser(userId), r, View()) && audit == old(audit)
    {
      var id := Trim(userId);
      if id == "" || id !in adminUsers { return Some(false); }
      adminUsers := adminUsers - {id};
      r := Some(true);
    }

    method AppendAudit(entry: Audit)
      modifies this
      ensures View() == old(View())
      ensures audit == old(audit) + [Trimmed(entry)]
      ensures IsTrimmed(Trimmed(entry)) && (IsTrimmed(entry) ==> Trimmed(entry) == entry)
      ensures old(AllTrimmed(audit)) ==> AllTrimmed(audit)
    {
      TrimmedTwice(entry);
      audit := audit + [Trimmed(entry)];
    }

    /** One transaction: a duplicate row rolls everything back. */
    method SeedBootstrap(b: Bootstrap) returns (ok: bool)
      modifies this
      ensures ok <==> Seed(old(View()), b).Some?
      ensures View() == if ok then Seed(old(View()), b).value else old(View())
      ensures audit == old(audit)
    {
      if !(rooms == map[] && adminRooms == {} && adminUsers == {}) { return true; }
      var t := View();
      for k := 0 to |b.rooms|
        invariant View() == old(View()) && audit == old(audit)
        invariant SeedRooms(View(), b.rooms) == SeedRooms(t, b.rooms[k..])
      {
        assert b.rooms[k..][0] == b.rooms[k] && b.rooms[k..][1..] == b.rooms[k + 1..];
        var next := SeedRoomRows(t, b.rooms[k]);
        if next == None { return false; }
        t := next.value;
      }
      t := Principals(t, b);
      rooms, intents, adminRooms, adminUsers := t.rooms, t.intents, t.adminRooms, t.adminUsers;
      ok := true;
    }

    method SeedRoomRows(t: Tables, room: RoomConfig) returns (r: Option<Tables>)
      ensures r == SeedRoom(t, room)
    {
      var chatId := Trim(room.chatId);
      if chatId == "" { return Some(t); }
      if chatId in t.rooms { return None; }
      var u := t.(rooms := t.rooms[chatId := Trim(room.alias)]);
      for k := 0 to |room.allowIntents|
        invariant SeedRoom(t, room) == SeedIntents(u, chatId, room.allowIntents[k..])
      {
        var ids := room.allowIntents[k..];
        assert ids[0] == room.allowIntents[k] && ids[1..] == room.allowIntents[k + 1..];
        var id := Trim(room.allowIntents[k]);
        if id != "" {
          if (chatId, id) in u.intents { return None; }
          u := u.(intents := u.intents + {(chatId, id)});
        }
      }
      r := Some(u);
    }

    method ListRooms() returns (rows: seq<RoomRow>)
      ensures HasEveryRoom(rows, View()) && ShowsRooms(rows, View())
    {
      var ids := Query(rooms.Keys);
      var empty, index := RoomRows(ids);
      var pairs := Query(intents);
      rows := FillIntents(empty, ids, index, pairs);
      forall c | c in rooms ensures exists k :: 0 <= k < |rows| && rows[k].chatId == c {
        var k :| 0 <= k < |ids| && ids[k] == c;
        assert rows[k].chatId == c;
      }
    }

    method RoomRows(ids: seq<string>) returns (rows: seq<RoomRow>, index: map<string, nat>)
      requires Lists(ids, rooms.Keys)
      ensures |rows| == |ids| && Indexes(index, ids)
      ensures forall j :: 0 <= j < |ids| ==> ids[j] in rooms && rows[j] == RoomRow(ids[j], rooms[ids[j]], [])
    {
      rows, index := [], map[];
      for k := 0 to |ids|
        invariant |rows| == k
        invariant forall j :: 0 <= j < k ==> ids[j] in rooms && rows[j] == RoomRow(ids[j], rooms[ids[j]], [])
        invariant Indexes(index, ids[..k])
      {
        rows := rows + [RoomRow(ids[k], rooms[ids[k]], [])];
        index := index[ids[k] := k];
      }
      assert ids[..|ids|] == ids;
    }

    method FillIntents(empty: seq<RoomRow>, ids: seq<string>, index: map<string, nat>, pairs: seq<(string, string)>)
        returns (rows: seq<RoomRow>)
      requires |empty| == |ids| && Indexes(index, ids)
      requires forall j :: 0 <= j < |ids| ==> empty[j].chatId == ids[j] && empty[j].allowIntents == []
      ensures |rows| == |ids|
      ensures forall j :: 0 <= j < |ids| ==> rows[j].chatId == ids[j] && rows[j].alias == empty[j].alias
      ensures forall j, i :: 0 <= j < |ids| ==> (i in rows[j].allowIntents <==> (ids[j], i) in pairs)
    {
      rows := empty;
      for k := 0 to |pairs|
        invariant |rows| == |ids|
        invariant forall j :: 0 <= j < |ids| ==> rows[j].chatId == ids[j] && rows[j].alias == empty[j].alias
        invariant forall j, i :: 0 <= j < |ids| ==> (i in rows[j].allowIntents <==> (ids[j], i) in pairs[..k])
      {
        var (chatId, intentId) := pairs[k];
        assert pairs[..k + 1] == pairs[..k] + [(chatId, intentId)];
        if chatId in index {
          var at := index[chatId];
          rows := rows[at := rows[at].(allowIntents := rows[at].allowIntents + [intentId])];
        }
      }
      assert pairs[..|pairs|] == pairs;
    }

    method Snapshot() returns (s: AclSnapshot)
      ensures Shows(s, View())
    {
      var roomRows := ListRooms();
      var a := Query(adminRooms);
      var u := Query(adminUsers);
      s := AclSnapshot(roomRows, a, u);
    }
  }

  function Trimmed(a: Audit): Audit {
    Audit(Trim(a.actorChatId), Trim(a.actorUserId), TrimmedAction(a.action), Trim(a.targetId))
  }

  /** An entry without blanks around any of its texts. */
  predicate IsTrimmed(a: Audit) {
    && Trim(a.actorChatId) == a.actorChatId && Trim(a.actorUserId) == a.actorUserId && Trim(a.targetId) == a.targetId
    && (a.action.RoomUpsert? ==> Trim(a.action.alias) == a.action.alias)
  }

  predicate AllTrimmed(log: seq<Audit>) {
    forall i :: 0 <= i < |log| ==> IsTrimmed(log[i])
  }

  lemma TrimmedTwice(a: Audit)
    ensures IsTrimmed(Trimmed(a))
  {
    TrimTwice(a.actorChatId);
    TrimTwice(a.actorUserId);
    TrimTwice(a.targetId);
    if a.action.RoomUpsert? { TrimTwice(a.action.alias); }
  }

  function TrimmedAction(a: Action): Action {
    if a.RoomUpsert? then RoomUpsert(Trim(a.alias)) else a
  }

  // ---------- the controller ----------

  /** The configuration of a controller; `normalize` is the catalog's NormalizeIntentID. */
  datatype Config = Config(
    defaultAllow: bool, runtimeEnabled: bool,
    adminRoom: string, adminUser: string, superAdmins: set<string>,
    normalize: string -> string)

  /** What the tables say about an intent in a chat. */
  ghost predicate TablesAllow(t: Tables, cfg: Config, chatId: string, intent: string) {
    if Trim(chatId) == [] || cfg.normalize(intent) == [] || Trim(chatId) !in t.rooms then cfg.defaultAllow
    else exists i :: (Trim(chatId), i) in t.intents && cfg.normalize(i) == cfg.normalize(intent)
  }

  predicate SuperAdmin(cfg: Config, chatId: string, userId: string) {
    && cfg.runtimeEnabled
    && Trim(userId) != []
    && (Trim(userId) in cfg.superAdmins || (Trim(chatId) == Trim(cfg.adminRoom) && Trim(userId) == Trim(cfg.adminUser)))
  }

  /** An admin is an admin user in an admin room. */
  predicate TablesAdmin(t: Tables, cfg: Config, chatId: string, userId: string) {
    && cfg.runtimeEnabled
    && Trim(chatId) != []
    && Trim(userId) != []
    && Trim(chatId) in t.adminRooms
    && Trim(userId) in t.adminUsers
  }

  const ADMIN_ACL := "admin.acl"

  ghost predicate TablesExecute(t: Tables, cfg: Config, chatId: string, userId: string, intent: string) {
    || SuperAdmin(cfg, chatId, userId)
    || (if cfg.normalize(intent) == "admin" || Trim(intent) == ADMIN_ACL then TablesAdmin(t, cfg, chatId, userId)
        else TablesAllow(t, cfg, chatId, cfg.normalize(intent)))
  }

  /** Who may do what: a configured super admin, or the configured admin user in the configured admin
      room, everything while runtime administration is on; administration otherwise exactly an admin
      user in an admin room; any other intent whoever writes, as the room allows. */
  lemma WhoMayExecute(t: Tables, cfg: Config, chatId: string, userId: string, intent: string)
    ensures cfg.runtimeEnabled && Trim(userId) != "" && Trim(userId) in cfg.superAdmins ==>
              TablesExecute(t, cfg, chatId, userId, intent)
    ensures cfg.runtimeEnabled && Trim(userId) == Trim(cfg.adminUser) != "" && Trim(chatId) == Trim(cfg.adminRoom) ==>
              TablesExecute(t, cfg, chatId, userId, intent)
    ensures var privileged := cfg.runtimeEnabled && Trim(userId) != ""
              && (Trim(userId) in cfg.superAdmins || (Trim(userId) == Trim(cfg.adminUser) && Trim(chatId) == Trim(cfg.adminRoom)));
            !privileged ==>
              (TablesExecute(t, cfg, chatId, userId, intent) <==>
                if cfg.normalize(intent) == "admin" || Trim(intent) == "admin.acl" then
                  cfg.runtimeEnabled && Trim(chatId) in t.adminRooms && Trim(userId) in t.adminUsers
                  && Trim(chatId) != "" && Trim(userId) != ""
                else TablesAllow(t, cfg, chatId, cfg.normalize(intent)))
  {}

  class AccessController {
    const cfg: Config
    var rooms: map<string, RoomRow>
    var adminRooms: set<string>
    var adminUsers: set<string>

    /** The copy says what the tables say. */
    ghost predicate Agrees(t: Tables)
      reads this
    {
      && rooms.Keys == t.rooms.Keys
      && (forall c :: c in rooms ==> rooms[c].chatId == c && RowShows(rooms[c], t))
      && adminRooms == t.adminRooms
      && adminUsers == t.adminUsers
    }

    constructor (cfg: Config, seeded: seq<RoomRow>)
      ensures this.cfg == cfg && adminRooms == {} && adminUsers == {}
      ensures LastRows(rooms, seeded)
    {
      this.cfg := cfg;
      rooms, adminRooms, adminUsers := map[], {}, {};
      new;
      ApplySnapshot(AclSnapshot(seeded, [], []));
    }

    /** The last row of a chat wins. */
    method ApplySnapshot(s: AclSnapshot)
      modifies this
      ensures LastRows(rooms, s.rooms)
      ensures adminRooms == TrimAll(s.adminRooms) && adminUsers == TrimAll(s.adminUsers)
    {
      var copy: map<string, RoomRow> := map[];
      for n := 0 to |s.rooms|
        invariant LastRows(copy, s.rooms[..n])
      {
        LastRow(copy, s.rooms[..n], s.rooms[n]);
        assert s.rooms[..n + 1] == s.rooms[..n] + [s.rooms[n]];
        copy := copy[s.rooms[n].chatId := s.rooms[n]];
      }
      assert s.rooms[..|s.rooms|] == s.rooms;
      var a := TrimmedSet(s.adminRooms);
      var u := TrimmedSet(s.adminUsers);
      rooms, adminRooms, adminUsers := copy, a, u;
    }

    method TrimmedSet(values: seq<string>) returns (r: set<string>)
      ensures r == TrimAll(values)
    {
      r := {};
      for n := 0 to |values|
        invariant r == TrimAll(values[..n])
      {
        assert values[..n + 1] == values[..n] + [values[n]];
        r := r + {Trim(values[n])};
      }
      assert values[..|values|] == values;
    }

    /** Loading what a snapshot shows makes the copy agree. */
    method LoadRuntimeSnapshot(s: AclSnapshot, ghost t: Tables)
      requires Shows(s, t) && Sound(t)
      modifies this
      ensures Agrees(t)
    {
      ApplySnapshot(s);
      TrimmedAlready(s.adminRooms, t.adminRooms);
      TrimmedAlready(s.adminUsers, t.adminUsers);
      CopyShows(s.rooms, rooms, t);
    }

    method IsAllowed(chatId: string, intent: string) returns (r: bool)
      ensures forall t :: Agrees(t) ==> (r <==> TablesAllow(t, cfg, chatId, intent))
    {
      var chat, wanted := Trim(chatId), cfg.normalize(intent);
      if chat == "" || wanted == "" || chat !in rooms {
        return cfg.defaultAllow;
      }
      var allowed := rooms[chat].allowIntents;
      for k := 0 to |allowed|
        invariant forall j :: 0 <= j < k ==> cfg.normalize(allowed[j]) != wanted
      {
        if cfg.normalize(allowed[k]) == wanted {
          assert allowed[k] in allowed;
          return true;
        }
      }
      r := false;
    }

    method CanExecute(chatId: string, userId: string, intent: string) returns (r: bool)
      ensures forall t :: Agrees(t) ==> (r <==> TablesExecute(t, cfg, chatId, userId, intent))
    {
      if IsBootstrapSuperAdmin(chatId, userId) {
        return true;
      }
      if cfg.normalize(intent) == "admin" || Trim(intent) == ADMIN_ACL {
        return IsRuntimeAdmin(chatId, userId) || IsBootstrapSuperAdmin(chatId, userId);
      }
      r := IsAllowed(chatId, cfg.normalize(intent));
    }

    function IsRuntimeAdmin(chatId: string, userId: string): (r: bool)
      reads this
      ensures forall t :: Agrees(t) ==> (r <==> TablesAdmin(t, cfg, chatId, userId))
    {
      cfg.runtimeEnabled && Trim(chatId) != [] && Trim(userId) != [] && Trim(chatId) in adminRooms && Trim(userId) in adminUsers
    }

    function IsBootstrapSuperAdmin(chatId: string, userId: string): bool {
      SuperAdmin(cfg, chatId, userId)
    }
  }

  function TrimAll(values: seq<string>): set<string> {
    set v | v in values :: Trim(v)
  }

  lemma {:induction false} TrimmedAlready(values: seq<string>, ids: set<string>)
    requires Lists(values, ids) && forall v :: v in ids ==> IsId(v)
    ensures TrimAll(values) == ids
  {
    forall v | v in ids ensures v in TrimAll(values) {
      assert v in values && Trim(v) == v;
    }
  }

  /** The last row of each chat, and nothing else. */
  ghost predicate LastRows(copy: map<string, RoomRow>, rows: seq<RoomRow>) {
    && (forall k :: 0 <= k < |rows| ==> rows[k].chatId in copy)
    && OnlyLastRows(copy, rows)
  }

  ghost predicate OnlyLastRows(copy: map<string, RoomRow>, rows: seq<RoomRow>) {
    forall c :: c in copy ==> exists k :: 0 <= k < |rows| && IsLastRow(rows, k, c) && rows[k] == copy[c]
  }

  ghost predicate IsLastRow(rows: seq<RoomRow>, k: nat, chatId: string)
    requires k < |rows|
  {
    rows[k].chatId == chatId && forall j :: k < j < |rows| ==> rows[j].chatId != chatId
  }

  lemma LastRow(copy: map<string, RoomRow>, rows: seq<RoomRow>, row: RoomRow)
    requires LastRows(copy, rows)
    ensures LastRows(copy[row.chatId := row], rows + [row])
  {
    var more := rows + [row];
    var next := copy[row.chatId := row];
    forall c | c in next
      ensures exists k :: 0 <= k < |more| && IsLastRow(more, k, c) && more[k] == next[c]
    {
      if c == row.chatId {
        assert IsLastRow(more, |rows|, c);
      } else {
        var k :| 0 <= k < |rows| && IsLastRow(rows, k, c) && rows[k] == copy[c];
        assert IsLastRow(more, k, c);
      }
    }
  }

  lemma CopyHasRooms(rows: seq<RoomRow>, copy: map<string, RoomRow>, t: Tables)
    requires HasEveryRoom(rows, t) && LastRows(copy, rows)
    ensures t.rooms.Keys <= copy.Keys
  {
    forall c | c in t.rooms ensures c in copy {
      var k :| 0 <= k < |rows| && rows[k].chatId == c;
    }
  }

  lemma CopyShowsRow(rows: seq<RoomRow>, copy: map<string, RoomRow>, t: Tables, c: string)
    requires ShowsRooms(rows, t) && OnlyLastRows(copy, rows) && c in copy
    ensures c in t.rooms && copy[c].chatId == c && RowShows(copy[c], t)
  {
    var k :| 0 <= k < |rows| && IsLastRow(rows, k, c) && rows[k] == copy[c];
    assert RowShows(rows[k], t);
  }

  lemma CopyShowsRows(rows: seq<RoomRow>, copy: map<string, RoomRow>, t: Tables)
    requires ShowsRooms(rows, t) && OnlyLastRows(copy, rows)
    ensures forall c :: c in copy ==> c in t.rooms && copy[c].chatId == c && RowShows(copy[c], t)
  {
    forall c | c in copy ensures c in t.rooms && copy[c].chatId == c && RowShows(copy[c], t) {
      CopyShowsRow(rows, copy, t, c);
    }
  }

  lemma CopyShows(rows: seq<RoomRow>, copy: map<string, RoomRow>, t: Tables)
    requires HasEveryRoom(rows, t) && ShowsRooms(rows, t) && LastRows(copy, rows)
    ensures copy.Keys == t.rooms.Keys
    ensures forall c :: c in copy ==> copy[c].chatId == c && RowShows(copy[c], t)
  {
    CopyHasRooms(rows, copy, t);
    CopyShowsRows(rows, copy, t);
  }

  // ---------- the manager ----------

  datatype Actor = Actor(chatId: string, userId: string)

  /** The audit entry of a changing call. */
  function Entry(actor: Actor, m: Mutation): Audit {
    match m
    case UpsertRoom(c, alias) => Audit(actor.chatId, actor.userId, RoomUpsert(alias), c)
    case DeleteRoom(c) => Audit(actor.chatId, actor.userId, RoomDelete, c)
    case AddIntent(c, i) => Audit(actor.chatId, actor.userId, IntentAdd, c + ":" + i)
    case RemoveIntent(c, i) => Audit(actor.chatId, actor.userId, IntentRemove, c + ":" + i)
    case AddAdminRoom(c) => Audit(actor.chatId, actor.userId, AdminRoomAdd, c)
    case RemoveAdminRoom(c) => Audit(actor.chatId, actor.userId, AdminRoomRemove, c)
    case AddAdminUser(u) => Audit(actor.chatId, actor.userId, AdminUserAdd, u)
    case RemoveAdminUser(u) => Audit(actor.chatId, actor.userId, AdminUserRemove, u)
  }

  lemma PerformedCall(before: Tables, m: Mutation, r: Option<bool>, after: Tables)
    requires Sound(before) && Performs(before, m, r, after)
    ensures Sound(after) && (r != Some(true) ==> after == before)
  {
    if Change(before, m).Did? {
      ChangeKeepsSound(before, m);
      if !Change(before, m).changed { UnchangedMeansSame(before, m); }
    }
  }

  /** The startup entries: one for each configured principal that was missing after seeding. */
  function RoomEntries(seeded: Tables, b: Bootstrap): seq<Audit> {
    if Ids(b.adminRoomChatId) <= seeded.adminRooms then [] else [Audit("", "", EnsureAdminRoom, Trim(b.adminRoomChatId))]
  }

  function UserEntries(seeded: Tables, b: Bootstrap): seq<Audit> {
    if Ids(b.adminUserId) <= seeded.adminUsers then [] else [Audit("", "", EnsureAdminUser, Trim(b.adminUserId))]
  }

  class AccessManager {
    const store: ACLStore
    const controller: AccessController
    const boot: Bootstrap

    constructor (store: ACLStore, controller: AccessController, boot: Bootstrap)
      ensures this.store == store && this.controller == controller && this.boot == boot
    {
      this.store, this.controller, this.boot := store, controller, boot;
    }

    method Reload()
      requires Sound(store.View())
      modifies controller
      ensures controller.Agrees(store.View())
    {
      var snapshot := store.Snapshot();
      controller.LoadRuntimeSnapshot(snapshot, store.View());
    }

    /** Startup: afterwards the copy agrees with the tables, and the configured principals are
        in them. */
    method Bootstrap() returns (ok: bool)
      requires Sound(store.View())
      modifies store, controller
      ensures ok <==> Boot(old(store.View()), boot).Some?
      ensures !ok ==> store.View() == old(store.View()) && store.audit == old(store.audit)
      ensures ok ==>
                && store.View() == Boot(old(store.View()), boot).value
                && Sound(store.View())
                && controller.Agrees(store.View())
                && store.audit == old(store.audit) + RoomEntries(Seed(old(store.View()), boot).value, boot)
                                                   + UserEntries(Seed(old(store.View()), boot).value, boot)
    {
      ok := store.SeedBootstrap(boot);
      if !ok { return; }
      BootKeepsSound(old(store.View()), boot);
      EnsureBootstrapRoom();
      EnsureBootstrapUser();
      Reload();
    }

    method EnsureBootstrapRoom()
      modifies store
      ensures store.View() == old(store.View()).(adminRooms := old(store.View()).adminRooms + Ids(boot.adminRoomChatId))
      ensures store.audit == old(store.audit) + RoomEntries(old(store.View()), boot)
    {
      var roomId := Trim(boot.adminRoomChatId);
      TrimTwice(boot.adminRoomChatId);
      if roomId != "" {
        var changed := store.UpsertAdminRoom(roomId);
        if changed == Some(true) {
          store.AppendAudit(Audit("", "", EnsureAdminRoom, roomId));
        }
      }
    }

    method EnsureBootstrapUser()
      modifies store
      ensures store.View() == old(store.View()).(adminUsers := old(store.View()).adminUsers + Ids(boot.adminUserId))
      ensures store.audit == old(store.audit) + UserEntries(old(store.View()), boot)
    {
      var userId := Trim(boot.adminUserId);
      TrimTwice(boot.adminUserId);
      if userId != "" {
        var changed := store.UpsertAdminUser(userId);
        if changed == Some(true) {
          store.AppendAudit(Audit("", "", EnsureAdminUser, userId));
        }
      }
    }

    /** The eight mutations: one audit entry and a reload for a call that changed something,
        neither for one that did not. */
    method Mutate(actor: Actor, m: Mutation) returns (r: Option<bool>)
      requires Sound(store.View()) && controller.Agrees(store.View())
      modifies store, controller
      ensures Performs(old(store.View()), m, r, store.View())
      ensures Sound(store.View()) && controller.Agrees(store.View())
      ensures store.audit == old(store.audit) + (if r == Some(true) then [Trimmed(Entry(actor, m))] else [])
      ensures old(AllTrimmed(store.audit)) ==> AllTrimmed(store.audit)
    {
      r := Perform(m);
      PerformedCall(old(store.View()), m, r, store.View());
      if r != None {
        AfterMutation(r.value, Entry(actor, m));
      }
    }

    method AfterMutation(changed: bool, entry: Audit)
      requires Sound(store.View())
      requires !changed ==> controller.Agrees(store.View())
      modifies store, controller
      ensures store.View() == old(store.View()) && controller.Agrees(store.View())
      ensures store.audit == old(store.audit) + (if changed then [Trimmed(entry)] else [])
      ensures old(AllTrimmed(store.audit)) ==> AllTrimmed(store.audit)
      ensures !changed ==> unchanged(controller)
    {
      if !changed { return; }
      store.AppendAudit(entry);
      Reload();
    }

    method Perform(m: Mutation) returns (r: Option<bool>)
      modifies store
      ensures Performs(old(store.View()), m, r, store.View()) && store.audit == old(store.audit)
    {
      match m
      case UpsertRoom(c, alias) => r := store.UpsertRoom(c, alias);
      case DeleteRoom(c) => r := store.DeleteRoom(c);
      case AddIntent(c, i) => r := store.UpsertRoomIntent(c, i);
      case RemoveIntent(c, i) => r := store.DeleteRoomIntent(c, i);
      case AddAdminRoom(c) => r := store.UpsertAdminRoom(c);
      case RemoveAdminRoom(c) => r := store.DeleteAdminRoom(c);
      case AddAdminUser(u) => r := store.UpsertAdminUser(u);
      case RemoveAdminUser(u) => r := store.DeleteAdminUser(u);
    }
  }

  // ---------- runs of mutations ----------

  function After(t: Tables, m: Mutation): Tables {
    if Change(t, m).Did? then Change(t, m).tables else t
  }

  function RunCalls(t: Tables, calls: seq<Mutation>): Tables
    decreases |calls|
  {
    if calls == [] then t else RunCalls(After(t, calls[0]), calls[1..])
  }

  /** The calls that reported a change, which are those that got an audit entry. */
  function Audited(t: Tables, calls: seq<Mutation>): seq<Mutation>
    decreases |calls|
  {
    if calls == [] then []
    else
      var rest := Audited(After(t, calls[0]), calls[1..]);
      if Change(t, calls[0]).Did? && Change(t, calls[0]).changed then [calls[0]] + rest else rest
  }

  /** Main result: the audited calls alone lead to the same tables, and each of them would be
      audited again: the log leaves out nothing that mattered. */
  lemma {:induction false} AuditedCallsTellAll(t: Tables, calls: seq<Mutation>)
    ensures RunCalls(t, Audited(t, calls)) == RunCalls(t, calls)
    ensures Audited(t, Audited(t, calls)) == Audited(t, calls)
    decreases |calls|
  {
    if calls != [] {
      AuditedCallsTellAll(After(t, calls[0]), calls[1..]);
      var rest := Audited(After(t, calls[0]), calls[1..]);
      if Change(t, calls[0]).Did? && Change(t, calls[0]).changed {
        assert ([calls[0]] + rest)[1..] == rest;
      } else {
        NotAuditedMeansSame(t, calls[0]);
      }
    }
  }

  lemma {:induction false} NotAuditedMeansSame(t: Tables, m: Mutation)
    requires !(Change(t, m).Did? && Change(t, m).changed)
    ensures After(t, m) == t
  {
    if Change(t, m).Did? { UnchangedMeansSame(t, m); }
  }

  predicate GrantsIntent(m: Mutation, chatId: string) {
    m.AddIntent? && Trim(m.chatId) == Trim(chatId)
  }

  ghost predicate NoIntents(t: Tables, chatId: string) {
    forall i :: (Trim(chatId), i) !in t.intents
  }

  lemma {:induction false} RunGrantsNothing(t: Tables, calls: seq<Mutation>, chatId: string)
    requires NoIntents(t, chatId)
    requires forall k :: 0 <= k < |calls| ==> !GrantsIntent(calls[k], chatId)
    ensures NoIntents(RunCalls(t, calls), chatId)
    decreases |calls|
  {
    if calls != [] {
      assert !GrantsIntent(calls[0], chatId);
      RunGrantsNothing(After(t, calls[0]), calls[1..], chatId);
    }
  }

  /** Main result: deleting a room takes its intents along for good: whatever is called after
      that, the room made anew included, while no intent is added to it the room, when on file,
      allows none. */
  lemma {:induction false} DeletedRoomAllowsNothing(t: Tables, chatId: string, calls: seq<Mutation>, cfg: Config, intent: string)
    requires Sound(t) && Trim(chatId) != []
    requires forall k :: 0 <= k < |calls| ==> !GrantsIntent(calls[k], chatId)
    requires Trim(chatId) in RunCalls(After(t, DeleteRoom(chatId)), calls).rooms && cfg.normalize(intent) != []
    ensures !TablesAllow(RunCalls(After(t, DeleteRoom(chatId)), calls), cfg, chatId, intent)
  {
    RunGrantsNothing(After(t, DeleteRoom(chatId)), calls, chatId);
  }
}
