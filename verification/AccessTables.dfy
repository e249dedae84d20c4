/** The ACL tables: rooms, their intents, admin rooms and users, and the audit log. */
module AccessTables {
  import opened Options
  import opened Text

  /** acl_rooms (chat to alias), acl_room_intents, acl_admin_rooms, acl_admin_users. */
  datatype Tables = Tables(
    rooms: map<string, string>,
    intents: set<(string, string)>,
    adminRooms: set<string>,
    adminUsers: set<string>)

  datatype Mutation =
    | UpsertRoom(chatId: string, alias: string)
    | DeleteRoom(chatId: string)
    | AddIntent(chatId: string, intentId: string)
    | RemoveIntent(chatId: string, intentId: string)
    | AddAdminRoom(chatId: string)
    | RemoveAdminRoom(chatId: string)
    | AddAdminUser(userId: string)
    | RemoveAdminUser(userId: string)

  /** What a store call did: an error of the database, or whether a row changed. */
  datatype Effect = Failed | Did(changed: bool, tables: Tables)

  /** Intents belong to rooms on file, and everything stored is trimmed and not blank. */
  ghost predicate Sound(t: Tables) {
    && (forall p :: p in t.intents ==> p.0 in t.rooms)
    && (forall c :: c in t.rooms ==> IsId(c))
    && (forall p :: p in t.intents ==> IsId(p.1))
    && (forall c :: c in t.adminRooms ==> IsId(c))
    && (forall u :: u in t.adminUsers ==> IsId(u))
  }

  predicate IsId(s: string) {
    s != [] && Trim(s) == s
  }

  const EMPTY := Tables(map[], {}, {}, {})

  function Change(t: Tables, m: Mutation): Effect {
    match m
    case UpsertRoom(c, alias) =>
      if Trim(c) == [] then Did(false, t)
      else Did(true, t.(rooms := t.rooms[Trim(c) := Trim(alias)]))
    case DeleteRoom(c) =>
      if Trim(c) == [] || Trim(c) !in t.rooms then Did(false, t)
      else Did(true, t.(rooms := t.rooms - {Trim(c)}, intents := OfOtherRooms(t.intents, Trim(c))))
    case AddIntent(c, i) =>
      if Trim(c) == [] || Trim(i) == [] || (Trim(c), Trim(i)) in t.intents then Did(false, t)
      else if Trim(c) !in t.rooms then Failed
      else Did(true, t.(intents := t.intents + {(Trim(c), Trim(i))}))
    case RemoveIntent(c, i) =>
      if Trim(c) == [] || Trim(i) == [] || (Trim(c), Trim(i)) !in t.intents then Did(false, t)
      else Did(true, t.(intents := t.intents - {(Trim(c), Trim(i))}))
    case AddAdminRoom(c) =>
      if Trim(c) == [] || Trim(c) in t.adminRooms then Did(false, t)
      else Did(true, t.(adminRooms := t.adminRooms + {Trim(c)}))
    case RemoveAdminRoom(c) =>
      if Trim(c) == [] || Trim(c) !in t.adminRooms then Did(false, t)
      else Did(true, t.(adminRooms := t.adminRooms - {Trim(c)}))
    case AddAdminUser(u) =>
      if Trim(u) == [] || Trim(u) in t.adminUsers then Did(false, t)
      else Did(true, t.(adminUsers := t.adminUsers + {Trim(u)}))
    case RemoveAdminUser(u) =>
      if Trim(u) == [] || Trim(u) !in t.adminUsers then Did(false, t)
      else Did(true, t.(adminUsers := t.adminUsers - {Trim(u)}))
  }

  /** ON DELETE CASCADE. */
  function OfOtherRooms(intents: set<(string, string)>, chatId: string): set<(string, string)> {
    set p | p in intents && p.0 != chatId
  }

  lemma ChangeKeepsSound(t: Tables, m: Mutation)
    requires Sound(t) && Change(t, m).Did?
    ensures Sound(Change(t, m).tables)
  {
    match m
    case UpsertRoom(c, _) => TrimTwice(c);
    case AddIntent(c, i) => TrimTwice(i);
    case AddAdminRoom(c) => TrimTwice(c);
    case AddAdminUser(u) => TrimTwice(u);
    case _ =>
  }

  /** A call that reports no change left the tables as they were. */
  lemma {:induction false} UnchangedMeansSame(t: Tables, m: Mutation)
    requires Change(t, m).Did? && !Change(t, m).changed
    ensures Change(t, m).tables == t
  {
  }

  /** A call that reports a change made one, but for an upsert of a room as it is. */
  lemma {:induction false} ChangedIffDifferent(t: Tables, m: Mutation)
    requires Change(t, m).Did?
    ensures Change(t, m).changed && Change(t, m).tables == t <==>
              m.UpsertRoom? && Trim(m.chatId) in t.rooms && Trim(m.chatId) != [] && t.rooms[Trim(m.chatId)] == Trim(m.alias)
  {
    var after := Change(t, m).tables;
    match m
    case UpsertRoom(c, alias) =>
      if Trim(c) != [] && after == t {
        assert Trim(c) in after.rooms && after.rooms[Trim(c)] == Trim(alias);
      }
      if Trim(c) in t.rooms && t.rooms[Trim(c)] == Trim(alias) {
        assert t.rooms[Trim(c) := Trim(alias)] == t.rooms;
      }
    case DeleteRoom(c) =>
      if Change(t, m).changed { assert Trim(c) !in after.rooms; }
    case AddIntent(c, i) =>
      if Change(t, m).changed { assert (Trim(c), Trim(i)) in after.intents; }
    case RemoveIntent(c, i) =>
      if Change(t, m).changed { assert (Trim(c), Trim(i)) !in after.intents; }
    case AddAdminRoom(c) =>
      if Change(t, m).changed { assert Trim(c) in after.adminRooms; }
    case RemoveAdminRoom(c) =>
      if Change(t, m).changed { assert Trim(c) !in after.adminRooms; }
    case AddAdminUser(u) =>
      if Change(t, m).changed { assert Trim(u) in after.adminUsers; }
    case RemoveAdminUser(u) =>
      if Change(t, m).changed { assert Trim(u) !in after.adminUsers; }
  }

  /** Main result: what a mutation does to each row of each table: it adds or renames its own room, adds
      or removes its own intent, admin room or admin user, takes a deleted room's intents along, and
      leaves every other row alone. */
  lemma {:induction false} ChangeRowByRow(t: Tables, m: Mutation, c: string, i: string)
    requires Sound(t) && Change(t, m).Did?
    ensures var r := Change(t, m).tables;
            && (c in r.rooms <==>
                  (c in t.rooms && !(m.DeleteRoom? && Trim(m.chatId) == c)) || (m.UpsertRoom? && Trim(m.chatId) == c != ""))
            && (c in r.rooms ==>
                  r.rooms[c] == if m.UpsertRoom? && Trim(m.chatId) == c then Trim(m.alias) else t.rooms[c])
            && ((c, i) in r.intents <==>
                  || ((c, i) in t.intents
                      && !(m.DeleteRoom? && Trim(m.chatId) == c)
                      && !(m.RemoveIntent? && Trim(m.chatId) == c && Trim(m.intentId) == i))
                  || (m.AddIntent? && Trim(m.chatId) == c != "" && Trim(m.intentId) == i != ""))
            && (c in r.adminRooms <==>
                  (c in t.adminRooms && !(m.RemoveAdminRoom? && Trim(m.chatId) == c)) || (m.AddAdminRoom? && Trim(m.chatId) == c != ""))
            && (c in r.adminUsers <==>
                  (c in t.adminUsers && !(m.RemoveAdminUser? && Trim(m.userId) == c)) || (m.AddAdminUser? && Trim(m.userId) == c != ""))
  {
    if (c, i) in t.intents { assert (c, i).0 in t.rooms && IsId((c, i).1); }
  }

  /** The database refuses exactly a new intent for a room that is not on file. */
  lemma {:induction false} FailsIff(t: Tables, m: Mutation)
    requires Sound(t)
    ensures Change(t, m).Failed? <==>
              m.AddIntent? && Trim(m.chatId) != "" && Trim(m.intentId) != "" && Trim(m.chatId) !in t.rooms
  {
    if m.AddIntent? && (Trim(m.chatId), Trim(m.intentId)) in t.intents {
      assert (Trim(m.chatId), Trim(m.intentId)).0 in t.rooms;
    }
  }

  // ---------- seeding ----------

  datatype RoomConfig = RoomConfig(chatId: string, alias: string, allowIntents: seq<string>)

  datatype Bootstrap = Bootstrap(rooms: seq<RoomConfig>, adminRoomChatId: string, adminUserId: string)

  predicate NothingStored(t: Tables) {
    t.rooms == map[] && t.adminRooms == {} && t.adminUsers == {}
  }

  /** None when an intent is listed twice. */
  function SeedIntents(t: Tables, chatId: string, intents: seq<string>): Option<Tables>
    decreases |intents|
  {
    if intents == [] then Some(t)
    else if Trim(intents[0]) == [] then SeedIntents(t, chatId, intents[1..])
    else if (chatId, Trim(intents[0])) in t.intents then None
    else SeedIntents(t.(intents := t.intents + {(chatId, Trim(intents[0]))}), chatId, intents[1..])
  }

  /** None when the room is listed twice. */
  function SeedRoom(t: Tables, room: RoomConfig): Option<Tables> {
    if Trim(room.chatId) == [] then Some(t)
    else if Trim(room.chatId) in t.rooms then None
    else SeedIntents(t.(rooms := t.rooms[Trim(room.chatId) := Trim(room.alias)]), Trim(room.chatId), room.allowIntents)
  }

  function SeedRooms(t: Tables, rooms: seq<RoomConfig>): Option<Tables>
    decreases |rooms|
  {
    if rooms == [] then Some(t)
    else
      var seeded := SeedRoom(t, rooms[0]);
      if seeded == None then None else SeedRooms(seeded.value, rooms[1..])
  }

  function Principals(t: Tables, b: Bootstrap): Tables {
    t.(adminRooms := t.adminRooms + Ids(b.adminRoomChatId), adminUsers := t.adminUsers + Ids(b.adminUserId))
  }

  function Ids(id: string): set<string> {
    if Trim(id) == [] then {} else {Trim(id)}
  }

  /** SeedBootstrap: only an empty store is seeded, and on a duplicate nothing is. */
  function Seed(t: Tables, b: Bootstrap): Option<Tables> {
    if !NothingStored(t) then Some(t)
    else
      var seeded := SeedRooms(t, b.rooms);
      if seeded == None then None else Some(Principals(seeded.value, b))
  }

  /** Bootstrap: seeding, and then the configured principals whatever was stored. */
  function Boot(t: Tables, b: Bootstrap): Option<Tables> {
    var seeded := Seed(t, b);
    if seeded == None then None else Some(Principals(seeded.value, b))
  }

  // ---------- what seeding means ----------

  /** No two of the ids, trimmed, are the same but for blank ones. */
  predicate NoDuplicates(ids: seq<string>) {
    forall i, j :: 0 <= i < j < |ids| && Trim(ids[i]) == Trim(ids[j]) ==> Trim(ids[i]) == []
  }

  /** The intents the configuration gives a room. */
  function Listed(chatId: string, ids: seq<string>): set<(string, string)> {
    set i | i in ids && Trim(i) != [] :: (chatId, Trim(i))
  }

  lemma {:induction false} SeedIntentsMeaning(t: Tables, chatId: string, ids: seq<string>)
    ensures SeedIntents(t, chatId, ids).Some? <==> NoDuplicates(ids) && Listed(chatId, ids) !! t.intents
    ensures SeedIntents(t, chatId, ids).Some? ==>
              SeedIntents(t, chatId, ids).value == t.(intents := t.intents + Listed(chatId, ids))
    decreases |ids|
  {
    if ids == [] {
      assert t.intents + {} == t.intents;
    } else {
      var head, rest := ids[0], ids[1..];
      assert ids == [head] + rest;
      var first := if Trim(head) == [] then {} else {(chatId, Trim(head))};
      assert Listed(chatId, ids) == first + Listed(chatId, rest);
      DuplicateHead(chatId, ids);
      if Trim(head) == [] {
        SeedIntentsMeaning(t, chatId, rest);
      } else if (chatId, Trim(head)) !in t.intents {
        var next := t.(intents := t.intents + first);
        SeedIntentsMeaning(next, chatId, rest);
        assert next.intents + Listed(chatId, rest) == t.intents + Listed(chatId, ids);
        assert next.(intents := next.intents + Listed(chatId, rest)) == t.(intents := t.intents + Listed(chatId, ids));
      }
    }
  }

  lemma {:induction false} ListedIff(chatId: string, ids: seq<string>, id: string)
    ensures (chatId, id) in Listed(chatId, ids) <==> id != [] && exists k :: 0 <= k < |ids| && Trim(ids[k]) == id
  {
    forall k | 0 <= k < |ids| && Trim(ids[k]) == id != [] ensures (chatId, id) in Listed(chatId, ids) {
      assert ids[k] in ids;
    }
  }

  lemma {:induction false} DuplicateHead(chatId: string, ids: seq<string>)
    requires ids != []
    ensures NoDuplicates(ids) <==>
              NoDuplicates(ids[1..]) && (Trim(ids[0]) == [] || (chatId, Trim(ids[0])) !in Listed(chatId, ids[1..]))
  {
    var rest := ids[1..];
    ListedIff(chatId, rest, Trim(ids[0]));
    assert forall k :: 1 <= k < |ids| ==> ids[k] == rest[k - 1];
    assert forall k :: 0 <= k < |rest| ==> rest[k] == ids[k + 1];
  }

  predicate GoodConfig(room: RoomConfig) {
    Trim(room.chatId) != [] ==> NoDuplicates(room.allowIntents)
  }

  predicate SameRoom(a: RoomConfig, b: RoomConfig) {
    Trim(a.chatId) == Trim(b.chatId) != []
  }

  /** Each room is listed once, and each intent once in it. */
  ghost predicate GoodConfigs(rooms: seq<RoomConfig>) {
    && (forall i :: 0 <= i < |rooms| ==> GoodConfig(rooms[i]))
    && (forall i, j :: 0 <= i < j < |rooms| ==> !SameRoom(rooms[i], rooms[j]))
  }

  ghost predicate NewRooms(t: Tables, rooms: seq<RoomConfig>) {
    forall i :: 0 <= i < |rooms| ==> Trim(rooms[i].chatId) !in t.rooms
  }

  ghost predicate IntentsHaveRooms(t: Tables) {
    forall p :: p in t.intents ==> p.0 in t.rooms
  }

  lemma SeedRoomMeaning(t: Tables, room: RoomConfig)
    requires IntentsHaveRooms(t)
    ensures SeedRoom(t, room).Some? <==> GoodConfig(room) && (Trim(room.chatId) == [] || Trim(room.chatId) !in t.rooms)
    ensures SeedRoom(t, room).Some? ==>
              && IntentsHaveRooms(SeedRoom(t, room).value)
              && SeedRoom(t, room).value.rooms == (if Trim(room.chatId) == [] then t.rooms else t.rooms[Trim(room.chatId) := Trim(room.alias)])
              && SeedRoom(t, room).value.intents
                 == t.intents + (if Trim(room.chatId) == [] then {} else Listed(Trim(room.chatId), room.allowIntents))
  {
    if Trim(room.chatId) != [] && Trim(room.chatId) !in t.rooms {
      SeedIntentsMeaning(t.(rooms := t.rooms[Trim(room.chatId) := Trim(room.alias)]), Trim(room.chatId), room.allowIntents);
    }
  }

  lemma GoodHead(t: Tables, rooms: seq<RoomConfig>)
    requires rooms != [] && SeedRoom(t, rooms[0]).Some? && IntentsHaveRooms(t)
    requires Trim([]) == [] && [] !in t.rooms
    ensures GoodConfigs(rooms) && NewRooms(t, rooms) <==> GoodConfigs(rooms[1..]) && NewRooms(SeedRoom(t, rooms[0]).value, rooms[1..])
  {
    SeedRoomMeaning(t, rooms[0]);
    var rest, next := rooms[1..], SeedRoom(t, rooms[0]).value;
    assert forall k :: 1 <= k < |rooms| ==> rooms[k] == rest[k - 1];
    assert forall k :: 0 <= k < |rest| ==> rest[k] == rooms[k + 1];
    if GoodConfigs(rooms) && NewRooms(t, rooms) {
      forall k | 0 <= k < |rest| ensures Trim(rest[k].chatId) !in next.rooms {
        assert !SameRoom(rooms[0], rooms[k + 1]);
      }
    }
    if GoodConfigs(rest) && NewRooms(next, rest) {
      forall i, j | 0 <= i < j < |rooms| ensures !SameRoom(rooms[i], rooms[j]) {
        if i == 0 {
          assert Trim(rest[j - 1].chatId) !in next.rooms;
        } else {
          assert !SameRoom(rest[i - 1], rest[j - 1]);
        }
      }
    }
  }

  /** Seeding works exactly when rooms and their intents are listed once. */
  lemma {:induction false} SeedIffNoDuplicates(t: Tables, rooms: seq<RoomConfig>)
    requires IntentsHaveRooms(t) && [] !in t.rooms
    ensures SeedRooms(t, rooms).Some? <==> GoodConfigs(rooms) && NewRooms(t, rooms)
    decreases |rooms|
  {
    if rooms != [] {
      SeedRoomMeaning(t, rooms[0]);
      if SeedRoom(t, rooms[0]).Some? {
        GoodHead(t, rooms);
        SeedIffNoDuplicates(SeedRoom(t, rooms[0]).value, rooms[1..]);
      }
    }
  }

  predicate Grants(room: RoomConfig, chatId: string, intent: string) {
    Trim(room.chatId) == chatId != [] && (chatId, intent) in Listed(chatId, room.allowIntents)
  }

  ghost predicate AnyGrants(rooms: seq<RoomConfig>, chatId: string, intent: string) {
    exists k :: 0 <= k < |rooms| && Grants(rooms[k], chatId, intent)
  }

  lemma AnyGrantsHead(rooms: seq<RoomConfig>, chatId: string, intent: string)
    requires rooms != []
    ensures AnyGrants(rooms, chatId, intent) <==> Grants(rooms[0], chatId, intent) || AnyGrants(rooms[1..], chatId, intent)
  {
    var rest := rooms[1..];
    if k :| 0 <= k < |rest| && Grants(rest[k], chatId, intent) {
      assert Grants(rooms[k + 1], chatId, intent);
    }
    if k :| 0 <= k < |rooms| && Grants(rooms[k], chatId, intent) {
      assert k > 0 ==> Grants(rest[k - 1], chatId, intent);
    }
  }

  /** Exactly what some configured room grants is added to the intents. */
  lemma {:induction false} SeededContents(t: Tables, rooms: seq<RoomConfig>, chatId: string, intent: string)
    requires IntentsHaveRooms(t) && SeedRooms(t, rooms).Some?
    ensures (chatId, intent) in SeedRooms(t, rooms).value.intents <==>
              (chatId, intent) in t.intents || AnyGrants(rooms, chatId, intent)
    decreases |rooms|
  {
    if rooms != [] {
      SeedRoomMeaning(t, rooms[0]);
      AnyGrantsHead(rooms, chatId, intent);
      SeededContents(SeedRoom(t, rooms[0]).value, rooms[1..], chatId, intent);
    }
  }

  /** No room goes, and each configured one that is not blank is there. */
  lemma {:induction false} SeededRooms(t: Tables, rooms: seq<RoomConfig>, k: nat)
    requires IntentsHaveRooms(t) && SeedRooms(t, rooms).Some? && k < |rooms|
    ensures t.rooms.Keys <= SeedRooms(t, rooms).value.rooms.Keys
    ensures Trim(rooms[k].chatId) == [] || Trim(rooms[k].chatId) in SeedRooms(t, rooms).value.rooms
    decreases |rooms|
  {
    SeedRoomMeaning(t, rooms[0]);
    if |rooms| > 1 {
      SeededRooms(SeedRoom(t, rooms[0]).value, rooms[1..], if k == 0 then 0 else k - 1);
    }
  }

  /** Main result: startup fails exactly when the store is empty and the configuration lists a
      room twice or an intent twice in a room; and an empty store then holds exactly the
      configured rooms and intents. */
  lemma BootFailsIffDuplicates(t: Tables, b: Bootstrap)
    requires Sound(t)
    ensures Boot(t, b) == None <==> NothingStored(t) && !GoodConfigs(b.rooms)
    ensures NothingStored(t) && GoodConfigs(b.rooms) ==>
              forall c, i :: (c, i) in Boot(t, b).value.intents <==> AnyGrants(b.rooms, c, i)
  {
    if NothingStored(t) {
      SeedIffNoDuplicates(t, b.rooms);
      if GoodConfigs(b.rooms) {
        forall c, i
          ensures (c, i) in Boot(t, b).value.intents <==> AnyGrants(b.rooms, c, i)
        {
          SeededContents(t, b.rooms, c, i);
        }
      }
    }
  }

  /** Starting again changes nothing. */
  lemma BootTwice(t: Tables, b: Bootstrap)
    requires Sound(t) && Boot(t, b).Some?
    ensures Boot(Boot(t, b).value, b) == Boot(t, b)
  {
    var once := Boot(t, b).value;
    assert Principals(once, b) == once;
    if NothingStored(once) {
      assert NothingStored(t);
      SeedIffNoDuplicates(t, b.rooms);
      forall k | 0 <= k < |b.rooms| ensures Trim(b.rooms[k].chatId) == [] {
        SeededRooms(t, b.rooms, k);
      }
      SeedBlank(once, b.rooms);
    }
  }

  lemma {:induction false} SeedBlank(t: Tables, rooms: seq<RoomConfig>)
    requires forall k :: 0 <= k < |rooms| ==> Trim(rooms[k].chatId) == []
    ensures SeedRooms(t, rooms) == Some(t)
    decreases |rooms|
  {
    if rooms != [] {
      SeedBlank(t, rooms[1..]);
    }
  }

  lemma {:induction false} SeedIntentsSound(t: Tables, chatId: string, ids: seq<string>)
    requires Sound(t) && chatId in t.rooms && SeedIntents(t, chatId, ids).Some?
    ensures Sound(SeedIntents(t, chatId, ids).value)
    decreases |ids|
  {
    if ids != [] {
      TrimTwice(ids[0]);
      var next := if Trim(ids[0]) == [] then t else t.(intents := t.intents + {(chatId, Trim(ids[0]))});
      SeedIntentsSound(next, chatId, ids[1..]);
    }
  }

  lemma {:induction false} SeedRoomsSound(t: Tables, rooms: seq<RoomConfig>)
    requires Sound(t) && SeedRooms(t, rooms).Some?
    ensures Sound(SeedRooms(t, rooms).value)
    decreases |rooms|
  {
    if rooms != [] {
      var room := rooms[0];
      TrimTwice(room.chatId);
      if Trim(room.chatId) != [] {
        SeedIntentsSound(t.(rooms := t.rooms[Trim(room.chatId) := Trim(room.alias)]), Trim(room.chatId), room.allowIntents);
      }
      SeedRoomsSound(SeedRoom(t, room).value, rooms[1..]);
    }
  }

  lemma {:induction false} BootKeepsSound(t: Tables, b: Bootstrap)
    requires Sound(t) && Boot(t, b).Some?
    ensures Sound(Boot(t, b).value)
  {
    if NothingStored(t) { SeedRoomsSound(t, b.rooms); }
    TrimTwice(b.adminRoomChatId);
    TrimTwice(b.adminUserId);
  }
}
