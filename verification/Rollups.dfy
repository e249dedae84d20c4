/** The metrics store: the event log and the rollups rebuilt from it. */
module Rollups {
  import opened Stamps

  datatype Kind =
    | MessageReceived | CommandSucceeded | CommandFailed | AccessDenied | RateLimited | ReplyFailed
    | Activation | RetentionReturn | Other(name: string)

  /** The columns the rollups read. */
  type Time = t: Stamp | Valid(t) witness Stamp(0, 0, 0, 0, 0, 0)

  datatype Event = Event(
    at: Time, kind: Kind, room: string, command: string, source: string, user: string, group: Group)

  datatype Group = Group(audience: string, tenant: string, scope: string, feature: string)

  /** The key of a rollup row. */
  datatype Key = Key(bucket: string, room: string, command: string, source: string)

  function HourKey(e: Event): Key {
    Key(Substr(TimestampString(e.at), 13) + ":00:00Z", e.room, e.command, e.source)
  }

  function DayKey(e: Event): Key {
    Key(Substr(TimestampString(e.at), 10), e.room, e.command, e.source)
  }

  /** What the rows of a table are grouped by. */
  type Grouping = Event -> Key

  /** The day a row belongs to. */
  function DayOf(k: Key): Key {
    k.(bucket := Substr(k.bucket, 10))
  }

  // ---------- one row ----------

  /** SUM(CASE WHEN event_name = kind THEN 1 ELSE 0 END) over the events of the row. */
  function Tally(events: seq<Event>, p: Grouping, k: Key, kind: Kind): nat {
    if events == [] then 0
    else
      var n := |events| - 1;
      Tally(events[..n], p, k, kind) + if p(events[n]) == k && events[n].kind == kind then 1 else 0
  }

  /** The users COUNT(DISTINCT ...) counts: those of the row's events that are not blank. */
  function Users(events: seq<Event>, p: Grouping, k: Key): set<string> {
    if events == [] then {}
    else
      var n := |events| - 1;
      Users(events[..n], p, k) + if p(events[n]) == k && events[n].user != [] then {events[n].user} else {}
  }

  datatype Row = Row(
    key: Key, requests: nat, successes: nat, errors: nat, denied: nat, rateLimited: nat, replyFailed: nat, uniqueUsers: nat)

  function RowOf(events: seq<Event>, p: Grouping, k: Key): Row {
    Row(k,
      Tally(events, p, k, MessageReceived), Tally(events, p, k, CommandSucceeded), Tally(events, p, k, CommandFailed),
      Tally(events, p, k, AccessDenied), Tally(events, p, k, RateLimited), Tally(events, p, k, ReplyFailed),
      |Users(events, p, k)|)
  }

  /** The additive counters. */
  datatype Counter = Requests | Successes | Errors | Denied | Limited | NoReply

  function Read(row: Row, c: Counter): nat {
    match c
    case Requests => row.requests
    case Successes => row.successes
    case Errors => row.errors
    case Denied => row.denied
    case Limited => row.rateLimited
    case NoReply => row.replyFailed
  }

  function KindOf(c: Counter): Kind {
    match c
    case Requests => MessageReceived
    case Successes => CommandSucceeded
    case Errors => CommandFailed
    case Denied => AccessDenied
    case Limited => RateLimited
    case NoReply => ReplyFailed
  }

  // ---------- a table ----------

  function KeysOf(rows: seq<Row>): (r: seq<Key>)
    ensures |r| == |rows| && forall i :: 0 <= i < |rows| ==> r[i] == rows[i].key
  {
    seq(|rows|, i requires 0 <= i < |rows| => rows[i].key)
  }

  ghost predicate Distinct(keys: seq<Key>) {
    forall i, j :: 0 <= i < j < |keys| ==> keys[i] != keys[j]
  }

  /** GROUP BY: one row for each key some event has, in any order. */
  ghost predicate IsRollup(rows: seq<Row>, events: seq<Event>, p: Grouping) {
    && (forall i :: 0 <= i < |rows| ==> rows[i] == RowOf(events, p, rows[i].key))
    && Distinct(KeysOf(rows))
    && (forall k :: k in KeysOf(rows) <==> exists i :: 0 <= i < |events| && p(events[i]) == k)
  }

  // ---------- conservation ----------

  /** `fine` splits the rows of `coarse`: the fine key determines the coarse one. */
  ghost predicate Refines(fine: Grouping, coarse: Grouping, up: Key -> Key) {
    forall e :: up(fine(e)) == coarse(e)
  }

  /** The hour rows split the day rows, and the keys are those of the time's date and hour. */
  lemma {:induction false} HoursRefineDays()
    ensures Refines(HourKey, DayKey, DayOf)
    ensures forall e: Event :: DayKey(e).bucket == DateString(e.at) && HourKey(e).bucket == HourBucketString(e.at)
  {
    forall e: Event ensures DayOf(HourKey(e)) == DayKey(e) && DayKey(e).bucket == DateString(e.at) && HourKey(e).bucket == HourBucketString(e.at) {
      BucketsArePrefixes(e.at);
    }
  }

  /** A counter summed over the rows that belong to a coarser row. */
  function SumOver(rows: seq<Row>, c: Counter, up: Key -> Key, k: Key): nat {
    if rows == [] then 0
    else
      var n := |rows| - 1;
      SumOver(rows[..n], c, up, k) + if up(rows[n].key) == k then Read(rows[n], c) else 0
  }

  function UsersSum(rows: seq<Row>, up: Key -> Key, k: Key): nat {
    if rows == [] then 0
    else
      var n := |rows| - 1;
      UsersSum(rows[..n], up, k) + if up(rows[n].key) == k then rows[n].uniqueUsers else 0
  }

  /** Events of a kind in the rows of those keys that belong to k. */
  function SumOfKeys(keys: seq<Key>, events: seq<Event>, fine: Grouping, up: Key -> Key, k: Key, kind: Kind): nat {
    if keys == [] then 0
    else
      var n := |keys| - 1;
      SumOfKeys(keys[..n], events, fine, up, k, kind) + if up(keys[n]) == k then Tally(events, fine, keys[n], kind) else 0
  }

  lemma {:induction false} SumWithoutEvents(keys: seq<Key>, fine: Grouping, up: Key -> Key, k: Key, kind: Kind)
    ensures SumOfKeys(keys, [], fine, up, k, kind) == 0
  {
    if keys != [] { SumWithoutEvents(keys[..|keys| - 1], fine, up, k, kind); }
  }

  /** One more event adds one to the sum exactly when its fine key is among the keys. */
  lemma {:induction false} SumOneMore(keys: seq<Key>, events: seq<Event>, e: Event, fine: Grouping, up: Key -> Key, k: Key, kind: Kind)
    requires Distinct(keys)
    ensures SumOfKeys(keys, events + [e], fine, up, k, kind)
            == SumOfKeys(keys, events, fine, up, k, kind)
               + if fine(e) in keys && up(fine(e)) == k && e.kind == kind then 1 else 0
  {
    if keys != [] {
      var n := |keys| - 1;
      SumOneMore(keys[..n], events, e, fine, up, k, kind);
      assert (events + [e])[..|events|] == events;
      assert keys == keys[..n] + [keys[n]];
      assert keys[n] !in keys[..n];
    }
  }

  lemma {:induction false} SumIsCoarse(keys: seq<Key>, events: seq<Event>, fine: Grouping, coarse: Grouping, up: Key -> Key, k: Key, kind: Kind)
    requires Refines(fine, coarse, up) && Distinct(keys)
    requires forall i :: 0 <= i < |events| ==> fine(events[i]) in keys
    ensures SumOfKeys(keys, events, fine, up, k, kind) == Tally(events, coarse, k, kind)
    decreases |events|
  {
    if events == [] {
      SumWithoutEvents(keys, fine, up, k, kind);
    } else {
      var n := |events| - 1;
      assert events == events[..n] + [events[n]];
      SumIsCoarse(keys, events[..n], fine, coarse, up, k, kind);
      SumOneMore(keys, events[..n], events[n], fine, up, k, kind);
    }
  }

  lemma {:induction false} SumOfRows(rows: seq<Row>, events: seq<Event>, fine: Grouping, up: Key -> Key, k: Key, c: Counter)
    requires forall i :: 0 <= i < |rows| ==> rows[i] == RowOf(events, fine, rows[i].key)
    ensures SumOver(rows, c, up, k) == SumOfKeys(KeysOf(rows), events, fine, up, k, KindOf(c))
  {
    if rows != [] {
      var n := |rows| - 1;
      SumOfRows(rows[..n], events, fine, up, k, c);
      assert KeysOf(rows)[..n] == KeysOf(rows[..n]);
      ReadIsTally(rows[n], events, fine, c);
    }
  }

  lemma ReadIsTally(row: Row, events: seq<Event>, p: Grouping, c: Counter)
    requires row == RowOf(events, p, row.key)
    ensures Read(row, c) == Tally(events, p, row.key, KindOf(c))
  {}

  lemma FineSumsToCoarse(parts: seq<Row>, row: Row, events: seq<Event>, fine: Grouping, coarse: Grouping, up: Key -> Key, c: Counter)
    requires Refines(fine, coarse, up) && IsRollup(parts, events, fine)
    requires row == RowOf(events, coarse, row.key)
    ensures SumOver(parts, c, up, row.key) == Read(row, c)
  {
    SumOfRows(parts, events, fine, up, row.key, c);
    SumIsCoarse(KeysOf(parts), events, fine, coarse, up, row.key, KindOf(c));
  }

  /** Main result: for every counter, the hourly rows of a day sum to the day's row. */
  lemma HoursSumToDay(hours: seq<Row>, days: seq<Row>, events: seq<Event>, j: nat, c: Counter)
    requires IsRollup(hours, events, HourKey) && IsRollup(days, events, DayKey) && j < |days|
    ensures SumOver(hours, c, DayOf, days[j].key) == Read(days[j], c)
  {
    HoursRefineDays();
    FineSumsToCoarse(hours, days[j], events, HourKey, DayKey, DayOf, c);
  }

  // ---------- unique users ----------

  lemma {:induction false} UsersMembers(events: seq<Event>, p: Grouping, k: Key, user: string)
    ensures user in Users(events, p, k) <==>
              user != [] && exists i :: 0 <= i < |events| && p(events[i]) == k && events[i].user == user
  {
    if events != [] {
      var n := |events| - 1;
      UsersMembers(events[..n], p, k, user);
      assert forall i :: 0 <= i < n ==> events[..n][i] == events[i];
    }
  }

  lemma {:induction false} FineUsersInCoarse(events: seq<Event>, fine: Grouping, coarse: Grouping, up: Key -> Key, k: Key)
    requires Refines(fine, coarse, up)
    ensures Users(events, fine, k) <= Users(events, coarse, up(k))
  {
    forall u | u in Users(events, fine, k) ensures u in Users(events, coarse, up(k)) {
      UsersMembers(events, fine, k, u);
      UsersMembers(events, coarse, up(k), u);
    }
  }

  /** The users of the rows that belong to k together. */
  function UsersOver(keys: seq<Key>, events: seq<Event>, fine: Grouping, up: Key -> Key, k: Key): set<string> {
    if keys == [] then {}
    else
      var n := |keys| - 1;
      UsersOver(keys[..n], events, fine, up, k) + if up(keys[n]) == k then Users(events, fine, keys[n]) else {}
  }

  lemma {:induction false} UnionHas(keys: seq<Key>, events: seq<Event>, fine: Grouping, up: Key -> Key, j: nat)
    requires j < |keys|
    ensures Users(events, fine, keys[j]) <= UsersOver(keys, events, fine, up, up(keys[j]))
  {
    if j < |keys| - 1 { UnionHas(keys[..|keys| - 1], events, fine, up, j); }
  }

  lemma {:induction false} UnionAtMostSum(rows: seq<Row>, events: seq<Event>, fine: Grouping, up: Key -> Key, k: Key)
    requires forall i :: 0 <= i < |rows| ==> rows[i] == RowOf(events, fine, rows[i].key)
    ensures |UsersOver(KeysOf(rows), events, fine, up, k)| <= UsersSum(rows, up, k)
  {
    if rows != [] {
      var n := |rows| - 1;
      UnionAtMostSum(rows[..n], events, fine, up, k);
      assert KeysOf(rows)[..n] == KeysOf(rows[..n]);
      assert rows[n] == RowOf(events, fine, rows[n].key);
      UnionCount(UsersOver(KeysOf(rows[..n]), events, fine, up, k), Users(events, fine, rows[n].key));
    }
  }

  lemma {:induction false} UnionCount(a: set<string>, b: set<string>)
    ensures |a + b| <= |a| + |b|
  {
    assert a + b == a + (b - a);
    SubsetCount(b - a, b);
  }

  lemma CoarseUserInSome(keys: seq<Key>, events: seq<Event>, fine: Grouping, coarse: Grouping, up: Key -> Key, k: Key, u: string)
    requires Refines(fine, coarse, up) && forall i :: 0 <= i < |events| ==> fine(events[i]) in keys
    requires u in Users(events, coarse, k)
    ensures u in UsersOver(keys, events, fine, up, k)
  {
    UsersMembers(events, coarse, k, u);
    var i :| 0 <= i < |events| && coarse(events[i]) == k && events[i].user == u;
    var j :| 0 <= j < |keys| && keys[j] == fine(events[i]);
    UsersMembers(events, fine, keys[j], u);
    UnionHas(keys, events, fine, up, j);
  }

  lemma {:induction false} CoarseUsersInSome(parts: seq<Row>, events: seq<Event>, fine: Grouping, coarse: Grouping, up: Key -> Key, k: Key)
    requires Refines(fine, coarse, up) && IsRollup(parts, events, fine)
    ensures Users(events, coarse, k) <= UsersOver(KeysOf(parts), events, fine, up, k)
  {
    forall u | u in Users(events, coarse, k) ensures u in UsersOver(KeysOf(parts), events, fine, up, k) {
      CoarseUserInSome(KeysOf(parts), events, fine, coarse, up, k, u);
    }
  }

  lemma FineUsersBound(parts: seq<Row>, row: Row, events: seq<Event>, fine: Grouping, coarse: Grouping, up: Key -> Key, i: nat)
    requires Refines(fine, coarse, up) && IsRollup(parts, events, fine)
    requires row == RowOf(events, coarse, row.key) && i < |parts| && up(parts[i].key) == row.key
    ensures parts[i].uniqueUsers <= row.uniqueUsers
  {
    assert parts[i] == RowOf(events, fine, parts[i].key);
    FineUsersInCoarse(events, fine, coarse, up, parts[i].key);
    SubsetCount(Users(events, fine, parts[i].key), Users(events, coarse, row.key));
  }

  lemma FineUsersSum(parts: seq<Row>, row: Row, events: seq<Event>, fine: Grouping, coarse: Grouping, up: Key -> Key)
    requires Refines(fine, coarse, up) && IsRollup(parts, events, fine)
    requires row == RowOf(events, coarse, row.key)
    ensures row.uniqueUsers <= UsersSum(parts, up, row.key)
  {
    CoarseUsersInSome(parts, events, fine, coarse, up, row.key);
    UnionAtMostSum(parts, events, fine, up, row.key);
    SubsetCount(Users(events, coarse, row.key), UsersOver(KeysOf(parts), events, fine, up, row.key));
  }

  /** Main result: a day's unique users are at least those of each of its hours and at most
      their sum. */
  lemma {:induction false} UniqueUsersBetween(hours: seq<Row>, days: seq<Row>, events: seq<Event>, i: nat, j: nat)
    requires IsRollup(hours, events, HourKey) && IsRollup(days, events, DayKey)
    requires i < |hours| && j < |days| && DayOf(hours[i].key) == days[j].key
    ensures hours[i].uniqueUsers <= days[j].uniqueUsers <= UsersSum(hours, DayOf, days[j].key)
  {
    HoursRefineDays();
    FineUsersBound(hours, days[j], events, HourKey, DayKey, DayOf, i);
    FineUsersSum(hours, days[j], events, HourKey, DayKey, DayOf);
  }

  lemma SubsetCount<T>(part: set<T>, whole: set<T>)
    requires part <= whole
    ensures |part| <= |whole|
  {
    assert whole == part + (whole - part);
  }
}
