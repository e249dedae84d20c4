/** The numbers in the rollup and retention rows, as counts of events and users in time. */
module RollupCounts {
  import opened Stamps
  import opened Rollups
  import opened Retention

  // ---------- which events share a row ----------

  predicate SameHour(s: Stamp, t: Stamp) {
    SameDate(s, t) && s.hour == t.hour
  }

  predicate SameSource(e: Event, f: Event) {
    e.room == f.room && e.command == f.command && e.source == f.source
  }

  lemma HourBucketIff(s: Stamp, t: Stamp)
    requires Stamps.Valid(s) && Stamps.Valid(t)
    ensures HourBucketString(s) == HourBucketString(t) <==> SameHour(s, t)
  {
    if HourBucketString(s) == HourBucketString(t) {
      NotLess(HourBucketString(s));
      HourBucketOrder(s, t);
      HourBucketOrder(t, s);
    }
  }

  /** Two events share an hourly row exactly when they are of one hour, room, command and source, and
      a daily one when they are of one day. */
  lemma SharesRowIff(e: Event, f: Event)
    ensures HourKey(e) == HourKey(f) <==> SameHour(e.at, f.at) && SameSource(e, f)
    ensures DayKey(e) == DayKey(f) <==> SameDate(e.at, f.at) && SameSource(e, f)
  {
    BucketsArePrefixes(e.at);
    BucketsArePrefixes(f.at);
    HourBucketIff(e.at, f.at);
    DateOrder(e.at, f.at);
  }

  // ---------- what a row counts ----------

  /** The events of a kind that `same` puts together with e. */
  function Among(events: seq<Event>, same: (Event, Event) -> bool, e: Event, kind: Kind): set<nat> {
    set j: nat | j < |events| && same(events[j], e) && events[j].kind == kind
  }

  /** The users, blank ones apart, of the events that `same` puts together with e. */
  function UsersAmong(events: seq<Event>, same: (Event, Event) -> bool, e: Event): set<string> {
    set j: nat | j < |events| && same(events[j], e) && events[j].user != "" :: events[j].user
  }

  lemma AmongFront(front: seq<Event>, last: Event, same: (Event, Event) -> bool, e: Event, kind: Kind, j: nat)
    requires j <= |front|
    ensures j in Among(front + [last], same, e, kind)
       <==> if j < |front| then j in Among(front, same, e, kind) else same(last, e) && last.kind == kind
  {}

  lemma AmongOneMore(front: seq<Event>, last: Event, same: (Event, Event) -> bool, e: Event, kind: Kind)
    ensures |Among(front + [last], same, e, kind)|
         == |Among(front, same, e, kind)| + if same(last, e) && last.kind == kind then 1 else 0
  {
    var before, after := Among(front, same, e, kind), Among(front + [last], same, e, kind);
    var more: set<nat> := if same(last, e) && last.kind == kind then {|front|} else {};
    forall j: nat ensures j in after <==> j in before + more {
      if j <= |front| { AmongFront(front, last, same, e, kind, j); }
    }
    assert after == before + more;
  }

  lemma {:induction false} TallyCounts(events: seq<Event>, p: Grouping, same: (Event, Event) -> bool, e: Event, kind: Kind)
    requires forall f :: p(f) == p(e) <==> same(f, e)
    ensures Tally(events, p, p(e), kind) == |Among(events, same, e, kind)|
  {
    if events == [] {
      assert Among(events, same, e, kind) == {};
    } else {
      var n := |events| - 1;
      TallyCounts(events[..n], p, same, e, kind);
      AmongOneMore(events[..n], events[n], same, e, kind);
      assert events[..n] + [events[n]] == events;
    }
  }

  lemma UsersAre(events: seq<Event>, p: Grouping, same: (Event, Event) -> bool, e: Event)
    requires forall f :: p(f) == p(e) <==> same(f, e)
    ensures Users(events, p, p(e)) == UsersAmong(events, same, e)
  {
    forall u ensures u in Users(events, p, p(e)) <==> u in UsersAmong(events, same, e) {
      UsersMembers(events, p, p(e), u);
    }
  }

  /** Each counter of the row is the number of events of its kind, and the users are counted once. */
  ghost predicate Counts(row: Row, events: seq<Event>, same: (Event, Event) -> bool, e: Event) {
    && row.requests == |Among(events, same, e, MessageReceived)|
    && row.successes == |Among(events, same, e, CommandSucceeded)|
    && row.errors == |Among(events, same, e, CommandFailed)|
    && row.denied == |Among(events, same, e, AccessDenied)|
    && row.rateLimited == |Among(events, same, e, RateLimited)|
    && row.replyFailed == |Among(events, same, e, ReplyFailed)|
    && row.uniqueUsers == |UsersAmong(events, same, e)|
  }

  lemma RowCounts(row: Row, events: seq<Event>, p: Grouping, same: (Event, Event) -> bool, e: Event)
    requires row == RowOf(events, p, p(e)) && forall f :: p(f) == p(e) <==> same(f, e)
    ensures Counts(row, events, same, e)
  {
    TallyCounts(events, p, same, e, MessageReceived);
    TallyCounts(events, p, same, e, CommandSucceeded);
    TallyCounts(events, p, same, e, CommandFailed);
    TallyCounts(events, p, same, e, AccessDenied);
    TallyCounts(events, p, same, e, RateLimited);
    TallyCounts(events, p, same, e, ReplyFailed);
    UsersAre(events, p, same, e);
  }

  /** Main result: the hourly row of an event counts the events of its hour, room, command and source,
      by kind, and their users once; and every event of the log has its row. */
  lemma HourlyRowCounts(rows: seq<Row>, events: seq<Event>, e: Event)
    requires IsRollup(rows, events, HourKey) && e in events
    ensures exists i :: 0 <= i < |rows| && rows[i].key == HourKey(e)
              && Counts(rows[i], events, (f: Event, g: Event) => SameHour(f.at, g.at) && SameSource(f, g), e)
  {
    forall f: Event ensures HourKey(f) == HourKey(e) <==> SameHour(f.at, e.at) && SameSource(f, e) { SharesRowIff(f, e); }
    var i := RowFor(rows, events, HourKey, e);
    RowCounts(rows[i], events, HourKey, (f: Event, g: Event) => SameHour(f.at, g.at) && SameSource(f, g), e);
  }

  /** So does the daily one for its day. */
  lemma DailyRowCounts(rows: seq<Row>, events: seq<Event>, e: Event)
    requires IsRollup(rows, events, DayKey) && e in events
    ensures exists i :: 0 <= i < |rows| && rows[i].key == DayKey(e)
              && Counts(rows[i], events, (f: Event, g: Event) => SameDate(f.at, g.at) && SameSource(f, g), e)
  {
    forall f: Event ensures DayKey(f) == DayKey(e) <==> SameDate(f.at, e.at) && SameSource(f, e) { SharesRowIff(f, e); }
    var i := RowFor(rows, events, DayKey, e);
    RowCounts(rows[i], events, DayKey, (f: Event, g: Event) => SameDate(f.at, g.at) && SameSource(f, g), e);
  }

  lemma RowFor(rows: seq<Row>, events: seq<Event>, p: Grouping, e: Event) returns (i: nat)
    requires IsRollup(rows, events, p) && e in events
    ensures i < |rows| && rows[i].key == p(e) && rows[i] == RowOf(events, p, p(e))
  {
    var j :| 0 <= j < |events| && events[j] == e;
    assert p(events[j]) in KeysOf(rows);
    i :| 0 <= i < |rows| && KeysOf(rows)[i] == p(e);
  }

  // ---------- retention ----------

  /** The user's first activation in the group, by date, is of the day of `first`. */
  ghost predicate FirstActivated(events: seq<Event>, user: string, g: Group, first: Stamp) {
    && user != ""
    && (exists e :: e in events && Activates(e, user, g) && SameDate(e.at, first))
    && (forall e :: e in events && Activates(e, user, g) ==> !DateBefore(e.at, first))
  }

  lemma CohortIff(events: seq<Event>, g: Group, first: Time, user: string)
    ensures user in Cohort(events, g, DateString(first)) <==> FirstActivated(events, user, g, first)
  {
    var i := FirstDayIsEarliest(events, user, g);
    if i >= 0 { DateOrder(events[i].at, first); }
    if user in Activated(events, g) {
      var e :| e in events && e.kind == Activation && e.user != [] && e.group == g && e.user == user;
      assert Activates(e, user, g);
    }
  }

  ghost predicate CameBack(events: seq<Event>, user: string, day: Stamp) {
    exists e :: e in events && e.kind == RetentionReturn && e.user == user && SameDate(e.at, day)
  }

  /** Main result: a user is retained on a day exactly when the first activation in the group is of the
      cohort's day, the day is not before it, and the user came back on that day. */
  lemma RetainedIff(events: seq<Event>, g: Group, first: Time, day: Time, user: string)
    ensures user in Retained(events, g, DateString(first), DateString(day))
       <==> FirstActivated(events, user, g, first) && !DateBefore(day, first) && CameBack(events, user, day)
  {
    CohortIff(events, g, first, user);
    DateOrder(day, first);
    forall e | e in events ensures Returns(e, user, DateString(day)) <==> e.kind == RetentionReturn && e.user == user && SameDate(e.at, day) {
      DateOrder(e.at, day);
    }
  }

  lemma RowIsRetained(events: seq<Event>, row: RetentionRow)
    requires row in RetentionRows(events)
    ensures row == Retention.RowFor(events, row.group, row.cohort, row.day)
    ensures Retained(events, row.group, row.cohort, row.day) != {}
  {
    var a, r :| a in events && r in events && Joined(events, a, r)
      && row == Retention.RowFor(events, a.group, FirstDay(events, a.user, a.group), DateString(r.at));
    JoinedIsRetained(events, a, r);
  }

  lemma RetainedHasRow(events: seq<Event>, g: Group, cohort: string, day: string, u: string)
    requires u in Retained(events, g, cohort, day)
    ensures Retention.RowFor(events, g, cohort, day) in RetentionRows(events)
  {
    var a :| a in events && a.kind == Activation && a.user != [] && a.group == g && a.user == u;
    var r :| r in events && Returns(r, u, day);
    assert Joined(events, a, r);
  }

  /** Main result: there is a retention row for a group, cohort and day exactly when somebody was retained
      then; it is one row, with the size of the cohort and the number retained. */
  lemma RetentionRowIff(events: seq<Event>, g: Group, cohort: string, day: string)
    ensures (exists row :: row in RetentionRows(events) && row.group == g && row.cohort == cohort && row.day == day)
       <==> Retained(events, g, cohort, day) != {}
    ensures forall row :: row in RetentionRows(events) && row.group == g && row.cohort == cohort && row.day == day ==>
              row.cohortSize == |Cohort(events, g, cohort)| && row.retainedUsers == |Retained(events, g, cohort, day)|
  {
    forall row | row in RetentionRows(events)
      ensures row == Retention.RowFor(events, row.group, row.cohort, row.day)
      ensures Retained(events, row.group, row.cohort, row.day) != {}
    {
      RowIsRetained(events, row);
    }
    if u :| u in Retained(events, g, cohort, day) {
      RetainedHasRow(events, g, cohort, day, u);
    }
  }
}
