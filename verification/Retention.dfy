/** Retention: activation cohorts and the users of them who came back, and the store's methods. */
module Retention {
  import opened Stamps
  import opened Rollups

  predicate Activates(e: Event, user: string, g: Group) {
    e.kind == Activation && e.user == user != [] && e.group == g
  }

  /** MIN(substr(occurred_at, 1, 10)) over the user's activations in the group, "" without any. */
  function FirstDay(events: seq<Event>, user: string, g: Group): string {
    if events == [] then ""
    else
      var n := |events| - 1;
      var before := FirstDay(events[..n], user, g);
      var day := DateString(events[n].at);
      if Activates(events[n], user, g) && (before == "" || Less(day, before)) then day else before
  }

  function Activated(events: seq<Event>, g: Group): set<string> {
    set e | e in events && e.kind == Activation && e.user != [] && e.group == g :: e.user
  }

  /** The users first activated in the group on that day. */
  function Cohort(events: seq<Event>, g: Group, day: string): set<string> {
    set u | u in Activated(events, g) && FirstDay(events, u, g) == day
  }

  predicate Returns(e: Event, user: string, day: string) {
    e.kind == RetentionReturn && e.user == user && DateString(e.at) == day
  }

  /** Those of a cohort with a return on a day that is not before the cohort's. */
  function Retained(events: seq<Event>, g: Group, cohort: string, day: string): set<string> {
    set u | u in Cohort(events, g, cohort) && !Less(day, cohort) && exists e :: e in events && Returns(e, u, day)
  }

  datatype RetentionRow = RetentionRow(cohort: string, day: string, group: Group, cohortSize: nat, retainedUsers: nat)

  function RowFor(events: seq<Event>, g: Group, cohort: string, day: string): RetentionRow {
    RetentionRow(cohort, day, g, |Cohort(events, g, cohort)|, |Retained(events, g, cohort, day)|)
  }

  /** first_activation joined with the returns, grouped by cohort, day and group. */
  function RetentionRows(events: seq<Event>): set<RetentionRow> {
    set a, r | a in events && r in events && Joined(events, a, r) ::
      RowFor(events, a.group, FirstDay(events, a.user, a.group), DateString(r.at))
  }

  predicate Joined(events: seq<Event>, a: Event, r: Event) {
    && a.kind == Activation && a.user != []
    && r.kind == RetentionReturn && r.user == a.user
    && !Less(DateString(r.at), FirstDay(events, a.user, a.group))
  }

  /** Event i is the user's first activation in the group by date; -1 when there is none. */
  ghost predicate IsFirst(events: seq<Event>, user: string, g: Group, i: int) {
    && -1 <= i < |events|
    && (i >= 0 ==> Activates(events[i], user, g))
    && (forall j :: 0 <= j < |events| && Activates(events[j], user, g) ==> i >= 0 && !DateBefore(events[j].at, events[i].at))
  }

  lemma {:induction false} FirstOfMore(front: seq<Event>, e: Event, user: string, g: Group, i: int)
    requires IsFirst(front, user, g, i)
    ensures IsFirst(front + [e], user, g,
              if Activates(e, user, g) && (i == -1 || DateBefore(e.at, front[i].at)) then |front| else i)
  {
  }

  /** The first day is the date of the first activation. */
  lemma {:induction false} FirstDayIsEarliest(events: seq<Event>, user: string, g: Group) returns (i: int)
    ensures IsFirst(events, user, g, i)
    ensures FirstDay(events, user, g) == if i == -1 then "" else DateString(events[i].at)
  {
    if events == [] { return -1; }
    var n := |events| - 1;
    var e := events[n];
    i := FirstDayIsEarliest(events[..n], user, g);
    assert events[..n] + [e] == events;
    FirstOfMore(events[..n], e, user, g, i);
    if i >= 0 { DateOrder(e.at, events[i].at); }
    if Activates(e, user, g) && (i == -1 || DateBefore(e.at, events[i].at)) {
      i := n;
    }
  }

  lemma JoinedIsRetained(events: seq<Event>, a: Event, r: Event)
    requires a in events && r in events && Joined(events, a, r)
    ensures a.user in Retained(events, a.group, FirstDay(events, a.user, a.group), DateString(r.at))
  {
    assert a.user in Activated(events, a.group);
    assert Returns(r, a.user, DateString(r.at));
  }

  lemma RetainedCount(events: seq<Event>, g: Group, cohort: string, day: string, user: string)
    requires user in Retained(events, g, cohort, day)
    ensures 1 <= |Retained(events, g, cohort, day)| <= |Cohort(events, g, cohort)|
  {
    SubsetCount({user}, Retained(events, g, cohort, day));
    SubsetCount(Retained(events, g, cohort, day), Cohort(events, g, cohort));
  }

  predicate WithinCohort(row: RetentionRow) {
    1 <= row.retainedUsers <= row.cohortSize && !Less(row.day, row.cohort)
  }

  lemma JoinedWithinCohort(events: seq<Event>, a: Event, r: Event, cohort: string, day: string)
    requires a in events && r in events && Joined(events, a, r)
    requires cohort == FirstDay(events, a.user, a.group) && day == DateString(r.at)
    ensures WithinCohort(RowFor(events, a.group, cohort, day))
  {
    JoinedIsRetained(events, a, r);
    RetainedCount(events, a.group, cohort, day, a.user);
  }

  /** Main result: in every retention row at least one user is retained and at most the whole
      cohort, and no row is for a day before its cohort's. */
  lemma {:induction false} RetainedWithinCohort(events: seq<Event>, row: RetentionRow)
    requires row in RetentionRows(events)
    ensures WithinCohort(row)
  {
    var a, r :| a in events && r in events && Joined(events, a, r)
      && row == RowFor(events, a.group, FirstDay(events, a.user, a.group), DateString(r.at));
    JoinedWithinCohort(events, a, r, FirstDay(events, a.user, a.group), DateString(r.at));
  }

  /** The rows a cohort of days adds up to. */
  function CohortSum(events: seq<Event>, g: Group, days: seq<string>): nat {
    if days == [] then 0
    else
      var n := |days| - 1;
      CohortSum(events, g, days[..n]) + |Cohort(events, g, days[n])|
  }

  function CohortsOf(events: seq<Event>, g: Group, days: seq<string>): set<string> {
    set u | u in Activated(events, g) && FirstDay(events, u, g) in days
  }

  lemma {:induction false} CohortsAddUp(events: seq<Event>, g: Group, days: seq<string>)
    requires forall i, j :: 0 <= i < j < |days| ==> days[i] != days[j]
    ensures CohortSum(events, g, days) == |CohortsOf(events, g, days)|
  {
    if days != [] {
      var n := |days| - 1;
      CohortsAddUp(events, g, days[..n]);
      assert days == days[..n] + [days[n]];
      assert days[n] !in days[..n];
      var front, last := CohortsOf(events, g, days[..n]), Cohort(events, g, days[n]);
      assert CohortsOf(events, g, days) == front + last;
      assert front !! last;
    }
  }

  /** Main result: every activated user of a group is in exactly one cohort: over any list of
      different days that has all the first days, the cohort sizes sum to the number of users. */
  lemma {:induction false} CohortsPartitionUsers(events: seq<Event>, g: Group, days: seq<string>)
    requires forall i, j :: 0 <= i < j < |days| ==> days[i] != days[j]
    requires forall u :: u in Activated(events, g) ==> FirstDay(events, u, g) in days
    ensures CohortSum(events, g, days) == |Activated(events, g)|
  {
    CohortsAddUp(events, g, days);
    assert CohortsOf(events, g, days) == Activated(events, g);
  }

  // ---------- the store ----------

  /** The group's keys in the order they first appear. */
  function Keys(events: seq<Event>, p: Grouping): seq<Key> {
    if events == [] then []
    else
      var n := |events| - 1;
      var keys := Keys(events[..n], p);
      if p(events[n]) in keys then keys else keys + [p(events[n])]
  }

  function Rows(events: seq<Event>, p: Grouping, keys: seq<Key>): (r: seq<Row>)
    ensures |r| == |keys| && forall i :: 0 <= i < |r| ==> r[i] == RowOf(events, p, keys[i])
  {
    seq(|keys|, i requires 0 <= i < |keys| => RowOf(events, p, keys[i]))
  }

  lemma {:induction false} KeysOnce(events: seq<Event>, p: Grouping)
    ensures Distinct(Keys(events, p))
    ensures forall k :: k in Keys(events, p) <==> exists i :: 0 <= i < |events| && p(events[i]) == k
  {
    if events != [] {
      var n := |events| - 1;
      KeysOnce(events[..n], p);
      assert forall i :: 0 <= i < n ==> events[..n][i] == events[i];
      forall k ensures k in Keys(events, p) <==> exists i :: 0 <= i < |events| && p(events[i]) == k {
        assert k in Keys(events, p) <==> k in Keys(events[..n], p) || k == p(events[n]);
      }
    }
  }

  lemma {:induction false} RowsAreRollup(events: seq<Event>, p: Grouping)
    ensures IsRollup(Rows(events, p, Keys(events, p)), events, p)
  {
    KeysOnce(events, p);
    assert KeysOf(Rows(events, p, Keys(events, p))) == Keys(events, p);
  }

  function KeptEvents(events: seq<Event>, cutoff: Time): seq<Event> {
    if events == [] then []
    else
      var n := |events| - 1;
      KeptEvents(events[..n], cutoff) + if Less(TimestampString(events[n].at), TimestampString(cutoff)) then [] else [events[n]]
  }

  function KeptRows(rows: seq<Row>, cutoff: string): seq<Row> {
    if rows == [] then []
    else
      var n := |rows| - 1;
      KeptRows(rows[..n], cutoff) + if Less(rows[n].key.bucket, cutoff) then [] else [rows[n]]
  }

  class MetricsStore {
    var events: seq<Event>
    var hourly: seq<Row>
    var daily: seq<Row>
    var retention: set<RetentionRow>

    constructor ()
      ensures events == [] && hourly == [] && daily == [] && retention == {}
    {
      events, hourly, daily, retention := [], [], [], {};
    }

    /** One transaction, in order; statement number `failing` fails, if there are so many, and
        rolls everything back. */
    method InsertEvents(more: seq<Event>, failing: nat) returns (ok: bool)
      modifies this
      ensures ok <==> |more| <= failing
      ensures events == if ok then old(events) + more else old(events)
      ensures hourly == old(hourly) && daily == old(daily) && retention == old(retention)
    {
      var before := events;
      var i := 0;
      while i < |more|
        invariant 0 <= i <= |more| && i <= failing && events == before + more[..i]
        invariant before == old(events)
        invariant hourly == old(hourly) && daily == old(daily) && retention == old(retention)
      {
        if i == failing {
          events := before;
          return false;
        }
        events := events + [more[i]];
        i := i + 1;
      }
      ok := true;
    }

    /** Deletes the rollups and fills them from the log. */
    method RebuildRollups()
      modifies this
      ensures events == old(events)
      ensures IsRollup(hourly, events, HourKey) && IsRollup(daily, events, DayKey)
      ensures retention == RetentionRows(events)
    {
      hourly, daily, retention := [], [], {};
      RowsAreRollup(events, HourKey);
      hourly := Rows(events, HourKey, Keys(events, HourKey));
      RowsAreRollup(events, DayKey);
      daily := Rows(events, DayKey, Keys(events, DayKey));
      retention := RetentionRows(events);
    }

    /** Deletes what is before the cutoffs, comparing strings: what stays is what is not before
        them in time, by the second for events, by the hour and by the date for rollups. */
    method Cleanup(rawCutoff: Time, hourlyCutoff: Time, dailyCutoff: Time)
      modifies this
      ensures events == Since(old(events), rawCutoff)
      ensures HoursKept(old(hourly), hourly, hourlyCutoff)
      ensures DaysKept(old(daily), daily, dailyCutoff)
      ensures ReturnsKept(old(retention), retention, dailyCutoff)
    {
      events := DeleteEvents(rawCutoff);
      hourly := DeleteHours(hourlyCutoff);
      daily := DeleteDays(dailyCutoff);
      retention := DeleteReturns(dailyCutoff);
    }

    method DeleteEvents(cutoff: Time) returns (kept: seq<Event>)
      ensures kept == Since(events, cutoff)
    {
      KeptIsSince(events, cutoff);
      kept := KeptEvents(events, cutoff);
    }

    method DeleteHours(cutoff: Time) returns (kept: seq<Row>)
      ensures HoursKept(hourly, kept, cutoff)
    {
      CleanupKeepsHours(hourly, cutoff);
      kept := KeptRows(hourly, HourBucketString(cutoff));
    }

    method DeleteDays(cutoff: Time) returns (kept: seq<Row>)
      ensures DaysKept(daily, kept, cutoff)
    {
      CleanupKeepsDays(daily, cutoff);
      kept := KeptRows(daily, DateString(cutoff));
    }

    method DeleteReturns(cutoff: Time) returns (kept: set<RetentionRow>)
      ensures ReturnsKept(retention, kept, cutoff)
    {
      CleanupKeepsReturns(retention, cutoff);
      kept := KeptReturns(retention, DateString(cutoff));
    }
  }

  /** The events that are not before the cutoff in time, in order. */
  function Since(events: seq<Event>, cutoff: Time): seq<Event> {
    if events == [] then []
    else
      var n := |events| - 1;
      Since(events[..n], cutoff) + if Before(events[n].at, cutoff) then [] else [events[n]]
  }

  /** Comparing strings keeps exactly the events that are not before the cutoff in time. */
  lemma {:induction false} KeptIsSince(events: seq<Event>, cutoff: Time)
    ensures KeptEvents(events, cutoff) == Since(events, cutoff)
  {
    if events != [] {
      var n := |events| - 1;
      KeptIsSince(events[..n], cutoff);
      TimestampOrder(events[n].at, cutoff);
    }
  }

  lemma {:induction false} KeptRowsMembers(rows: seq<Row>, cutoff: string, row: Row)
    ensures row in KeptRows(rows, cutoff) <==> row in rows && !Less(row.key.bucket, cutoff)
  {
    if rows != [] {
      var n := |rows| - 1;
      KeptRowsMembers(rows[..n], cutoff, row);
      assert rows == rows[..n] + [rows[n]];
    }
  }

  function KeptReturns(rows: set<RetentionRow>, cutoff: string): set<RetentionRow> {
    set r | r in rows && !Less(r.day, cutoff)
  }

  /** The hourly rows kept are exactly those of hours that do not start before the cutoff's hour. */
  ghost predicate HoursKept(before: seq<Row>, after: seq<Row>, cutoff: Time) {
    forall row: Row, e: Event :: row.key == HourKey(e) ==>
      (row in after <==> row in before && !Before(HourStart(e.at), HourStart(cutoff)))
  }

  /** The daily rows kept are exactly those of dates that are not before the cutoff's. */
  ghost predicate DaysKept(before: seq<Row>, after: seq<Row>, cutoff: Time) {
    forall row: Row, e: Event :: row.key == DayKey(e) ==> (row in after <==> row in before && !DateBefore(e.at, cutoff))
  }

  ghost predicate ReturnsKept(before: set<RetentionRow>, after: set<RetentionRow>, cutoff: Time) {
    forall row: RetentionRow, t: Time :: row.day == DateString(t) ==>
      (row in after <==> row in before && !DateBefore(t, cutoff))
  }

  lemma CleanupKeepsHours(rows: seq<Row>, cutoff: Time)
    ensures HoursKept(rows, KeptRows(rows, HourBucketString(cutoff)), cutoff)
  {
    forall row: Row, e: Event | row.key == HourKey(e)
      ensures row in KeptRows(rows, HourBucketString(cutoff)) <==> row in rows && !Before(HourStart(e.at), HourStart(cutoff))
    {
      KeptRowsMembers(rows, HourBucketString(cutoff), row);
      HourBucketOrder(e.at, cutoff);
      BucketsArePrefixes(e.at);
    }
  }

  lemma CleanupKeepsDays(rows: seq<Row>, cutoff: Time)
    ensures DaysKept(rows, KeptRows(rows, DateString(cutoff)), cutoff)
  {
    forall row: Row, e: Event | row.key == DayKey(e)
      ensures row in KeptRows(rows, DateString(cutoff)) <==> row in rows && !DateBefore(e.at, cutoff)
    {
      KeptRowsMembers(rows, DateString(cutoff), row);
      DateOrder(e.at, cutoff);
      BucketsArePrefixes(e.at);
    }
  }

  lemma CleanupKeepsReturns(rows: set<RetentionRow>, cutoff: Time)
    ensures ReturnsKept(rows, KeptReturns(rows, DateString(cutoff)), cutoff)
  {
    forall row: RetentionRow, t: Time | row.day == DateString(t)
      ensures row in KeptReturns(rows, DateString(cutoff)) <==> row in rows && !DateBefore(t, cutoff)
    {
      DateOrder(t, cutoff);
    }
  }
}
