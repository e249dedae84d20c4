/** The lottery's calendar: which Saturday is open for registration, which draw should be out,
    and what number the open round has. Times are nanoseconds of Korean local time since
    1970-01-01, a Thursday; Korea's offset is fixed. */
module LottoCalendar {
  import opened Options

  type Time = int

  const MINUTE: int := 60_000_000_000
  const HOUR: int := 60 * MINUTE
  const DAY: int := 24 * HOUR
  const WEEK: int := 7 * DAY

  const SATURDAY := 6

  /** Sunday is 0. */
  function Weekday(t: Time): int {
    (t / DAY + 4) % 7
  }

  function StartOfDay(t: Time): Time {
    t - t % DAY
  }

  predicate BeforeClock(t: Time, hour: int, minute: int) {
    (t % DAY) / HOUR * 60 + (t % HOUR) / MINUTE < hour * 60 + minute
  }

  function RecentSaturday(now: Time): Time {
    StartOfDay(now) - (Weekday(now) - SATURDAY + 7) % 7 * DAY
  }

  function OpenRegistrationDrawDate(now: Time): Time {
    var target := StartOfDay(now) + (SATURDAY - Weekday(now) + 7) % 7 * DAY;
    if Weekday(now) == SATURDAY && !BeforeClock(now, 20, 0) then target + 7 * DAY else target
  }

  function ExpectedPublishedDrawDate(now: Time): Time {
    if Weekday(now) == SATURDAY && BeforeClock(now, 21, 30)
    then RecentSaturday(now) - 7 * DAY
    else RecentSaturday(now)
  }

  function WeeksBetween(from: Time, to: Time): int {
    if StartOfDay(to) <= StartOfDay(from) then 0 else (StartOfDay(to) - StartOfDay(from)) / WEEK
  }

  /** Midnight at the start of a Saturday. */
  predicate IsSaturday(t: Time) {
    StartOfDay(t) == t && Weekday(t) == SATURDAY
  }

  // ---------- the two Saturdays ----------

  lemma {:induction false} ClockIsTimeOfDay(t: Time, hour: int, minute: int)
    ensures BeforeClock(t, hour, minute) <==> t % DAY < hour * HOUR + minute * MINUTE
  {
    var s := t % DAY;
    assert s % HOUR == t % HOUR;
    var h, m := s / HOUR, s % HOUR / MINUTE;
    assert h * HOUR + m * MINUTE <= s < h * HOUR + (m + 1) * MINUTE;
    assert h * HOUR + m * MINUTE == (h * 60 + m) * MINUTE;
    assert hour * HOUR + minute * MINUTE == (hour * 60 + minute) * MINUTE;
  }

  lemma {:induction false} SaturdayIffWeekPhase(t: Time)
    ensures IsSaturday(t) <==> t % WEEK == 2 * DAY
  {
    var d, r := t / DAY, t % DAY;
    var w, k := d / 7, d % 7;
    assert t == WEEK * w + DAY * k + r;
    assert t % WEEK == DAY * k + r;
  }

  lemma SaturdayNumber(t: Time) returns (week: int)
    requires IsSaturday(t)
    ensures t == WEEK * week + 2 * DAY
  {
    SaturdayIffWeekPhase(t);
    week := t / WEEK;
  }

  lemma {:induction false} SaturdaysAWeekApart(s: Time, t: Time)
    requires IsSaturday(s) && IsSaturday(t) && s < t
    ensures t - s >= WEEK
  {
    var m := SaturdayNumber(s);
    var n := SaturdayNumber(t);
    assert n >= m + 1;
  }

  /** A time is a week, a day in it and a time of that day; days 2 and 9 are Saturdays. */
  lemma WeekAndDay(t: Time) returns (week: int, day: int)
    ensures 0 <= day < 7 && t == WEEK * week + DAY * day + t % DAY
    ensures StartOfDay(t) == WEEK * week + DAY * day
    ensures Weekday(t) == if day <= 2 then day + 4 else day - 3
  {
    week, day := t / DAY / 7, t / DAY % 7;
    assert (t / DAY + 4) % 7 == (day + 4) % 7;
  }

  lemma {:induction false} SaturdayOfWeek(week: int)
    ensures IsSaturday(WEEK * week + 2 * DAY)
  {
    SaturdayIffWeekPhase(WEEK * week + 2 * DAY);
  }

  lemma {:induction false} OpenIsNext(now: Time)
    ensures var open := OpenRegistrationDrawDate(now);
            IsSaturday(open) && open - WEEK + 20 * HOUR <= now < open + 20 * HOUR
  {
    ClockIsTimeOfDay(now, 20, 0);
    var week, day := WeekAndDay(now);
    var next := if day < 2 || (day == 2 && now % DAY < 20 * HOUR) then week else week + 1;
    assert OpenRegistrationDrawDate(now) == WEEK * next + 2 * DAY;
    SaturdayOfWeek(next);
  }

  lemma {:induction false} ExpectedIsLast(now: Time)
    ensures var expected := ExpectedPublishedDrawDate(now);
            && IsSaturday(expected)
            && expected + 21 * HOUR + 30 * MINUTE <= now < expected + WEEK + 21 * HOUR + 30 * MINUTE
  {
    ClockIsTimeOfDay(now, 21, 30);
    var week, day := WeekAndDay(now);
    var last := if day < 2 || (day == 2 && now % DAY < 21 * HOUR + 30 * MINUTE) then week - 1 else week;
    assert ExpectedPublishedDrawDate(now) == WEEK * last + 2 * DAY;
    SaturdayOfWeek(last);
  }

  /** Main result: registration is open for T exactly from 20:00 of the Saturday before T
      until 20:00 of T. */
  lemma {:induction false} OpenIff(now: Time, t: Time)
    ensures OpenRegistrationDrawDate(now) == t <==>
            IsSaturday(t) && t - WEEK + 20 * HOUR <= now < t + 20 * HOUR
  {
    OpenIsNext(now);
    var open := OpenRegistrationDrawDate(now);
    if IsSaturday(t) && t - WEEK + 20 * HOUR <= now < t + 20 * HOUR {
      if open < t { SaturdaysAWeekApart(open, t); }
      if t < open { SaturdaysAWeekApart(t, open); }
    }
  }

  /** Main result: the draw of P is the one to be out exactly from 21:30 of P for a week. */
  lemma {:induction false} ExpectedIff(now: Time, p: Time)
    ensures ExpectedPublishedDrawDate(now) == p <==>
            IsSaturday(p) && p + 21 * HOUR + 30 * MINUTE <= now < p + WEEK + 21 * HOUR + 30 * MINUTE
  {
    ExpectedIsLast(now);
    var expected := ExpectedPublishedDrawDate(now);
    if IsSaturday(p) && p + 21 * HOUR + 30 * MINUTE <= now < p + WEEK + 21 * HOUR + 30 * MINUTE {
      if expected < p { SaturdaysAWeekApart(expected, p); }
      if p < expected { SaturdaysAWeekApart(p, expected); }
    }
  }

  /** Saturday evening, after sales closed and before the draw is due. */
  predicate AwaitingDraw(now: Time) {
    Weekday(now) == SATURDAY && 20 * HOUR <= now % DAY < 21 * HOUR + 30 * MINUTE
  }

  lemma {:induction false} GapIsOneOrTwoWeeks(now: Time)
    ensures OpenRegistrationDrawDate(now) - ExpectedPublishedDrawDate(now)
            == if AwaitingDraw(now) then 2 * WEEK else WEEK
  {
    ClockIsTimeOfDay(now, 20, 0);
    ClockIsTimeOfDay(now, 21, 30);
  }

  lemma {:induction false} OpenIsMonotone(now: Time, later: Time)
    requires now <= later
    ensures OpenRegistrationDrawDate(now) <= OpenRegistrationDrawDate(later)
  {
    OpenIsNext(now);
    OpenIsNext(later);
    var a, b := OpenRegistrationDrawDate(now), OpenRegistrationDrawDate(later);
    if b < a { SaturdaysAWeekApart(b, a); }
  }

  // ---------- round numbers ----------

  datatype Draw = Draw(round: int, drawDate: Time)

  datatype State = State(
    registrationRound: int, registrationDate: Time,
    pendingRound: int, pendingDate: Option<Time>)

  /** The rounds as latestState numbers them from the newest draw it has. */
  function LatestState(draw: Draw, now: Time): State {
    var registrationDate := OpenRegistrationDrawDate(now);
    var weeks := WeeksBetween(StartOfDay(draw.drawDate), registrationDate);
    var ahead := if weeks < 1 then 1 else weeks;
    if ahead > 1
    then State(draw.round + ahead, registrationDate, draw.round + 1, Some(StartOfDay(draw.drawDate) + 7 * DAY))
    else State(draw.round + ahead, registrationDate, 0, None)
  }

  /** Main result, for a draw dated any day: registration is for the open Saturday, and its round is
      ahead of the draw's by the whole weeks between their dates, by one at least; when it is ahead by
      more, the round after the draw's is pending, a week after it. */
  lemma {:induction false} LatestStateIs(draw: Draw, now: Time, weeks: int)
    requires weeks >= 1
    requires var open, drawn := LatestState(draw, now).registrationDate, StartOfDay(draw.drawDate);
             open < drawn + (weeks + 1) * WEEK && (weeks > 1 ==> drawn + weeks * WEEK <= open)
    ensures var state := LatestState(draw, now);
            && IsSaturday(state.registrationDate)
            && state.registrationDate - WEEK + 20 * HOUR <= now < state.registrationDate + 20 * HOUR
            && state.registrationRound == draw.round + weeks
            && (weeks > 1 ==> state.pendingRound == draw.round + 1 && state.pendingDate == Some(StartOfDay(draw.drawDate) + WEEK))
            && (weeks == 1 ==> state.pendingRound == 0 && state.pendingDate == None)
  {
    OpenIsNext(now);
    StartOfDayTwice(draw.drawDate);
    var open, drawn := LatestState(draw, now).registrationDate, StartOfDay(draw.drawDate);
    assert open == OpenRegistrationDrawDate(now);
    if drawn < open { WholeWeeksBetween(open - drawn, weeks); }
  }

  lemma WholeWeeksBetween(time: int, weeks: int)
    requires time < (weeks + 1) * WEEK && (weeks > 1 ==> weeks * WEEK <= time) && weeks >= 1 && time > 0
    ensures weeks > 1 ==> time / WEEK == weeks
    ensures weeks == 1 ==> time / WEEK <= 1
  {}

  /** Rounds are weekly: the round of a Saturday, counted from that of the Saturday `origin`. */
  function RoundOf(origin: Draw, saturday: Time): int {
    origin.round + (saturday - origin.drawDate) / WEEK
  }

  predicate IsWeekly(origin: Draw, draw: Draw) {
    IsSaturday(StartOfDay(draw.drawDate)) && draw.round == RoundOf(origin, StartOfDay(draw.drawDate))
  }

  lemma {:induction false} WholeWeeks(time: int, weeks: int)
    requires time == WEEK * weeks
    ensures time / WEEK == weeks
  {
  }

  lemma {:induction false} RoundsApart(origin: Draw, s: Time, t: Time)
    requires IsSaturday(origin.drawDate) && IsSaturday(s) && IsSaturday(t)
    ensures RoundOf(origin, t) - RoundOf(origin, s) == (t - s) / WEEK
    ensures t - s == (t - s) / WEEK * WEEK
  {
    var k := SaturdayNumber(origin.drawDate);
    var m := SaturdayNumber(s);
    var n := SaturdayNumber(t);
    WholeWeeks(s - origin.drawDate, m - k);
    WholeWeeks(t - origin.drawDate, n - k);
    WholeWeeks(t - s, n - m);
  }

  lemma {:induction false} StartOfDayTwice(t: Time)
    ensures StartOfDay(StartOfDay(t)) == StartOfDay(t)
  {
  }

  /** Main result: the open round gets its true number exactly when the draw it is counted from
      is dated before it, however old that draw is; otherwise the number is too high. */
  lemma {:induction false} RoundIsTrueIffDrawIsEarlier(origin: Draw, draw: Draw, now: Time)
    requires IsSaturday(origin.drawDate) && IsWeekly(origin, draw)
    ensures LatestState(draw, now).registrationRound == RoundOf(origin, OpenRegistrationDrawDate(now))
            <==> StartOfDay(draw.drawDate) < OpenRegistrationDrawDate(now)
    ensures StartOfDay(draw.drawDate) >= OpenRegistrationDrawDate(now) ==>
              LatestState(draw, now).registrationRound == draw.round + 1 > RoundOf(origin, OpenRegistrationDrawDate(now))
  {
    var s, t := StartOfDay(draw.drawDate), OpenRegistrationDrawDate(now);
    OpenIsNext(now);
    StartOfDayTwice(draw.drawDate);
    RoundsApart(origin, s, t);
    if s < t { SaturdaysAWeekApart(s, t); }
  }

  /** A round is pending exactly when a whole draw is missing between the known one and the
      open one; it is the round right after the known draw and comes before the open one. */
  lemma {:induction false} PendingIsBetween(origin: Draw, draw: Draw, now: Time)
    requires IsSaturday(origin.drawDate) && IsWeekly(origin, draw)
    ensures draw.round < LatestState(draw, now).registrationRound
    ensures LatestState(draw, now).pendingDate.Some? <==> StartOfDay(draw.drawDate) + WEEK < OpenRegistrationDrawDate(now)
    ensures LatestState(draw, now).pendingDate.Some? ==>
              && draw.round < LatestState(draw, now).pendingRound < LatestState(draw, now).registrationRound
              && LatestState(draw, now).pendingDate.value == StartOfDay(draw.drawDate) + WEEK
              && LatestState(draw, now).pendingRound == RoundOf(origin, StartOfDay(draw.drawDate) + WEEK)
    ensures IsSaturday(StartOfDay(draw.drawDate) + WEEK)
  {
    var s, t := StartOfDay(draw.drawDate), OpenRegistrationDrawDate(now);
    OpenIsNext(now);
    WeeksAhead(s, t);
    NextSaturday(s);
    RoundsApart(origin, s, s + WEEK);
  }

  lemma {:induction false} WeeksAhead(s: Time, t: Time)
    requires IsSaturday(s) && IsSaturday(t)
    ensures WeeksBetween(s, t) > 1 <==> s + WEEK < t
  {
    if s < t { SaturdaysAWeekApart(s, t); }
  }

  lemma {:induction false} NextSaturday(s: Time)
    requires IsSaturday(s)
    ensures IsSaturday(s + WEEK)
  {
    SaturdayIffWeekPhase(s);
    SaturdayIffWeekPhase(s + WEEK);
  }

  /** With the expected draw in hand a round is pending only on Saturday evening between the
      close of sales and the draw. */
  lemma {:induction false} UpToDatePendingIffAwaiting(draw: Draw, now: Time)
    requires StartOfDay(draw.drawDate) == ExpectedPublishedDrawDate(now)
    ensures LatestState(draw, now).pendingDate.Some? <==> AwaitingDraw(now)
  {
    GapIsOneOrTwoWeeks(now);
    OpenIsNext(now);
    StartOfDayTwice(draw.drawDate);
  }

  // ---------- the book of draws ----------

  datatype Row = Row(draw: Draw, updateTime: Time)

  datatype Latest = Failed | Latest(draw: Draw, updatePending: bool)

  predicate IsLatest(rows: map<int, Row>, round: int) {
    round in rows && forall other :: other in rows ==> other <= round
  }

  /** The stored draw is served without asking the provider. */
  predicate GoodEnough(row: Row, now: Time, syncCooldown: int) {
    StartOfDay(row.draw.drawDate) == ExpectedPublishedDrawDate(now) || now - row.updateTime < syncCooldown
  }

  lemma Any<T>(s: set<T>) returns (x: T)
    requires s != {}
    ensures x in s
  {
    x :| x in s;
  }

  lemma LargestExists(rows: map<int, Row>)
    requires rows.Keys != {}
    decreases |rows|
    ensures exists round :: IsLatest(rows, round)
  {
    var any := Any(rows.Keys);
    var rest := rows - {any};
    assert rest.Keys == rows.Keys - {any};
    assert |rest| == |rest.Keys| && |rows| == |rows.Keys|;
    if rest.Keys == {} {
      assert forall other :: other in rows ==> other == any || other in rest;
      assert IsLatest(rows, any);
    } else {
      LargestExists(rest);
      var top :| IsLatest(rest, top);
      assert forall other :: other in rows ==> other == any || other in rest;
      assert IsLatest(rows, if any > top then any else top);
    }
  }

  class DrawBook {
    /** lotto_draws by round. */
    var rows: map<int, Row>
    const syncCooldown: int

    ghost predicate Valid()
      reads this
    {
      forall round :: round in rows ==> rows[round].draw.round == round
    }

    /** All draws on file are real ones of the past. */
    ghost predicate Truthful(origin: Draw, now: Time)
      reads this
    {
      && Valid()
      && (forall round :: round in rows ==> IsTrueDraw(origin, rows[round].draw, now))
    }

    constructor (syncCooldown: int)
      ensures Valid() && rows == map[] && this.syncCooldown == syncCooldown
    {
      rows := map[];
      this.syncCooldown := syncCooldown;
    }

    /** ORDER BY round DESC LIMIT 1. */
    method LatestDraw() returns (r: Option<Row>)
      requires Valid()
      ensures r.None? <==> rows == map[]
      ensures r.Some? ==> IsLatest(rows, r.value.draw.round) && rows[r.value.draw.round] == r.value
    {
      if rows == map[] {
        return None;
      }
      LargestExists(rows);
      var round :| IsLatest(rows, round);
      return Some(rows[round]);
    }

    /** `fetched` is the provider's answer, None an error; `clock` is the database's time. */
    method EnsureLatestDraw(now: Time, clock: Time, fetched: Option<Draw>, ghost origin: Draw) returns (r: Latest)
      requires Valid() && IsSaturday(origin.drawDate)
      modifies this
      ensures Valid()
      ensures old(rows) == map[] && fetched == None ==> r == Failed && rows == old(rows)
      ensures old(rows) == map[] && fetched.Some? ==>
                && r.Latest?
                && r.draw == fetched.value
                && rows == map[r.draw.round := Row(r.draw, clock)]
      ensures forall round :: IsLatest(old(rows), round) ==>
                && r.Latest?
                && if GoodEnough(old(rows)[round], now, syncCooldown) then r.draw == old(rows)[round].draw && rows == old(rows)
                   else if fetched.Some? then r.draw == fetched.value && rows == old(rows)[r.draw.round := Row(r.draw, clock)]
                   else r.draw == old(rows)[round].draw && rows == old(rows)[round := Row(r.draw, now)]
      ensures r.Latest? ==> (r.updatePending <==> StartOfDay(r.draw.drawDate) != ExpectedPublishedDrawDate(now))
      ensures old(Truthful(origin, now)) && (fetched.Some? ==> IsTrueDraw(origin, fetched.value, now)) ==>
                && Truthful(origin, now)
                && (r.Latest? ==>
                      LatestState(r.draw, now).registrationRound == RoundOf(origin, OpenRegistrationDrawDate(now)))
    {
      GapIsOneOrTwoWeeks(now);
      var expected := ExpectedPublishedDrawDate(now);
      var latest := LatestDraw();
      if latest.Some? && IsWeekly(origin, latest.value.draw) {
        RoundIsTrueIffDrawIsEarlier(origin, latest.value.draw, now);
      }
      if latest.Some? && StartOfDay(latest.value.draw.drawDate) == expected {
        return Latest(latest.value.draw, false);
      }
      if latest.Some? && now - latest.value.updateTime < syncCooldown {
        return Latest(latest.value.draw, StartOfDay(latest.value.draw.drawDate) != expected);
      }
      if fetched == None {
        if latest == None {
          return Failed;
        }
        rows := rows[latest.value.draw.round := Row(latest.value.draw, now)];
        return Latest(latest.value.draw, StartOfDay(latest.value.draw.drawDate) != expected);
      }
      if IsWeekly(origin, fetched.value) {
        RoundIsTrueIffDrawIsEarlier(origin, fetched.value, now);
      }
      rows := rows[fetched.value.round := Row(fetched.value, clock)];
      r := Latest(fetched.value, StartOfDay(fetched.value.drawDate) != expected);
    }
  }

  /** A draw of the weekly series that was due by `now`. */
  predicate IsTrueDraw(origin: Draw, draw: Draw, now: Time) {
    IsWeekly(origin, draw) && StartOfDay(draw.drawDate) <= ExpectedPublishedDrawDate(now)
  }

  /** True draws stay true, so a truthful book stays truthful as time passes. */
  lemma {:induction false} TrueDrawStaysTrue(origin: Draw, draw: Draw, now: Time, later: Time)
    requires IsTrueDraw(origin, draw, now) && now <= later
    ensures IsTrueDraw(origin, draw, later)
  {
    ExpectedIsLast(now);
    ExpectedIsLast(later);
    var a, b := ExpectedPublishedDrawDate(now), ExpectedPublishedDrawDate(later);
    if b < a { SaturdaysAWeekApart(b, a); }
  }

  /** Main result: two calls at any times, each counting from any draw dated before the round
      open then, agree on the numbering: the later one never gives a smaller round, and the
      same one exactly for the same Saturday. */
  lemma {:induction false} RoundsDoNotDependOnTheDraw(origin: Draw, draw: Draw, now: Time, other: Draw, later: Time)
    requires IsSaturday(origin.drawDate) && IsWeekly(origin, draw) && IsWeekly(origin, other) && now <= later
    requires StartOfDay(draw.drawDate) < OpenRegistrationDrawDate(now)
    requires StartOfDay(other.drawDate) < OpenRegistrationDrawDate(later)
    ensures LatestState(draw, now).registrationRound <= LatestState(other, later).registrationRound
    ensures LatestState(draw, now).registrationRound == LatestState(other, later).registrationRound
            <==> OpenRegistrationDrawDate(now) == OpenRegistrationDrawDate(later)
  {
    RoundIsTrueIffDrawIsEarlier(origin, draw, now);
    RoundIsTrueIffDrawIsEarlier(origin, other, later);
    OpenIsNext(now);
    OpenIsNext(later);
    OpenIsMonotone(now, later);
    RoundsApart(origin, OpenRegistrationDrawDate(now), OpenRegistrationDrawDate(later));
  }
}
