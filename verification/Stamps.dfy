/** Times as the metrics tables store them: strings in the format of section 5.6 of RFC 3339,
    in UTC with whole seconds, compared by SQLite as strings. */
module Stamps {

  /** A UTC time; the fields of years 0 to 9999. */
  datatype Stamp = Stamp(year: nat, month: nat, day: nat, hour: nat, minute: nat, second: nat)

  predicate Valid(t: Stamp) {
    t.year < 10000 && t.month < 100 && t.day < 100 && t.hour < 100 && t.minute < 100 && t.second < 100
  }

  function Digit(n: nat): char
    requires n < 10
  {
    '0' + n as char
  }

  function Two(n: nat): (s: string)
    requires n < 100
    ensures |s| == 2
  {
    [Digit(n / 10), Digit(n % 10)]
  }

  function Four(n: nat): (s: string)
    requires n < 10000
    ensures |s| == 4
  {
    Two(n / 100) + Two(n % 100)
  }

  /** "2006-01-02". */
  function DateString(t: Stamp): (s: string)
    requires Valid(t)
    ensures |s| == 10
  {
    Four(t.year) + "-" + Two(t.month) + "-" + Two(t.day)
  }

  /** "2006-01-02T15:00:00Z". */
  function HourBucketString(t: Stamp): (s: string)
    requires Valid(t)
    ensures |s| == 20
  {
    DateString(t) + "T" + Two(t.hour) + ":00:00Z"
  }

  /** "2006-01-02T15:04:05Z". */
  function TimestampString(t: Stamp): (s: string)
    requires Valid(t)
    ensures |s| == 20
  {
    DateString(t) + "T" + Two(t.hour) + ":" + Two(t.minute) + ":" + Two(t.second) + "Z"
  }

  /** substr(s, 1, n). */
  function Substr(s: string, n: nat): string {
    if n <= |s| then s[..n] else s
  }

  /** The bucket keys of the rollups are those the cleanup compares with. */
  lemma {:induction false} BucketsArePrefixes(t: Stamp)
    requires Valid(t)
    ensures Substr(TimestampString(t), 10) == DateString(t)
    ensures Substr(TimestampString(t), 13) + ":00:00Z" == HourBucketString(t)
    ensures Substr(HourBucketString(t), 10) == DateString(t)
  {
  }

  // ---------- comparing ----------

  /** SQLite's < on strings. */
  predicate Less(a: string, b: string) {
    if b == [] then false
    else if a == [] then true
    else a[0] < b[0] || (a[0] == b[0] && Less(a[1..], b[1..]))
  }

  predicate Before(s: Stamp, t: Stamp) {
    || s.year < t.year
    || (s.year == t.year && (s.month < t.month
       || (s.month == t.month && (s.day < t.day
          || (s.day == t.day && (s.hour < t.hour
             || (s.hour == t.hour && (s.minute < t.minute
                || (s.minute == t.minute && s.second < t.second)))))))))
  }

  lemma {:induction false} LessConcat(a: string, b: string, x: string, y: string)
    requires |a| == |b|
    ensures Less(a + x, b + y) <==> Less(a, b) || (a == b && Less(x, y))
  {
    if a == [] {
      assert a + x == x && b + y == y;
    } else {
      assert (a + x)[1..] == a[1..] + x && (b + y)[1..] == b[1..] + y;
      LessConcat(a[1..], b[1..], x, y);
      assert a == [a[0]] + a[1..] && b == [b[0]] + b[1..];
    }
  }

  lemma TwoOrder(m: nat, n: nat)
    requires m < 100 && n < 100
    ensures Less(Two(m), Two(n)) <==> m < n
    ensures Two(m) == Two(n) <==> m == n
  {
    var a, b := Two(m), Two(n);
    assert a[1..][1..] == [] && b[1..][1..] == [];
    assert Less(a[1..], b[1..]) <==> a[1] < b[1];
  }

  lemma FourOrder(m: nat, n: nat)
    requires m < 10000 && n < 10000
    ensures Less(Four(m), Four(n)) <==> m < n
    ensures Four(m) == Four(n) <==> m == n
  {
    TwoOrder(m / 100, n / 100);
    TwoOrder(m % 100, n % 100);
    LessConcat(Two(m / 100), Two(n / 100), Two(m % 100), Two(n % 100));
    assert Four(m)[..2] == Two(m / 100) && Four(m)[2..] == Two(m % 100);
    assert Four(n)[..2] == Two(n / 100) && Four(n)[2..] == Two(n % 100);
  }

  lemma {:induction false} NotLess(a: string)
    ensures !Less(a, a)
  {
    if a != [] { NotLess(a[1..]); }
  }

  /** A field, its separator and the rest. */
  lemma FieldOrder(m: nat, n: nat, sep: string, x: string, y: string)
    requires m < 100 && n < 100
    ensures Less(Two(m) + sep + x, Two(n) + sep + y) <==> m < n || (m == n && Less(x, y))
  {
    TwoOrder(m, n);
    NotLess(sep);
    LessConcat(Two(m), Two(n), sep, sep);
    LessConcat(Two(m) + sep, Two(n) + sep, x, y);
    assert (Two(m) + sep)[..2] == Two(m) && (Two(n) + sep)[..2] == Two(n);
  }

  /** Exactly one of before, the same and after holds of any two strings. */
  lemma {:induction false} LessIsTotal(a: string, b: string)
    ensures Less(a, b) || a == b || Less(b, a)
    ensures !(Less(a, b) && Less(b, a)) && (a == b ==> !Less(a, b))
  {
    if a != [] && b != [] {
      LessIsTotal(a[1..], b[1..]);
      assert a == [a[0]] + a[1..] && b == [b[0]] + b[1..];
    }
  }

  function TimeOfDay(t: Stamp): string
    requires Valid(t)
  {
    Two(t.hour) + ":" + (Two(t.minute) + ":" + (Two(t.second) + "Z"))
  }

  predicate TimeBefore(s: Stamp, t: Stamp) {
    || s.hour < t.hour
    || (s.hour == t.hour && (s.minute < t.minute || (s.minute == t.minute && s.second < t.second)))
  }

  lemma TimeOrder(s: Stamp, t: Stamp)
    requires Valid(s) && Valid(t)
    ensures Less(TimeOfDay(s), TimeOfDay(t)) <==> TimeBefore(s, t)
  {
    FieldOrder(s.hour, t.hour, ":", Two(s.minute) + ":" + (Two(s.second) + "Z"), Two(t.minute) + ":" + (Two(t.second) + "Z"));
    FieldOrder(s.minute, t.minute, ":", Two(s.second) + "Z", Two(t.second) + "Z");
    FieldOrder(s.second, t.second, "Z", [], []);
    assert Two(s.second) + "Z" + [] == Two(s.second) + "Z" && Two(t.second) + "Z" + [] == Two(t.second) + "Z";
  }

  predicate DateBefore(s: Stamp, t: Stamp) {
    || s.year < t.year
    || (s.year == t.year && (s.month < t.month || (s.month == t.month && s.day < t.day)))
  }

  predicate SameDate(s: Stamp, t: Stamp) {
    s.year == t.year && s.month == t.month && s.day == t.day
  }

  lemma DateOrder(s: Stamp, t: Stamp)
    requires Valid(s) && Valid(t)
    ensures Less(DateString(s), DateString(t)) <==> DateBefore(s, t)
    ensures DateString(s) == DateString(t) <==> SameDate(s, t)
  {
    var x, y := Two(s.month) + "-" + Two(s.day), Two(t.month) + "-" + Two(t.day);
    FourOrder(s.year, t.year);
    NotLess("-");
    LessConcat(Four(s.year), Four(t.year), "-", "-");
    LessConcat(Four(s.year) + "-", Four(t.year) + "-", x, y);
    FieldOrder(s.month, t.month, "-", Two(s.day), Two(t.day));
    TwoOrder(s.day, t.day);
    TwoOrder(s.month, t.month);
    DateParts(s);
    DateParts(t);
  }

  lemma {:induction false} DateParts(t: Stamp)
    requires Valid(t)
    ensures DateString(t) == Four(t.year) + "-" + (Two(t.month) + "-" + Two(t.day))
    ensures (Four(t.year) + "-")[..4] == Four(t.year)
    ensures DateString(t)[..4] == Four(t.year) && DateString(t)[5..7] == Two(t.month) && DateString(t)[8..] == Two(t.day)
  {
  }

  /** Main result: comparing the stored strings compares the times. */
  lemma TimestampOrder(s: Stamp, t: Stamp)
    requires Valid(s) && Valid(t)
    ensures Less(TimestampString(s), TimestampString(t)) <==> Before(s, t)
  {
    assert TimestampString(s) == DateString(s) + ("T" + TimeOfDay(s));
    assert TimestampString(t) == DateString(t) + ("T" + TimeOfDay(t));
    DateOrder(s, t);
    TimeOrder(s, t);
    NotLess("T");
    LessConcat("T", "T", TimeOfDay(s), TimeOfDay(t));
    LessConcat(DateString(s), DateString(t), "T" + TimeOfDay(s), "T" + TimeOfDay(t));
  }

  function HourStart(t: Stamp): Stamp {
    t.(minute := 0, second := 0)
  }

  lemma HourBucketOrder(s: Stamp, t: Stamp)
    requires Valid(s) && Valid(t)
    ensures Less(HourBucketString(s), HourBucketString(t)) <==> Before(HourStart(s), HourStart(t))
  {
    TimestampOrder(HourStart(s), HourStart(t));
    assert Two(0) == "00";
    assert HourBucketString(s) == TimestampString(HourStart(s)) && HourBucketString(t) == TimestampString(HourStart(t));
  }

  // ---------- reading ----------

  /** The number a string of digits stands for. */
  function Number(s: string): int {
    if s == [] then 0 else 10 * Number(s[..|s| - 1]) + (s[|s| - 1] as int - '0' as int)
  }

  lemma {:induction false} TwoReads(n: nat)
    requires n < 100
    ensures Number(Two(n)) == n
  {
    var s := Two(n);
    assert s[..1] == [Digit(n / 10)] && s[..1][..0] == [];
    assert Number(s[..1]) == n / 10;
  }

  lemma {:induction false} FourReads(n: nat)
    requires n < 10000
    ensures Number(Four(n)) == n
  {
    var s := Four(n);
    TwoReads(n / 100);
    assert s[..3][..2] == Two(n / 100);
    assert s[..3][2] == Two(n % 100)[0] && s[3] == Two(n % 100)[1];
    assert Number(s[..3]) == 10 * (n / 100) + n % 100 / 10;
  }

  /** A timestamp reads back as its time: year, month and day with dashes, T, hour, minute and second
      with colons, Z. */
  lemma TimestampReads(t: Stamp)
    requires Valid(t)
    ensures var s := TimestampString(t);
            && Number(s[0..4]) == t.year && Number(s[5..7]) == t.month && Number(s[8..10]) == t.day
            && Number(s[11..13]) == t.hour && Number(s[14..16]) == t.minute && Number(s[17..19]) == t.second
            && s[4] == '-' && s[7] == '-' && s[10] == 'T' && s[13] == ':' && s[16] == ':' && s[19] == 'Z'
  {
    var s := TimestampString(t);
    FourReads(t.year);
    TwoReads(t.month);
    TwoReads(t.day);
    TwoReads(t.hour);
    TwoReads(t.minute);
    TwoReads(t.second);
    assert s[0..4] == Four(t.year) && s[5..7] == Two(t.month) && s[8..10] == Two(t.day);
    assert s[11..13] == Two(t.hour) && s[14..16] == Two(t.minute) && s[17..19] == Two(t.second);
  }
}
