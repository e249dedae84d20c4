/** Three printers that put a comma before every third digit: one divides by 1000, one cuts
    a string from the right, one scans it by index. They agree, and their output reads back. */
module Grouping {

  function Digit(d: nat): char
    requires d < 10
  {
    '0' + d as char
  }

  function Decimal(n: nat): (s: string)
    ensures s != ""
    ensures forall c :: c in s ==> '0' <= c <= '9'
  {
    if n < 10 then [Digit(n)] else Decimal(n / 10) + [Digit(n % 10)]
  }

  /** The reference: a comma three digits before the end, and again in what is left. */
  function Group(s: string): string {
    if |s| <= 3 then s else Group(s[..|s| - 3]) + "," + s[|s| - 3..]
  }

  // ---------------------------------------------------------------------------
  // What the grouped text means
  // ---------------------------------------------------------------------------

  function WithoutCommas(s: string): string {
    if s == "" then "" else (if s[0] == ',' then "" else [s[0]]) + WithoutCommas(s[1..])
  }

  function ReadDecimal(s: string): int {
    if s == "" then 0 else 10 * ReadDecimal(s[..|s| - 1]) + (s[|s| - 1] as int - '0' as int)
  }

  lemma {:induction false} WithoutCommasConcat(a: string, b: string)
    ensures WithoutCommas(a + b) == WithoutCommas(a) + WithoutCommas(b)
  {
    if a == "" {
      assert a + b == b;
    } else {
      assert (a + b)[1..] == a[1..] + b;
      WithoutCommasConcat(a[1..], b);
    }
  }

  lemma {:induction false} WithoutCommasPlain(s: string)
    requires ',' !in s
    ensures WithoutCommas(s) == s
  {
    if s != "" { WithoutCommasPlain(s[1..]); }
  }

  lemma {:induction false} GroupKeepsDigits(s: string)
    requires ',' !in s
    ensures WithoutCommas(Group(s)) == s
    decreases |s|
  {
    WithoutCommasPlain(s);
    if |s| > 3 {
      var front, last := s[..|s| - 3], s[|s| - 3..];
      GroupKeepsDigits(front);
      WithoutCommasPlain(last);
      WithoutCommasConcat(Group(front) + ",", last);
      WithoutCommasConcat(Group(front), ",");
      assert WithoutCommas(",") == "";
    }
  }

  lemma {:induction false} ReadDecimalInverts(n: nat)
    ensures ReadDecimal(Decimal(n)) == n
  {
    if n >= 10 {
      ReadDecimalInverts(n / 10);
      assert Decimal(n)[..|Decimal(n)| - 1] == Decimal(n / 10);
    } else {
      assert Decimal(n)[..0] == "";
    }
  }

  /** Deleting the commas and reading the decimal gives the number back. */
  lemma GroupedReadsBack(n: nat)
    ensures ReadDecimal(WithoutCommas(Group(Decimal(n)))) == n
  {
    GroupKeepsDigits(Decimal(n));
    ReadDecimalInverts(n);
  }

  /** Where the commas are: exactly at every fourth place from the right. */
  lemma {:induction false} CommaPlaces(s: string, i: nat)
    requires s != "" && ',' !in s && i < |Group(s)|
    ensures |Group(s)| % 4 != 0
    ensures Group(s)[i] == ',' <==> (|Group(s)| - i) % 4 == 0
    decreases |s|
  {
    if |s| > 3 {
      var front, last := Group(s[..|s| - 3]), s[|s| - 3..];
      CommaPlaces(s[..|s| - 3], if i < |front| then i else 0);
      PlaceInGroups(front, last, i);
      FourMore(|front|);
      FourMore(|front| - i);
    } else {
      assert s[i] in s;
    }
  }

  lemma FourMore(x: int)
    ensures (x + 4) % 4 == x % 4
  {}

  /** One more group of three moves no comma and adds one before itself. */
  lemma PlaceInGroups(front: string, last: string, i: nat)
    requires |last| == 3 && ',' !in last && i < |front| + 4
    ensures |front + "," + last| == |front| + 4
    ensures i < |front| ==> (front + "," + last)[i] == front[i]
    ensures i >= |front| ==> ((front + "," + last)[i] == ',' <==> i == |front|)
  {
    if i > |front| {
      assert (front + "," + last)[i] == last[i - |front| - 1];
      assert last[i - |front| - 1] in last;
    }
  }

  // ---------------------------------------------------------------------------
  // Dividing by 1000
  // ---------------------------------------------------------------------------

  const MIN_INT64 := -0x8000_0000_0000_0000

  /** Negation of a 64-bit integer: the smallest one stays as it is. */
  function Negate64(n: int): int {
    if n == MIN_INT64 then n else -n
  }

  function ThreeDigits(r: nat): string
    requires r < 1000
  {
    [Digit(r / 100), Digit(r / 10 % 10), Digit(r % 10)]
  }

  lemma {:induction false} DivideTwice(n: nat)
    ensures n / 10 / 10 / 10 == n / 1000
    ensures n / 10 / 10 % 10 == n % 1000 / 100
    ensures n / 10 % 10 == n % 1000 / 10 % 10
    ensures n % 10 == n % 1000 % 10
  {}

  lemma DecimalByThousand(n: nat)
    requires n >= 1000
    ensures Decimal(n) == Decimal(n / 1000) + ThreeDigits(n % 1000)
  {
    DivideTwice(n);
    assert Decimal(n) == Decimal(n / 10) + [Digit(n % 10)];
    assert Decimal(n / 10) == Decimal(n / 10 / 10) + [Digit(n / 10 % 10)];
    assert Decimal(n / 10 / 10) == Decimal(n / 10 / 10 / 10) + [Digit(n / 10 / 10 % 10)];
  }

  lemma GroupByThousand(n: nat)
    requires n >= 1000
    ensures Group(Decimal(n)) == Group(Decimal(n / 1000)) + "," + ThreeDigits(n % 1000)
  {
    DecimalByThousand(n);
    var s := Decimal(n);
    assert s[..|s| - 3] == Decimal(n / 1000) && s[|s| - 3..] == ThreeDigits(n % 1000);
  }

  lemma {:induction false} DecimalBelowThousand(n: nat)
    requires n < 1000
    ensures n < 10 ==> Decimal(n) == [Digit(n)]
    ensures 10 <= n < 100 ==> Decimal(n) == [Digit(n / 10), Digit(n % 10)]
    ensures 100 <= n ==> Decimal(n) == ThreeDigits(n)
  {
    if n >= 100 {
      assert n / 10 / 10 == n / 100;
      assert Decimal(n / 10) == Decimal(n / 100) + [Digit(n / 10 % 10)];
      assert Decimal(n / 100) == [Digit(n / 100)];
    } else if n >= 10 {
      assert Decimal(n / 10) == [Digit(n / 10)];
    }
  }

  lemma GroupBelowThousand(n: nat)
    requires n < 1000
    ensures Group(Decimal(n)) == Decimal(n)
  {
    DecimalBelowThousand(n);
  }

  function Pad(r: nat): string {
    if r < 10 then "00" else if r < 100 then "0" else ""
  }

  lemma PadIsThreeDigits(r: nat)
    requires r < 1000
    ensures Pad(r) + Decimal(r) == ThreeDigits(r)
  {
    DecimalBelowThousand(r);
  }

  method Itoa(n: nat) returns (s: string)
    ensures s == Decimal(n)
  {
    if n == 0 {
      return "0";
    }
    s := "";
    var m: nat := n;
    assert Decimal(n) == Decimal(n) + "";
    while m > 0
      invariant m > 0 ==> Decimal(n) == Decimal(m) + s
      invariant m == 0 ==> Decimal(n) == s
    {
      assert m >= 10 ==> Decimal(m) + s == Decimal(m / 10) + ([Digit(m % 10)] + s);
      assert m < 10 ==> Decimal(m) + s == [Digit(m % 10)] + s;
      s := [Digit(m % 10)] + s;
      m := m / 10;
    }
  }

  /** The sign is dropped, and the smallest 64-bit integer prints as zero. */
  method FormatWithCommasCoin(value: int) returns (s: string)
    requires MIN_INT64 <= value < -MIN_INT64
    ensures value == MIN_INT64 ==> s == "0"
    ensures value != MIN_INT64 ==> s == Group(Decimal(if value < 0 then -value else value))
  {
    var n := if value < 0 then Negate64(value) else value;
    ghost var all := n;
    s := "";
    while n > 0
      invariant n > 0 && s == "" ==> n == all
      invariant n > 0 && s != "" ==> Group(Decimal(all)) == Group(Decimal(n)) + "," + s
      invariant all > 0 && n == 0 ==> s != "" && Group(Decimal(all)) == s
      invariant all <= 0 ==> n == all && s == ""
      invariant all > 0 ==> n >= 0
      decreases n
    {
      ghost var before, tail := n, s;
      if s != "" {
        s := "," + s;
      }
      var rem := n % 1000;
      n := n / 1000;
      var digits := Itoa(rem);
      if n > 0 {
        var tmp := if rem < 10 then "00" else if rem < 100 then "0" else "";
        s := tmp + digits + s;
        ThousandStep(all, before, tail, s);
      } else {
        GroupBelowThousand(before);
        s := digits + s;
        assert tail != "" ==> s == Decimal(before) + "," + tail;
        assert tail == "" ==> s == Decimal(before);
      }
    }
    if s == "" {
      return "0";
    }
  }

  /** One round of the loop with more to come. */
  lemma {:induction false} ThousandStep(all: nat, n: nat, tail: string, s: string)
    requires n >= 1000
    requires if tail == "" then n == all else Group(Decimal(all)) == Group(Decimal(n)) + "," + tail
    requires s == Pad(n % 1000) + Decimal(n % 1000) + (if tail == "" then "" else "," + tail)
    ensures Group(Decimal(all)) == Group(Decimal(n / 1000)) + "," + s
  {
    PadIsThreeDigits(n % 1000);
    GroupByThousand(n);
    var front := Group(Decimal(n / 1000)) + ",";
    if tail == "" {
      assert s == ThreeDigits(n % 1000);
    } else {
      assert s == ThreeDigits(n % 1000) + "," + tail;
      assert front + ThreeDigits(n % 1000) + "," + tail == front + s;
    }
  }

  // ---------------------------------------------------------------------------
  // Cutting from the right
  // ---------------------------------------------------------------------------

  function FormatInt(value: int): string {
    if value < 0 then "-" + Decimal(-value) else Decimal(value)
  }

  function CommaEach(parts: seq<string>): string {
    if parts == [] then "" else "," + parts[0] + CommaEach(parts[1..])
  }

  /** strings.Join with a comma. */
  function Join(parts: seq<string>): string {
    if parts == [] then "" else parts[0] + CommaEach(parts[1..])
  }

  method FormatKRW(value: int) returns (s: string)
    ensures s == Group(FormatInt(value))
  {
    var raw := FormatInt(value);
    if |raw| <= 3 {
      return raw;
    }
    ghost var all := raw;
    var parts: seq<string> := [];
    while |raw| > 3
      invariant raw != ""
      invariant Group(all) == Group(raw) + CommaEach(parts)
    {
      ghost var before, tail := raw, CommaEach(parts);
      var cut := raw[|raw| - 3..];
      parts := [cut] + parts;
      raw := raw[..|raw| - 3];
      assert parts[1..] == parts[1..] && CommaEach(parts) == "," + cut + tail;
      assert Group(before) + tail == Group(raw) + CommaEach(parts);
    }
    if raw != "" {
      parts := [raw] + parts;
    }
    s := Join(parts);
  }

  lemma {:induction false} GroupAfterSign(s: string)
    requires s != ""
    ensures |s| % 3 != 0 ==> Group("-" + s) == "-" + Group(s)
    ensures |s| % 3 == 0 ==> Group("-" + s) == "-," + Group(s)
    decreases |s|
  {
    var t := "-" + s;
    if |s| > 3 {
      assert t[..|t| - 3] == "-" + s[..|s| - 3] && t[|t| - 3..] == s[|s| - 3..];
      GroupAfterSign(s[..|s| - 3]);
    } else if |s| == 3 {
      assert t[..1] == "-" && t[1..] == s;
    }
  }

  /** For a negative amount this printer is right exactly when the number of digits is no
      multiple of three: the sign counts as a digit, as in "-,123". */
  lemma NegativeKRWIffDigitCount(value: int)
    requires value < 0
    ensures Group(FormatInt(value)) == "-" + Group(Decimal(-value)) <==> |Decimal(-value)| % 3 != 0
  {
    GroupAfterSign(Decimal(-value));
    GroupKeepsDigits(Decimal(-value));
    var g := Group(Decimal(-value));
    assert |"-," + g| != |"-" + g|;
  }

  // ---------------------------------------------------------------------------
  // Scanning by index
  // ---------------------------------------------------------------------------

  /** The first i characters with their commas. */
  function Scanned(s: string, i: nat): string
    requires i <= |s|
  {
    if i == 0 then ""
    else Scanned(s, i - 1) + (if i > 1 && (|s| - (i - 1)) % 3 == 0 then "," else "") + [s[i - 1]]
  }

  /** Three characters more at the end move no comma before them. */
  lemma {:induction false} ScannedFront(s: string, i: nat)
    requires |s| > 3 && i <= |s| - 3
    ensures Scanned(s, i) == Scanned(s[..|s| - 3], i)
  {
    if i > 0 {
      ScannedFront(s, i - 1);
    }
  }

  lemma {:induction false} ScannedIsGroup(s: string)
    ensures Scanned(s, |s|) == Group(s)
    decreases |s|
  {
    var n := |s|;
    if n > 3 {
      ScannedFront(s, n - 3);
      ScannedIsGroup(s[..n - 3]);
      assert Scanned(s, n - 2) == Scanned(s, n - 3) + "," + [s[n - 3]];
      assert Scanned(s, n - 1) == Scanned(s, n - 2) + [s[n - 2]];
      assert s[n - 3..] == [s[n - 3]] + [s[n - 2]] + [s[n - 1]];
    } else if n == 3 {
      assert Scanned(s, 1) == [s[0]] && Scanned(s, 2) == [s[0]] + [s[1]];
    } else if n == 2 {
      assert Scanned(s, 1) == [s[0]];
    }
  }

  /** A price rounded to cents. The rounding itself is the caller's. */
  method FormatChartPrice(negative: bool, cents: nat) returns (s: string)
    ensures s == (if negative then "-" else "") + Group(Decimal(cents / 100)) + "."
                 + [Digit(cents / 10 % 10), Digit(cents % 10)]
  {
    var sign := if negative then "-" else "";
    var intPart := Decimal(cents / 100);
    var fracPart := [Digit(cents / 10 % 10), Digit(cents % 10)];
    if |intPart| <= 3 {
      return sign + intPart + "." + fracPart;
    }
    var result := "";
    for i := 0 to |intPart|
      invariant result == Scanned(intPart, i)
    {
      if i > 0 && (|intPart| - i) % 3 == 0 {
        result := result + ",";
      }
      result := result + [intPart[i]];
    }
    ScannedIsGroup(intPart);
    s := sign + result + "." + fracPart;
  }

  lemma {:induction false} WholeCents(n: nat)
    ensures 100 * n / 100 == n && 100 * n / 10 % 10 == 0 && 100 * n % 10 == 0
  {
    assert 100 * n / 10 == 10 * n;
  }

  /** The three printers say the same of every non-negative 64-bit integer, and it reads back. */
  method ThreePrinters(n: int) returns (coin: string, krw: string, chart: string)
    requires 0 <= n < -MIN_INT64
    ensures coin == krw && chart == krw + ".00" && ReadDecimal(WithoutCommas(krw)) == n
  {
    coin := FormatWithCommasCoin(n);
    krw := FormatKRW(n);
    WholeCents(n);
    chart := FormatChartPrice(false, 100 * n);
    GroupedReadsBack(n);
    assert chart == krw + ".00" by {
      assert [Digit(0), Digit(0)] == "00";
      assert "" + krw + "." + "00" == krw + ".00";
    }
  }
}
