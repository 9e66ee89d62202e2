/** The formatting helpers of lib/utils.ts: thousands grouping of an amount,
    the `DD.MM HH:MM` time stamp, and the trip identifier built from a clock
    reading. The clock is a parameter here: `Date` values arrive already split
    into the components that `getDate`, `getMonth`, `getHours` and
    `getMinutes` return. */
module Utils {

  /** A moment as the source reads it from a `Date`: `month` counts from 0,
      as `getMonth()` does. */
  datatype DateParts = DateParts(date: nat, month: nat, hours: nat, minutes: nat)

  predicate IsDigit(c: char) { '0' <= c <= '9' }

  predicate AllDigits(s: string) { forall i :: 0 <= i < |s| ==> IsDigit(s[i]) }

  function DigitChar(d: nat): (c: char)
    requires d < 10
    ensures IsDigit(c) && (c as int) - ('0' as int) == d
  {
    ((('0' as int) + d) as char)
  }

  /** The numeric value of a string of decimal digits (the reference reading
      of a decimal string). */
  function DigitsValue(s: string): nat
    requires AllDigits(s)
    decreases |s|
  {
    if s == [] then 0
    else DigitsValue(s[..|s| - 1]) * 10 + ((s[|s| - 1] as int) - ('0' as int))
  }

  function Pow10(k: nat): (r: nat)
    ensures r >= 1
  {
    if k == 0 then 1 else 10 * Pow10(k - 1)
  }

  /** The decimal digits of a natural number, as `Number.prototype.toString`
      writes an integer: no leading zero except for 0 itself. */
  function NatToString(n: nat): (s: string)
    ensures 1 <= |s| && AllDigits(s)
    ensures s[0] == '0' ==> n == 0
    decreases n
  {
    if n < 10 then [DigitChar(n)] else NatToString(n / 10) + [DigitChar(n % 10)]
  }

  /** `toString` of an integer: a minus sign before the digits of a negative one. */
  function IntToString(x: int): string
  {
    if x < 0 then "-" + NatToString(-x) else NatToString(x)
  }

  /** Reading the digits back gives the number: `NatToString` is exact. */
  lemma {:induction false} NatToStringValue(n: nat)
    ensures DigitsValue(NatToString(n)) == n
    decreases n
  {
    if n >= 10 {
      var s := NatToString(n);
      assert s[..|s| - 1] == NatToString(n / 10);
      NatToStringValue(n / 10);
    }
  }

  /** A number has at most `k` digits exactly when it is below 10^k. */
  lemma {:induction false} NatToStringLength(n: nat, k: nat)
    requires k >= 1
    ensures |NatToString(n)| <= k <==> n < Pow10(k)
    decreases n
  {
    if n >= 10 {
      if k == 1 {
        assert Pow10(1) == 10;
      } else {
        NatToStringLength(n / 10, k - 1);
      }
    } else {
      assert Pow10(k) >= 10 by { Pow10AtLeastTen(k); }
    }
  }

  lemma {:induction false} Pow10AtLeastTen(k: nat)
    requires k >= 1
    ensures Pow10(k) >= 10
  {
    if k > 1 { Pow10AtLeastTen(k - 1); }
  }

  // ---------------------------------------------------------------------
  // formatCurrency
  // ---------------------------------------------------------------------

  /** The effect of the pattern `\B(?=(\d{3})+(?!\d))` on a run of digits:
      a space before every position that is followed by a positive multiple
      of three digits, except at the start of the run. */
  function GroupThousands(d: string): string
    decreases |d|
  {
    if |d| <= 3 then d else GroupThousands(d[..|d| - 3]) + " " + d[|d| - 3..]
  }

  /** `formatCurrency(amount)`: the floor of the amount, its digits grouped in
      threes by spaces. A minus sign is not a word character, so the pattern
      never matches right after it and the sign stays attached to the first
      group. */
  function FormatCurrency(amount: real): string
  {
    var n := amount.Floor;
    if n < 0 then "-" + GroupThousands(NatToString(-n)) else GroupThousands(NatToString(n))
  }

  function RemoveSpaces(s: string): (r: string)
    ensures ' ' !in r
    decreases |s|
  {
    if s == [] then [] else (if s[0] == ' ' then [] else [s[0]]) + RemoveSpaces(s[1..])
  }

  lemma {:induction false} RemoveSpacesAppend(a: string, b: string)
    ensures RemoveSpaces(a + b) == RemoveSpaces(a) + RemoveSpaces(b)
    decreases |a|
  {
    if a == [] {
      assert a + b == b;
    } else {
      var h := if a[0] == ' ' then [] else [a[0]];
      assert (a + b)[0] == a[0] && (a + b)[1..] == a[1..] + b;
      RemoveSpacesAppend(a[1..], b);
      assert RemoveSpaces(a + b) == h + (RemoveSpaces(a[1..]) + RemoveSpaces(b));
      assert RemoveSpaces(a) == h + RemoveSpaces(a[1..]);
    }
  }

  lemma {:induction false} RemoveSpacesNone(s: string)
    requires AllDigits(s)
    ensures RemoveSpaces(s) == s
    decreases |s|
  {
    if s != [] {
      assert !IsDigit(' ');
      assert AllDigits(s[1..]) by { assert forall i :: 0 <= i < |s| - 1 ==> s[1..][i] == s[i + 1]; }
      RemoveSpacesNone(s[1..]);
    }
  }

  /** A well-formed grouping: a first group of one to three digits, then
      groups of exactly three digits, each introduced by one space. */
  predicate Grouped(g: string)
    decreases |g|
  {
    (1 <= |g| <= 3 && AllDigits(g))
    || (|g| >= 5 && g[|g| - 4] == ' ' && AllDigits(g[|g| - 3..]) && Grouped(g[..|g| - 4]))
  }

  lemma {:induction false} GroupThousandsGrouped(d: string)
    requires 1 <= |d| && AllDigits(d)
    ensures Grouped(GroupThousands(d))
    decreases |d|
  {
    if |d| > 3 {
      var head, tail := d[..|d| - 3], d[|d| - 3..];
      assert AllDigits(head) by { assert forall i :: 0 <= i < |head| ==> head[i] == d[i]; }
      assert AllDigits(tail) by { assert forall i :: 0 <= i < |tail| ==> tail[i] == d[|d| - 3 + i]; }
      GroupThousandsGrouped(head);
      var g := GroupThousands(head) + " " + tail;
      assert g[..|g| - 4] == GroupThousands(head);
      assert g[|g| - 3..] == tail;
    }
  }

  lemma {:induction false} GroupThousandsRemoveSpaces(d: string)
    requires AllDigits(d)
    ensures RemoveSpaces(GroupThousands(d)) == d
    decreases |d|
  {
    if |d| <= 3 {
      RemoveSpacesNone(d);
    } else {
      var head, tail := d[..|d| - 3], d[|d| - 3..];
      DigitsSplit(d);
      GroupThousandsRemoveSpaces(head);
      RemoveSpacesGroup(GroupThousands(head), tail);
      assert head + tail == d;
    }
  }

  /** Both parts of a run of digits cut three before its end are digits. */
  lemma DigitsSplit(d: string)
    requires AllDigits(d) && |d| > 3
    ensures AllDigits(d[..|d| - 3]) && AllDigits(d[|d| - 3..])
  {
    var head, tail := d[..|d| - 3], d[|d| - 3..];
    assert forall i :: 0 <= i < |head| ==> head[i] == d[i];
    assert forall i :: 0 <= i < |tail| ==> tail[i] == d[|d| - 3 + i];
  }

  /** Removing the spaces of one more group: the separating space goes and
      the digits stay. */
  lemma RemoveSpacesGroup(g: string, tail: string)
    requires AllDigits(tail)
    ensures RemoveSpaces(g + " " + tail) == RemoveSpaces(g) + tail
  {
    RemoveSpacesAppend(g + " ", tail);
    RemoveSpacesAppend(g, " ");
    RemoveSpacesNone(tail);
    RemoveSpacesSpace();
    calc {
      RemoveSpaces(g + " " + tail);
      RemoveSpaces(g + " ") + RemoveSpaces(tail);
      RemoveSpaces(g) + RemoveSpaces(" ") + tail;
      { assert RemoveSpaces(g) + [] == RemoveSpaces(g); }
      RemoveSpaces(g) + tail;
    }
  }

  lemma RemoveSpacesSpace()
    ensures RemoveSpaces(" ") == []
  {
    assert " "[1..] == [];
  }

  lemma GroupThousandsHasSpace(d: string)
    requires AllDigits(d)
    ensures ' ' in GroupThousands(d) <==> |d| > 3
  {
    if |d| <= 3 {
      assert !IsDigit(' ');
    } else {
      var g := GroupThousands(d[..|d| - 3]) + " " + d[|d| - 3..];
      assert g[|g| - 4] == ' ';
    }
  }

  /** Deleting the spaces from `formatCurrency(x)` leaves the decimal string
      of `floor(x)`; what remains after an optional minus sign is a grouping
      with a first group of one to three digits and three-digit groups after
      it; and the string holds a space exactly when `|floor(x)| >= 1000`. */
  lemma FormatCurrencyShape(x: real)
    ensures RemoveSpaces(FormatCurrency(x)) == IntToString(x.Floor)
    ensures var n := x.Floor;
            var body := if n < 0 then FormatCurrency(x)[1..] else FormatCurrency(x);
            (n < 0 ==> FormatCurrency(x)[0] == '-') && Grouped(body)
    ensures ' ' in FormatCurrency(x) <==> (x.Floor <= -1000 || x.Floor >= 1000)
  {
    var n := x.Floor;
    var m: nat := if n < 0 then -n else n;
    var g := GroupThousands(NatToString(m));
    GroupedMagnitude(m);
    if n < 0 {
      MinusPrefix(g);
      assert FormatCurrency(x) == "-" + g;
      assert IntToString(n) == "-" + NatToString(m);
    } else {
      assert FormatCurrency(x) == g;
    }
  }

  /** The grouping of a magnitude: it reads back without spaces, it is
      grouped, and it has a space exactly from 1000 on. */
  lemma GroupedMagnitude(m: nat)
    ensures RemoveSpaces(GroupThousands(NatToString(m))) == NatToString(m)
    ensures Grouped(GroupThousands(NatToString(m)))
    ensures ' ' in GroupThousands(NatToString(m)) <==> m >= 1000
  {
    var d := NatToString(m);
    GroupThousandsGrouped(d);
    GroupThousandsRemoveSpaces(d);
    GroupThousandsHasSpace(d);
    NatToStringLength(m, 3);
    assert Pow10(3) == 1000;
  }

  /** A minus sign in front of a grouping survives the removal of spaces and
      adds no space. */
  lemma MinusPrefix(g: string)
    ensures RemoveSpaces("-" + g) == "-" + RemoveSpaces(g)
    ensures ("-" + g)[0] == '-' && ("-" + g)[1..] == g
    ensures ' ' in "-" + g <==> ' ' in g
  {
    RemoveSpacesAppend("-", g);
    assert RemoveSpaces("-") == "-";
  }

  // ---------------------------------------------------------------------
  // formatDateTime
  // ---------------------------------------------------------------------

  /** `String(n).padStart(2, '0')`. */
  function PadStart2(s: string): (r: string)
    ensures |s| >= 2 ==> r == s
    ensures |s| < 2 ==> |r| == 2 && r[2 - |s|..] == s && forall i :: 0 <= i < 2 - |s| ==> r[i] == '0'
  {
    if |s| >= 2 then s else seq(2 - |s|, _ => '0') + s
  }

  /** `formatDateTime(date)`: `DD.MM HH:MM`, the month shown one-based. */
  function FormatDateTime(d: DateParts): string
  {
    PadStart2(NatToString(d.date)) + "." + PadStart2(NatToString(d.month + 1)) + " "
      + PadStart2(NatToString(d.hours)) + ":" + PadStart2(NatToString(d.minutes))
  }

  /** The components a real `Date` yields. */
  predicate InRange(d: DateParts)
  {
    1 <= d.date <= 31 && d.month <= 11 && d.hours <= 23 && d.minutes <= 59
  }

  /** A number below 100 padded to two characters reads back as itself. */
  lemma TwoDigits(n: nat)
    requires n < 100
    ensures |PadStart2(NatToString(n))| == 2
    ensures AllDigits(PadStart2(NatToString(n)))
    ensures DigitsValue(PadStart2(NatToString(n))) == n
  {
    NatToStringLength(n, 2);
    assert Pow10(2) == 100;
    NatToStringValue(n);
    var s := NatToString(n);
    var p := PadStart2(s);
    if |s| == 1 {
      assert p == "0" + s;
      assert p[..1] == "0";
      assert DigitsValue(p[..1]) == 0 by { assert p[..1][..0] == []; }
    }
  }

  /** With in-range components the stamp is always eleven characters of the
      shape `DD.MM HH:MM`, and each field reads back as its component (the
      month as `getMonth() + 1`). */
  lemma {:induction false} FormatDateTimeShape(d: DateParts)
    requires InRange(d)
    ensures var s := FormatDateTime(d);
            |s| == 11 && s[2] == '.' && s[5] == ' ' && s[8] == ':'
            && AllDigits(s[0..2]) && AllDigits(s[3..5]) && AllDigits(s[6..8]) && AllDigits(s[9..11])
            && DigitsValue(s[0..2]) == d.date && DigitsValue(s[3..5]) == d.month + 1
            && DigitsValue(s[6..8]) == d.hours && DigitsValue(s[9..11]) == d.minutes
  {
    TwoDigits(d.date);
    TwoDigits(d.month + 1);
    TwoDigits(d.hours);
    TwoDigits(d.minutes);
    StampLayout(PadStart2(NatToString(d.date)), PadStart2(NatToString(d.month + 1)),
                PadStart2(NatToString(d.hours)), PadStart2(NatToString(d.minutes)));
  }

  /** Four two-character fields joined by `.`, ` ` and `:` sit at fixed
      positions of an eleven-character string. */
  lemma StampLayout(a: string, b: string, c: string, e: string)
    requires |a| == 2 && |b| == 2 && |c| == 2 && |e| == 2
    ensures var s := a + "." + b + " " + c + ":" + e;
            |s| == 11 && s[2] == '.' && s[5] == ' ' && s[8] == ':'
            && s[0..2] == a && s[3..5] == b && s[6..8] == c && s[9..11] == e
  {
    var p1 := a + "." + b;
    var p2 := p1 + " " + c;
    var s := p2 + ":" + e;
    assert s[..8] == p2 && s[9..11] == e;
    assert p2[..5] == p1 && p2[6..8] == c;
    assert p1[0..2] == a && p1[3..5] == b;
    assert s[0..2] == p2[0..2] == p1[0..2];
    assert s[3..5] == p2[3..5] == p1[3..5];
    assert s[6..8] == p2[6..8];
  }

  // ---------------------------------------------------------------------
  // generateTripId
  // ---------------------------------------------------------------------

  /** `s.slice(-k)`: the last `k` characters, or all of `s` when it is shorter. */
  function LastChars(s: string, k: nat): (r: string)
    ensures |r| == if |s| < k then |s| else k
  {
    if |s| <= k then s else s[|s| - k..]
  }

  /** `generateTripId()` for the clock reading `now` (milliseconds). */
  function GenerateTripId(now: nat): string
  {
    "T" + LastChars(NatToString(now), 8)
  }

  /** Appending a digit `r` to a number `q` and keeping `k + 1` digits is
      keeping `k` digits of `q` and appending `r`. */
  lemma ModStep(n: nat, q: nat, r: nat, k: nat, t: nat)
    requires n == q * 10 + r && r < 10 && k >= 1 && t == q % Pow10(k - 1)
    ensures n % Pow10(k) == t * 10 + r
  {
    var p := Pow10(k - 1);
    var a := q / p;
    assert q == p * a + t;
    assert Pow10(k) == 10 * p;
    assert n == Pow10(k) * a + (10 * t + r);
    assert 0 <= 10 * t + r < Pow10(k);
    DivModUnique(n, Pow10(k), a, 10 * t + r);
  }

  lemma DivModUnique(n: int, m: int, a: int, r: int)
    requires m > 0 && 0 <= r < m && n == m * a + r
    ensures n % m == r
  {
    var a', r' := n / m, n % m;
    var e := a' - a;
    assert m * e == r - r' by {
      assert n == m * a' + r';
      assert m * a' == m * a + m * e;
    }
    if e >= 1 {
      MulMonotone(m, 1, e);
    } else if e <= -1 {
      MulMonotone(m, e, -1);
    }
  }

  lemma MulMonotone(m: int, x: int, y: int)
    requires m > 0 && x <= y
    ensures m * x <= m * y
  {
  }

  /** The last `k` decimal digits of `n` read back as `n mod 10^k`. */
  lemma LastCharsValue(n: nat, k: nat)
    ensures AllDigits(LastChars(NatToString(n), k))
    ensures DigitsValue(LastChars(NatToString(n), k)) == n % Pow10(k)
  {
    LastCharsDigits(NatToString(n), k);
    LastCharsDigitsValue(NatToString(n), k);
    NatToStringValue(n);
  }

  lemma LastCharsDigits(s: string, k: nat)
    requires AllDigits(s)
    ensures AllDigits(LastChars(s, k))
  {
    var t := LastChars(s, k);
    assert forall i :: 0 <= i < |t| ==> t[i] == s[|s| - |t| + i];
  }

  /** The last `k` characters of a digit string read back as its value
      modulo 10^k. */
  lemma {:induction false} LastCharsDigitsValue(s: string, k: nat)
    requires AllDigits(s)
    ensures AllDigits(LastChars(s, k))
    ensures DigitsValue(LastChars(s, k)) == DigitsValue(s) % Pow10(k)
    decreases |s|
  {
    if k == 0 || s == [] {
      assert LastChars(s, k) == [];
    } else {
      var s' := s[..|s| - 1];
      assert AllDigits(s') by { assert forall i :: 0 <= i < |s'| ==> s'[i] == s[i]; }
      LastCharsDigitsValue(s', k - 1);
      LastCharsDigitsStep(s, k);
    }
  }

  /** One step of the induction above: the last digit of `s` is the last
      digit kept. */
  lemma LastCharsDigitsStep(s: string, k: nat)
    requires AllDigits(s) && s != [] && k >= 1
    requires AllDigits(s[..|s| - 1]) && AllDigits(LastChars(s[..|s| - 1], k - 1))
    requires DigitsValue(LastChars(s[..|s| - 1], k - 1)) == DigitsValue(s[..|s| - 1]) % Pow10(k - 1)
    ensures AllDigits(LastChars(s, k))
    ensures DigitsValue(LastChars(s, k)) == DigitsValue(s) % Pow10(k)
  {
    var s', c := s[..|s| - 1], s[|s| - 1];
    var t := LastChars(s', k - 1);
    var v, w := DigitsValue(s'), DigitsValue(t);
    var d := (c as int) - ('0' as int);
    LastCharsDrop(s, k);
    DigitsValueSnoc(t, c);
    DigitsValueLast(s);
    ModStep(DigitsValue(s), v, d, k, w);
  }

  /** Keeping `k` characters of a non-empty string keeps its last character
      after `k - 1` characters of the rest. */
  lemma LastCharsDrop(s: string, k: nat)
    requires s != [] && k >= 1
    ensures LastChars(s, k) == LastChars(s[..|s| - 1], k - 1) + [s[|s| - 1]]
  {
    var s' := s[..|s| - 1];
    var r, r' := LastChars(s, k), LastChars(s', k - 1);
    assert |r| == |r'| + 1;
    forall i | 0 <= i < |r|
      ensures r[i] == (r' + [s[|s| - 1]])[i]
    {
      if i < |r'| {
        assert r[i] == s[|s| - |r| + i];
        assert r'[i] == s'[|s'| - |r'| + i];
      }
    }
  }

  lemma DigitsValueLast(s: string)
    requires AllDigits(s) && s != []
    ensures DigitsValue(s) == DigitsValue(s[..|s| - 1]) * 10 + ((s[|s| - 1] as int) - ('0' as int))
  {
  }

  lemma DigitsValueSnoc(t: string, c: char)
    requires AllDigits(t) && IsDigit(c)
    ensures AllDigits(t + [c])
    ensures DigitsValue(t + [c]) == DigitsValue(t) * 10 + ((c as int) - ('0' as int))
  {
    assert (t + [c])[..|t|] == t;
  }

  /** The trip identifier is `T` followed by the last eight digits of the
      clock reading, or all of them when it has fewer: they read back as
      `now mod 10^8`, and from 10^7 on there are exactly eight of them, so the
      leading zeros of the last eight digits are kept. Length, digits and
      value together fix the identifier. */
  lemma GenerateTripIdShape(now: nat)
    ensures var id := GenerateTripId(now);
            2 <= |id| <= 9 && id[0] == 'T' && AllDigits(id[1..])
            && DigitsValue(id[1..]) == now % 100000000
            && |id| == 1 + (if |NatToString(now)| < 8 then |NatToString(now)| else 8)
            && (|id| == 9 <==> now >= 10000000)
  {
    LastCharsValue(now, 8);
    var id := GenerateTripId(now);
    assert id[1..] == LastChars(NatToString(now), 8);
    assert Pow10(4) == 10000;
    assert Pow10(8) == 100000000 by {
      assert Pow10(8) == 10000 * Pow10(4) by { Pow10Add(4, 4); }
    }
    assert Pow10(7) == 10000000 by {
      assert Pow10(7) == Pow10(3) * Pow10(4) by { Pow10Add(3, 4); }
    }
    NatToStringLength(now, 7);
  }

  /** Leading zeros of the last eight digits are kept: 100001234 gives
      `T00001234`. */
  lemma GenerateTripIdKeepsZeros()
    ensures GenerateTripId(100001234) == "T00001234"
  {
    assert NatToString(1) == "1";
    assert NatToString(10) == "10";
    assert NatToString(100) == "100";
    assert NatToString(1000) == "1000";
    assert NatToString(10000) == "10000";
    assert NatToString(100001) == "100001";
    assert NatToString(1000012) == "1000012";
    assert NatToString(10000123) == "10000123";
    assert NatToString(100001234) == "100001234";
    assert LastChars("100001234", 8) == "00001234";
  }

  lemma {:induction false} Pow10Add(a: nat, b: nat)
    ensures Pow10(a + b) == Pow10(a) * Pow10(b)
    decreases a
  {
    if a > 0 { Pow10Add(a - 1, b); }
  }
}
