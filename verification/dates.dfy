/**
 * Calendar dates as an `<input type="date">` yields them ("yyyy-mm-dd"),
 * reduced to a comparable day number the way `new Date(value)` would
 * order them.
 */
module IsoDate {
  import opened Common
  import opened JsText

  function DigitValue(c: char): (d: nat)
    requires IsAsciiDigit(c)
    ensures d < 10
  {
    c as int - '0' as int
  }

  /** The number a run of ASCII digits spells, most significant first. */
  function DigitsNumber(s: string): nat
    requires AllDigits(s)
  {
    if s == [] then 0 else 10 * DigitsNumber(s[..|s| - 1]) + DigitValue(s[|s| - 1])
  }

  predicate DigitsAt(s: string, from: nat, to: nat)
    requires from <= to <= |s|
  {
    AllDigits(s[from..to])
  }

  /** "yyyy-mm-dd" with a month from 1 to 12 and a day from 1 to 31. */
  predicate IsDateText(s: string) {
    |s| == 10 && s[4] == '-' && s[7] == '-' &&
    DigitsAt(s, 0, 4) && DigitsAt(s, 5, 7) && DigitsAt(s, 8, 10) &&
    1 <= DigitsNumber(s[5..7]) <= 12 && 1 <= DigitsNumber(s[8..10]) <= 31
  }

  /** The day number `yyyymmdd` of a date text; `None` when `new Date`
      would give an invalid date. */
  function DayKey(s: string): (r: Option<int>)
    ensures r.Some? <==> IsDateText(s)
  {
    if IsDateText(s) then
      Some(DigitsNumber(s[0..4]) * 10000 + DigitsNumber(s[5..7]) * 100 + DigitsNumber(s[8..10]))
    else None
  }

  function Pow10(n: nat): (r: nat)
    ensures r >= 1
  {
    if n == 0 then 1 else 10 * Pow10(n - 1)
  }

  lemma AllDigitsSlice(s: string, i: nat, j: nat)
    requires AllDigits(s) && i <= j <= |s|
    ensures AllDigits(s[i..j])
  {
    assert forall k | 0 <= k < j - i :: s[i..j][k] == s[i + k];
  }

  /** A run of n digits spells a number below 10^n. */
  lemma {:induction false} DigitsBound(s: string)
    requires AllDigits(s)
    ensures DigitsNumber(s) < Pow10(|s|)
    decreases |s|
  {
    if s != [] {
      AllDigitsSlice(s, 0, |s| - 1);
      DigitsBound(s[..|s| - 1]);
    }
  }

  /** The leading digit weighs 10^(n-1). */
  lemma {:induction false} DigitsFront(s: string)
    requires AllDigits(s) && s != []
    ensures AllDigits(s[1..])
    ensures DigitsNumber(s) == DigitValue(s[0]) * Pow10(|s| - 1) + DigitsNumber(s[1..])
    decreases |s|
  {
    AllDigitsSlice(s, 1, |s|);
    if |s| == 1 {
      assert s[..0] == [] && s[1..] == [];
    } else {
      var init := s[..|s| - 1];
      var rest := s[1..];
      AllDigitsSlice(s, 0, |s| - 1);
      AllDigitsSlice(rest, 0, |rest| - 1);
      DigitsFront(init);
      assert init[0] == s[0];
      assert init[1..] == rest[..|rest| - 1];
      assert rest[|rest| - 1] == s[|s| - 1];
      var d, p, a, l := DigitValue(s[0]), Pow10(|s| - 2), DigitsNumber(init[1..]), DigitValue(s[|s| - 1]);
      assert DigitsNumber(s) == 10 * DigitsNumber(init) + l;
      assert DigitsNumber(init) == d * p + a;
      assert DigitsNumber(rest) == 10 * a + l;
      assert Pow10(|s| - 1) == 10 * p;
      Regroup(d, p, a, l);
    }
  }

  lemma Regroup(d: int, p: int, a: int, l: int)
    ensures 10 * (d * p + a) + l == d * (10 * p) + (10 * a + l)
  {
  }

  lemma LeadingPlace(dx: nat, dy: nat, p: nat, rx: nat, ry: nat)
    requires dx < dy && rx < p && ry < p
    ensures dx * p + rx < dy * p + ry
  {
    var k := dy - dx;
    assert dy * p == dx * p + k * p;
    assert k * p == (k - 1) * p + p;
    assert (k - 1) * p >= 0;
  }

  /** On digit runs of one length, string order is numeric order. */
  lemma {:induction false} DigitsOrder(x: string, y: string)
    requires AllDigits(x) && AllDigits(y) && |x| == |y|
    ensures LexLess(x, y) <==> DigitsNumber(x) < DigitsNumber(y)
    ensures x == y <==> DigitsNumber(x) == DigitsNumber(y)
    decreases |x|
  {
    if x != [] {
      DigitsFront(x);
      DigitsFront(y);
      DigitsOrder(x[1..], y[1..]);
      DigitsBound(x[1..]);
      DigitsBound(y[1..]);
      var p := Pow10(|x| - 1);
      var dx, dy := DigitValue(x[0]), DigitValue(y[0]);
      if dx < dy {
        LeadingPlace(dx, dy, p, DigitsNumber(x[1..]), DigitsNumber(y[1..]));
      } else if dy < dx {
        LeadingPlace(dy, dx, p, DigitsNumber(y[1..]), DigitsNumber(x[1..]));
      } else {
        assert x[0] == y[0];
        assert x == [x[0]] + x[1..] && y == [y[0]] + y[1..];
      }
    }
  }

  /** Date texts compared as strings, as the leave forms compare them,
      are in calendar order: the string order agrees with the order of
      the day numbers. */
  lemma DateTextOrder(a: string, b: string)
    requires IsDateText(a) && IsDateText(b)
    ensures LexLess(a, b) <==> DayKey(a).value < DayKey(b).value
    ensures a == b <==> DayKey(a).value == DayKey(b).value
  {
    var ya, ma, da := a[0..4], a[5..7], a[8..10];
    var yb, mb, db := b[0..4], b[5..7], b[8..10];
    assert a == ya + ("-" + (ma + ("-" + da)));
    assert b == yb + ("-" + (mb + ("-" + db)));
    LexLessConcat(ya, "-" + (ma + ("-" + da)), yb, "-" + (mb + ("-" + db)));
    LexLessConcat("-", ma + ("-" + da), "-", mb + ("-" + db));
    LexLessConcat(ma, "-" + da, mb, "-" + db);
    LexLessConcat("-", da, "-", db);
    LexLessIrreflexive("-");
    DigitsOrder(ya, yb);
    DigitsOrder(ma, mb);
    DigitsOrder(da, db);
    var Ya, Ma, Da := DigitsNumber(ya), DigitsNumber(ma), DigitsNumber(da);
    var Yb, Mb, Db := DigitsNumber(yb), DigitsNumber(mb), DigitsNumber(db);
    KeyOrder(Ya, Ma, Da, Yb, Mb, Db);
  }

  /** The day-number arithmetic: a month and a day below 100 never carry
      into the next place. */
  lemma KeyOrder(ya: nat, ma: nat, da: nat, yb: nat, mb: nat, db: nat)
    requires ma < 100 && da < 100 && mb < 100 && db < 100
    ensures ya * 10000 + ma * 100 + da < yb * 10000 + mb * 100 + db <==>
      ya < yb || (ya == yb && (ma < mb || (ma == mb && da < db)))
    ensures ya * 10000 + ma * 100 + da == yb * 10000 + mb * 100 + db <==>
      ya == yb && ma == mb && da == db
  {
    if ya < yb {
      assert ya * 10000 + 10000 <= yb * 10000;
    } else if yb < ya {
      assert yb * 10000 + 10000 <= ya * 10000;
    } else if ma < mb {
      assert ma * 100 + 100 <= mb * 100;
    } else if mb < ma {
      assert mb * 100 + 100 <= ma * 100;
    }
  }
}
