/** Decimal tokens ("45285.2", "1E-8") and their exact order.

    Prices and sizes travel as strings.  `Cmp` orders two tokens by raw digits,
    after `ToPlain` has written out any exponent.  The reference is `Value`, the
    rational number a token denotes; `CmpAgrees` says that the digit comparison
    and the order of the values are the same thing. */
module Decimal {

  // ---------- character-level vocabulary ----------

  predicate IsDigit(c: char) {
    '0' <= c <= '9'
  }

  predicate AllDigits(s: string) {
    forall i :: 0 <= i < |s| ==> IsDigit(s[i])
  }

  /** The index of the first occurrence of `c` at `i` or later, or -1. */
  function IndexFrom(s: string, c: char, i: nat): (r: int)
    requires i <= |s|
    ensures r == -1 || (i <= r < |s| && s[r] == c)
    ensures forall j :: i <= j < (if r == -1 then |s| else r) ==> s[j] != c
    decreases |s| - i
  {
    if i == |s| then -1 else if s[i] == c then i else IndexFrom(s, c, i + 1)
  }

  /** The index of the first occurrence of `c`, or -1. */
  function IndexOf(s: string, c: char): (r: int)
    ensures r == -1 || (0 <= r < |s| && s[r] == c)
    ensures forall j :: 0 <= j < (if r == -1 then |s| else r) ==> s[j] != c
  {
    IndexFrom(s, c, 0)
  }

  function Zeros(n: nat): (s: string)
    ensures |s| == n && AllDigits(s)
    ensures forall i :: 0 <= i < n ==> s[i] == '0'
  {
    seq(n, _ => '0')
  }

  /** Drops the leading zeros. */
  function StripZeros(s: string): string {
    if s != [] && s[0] == '0' then StripZeros(s[1..]) else s
  }

  /** The order of two strings, character by character. */
  predicate LexLess(a: string, b: string) {
    if b == [] then false
    else if a == [] then true
    else if a[0] != b[0] then a[0] < b[0]
    else LexLess(a[1..], b[1..])
  }

  // ---------- tokens ----------

  /** Digits with at most one point and at least one digit. */
  predicate IsMantissa(s: string) {
    var dot := IndexOf(s, '.');
    if dot == -1 then s != [] && AllDigits(s)
    else |s| > 1 && AllDigits(s[..dot]) && AllDigits(s[dot + 1..])
  }

  predicate IsExponent(s: string) {
    var digits := if s != [] && (s[0] == '-' || s[0] == '+') then s[1..] else s;
    digits != [] && AllDigits(digits)
  }

  function ExponentIndex(s: string): (r: int)
    ensures -1 <= r < |s|
  {
    var e := IndexOf(s, 'e');
    if e == -1 then IndexOf(s, 'E') else e
  }

  predicate WellFormed(s: string) {
    var e := ExponentIndex(s);
    if e == -1 then IsMantissa(s) else IsMantissa(s[..e]) && IsExponent(s[e + 1..])
  }

  /** A well-formed non-negative decimal token. */
  type Token = s: string | WellFormed(s) witness "0"

  function IntPart(m: string): string {
    var dot := IndexOf(m, '.');
    if dot == -1 then m else m[..dot]
  }

  function FracPart(m: string): string {
    var dot := IndexOf(m, '.');
    if dot == -1 then "" else m[dot + 1..]
  }

  // ---------- the number a token denotes ----------

  function Nat(digits: string): nat
    requires AllDigits(digits)
  {
    if digits == [] then 0
    else 10 * Nat(digits[..|digits| - 1]) + (digits[|digits| - 1] - '0') as int
  }

  function Pow10(n: nat): (p: nat)
    ensures p > 0
  {
    if n == 0 then 1 else 10 * Pow10(n - 1)
  }

  function Exponent(s: string): int
    requires IsExponent(s)
  {
    var negative := s[0] == '-';
    var magnitude: int := if negative || s[0] == '+' then Nat(s[1..]) else Nat(s);
    if negative then -magnitude else magnitude
  }

  /** `m` followed by `j` zeros. */
  function Shift(m: nat, j: nat): nat {
    if j == 0 then m else 10 * Shift(m, j - 1)
  }

  /** `m` counted in units of ten to the power -k. */
  function Scaled(m: nat, k: int): (v: real)
    ensures v >= 0.0
    decreases if k < 0 then -k else k
  {
    if k == 0 then m as real
    else if k > 0 then Scaled(m, k - 1) / 10.0
    else Scaled(m, k + 1) * 10.0
  }

  /** All mantissa digits as one integer, scaled by the fraction digits and the exponent. */
  function PartsValue(intPart: string, frac: string, exp: int): (v: real)
    requires AllDigits(intPart + frac)
    ensures v >= 0.0
  {
    Scaled(Nat(intPart + frac), |frac| - exp)
  }

  /** The exact rational value of a token. */
  function Value(s: Token): (v: real)
    ensures v >= 0.0
  {
    var e := ExponentIndex(s);
    if e == -1 then
      PlainValue(s)
    else
      PartsAreDigits(s[..e]);
      PartsValue(IntPart(s[..e]), FracPart(s[..e]), Exponent(s[e + 1..]))
  }

  /** The value of a token without exponent. */
  function PlainValue(m: string): (v: real)
    requires IsMantissa(m)
    ensures v >= 0.0
  {
    PartsAreDigits(m);
    PartsValue(IntPart(m), FracPart(m), 0)
  }

  lemma {:induction false} PartsAreDigits(m: string)
    requires IsMantissa(m)
    ensures AllDigits(IntPart(m)) && AllDigits(FracPart(m)) && AllDigits(IntPart(m) + FracPart(m))
    ensures IntPart(m) + FracPart(m) != []
  {
    if IndexOf(m, '.') == -1 {
      assert m + "" == m;
    }
  }

  // ---------- the two functions of the gateway ----------

  /** The digits with the point moved `exp` places, zeros filled in where needed. */
  function MovePoint(intPart: string, frac: string, exp: int): string {
    var digits := intPart + frac;
    var point := |intPart| + exp;
    if point <= 0 then "0." + Zeros(-point) + digits
    else if point >= |digits| then digits + Zeros(point - |digits|)
    else digits[..point] + "." + digits[point..]
  }

  /** A token with its exponent written out. */
  function ToPlain(s: Token): string {
    var e := ExponentIndex(s);
    if e == -1 then s else MovePoint(IntPart(s[..e]), FracPart(s[..e]), Exponent(s[e + 1..]))
  }

  function PadEnd(s: string, n: nat): string {
    if |s| >= n then s else s + Zeros(n - |s|)
  }

  /** Compares two integer parts without leading zeros and two fractions of one length. */
  function CmpParts(intA: string, fracA: string, intB: string, fracB: string): int {
    if |intA| != |intB| then |intA| - |intB|
    else if intA != intB then (if LexLess(intA, intB) then -1 else 1)
    else if fracA == fracB then 0
    else if LexLess(fracA, fracB) then -1
    else 1
  }

  /** Negative, zero or positive as `a` is below, equal to or above `b`. */
  function Cmp(a: Token, b: Token): int {
    var pa, pb := ToPlain(a), ToPlain(b);
    var n := Max(|FracPart(pa)|, |FracPart(pb)|);
    CmpParts(StripZeros(IntPart(pa)), PadEnd(FracPart(pa), n), StripZeros(IntPart(pb)), PadEnd(FracPart(pb), n))
  }

  function Max(m: nat, n: nat): nat {
    if m > n then m else n
  }

  /** A level with size zero is a removal, however the zero is spelled. */
  predicate IsZeroSize(size: Token) {
    Value(size) == 0.0
  }

  // ---------- digit strings as numbers ----------

  lemma {:induction false} NatConcat(a: string, b: string)
    requires AllDigits(a) && AllDigits(b)
    ensures AllDigits(a + b) && Nat(a + b) == Shift(Nat(a), |b|) + Nat(b)
  {
    if b == [] {
      assert a + b == a;
    } else {
      var b' := b[..|b| - 1];
      assert (a + b)[..|a + b| - 1] == a + b';
      NatConcat(a, b');
    }
  }

  lemma {:induction false} ShiftZero(j: nat)
    ensures Shift(0, j) == 0
  {
    if j > 0 {
      ShiftZero(j - 1);
    }
  }

  lemma {:induction false} ShiftMonotone(x: nat, y: nat, j: nat)
    requires x < y
    ensures Shift(x, j) + Pow10(j) <= Shift(y, j)
  {
    if j > 0 {
      ShiftMonotone(x, y, j - 1);
    }
  }

  lemma {:induction false} NatZeros(n: nat)
    ensures Nat(Zeros(n)) == 0
  {
    if n > 0 {
      assert Zeros(n)[..n - 1] == Zeros(n - 1);
      NatZeros(n - 1);
    }
  }

  lemma NatAppendZeros(a: string, n: nat)
    requires AllDigits(a)
    ensures AllDigits(a + Zeros(n)) && Nat(a + Zeros(n)) == Shift(Nat(a), n)
  {
    NatConcat(a, Zeros(n));
    NatZeros(n);
  }

  lemma NatLeadingZero(a: string)
    requires AllDigits(a)
    ensures AllDigits("0" + a) && Nat("0" + a) == Nat(a)
  {
    NatConcat("0", a);
    assert Nat("0") == 0 by { assert "0"[..0] == []; }
    ShiftZero(|a|);
  }

  lemma {:induction false} NatLeadingZeros(n: nat, a: string)
    requires AllDigits(a)
    ensures AllDigits(Zeros(n) + a) && Nat(Zeros(n) + a) == Nat(a)
  {
    if n == 0 {
      assert Zeros(0) + a == a;
    } else {
      NatLeadingZeros(n - 1, a);
      NatLeadingZero(Zeros(n - 1) + a);
      assert Zeros(n) + a == "0" + (Zeros(n - 1) + a);
    }
  }

  lemma {:induction false} NatBelow(s: string)
    requires AllDigits(s)
    ensures Nat(s) < Pow10(|s|)
  {
    if s != [] {
      NatBelow(s[..|s| - 1]);
    }
  }

  lemma {:induction false} NatStripZeros(a: string, b: string)
    requires AllDigits(a) && AllDigits(b)
    ensures AllDigits(StripZeros(a)) && (StripZeros(a) == [] || StripZeros(a)[0] != '0')
    ensures Nat(StripZeros(a) + b) == Nat(a + b)
  {
    if a != [] && a[0] == '0' {
      var rest := a[1..];
      NatStripZeros(rest, b);
      NatLeadingZero(rest + b);
      assert a + b == "0" + (rest + b);
      assert StripZeros(a) == StripZeros(rest);
    }
  }

  lemma NatAtLeast(s: string)
    requires AllDigits(s) && s != [] && s[0] != '0'
    ensures Nat(s) >= Pow10(|s| - 1)
  {
    FirstDigit(s);
    OneDigit(s[..1]);
    ShiftMonotone(0, Nat(s[..1]), |s| - 1);
  }

  // ---------- scaling ----------

  lemma {:induction false} ScaledTenfold(m: nat, k: int)
    ensures Scaled(10 * m, k) == 10.0 * Scaled(m, k)
    decreases if k < 0 then -k else k
  {
    if k > 0 {
      ScaledTenfold(m, k - 1);
    } else if k < 0 {
      ScaledTenfold(m, k + 1);
    }
  }

  /** Appending `j` zeros and moving the point by `j` leaves the number alone. */
  lemma {:induction false} ScaledShift(m: nat, k: int, j: nat)
    ensures Scaled(Shift(m, j), k + j) == Scaled(m, k)
  {
    if j > 0 {
      ScaledTenfold(Shift(m, j - 1), k + j);
      ScaledStep(Shift(m, j - 1), k + j - 1);
      ScaledShift(m, k, j - 1);
    }
  }

  lemma ScaledStep(m: nat, k: int)
    ensures Scaled(m, k) == Scaled(m, k + 1) * 10.0
  {
  }

  lemma {:induction false} ScaledOrder(m: nat, n: nat, k: int)
    ensures Scaled(m, k) < Scaled(n, k) <==> m < n
    ensures Scaled(m, k) == Scaled(n, k) <==> m == n
    decreases if k < 0 then -k else k
  {
    if k > 0 {
      ScaledOrder(m, n, k - 1);
    } else if k < 0 {
      ScaledOrder(m, n, k + 1);
    }
  }

  // ---------- the expansion preserves value ----------

  lemma PointAt(a: string, b: string)
    requires AllDigits(a) && AllDigits(b) && a + b != []
    ensures var m := a + "." + b; IsMantissa(m) && IntPart(m) == a && FracPart(m) == b
  {
    var m := a + "." + b;
    assert m[|a|] == '.' && forall i :: 0 <= i < |a| ==> m[i] == a[i];
    assert IndexOf(m, '.') == |a|;
    assert m[..|a|] == a && m[|a| + 1..] == b;
  }

  lemma NoPoint(a: string)
    requires AllDigits(a) && a != []
    ensures IsMantissa(a) && IntPart(a) == a && FracPart(a) == ""
  {
    assert IndexOf(a, '.') == -1;
  }

  lemma ValueWithPoint(a: string, b: string)
    requires AllDigits(a) && AllDigits(b) && a + b != []
    ensures IsMantissa(a + "." + b) && PlainValue(a + "." + b) == PartsValue(a, b, 0)
  {
    PointAt(a, b);
  }

  lemma ValueWithoutPoint(a: string)
    requires AllDigits(a) && a != []
    ensures IsMantissa(a) && PlainValue(a) == PartsValue(a, "", 0)
  {
    NoPoint(a);
  }

  /** `m` is a plain token worth the given parts. */
  predicate Writes(m: string, intPart: string, frac: string, exp: int)
    requires AllDigits(intPart + frac)
  {
    IsMantissa(m) && PlainValue(m) == PartsValue(intPart, frac, exp)
  }

  /** Equal numbers of equal digits, counted in equal units. */
  lemma SameParts(i: string, f: string, j: string, g: string, exp: int)
    requires AllDigits(i + f) && AllDigits(j + g)
    requires Nat(i + f) == Nat(j + g) && |f| == |g| - exp
    ensures PartsValue(i, f, 0) == PartsValue(j, g, exp)
  {
  }

  lemma LeadingPoint(f: string, intPart: string, frac: string, exp: int)
    requires AllDigits(intPart + frac) && AllDigits(f) && Nat(f) == Nat(intPart + frac) && |f| == |frac| - exp
    ensures Writes("0" + "." + f, intPart, frac, exp)
  {
    NatLeadingZero(f);
    SameParts("0", f, intPart, frac, exp);
    ValueWithPoint("0", f);
  }

  lemma BeforeSpelled(intPart: string, frac: string, exp: int)
    requires |intPart| + exp <= 0
    ensures MovePoint(intPart, frac, exp) == "0" + "." + (Zeros(-(|intPart| + exp)) + (intPart + frac))
  {
  }

  lemma PointBefore(intPart: string, frac: string, exp: int)
    requires AllDigits(intPart + frac) && |intPart| + exp <= 0
    ensures Writes(MovePoint(intPart, frac, exp), intPart, frac, exp)
  {
    var n, digits := -(|intPart| + exp), intPart + frac;
    NatLeadingZeros(n, digits);
    LeadingPoint(Zeros(n) + digits, intPart, frac, exp);
    BeforeSpelled(intPart, frac, exp);
  }

  lemma PointAfter(intPart: string, frac: string, exp: int)
    requires AllDigits(intPart + frac) && intPart + frac != []
    requires exp >= |frac| && |intPart| + exp > 0
    ensures Writes(MovePoint(intPart, frac, exp), intPart, frac, exp)
  {
    var digits, n := intPart + frac, exp - |frac|;
    NatAppendZeros(digits, n);
    ValueWithoutPoint(digits + Zeros(n));
    assert digits + Zeros(n) + "" == digits + Zeros(n);
    ScaledShift(Nat(digits), |frac| - exp, n);
  }

  lemma PointWithin(intPart: string, frac: string, exp: int)
    requires AllDigits(intPart + frac) && 0 < |intPart| + exp && exp < |frac|
    ensures Writes(MovePoint(intPart, frac, exp), intPart, frac, exp)
  {
    var digits, point := intPart + frac, |intPart| + exp;
    var i, f, m := digits[..point], digits[point..], MovePoint(intPart, frac, exp);
    assert m == i + "." + f;
    assert i + f == digits;
    SameParts(i, f, intPart, frac, exp);
    ValueWithPoint(i, f);
  }

  /** Moving the point by `exp` is multiplying by ten to the `exp`. */
  lemma MovePointScales(intPart: string, frac: string, exp: int)
    requires AllDigits(intPart + frac) && intPart + frac != []
    ensures Writes(MovePoint(intPart, frac, exp), intPart, frac, exp)
  {
    if |intPart| + exp <= 0 {
      PointBefore(intPart, frac, exp);
    } else if exp >= |frac| {
      PointAfter(intPart, frac, exp);
    } else {
      PointWithin(intPart, frac, exp);
    }
  }

  /** Writing the exponent out yields a plain token denoting the same number. */
  lemma ToPlainPreservesValue(s: Token)
    ensures IsMantissa(ToPlain(s)) && PlainValue(ToPlain(s)) == Value(s)
  {
    var e := ExponentIndex(s);
    if e != -1 {
      PartsAreDigits(s[..e]);
      MovePointScales(IntPart(s[..e]), FracPart(s[..e]), Exponent(s[e + 1..]));
    }
  }

  // ---------- the number, in elementary terms ----------

  /** `x` multiplied by ten, `n` times. */
  function Tenfold(x: real, n: nat): real
    decreases n
  {
    if n == 0 then x else Tenfold(x * 10.0, n - 1)
  }

  lemma {:induction false} ScaledTenfolds(m: nat, k: int, j: nat)
    ensures Tenfold(Scaled(m, k + j), j) == Scaled(m, k)
  {
    if j > 0 {
      ScaledStep(m, k + j - 1);
      ScaledTenfolds(m, k, j - 1);
    }
  }

  /** A token without exponent is its digits over a power of ten. */
  lemma PlainIsDigits(m: string)
    requires IsMantissa(m)
    ensures AllDigits(IntPart(m) + FracPart(m))
    ensures Tenfold(PlainValue(m), |FracPart(m)|) == Nat(IntPart(m) + FracPart(m)) as real
  {
    PartsAreDigits(m);
    ScaledTenfolds(Nat(IntPart(m) + FracPart(m)), 0, |FracPart(m)|);
  }

  lemma MantissaChars(m: string, i: nat)
    requires IsMantissa(m) && i < |m|
    ensures m[i] == '.' || IsDigit(m[i])
  {
    var dot := IndexOf(m, '.');
    if 0 <= i < dot {
      assert m[i] == m[..dot][i];
    } else if dot != -1 && i > dot {
      assert m[i] == m[dot + 1..][i - dot - 1];
    }
  }

  lemma FirstAt(s: string, c: char, i: nat, k: nat)
    requires i <= k < |s| && s[k] == c && forall j :: i <= j < k ==> s[j] != c
    ensures IndexFrom(s, c, i) == k
  {
  }

  lemma NowhereAt(s: string, c: char)
    requires forall j :: 0 <= j < |s| ==> s[j] != c
    ensures IndexOf(s, c) == -1
  {
  }

  lemma ExponentChars(exponent: string, i: nat)
    requires IsExponent(exponent) && i < |exponent|
    ensures exponent[i] == '-' || exponent[i] == '+' || IsDigit(exponent[i])
  {
    if exponent[0] == '-' || exponent[0] == '+' {
      assert i > 0 ==> exponent[i] == exponent[1..][i - 1];
    }
  }

  /** The exponent is what follows the mark. */
  lemma ExponentFollows(s: string, m: string, mark: char, exponent: string)
    requires IsMantissa(m) && (mark == 'e' || mark == 'E') && IsExponent(exponent)
    requires s == m + [mark] + exponent
    ensures ExponentIndex(s) == |m|
  {
    forall i | 0 <= i < |s| && i != |m| ensures s[i] != 'e' && s[i] != 'E' {
      if i < |m| {
        MantissaChars(m, i);
      } else {
        ExponentChars(exponent, i - |m| - 1);
      }
    }
    FirstAt(s, mark, 0, |m|);
    if mark == 'E' {
      NowhereAt(s, 'e');
    }
  }

  /** What an exponent does to its mantissa's value. */
  predicate Shifts(value: real, mantissa: real, negative: bool, places: nat) {
    if negative then Tenfold(value, places) == mantissa else value == Tenfold(mantissa, places)
  }

  function Abs(x: int): nat {
    if x < 0 then -x else x
  }

  lemma PartsShift(intPart: string, frac: string, exp: int)
    requires AllDigits(intPart + frac)
    ensures Shifts(PartsValue(intPart, frac, exp), PartsValue(intPart, frac, 0), exp < 0, Abs(exp))
  {
    ScaledTenfolds(Nat(intPart + frac), if exp < 0 then |frac| else |frac| - exp, Abs(exp));
  }

  lemma ExponentSign(sign: string, digits: string)
    requires sign in ["", "+", "-"] && AllDigits(digits) && digits != []
    ensures IsExponent(sign + digits)
    ensures Exponent(sign + digits) == if sign == "-" then -(Nat(digits) as int) else Nat(digits)
  {
    if sign == "" {
      assert sign + digits == digits;
    } else {
      assert (sign + digits)[1..] == digits;
    }
  }

  /** A negative exponent divides by that power of ten, any other multiplies by it. */
  lemma ExponentShifts(s: Token)
    requires ExponentIndex(s) != -1
    ensures var m, x := s[..ExponentIndex(s)], s[ExponentIndex(s) + 1..];
            && IsMantissa(m) && IsExponent(x)
            && Shifts(Value(s), PlainValue(m), Exponent(x) < 0, Abs(Exponent(x)))
  {
    var m, x := s[..ExponentIndex(s)], s[ExponentIndex(s) + 1..];
    PartsAreDigits(m);
    PartsShift(IntPart(m), FracPart(m), Exponent(x));
  }

  // ---------- digit order is value order ----------

  lemma OneDigit(s: string)
    requires AllDigits(s) && |s| == 1
    ensures Nat(s) == (s[0] - '0') as int
  {
    assert s[..0] == [];
  }

  lemma FirstDigit(s: string)
    requires AllDigits(s) && s != []
    ensures Nat(s) == Shift(Nat(s[..1]), |s| - 1) + Nat(s[1..])
  {
    assert s == s[..1] + s[1..];
    NatConcat(s[..1], s[1..]);
  }

  /** On digit strings of one length, the string order is the numeric order. */
  lemma {:induction false} LexIsNumeric(a: string, b: string)
    requires |a| == |b| && AllDigits(a) && AllDigits(b)
    ensures LexLess(a, b) <==> Nat(a) < Nat(b)
    ensures a == b <==> Nat(a) == Nat(b)
  {
    if a != [] {
      var a', b' := a[1..], b[1..];
      LexIsNumeric(a', b');
      FirstDigit(a);
      FirstDigit(b);
      NatBelow(a');
      NatBelow(b');
      OneDigit(a[..1]);
      OneDigit(b[..1]);
      var x, y := Nat(a[..1]), Nat(b[..1]);
      if x < y {
        ShiftMonotone(x, y, |a'|);
      } else if y < x {
        ShiftMonotone(y, x, |a'|);
      }
      assert a == [a[0]] + a' && b == [b[0]] + b';
    }
  }

  lemma {:induction false} LexConcat(a: string, c: string, b: string, d: string)
    requires |a| == |b|
    ensures LexLess(a + c, b + d) == if a != b then LexLess(a, b) else LexLess(c, d)
  {
    if a == [] {
      assert a + c == c && b + d == d;
    } else {
      assert (a + c)[1..] == a[1..] + c && (b + d)[1..] == b[1..] + d;
      assert a == [a[0]] + a[1..] && b == [b[0]] + b[1..];
      LexConcat(a[1..], c, b[1..], d);
    }
  }

  /** Fewer digits, none of them leading zeros, is the smaller number. */
  lemma ShorterIsSmaller(a: string, b: string)
    requires AllDigits(a) && AllDigits(b) && |a| < |b| && b[0] != '0'
    ensures Nat(a) < Nat(b)
  {
    NatBelow(a);
    NatAtLeast(b);
    Pow10Monotone(|a|, |b| - 1);
  }

  lemma {:induction false} Pow10Monotone(m: nat, n: nat)
    requires m <= n
    ensures Pow10(m) <= Pow10(n)
  {
    if m < n {
      Pow10Monotone(m, n - 1);
    }
  }

  /** A plain token, with leading zeros dropped and the fraction padded to `n` digits,
      is the same number in units of 10^-n. */
  lemma {:induction false} PlainInUnits(m: string, n: nat)
    requires IsMantissa(m) && n >= |FracPart(m)|
    ensures var i, f := StripZeros(IntPart(m)), PadEnd(FracPart(m), n);
            AllDigits(i) && AllDigits(f) && |f| == n && (i == [] || i[0] != '0') &&
            AllDigits(i + f) && PlainValue(m) == Scaled(Nat(i + f), n)
  {
    PartsAreDigits(m);
    var intPart, frac := IntPart(m), FracPart(m);
    var i, j := StripZeros(intPart), n - |frac|;
    NatStripZeros(intPart, frac);
    NatAppendZeros(i + frac, j);
    assert i + PadEnd(frac, n) == (i + frac) + Zeros(j);
    ScaledShift(Nat(intPart + frac), |frac|, j);
  }

  lemma CmpPartsAgrees(intA: string, fracA: string, intB: string, fracB: string)
    requires AllDigits(intA) && AllDigits(fracA) && AllDigits(intB) && AllDigits(fracB)
    requires |fracA| == |fracB|
    requires intA == [] || intA[0] != '0'
    requires intB == [] || intB[0] != '0'
    ensures CmpParts(intA, fracA, intB, fracB) < 0 <==> Nat(intA + fracA) < Nat(intB + fracB)
    ensures CmpParts(intA, fracA, intB, fracB) == 0 <==> Nat(intA + fracA) == Nat(intB + fracB)
  {
    if |intA| < |intB| {
      ShorterIsSmaller(intA + fracA, intB + fracB);
    } else if |intB| < |intA| {
      ShorterIsSmaller(intB + fracB, intA + fracA);
    } else {
      LexConcat(intA, fracA, intB, fracB);
      LexIsNumeric(intA + fracA, intB + fracB);
      assert intA == (intA + fracA)[..|intA|] && intB == (intB + fracB)[..|intB|];
      assert fracA == (intA + fracA)[|intA|..] && fracB == (intB + fracB)[|intB|..];
    }
  }

  /** The digit comparison is exactly the order of the values, for any two tokens of
      any length, with or without exponents. */
  lemma CmpAgrees(a: Token, b: Token)
    ensures Cmp(a, b) < 0 <==> Value(a) < Value(b)
    ensures Cmp(a, b) == 0 <==> Value(a) == Value(b)
    ensures Cmp(a, b) > 0 <==> Value(a) > Value(b)
  {
    var pa, pb := ToPlain(a), ToPlain(b);
    ToPlainPreservesValue(a);
    ToPlainPreservesValue(b);
    var n := Max(|FracPart(pa)|, |FracPart(pb)|);
    PlainInUnits(pa, n);
    PlainInUnits(pb, n);
    var ia, ib := StripZeros(IntPart(pa)), StripZeros(IntPart(pb));
    var fa, fb := PadEnd(FracPart(pa), n), PadEnd(FracPart(pb), n);
    CmpPartsAgrees(ia, fa, ib, fb);
    ScaledOrder(Nat(ia + fa), Nat(ib + fb), n);
  }

  /** Hence a total preorder on tokens. */
  lemma CmpIsPreorder(a: Token, b: Token, c: Token)
    ensures Cmp(a, a) == 0
    ensures Cmp(a, b) <= 0 && Cmp(b, c) <= 0 ==> Cmp(a, c) <= 0
    ensures Cmp(a, b) < 0 <==> Cmp(b, a) > 0
  {
    CmpAgrees(a, a);
    CmpAgrees(a, b);
    CmpAgrees(b, a);
    CmpAgrees(b, c);
    CmpAgrees(a, c);
  }
}
