/** Shared vocabulary: optional values, identifiers, sums over table columns and
    the decimal text that ends up inside idempotency keys. */
module Common {

  datatype Option<+T> = None | Some(value: T)

  /** The canonical text form of a UUID always has 36 characters (RFC 4122, section 3). */
  type Uuid = s: string | |s| == 36 witness "00000000-0000-0000-0000-000000000000"

  datatype BookingStatus = Pending | Confirmed | Cancelled | Refunded

  // ---------------------------------------------------------------- sums

  /** SQL's COALESCE(SUM(column), 0). */
  function Sum(s: seq<int>): int {
    if s == [] then 0 else Sum(s[..|s| - 1]) + s[|s| - 1]
  }

  lemma SumAppend(s: seq<int>, x: int)
    ensures Sum(s + [x]) == Sum(s) + x
  {
    assert (s + [x])[..|s|] == s;
  }

  lemma {:induction false} SumConcat(s: seq<int>, t: seq<int>)
    ensures Sum(s + t) == Sum(s) + Sum(t)
  {
    if t == [] {
      assert s + t == s;
    } else {
      var front, last := t[..|t| - 1], t[|t| - 1];
      assert s + t == (s + front) + [last];
      SumAppend(s + front, last);
      SumConcat(s, front);
    }
  }

  lemma {:induction false} SumUpdate(s: seq<int>, i: nat, v: int)
    requires i < |s|
    ensures Sum(s[i := v]) == Sum(s) - s[i] + v
  {
    var n := |s| - 1;
    if i == n {
      assert s[i := v][..n] == s[..n];
    } else {
      SumUpdate(s[..n], i, v);
      assert s[i := v][..n] == s[..n][i := v];
    }
  }

  /** Pointwise smaller columns have smaller sums. */
  lemma {:induction false} SumMonotone(s: seq<int>, t: seq<int>)
    requires |s| == |t|
    requires forall i :: 0 <= i < |s| ==> s[i] <= t[i]
    ensures Sum(s) <= Sum(t)
  {
    if s != [] {
      SumMonotone(s[..|s| - 1], t[..|t| - 1]);
    }
  }

  lemma {:induction false} SumNonNegative(s: seq<int>)
    requires forall i :: 0 <= i < |s| ==> 0 <= s[i]
    ensures 0 <= Sum(s)
    ensures forall i :: 0 <= i < |s| ==> s[i] <= Sum(s)
  {
    if s != [] {
      SumNonNegative(s[..|s| - 1]);
    }
  }

  lemma {:induction false} SumAdd(s: seq<int>, t: seq<int>, u: seq<int>)
    requires |s| == |t| == |u|
    requires forall i :: 0 <= i < |s| ==> u[i] == s[i] + t[i]
    ensures Sum(u) == Sum(s) + Sum(t)
  {
    if s != [] {
      SumAdd(s[..|s| - 1], t[..|t| - 1], u[..|u| - 1]);
    }
  }

  lemma {:induction false} SumZero(s: seq<int>)
    requires forall i :: 0 <= i < |s| ==> s[i] == 0
    ensures Sum(s) == 0
  {
    if s != [] {
      SumZero(s[..|s| - 1]);
    }
  }

  // ---------------------------------------------------------------- decimal text

  function Digit(d: nat): (c: char)
    requires d < 10
  {
    '0' + d as char
  }

  /** Decimal text of `n`, zero-padded on the left to at least `width` digits. */
  function PadDec(n: nat, width: nat): (s: string)
    ensures |s| >= 1 && |s| >= width
    ensures forall i :: 0 <= i < |s| ==> '0' <= s[i] <= '9'
    ensures n < 100 && width == 2 ==> |s| == 2
    decreases n + width
  {
    if n < 10 && width <= 1 then [Digit(n)]
    else PadDec(n / 10, if width == 0 then 0 else width - 1) + [Digit(n % 10)]
  }

  /** The number a digit string denotes; leading zeros are immaterial. */
  function DecValue(s: string): int {
    if s == [] then 0
    else 10 * DecValue(s[..|s| - 1]) + (s[|s| - 1] as int - '0' as int)
  }

  lemma {:induction false} DecRoundTrip(n: nat, width: nat)
    ensures DecValue(PadDec(n, width)) == n
    decreases n + width
  {
    if n < 10 && width <= 1 {
      assert PadDec(n, width)[..0] == [];
    } else {
      var w := if width == 0 then 0 else width - 1;
      var front := PadDec(n / 10, w);
      DecRoundTrip(n / 10, w);
      assert PadDec(n, width) == front + [Digit(n % 10)];
      assert (front + [Digit(n % 10)])[..|front|] == front;
    }
  }

  /** Equal decimal texts denote equal numbers, whatever the padding. */
  lemma DecInjective(m: nat, n: nat, width: nat)
    requires PadDec(m, width) == PadDec(n, width)
    ensures m == n
  {
    DecRoundTrip(m, width);
    DecRoundTrip(n, width);
  }

  /** Signed decimal text, the padding applying to the digits after the sign. */
  function Signed(n: int, width: nat): string {
    if n < 0 then "-" + PadDec(-n, width) else PadDec(n, width)
  }

  lemma SignedParts(n: int, width: nat)
    ensures Signed(n, width)[0] == '-' <==> n < 0
    ensures n < 0 ==> Signed(n, width)[1..] == PadDec(-n, width)
  {
    assert n >= 0 ==> '0' <= PadDec(n, width)[0];
  }

  lemma SignedInjective(m: int, n: int, width: nat)
    requires Signed(m, width) == Signed(n, width)
    ensures m == n
  {
    SignedParts(m, width);
    SignedParts(n, width);
    DecInjective(if m < 0 then -m else m, if n < 0 then -n else n, width);
  }
}
