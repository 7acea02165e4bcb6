/**
 The y-axis limits the viewer fits around the visible data: the data's range widened by a
 tenth of its spread on each side, with a fallback margin when every value is the same.
 Values are exact reals; the source's floating-point arithmetic is not modelled.
 */
module AxisRange {

  datatype Limits = Limits(low: real, high: real)

  function Abs(x: real): real {
    if x < 0.0 then -x else x
  }

  /** `min(data)`. */
  function Min(data: seq<real>): (m: real)
    requires |data| > 0
    ensures m in data
    ensures forall x :: x in data ==> m <= x
  {
    if |data| == 1 then data[0]
    else
      var rest := Min(data[1..]);
      assert data == [data[0]] + data[1..];
      if data[0] <= rest then data[0] else rest
  }

  /** `max(data)`. */
  function Max(data: seq<real>): (m: real)
    requires |data| > 0
    ensures m in data
    ensures forall x :: x in data ==> x <= m
  {
    if |data| == 1 then data[0]
    else
      var rest := Max(data[1..]);
      assert data == [data[0]] + data[1..];
      if rest <= data[0] then data[0] else rest
  }

  /**
   The margin added on each side: a tenth of the spread; when the spread is zero, a tenth
   of the value's magnitude, or 1 when the value is 0.
   */
  function Margin(low: real, high: real): (m: real)
    requires low <= high
    ensures m > 0.0
  {
    var m := (high - low) * 0.1;
    if m == 0.0 then (if low != 0.0 then Abs(low) * 0.1 else 1.0) else m
  }

  /** The limits `[min - margin, max + margin]` fitted to non-empty data. */
  function Fit(data: seq<real>): (b: Limits)
    requires |data| > 0
    ensures b.low < b.high
    ensures forall x :: x in data ==> b.low < x < b.high
    ensures b.low + b.high == Min(data) + Max(data)
    ensures Min(data) < Max(data) ==> b.high - b.low == (Max(data) - Min(data)) * 1.2
    ensures Min(data) == Max(data) != 0.0 ==> b.high - b.low == Abs(Min(data)) * 0.2
    ensures Min(data) == Max(data) == 0.0 ==> b == Limits(-1.0, 1.0)
  {
    var lo := Min(data);
    var hi := Max(data);
    var m := Margin(lo, hi);
    Limits(lo - m, hi + m)
  }

  /** Values 2, 4, 6: the margin is 0.4 and the limits are [1.6, 6.4]. */
  lemma SpreadExample()
    ensures Fit([2.0, 4.0, 6.0]) == Limits(1.6, 6.4)
  {
    var data := [2.0, 4.0, 6.0];
    assert Min(data) == 2.0 by {
      assert Min(data[2..]) == 6.0;
      assert data[1..][1..] == data[2..];
    }
    assert Max(data) == 6.0 by {
      assert Max(data[2..]) == 6.0;
      assert data[1..][1..] == data[2..];
    }
  }

  /** Values 5, 5, 5: the spread is zero, the margin falls back to 0.5, the limits are [4.5, 5.5]. */
  lemma FlatExample()
    ensures Fit([5.0, 5.0, 5.0]) == Limits(4.5, 5.5)
  {
    var data := [5.0, 5.0, 5.0];
    assert Min(data) == 5.0 && Max(data) == 5.0 by {
      assert Min(data[2..]) == 5.0 && Max(data[2..]) == 5.0;
      assert data[1..][1..] == data[2..];
    }
  }
}
