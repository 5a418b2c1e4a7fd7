/** Camera output sizes (`android.util.Size`), the area comparator that both
    demo activities define, and `Collections.min` under that comparator. */
module Sizes {
  import opened JavaInt

  datatype Size = Size(width: int, height: int)

  /** Both dimensions are Java `int`s, as every `android.util.Size` is. */
  predicate IsJavaSize(s: Size) { IsInt32(s.width) && IsInt32(s.height) }

  predicate AllJavaSizes(s: seq<Size>) { forall i :: 0 <= i < |s| ==> IsJavaSize(s[i]) }

  /** The exact pixel count of a size. */
  function Area(s: Size): int { s.width * s.height }

  /** `compare(lhs, rhs)` as written: each area is a `long` product and their
      difference a `long` subtraction, both wrapping at 64 bits. */
  function CompareSizesByArea(lhs: Size, rhs: Size): int
  {
    Signum(Wrap64(Wrap64(lhs.width * lhs.height) - Wrap64(rhs.width * rhs.height)))
  }

  /** Multiplication is monotonic on non-negative factors. */
  lemma MulMonotonic(x: int, y: int, xMax: int, yMax: int)
    requires 0 <= x <= xMax && 0 <= y <= yMax
    ensures x * y <= xMax * yMax
  {
    assert x * y <= xMax * y by {
      assert (xMax - x) * y >= 0;
    }
    assert xMax * y <= xMax * yMax by {
      assert xMax * (yMax - y) >= 0;
    }
  }

  /** The product of two `int`s lies in
      [INT_MIN * INT_MAX, INT_MIN * INT_MIN], well within `long`. */
  lemma ProductOfInts(a: int, b: int)
    requires IsInt32(a) && IsInt32(b)
    ensures INT_MIN * INT_MAX <= a * b <= INT_MIN * INT_MIN
  {
    if a >= 0 && b >= 0 {
      MulMonotonic(a, b, INT_MAX, INT_MAX);
    } else if a < 0 && b < 0 {
      MulMonotonic(-a, -b, -INT_MIN, -INT_MIN);
      assert a * b == (-a) * (-b);
    } else if a < 0 {
      MulMonotonic(-a, b, -INT_MIN, INT_MAX);
      assert a * b == -((-a) * b);
    } else {
      MulMonotonic(a, -b, INT_MAX, -INT_MIN);
      assert a * b == -(a * (-b));
    }
  }

  /** The casts to `long` do what the source's comment says: for any two
      sizes the comparator is the sign of the exact area difference. */
  lemma {:induction false} CompareIsSignOfAreaDifference(lhs: Size, rhs: Size)
    requires IsJavaSize(lhs) && IsJavaSize(rhs)
    ensures CompareSizesByArea(lhs, rhs) == Signum(Area(lhs) - Area(rhs))
    ensures CompareSizesByArea(lhs, rhs) < 0 <==> Area(lhs) < Area(rhs)
  {
    ProductOfInts(lhs.width, lhs.height);
    ProductOfInts(rhs.width, rhs.height);
    assert Wrap64(lhs.width * lhs.height) == Area(lhs);
    assert Wrap64(rhs.width * rhs.height) == Area(rhs);
    assert IsInt64(Area(lhs) - Area(rhs));
  }

  /** `Collections.min(list, comparator)`: the first element is the
      candidate, and a later element replaces it only when it compares
      strictly smaller. Written over prefixes, as the iteration runs. */
  function MinByArea(s: seq<Size>): (r: Size)
    requires |s| > 0 && AllJavaSizes(s)
    ensures r in s
    ensures forall x :: x in s ==> Area(r) <= Area(x)
    ensures exists i :: 0 <= i < |s| && s[i] == r && forall j :: 0 <= j < i ==> Area(r) < Area(s[j])
  {
    if |s| == 1 then s[0]
    else
      var front := s[..|s| - 1];
      assert forall x :: x in s ==> x in front || x == s[|s| - 1];
      var candidate := MinByArea(front);
      var next := s[|s| - 1];
      CompareIsSignOfAreaDifference(next, candidate);
      if CompareSizesByArea(next, candidate) < 0 then next else candidate
  }
}
