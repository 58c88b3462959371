/**
 Host-language strings. A JavaScript string is a sequence of UTF-16 code units;
 a Python string is a sequence of code points, in which surrogates may occur as
 code points of their own. `CodePoints` is what iterating a JavaScript string
 yields: valid surrogate pairs become one code point, lone units stay.
 */
module Text {
  type CodeUnit = u: int | 0 <= u < 0x1_0000
  type CodePoint = c: int | 0 <= c < 0x11_0000
  type JsString = seq<CodeUnit>
  type PyString = seq<CodePoint>

  predicate IsHigh(u: int) { 0xD800 <= u <= 0xDBFF }
  predicate IsLow(u: int) { 0xDC00 <= u <= 0xDFFF }
  predicate IsSurrogate(u: int) { 0xD800 <= u <= 0xDFFF }

  predicate StartsWithPair(s: seq<int>) {
    |s| >= 2 && IsHigh(s[0]) && IsLow(s[1])
  }

  function Combine(high: int, low: int): (c: CodePoint)
    requires IsHigh(high) && IsLow(low)
    ensures 0x1_0000 <= c
  {
    0x1_0000 + (high - 0xD800) * 0x400 + low - 0xDC00
  }

  function CodePoints(s: JsString): (p: PyString)
    ensures s != [] ==> p != []
  {
    if s == [] then []
    else if StartsWithPair(s) then [Combine(s[0], s[1])] + CodePoints(s[2..])
    else [s[0]] + CodePoints(s[1..])
  }

  function UnitsOf(c: CodePoint): (s: JsString)
    ensures |s| == if c < 0x1_0000 then 1 else 2
    ensures c >= 0x1_0000 ==> StartsWithPair(s) && Combine(s[0], s[1]) == c
  {
    if c < 0x1_0000 then [c]
    else [0xD800 + (c - 0x1_0000) / 0x400, 0xDC00 + (c - 0x1_0000) % 0x400]
  }

  function Units(p: PyString): JsString {
    if p == [] then [] else UnitsOf(p[0]) + Units(p[1..])
  }

  lemma {:induction false} UnitsOfCodePoints(s: JsString)
    ensures Units(CodePoints(s)) == s
  {
    if s == [] {
    } else if StartsWithPair(s) {
      var c, rest := Combine(s[0], s[1]), CodePoints(s[2..]);
      UnitsOfCodePoints(s[2..]);
      assert ([c] + rest)[1..] == rest;
      assert UnitsOf(c) == s[..2];
      assert s == s[..2] + s[2..];
    } else {
      var rest := CodePoints(s[1..]);
      UnitsOfCodePoints(s[1..]);
      assert ([s[0]] + rest)[1..] == rest;
      assert s == [s[0]] + s[1..];
    }
  }

  lemma {:induction false} CodePointsInjective(s: JsString, t: JsString)
    ensures CodePoints(s) == CodePoints(t) <==> s == t
  {
    UnitsOfCodePoints(s);
    UnitsOfCodePoints(t);
  }

  // ---- Order by code point ---------------------------------------------

  function ComparePoints(left: PyString, right: PyString): int {
    if left == [] || right == [] then |left| - |right|
    else if left[0] != right[0] then left[0] - right[0]
    else ComparePoints(left[1..], right[1..])
  }

  function Compare(left: JsString, right: JsString): int {
    ComparePoints(CodePoints(left), CodePoints(right))
  }

  // left precedes right in lexicographic order: they first differ at k.
  ghost predicate PrecedesAt(left: PyString, right: PyString, k: nat) {
    && k <= |left| && k < |right|
    && left[..k] == right[..k]
    && (k == |left| || left[k] < right[k])
  }

  lemma {:induction false} CompareMeaning(left: PyString, right: PyString)
    ensures ComparePoints(left, right) < 0 <==> exists k: nat :: PrecedesAt(left, right, k)
    ensures ComparePoints(left, right) == 0 <==> left == right
  {
    if left == [] || right == [] {
      if |left| < |right| {
        assert PrecedesAt(left, right, 0);
      }
    } else if left[0] != right[0] {
      if left[0] < right[0] {
        assert PrecedesAt(left, right, 0);
      } else {
        forall k: nat ensures !PrecedesAt(left, right, k) {
          if k > 0 && k <= |left| && k <= |right| {
            assert left[..k][0] == left[0] && right[..k][0] == right[0];
          }
        }
      }
    } else {
      CompareMeaning(left[1..], right[1..]);
      assert left == [left[0]] + left[1..] && right == [right[0]] + right[1..];
      forall k: nat ensures PrecedesAt(left, right, k + 1) <==> PrecedesAt(left[1..], right[1..], k) {
        if k < |left| && k < |right| {
          assert left[..k + 1] == [left[0]] + left[1..][..k];
          assert right[..k + 1] == [right[0]] + right[1..][..k];
          assert left[..k + 1][1..] == left[1..][..k];
          assert right[..k + 1][1..] == right[1..][..k];
        }
      }
      if exists k: nat :: PrecedesAt(left, right, k) {
        var k: nat :| PrecedesAt(left, right, k);
        assert k > 0;
        assert PrecedesAt(left[1..], right[1..], k - 1);
      }
      if exists k: nat :: PrecedesAt(left[1..], right[1..], k) {
        var k: nat :| PrecedesAt(left[1..], right[1..], k);
        assert PrecedesAt(left, right, k + 1);
      }
    }
  }

  method CompareUnicodeCodePoints(left: JsString, right: JsString) returns (difference: int)
    ensures difference == Compare(left, right)
    ensures difference < 0 <==> exists k: nat :: PrecedesAt(CodePoints(left), CodePoints(right), k)
    ensures difference == 0 <==> left == right
  {
    var leftPoints, rightPoints := CodePoints(left), CodePoints(right);
    CompareMeaning(leftPoints, rightPoints);
    CodePointsInjective(left, right);
    var length := if |leftPoints| < |rightPoints| then |leftPoints| else |rightPoints|;
    for index := 0 to length
      invariant ComparePoints(leftPoints, rightPoints) == ComparePoints(leftPoints[index..], rightPoints[index..])
    {
      var leftPoint: int, rightPoint: int := leftPoints[index], rightPoints[index];
      difference := leftPoint - rightPoint;
      if difference != 0 {
        return;
      }
      assert leftPoints[index..][1..] == leftPoints[index + 1..];
      assert rightPoints[index..][1..] == rightPoints[index + 1..];
    }
    difference := |leftPoints| - |rightPoints|;
  }

  lemma {:induction false} CompareFlips(left: PyString, right: PyString)
    ensures ComparePoints(left, right) == -ComparePoints(right, left)
  {
    if left == [] || right == [] || left[0] != right[0] {
    } else {
      CompareFlips(left[1..], right[1..]);
    }
  }

  lemma {:induction false} CompareTransitive(a: PyString, b: PyString, c: PyString)
    requires ComparePoints(a, b) <= 0 && ComparePoints(b, c) <= 0
    ensures ComparePoints(a, c) <= 0
  {
    if a != [] && b != [] && c != [] && a[0] == b[0] == c[0] {
      CompareTransitive(a[1..], b[1..], c[1..]);
    }
  }

  predicate TextLeq(left: JsString, right: JsString) {
    Compare(left, right) <= 0
  }

  // The order by code point is total on strings, so sorting by it is canonical.
  lemma {:induction false} CompareIsTotalOrder(a: JsString, b: JsString, c: JsString)
    ensures Compare(a, b) == 0 <==> a == b
    ensures Compare(a, b) < 0 <==> Compare(b, a) > 0
    ensures Compare(a, b) <= 0 && Compare(b, c) <= 0 ==> Compare(a, c) <= 0
  {
    CompareMeaning(CodePoints(a), CodePoints(b));
    CodePointsInjective(a, b);
    CompareFlips(CodePoints(a), CodePoints(b));
    if Compare(a, b) <= 0 && Compare(b, c) <= 0 {
      CompareTransitive(CodePoints(a), CodePoints(b), CodePoints(c));
    }
  }

  // The code units of an ASCII literal.
  function Ascii(s: string): (u: JsString)
    requires forall i | 0 <= i < |s| :: s[i] as int < 0x80
    ensures |u| == |s| && forall i | 0 <= i < |s| :: u[i] == s[i] as int
  {
    seq(|s|, i requires 0 <= i < |s| => s[i] as int)
  }
}
