/** UTF-16, as JavaScript holds a text, and UTF-8, as its bytes are counted. */
module Unicode {
  type CodePoint = p: nat | p < 0x110000

  predicate High(unit: int) { 0xD800 <= unit < 0xDC00 }

  predicate Low(unit: int) { 0xDC00 <= unit < 0xE000 }

  /** Section 2.1 of RFC 2781. */
  function Utf16(point: CodePoint): (units: seq<nat>)
    ensures forall k :: 0 <= k < |units| ==> units[k] < 0x1_0000
  {
    if point < 0x1_0000 then [point] else [0xD800 + (point - 0x1_0000) / 0x400, 0xDC00 + (point - 0x1_0000) % 0x400]
  }

  function Utf16All(points: seq<CodePoint>): (units: seq<nat>)
    ensures SixteenBits(units)
  {
    if points == [] then [] else Utf16(points[0]) + Utf16All(points[1..])
  }

  /** Units as JavaScript has them, of sixteen bits. */
  predicate SixteenBits(units: seq<nat>) {
    forall k :: 0 <= k < |units| ==> units[k] < 0x1_0000
  }

  /** The code points of UTF-16 units, with U+FFFD for a surrogate that is not half of a pair. */
  function CodePoints(units: seq<nat>): seq<CodePoint>
    requires SixteenBits(units)
  {
    if units == [] then []
    else if High(units[0]) && |units| > 1 && Low(units[1]) then
      var point: CodePoint := 0x1_0000 + (units[0] - 0xD800) * 0x400 + (units[1] - 0xDC00);
      [point] + CodePoints(units[2..])
    else [if High(units[0]) || Low(units[0]) then 0xFFFD else units[0]] + CodePoints(units[1..])
  }

  /** The unit is half of a surrogate pair. */
  predicate Paired(units: seq<nat>, k: nat)
    requires k < |units|
  {
    || (High(units[k]) && k + 1 < |units| && Low(units[k + 1]))
    || (Low(units[k]) && k > 0 && High(units[k - 1]))
  }

  /** Section 3 of RFC 3629. */
  function Utf8(point: CodePoint): seq<nat> {
    if point <= 0x7F then [point]
    else if point <= 0x7FF then [0xC0 + point / 0x40, 0x80 + point % 0x40]
    else if point <= 0xFFFF then [0xE0 + point / 0x1000, 0x80 + point / 0x40 % 0x40, 0x80 + point % 0x40]
    else [0xF0 + point / 0x40000, 0x80 + point / 0x1000 % 0x40, 0x80 + point / 0x40 % 0x40, 0x80 + point % 0x40]
  }

  function Utf8All(points: seq<CodePoint>): seq<nat> {
    if points == [] then [] else Utf8(points[0]) + Utf8All(points[1..])
  }

  /** What is left of a unit when it is read and written again. */
  function Kept(units: seq<nat>, k: nat): nat
    requires k < |units|
  {
    if (High(units[k]) || Low(units[k])) && !Paired(units, k) then 0xFFFD else units[k]
  }

  /** The first code point takes two units for a pair, and one otherwise. */
  lemma FirstPoint(units: seq<nat>, width: nat)
    requires units != [] && SixteenBits(units)
    requires width == if High(units[0]) && |units| > 1 && Low(units[1]) then 2 else 1
    ensures CodePoints(units) == [CodePoints(units)[0]] + CodePoints(units[width..])
    ensures |Utf16(CodePoints(units)[0])| == width
    ensures forall k :: 0 <= k < width ==> Utf16(CodePoints(units)[0])[k] == Kept(units, k)
    ensures forall k :: width <= k < |units| ==> Kept(units[width..], k - width) == Kept(units, k)
  {
    forall k | width <= k < |units| ensures Paired(units[width..], k - width) <==> Paired(units, k) {
    }
  }

  /** Units read as code points and written again are as they were, but for the surrogates without a partner. */
  lemma {:induction false} UnitsAreRead(units: seq<nat>)
    requires SixteenBits(units)
    ensures |Utf16All(CodePoints(units))| == |units|
    ensures forall k :: 0 <= k < |units| ==>
              Utf16All(CodePoints(units))[k] == if (High(units[k]) || Low(units[k])) && !Paired(units, k) then 0xFFFD else units[k]
    decreases |units|
  {
    if units != [] {
      var width := if High(units[0]) && |units| > 1 && Low(units[1]) then 2 else 1;
      FirstPoint(units, width);
      UnitsAreRead(units[width..]);
      var first, rest := CodePoints(units)[0], CodePoints(units[width..]);
      assert Utf16All([first] + rest) == Utf16(first) + Utf16All(rest) by {
        assert ([first] + rest)[1..] == rest;
      }
      forall k | 0 <= k < |units| ensures Utf16All(CodePoints(units))[k] == Kept(units, k) {
        assert k >= width ==> Utf16All(rest)[k - width] == Kept(units[width..], k - width);
      }
    }
  }

  /** No surrogate is a code point of its own. */
  predicate Scalars(points: seq<CodePoint>) {
    forall i :: 0 <= i < |points| ==> !High(points[i]) && !Low(points[i])
  }

  /** Code points written as units are read back. */
  lemma {:induction false} PointsAreRead(points: seq<CodePoint>)
    requires Scalars(points)
    ensures CodePoints(Utf16All(points)) == points
  {
    if points != [] {
      PointsAreRead(points[1..]);
      var first, rest := Utf16(points[0]), Utf16All(points[1..]);
      assert (first + rest)[|first|..] == rest;
    }
  }
}
