/**
  The typo distance of the operational vocabulary: a one-row, in-place dynamic
  program that takes the diagonal unconditionally when two characters match.

  `Distance` is the textbook recurrence (always the minimum of three); scripts of
  single edits are an independent meaning for it.  The method computes the first
  and, through `ShortestScript`, the second.
 */
module EditDistance {
  import opened Wrappers

  function Min(x: nat, y: nat): nat {
    if x <= y then x else y
  }

  /** The reference for prefixes of `i` and `j` characters: an empty prefix costs the length of the other. */
  function Cell<T(==)>(a: seq<T>, b: seq<T>, i: nat, j: nat): nat
    requires i <= |a| && j <= |b|
    decreases i + j, 1
  {
    if i == 0 || j == 0 then i + j else Cheapest(a, b, i, j)
  }

  /** Delete the last character, insert it, or substitute it (for free when it matches). */
  function Cheapest<T(==)>(a: seq<T>, b: seq<T>, i: nat, j: nat): nat
    requires 1 <= i <= |a| && 1 <= j <= |b|
    decreases i + j, 0
  {
    Min(Min(Cell(a, b, i - 1, j) + 1, Cell(a, b, i, j - 1) + 1),
        Cell(a, b, i - 1, j - 1) + if a[i - 1] == b[j - 1] then 0 else 1)
  }

  function Distance<T(==)>(a: seq<T>, b: seq<T>): nat {
    Cell(a, b, |a|, |b|)
  }

  // ----- the code

  method EditDistance<T(==)>(left: seq<T>, right: seq<T>) returns (distance: nat)
    ensures distance == Distance(left, right)
  {
    var n := |right|;
    var row := new nat[n + 1](index => index);
    for i := 1 to |left| + 1
      invariant forall k :: 0 <= k <= n ==> row[k] == Cell(left, right, i - 1, k)
    {
      var diagonal := row[0];
      row[0] := i;
      for j := 1 to n + 1
        invariant diagonal == Cell(left, right, i - 1, j - 1)
        invariant forall k :: 0 <= k < j ==> row[k] == Cell(left, right, i, k)
        invariant forall k :: j <= k <= n ==> row[k] == Cell(left, right, i - 1, k)
      {
        var previous := row[j];
        var cell := if left[i - 1] == right[j - 1] then diagonal
                    else Min(Min(diagonal + 1, row[j] + 1), row[j - 1] + 1);
        assert cell == Cell(left, right, i, j) by {
          CellStep(left, right, i, j);
        }
        row[j] := cell;
        diagonal := previous;
      }
    }
    distance := row[n];
  }

  /** One cell of the table: the diagonal alone on a match, the minimum of three otherwise. */
  lemma CellStep<T>(a: seq<T>, b: seq<T>, i: nat, j: nat)
    requires 1 <= i <= |a| && 1 <= j <= |b|
    ensures Cell(a, b, i, j) ==
            if a[i - 1] == b[j - 1] then Cell(a, b, i - 1, j - 1)
            else Min(Min(Cell(a, b, i - 1, j - 1) + 1, Cell(a, b, i - 1, j) + 1), Cell(a, b, i, j - 1) + 1)
  {
    RightNeighbours(a, b, i - 1, j);
    LowerNeighbours(a, b, i, j - 1);
  }

  // ----- neighbouring cells differ by at most one

  lemma {:induction false} Transposed<T>(a: seq<T>, b: seq<T>, i: nat, j: nat)
    requires i <= |a| && j <= |b|
    ensures Cell(a, b, i, j) == Cell(b, a, j, i)
    decreases i + j
  {
    if i != 0 && j != 0 {
      Transposed(a, b, i - 1, j);
      Transposed(a, b, i, j - 1);
      Transposed(a, b, i - 1, j - 1);
    }
  }

  lemma {:induction false} RightNeighbours<T>(a: seq<T>, b: seq<T>, i: nat, j: nat)
    requires i <= |a| && 1 <= j <= |b|
    ensures Cell(a, b, i, j - 1) <= Cell(a, b, i, j) + 1
    ensures Cell(a, b, i, j) <= Cell(a, b, i, j - 1) + 1
    decreases i
  {
    if i != 0 {
      RightNeighbours(a, b, i - 1, j);
    }
  }

  lemma LowerNeighbours<T>(a: seq<T>, b: seq<T>, i: nat, j: nat)
    requires 1 <= i <= |a| && j <= |b|
    ensures Cell(a, b, i - 1, j) <= Cell(a, b, i, j) + 1
    ensures Cell(a, b, i, j) <= Cell(a, b, i - 1, j) + 1
  {
    RightNeighbours(b, a, j, i);
    Transposed(a, b, i, j);
    Transposed(a, b, i - 1, j);
  }

  // ----- a metric

  lemma Symmetric<T>(a: seq<T>, b: seq<T>)
    ensures Distance(a, b) == Distance(b, a)
  {
    Transposed(a, b, |a|, |b|);
  }

  lemma ZeroIffEqual<T>(a: seq<T>, b: seq<T>)
    ensures Distance(a, b) == 0 <==> a == b
  {
    ZeroCell(a, b, |a|, |b|);
  }

  lemma {:induction false} ZeroCell<T>(a: seq<T>, b: seq<T>, i: nat, j: nat)
    requires i <= |a| && j <= |b|
    ensures Cell(a, b, i, j) == 0 <==> a[..i] == b[..j]
    decreases i
  {
    if i != 0 && j != 0 {
      ZeroCell(a, b, i - 1, j - 1);
      assert a[..i] == a[..i - 1] + [a[i - 1]] && b[..j] == b[..j - 1] + [b[j - 1]];
    }
  }

  lemma AtLeastLengthDifference<T>(a: seq<T>, b: seq<T>)
    ensures Distance(a, b) >= |a| - |b|
    ensures Distance(a, b) >= |b| - |a|
  {
    CellBounds(a, b, |a|, |b|);
  }

  lemma {:induction false} CellBounds<T>(a: seq<T>, b: seq<T>, i: nat, j: nat)
    requires i <= |a| && j <= |b|
    ensures i - j <= Cell(a, b, i, j) <= i + j
    ensures j - i <= Cell(a, b, i, j)
    decreases i + j
  {
    if i != 0 && j != 0 {
      CellBounds(a, b, i - 1, j);
      CellBounds(a, b, i, j - 1);
      CellBounds(a, b, i - 1, j - 1);
    }
  }

  lemma Triangle<T>(a: seq<T>, b: seq<T>, c: seq<T>)
    ensures Distance(a, c) <= Distance(a, b) + Distance(b, c)
  {
    CellTriangle(a, b, c, |a|, |b|, |c|);
  }

  lemma {:induction false} CellTriangle<T>(a: seq<T>, b: seq<T>, c: seq<T>, i: nat, j: nat, k: nat)
    requires i <= |a| && j <= |b| && k <= |c|
    ensures Cell(a, c, i, k) <= Cell(a, b, i, j) + Cell(b, c, j, k)
    decreases i + j + k, 1
  {
    if i == 0 || j == 0 || k == 0 {
      CellBounds(a, b, i, j);
      CellBounds(b, c, j, k);
      CellBounds(a, c, i, k);
    } else {
      LowerNeighbours(a, c, i, k);
      RightNeighbours(a, c, i, k);
      if Cell(a, b, i, j) == Cell(a, b, i - 1, j) + 1 {
        CellTriangle(a, b, c, i - 1, j, k);
      } else if Cell(b, c, j, k) == Cell(b, c, j, k - 1) + 1 {
        CellTriangle(a, b, c, i, j, k - 1);
      } else {
        TriangleThroughLast(a, b, c, i, j, k);
      }
    }
  }

  /** The cases in which the last character of `b` is used by at least one of the two scripts. */
  lemma {:induction false} TriangleThroughLast<T>(a: seq<T>, b: seq<T>, c: seq<T>, i: nat, j: nat, k: nat)
    requires 1 <= i <= |a| && 1 <= j <= |b| && 1 <= k <= |c|
    requires Cell(a, b, i, j) != Cell(a, b, i - 1, j) + 1
    requires Cell(b, c, j, k) != Cell(b, c, j, k - 1) + 1
    ensures Cell(a, c, i, k) <= Cell(a, b, i, j) + Cell(b, c, j, k)
    decreases i + j + k, 0
  {
    LowerNeighbours(a, c, i, k);
    RightNeighbours(a, c, i, k);
    if Cell(b, c, j, k) == Cell(b, c, j - 1, k) + 1 {
      if Cell(a, b, i, j) == Cell(a, b, i, j - 1) + 1 {
        CellTriangle(a, b, c, i, j - 1, k);
      } else {
        CellTriangle(a, b, c, i - 1, j - 1, k);
      }
    } else if Cell(a, b, i, j) == Cell(a, b, i, j - 1) + 1 {
      CellTriangle(a, b, c, i, j - 1, k - 1);
      RightNeighbours(a, c, i, k);
    } else {
      CellTriangle(a, b, c, i - 1, j - 1, k - 1);
      CellStep(a, c, i, k);
    }
  }

  // ----- scripts of single edits

  datatype Edit<T> = Insert(at: nat, c: T) | Delete(at: nat) | Substitute(at: nat, c: T)

  function Apply<T>(e: Edit<T>, s: seq<T>): Option<seq<T>> {
    match e
    case Insert(at, c) => if at <= |s| then Some(s[..at] + [c] + s[at..]) else None
    case Delete(at) => if at < |s| then Some(s[..at] + s[at + 1..]) else None
    case Substitute(at, c) => if at < |s| then Some(s[..at] + [c] + s[at + 1..]) else None
  }

  function Run<T>(script: seq<Edit<T>>, s: seq<T>): Option<seq<T>> {
    if script == [] then Some(s)
    else match Apply(script[0], s)
      case Some(next) => Run(script[1..], next)
      case None => None
  }

  /** The distance is exactly the length of a shortest script of single edits. */
  lemma ShortestScript<T>(a: seq<T>, b: seq<T>)
    ensures exists script :: |script| == Distance(a, b) && Run(script, a) == Some(b)
    ensures forall script :: Run(script, a) == Some(b) ==> Distance(a, b) <= |script|
  {
    var best := BestScript(a, b, |a|, |b|);
    assert a[..|a|] == a && b[..|b|] == b;
    forall script | Run(script, a) == Some(b) ensures Distance(a, b) <= |script| {
      ScriptIsNoShorter(script, a, b);
    }
  }

  lemma {:induction false} ScriptIsNoShorter<T>(script: seq<Edit<T>>, a: seq<T>, b: seq<T>)
    requires Run(script, a) == Some(b)
    ensures Distance(a, b) <= |script|
    decreases |script|
  {
    if script == [] {
      ZeroIffEqual(a, b);
    } else {
      var next := Apply(script[0], a).value;
      EditMovesByOne(script[0], a);
      ScriptIsNoShorter(script[1..], next, b);
      Triangle(a, next, b);
    }
  }

  lemma EditMovesByOne<T>(e: Edit<T>, s: seq<T>)
    requires Apply(e, s).Some?
    ensures Distance(s, Apply(e, s).value) <= 1
  {
    var head := s[..e.at];
    ZeroIffEqual(head, head);
    match e
    case Insert(at, c) =>
      assert s == head + s[at..];
      OneMoreCharacter(head, c);
      CommonSuffix(head, head + [c], s[at..]);
    case Delete(at) =>
      assert s == head + [s[at]] + s[at + 1..];
      OneMoreCharacter(head, s[at]);
      Symmetric(head, head + [s[at]]);
      CommonSuffix(head + [s[at]], head, s[at + 1..]);
    case Substitute(at, c) =>
      var before, after := head + [s[at]], head + [c];
      assert s == before + s[at + 1..];
      SamePrefixes(head, head, [s[at]], [c], at, at);
      CellStep(before, after, at + 1, at + 1);
      CommonSuffix(before, after, s[at + 1..]);
  }

  lemma OneMoreCharacter<T>(s: seq<T>, c: T)
    ensures Distance(s, s + [c]) <= 1
  {
    ZeroIffEqual(s, s);
    SamePrefixes(s, s, [], [c], |s|, |s|);
    assert s + [] == s;
    RightNeighbours(s, s + [c], |s|, |s| + 1);
  }

  lemma {:induction false} SamePrefixes<T>(a: seq<T>, b: seq<T>, aTail: seq<T>, bTail: seq<T>, i: nat, j: nat)
    requires i <= |a| && j <= |b|
    ensures Cell(a + aTail, b + bTail, i, j) == Cell(a, b, i, j)
    decreases i + j
  {
    if i != 0 && j != 0 {
      SamePrefixes(a, b, aTail, bTail, i - 1, j);
      SamePrefixes(a, b, aTail, bTail, i, j - 1);
      SamePrefixes(a, b, aTail, bTail, i - 1, j - 1);
    }
  }

  lemma {:induction false} CommonSuffix<T>(a: seq<T>, b: seq<T>, tail: seq<T>)
    ensures Distance(a + tail, b + tail) <= Distance(a, b)
  {
    SamePrefixes(a, b, tail, tail, |a|, |b|);
    AlongTheDiagonal(a, b, tail, |tail|);
  }

  lemma {:induction false} AlongTheDiagonal<T>(a: seq<T>, b: seq<T>, tail: seq<T>, k: nat)
    requires k <= |tail|
    ensures Cell(a + tail, b + tail, |a| + k, |b| + k) <= Cell(a + tail, b + tail, |a|, |b|)
    decreases k
  {
    if k != 0 {
      AlongTheDiagonal(a, b, tail, k - 1);
      CellStep(a + tail, b + tail, |a| + k, |b| + k);
    }
  }

  lemma {:induction false} BestScript<T>(a: seq<T>, b: seq<T>, i: nat, j: nat) returns (script: seq<Edit<T>>)
    requires i <= |a| && j <= |b|
    ensures |script| == Cell(a, b, i, j) && Run(script, a[..i]) == Some(b[..j])
    decreases i + j
  {
    if i == 0 && j == 0 {
      script := [];
    } else if j == 0 || (i != 0 && Cell(a, b, i, j) == Cell(a, b, i - 1, j) + 1) {
      var rest := BestScript(a, b, i - 1, j);
      script := [Delete(i - 1)] + rest;
      assert a[..i][..i - 1] + a[..i][i..] == a[..i - 1];
    } else if i == 0 || Cell(a, b, i, j) == Cell(a, b, i, j - 1) + 1 {
      var rest := BestScript(a, b, i, j - 1);
      var add := Insert(j - 1, b[j - 1]);
      assert b[..j - 1][..j - 1] + [b[j - 1]] + b[..j - 1][j - 1..] == b[..j];
      RunThen(rest, add, a[..i], b[..j - 1]);
      script := rest + [add];
    } else {
      var rest := BestScript(a, b, i - 1, j - 1);
      var almost := b[..j - 1] + [a[i - 1]];
      assert a[..i] == a[..i - 1] + [a[i - 1]];
      RunBefore(rest, a[..i - 1], b[..j - 1], [a[i - 1]]);
      if a[i - 1] == b[j - 1] {
        assert almost == b[..j];
        script := rest;
      } else {
        var fix := Substitute(j - 1, b[j - 1]);
        assert almost[..j - 1] + [b[j - 1]] + almost[j..] == b[..j];
        RunThen(rest, fix, a[..i], almost);
        script := rest + [fix];
      }
    }
  }

  lemma {:induction false} RunThen<T>(script: seq<Edit<T>>, e: Edit<T>, s: seq<T>, t: seq<T>)
    requires Run(script, s) == Some(t)
    ensures Run(script + [e], s) == Apply(e, t)
    decreases |script|
  {
    if script != [] {
      RunThen(script[1..], e, Apply(script[0], s).value, t);
      assert (script + [e])[1..] == script[1..] + [e];
    } else {
      assert script + [e] == [e];
    }
  }

  /** A script that works on a string works on every extension of it. */
  lemma {:induction false} RunBefore<T>(script: seq<Edit<T>>, s: seq<T>, t: seq<T>, tail: seq<T>)
    requires Run(script, s) == Some(t)
    ensures Run(script, s + tail) == Some(t + tail)
    decreases |script|
  {
    if script != [] {
      ApplyBefore(script[0], s, tail);
      RunBefore(script[1..], Apply(script[0], s).value, t, tail);
    }
  }

  lemma ApplyBefore<T>(e: Edit<T>, s: seq<T>, tail: seq<T>)
    requires Apply(e, s).Some?
    ensures Apply(e, s + tail) == Some(Apply(e, s).value + tail)
  {
    var t := Apply(e, s).value;
    match e
    case Insert(at, c) => assert (s + tail)[..at] + [c] + (s + tail)[at..] == t + tail;
    case Delete(at) => assert (s + tail)[..at] + (s + tail)[at + 1..] == t + tail;
    case Substitute(at, c) => assert (s + tail)[..at] + [c] + (s + tail)[at + 1..] == t + tail;
  }
}
