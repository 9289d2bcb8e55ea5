/** Edit distance modulo ASCII case (src/chat/conversation.rs): the two-row table is proved
    against a recursive distance, and that distance against shortest edit paths. */
module Levenshtein {
  import opened Basics

  newtype byte = b: int | 0 <= b < 256

  // ----- ASCII case folding -----

  function Fold(c: byte): byte {
    if 65 <= c <= 90 then c + 32 else c
  }

  function Cost(c: byte, d: byte): nat {
    if Fold(c) == Fold(d) then 0 else 1
  }

  ghost predicate CaseEqual(a: seq<byte>, b: seq<byte>) {
    |a| == |b| && forall i :: 0 <= i < |a| ==> Fold(a[i]) == Fold(b[i])
  }

  // ----- The recursive distance -----

  function Init<T>(s: seq<T>): seq<T>
    requires s != []
  {
    s[..|s| - 1]
  }

  function Last<T>(s: seq<T>): T
    requires s != []
  {
    s[|s| - 1]
  }

  function Dist(a: seq<byte>, b: seq<byte>): nat
    decreases |a| + |b|
  {
    if a == [] then |b|
    else if b == [] then |a|
    else Min(Min(Dist(a, Init(b)) + 1, Dist(Init(a), b) + 1), Dist(Init(a), Init(b)) + Cost(Last(a), Last(b)))
  }

  // ----- The two-row table -----

  /** The first `count` cells of `row` are the distances of `a` to the prefixes of `b`. */
  ghost predicate IsRow(row: seq<nat>, count: nat, a: seq<byte>, b: seq<byte>) {
    && count <= |row| && count <= |b| + 1
    && forall j :: 0 <= j < count ==> row[j] == Dist(a, b[..j])
  }

  lemma CellStep(x: seq<byte>, y: seq<byte>, left: nat, up: nat, diagonal: nat)
    requires x != [] && y != []
    requires left == Dist(x, Init(y)) && up == Dist(Init(x), y) && diagonal == Dist(Init(x), Init(y))
    ensures Dist(x, y) == Min(Min(left + 1, up + 1), diagonal + Cost(Last(x), Last(y)))
  {
  }

  lemma RowStep(prev: seq<nat>, cur: seq<nat>, cur': seq<nat>, x: seq<byte>, c: byte, b: seq<byte>, j: nat)
    requires j < |b| && j + 1 < |cur| == |cur'|
    requires IsRow(prev, |b| + 1, x, b) && IsRow(cur, j + 1, x + [c], b)
    requires cur' == cur[j + 1 := Min(Min(cur[j] + 1, prev[j + 1] + 1), prev[j] + Cost(c, b[j]))]
    ensures IsRow(cur', j + 2, x + [c], b)
  {
    assert Init(b[..j + 1]) == b[..j] && Init(x + [c]) == x;
    CellStep(x + [c], b[..j + 1], cur[j], prev[j + 1], prev[j]);
  }

  /** The inner loop: fills `cur` with the row of `a[..i + 1]`, given the row of `a[..i]`. */
  method FillRow(prev: array<nat>, cur: array<nat>, a: seq<byte>, i: nat, b: seq<byte>)
    requires i < |a|
    requires prev != cur && prev.Length == cur.Length == |b| + 1
    requires IsRow(prev[..], |b| + 1, a[..i], b)
    modifies cur
    ensures IsRow(cur[..], |b| + 1, a[..i + 1], b)
  {
    assert a[..i + 1] == a[..i] + [a[i]];
    cur[0] := i + 1;
    for j := 0 to |b|
      invariant prev[..] == old(prev[..])
      invariant IsRow(cur[..], j + 1, a[..i + 1], b)
    {
      ghost var row := cur[..];
      var cost := if Fold(a[i]) == Fold(b[j]) then 0 else 1;
      cur[j + 1] := Min(Min(cur[j] + 1, prev[j + 1] + 1), prev[j] + cost);
      RowStep(prev[..], row, cur[..], a[..i], a[i], b, j);
    }
  }

  /** `prev` holds the previous row of the table and `cur` the row being filled. */
  method Distance(a: seq<byte>, b: seq<byte>) returns (d: nat)
    ensures d == Dist(a, b)
  {
    if a == [] { return |b|; }
    if b == [] { return |a|; }
    var prev := new nat[|b| + 1](j => j);
    var cur := new nat[|b| + 1](_ => 0);
    for i := 0 to |a|
      invariant prev != cur && prev.Length == cur.Length == |b| + 1
      invariant fresh(prev) && fresh(cur)
      invariant IsRow(prev[..], |b| + 1, a[..i], b)
    {
      FillRow(prev, cur, a, i, b);
      prev, cur := cur, prev;
    }
    assert a[..|a|] == a && b[..|b|] == b;
    assert prev[..][|b|] == Dist(a, b);
    d := prev[|b|];
  }

  // ----- Metric laws -----

  lemma {:induction false} Symmetric(a: seq<byte>, b: seq<byte>)
    ensures Dist(a, b) == Dist(b, a)
    decreases |a| + |b|
  {
    if a != [] && b != [] {
      Symmetric(a, Init(b));
      Symmetric(Init(a), b);
      Symmetric(Init(a), Init(b));
    }
  }

  /** The distance is at least the difference of the lengths and at most the longer length. */
  lemma {:induction false} LengthBounds(a: seq<byte>, b: seq<byte>)
    ensures |a| - |b| <= Dist(a, b) && |b| - |a| <= Dist(a, b)
    ensures Dist(a, b) <= if |a| <= |b| then |b| else |a|
    decreases |a| + |b|
  {
    if a != [] && b != [] {
      LengthBounds(a, Init(b));
      LengthBounds(Init(a), b);
      LengthBounds(Init(a), Init(b));
    }
  }

  lemma {:induction false} ZeroIffCaseEqual(a: seq<byte>, b: seq<byte>)
    ensures Dist(a, b) == 0 <==> CaseEqual(a, b)
    decreases |a| + |b|
  {
    if a != [] && b != [] {
      ZeroIffCaseEqual(Init(a), Init(b));
      assert a == Init(a) + [Last(a)] && b == Init(b) + [Last(b)];
    }
  }

  lemma {:induction false} Triangle(a: seq<byte>, b: seq<byte>, c: seq<byte>)
    ensures Dist(a, c) <= Dist(a, b) + Dist(b, c)
    decreases |a| + |b| + |c|
  {
    LengthBounds(a, b);
    LengthBounds(b, c);
    LengthBounds(a, c);
    if a != [] && b != [] && c != [] {
      Triangle(Init(a), b, c);
      Triangle(a, b, Init(c));
      Triangle(a, Init(b), c);
      Triangle(a, Init(b), Init(c));
      Triangle(Init(a), Init(b), c);
      Triangle(Init(a), Init(b), Init(c));
    }
  }

  // ----- Shortest edit paths -----

  ghost predicate Deletes(x: seq<byte>, y: seq<byte>, i: nat) {
    i < |x| && y == x[..i] + x[i + 1..]
  }

  ghost predicate Substitutes(x: seq<byte>, y: seq<byte>, i: nat) {
    i < |x| == |y| && y == x[i := y[i]]
  }

  /** One insertion, deletion or substitution turns `x` into `y`. */
  ghost predicate OneEdit(x: seq<byte>, y: seq<byte>) {
    || (exists i :: Deletes(x, y, i))
    || (exists i :: Deletes(y, x, i))
    || (exists i :: Substitutes(x, y, i))
  }

  /** A path of single edits that leads from `a` to a word equal to `b` up to ASCII case. */
  ghost predicate EditPath(path: seq<seq<byte>>, a: seq<byte>, b: seq<byte>) {
    && path != [] && path[0] == a && CaseEqual(Last(path), b)
    && forall i :: 0 <= i < |path| - 1 ==> OneEdit(path[i], path[i + 1])
  }

  lemma {:induction false} CommonSuffix(p: seq<byte>, q: seq<byte>, s: seq<byte>)
    ensures Dist(p + s, q + s) <= Dist(p, q)
    decreases |s|
  {
    if s == [] {
      assert p + s == p && q + s == q;
    } else {
      CommonSuffix(p, q, Init(s));
      assert Init(p + s) == p + Init(s) && Init(q + s) == q + Init(s);
    }
  }

  lemma DeletionCostsOne(x: seq<byte>, y: seq<byte>, i: nat)
    requires Deletes(x, y, i)
    ensures Dist(x, y) <= 1
  {
    var p, s := x[..i], x[i + 1..];
    assert x == (p + [x[i]]) + s && y == p + s;
    CommonSuffix(p + [x[i]], p, s);
    ZeroIffCaseEqual(p, p);
    assert Init(p + [x[i]]) == p;
    if p == [] { assert p + [x[i]] == [x[i]]; }
  }

  lemma OneEditCostsAtMostOne(x: seq<byte>, y: seq<byte>)
    requires OneEdit(x, y)
    ensures Dist(x, y) <= 1
  {
    if i: nat :| Deletes(x, y, i) {
      DeletionCostsOne(x, y, i);
    } else if i: nat :| Deletes(y, x, i) {
      DeletionCostsOne(y, x, i);
      Symmetric(x, y);
    } else {
      var i: nat :| Substitutes(x, y, i);
      var p, s := x[..i], x[i + 1..];
      assert x == (p + [x[i]]) + s && y == (p + [y[i]]) + s;
      CommonSuffix(p + [x[i]], p + [y[i]], s);
      ZeroIffCaseEqual(p, p);
      assert Init(p + [x[i]]) == p && Init(p + [y[i]]) == p;
    }
  }

  /** No edit path is shorter than the distance. */
  lemma {:induction false} PathAtLeastDist(path: seq<seq<byte>>, a: seq<byte>, b: seq<byte>)
    requires EditPath(path, a, b)
    ensures Dist(a, b) <= |path| - 1
    decreases |path|
  {
    if |path| == 1 {
      ZeroIffCaseEqual(a, b);
    } else {
      var rest := path[1..];
      forall i | 0 <= i < |rest| - 1 ensures OneEdit(rest[i], rest[i + 1]) {
        assert OneEdit(path[i + 1], path[i + 1 + 1]);
      }
      PathAtLeastDist(rest, path[1], b);
      OneEditCostsAtMostOne(path[0], path[1]);
      Triangle(a, path[1], b);
    }
  }

  /** Appending one letter to every word of a path keeps it a path. */
  lemma AppendToPath(path: seq<seq<byte>>, a: seq<byte>, b: seq<byte>, c: byte, d: byte)
    returns (longer: seq<seq<byte>>)
    requires EditPath(path, a, b) && Fold(c) == Fold(d)
    ensures |longer| == |path| && EditPath(longer, a + [c], b + [d])
  {
    longer := seq(|path|, i requires 0 <= i < |path| => path[i] + [c]);
    forall i | 0 <= i < |longer| - 1 ensures OneEdit(longer[i], longer[i + 1]) {
      var x, y := path[i], path[i + 1];
      assert OneEdit(x, y);
      if k: nat :| Deletes(x, y, k) {
        assert Deletes(x + [c], y + [c], k);
      } else if k: nat :| Deletes(y, x, k) {
        assert Deletes(y + [c], x + [c], k);
      } else {
        var k: nat :| Substitutes(x, y, k);
        assert Substitutes(x + [c], y + [c], k);
      }
    }
    assert Last(longer) == Last(path) + [c];
  }

  lemma ExtendPath(path: seq<seq<byte>>, x: seq<byte>, a: seq<byte>, b: seq<byte>) returns (longer: seq<seq<byte>>)
    requires EditPath(path, a, b) && OneEdit(x, a)
    ensures |longer| == |path| + 1 && EditPath(longer, x, b)
  {
    longer := [x] + path;
    assert Last(longer) == Last(path);
    forall i | 0 <= i < |longer| - 1 ensures OneEdit(longer[i], longer[i + 1]) {
      if i > 0 { assert longer[i] == path[i - 1] && longer[i + 1] == path[i]; }
    }
  }

  lemma PathByDeletion(path: seq<seq<byte>>, a: seq<byte>, b: seq<byte>) returns (longer: seq<seq<byte>>)
    requires a != [] && EditPath(path, Init(a), b)
    ensures |longer| == |path| + 1 && EditPath(longer, a, b)
  {
    assert Deletes(a, Init(a), |a| - 1);
    longer := ExtendPath(path, a, Init(a), b);
  }

  lemma PathByInsertion(path: seq<seq<byte>>, a: seq<byte>, b: seq<byte>) returns (longer: seq<seq<byte>>)
    requires b != [] && EditPath(path, a, Init(b))
    ensures |longer| == |path| + 1 && EditPath(longer, a, b)
  {
    longer := AppendToPath(path, a, Init(b), Last(b), Last(b));
    assert Deletes(a + [Last(b)], a, |a|);
    assert b == Init(b) + [Last(b)];
    longer := ExtendPath(longer, a, a + [Last(b)], b);
  }

  lemma PathByLastLetter(path: seq<seq<byte>>, a: seq<byte>, b: seq<byte>) returns (longer: seq<seq<byte>>)
    requires a != [] && b != [] && EditPath(path, Init(a), Init(b))
    ensures |longer| == |path| + Cost(Last(a), Last(b)) && EditPath(longer, a, b)
  {
    assert a == Init(a) + [Last(a)] && b == Init(b) + [Last(b)];
    if Fold(Last(a)) == Fold(Last(b)) {
      longer := AppendToPath(path, Init(a), Init(b), Last(a), Last(b));
    } else {
      var a' := Init(a) + [Last(b)];
      longer := AppendToPath(path, Init(a), Init(b), Last(b), Last(b));
      assert Substitutes(a, a', |a| - 1);
      longer := ExtendPath(longer, a, a', b);
    }
  }

  /** Some edit path is as short as the distance. */
  lemma {:induction false} PathOfDist(a: seq<byte>, b: seq<byte>) returns (path: seq<seq<byte>>)
    ensures EditPath(path, a, b) && |path| - 1 == Dist(a, b)
    decreases |a| + |b|
  {
    if a == [] && b == [] {
      path := [a];
    } else if a == [] {
      path := PathOfDist(a, Init(b));
      path := PathByInsertion(path, a, b);
    } else if b == [] {
      path := PathOfDist(Init(a), b);
      path := PathByDeletion(path, a, b);
    } else {
      var left, up, diagonal := Dist(a, Init(b)), Dist(Init(a), b), Dist(Init(a), Init(b));
      CellStep(a, b, left, up, diagonal);
      if Dist(a, b) == left + 1 {
        path := PathOfDist(a, Init(b));
        path := PathByInsertion(path, a, b);
      } else if Dist(a, b) == up + 1 {
        path := PathOfDist(Init(a), b);
        path := PathByDeletion(path, a, b);
      } else {
        path := PathOfDist(Init(a), Init(b));
        path := PathByLastLetter(path, a, b);
      }
    }
  }

  /** The distance is the length of a shortest insert/delete/substitute script. */
  lemma DistIsShortestScript(a: seq<byte>, b: seq<byte>)
    ensures exists path :: EditPath(path, a, b) && |path| - 1 == Dist(a, b)
    ensures forall path :: EditPath(path, a, b) ==> Dist(a, b) <= |path| - 1
  {
    var path := PathOfDist(a, b);
    forall path | EditPath(path, a, b) ensures Dist(a, b) <= |path| - 1 {
      PathAtLeastDist(path, a, b);
    }
  }

  // ----- The similarity ratio -----

  function Longer(a: seq<byte>, b: seq<byte>): nat {
    if |a| <= |b| then |b| else |a|
  }

  /** A fraction `num / den` with a positive denominator. */
  datatype Fraction = Fraction(num: int, den: int) {
    predicate AtLeast(tenths: int) {
      10 * num >= tenths * den
    }
  }

  function Ratio(a: seq<byte>, b: seq<byte>): Fraction {
    var m := Longer(a, b);
    if m == 0 then Fraction(1, 1) else Fraction(m - Dist(a, b), m)
  }

  method LevenshteinRatio(a: seq<byte>, b: seq<byte>) returns (r: Fraction)
    ensures r == Ratio(a, b)
  {
    var maxLen := if |a| <= |b| then |b| else |a|;
    if maxLen == 0 { return Fraction(1, 1); }
    var dist := Distance(a, b);
    return Fraction(maxLen - dist, maxLen);
  }

  /** The near-duplicate test of the spam guard, `ratio >= 0.9`, on integers. */
  predicate NearDuplicate(a: seq<byte>, b: seq<byte>) {
    10 * Dist(a, b) <= Longer(a, b)
  }

  /** The ratio lies in [0, 1], is symmetric, is 1 exactly on case-equal words, and reaches 0.9 as the integer test
      says. */
  lemma RatioLaws(a: seq<byte>, b: seq<byte>)
    ensures 0 <= Ratio(a, b).num <= Ratio(a, b).den && 0 < Ratio(a, b).den
    ensures Ratio(a, b) == Ratio(b, a)
    ensures Ratio(a, b).num == Ratio(a, b).den <==> CaseEqual(a, b)
    ensures Ratio(a, b).AtLeast(9) <==> NearDuplicate(a, b)
  {
    LengthBounds(a, b);
    Symmetric(a, b);
    ZeroIffCaseEqual(a, b);
  }
}
