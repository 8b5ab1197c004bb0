/** The two-row edit distance of the command-line suggestions: it computes the recursive edit distance,
    which is a metric and the least number of single-character edits. */
module EditDistance {

  type Text = seq<char>

  function Min(a: nat, b: nat): nat {
    if a <= b then a else b
  }

  function Cost(x: char, y: char): nat {
    if x == y then 0 else 1
  }

  /** The edit distance of the first i characters of a and the first j characters of b. */
  function Prefixes(a: Text, b: Text, i: nat, j: nat): nat
    requires i <= |a| && j <= |b|
  {
    if i == 0 then j
    else if j == 0 then i
    else
      var deleted := Prefixes(a, b, i - 1, j) + 1;
      var inserted := Prefixes(a, b, i, j - 1) + 1;
      var substituted := Prefixes(a, b, i - 1, j - 1) + Cost(a[i - 1], b[j - 1]);
      Min(Min(deleted, inserted), substituted)
  }

  /** One unfolding of the recursion, for proofs that must not unfold it further. */
  lemma Unfold(a: Text, b: Text, i: nat, j: nat)
    requires i <= |a| && j <= |b|
    ensures i == 0 ==> Prefixes(a, b, i, j) == j
    ensures j == 0 ==> Prefixes(a, b, i, j) == i
    ensures i > 0 && j > 0 ==>
              Prefixes(a, b, i, j) == Min(Min(Prefixes(a, b, i - 1, j) + 1, Prefixes(a, b, i, j - 1) + 1),
                                          Prefixes(a, b, i - 1, j - 1) + Cost(a[i - 1], b[j - 1]))
  {
  }

  function Distance(a: Text, b: Text): nat {
    Prefixes(a, b, |a|, |b|)
  }

  method LevenshteinDistance(left: Text, right: Text) returns (d: nat)
    ensures d == Distance(left, right)
  {
    hide Prefixes;
    Unfold(left, right, |left|, |right|);
    if left == [] {
      return |right|;
    }
    if right == [] {
      return |left|;
    }
    var n := |right|;
    var previous := new nat[n + 1](i => i);
    var current := new nat[n + 1](_ => 0);
    var i := 0;
    forall j | 0 <= j <= n
      ensures Prefixes(left, right, 0, j) == j
    {
      Unfold(left, right, 0, j);
    }
    while i < |left|
      invariant 0 <= i <= |left|
      invariant previous.Length == current.Length == n + 1 && previous != current
      invariant fresh(previous) && fresh(current)
      invariant forall j :: 0 <= j <= n ==> previous[j] == Prefixes(left, right, i, j)
    {
      current[0] := i + 1;
      Unfold(left, right, i + 1, 0);
      var j := 0;
      while j < n
        invariant 0 <= j <= n
        invariant forall k :: 0 <= k <= n ==> previous[k] == Prefixes(left, right, i, k)
        invariant forall k :: 0 <= k <= j ==> current[k] == Prefixes(left, right, i + 1, k)
      {
        var substitution := Cost(left[i], right[j]);
        var deleted := previous[j + 1] + 1;
        var inserted := current[j] + 1;
        var substituted := previous[j] + substitution;
        Unfold(left, right, i + 1, j + 1);
        current[j + 1] := Min(Min(deleted, inserted), substituted);
        j := j + 1;
      }
      previous, current := current, previous;
      i := i + 1;
    }
    return previous[n];
  }

  // ----- a metric -----

  lemma {:induction false} Symmetric(a: Text, b: Text, i: nat, j: nat)
    requires i <= |a| && j <= |b|
    ensures Prefixes(a, b, i, j) == Prefixes(b, a, j, i)
    decreases i + j
  {
    hide Prefixes;
    Unfold(a, b, i, j);
    Unfold(b, a, j, i);
    if i > 0 && j > 0 {
      Symmetric(a, b, i - 1, j);
      Symmetric(a, b, i, j - 1);
      Symmetric(a, b, i - 1, j - 1);
    }
  }

  lemma {:induction false} Bounds(a: Text, b: Text, i: nat, j: nat)
    requires i <= |a| && j <= |b|
    ensures j <= i + Prefixes(a, b, i, j) && i <= j + Prefixes(a, b, i, j)
    ensures Prefixes(a, b, i, j) <= if i < j then j else i
    decreases i + j
  {
    hide Prefixes;
    Unfold(a, b, i, j);
    if i > 0 && j > 0 {
      Bounds(a, b, i - 1, j);
      Bounds(a, b, i, j - 1);
      Bounds(a, b, i - 1, j - 1);
    }
  }

  lemma {:induction false} ZeroOnEqual(a: Text, b: Text, i: nat, j: nat)
    requires i <= |a| && j <= |b|
    ensures Prefixes(a, b, i, j) == 0 <==> i == j && forall k :: 0 <= k < i ==> a[k] == b[k]
    decreases i + j
  {
    hide Prefixes;
    Unfold(a, b, i, j);
    if i > 0 && j > 0 {
      ZeroOnEqual(a, b, i - 1, j - 1);
      ZeroOnEqual(a, b, i - 1, j);
      ZeroOnEqual(a, b, i, j - 1);
    }
  }

  lemma {:induction false} Triangle(a: Text, b: Text, c: Text, i: nat, j: nat, k: nat)
    requires i <= |a| && j <= |b| && k <= |c|
    ensures Prefixes(a, c, i, k) <= Prefixes(a, b, i, j) + Prefixes(b, c, j, k)
    decreases i + j + k
  {
    hide Prefixes;
    if i == 0 || j == 0 || k == 0 {
      Bounds(a, b, i, j);
      Bounds(b, c, j, k);
      Bounds(a, c, i, k);
    } else {
      Unfold(a, b, i, j);
      Unfold(b, c, j, k);
      Unfold(a, c, i, k);
      if Prefixes(a, b, i, j) == Prefixes(a, b, i - 1, j) + 1 {
        Triangle(a, b, c, i - 1, j, k);
      } else if Prefixes(b, c, j, k) == Prefixes(b, c, j, k - 1) + 1 {
        Triangle(a, b, c, i, j, k - 1);
      } else {
        var left := if Prefixes(a, b, i, j) == Prefixes(a, b, i, j - 1) + 1 then i else i - 1;
        var right := if Prefixes(b, c, j, k) == Prefixes(b, c, j - 1, k) + 1 then k else k - 1;
        Triangle(a, b, c, left, j - 1, right);
      }
    }
  }

  /** The distance is a metric, bounded by the longer length and by the difference of the lengths. */
  lemma DistanceIsMetric(a: Text, b: Text, c: Text)
    ensures Distance(a, b) == 0 <==> a == b
    ensures Distance(a, b) == Distance(b, a)
    ensures Distance(a, c) <= Distance(a, b) + Distance(b, c)
    ensures Distance(a, b) <= (if |a| < |b| then |b| else |a|) && |b| <= |a| + Distance(a, b)
  {
    ZeroOnEqual(a, b, |a|, |b|);
    Symmetric(a, b, |a|, |b|);
    Triangle(a, b, c, |a|, |b|, |c|);
    Bounds(a, b, |a|, |b|);
  }

  // ----- the least number of edits -----

  ghost predicate Inserted(a: Text, b: Text) {
    exists i, c :: 0 <= i <= |a| && b == a[..i] + [c] + a[i..]
  }

  ghost predicate Substituted(a: Text, b: Text) {
    exists i :: 0 <= i < |a| == |b| && b == a[i := b[i]]
  }

  /** b is a with one character inserted, deleted or substituted. */
  ghost predicate OneEdit(a: Text, b: Text) {
    Inserted(a, b) || Inserted(b, a) || Substituted(a, b)
  }

  ghost predicate EditPath(path: seq<Text>, a: Text, b: Text) {
    && path != [] && path[0] == a && path[|path| - 1] == b
    && forall i :: 0 <= i < |path| - 1 ==> OneEdit(path[i], path[i + 1])
  }

  lemma {:induction false} OnlyPrefixesMatter(a: Text, b: Text, x: Text, y: Text, i: nat, j: nat)
    requires i <= |a| && i <= |x| && a[..i] == x[..i]
    requires j <= |b| && j <= |y| && b[..j] == y[..j]
    ensures Prefixes(a, b, i, j) == Prefixes(x, y, i, j)
    decreases i + j
  {
    if i > 0 && j > 0 {
      assert a[..i - 1] == a[..i][..i - 1] && x[..i - 1] == x[..i][..i - 1];
      assert b[..j - 1] == b[..j][..j - 1] && y[..j - 1] == y[..j][..j - 1];
      assert a[i - 1] == a[..i][i - 1] && x[i - 1] == x[..i][i - 1];
      assert b[j - 1] == b[..j][j - 1] && y[j - 1] == y[..j][j - 1];
      OnlyPrefixesMatter(a, b, x, y, i - 1, j);
      OnlyPrefixesMatter(a, b, x, y, i, j - 1);
      OnlyPrefixesMatter(a, b, x, y, i - 1, j - 1);
    }
  }

  lemma WithoutLast(a: Text, i: nat, n: nat)
    requires 0 < n && i + n <= |a|
    ensures a[i..i + n - 1] == a[i..i + n][..n - 1] && a[i + n - 1] == a[i..i + n][n - 1]
  {
  }

  lemma {:induction false} CommonTail(a: Text, b: Text, i: nat, j: nat, n: nat)
    requires i + n <= |a| && j + n <= |b| && a[i..i + n] == b[j..j + n]
    ensures Prefixes(a, b, i + n, j + n) <= Prefixes(a, b, i, j)
    decreases n
  {
    if n > 0 {
      hide Prefixes;
      WithoutLast(a, i, n);
      WithoutLast(b, j, n);
      CommonTail(a, b, i, j, n - 1);
      Unfold(a, b, i + n, j + n);
    }
  }

  /** Texts that differ only between a common prefix and a common suffix. */
  lemma DifferInTheMiddle(p: Text, x: Text, y: Text, s: Text)
    requires |x| <= 1 && |y| <= 1
    ensures Distance(p + x + s, p + y + s) <= 1
  {
    var a, b := p + x + s, p + y + s;
    var i, j := |p| + |x|, |p| + |y|;
    hide Prefixes;
    assert a[i..i + |s|] == s && b[j..j + |s|] == s;
    CommonTail(a, b, i, j, |s|);
    assert forall k :: 0 <= k < |p| ==> a[k] == p[k] && b[k] == p[k];
    OneEditAtMost(a, b, |p|, i, j);
  }

  lemma OneEditAtMost(a: Text, b: Text, n: nat, i: nat, j: nat)
    requires n <= i <= n + 1 && n <= j <= n + 1 && i <= |a| && j <= |b|
    requires forall k :: 0 <= k < n ==> a[k] == b[k]
    ensures Prefixes(a, b, i, j) <= 1
  {
    hide Prefixes;
    ZeroOnEqual(a, b, n, n);
    Unfold(a, b, i, j);
  }

  lemma OneEditIsNear(a: Text, b: Text)
    requires OneEdit(a, b)
    ensures Distance(a, b) <= 1
  {
    if Inserted(a, b) {
      var i, c :| 0 <= i <= |a| && b == a[..i] + [c] + a[i..];
      assert a == a[..i] + [] + a[i..];
      DifferInTheMiddle(a[..i], [], [c], a[i..]);
    } else if Inserted(b, a) {
      var i, c :| 0 <= i <= |b| && a == b[..i] + [c] + b[i..];
      assert b == b[..i] + [] + b[i..];
      DifferInTheMiddle(b[..i], [c], [], b[i..]);
    } else {
      var i :| 0 <= i < |a| == |b| && b == a[i := b[i]];
      assert a == a[..i] + [a[i]] + a[i + 1..] && b == a[..i] + [b[i]] + a[i + 1..];
      DifferInTheMiddle(a[..i], [a[i]], [b[i]], a[i + 1..]);
    }
  }

  /** No way of editing a into b takes fewer edits than the distance. */
  lemma {:induction false} EditsAreAtLeastDistance(path: seq<Text>, a: Text, b: Text)
    requires EditPath(path, a, b)
    ensures Distance(a, b) <= |path| - 1
    decreases |path|
  {
    if |path| == 1 {
      ZeroOnEqual(a, b, |a|, |b|);
    } else {
      assert OneEdit(path[0], path[1]);
      OneEditIsNear(a, path[1]);
      EditsAreAtLeastDistance(path[1..], path[1], b);
      DistanceIsMetric(a, path[1], b);
    }
  }

  lemma InsertedBefore(a: Text, b: Text, c: char)
    requires Inserted(a, b)
    ensures Inserted(a + [c], b + [c])
  {
    var i, x :| 0 <= i <= |a| && b == a[..i] + [x] + a[i..];
    var a', b' := a + [c], b + [c];
    assert a'[..i] == a[..i] && a'[i..] == a[i..] + [c];
    assert b' == a'[..i] + [x] + a'[i..];
  }

  lemma OneEditBefore(a: Text, b: Text, c: char)
    requires OneEdit(a, b)
    ensures OneEdit(a + [c], b + [c])
  {
    if Inserted(a, b) {
      InsertedBefore(a, b, c);
    } else if Inserted(b, a) {
      InsertedBefore(b, a, c);
    } else {
      var i :| 0 <= i < |a| == |b| && b == a[i := b[i]];
      assert b + [c] == (a + [c])[i := (b + [c])[i]];
    }
  }

  lemma PathBefore(path: seq<Text>, a: Text, b: Text, c: char) returns (longer: seq<Text>)
    requires EditPath(path, a, b)
    ensures EditPath(longer, a + [c], b + [c]) && |longer| == |path|
  {
    longer := seq(|path|, i requires 0 <= i < |path| => path[i] + [c]);
    forall i | 0 <= i < |longer| - 1
      ensures OneEdit(longer[i], longer[i + 1])
    {
      OneEditBefore(path[i], path[i + 1], c);
    }
  }

  lemma LastEdits(a: Text, x: char, y: char)
    ensures OneEdit(a, a + [x]) && OneEdit(a + [x], a) && OneEdit(a + [x], a + [y])
  {
    assert a[..|a|] == a && a[|a|..] == [];
    assert a + [x] == a[..|a|] + [x] + a[|a|..];
    assert a + [y] == (a + [x])[|a| := (a + [y])[|a|]];
  }

  lemma PathAppended(path: seq<Text>, a: Text, b: Text, c: Text)
    requires EditPath(path, a, b) && OneEdit(b, c)
    ensures EditPath(path + [c], a, c)
  {
  }

  lemma PathPrepended(path: seq<Text>, a: Text, b: Text, c: Text)
    requires OneEdit(a, b) && EditPath(path, b, c)
    ensures EditPath([a] + path, a, c)
  {
  }

  /** Some way of editing a into b takes exactly as many edits as the distance. */
  lemma {:induction false} ShortestEdits(a: Text, b: Text, i: nat, j: nat) returns (path: seq<Text>)
    requires i <= |a| && j <= |b|
    ensures EditPath(path, a[..i], b[..j]) && |path| == Prefixes(a, b, i, j) + 1
    decreases i + j
  {
    hide EditPath, OneEdit, Prefixes;
    Unfold(a, b, i, j);
    if i == 0 && j == 0 {
      path := [a[..0]];
      EmptyPath(a, b);
    } else if j > 0 && (i == 0 || Prefixes(a, b, i, j) == Prefixes(a, b, i, j - 1) + 1) {
      path := ShortestEdits(a, b, i, j - 1);
      Unfold(a, b, i, j - 1);
      LastEdits(b[..j - 1], b[j - 1], b[j - 1]);
      assert b[..j] == b[..j - 1] + [b[j - 1]];
      PathAppended(path, a[..i], b[..j - 1], b[..j]);
      path := path + [b[..j]];
    } else if i > 0 && (j == 0 || Prefixes(a, b, i, j) == Prefixes(a, b, i - 1, j) + 1) {
      path := ShortestEdits(a, b, i - 1, j);
      Unfold(a, b, i - 1, j);
      LastEdits(a[..i - 1], a[i - 1], a[i - 1]);
      assert a[..i] == a[..i - 1] + [a[i - 1]];
      PathPrepended(path, a[..i], a[..i - 1], b[..j]);
      path := [a[..i]] + path;
    } else {
      path := ShortestEdits(a, b, i - 1, j - 1);
      path := PathBefore(path, a[..i - 1], b[..j - 1], b[j - 1]);
      assert a[..i] == a[..i - 1] + [a[i - 1]] && b[..j] == b[..j - 1] + [b[j - 1]];
      if a[i - 1] != b[j - 1] {
        LastEdits(a[..i - 1], a[i - 1], b[j - 1]);
        PathPrepended(path, a[..i], a[..i - 1] + [b[j - 1]], b[..j]);
        path := [a[..i]] + path;
      }
    }
  }

  lemma EmptyPath(a: Text, b: Text)
    ensures EditPath([a[..0]], a[..0], b[..0])
  {
  }

  /** The distance is the least number of edits that turn one text into the other. */
  lemma DistanceIsLeastEdits(a: Text, b: Text)
    ensures exists path :: EditPath(path, a, b) && |path| - 1 == Distance(a, b)
    ensures forall path :: EditPath(path, a, b) ==> Distance(a, b) <= |path| - 1
  {
    assert a[..|a|] == a && b[..|b|] == b;
    var path := ShortestEdits(a, b, |a|, |b|);
    forall p | EditPath(p, a, b)
      ensures Distance(a, b) <= |p| - 1
    {
      EditsAreAtLeastDistance(p, a, b);
    }
  }
}
