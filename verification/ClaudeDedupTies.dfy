/** Exactly when the order of the log entries matters to what deduplication keeps: when the best entries of some group
    tie. */
module ClaudeDedupTies {
  import opened Wrappers
  import opened ClaudeDedup
  import opened ClaudeDedupSpec
  import opened ClaudeDedupOrder
  import opened Sequences

  ghost predicate Permuted(s: seq<Entry>, t: seq<Entry>) {
    multiset(s) == multiset(t)
  }

  /** One of the best of its group. */
  ghost predicate Best(es: seq<Entry>, x: Entry) {
    x in es && Eligible(es, x) && forall y :: y in es && SameGroup(y, x) ==> Score(y) <= Score(x)
  }

  ghost predicate Tie(es: seq<Entry>, x: Entry, y: Entry) {
    Best(es, x) && Best(es, y) && SameGroup(x, y) && x != y
  }

  ghost predicate HasTie(es: seq<Entry>) {
    exists x, y :: Tie(es, x, y)
  }

  lemma WinnersAreBest(es: seq<Entry>, x: Entry)
    requires Winner(es, x)
    ensures Best(es, x)
  {
    WinnersAreInput(es, x);
    forall y | y in es && SameGroup(y, x)
      ensures Score(y) <= Score(x)
    {
      var j :| 0 <= j < |es| && es[j] == y;
    }
  }

  lemma BestOfPermutation(es: seq<Entry>, fs: seq<Entry>, x: Entry)
    requires Permuted(es, fs) && Best(es, x)
    ensures Best(fs, x)
  {
    hide Eligible;
    PermutationKeepsWinners(es, fs, x);
    assert x in multiset(es);
    forall y | y in fs
      ensures y in es
    {
      assert y in multiset(fs);
    }
  }

  /** Of each group with a best entry some best entry is kept. */
  lemma KeptOfGroup(es: seq<Entry>, x: Entry) returns (y: Entry)
    requires Best(es, x)
    ensures y in Dedup(es) && SameGroup(x, y) && Best(es, y)
  {
    hide Dedup, Winner;
    DedupMeets(es);
    var d := Dedup(es);
    var i :| 0 <= i < |d| && SameGroup(x, d[i]);
    y := d[i];
    WinnersAreBest(es, y);
  }

  lemma KeptAreKept(es: seq<Entry>, fs: seq<Entry>, x: Entry)
    requires Permuted(es, fs) && !HasTie(es) && x in Dedup(es) && x.messageId.Some?
    ensures x in Dedup(fs)
  {
    hide Dedup, Best, Winner, SameGroup;
    DedupMeets(es);
    WinnersAreBest(es, x);
    BestOfPermutation(es, fs, x);
    var y := KeptOfGroup(fs, x);
    BestOfPermutation(fs, es, y);
    assert !Tie(es, x, y);
  }

  /** Entries of different groups are different. */
  lemma {:induction false} KeptOnce(d: seq<Entry>)
    requires OnePerGroup(d) && forall x :: x in d ==> x.messageId.Some?
    ensures forall x :: multiset(d)[x] == if x in d then 1 else 0
  {
    if d != [] {
      var before, e := d[..|d| - 1], d[|d| - 1];
      assert d == before + [e];
      KeptOnce(before);
      forall i | 0 <= i < |before|
        ensures before[i] != e
      {
        assert !SameGroup(d[i], d[|d| - 1]);
        assert before[i] in d;
      }
    }
  }

  /** Without ties the order does not matter: the kept entries are permuted with the log. */
  lemma PermutedWithoutTies(es: seq<Entry>, fs: seq<Entry>)
    requires Permuted(es, fs) && !HasTie(es)
    ensures Permuted(Dedup(es), Dedup(fs))
  {
    hide Dedup, HasTie, WithId, WithoutId, OnePerGroup, Matched;
    TiesOfPermutation(es, fs);
    var d, c := Dedup(es), Dedup(fs);
    KeptWithId(es, fs);
    KeptWithId(fs, es);
    WithoutIdOfPermutation(es, fs);
    Partition(d);
    Partition(c);
    KeptOnce(WithId(d));
    KeptOnce(WithId(c));
    forall x
      ensures x in WithId(d) <==> x in WithId(c)
    {
      if x in WithId(d) {
        KeptAreKept(es, fs, x);
      }
      if x in WithId(c) {
        KeptAreKept(fs, es, x);
      }
    }
    assert multiset(WithId(d)) == multiset(WithId(c));
  }

  lemma TiesOfPermutation(es: seq<Entry>, fs: seq<Entry>)
    requires Permuted(es, fs)
    ensures HasTie(fs) ==> HasTie(es)
  {
    hide Best;
    if x, y :| Tie(fs, x, y) {
      BestOfPermutation(fs, es, x);
      BestOfPermutation(fs, es, y);
      assert Tie(es, x, y);
    }
  }

  /** The log with one of its entries moved to the front. */
  lemma MovedToFront(es: seq<Entry>, x: Entry) returns (fs: seq<Entry>)
    requires x in es
    ensures Permuted(fs, es) && fs != [] && fs[0] == x
  {
    var j :| 0 <= j < |es| && es[j] == x;
    MultisetWithout(es, j);
    fs := [x] + (es[..j] + es[j + 1..]);
  }

  /** Of equally good entries the one that comes first is kept. */
  lemma FirstIsKept(es: seq<Entry>, x: Entry)
    requires es != [] && es[0] == x && Best(es, x)
    ensures forall y :: y in Dedup(es) && SameGroup(x, y) ==> y == x
    ensures x in Dedup(es)
  {
    hide Dedup;
    DedupMeets(es);
    var d := Dedup(es);
    forall y | y in d && SameGroup(x, y)
      ensures y == x
    {
      var k :| 0 <= k < |es| && es[k] == y && WinnerAt(es, k);
      var first := es[0];
      assert SameGroup(first, es[k]) && Score(es[k]) <= Score(first);
    }
    var y := KeptOfGroup(es, x);
  }

  /** The order of the log does not matter to what is kept, if and only if no two best entries of a group tie. */
  lemma OrderMattersExactlyForTies(es: seq<Entry>)
    ensures (forall fs :: Permuted(fs, es) ==> Permuted(Dedup(fs), Dedup(es))) <==> !HasTie(es)
  {
    hide Dedup, Best, SameGroup;
    if !HasTie(es) {
      forall fs | Permuted(fs, es)
        ensures Permuted(Dedup(fs), Dedup(es))
      {
        PermutedWithoutTies(es, fs);
      }
    } else {
      var x, y :| Tie(es, x, y);
      var fs, gs := TieBroken(es, x, y);
      assert !Permuted(Dedup(fs), Dedup(es)) || !Permuted(Dedup(gs), Dedup(es));
    }
  }

  lemma TieBroken(es: seq<Entry>, x: Entry, y: Entry) returns (fs: seq<Entry>, gs: seq<Entry>)
    requires Tie(es, x, y)
    ensures Permuted(fs, es) && Permuted(gs, es) && !Permuted(Dedup(fs), Dedup(gs))
  {
    hide Dedup, Best;
    BestIsThere(es, x);
    BestIsThere(es, y);
    fs := MovedToFront(es, x);
    gs := MovedToFront(es, y);
    BestOfPermutation(es, fs, x);
    BestOfPermutation(es, gs, y);
    FirstIsKept(fs, x);
    FirstIsKept(gs, y);
    assert x in multiset(Dedup(fs)) && x !in Dedup(gs);
  }

  lemma BestIsThere(es: seq<Entry>, x: Entry)
    requires Best(es, x)
    ensures x in es
  {
  }
}
