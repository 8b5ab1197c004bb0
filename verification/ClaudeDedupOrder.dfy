/** The order of the log entries does not matter to what deduplication keeps, and deduplicating twice
    changes nothing. */
module ClaudeDedupOrder {
  import opened Wrappers
  import opened ClaudeDedup
  import opened ClaudeDedupSpec
  import opened Sequences

  /** What is the same about equally good entries of one group. */
  datatype Signature = Signature(messageId: Option<string>, requestId: Option<string>, isSidechain: bool, score: int)

  function SignatureOf(e: Entry): Signature {
    Signature(e.messageId, if e.messageId.Some? && e.isSidechain then None else e.requestId, e.isSidechain, Score(e))
  }

  function Signatures(d: seq<Entry>): (r: seq<Signature>)
    ensures |r| == |d| && forall i :: 0 <= i < |d| ==> r[i] == SignatureOf(d[i])
  {
    seq(|d|, i requires 0 <= i < |d| => SignatureOf(d[i]))
  }

  function TotalTokens(d: seq<Entry>): int {
    if d == [] then 0 else d[0].tokens.Total() + TotalTokens(d[1..])
  }

  // ----- permutations -----

  lemma {:induction false} SignaturesOfPermutation(s: seq<Entry>, t: seq<Entry>)
    requires multiset(s) == multiset(t)
    ensures multiset(Signatures(s)) == multiset(Signatures(t))
  {
    if s == [] {
      NoneLeft(t);
    } else {
      var j := TakeOut(s, t);
      var x, rest := s[0], t[..j] + t[j + 1..];
      SignaturesOfPermutation(s[1..], rest);
      assert Signatures(s) == [SignatureOf(x)] + Signatures(s[1..]);
      assert Signatures(t) == Signatures(t[..j]) + [SignatureOf(x)] + Signatures(t[j + 1..]);
      assert Signatures(rest) == Signatures(t[..j]) + Signatures(t[j + 1..]);
    }
  }

  function WithId(es: seq<Entry>): seq<Entry> {
    if es == [] then []
    else
      var before, e := WithId(es[..|es| - 1]), es[|es| - 1];
      if e.messageId.Some? then before + [e] else before
  }

  lemma {:induction false} Partition(es: seq<Entry>)
    ensures multiset(es) == multiset(WithoutId(es)) + multiset(WithId(es))
    ensures forall x :: x in WithId(es) <==> x in es && x.messageId.Some?
    ensures forall x :: x in WithoutId(es) ==> x.messageId.None?
  {
    if es != [] {
      var before, e := es[..|es| - 1], es[|es| - 1];
      Partition(before);
      assert es == before + [e];
    }
  }

  ghost predicate OnePerGroup(d: seq<Entry>) {
    forall i, j :: 0 <= i < j < |d| ==> !SameGroup(d[i], d[j])
  }

  lemma {:induction false} WithIdOnePerGroup(d: seq<Entry>)
    requires OnePerGroup(d)
    ensures OnePerGroup(WithId(d))
  {
    if d != [] {
      var before, e := d[..|d| - 1], d[|d| - 1];
      WithIdOnePerGroup(before);
      Partition(before);
      forall i | 0 <= i < |WithId(before)|
        ensures !SameGroup(WithId(before)[i], e)
      {
        assert WithId(before)[i] in before;
      }
    }
  }

  /** Of permuted inputs the entries without id agree as multisets. */
  lemma WithoutIdOfPermutation(es: seq<Entry>, fs: seq<Entry>)
    requires multiset(es) == multiset(fs)
    ensures multiset(WithoutId(es)) == multiset(WithoutId(fs))
  {
    Partition(es);
    Partition(fs);
    forall x
      ensures multiset(WithoutId(es))[x] == multiset(WithoutId(fs))[x]
    {
      if x.messageId.None? {
        assert x !in WithId(es) && x !in WithId(fs);
        assert multiset(es)[x] == multiset(WithoutId(es))[x] && multiset(fs)[x] == multiset(WithoutId(fs))[x];
      } else {
        assert x !in WithoutId(es) && x !in WithoutId(fs);
      }
    }
  }

  lemma PermutationKeepsWinners(es: seq<Entry>, fs: seq<Entry>, x: Entry)
    requires multiset(es) == multiset(fs)
    ensures Eligible(es, x) <==> Eligible(fs, x)
  {
    MainOfPermutation(es, fs, x.messageId);
    MainOfPermutation(fs, es, x.messageId);
  }

  lemma MainOfPermutation(es: seq<Entry>, fs: seq<Entry>, m: Option<string>)
    requires multiset(es) == multiset(fs)
    ensures HasMain(es, m) ==> HasMain(fs, m)
  {
    if HasMain(es, m) {
      var i :| 0 <= i < |es| && es[i].messageId == m && !es[i].isSidechain;
      assert es[i] in multiset(fs);
      var j :| 0 <= j < |fs| && fs[j] == es[i];
    }
  }

  /** The kept entries of one order all have an equally good counterpart in the other. */
  lemma Counterpart(es: seq<Entry>, fs: seq<Entry>, d: seq<Entry>, c: seq<Entry>, x: Entry)
    requires multiset(es) == multiset(fs) && Meets(es, d) && Meets(fs, c)
    requires x in d && x.messageId.Some?
    ensures exists y :: y in c && y.messageId.Some? && SignatureOf(y) == SignatureOf(x)
  {
    var i :| 0 <= i < |d| && d[i] == x;
    WinnersAreInput(es, x);
    assert x in multiset(fs);
    PermutationKeepsWinners(es, fs, x);
    var j :| 0 <= j < |c| && SameGroup(x, c[j]);
    WinnersAreInput(fs, c[j]);
    assert c[j] in multiset(es);
    EquallyGood(es, fs, x, c[j]);
  }

  lemma EquallyGood(es: seq<Entry>, fs: seq<Entry>, x: Entry, y: Entry)
    requires SameGroup(x, y) && y in es && x in fs
    requires forall j :: 0 <= j < |es| && SameGroup(es[j], x) ==> Score(es[j]) <= Score(x)
    requires forall j :: 0 <= j < |fs| && SameGroup(fs[j], y) ==> Score(fs[j]) <= Score(y)
    ensures SignatureOf(x) == SignatureOf(y)
  {
    hide Score;
    var k :| 0 <= k < |es| && es[k] == y;
    var l :| 0 <= l < |fs| && fs[l] == x;
    assert SameGroup(es[k], x) && SameGroup(fs[l], y);
  }

  ghost predicate Matched(d: seq<Entry>, c: seq<Entry>) {
    forall x :: x in d ==> exists y :: y in c && SignatureOf(y) == SignatureOf(x)
  }

  lemma MatchedSignatures(d: seq<Entry>, c: seq<Entry>, s: Signature)
    requires Matched(d, c) && s in Signatures(d)
    ensures s in Signatures(c)
  {
  }

  /** Distinct groups have distinct signatures, so equal sets of signatures are equal multisets. */
  lemma SameSignatures(d: seq<Entry>, c: seq<Entry>)
    requires OnePerGroup(d) && OnePerGroup(c)
    requires forall x :: x in d || x in c ==> x.messageId.Some?
    requires Matched(d, c) && Matched(c, d)
    ensures multiset(Signatures(d)) == multiset(Signatures(c))
  {
    SignaturesOnce(d);
    SignaturesOnce(c);
    forall s
      ensures multiset(Signatures(d))[s] == multiset(Signatures(c))[s]
    {
      if s in Signatures(d) {
        MatchedSignatures(d, c, s);
      }
      if s in Signatures(c) {
        MatchedSignatures(c, d, s);
      }
    }
  }

  lemma {:induction false} SignaturesOnce(d: seq<Entry>)
    requires OnePerGroup(d) && forall x :: x in d ==> x.messageId.Some?
    ensures forall s :: multiset(Signatures(d))[s] == if s in Signatures(d) then 1 else 0
  {
    if d != [] {
      var before, e := d[..|d| - 1], d[|d| - 1];
      SignaturesOnce(before);
      assert Signatures(d) == Signatures(before) + [SignatureOf(e)];
      forall i | 0 <= i < |before|
        ensures SignatureOf(before[i]) != SignatureOf(e)
      {
        assert !SameGroup(d[i], d[|d| - 1]);
        assert before[i] in d;
      }
      assert SignatureOf(e) !in Signatures(before);
    }
  }

  /** Permuting the log entries permutes what is kept, up to equally good entries of one group. */
  lemma DedupOfPermutation(es: seq<Entry>, fs: seq<Entry>)
    requires multiset(es) == multiset(fs)
    ensures multiset(Signatures(Dedup(es))) == multiset(Signatures(Dedup(fs)))
    ensures TotalTokens(Dedup(es)) == TotalTokens(Dedup(fs))
  {
    hide Dedup, Meets, WithoutId, WithId, OnePerGroup, Matched, Signatures, HalfScores, TotalTokens;
    var d, c := Dedup(es), Dedup(fs);
    KeptWithId(es, fs);
    KeptWithId(fs, es);
    SameSignatures(WithId(d), WithId(c));
    WithoutIdOfPermutation(es, fs);
    SignaturesOfPermutation(WithoutId(d), WithoutId(c));
    SignaturesOfParts(d);
    SignaturesOfParts(c);
    TokensBySignature(d);
    TokensBySignature(c);
    ScoresOfPermutation(Signatures(d), Signatures(c));
  }

  lemma KeptWithId(es: seq<Entry>, fs: seq<Entry>)
    requires multiset(es) == multiset(fs)
    ensures var d, c := Dedup(es), Dedup(fs);
            && WithoutId(d) == WithoutId(es) && OnePerGroup(WithId(d)) && Matched(WithId(d), WithId(c))
            && forall x :: x in WithId(d) ==> x.messageId.Some?
  {
    hide Dedup, SignatureOf, OnePerGroup, WithId, WithoutId, Winner;
    var d, c := Dedup(es), Dedup(fs);
    DedupMeets(es);
    DedupMeets(fs);
    Partition(d);
    Partition(c);
    WithIdOnePerGroup(d);
    forall x | x in WithId(d)
      ensures exists y :: y in WithId(c) && SignatureOf(y) == SignatureOf(x)
    {
      Counterpart(es, fs, d, c, x);
      var y :| y in c && y.messageId.Some? && SignatureOf(y) == SignatureOf(x);
      assert y in WithId(c);
    }
  }

  lemma SignaturesOfParts(d: seq<Entry>)
    ensures multiset(Signatures(d)) == multiset(Signatures(WithoutId(d))) + multiset(Signatures(WithId(d)))
  {
    Partition(d);
    SignaturesOfPermutation(d, WithoutId(d) + WithId(d));
    assert Signatures(WithoutId(d) + WithId(d)) == Signatures(WithoutId(d)) + Signatures(WithId(d));
  }

  function HalfScores(s: seq<Signature>): int {
    if s == [] then 0 else s[0].score / 2 + HalfScores(s[1..])
  }

  lemma {:induction false} TokensBySignature(d: seq<Entry>)
    ensures TotalTokens(d) == HalfScores(Signatures(d))
  {
    if d != [] {
      TokensBySignature(d[1..]);
      assert Signatures(d)[1..] == Signatures(d[1..]);
    }
  }

  lemma {:induction false} HalfScoresInTwoParts(s: seq<Signature>, t: seq<Signature>)
    ensures HalfScores(s + t) == HalfScores(s) + HalfScores(t)
  {
    if s == [] {
      assert s + t == t;
    } else {
      HalfScoresInTwoParts(s[1..], t);
      assert (s + t)[1..] == s[1..] + t;
    }
  }

  lemma {:induction false} ScoresOfPermutation(s: seq<Signature>, t: seq<Signature>)
    requires multiset(s) == multiset(t)
    ensures HalfScores(s) == HalfScores(t)
  {
    if s == [] {
      NoneLeft(t);
    } else {
      var j := TakeOut(s, t);
      ScoresOfPermutation(s[1..], t[..j] + t[j + 1..]);
      HalfScoresInTwoParts(t[..j], [s[0]]);
      HalfScoresInTwoParts(t[..j] + [s[0]], t[j + 1..]);
      HalfScoresInTwoParts(t[..j], t[j + 1..]);
    }
  }

  // ----- idempotence -----

  /** Deduplicating what was kept keeps it as it is. */
  lemma DedupTwice(es: seq<Entry>)
    ensures Dedup(Dedup(es)) == Dedup(es)
  {
    DedupMeets(es);
    var d := Dedup(es);
    forall i, j | 0 <= i < j < |d|
      ensures !SameKey(d[i], d[j]) && !SharesSidechain(d[i], d[j])
    {
      if d[i].messageId.Some? && d[i].messageId == d[j].messageId {
        WinnersAreInput(es, d[i]);
        WinnersAreInput(es, d[j]);
        assert !SameGroup(d[i], d[j]);
      }
    }
    NothingCollides(d);
  }

  lemma {:induction false} NothingCollides(d: seq<Entry>)
    requires forall i, j :: 0 <= i < j < |d| ==> !SameKey(d[i], d[j]) && !SharesSidechain(d[i], d[j])
    ensures Dedup(d) == d
  {
    if d != [] {
      var before, e := d[..|d| - 1], d[|d| - 1];
      NothingCollides(before);
      CollisionFacts(before, e);
      assert d == before + [e];
    }
  }
}
