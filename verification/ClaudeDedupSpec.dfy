/** What deduplication keeps, whatever the order of the entries. */
module ClaudeDedupSpec {
  import opened Wrappers
  import opened ClaudeDedup

  /** Entries are compared by tokens, then by whether they carry a speed. */
  function Score(e: Entry): int {
    2 * e.tokens.Total() + if e.hasSpeed then 1 else 0
  }

  /** Some entry of message m is not a sidechain entry. */
  ghost predicate HasMain(es: seq<Entry>, m: Option<string>) {
    exists i :: 0 <= i < |es| && es[i].messageId == m && !es[i].isSidechain
  }

  /** Sidechain entries count only for messages that have nothing else. */
  ghost predicate Eligible(es: seq<Entry>, e: Entry) {
    e.messageId.Some? && (e.isSidechain ==> !HasMain(es, e.messageId))
  }

  /** Entries of which only one is kept: the main entries of one message and request, or the sidechain
      entries of one message. */
  predicate SameGroup(a: Entry, b: Entry) {
    && a.messageId.Some? && a.messageId == b.messageId && a.isSidechain == b.isSidechain
    && (a.isSidechain || a.requestId == b.requestId)
  }

  /** Entry e is the earliest of the best of its group. */
  ghost predicate Winner(es: seq<Entry>, e: Entry) {
    exists k :: 0 <= k < |es| && es[k] == e && WinnerAt(es, k)
  }

  ghost predicate WinnerAt(es: seq<Entry>, k: nat)
    requires k < |es|
  {
    && Eligible(es, es[k])
    && (forall j :: 0 <= j < |es| && SameGroup(es[j], es[k]) ==> Score(es[j]) <= Score(es[k]))
    && (forall j :: 0 <= j < k && SameGroup(es[j], es[k]) ==> Score(es[j]) < Score(es[k]))
  }

  function WithoutId(es: seq<Entry>): seq<Entry> {
    if es == [] then []
    else
      var before, e := WithoutId(es[..|es| - 1]), es[|es| - 1];
      if e.messageId.None? then before + [e] else before
  }

  /** d holds every entry without a message id, in order, and for every group of eligible entries its
      winner, exactly once. */
  ghost predicate Meets(es: seq<Entry>, d: seq<Entry>) {
    && WithoutId(d) == WithoutId(es)
    && (forall i :: 0 <= i < |d| && d[i].messageId.Some? ==> Winner(es, d[i]))
    && (forall i, j :: 0 <= i < j < |d| ==> !SameGroup(d[i], d[j]))
    && (forall e :: e in es && Eligible(es, e) ==> exists i :: 0 <= i < |d| && SameGroup(e, d[i]))
  }

  lemma {:induction false} DedupMeets(es: seq<Entry>)
    ensures Meets(es, Dedup(es))
  {
    if es != [] {
      var before, e := es[..|es| - 1], es[|es| - 1];
      DedupMeets(before);
      assert es == before + [e];
      InsertMeets(before, Dedup(before), e);
    }
  }

  lemma InsertMeets(es: seq<Entry>, d: seq<Entry>, e: Entry)
    requires Meets(es, d)
    ensures Meets(es + [e], Insert(d, e))
  {
    if e.messageId.None? {
      InsertWithoutId(es, d, e);
    } else {
      var i := Collision(d, e);
      if i == |d| {
        InsertNew(es, d, e);
      } else if ShouldReplace(e, d[i]) {
        InsertBetter(es, d, e, i);
      } else {
        InsertWorse(es, d, e, i);
      }
    }
  }

  lemma MainOneMore(es: seq<Entry>, e: Entry, m: Option<string>)
    ensures HasMain(es + [e], m) <==> HasMain(es, m) || (e.messageId == m && !e.isSidechain)
  {
    var more := es + [e];
    if HasMain(es, m) {
      var i :| 0 <= i < |es| && es[i].messageId == m && !es[i].isSidechain;
      assert more[i] == es[i];
    }
    if e.messageId == m && !e.isSidechain {
      assert more[|es|] == e;
    }
  }

  lemma WinnerStays(es: seq<Entry>, e: Entry, x: Entry)
    requires Winner(es, x) && Eligible(es + [e], x) && (SameGroup(e, x) ==> Score(e) <= Score(x))
    ensures Winner(es + [e], x)
  {
    var k :| 0 <= k < |es| && es[k] == x && WinnerAt(es, k);
    assert (es + [e])[k] == x && WinnerAt(es + [e], k);
  }

  lemma NewWinner(es: seq<Entry>, e: Entry)
    requires Eligible(es + [e], e)
    requires forall j :: 0 <= j < |es| && SameGroup(es[j], e) ==> Score(es[j]) < Score(e)
    ensures Winner(es + [e], e)
  {
    assert (es + [e])[|es|] == e && WinnerAt(es + [e], |es|);
  }

  lemma WithoutIdOneMore(es: seq<Entry>, e: Entry)
    ensures WithoutId(es + [e]) == WithoutId(es) + if e.messageId.None? then [e] else []
  {
  }

  lemma {:induction false} WithoutIdReplaced(d: seq<Entry>, i: nat, e: Entry)
    requires i < |d| && d[i].messageId.Some? && e.messageId.Some?
    ensures WithoutId(d[i := e]) == WithoutId(d)
  {
    var n := |d| - 1;
    if i < n {
      WithoutIdReplaced(d[..n], i, e);
      assert d[i := e][..n] == d[..n][i := e];
    } else {
      assert d[i := e][..n] == d[..n];
    }
  }

  lemma CollisionFacts(d: seq<Entry>, e: Entry)
    ensures var i := Collision(d, e);
            && (i < |d| ==> SameKey(d[i], e) || SharesSidechain(d[i], e))
            && (i == |d| ==> forall j :: 0 <= j < |d| ==> !SameKey(d[j], e) && !SharesSidechain(d[j], e))
  {
  }

  /** Winners come from the input, so a kept sidechain entry has no main entry beside it. */
  lemma WinnersAreInput(es: seq<Entry>, x: Entry)
    requires Winner(es, x)
    ensures x in es && Eligible(es, x) && forall j :: 0 <= j < |es| && SameGroup(es[j], x) ==> Score(es[j]) <= Score(x)
    ensures !x.isSidechain ==> HasMain(es, x.messageId)
  {
  }

  lemma EligibleOneMore(es: seq<Entry>, e: Entry, x: Entry)
    ensures Eligible(es + [e], x) ==> Eligible(es, x)
    ensures Eligible(es, x) && !(x.isSidechain && !e.isSidechain && e.messageId == x.messageId) ==>
              Eligible(es + [e], x)
  {
    MainOneMore(es, e, x.messageId);
  }

  lemma InsertWithoutId(es: seq<Entry>, d: seq<Entry>, e: Entry)
    requires Meets(es, d) && e.messageId.None?
    ensures Meets(es + [e], d + [e])
  {
    hide Winner, Eligible;
    var d' := d + [e];
    WithoutIdOneMore(es, e);
    WithoutIdOneMore(d, e);
    forall i | 0 <= i < |d'| && d'[i].messageId.Some?
      ensures Winner(es + [e], d'[i])
    {
      WinnersAreInput(es, d[i]);
      EligibleOneMore(es, e, d[i]);
      WinnerStays(es, e, d[i]);
    }
    forall x | x in es + [e] && Eligible(es + [e], x)
      ensures exists i :: 0 <= i < |d'| && SameGroup(x, d'[i])
    {
      EligibleOneMore(es, e, x);
      EligibleHasId(es, x);
      var i :| 0 <= i < |d| && SameGroup(x, d[i]);
      assert SameGroup(x, d'[i]);
    }
  }

  lemma EligibleHasId(es: seq<Entry>, x: Entry)
    ensures Eligible(es, x) ==> x.messageId.Some?
  {
  }

  /** Nothing kept collides with e, so nothing before e belongs to its group. */
  lemma InsertNew(es: seq<Entry>, d: seq<Entry>, e: Entry)
    requires Meets(es, d) && e.messageId.Some? && Collision(d, e) == |d|
    ensures Meets(es + [e], d + [e])
  {
    hide Winner, Eligible, Collision, WithoutId;
    var d' := d + [e];
    CollisionFacts(d, e);
    WithoutIdOneMore(es, e);
    WithoutIdOneMore(d, e);
    forall x | x in es && Eligible(es, x)
      ensures !SameGroup(x, e) && (x.messageId == e.messageId ==> !x.isSidechain && !e.isSidechain)
    {
      var i :| 0 <= i < |d| && SameGroup(x, d[i]);
    }
    NothingOfGroup(es, e);
    NewWinner(es, e);
    forall i | 0 <= i < |d'| && d'[i].messageId.Some?
      ensures Winner(es + [e], d'[i])
    {
      if i < |d| {
        WinnersAreInput(es, d[i]);
        EligibleOneMore(es, e, d[i]);
        WinnerStays(es, e, d[i]);
      }
    }
    forall x | x in es + [e] && Eligible(es + [e], x)
      ensures exists i :: 0 <= i < |d'| && SameGroup(x, d'[i])
    {
      EligibleOneMore(es, e, x);
      if x in es {
        var i :| 0 <= i < |d| && SameGroup(x, d[i]);
        assert SameGroup(x, d'[i]);
      } else {
        assert d'[|d|] == e && SameGroup(x, e);
      }
    }
  }

  lemma NothingOfGroup(es: seq<Entry>, e: Entry)
    requires e.messageId.Some?
    requires forall x :: x in es && Eligible(es, x) ==>
               !SameGroup(x, e) && (x.messageId == e.messageId ==> !x.isSidechain && !e.isSidechain)
    ensures forall j :: 0 <= j < |es| ==> !SameGroup(es[j], e)
    ensures Eligible(es + [e], e)
    ensures !HasMain(es, e.messageId) ==> forall j :: 0 <= j < |es| ==> es[j].messageId != e.messageId
  {
  }

  /** e takes the place of an entry it beats: of its own group, or the sidechain entry of a message
      of which e is the first main entry. */
  lemma InsertBetter(es: seq<Entry>, d: seq<Entry>, e: Entry, i: nat)
    requires Meets(es, d) && e.messageId.Some? && i == Collision(d, e) && i < |d| && ShouldReplace(e, d[i])
    ensures Meets(es + [e], d[i := e])
  {
    var d' := d[i := e];
    CollisionFacts(d, e);
    WithoutIdOneMore(es, e);
    WithoutIdReplaced(d, i, e);
    BetterWins(es, d, e, i);
    hide Winner, Eligible, Collision, WithoutId;
    forall j | 0 <= j < |d'| && d'[j].messageId.Some?
      ensures Winner(es + [e], d'[j]) && (j != i ==> !SameGroup(d'[j], e) && !SameGroup(e, d'[j]))
    {
      if j != i {
        OthersStay(es, d, e, i, j);
      }
    }
    forall x | x in es + [e] && Eligible(es + [e], x)
      ensures exists j :: 0 <= j < |d'| && SameGroup(x, d'[j])
    {
      assert d'[i] == e;
      if x == e {
        assert SameGroup(x, d'[i]);
      } else {
        var j := StillCovered(es, d, e, i, x);
        assert SameGroup(x, d'[j]);
      }
    }
  }

  lemma BetterWins(es: seq<Entry>, d: seq<Entry>, e: Entry, i: nat)
    requires Meets(es, d) && e.messageId.Some? && i == Collision(d, e) && i < |d| && ShouldReplace(e, d[i])
    ensures Winner(es + [e], e) && Winner(es, d[i])
    ensures SameGroup(e, d[i]) || (d[i].isSidechain && !e.isSidechain && d[i].messageId == e.messageId)
  {
    CollisionFacts(d, e);
    WinnersAreInput(es, d[i]);
    MainOneMore(es, e, e.messageId);
    forall j | 0 <= j < |es| && SameGroup(es[j], e)
      ensures Score(es[j]) < Score(e)
    {
      assert !es[j].isSidechain ==> HasMain(es, e.messageId);
      assert SameGroup(es[j], d[i]);
    }
    NewWinner(es, e);
  }

  lemma OthersStay(es: seq<Entry>, d: seq<Entry>, e: Entry, i: nat, j: nat)
    requires Meets(es, d) && i < |d| && j < |d| && i != j && d[j].messageId.Some? && Winner(es, d[i])
    requires SameGroup(e, d[i]) || (d[i].isSidechain && !e.isSidechain && d[i].messageId == e.messageId)
    ensures Winner(es + [e], d[j]) && !SameGroup(d[j], e) && !SameGroup(e, d[j])
  {
    WinnersAreInput(es, d[i]);
    WinnersAreInput(es, d[j]);
    assert !SameGroup(d[j], d[i]) && !SameGroup(d[i], d[j]);
    EligibleOneMore(es, e, d[j]);
    WinnerStays(es, e, d[j]);
  }

  lemma StillCovered(es: seq<Entry>, d: seq<Entry>, e: Entry, i: nat, x: Entry) returns (j: nat)
    requires Meets(es, d) && i < |d| && x in es && Eligible(es + [e], x)
    requires SameGroup(e, d[i]) || (d[i].isSidechain && !e.isSidechain && d[i].messageId == e.messageId)
    ensures j < |d| && SameGroup(x, d[i := e][j])
  {
    EligibleOneMore(es, e, x);
    MainOneMore(es, e, x.messageId);
    j :| 0 <= j < |d| && SameGroup(x, d[j]);
    assert j == i ==> SameGroup(e, d[i]);
  }

  lemma InsertWorse(es: seq<Entry>, d: seq<Entry>, e: Entry, i: nat)
    requires Meets(es, d) && e.messageId.Some? && i == Collision(d, e) && i < |d| && !ShouldReplace(e, d[i])
    ensures Meets(es + [e], d)
  {
    CollisionFacts(d, e);
    WithoutIdOneMore(es, e);
    WinnersAreInput(es, d[i]);
    MainOneMore(es, e, e.messageId);
    assert SameGroup(e, d[i]) || (!d[i].isSidechain && e.isSidechain);
    forall j | 0 <= j < |d| && d[j].messageId.Some?
      ensures Winner(es + [e], d[j])
    {
      WinnersAreInput(es, d[j]);
      EligibleOneMore(es, e, d[j]);
      if j != i && SameGroup(e, d[j]) {
        assert false;
      }
      WinnerStays(es, e, d[j]);
    }
    forall x | x in es + [e] && Eligible(es + [e], x)
      ensures exists j :: 0 <= j < |d| && SameGroup(x, d[j])
    {
      EligibleOneMore(es, e, x);
      if x !in es {
        assert SameGroup(x, d[i]);
      }
    }
  }
}
