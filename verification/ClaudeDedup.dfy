/** Deduplication of Claude log entries: an online pass with an exact index and a message index. It is
    shown to be the pass that scans the kept entries, which in turn keeps one best entry per group
    whatever the order of the input. */
module ClaudeDedup {
  import opened Wrappers

  datatype TokenBreakdown = TokenBreakdown(input: int, cacheWrite5m: int, cacheWrite1h: int, cacheRead: int,
                                           output: int, isFast: bool) {
    function Total(): int {
      input + cacheWrite5m + cacheWrite1h + cacheRead + output
    }
  }

  datatype Entry = Entry(
    timestamp: int,
    tokens: TokenBreakdown,
    messageId: Option<string>,
    requestId: Option<string>,
    isSidechain: bool,
    hasSpeed: bool,
    costUsd: Option<real>,
    model: Option<string>)

  datatype ExactKey = ExactKey(messageId: string, requestId: Option<string>)

  function KeyOf(e: Entry): ExactKey
    requires e.messageId.Some?
  {
    ExactKey(e.messageId.value, e.requestId)
  }

  predicate ShouldReplace(candidate: Entry, existing: Entry) {
    if candidate.isSidechain != existing.isSidechain then existing.isSidechain
    else if candidate.tokens.Total() != existing.tokens.Total() then candidate.tokens.Total() > existing.tokens.Total()
    else candidate.hasSpeed && !existing.hasSpeed
  }

  // ----- the pass by scanning -----

  predicate SameKey(a: Entry, b: Entry) {
    a.messageId.Some? && a.messageId == b.messageId && a.requestId == b.requestId
  }

  /** One of the two is a sidechain entry of the other's message. */
  predicate SharesSidechain(a: Entry, b: Entry) {
    a.messageId.Some? && a.messageId == b.messageId && (a.isSidechain || b.isSidechain)
  }

  function FirstIndex(d: seq<Entry>, p: Entry -> bool): (r: nat)
    ensures r <= |d| && (forall j :: 0 <= j < r ==> !p(d[j])) && (r < |d| ==> p(d[r]))
  {
    if d == [] then 0 else if p(d[0]) then 0 else 1 + FirstIndex(d[1..], p)
  }

  /** Where e collides: with the kept entry of its key, else with the first kept entry of its message
      if one of the two is a sidechain entry; |d| if nowhere. */
  function Collision(d: seq<Entry>, e: Entry): (r: nat)
    ensures r <= |d|
  {
    var exact := FirstIndex(d, x => SameKey(x, e));
    if exact < |d| then exact else FirstIndex(d, x => SharesSidechain(x, e))
  }

  function Insert(d: seq<Entry>, e: Entry): seq<Entry> {
    if e.messageId.None? then d + [e]
    else
      var i := Collision(d, e);
      if i == |d| then d + [e] else if ShouldReplace(e, d[i]) then d[i := e] else d
  }

  function Dedup(es: seq<Entry>): seq<Entry> {
    if es == [] then [] else Insert(Dedup(es[..|es| - 1]), es[|es| - 1])
  }

  // ----- the pass with indexes -----

  /** The exact index lists each kept entry under its key, and nothing else. */
  ghost predicate ExactAgrees(exact: map<ExactKey, nat>, d: seq<Entry>) {
    && (forall k :: k in exact ==> exact[k] < |d| && d[exact[k]].messageId.Some? && KeyOf(d[exact[k]]) == k)
    && (forall i :: 0 <= i < |d| && d[i].messageId.Some? ==> KeyOf(d[i]) in exact && exact[KeyOf(d[i])] == i)
  }

  /** The message index lists the positions of each message's kept entries in ascending order. */
  ghost predicate MessagesAgree(messages: map<string, seq<nat>>, d: seq<Entry>) {
    && (forall m :: m in messages ==> Ascending(messages[m]) && forall i :: i in messages[m] ==>
        i < |d| && d[i].messageId == Some(m))
    && (forall i :: 0 <= i < |d| && d[i].messageId.Some? ==>
        d[i].messageId.value in messages && i in messages[d[i].messageId.value])
  }

  ghost predicate Ascending(s: seq<nat>) {
    forall j, k :: 0 <= j < k < |s| ==> s[j] < s[k]
  }

  /** The first listed position whose entry or the given one is a sidechain entry; |d| if none. */
  method FindSidechain(d: seq<Entry>, indices: seq<nat>, e: Entry) returns (r: nat)
    requires e.messageId.Some? && Ascending(indices)
    requires forall k :: 0 <= k < |indices| ==> indices[k] < |d| && d[indices[k]].messageId == e.messageId
    requires forall i :: 0 <= i < |d| && d[i].messageId == e.messageId ==> i in indices
    ensures r == FirstIndex(d, x => SharesSidechain(x, e))
  {
    var n := 0;
    while n < |indices|
      invariant 0 <= n <= |indices|
      invariant forall j :: 0 <= j < n ==> !SharesSidechain(d[indices[j]], e)
    {
      if e.isSidechain || d[indices[n]].isSidechain {
        r := indices[n];
        forall j | 0 <= j < r
          ensures !SharesSidechain(d[j], e)
        {
          if d[j].messageId == e.messageId {
            assert j in indices;
          }
        }
        return;
      }
      n := n + 1;
    }
    r := |d|;
    forall j | 0 <= j < r
      ensures !SharesSidechain(d[j], e)
    {
      if d[j].messageId == e.messageId {
        assert j in indices;
      }
    }
  }

  method DedupEntries(entries: seq<Entry>) returns (d: seq<Entry>)
    ensures d == Dedup(entries)
  {
    hide ExactAgrees, MessagesAgree, Collision;
    d := [];
    var exact: map<ExactKey, nat> := map[];
    var messages: map<string, seq<nat>> := map[];
    var n := 0;
    NoIndexes();
    while n < |entries|
      invariant 0 <= n <= |entries|
      invariant d == Dedup(entries[..n])
      invariant ExactAgrees(exact, d) && MessagesAgree(messages, d)
    {
      var e := entries[n];
      n := n + 1;
      assert entries[..n][..n - 1] == entries[..n - 1];
      if e.messageId.None? {
        AppendedWithoutId(d, exact, messages, e);
        d := d + [e];
        continue;
      }
      var m, key := e.messageId.value, KeyOf(e);
      var index := |d|;
      if key in exact {
        index := exact[key];
      } else if m in messages {
        ListedMessage(d, messages, m);
        index := FindSidechain(d, messages[m], e);
      }
      CollisionByIndex(d, exact, messages, e, index);
      if index < |d| {
        if ShouldReplace(e, d[index]) {
          ReplacedIndexes(d, exact, messages, e, index);
          exact := exact - {KeyOf(d[index])};
          d := d[index := e];
          exact := exact[key := index];
        }
        continue;
      }
      AppendedExact(d, exact, e);
      AppendedMessage(d, messages, m, e);
      d := d + [e];
      exact := exact[key := index];
      messages := messages[m := (if m in messages then messages[m] else []) + [index]];
    }
    assert entries[..n] == entries;
  }

  lemma NoIndexes()
    ensures ExactAgrees(map[], []) && MessagesAgree(map[], [])
  {
  }

  lemma ListedMessage(d: seq<Entry>, messages: map<string, seq<nat>>, m: string)
    requires MessagesAgree(messages, d) && m in messages
    ensures Ascending(messages[m])
    ensures forall k :: 0 <= k < |messages[m]| ==> messages[m][k] < |d| && d[messages[m][k]].messageId == Some(m)
    ensures forall i :: 0 <= i < |d| && d[i].messageId == Some(m) ==> i in messages[m]
  {
    assert forall k :: 0 <= k < |messages[m]| ==> messages[m][k] in messages[m];
  }

  lemma CollisionByIndex(d: seq<Entry>, exact: map<ExactKey, nat>, messages: map<string, seq<nat>>, e: Entry,
                         index: nat)
    requires e.messageId.Some? && ExactAgrees(exact, d) && MessagesAgree(messages, d)
    requires if KeyOf(e) in exact then index == exact[KeyOf(e)]
             else if e.messageId.value in messages then index == FirstIndex(d, x => SharesSidechain(x, e))
             else index == |d|
    ensures index == Collision(d, e)
    ensures index < |d| ==> d[index].messageId == e.messageId && (KeyOf(e) in exact ==> index == exact[KeyOf(e)])
    ensures index == |d| ==> KeyOf(e) !in exact
  {
  }

  lemma ReplacedIndexes(d: seq<Entry>, exact: map<ExactKey, nat>, messages: map<string, seq<nat>>, e: Entry, index: nat)
    requires e.messageId.Some? && ExactAgrees(exact, d) && MessagesAgree(messages, d)
    requires index < |d| && d[index].messageId == e.messageId && (KeyOf(e) in exact ==> index == exact[KeyOf(e)])
    ensures ExactAgrees((exact - {KeyOf(d[index])})[KeyOf(e) := index], d[index := e])
    ensures MessagesAgree(messages, d[index := e])
  {
  }

  lemma AppendedExact(d: seq<Entry>, exact: map<ExactKey, nat>, e: Entry)
    requires e.messageId.Some? && ExactAgrees(exact, d) && KeyOf(e) !in exact
    ensures ExactAgrees(exact[KeyOf(e) := |d|], d + [e])
  {
  }

  lemma AppendedMessage(d: seq<Entry>, messages: map<string, seq<nat>>, m: string, e: Entry)
    requires e.messageId == Some(m) && MessagesAgree(messages, d)
    ensures MessagesAgree(messages[m := (if m in messages then messages[m] else []) + [|d|]], d + [e])
  {
    var listed := if m in messages then messages[m] else [];
    var after, d' := messages[m := listed + [|d|]], d + [e];
    AppendedPosition(listed, |d|);
    forall q, i | q in after && i in after[q]
      ensures i < |d'| && d'[i].messageId == Some(q)
    {
      if q != m || i != |d| {
        assert q in messages && i in messages[q];
      }
    }
    forall i | 0 <= i < |d'| && d'[i].messageId.Some?
      ensures d'[i].messageId.value in after && i in after[d'[i].messageId.value]
    {
      if i < |d| {
        assert i in messages[d[i].messageId.value];
      }
    }
  }

  lemma AppendedPosition(listed: seq<nat>, n: nat)
    ensures forall i :: i in listed + [n] <==> i in listed || i == n
    ensures Ascending(listed) && (forall i :: i in listed ==> i < n) ==> Ascending(listed + [n])
  {
    assert forall k :: 0 <= k < |listed| ==> listed[k] in listed;
  }

  lemma AppendedWithoutId(d: seq<Entry>, exact: map<ExactKey, nat>, messages: map<string, seq<nat>>, e: Entry)
    requires e.messageId.None? && ExactAgrees(exact, d) && MessagesAgree(messages, d)
    ensures ExactAgrees(exact, d + [e]) && MessagesAgree(messages, d + [e])
  {
  }
}
