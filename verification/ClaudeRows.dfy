/** The daily rows of Claude log entries, and what the whole scan makes of a log. */
module ClaudeRows {
  import opened Wrappers
  import opened ClaudeDedup
  import opened ClaudeDedupTies
  import opened DailyRows
  import opened DailyRowsOrder
  import opened Sequences

  const I32_MAX: int := 0x7FFF_FFFF

  /** What a scan looks at: entries from since on, the day of a timestamp, and which model and tokens have a price. */
  datatype Scan = Scan(since: int, dayOf: int -> string, trim: string -> string,
                       priced: (string, TokenBreakdown) -> bool)

  /** Reading the log bounds every count. */
  predicate Bounded(e: Entry) {
    && 0 <= e.tokens.input <= I32_MAX && 0 <= e.tokens.output <= I32_MAX && 0 <= e.tokens.cacheRead <= I32_MAX
    && 0 <= e.tokens.cacheWrite5m <= I32_MAX && 0 <= e.tokens.cacheWrite1h <= I32_MAX
  }

  predicate AllBounded(es: seq<Entry>) {
    forall e :: e in es ==> Bounded(e)
  }

  predicate Named(scan: Scan, e: Entry) {
    e.model.Some? && scan.trim(e.model.value) != ""
  }

  function ModelName(scan: Scan, e: Entry): string {
    if Named(scan, e) then scan.trim(e.model.value) else "unattributed"
  }

  /** The entry carries a cost, or its model has a price. */
  predicate HasCost(scan: Scan, e: Entry) {
    || (e.costUsd.Some? && e.costUsd.value >= 0.0)
    || (Named(scan, e) && scan.priced(e.model.value, e.tokens))
  }

  predicate Counted(scan: Scan, e: Entry) {
    e.timestamp >= scan.since && HasCost(scan, e)
  }

  function UsageOf(scan: Scan, e: Entry): (u: Usage)
    requires Bounded(e)
    ensures u.Total() == e.tokens.Total()
  {
    Usage(scan.dayOf(e.timestamp), ModelName(scan, e), e.tokens.input, e.tokens.output,
          e.tokens.cacheWrite5m + e.tokens.cacheWrite1h, e.tokens.cacheRead)
  }

  function Usages(scan: Scan, es: seq<Entry>): seq<Usage>
    requires AllBounded(es)
  {
    if es == [] then []
    else
      var before, e := Usages(scan, es[..|es| - 1]), es[|es| - 1];
      if Counted(scan, e) then before + [UsageOf(scan, e)] else before
  }

  lemma NoUsages(scan: Scan)
    ensures Usages(scan, []) == []
  {
  }

  lemma OneMoreEntry(scan: Scan, es: seq<Entry>, i: nat)
    requires AllBounded(es) && i < |es|
    ensures var before, e := Usages(scan, es[..i]), es[i];
            Usages(scan, es[..i + 1]) == if Counted(scan, e) then before + [UsageOf(scan, e)] else before
    ensures Usages(scan, es[..i + 1]) <= Usages(scan, es)
  {
    assert es[..i + 1][..i] == es[..i];
    UsagesOfPrefix(scan, es, i + 1);
  }

  lemma {:induction false} UsagesOfPrefix(scan: Scan, es: seq<Entry>, i: nat)
    requires AllBounded(es) && i <= |es|
    ensures Usages(scan, es[..i]) <= Usages(scan, es)
  {
    if i == |es| {
      assert es[..i] == es;
    } else {
      UsagesOfPrefix(scan, es[..|es| - 1], i);
      assert es[..|es| - 1][..i] == es[..i];
    }
  }

  /** Conserves the tokens: one row for each day of a counted entry, the last first, with all sums as in the entries; it
      fails exactly when some day's total does not fit. */
  method Aggregate(scan: Scan, entries: seq<Entry>) returns (r: Option<seq<Row>>)
    requires AllBounded(entries)
    ensures Answers(Usages(scan, entries), r)
  {
    hide Sound, Meets, Fits, Plus, DaySum, HasCost, Usages, UsageOf;
    var tally := NOTHING;
    Start();
    NoUsages(scan);
    assert entries[..0] == [];
    for i := 0 to |entries|
      invariant Sound(Usages(scan, entries[..i]), tally)
      invariant forall day :: DaySum(Usages(scan, entries[..i]), day, All) <= I64_MAX
    {
      OneMoreEntry(scan, entries, i);
      var e := entries[i];
      if e.timestamp < scan.since {
        continue;
      }
      if !HasCost(scan, e) {
        continue;
      }
      ghost var us := Usages(scan, entries[..i]);
      Next(us, tally, UsageOf(scan, e));
      OneMore(us, UsageOf(scan, e));
      var ok;
      ok, tally := AddUsage(tally, UsageOf(scan, e));
      if !ok {
        Grows(Usages(scan, entries[..i + 1]), Usages(scan, entries), UsageOf(scan, e).day, All);
        return None;
      }
    }
    assert entries[..|entries|] == entries;
    var rows := BuildRows(tally);
    RowsOfTally(Usages(scan, entries), tally, rows);
    return Some(rows);
  }

  // ----- the rows in terms of the entries -----

  /** An entry counts for a day if it was written then and not before the scan's start, and it either carries a cost
      that is not negative or names a model with a price. */
  predicate CountsOn(scan: Scan, e: Entry, day: string) {
    && scan.dayOf(e.timestamp) == day && !(e.timestamp < scan.since)
    && !(&& (e.costUsd.None? || e.costUsd.value < 0.0)
         && (e.model.None? || scan.trim(e.model.value) == "" || !scan.priced(e.model.value, e.tokens)))
  }

  function AllTokens(e: Entry): int {
    e.tokens.input + e.tokens.output + e.tokens.cacheWrite5m + e.tokens.cacheWrite1h + e.tokens.cacheRead
  }

  function PartOf(scan: Scan, e: Entry, kind: Kind): int {
    match kind
    case All => AllTokens(e)
    case Input => e.tokens.input
    case Output => e.tokens.output
    case CacheCreation => e.tokens.cacheWrite5m + e.tokens.cacheWrite1h
    case CacheRead => e.tokens.cacheRead
    case OfModel(name) =>
      var model := if e.model.None? || scan.trim(e.model.value) == "" then "unattributed" else scan.trim(e.model.value);
      if model == name then AllTokens(e) else 0
  }

  /** What the entries that count for a day add up to. */
  function TokensOn(scan: Scan, es: seq<Entry>, day: string, kind: Kind): int {
    if es == [] then 0
    else
      var e := es[|es| - 1];
      TokensOn(scan, es[..|es| - 1], day, kind) + if CountsOn(scan, e, day) then PartOf(scan, e, kind) else 0
  }

  lemma OneEntry(scan: Scan, e: Entry, day: string, kind: Kind)
    requires Bounded(e)
    ensures CountsOn(scan, e, day) ==> Counted(scan, e) && Share(UsageOf(scan, e), day, kind) == PartOf(scan, e, kind)
    ensures Counted(scan, e) && !CountsOn(scan, e, day) ==> Share(UsageOf(scan, e), day, kind) == 0
    ensures CountsOn(scan, e, day) <==> Counted(scan, e) && UsageOf(scan, e).day == day
  {
  }

  lemma TokensOfMore(scan: Scan, es: seq<Entry>, day: string, kind: Kind)
    ensures es == [] ==> TokensOn(scan, es, day, kind) == 0 && DaySum(Usages(scan, es), day, kind) == 0
    ensures es != [] ==>
              var e := es[|es| - 1];
              TokensOn(scan, es, day, kind)
              == TokensOn(scan, es[..|es| - 1], day, kind) + if CountsOn(scan, e, day) then PartOf(scan, e, kind) else 0
  {
    hide CountsOn, PartOf;
  }

  lemma {:induction false} SumsOfEntries(scan: Scan, es: seq<Entry>, day: string, kind: Kind)
    requires AllBounded(es)
    ensures DaySum(Usages(scan, es), day, kind) == TokensOn(scan, es, day, kind)
  {
    hide CountsOn, Counted, DaySum, PartOf, Share, Usages, UsageOf, TokensOn;
    TokensOfMore(scan, es, day, kind);
    if es != [] {
      var before, e := es[..|es| - 1], es[|es| - 1];
      OneMoreEntry(scan, es, |es| - 1);
      assert es[..|es| - 1 + 1] == es;
      SumsOfEntries(scan, before, day, kind);
      OneEntry(scan, e, day, kind);
      if Counted(scan, e) {
        OneMore(Usages(scan, before), UsageOf(scan, e));
      }
    }
  }

  /** Some entry counts for the day. */
  predicate HasTokens(scan: Scan, es: seq<Entry>, day: string) {
    exists i :: 0 <= i < |es| && CountsOn(scan, es[i], day)
  }

  lemma {:induction false} DaysOfEntries(scan: Scan, es: seq<Entry>, day: string)
    requires AllBounded(es)
    ensures day in Days(Usages(scan, es)) <==> HasTokens(scan, es, day)
  {
    hide CountsOn, Counted;
    if es != [] {
      var n := |es| - 1;
      var before, e := es[..n], es[n];
      DaysOfEntries(scan, before, day);
      OneEntry(scan, e, day, All);
      assert HasTokens(scan, es, day) <==> HasTokens(scan, before, day) || CountsOn(scan, e, day) by {
        assert forall i :: 0 <= i < n ==> before[i] == es[i];
        assert CountsOn(scan, e, day) ==> CountsOn(scan, es[n], day);
      }
      if Counted(scan, e) {
        OneMore(Usages(scan, before), UsageOf(scan, e));
      }
    }
  }

  /** There is a row for exactly the days with an entry that counts, and each of its sums is that of these entries. */
  lemma RowsOfEntries(scan: Scan, es: seq<Entry>, rows: seq<Row>)
    requires AllBounded(es) && Meets(Usages(scan, es), rows)
    ensures forall day :: day in Dates(rows) <==> HasTokens(scan, es, day)
    ensures forall i :: 0 <= i < |rows| ==>
              var row := rows[i];
              && row.total == TokensOn(scan, es, row.date, All) && row.input == TokensOn(scan, es, row.date, Input)
              && row.output == TokensOn(scan, es, row.date, Output)
              && row.cacheCreation == TokensOn(scan, es, row.date, CacheCreation)
              && row.cacheRead == TokensOn(scan, es, row.date, CacheRead)
              && forall name :: Got(row.models, name) == TokensOn(scan, es, row.date, OfModel(name))
  {
    hide DaySum, Days, ModelsOn, TokensOn, HasTokens, Usages, SumValues;
    forall day, kind
      ensures DaySum(Usages(scan, es), day, kind) == TokensOn(scan, es, day, kind)
    {
      SumsOfEntries(scan, es, day, kind);
    }
    forall day
      ensures day in Days(Usages(scan, es)) <==> HasTokens(scan, es, day)
    {
      DaysOfEntries(scan, es, day);
    }
  }

  // ----- the order of the log -----

  lemma {:induction false} UsagesOfParts(scan: Scan, es: seq<Entry>, fs: seq<Entry>)
    requires AllBounded(es) && AllBounded(fs)
    ensures AllBounded(es + fs) && Usages(scan, es + fs) == Usages(scan, es) + Usages(scan, fs)
  {
    if fs == [] {
      assert es + fs == es;
    } else {
      UsagesOfParts(scan, es, fs[..|fs| - 1]);
      assert (es + fs)[..|es + fs| - 1] == es + fs[..|fs| - 1];
    }
  }

  lemma {:induction false} UsagesOfPermutation(scan: Scan, es: seq<Entry>, fs: seq<Entry>)
    requires AllBounded(es) && AllBounded(fs) && multiset(es) == multiset(fs)
    ensures multiset(Usages(scan, es)) == multiset(Usages(scan, fs))
    decreases |es|
  {
    hide Usages;
    if es == [] {
      NoneLeft(fs);
    } else {
      var j := TakeOut(es, fs);
      var x, before, after := es[0], fs[..j], fs[j + 1..];
      UsagesOfParts(scan, before, after);
      UsagesOfPermutation(scan, es[1..], before + after);
      UsagesOfParts(scan, [x], es[1..]);
      UsagesOfParts(scan, before, [x]);
      UsagesOfParts(scan, before + [x], after);
      assert es == [x] + es[1..];
    }
  }

  lemma {:induction false} DedupIsBounded(es: seq<Entry>)
    requires AllBounded(es)
    ensures AllBounded(Dedup(es))
  {
    if es != [] {
      DedupIsBounded(es[..|es| - 1]);
    }
  }

  /** The rows of a log: those of the entries that deduplication keeps. */
  method RowsOfLog(scan: Scan, entries: seq<Entry>) returns (r: Option<seq<Row>>)
    requires AllBounded(entries)
    ensures AllBounded(Dedup(entries)) && Answers(Usages(scan, Dedup(entries)), r)
  {
    DedupIsBounded(entries);
    var kept := DedupEntries(entries);
    r := Aggregate(scan, kept);
  }

  /** The order of the log does not matter to the rows, unless the best entries of some group tie. */
  lemma RowsOfPermutation(scan: Scan, es: seq<Entry>, fs: seq<Entry>, r: Option<seq<Row>>, q: Option<seq<Row>>)
    requires Permuted(es, fs) && !HasTie(es) && AllBounded(es) && AllBounded(fs)
    requires AllBounded(Dedup(es)) && AllBounded(Dedup(fs))
    requires Answers(Usages(scan, Dedup(es)), r) && Answers(Usages(scan, Dedup(fs)), q)
    ensures r == q
  {
    hide Dedup, HasTie, Usages, Answers;
    PermutedWithoutTies(es, fs);
    UsagesOfPermutation(scan, Dedup(es), Dedup(fs));
    AnswersIgnoreOrder(Usages(scan, Dedup(es)), Usages(scan, Dedup(fs)), r, q);
  }
}
