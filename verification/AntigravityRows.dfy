/** The daily rows of generation events. */
module AntigravityRows {
  import opened Wrappers
  import opened DailyRows
  import opened DailyRowsOrder

  const I32_MAX: int := 0x7FFF_FFFF

  datatype Event = Event(model: string, input: int, output: int, cacheRead: int, timestamp: int)

  /** What a scan looks at: events from since on, the day of a timestamp if it is one, and which usage has a price. */
  datatype Scan = Scan(since: int, dayOf: int -> Option<string>, priced: (string, int, int, int) -> bool)

  predicate InRange(n: int) {
    0 <= n <= I32_MAX
  }

  predicate Counted(scan: Scan, e: Event) {
    && scan.dayOf(e.timestamp).Some? && e.timestamp >= scan.since
    && InRange(e.input) && InRange(e.output) && InRange(e.cacheRead)
    && e.input + e.cacheRead + e.output > 0 && scan.priced(e.model, e.input, e.output, e.cacheRead)
  }

  function UsageOf(scan: Scan, e: Event): Usage
    requires Counted(scan, e)
  {
    Usage(scan.dayOf(e.timestamp).value, e.model, e.input, e.output, 0, e.cacheRead)
  }

  function Usages(scan: Scan, events: seq<Event>): seq<Usage> {
    if events == [] then []
    else
      var before, e := Usages(scan, events[..|events| - 1]), events[|events| - 1];
      if Counted(scan, e) then before + [UsageOf(scan, e)] else before
  }

  lemma NoUsages(scan: Scan)
    ensures Usages(scan, []) == []
  {
  }

  lemma OneMoreEvent(scan: Scan, events: seq<Event>, i: nat)
    requires i < |events|
    ensures var before, e := Usages(scan, events[..i]), events[i];
            Usages(scan, events[..i + 1]) == if Counted(scan, e) then before + [UsageOf(scan, e)] else before
    ensures Usages(scan, events[..i + 1]) <= Usages(scan, events)
  {
    assert events[..i + 1][..i] == events[..i];
    UsagesOfPrefix(scan, events, i + 1);
  }

  lemma {:induction false} UsagesOfPrefix(scan: Scan, events: seq<Event>, i: nat)
    requires i <= |events|
    ensures Usages(scan, events[..i]) <= Usages(scan, events)
  {
    if i == |events| {
      assert events[..i] == events;
    } else {
      UsagesOfPrefix(scan, events[..|events| - 1], i);
      assert events[..|events| - 1][..i] == events[..i];
    }
  }

  /** Conserves the tokens: the rows have exactly the days with tokens, the last first, and every sum agrees with the
      events; it fails exactly when some day's total does not fit. */
  method Aggregate(scan: Scan, events: seq<Event>) returns (r: Option<seq<Row>>)
    ensures Answers(Usages(scan, events), r)
    ensures r.Some? ==> forall i :: 0 <= i < |r.value| ==> InputOutputCacheReads(r.value[i])
    ensures r.Some? ==> forall day :: day in Dates(r.value) <==> DaySum(Usages(scan, events), day, All) > 0
  {
    hide Sound, Meets, Fits, Plus, DaySum, Counted, InputOutputCacheReads, Usages, UsageOf;
    var tally := NOTHING;
    Start();
    NoUsages(scan);
    assert events[..0] == [];
    for i := 0 to |events|
      invariant Sound(Usages(scan, events[..i]), tally)
      invariant forall day :: DaySum(Usages(scan, events[..i]), day, All) <= I64_MAX
    {
      OneMoreEvent(scan, events, i);
      var e := events[i];
      if !Counted(scan, e) {
        continue;
      }
      ghost var us := Usages(scan, events[..i]);
      Next(us, tally, UsageOf(scan, e));
      OneMore(us, UsageOf(scan, e));
      var ok;
      ok, tally := AddUsage(tally, UsageOf(scan, e));
      if !ok {
        Grows(Usages(scan, events[..i + 1]), Usages(scan, events), UsageOf(scan, e).day, All);
        return None;
      }
    }
    assert events[..|events|] == events;
    var rows := BuildRows(tally);
    RowsOfTally(Usages(scan, events), tally, rows);
    RowsHaveTokens(scan, events, rows);
    return Some(rows);
  }

  predicate InputOutputCacheReads(row: Row) {
    row.total == row.input + row.output + row.cacheRead > 0
  }

  lemma {:induction false} PositiveUsages(scan: Scan, events: seq<Event>)
    ensures forall u :: u in Usages(scan, events) ==> u.Total() > 0 && u.cacheCreation == 0
  {
    if events != [] {
      PositiveUsages(scan, events[..|events| - 1]);
    }
  }

  lemma {:induction false} PositiveDays(us: seq<Usage>, day: string)
    requires forall u :: u in us ==> u.Total() > 0 && u.cacheCreation == 0
    ensures day in Days(us) <==> DaySum(us, day, All) > 0
    ensures DaySum(us, day, CacheCreation) == 0
  {
    if us != [] {
      var before, u := us[..|us| - 1], us[|us| - 1];
      PositiveDays(before, day);
      assert us == before + [u];
    }
  }

  lemma RowsHaveTokens(scan: Scan, events: seq<Event>, rows: seq<Row>)
    requires Meets(Usages(scan, events), rows)
    ensures forall i :: 0 <= i < |rows| ==> InputOutputCacheReads(rows[i])
    ensures forall day :: day in Dates(rows) <==> DaySum(Usages(scan, events), day, All) > 0
  {
    hide DaySum, Days, RowsTotal, GrandTotal;
    var us := Usages(scan, events);
    PositiveUsages(scan, events);
    forall day
      ensures day in Days(us) <==> DaySum(us, day, All) > 0
      ensures DaySum(us, day, CacheCreation) == 0
    {
      PositiveDays(us, day);
    }
    forall i | 0 <= i < |rows|
      ensures InputOutputCacheReads(rows[i])
    {
      assert rows[i].date in Dates(rows) && Faithful(us, rows[i]);
    }
  }

  // ----- the rows in terms of the events -----

  /** An event counts for a day if it happened then and not before the scan's start, none of its counts is negative or
      beyond 32 bits, not all of them are zero, and there is a price for it. */
  predicate CountsOn(scan: Scan, e: Event, day: string) {
    && scan.dayOf(e.timestamp) == Some(day) && !(e.timestamp < scan.since)
    && !(e.input < 0 || e.output < 0 || e.cacheRead < 0)
    && !(e.input > 2147483647 || e.output > 2147483647 || e.cacheRead > 2147483647)
    && !(e.input == 0 && e.output == 0 && e.cacheRead == 0)
    && scan.priced(e.model, e.input, e.output, e.cacheRead)
  }

  function PartOf(e: Event, kind: Kind): int {
    match kind
    case All => e.input + e.output + e.cacheRead
    case Input => e.input
    case Output => e.output
    case CacheCreation => 0
    case CacheRead => e.cacheRead
    case OfModel(name) => if e.model == name then e.input + e.output + e.cacheRead else 0
  }

  /** What the events that count for a day add up to. */
  function TokensOn(scan: Scan, events: seq<Event>, day: string, kind: Kind): int {
    if events == [] then 0
    else
      var e := events[|events| - 1];
      TokensOn(scan, events[..|events| - 1], day, kind) + if CountsOn(scan, e, day) then PartOf(e, kind) else 0
  }

  lemma OneEvent(scan: Scan, e: Event, day: string, kind: Kind)
    ensures CountsOn(scan, e, day) ==> Counted(scan, e) && Share(UsageOf(scan, e), day, kind) == PartOf(e, kind)
    ensures Counted(scan, e) && !CountsOn(scan, e, day) ==> Share(UsageOf(scan, e), day, kind) == 0
    ensures CountsOn(scan, e, day) <==> Counted(scan, e) && UsageOf(scan, e).day == day
  {
  }

  lemma TokensOfMore(scan: Scan, events: seq<Event>, day: string, kind: Kind)
    ensures events == [] ==> TokensOn(scan, events, day, kind) == 0 && DaySum(Usages(scan, events), day, kind) == 0
    ensures events != [] ==>
              var e := events[|events| - 1];
              TokensOn(scan, events, day, kind)
              == TokensOn(scan, events[..|events| - 1], day, kind)
                 + if CountsOn(scan, e, day) then PartOf(e, kind) else 0
  {
    hide CountsOn, PartOf;
  }

  lemma {:induction false} SumsOfEvents(scan: Scan, events: seq<Event>, day: string, kind: Kind)
    ensures DaySum(Usages(scan, events), day, kind) == TokensOn(scan, events, day, kind)
  {
    hide CountsOn, Counted, DaySum, PartOf, Share, Usages, UsageOf, TokensOn;
    TokensOfMore(scan, events, day, kind);
    if events != [] {
      var before, e := events[..|events| - 1], events[|events| - 1];
      OneMoreEvent(scan, events, |events| - 1);
      assert events[..|events| - 1 + 1] == events;
      SumsOfEvents(scan, before, day, kind);
      OneEvent(scan, e, day, kind);
      if Counted(scan, e) {
        OneMore(Usages(scan, before), UsageOf(scan, e));
      }
    }
  }

  /** Some event counts for the day. */
  predicate HasTokens(scan: Scan, events: seq<Event>, day: string) {
    exists i :: 0 <= i < |events| && CountsOn(scan, events[i], day)
  }

  lemma {:induction false} DaysOfEvents(scan: Scan, events: seq<Event>, day: string)
    ensures day in Days(Usages(scan, events)) <==> HasTokens(scan, events, day)
  {
    hide CountsOn, Counted;
    if events != [] {
      var n := |events| - 1;
      var before, e := events[..n], events[n];
      DaysOfEvents(scan, before, day);
      OneEvent(scan, e, day, All);
      assert HasTokens(scan, events, day) <==> HasTokens(scan, before, day) || CountsOn(scan, e, day) by {
        assert forall i :: 0 <= i < n ==> before[i] == events[i];
        assert CountsOn(scan, e, day) ==> CountsOn(scan, events[n], day);
      }
      if Counted(scan, e) {
        OneMore(Usages(scan, before), UsageOf(scan, e));
      }
    }
  }

  /** There is a row for exactly the days with an event that counts, and each of its sums is that of these events. */
  lemma RowsOfEvents(scan: Scan, events: seq<Event>, rows: seq<Row>)
    requires Meets(Usages(scan, events), rows)
    ensures forall day :: day in Dates(rows) <==> HasTokens(scan, events, day)
    ensures forall i :: 0 <= i < |rows| ==>
              var row := rows[i];
              && row.total == TokensOn(scan, events, row.date, All)
              && row.input == TokensOn(scan, events, row.date, Input)
              && row.output == TokensOn(scan, events, row.date, Output) && row.cacheCreation == 0
              && row.cacheRead == TokensOn(scan, events, row.date, CacheRead)
              && forall name :: Got(row.models, name) == TokensOn(scan, events, row.date, OfModel(name))
  {
    hide DaySum, Days, ModelsOn, TokensOn, HasTokens, Usages, SumValues;
    forall day, kind
      ensures DaySum(Usages(scan, events), day, kind) == TokensOn(scan, events, day, kind)
    {
      SumsOfEvents(scan, events, day, kind);
    }
    forall day
      ensures day in Days(Usages(scan, events)) <==> HasTokens(scan, events, day)
    {
      DaysOfEvents(scan, events, day);
    }
    PositiveUsages(scan, events);
    forall i | 0 <= i < |rows|
      ensures rows[i].cacheCreation == 0
    {
      PositiveDays(Usages(scan, events), rows[i].date);
    }
  }
}
