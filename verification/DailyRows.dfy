/** Adding token usages up into one row for each day: what the sums mean, the maps that hold them, and the rows made of
    the maps. The scanners differ in which usages they count. */
module DailyRows {
  import opened DayKeys

  const I64_MAX: nat := 0x7FFF_FFFF_FFFF_FFFF

  /** Tokens that are counted for a day and a model. */
  datatype Usage = Usage(day: string, model: string, input: nat, output: nat, cacheCreation: nat, cacheRead: nat) {
    function Total(): nat {
      input + output + cacheCreation + cacheRead
    }
  }

  datatype Row = Row(date: string, input: nat, output: nat, cacheCreation: nat, cacheRead: nat, total: nat,
                     models: map<string, nat>)

  // ----- the sums -----

  datatype Kind = All | Input | Output | CacheCreation | CacheRead | OfModel(name: string)

  function Amount(u: Usage, kind: Kind): nat {
    match kind
    case All => u.Total()
    case Input => u.input
    case Output => u.output
    case CacheCreation => u.cacheCreation
    case CacheRead => u.cacheRead
    case OfModel(name) => if u.model == name then u.Total() else 0
  }

  /** What one usage contributes to a day. */
  function Share(u: Usage, day: string, kind: Kind): nat {
    if u.day == day then Amount(u, kind) else 0
  }

  /** What the usages contribute to a day. */
  function DaySum(us: seq<Usage>, day: string, kind: Kind): nat {
    if us == [] then 0 else DaySum(us[..|us| - 1], day, kind) + Share(us[|us| - 1], day, kind)
  }

  /** What the usages contribute in all. */
  function GrandTotal(us: seq<Usage>): nat {
    if us == [] then 0 else GrandTotal(us[..|us| - 1]) + us[|us| - 1].Total()
  }

  function Days(us: seq<Usage>): set<string> {
    set u | u in us :: u.day
  }

  function ModelsOn(us: seq<Usage>, day: string): set<string> {
    set u | u in us && u.day == day :: u.model
  }

  lemma OneMore(us: seq<Usage>, u: Usage)
    ensures forall day, kind :: DaySum(us + [u], day, kind) == DaySum(us, day, kind) + Share(u, day, kind)
    ensures GrandTotal(us + [u]) == GrandTotal(us) + u.Total()
    ensures Days(us + [u]) == Days(us) + {u.day}
    ensures forall day :: ModelsOn(us + [u], day) == ModelsOn(us, day) + if u.day == day then {u.model} else {}
  {
    assert (us + [u])[..|us|] == us;
  }

  /** More usages only add to a sum. */
  lemma {:induction false} Grows(us: seq<Usage>, more: seq<Usage>, day: string, kind: Kind)
    requires us <= more
    ensures DaySum(us, day, kind) <= DaySum(more, day, kind)
    decreases |more|
  {
    if |us| < |more| {
      Grows(us, more[..|more| - 1], day, kind);
    } else {
      assert us == more;
    }
  }

  /** Input, output, cache creation and cache reads make up the total. */
  lemma {:induction false} PartsAddUp(us: seq<Usage>, day: string)
    ensures DaySum(us, day, All)
            == DaySum(us, day, Input) + DaySum(us, day, Output) + DaySum(us, day, CacheCreation)
               + DaySum(us, day, CacheRead)
  {
    if us != [] {
      PartsAddUp(us[..|us| - 1], day);
    }
  }

  lemma {:induction false} ModelBelowAll(us: seq<Usage>, day: string, name: string)
    ensures DaySum(us, day, OfModel(name)) <= DaySum(us, day, All)
  {
    if us != [] {
      ModelBelowAll(us[..|us| - 1], day, name);
    }
  }

  lemma {:induction false} NothingThatDay(us: seq<Usage>, day: string, kind: Kind)
    requires day !in Days(us)
    ensures DaySum(us, day, kind) == 0
  {
    if us != [] {
      assert us[|us| - 1] in us && forall u :: u in us[..|us| - 1] ==> u in us;
      NothingThatDay(us[..|us| - 1], day, kind);
    }
  }

  // ----- maps of sums -----

  function Got<K>(totals: map<K, nat>, key: K): nat {
    if key in totals then totals[key] else 0
  }

  ghost function SumValues<K(!new)>(totals: map<K, nat>): nat {
    if totals.Keys == {} then 0
    else
      var key :| key in totals;
      totals[key] + SumValues(totals - {key})
  }

  lemma {:induction false} SumWithout<K(!new)>(totals: map<K, nat>, key: K)
    requires key in totals
    ensures SumValues(totals) == totals[key] + SumValues(totals - {key})
    decreases |totals|
  {
    var first :| first in totals && SumValues(totals) == totals[first] + SumValues(totals - {first});
    if first != key {
      SumWithout(totals - {first}, key);
      SumWithout(totals - {key}, first);
      assert totals - {first} - {key} == totals - {key} - {first};
    }
  }

  function Added<K>(totals: map<K, nat>, key: K, count: nat): map<K, nat> {
    totals[key := Got(totals, key) + count]
  }

  lemma SumAfterAdding<K(!new)>(totals: map<K, nat>, key: K, count: nat)
    ensures SumValues(Added(totals, key, count)) == SumValues(totals) + count
  {
    var more := Added(totals, key, count);
    SumWithout(more, key);
    assert more - {key} == totals - {key};
    if key in totals {
      SumWithout(totals, key);
    } else {
      assert totals - {key} == totals;
    }
  }

  /** A checked addition: the sum must still be a signed 64-bit number. */
  method AddTokens<K>(totals: map<K, nat>, key: K, count: nat) returns (ok: bool, after: map<K, nat>)
    ensures ok == (Got(totals, key) + count <= I64_MAX)
    ensures after == if ok then Added(totals, key, count) else totals
  {
    var sum := Got(totals, key) + count;
    if sum > I64_MAX {
      return false, totals;
    }
    return true, totals[key := sum];
  }

  /** The maps of a scan, by day. */
  datatype Tally = Tally(tokens: map<string, nat>, input: map<string, nat>, output: map<string, nat>,
                         cacheCreation: map<string, nat>, cacheRead: map<string, nat>,
                         models: map<string, map<string, nat>>)

  const NOTHING := Tally(map[], map[], map[], map[], map[], map[])

  function ModelsOf(models: map<string, map<string, nat>>, day: string): map<string, nat> {
    if day in models then models[day] else map[]
  }

  function Plus(t: Tally, u: Usage): Tally {
    var ofDay := ModelsOf(t.models, u.day);
    Tally(Added(t.tokens, u.day, u.Total()), Added(t.input, u.day, u.input), Added(t.output, u.day, u.output),
          Added(t.cacheCreation, u.day, u.cacheCreation), Added(t.cacheRead, u.day, u.cacheRead),
          t.models[u.day := Added(ofDay, u.model, u.Total())])
  }

  /** No sum leaves the signed 64-bit numbers. */
  predicate Fits(t: Tally, u: Usage) {
    && Got(t.tokens, u.day) + u.Total() <= I64_MAX && Got(t.input, u.day) + u.input <= I64_MAX
    && Got(t.output, u.day) + u.output <= I64_MAX && Got(t.cacheCreation, u.day) + u.cacheCreation <= I64_MAX
    && Got(t.cacheRead, u.day) + u.cacheRead <= I64_MAX
    && Got(ModelsOf(t.models, u.day), u.model) + u.Total() <= I64_MAX
  }

  /** Adds one usage to every map; a sum that does not fit ends the scan. */
  method AddUsage(t: Tally, u: Usage) returns (ok: bool, after: Tally)
    ensures ok <==> Fits(t, u)
    ensures !ok <==> || Got(t.tokens, u.day) + u.Total() > I64_MAX || Got(t.input, u.day) + u.input > I64_MAX
                     || Got(t.output, u.day) + u.output > I64_MAX
                     || Got(t.cacheCreation, u.day) + u.cacheCreation > I64_MAX
                     || Got(t.cacheRead, u.day) + u.cacheRead > I64_MAX
                     || Got(ModelsOf(t.models, u.day), u.model) + u.Total() > I64_MAX
    ensures ok ==> after == Plus(t, u)
  {
    hide Got, ModelsOf, Added;
    var tokens, input, output, cacheCreation, cacheRead, ofDay;
    after := t;
    ok, tokens := AddTokens(t.tokens, u.day, u.Total());
    if !ok { return; }
    ok, input := AddTokens(t.input, u.day, u.input);
    if !ok { return; }
    ok, output := AddTokens(t.output, u.day, u.output);
    if !ok { return; }
    ok, cacheCreation := AddTokens(t.cacheCreation, u.day, u.cacheCreation);
    if !ok { return; }
    ok, cacheRead := AddTokens(t.cacheRead, u.day, u.cacheRead);
    if !ok { return; }
    ok, ofDay := AddTokens(ModelsOf(t.models, u.day), u.model, u.Total());
    if !ok { return; }
    after := Tally(tokens, input, output, cacheCreation, cacheRead, t.models[u.day := ofDay]);
  }

  // ----- the maps hold the sums -----

  ghost predicate Holds(us: seq<Usage>, totals: map<string, nat>, kind: Kind) {
    totals.Keys == Days(us) && forall day :: Got(totals, day) == DaySum(us, day, kind)
  }

  ghost predicate ModelsHold(us: seq<Usage>, models: map<string, map<string, nat>>) {
    && models.Keys == Days(us)
    && forall day :: day in models ==>
      && models[day].Keys == ModelsOn(us, day) && SumValues(models[day]) == DaySum(us, day, All)
      && forall name :: Got(models[day], name) == DaySum(us, day, OfModel(name))
  }

  ghost predicate Sound(us: seq<Usage>, t: Tally) {
    && Holds(us, t.tokens, All) && Holds(us, t.input, Input) && Holds(us, t.output, Output)
    && Holds(us, t.cacheCreation, CacheCreation) && Holds(us, t.cacheRead, CacheRead)
    && ModelsHold(us, t.models) && SumValues(t.tokens) == GrandTotal(us)
  }

  lemma Start()
    ensures Sound([], NOTHING) && forall day, kind :: DaySum([], day, kind) == 0
  {
  }

  /** One more usage: it is added to every sum, and everything fits if the day's total does. */
  lemma Next(us: seq<Usage>, t: Tally, u: Usage)
    requires Sound(us, t)
    ensures Sound(us + [u], Plus(t, u))
    ensures Fits(t, u) <==> DaySum(us + [u], u.day, All) <= I64_MAX
  {
    hide Holds, ModelsHold, DaySum, Fits, Got, ModelsOf, Added, SumValues, GrandTotal, Days;
    HoldsMore(us, t.tokens, u, All);
    HoldsMore(us, t.input, u, Input);
    HoldsMore(us, t.output, u, Output);
    HoldsMore(us, t.cacheCreation, u, CacheCreation);
    HoldsMore(us, t.cacheRead, u, CacheRead);
    ModelsHoldMore(us, t.models, u);
    OneMore(us, u);
    SumAfterAdding(t.tokens, u.day, u.Total());
    FitsByTotal(us, t, u);
  }

  lemma HoldsMore(us: seq<Usage>, totals: map<string, nat>, u: Usage, kind: Kind)
    requires Holds(us, totals, kind)
    ensures Holds(us + [u], Added(totals, u.day, Amount(u, kind)), kind)
  {
    hide DaySum, Amount;
    OneMore(us, u);
  }

  lemma ModelsHoldMore(us: seq<Usage>, models: map<string, map<string, nat>>, u: Usage)
    requires ModelsHold(us, models)
    ensures var ofDay := ModelsOf(models, u.day);
            ModelsHold(us + [u], models[u.day := Added(ofDay, u.model, u.Total())])
  {
    hide DaySum, SumValues, Days, ModelsOn;
    var ofDay := ModelsOf(models, u.day);
    OneMore(us, u);
    SumAfterAdding(ofDay, u.model, u.Total());
    if u.day !in models {
      NothingBefore(us, u.day);
    }
  }

  lemma NothingBefore(us: seq<Usage>, day: string)
    requires day !in Days(us)
    ensures ModelsOn(us, day) == {} && SumValues<string>(map[]) == 0
    ensures forall kind :: DaySum(us, day, kind) == 0
  {
    forall kind
      ensures DaySum(us, day, kind) == 0
    {
      NothingThatDay(us, day, kind);
    }
  }

  /** All other sums are parts of the day's total. */
  lemma FitsByTotal(us: seq<Usage>, t: Tally, u: Usage)
    requires Sound(us, t)
    ensures Fits(t, u) <==> DaySum(us + [u], u.day, All) <= I64_MAX
  {
    hide DaySum, SumValues;
    OneMore(us, u);
    PartsAddUp(us, u.day);
    ModelBelowAll(us, u.day, u.model);
  }

  // ----- rows -----

  /** The row's sums are those of its day. */
  ghost predicate Faithful(us: seq<Usage>, row: Row) {
    && row.total == DaySum(us, row.date, All)
    && row.input == DaySum(us, row.date, Input) && row.output == DaySum(us, row.date, Output)
    && row.cacheCreation == DaySum(us, row.date, CacheCreation) && row.cacheRead == DaySum(us, row.date, CacheRead)
    && row.input + row.output + row.cacheCreation + row.cacheRead == row.total
    && row.models.Keys == ModelsOn(us, row.date) && SumValues(row.models) == row.total
    && forall name :: Got(row.models, name) == DaySum(us, row.date, OfModel(name))
  }

  function RowsTotal(rows: seq<Row>): nat {
    if rows == [] then 0 else RowsTotal(rows[..|rows| - 1]) + rows[|rows| - 1].total
  }

  ghost function Dates(rows: seq<Row>): set<string> {
    set i | 0 <= i < |rows| :: rows[i].date
  }

  /** Each row's key comes after that of the next. */
  ghost predicate Descending(rows: seq<Row>) {
    forall i, j :: 0 <= i < j < |rows| ==> Before(rows[j].date, rows[i].date)
  }

  /** One row for each day of the usages, the last key first, and all tokens are in the rows. */
  ghost predicate Meets(us: seq<Usage>, rows: seq<Row>) {
    && Descending(rows) && Dates(rows) == Days(us)
    && (forall i :: 0 <= i < |rows| ==> Faithful(us, rows[i]))
    && RowsTotal(rows) == GrandTotal(us)
  }

  function RowOf(t: Tally, day: string): Row {
    Row(day, Got(t.input, day), Got(t.output, day), Got(t.cacheCreation, day), Got(t.cacheRead, day),
        Got(t.tokens, day), ModelsOf(t.models, day))
  }

  ghost predicate AsIn(t: Tally, rows: seq<Row>) {
    forall i :: 0 <= i < |rows| ==> rows[i] == RowOf(t, rows[i].date)
  }

  lemma RowIsFaithful(us: seq<Usage>, t: Tally, day: string)
    requires Sound(us, t) && day in t.tokens
    ensures Faithful(us, RowOf(t, day))
  {
    hide DaySum, SumValues, Days, ModelsOn;
    PartsAddUp(us, day);
  }

  lemma RowsOfTally(us: seq<Usage>, t: Tally, rows: seq<Row>)
    requires Sound(us, t) && Descending(rows) && AsIn(t, rows) && Dates(rows) == t.tokens.Keys
    requires RowsTotal(rows) == SumValues(t.tokens)
    ensures Meets(us, rows)
  {
    hide DaySum, Faithful, RowOf, GrandTotal, SumValues, Descending, RowsTotal, ModelsHold;
    forall i | 0 <= i < |rows|
      ensures Faithful(us, rows[i])
    {
      assert rows[i].date in Dates(rows);
      RowIsFaithful(us, t, rows[i].date);
    }
  }

  lemma {:induction false} HasLast(days: set<string>) returns (last: string)
    requires days != {}
    ensures last in days && forall day :: day in days && day != last ==> Before(day, last)
  {
    hide Before;
    last :| last in days;
    var others, first := days - {last}, last;
    assert forall day :: day in days <==> day == first || day in others;
    if others != {} {
      var other := HasLast(others);
      BeforeIsTotal(first, other);
      if Before(first, other) {
        last := other;
      } else {
        assert Before(other, first);
        forall day | day in others && day != other
          ensures Before(day, last)
        {
          BeforeIsTransitive(day, other, last);
        }
      }
    }
  }

  lemma AppendRow(rows: seq<Row>, row: Row)
    ensures Dates(rows + [row]) == Dates(rows) + {row.date} && RowsTotal(rows + [row]) == RowsTotal(rows) + row.total
    ensures Descending(rows) && (forall day :: day in Dates(rows) ==> Before(row.date, day)) ==>
              Descending(rows + [row])
  {
    hide Before;
    var more := rows + [row];
    assert more[..|rows|] == rows;
    forall i | 0 <= i < |rows|
      ensures rows[i].date in Dates(rows) && more[i] == rows[i] && more[i].date in Dates(more)
    {
    }
    assert more[|rows|].date in Dates(more);
  }

  /** The rows are those of the last days of the totals; rest holds the days before them. */
  ghost predicate Halfway(t: Tally, rows: seq<Row>, rest: map<string, nat>) {
    && (forall day :: day in rest ==> day in t.tokens && rest[day] == t.tokens[day])
    && Dates(rows) + rest.Keys == t.tokens.Keys && Descending(rows) && AsIn(t, rows)
    && (forall day, later :: day in rest && later in Dates(rows) ==> Before(day, later))
    && RowsTotal(rows) + SumValues(rest) == SumValues(t.tokens)
  }

  lemma Halfway1(t: Tally, rows: seq<Row>, rest: map<string, nat>, day: string)
    requires Halfway(t, rows, rest) && day in rest && forall d :: d in rest && d != day ==> Before(d, day)
    ensures Halfway(t, rows + [RowOf(t, day)], rest - {day})
  {
    hide SumValues, Descending, RowsTotal, Dates, Before;
    AppendRow(rows, RowOf(t, day));
    SumWithout(rest, day);
  }

  method LastDay(days: map<string, nat>) returns (day: string)
    requires days.Keys != {}
    ensures day in days && forall d :: d in days && d != day ==> Before(d, day)
  {
    ghost var last := HasLast(days.Keys);
    day :| day in days.Keys && forall d :: d in days.Keys && d != day ==> Before(d, day);
  }

  /** One row for each day of the totals, the last day first. */
  method BuildRows(t: Tally) returns (rows: seq<Row>)
    ensures Descending(rows) && Dates(rows) == t.tokens.Keys && RowsTotal(rows) == SumValues(t.tokens)
    ensures AsIn(t, rows)
  {
    hide Halfway, SumValues, Descending, RowsTotal, Dates, AsIn, Before;
    rows := [];
    var rest := t.tokens;
    NoRowsYet(t);
    while rest.Keys != {}
      invariant Halfway(t, rows, rest)
      decreases |rest.Keys|
    {
      var day := LastDay(rest);
      Halfway1(t, rows, rest, day);
      var row := Row(day, Got(t.input, day), Got(t.output, day), Got(t.cacheCreation, day), Got(t.cacheRead, day),
                     Got(t.tokens, day), ModelsOf(t.models, day));
      rows := rows + [row];
      assert (rest - {day}).Keys == rest.Keys - {day};
      rest := rest - {day};
    }
    AllRows(t, rows, rest);
  }

  lemma NoRowsYet(t: Tally)
    ensures Halfway(t, [], t.tokens)
  {
  }

  lemma AllRows(t: Tally, rows: seq<Row>, rest: map<string, nat>)
    requires Halfway(t, rows, rest) && rest.Keys == {}
    ensures Descending(rows) && Dates(rows) == t.tokens.Keys && RowsTotal(rows) == SumValues(t.tokens)
    ensures AsIn(t, rows)
  {
  }
}
