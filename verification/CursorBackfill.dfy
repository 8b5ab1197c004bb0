/** Fetching the Cursor usage events day by day into a cache, and reading a window of days back from it. */
module CursorBackfill {
  import opened Wrappers

  const USIZE_MAX: nat := 0xFFFF_FFFF_FFFF_FFFF

  datatype Row = Row(day: int, model: string, input: nat, output: nat, cacheWrite: nat, cacheHit: nat)

  // ----- one day, page by page -----

  type Count = n: nat | n <= USIZE_MAX witness 0

  /** The answer to one page request; count includes rejected events, which have no row. */
  datatype Response = Refused | Page(total: Count, count: Count, rows: seq<Row>)

  /** Page p is the last one needed: all pages agreed on the total, none was empty too early, all events arrived. */
  ghost predicate Complete(pages: nat -> Response, p: nat) {
    Consistent(pages, p) && Received(pages, p) == Total(pages) && forall q :: 1 <= q < p ==>
      Received(pages, q) < Total(pages)
  }

  ghost predicate Consistent(pages: nat -> Response, p: nat) {
    p >= 1 && forall q :: 1 <= q <= p ==>
      && pages(q).Page? && pages(q).total == Total(pages)
      && (pages(q).count > 0 || Received(pages, q) == Total(pages))
  }

  function Total(pages: nat -> Response): nat { if pages(1).Page? then pages(1).total else 0 }

  /** How many events pages 1 to p brought. */
  function Received(pages: nat -> Response, p: nat): nat {
    if p == 0 then 0 else Received(pages, p - 1) + if pages(p).Page? then pages(p).count else 0
  }

  function RowsUpTo(pages: nat -> Response, p: nat): seq<Row> {
    if p == 0 then [] else RowsUpTo(pages, p - 1) + if pages(p).Page? then pages(p).rows else []
  }

  /** Fetches pages 1, 2, 3, ... until all events have arrived; coalesce stands for the final grouping of the rows. */
  method FetchEventDay(pages: nat -> Response, coalesce: seq<Row> -> Option<seq<Row>>) returns (r: Option<seq<Row>>)
    ensures r == DayRows(pages, coalesce)
  {
    var page, received, rows := 1, 0, [];
    var expected: Option<nat> := None;
    while true
      invariant 1 <= page <= received + 1
      invariant received == Received(pages, page - 1) && rows == RowsUpTo(pages, page - 1)
      invariant page == 1 ==> expected.None?
      invariant page > 1 ==> Consistent(pages, page - 1) && expected == Some(Total(pages))
      invariant forall q :: 1 <= q < page ==> Received(pages, q) < Total(pages)
      decreases if expected.Some? then 1 else 2, if expected.Some? then expected.value - received else 0
    {
      var response := pages(page);
      if response.Refused? {
        NotComplete(pages, page, coalesce);
        return None;
      }
      var Page(total, count, pageRows) := response;
      if expected.Some? && expected.value != total {
        NotComplete(pages, page, coalesce);
        return None;
      }
      expected := Some(total);
      received := received + count;
      if received > total || (count == 0 && received != total) {
        NotComplete(pages, page, coalesce);
        return None;
      }
      rows := rows + pageRows;
      if received == total {
        IsComplete(pages, page, coalesce);
        return coalesce(rows);
      }
      assert page < USIZE_MAX;  // so counting the pages cannot overflow
      page := page + 1;
    }
  }

  /** The rows of a day whose pages can be fetched completely. */
  ghost function DayRows(pages: nat -> Response, coalesce: seq<Row> -> Option<seq<Row>>): Option<seq<Row>> {
    if p: nat :| Complete(pages, p) then coalesce(RowsUpTo(pages, p)) else None
  }

  /** A day has at most one complete set of pages. */
  lemma CompleteOnce(pages: nat -> Response, p: nat, q: nat)
    requires Complete(pages, p) && Complete(pages, q)
    ensures p == q
  {
  }

  lemma IsComplete(pages: nat -> Response, p: nat, coalesce: seq<Row> -> Option<seq<Row>>)
    requires Complete(pages, p)
    ensures DayRows(pages, coalesce) == coalesce(RowsUpTo(pages, p))
  {
  }

  lemma NotComplete(pages: nat -> Response, p: nat, coalesce: seq<Row> -> Option<seq<Row>>)
    requires p >= 1 && forall q :: 1 <= q < p ==> Received(pages, q) < Total(pages)
    requires !Consistent(pages, p) || Received(pages, p) > Total(pages)
    ensures DayRows(pages, coalesce) == None
  {
  }

  /** A day is complete with page p exactly if all pages up to it came, agree on the total and bring exactly that many
      events, and none of them is empty, except that a day without events has one empty page. */
  lemma WhenComplete(pages: nat -> Response, p: nat)
    ensures Complete(pages, p) <==>
            && p >= 1 && pages(1).Page?
            && (forall q :: 1 <= q <= p ==> pages(q).Page? && pages(q).total == pages(1).total)
            && Received(pages, p) == pages(1).total
            && (p == 1 || forall q :: 1 <= q <= p ==> pages(q).count > 0)
  {
    if p >= 1 && forall q :: 1 <= q <= p ==> pages(q).Page? {
      ReceivedGrows(pages, p);
      if Complete(pages, p) && p > 1 {
        forall q | 1 <= q <= p
          ensures pages(q).count > 0
        {
          assert q > 1 ==> Received(pages, q - 1) < Total(pages);
          assert q < p ==> Received(pages, q) < Total(pages);
        }
      }
    }
  }

  lemma {:induction false} ReceivedGrows(pages: nat -> Response, p: nat)
    requires forall q :: 1 <= q <= p ==> pages(q).Page?
    ensures forall q :: 1 <= q <= p ==> Received(pages, q) == Received(pages, q - 1) + pages(q).count
    ensures forall q :: 0 <= q <= p ==> Received(pages, q) <= Received(pages, p)
    ensures (forall q :: 1 <= q <= p ==> pages(q).count > 0) ==>
              forall q :: 0 <= q < p ==> Received(pages, q) < Received(pages, p)
  {
    hide Received;
    ReceivedStep(pages, p);
    if p > 0 {
      ReceivedGrows(pages, p - 1);
    }
  }

  lemma ReceivedStep(pages: nat -> Response, p: nat)
    ensures Received(pages, 0) == 0
    ensures p > 0 && pages(p).Page? ==> Received(pages, p) == Received(pages, p - 1) + pages(p).count
  {
  }

  // ----- the window -----

  // The first and last days that a date can hold, counted from the common era.
  const MIN_DAY: int := -95746129
  const MAX_DAY: int := 95745399

  type Day = d: int | MIN_DAY <= d <= MAX_DAY witness 0

  /** Local time: the moment now, the day it falls on, and where each day starts (a start may not exist). */
  datatype Clock = Clock(now: int, today: int, startOf: int -> Option<int>)

  datatype CachedDay = CachedDay(complete: bool, rows: seq<Row>)

  datatype Failure = DateRangeOverflow | NoLocalTime | BackfillIncomplete

  /** What the service answers for a day's page, given the bounds of the request. */
  type Service = (int, int, nat) -> Response

  type Coalesce = seq<Row> -> Option<seq<Row>>

  predicate NeedsFetch(days: map<int, CachedDay>, day: int, today: int) {
    day >= today - 1 || day !in days || !days[day].complete
  }

  predicate HasBounds(clock: Clock, day: int) {
    day < MAX_DAY && clock.startOf(day).Some? && clock.startOf(day + 1).Some?
  }

  function Min(x: int, y: int): int { if x < y then x else y }

  function PagesOf(service: Service, start: int, end: int): nat -> Response {
    (p: nat) => service(start, end, p)
  }

  ghost function Fetched(clock: Clock, service: Service, coalesce: Coalesce, day: int): Option<seq<Row>>
    requires HasBounds(clock, day)
  {
    DayRows(PagesOf(service, clock.startOf(day).value, Min(clock.startOf(day + 1).value, clock.now) - 1), coalesce)
  }

  /** The cache after the backfill has looked at a day. */
  ghost function Visit(days: map<int, CachedDay>, clock: Clock, service: Service, coalesce: Coalesce,
                       day: int): map<int, CachedDay>
    requires NeedsFetch(days, day, clock.today) ==> HasBounds(clock, day)
  {
    if !NeedsFetch(days, day, clock.today) then days
    else
      var start, next := clock.startOf(day).value, clock.startOf(day + 1).value;
      if Min(next, clock.now) - 1 < start then days[day := CachedDay(false, [])]
      else match Fetched(clock, service, coalesce, day)
        case None => days
        case Some(rows) => days[day := CachedDay(next <= clock.now, rows)]
  }

  /** The day's entry if the backfill had looked at it, starting from the cache before. */
  ghost function Entry(days: map<int, CachedDay>, clock: Clock, service: Service, coalesce: Coalesce,
                       day: int): Option<CachedDay> {
    if NeedsFetch(days, day, clock.today) && !HasBounds(clock, day) then None
    else
      var after := Visit(days, clock, service, coalesce, day);
      if day in after then Some(after[day]) else None
  }

  /** After is before, with the days from low to until visited. */
  ghost predicate Backfilled(before: map<int, CachedDay>, after: map<int, CachedDay>,
                             clock: Clock, service: Service, coalesce: Coalesce, low: int, until: int) {
    forall day: int ::
      (if day in after then Some(after[day]) else None)
      == if low <= day <= until then Entry(before, clock, service, coalesce, day)
         else if day in before then Some(before[day]) else None
  }

  predicate Usable(days: map<int, CachedDay>, today: int, day: int) {
    day in days && (day >= today || days[day].complete)
  }

  /** The rows of the days from first to last, in order. */
  function Window(days: map<int, CachedDay>, first: int, last: int): seq<Row>
    decreases last - first
  {
    if last < first then [] else Window(days, first, last - 1) + if last in days then days[last].rows else []
  }

  lemma VisitOneMore(before: map<int, CachedDay>, now: map<int, CachedDay>, after: map<int, CachedDay>,
                     clock: Clock, service: Service, coalesce: Coalesce, day: int, until: int)
    requires Backfilled(before, now, clock, service, coalesce, day + 1, until) && day <= until
    requires NeedsFetch(now, day, clock.today) ==> HasBounds(clock, day)
    requires after == Visit(now, clock, service, coalesce, day)
    ensures NeedsFetch(before, day, clock.today) == NeedsFetch(now, day, clock.today)
    ensures Backfilled(before, after, clock, service, coalesce, day, until)
  {
  }

  class CachedDays {
    var days: map<int, CachedDay>
    var dirty: bool

    /** Looks at the days from until back to since and fetches those that need it, while the budget lasts; low is the
        oldest day that was looked at. */
    method Backfill(clock: Clock, service: Service, coalesce: Coalesce, inBudget: int -> bool, since: Day, until: Day)
      returns (failure: Option<Failure>, ghost low: int)
      modifies this
      ensures low <= until + 1 && (since <= until ==> since <= low)
      ensures Backfilled(old(days), days, clock, service, coalesce, low, until)
      ensures dirty || (!old(dirty) && days == old(days))
      ensures failure.Some? && since <= until ==>
                low > since && NeedsFetch(old(days), low - 1, clock.today) && !HasBounds(clock, low - 1)
      ensures failure.None? ==> low == since || (NeedsFetch(old(days), low - 1, clock.today) && !inBudget(low - 1))
      ensures failure.Some? ==> failure.value != BackfillIncomplete
    {
      hide DayRows, NeedsFetch, Fetched;
      low := until + 1;
      var day: int := until;
      while true
        invariant MIN_DAY <= day <= until && low == day + 1 && (since <= until ==> since <= day)
        invariant Backfilled(old(days), days, clock, service, coalesce, low, until)
        invariant dirty || (!old(dirty) && days == old(days))
        decreases day - MIN_DAY
      {
        ghost var was := days;
        NeedsAsBefore(old(days), days, clock, service, coalesce, low, until);
        if NeedsFetch(days, day, clock.today) {
          if !inBudget(day) {
            break;
          }
          if clock.startOf(day).None? {
            return Some(NoLocalTime), low;
          }
          if day == MAX_DAY {
            return Some(DateRangeOverflow), low;
          }
          if clock.startOf(day + 1).None? {
            return Some(NoLocalTime), low;
          }
          var start, nextStart := clock.startOf(day).value, clock.startOf(day + 1).value;
          var end := Min(nextStart, clock.now) - 1;
          if end < start {
            days := days[day := CachedDay(false, [])];
            dirty := true;
          } else {
            var rows := FetchEventDay(PagesOf(service, start, end), coalesce);
            Asked(clock, service, coalesce, day);
            if rows.Some? {
              days := days[day := CachedDay(nextStart <= clock.now, rows.value)];
              dirty := true;
            }
          }
        }
        VisitOneMore(old(days), was, days, clock, service, coalesce, day, until);
        low := day;
        if day == since {
          break;
        }
        if day == MIN_DAY {
          return Some(DateRangeOverflow), low;
        }
        day := day - 1;
      }
      return None, low;
    }

    /** Reads the window from the cache: every day once in ascending order, and no past day that is incomplete. */
    method ReadWindow(today: int, since: Day, until: Day) returns (r: Result<seq<Row>, Failure>)
      ensures r.Success? <==> since <= until && forall day :: since <= day <= until ==> Usable(days, today, day)
      ensures r.Success? ==> r.value == Window(days, since, until)
    {
      var rows: seq<Row> := [];
      var day: int := since;
      while true
        invariant since <= day <= MAX_DAY && (since <= until ==> day <= until)
        invariant forall d :: since <= d < day ==> Usable(days, today, d)
        invariant rows == Window(days, since, day - 1)
        decreases MAX_DAY - day
      {
        if !Usable(days, today, day) {
          return Failure(BackfillIncomplete);
        }
        rows := rows + days[day].rows;
        if day == until {
          return Success(rows);
        }
        if day == MAX_DAY {
          return Failure(DateRangeOverflow);
        }
        day := day + 1;
      }
    }

    /** A past day that the backfill could not complete fails the query; what was fetched stays in the cache. */
    method Events(clock: Clock, service: Service, coalesce: Coalesce, inBudget: int -> bool, since: Day, until: Day)
      returns (r: Result<seq<Row>, Failure>, ghost low: int)
      modifies this
      ensures low <= until + 1 && (since <= until ==> since <= low)
      ensures Backfilled(old(days), days, clock, service, coalesce, low, until)
      ensures dirty || (!old(dirty) && days == old(days))
      ensures r.Success? ==> since <= until && forall day :: since <= day <= until ==> Usable(days, clock.today, day)
      ensures r.Success? ==> r.value == Window(days, since, until)
      ensures since <= until && (forall day :: since <= day <= until ==> HasBounds(clock, day)) ==>
                (r.Success? <==> forall day :: since <= day <= until ==> Usable(days, clock.today, day))
      ensures since <= until && (forall day :: since <= day <= until ==> HasBounds(clock, day) && inBudget(day)) ==>
                low == since
    {
      hide Backfilled, NeedsFetch;
      var failure;
      failure, low := Backfill(clock, service, coalesce, inBudget, since, until);
      if failure.Some? {
        return Failure(failure.value), low;
      }
      r := ReadWindow(clock.today, since, until);
    }
  }

  lemma NeedsAsBefore(before: map<int, CachedDay>, now: map<int, CachedDay>,
                      clock: Clock, service: Service, coalesce: Coalesce, low: int, until: int)
    requires Backfilled(before, now, clock, service, coalesce, low, until) && low <= until + 1
    ensures NeedsFetch(before, low - 1, clock.today) == NeedsFetch(now, low - 1, clock.today)
  {
  }

  lemma Asked(clock: Clock, service: Service, coalesce: Coalesce, day: int)
    requires HasBounds(clock, day)
    ensures Fetched(clock, service, coalesce, day)
            == DayRows(PagesOf(service, clock.startOf(day).value, Min(clock.startOf(day + 1).value, clock.now) - 1),
                       coalesce)
  {
  }

  // ----- what the backfill achieves -----

  /** Days start one after another, and now lies in today. */
  predicate Ticking(clock: Clock) {
    && (forall day :: MIN_DAY <= day <= MAX_DAY ==> clock.startOf(day).Some?)
    && (forall day, later :: MIN_DAY <= day < later <= MAX_DAY ==>
        clock.startOf(day).value < clock.startOf(later).value)
    && MIN_DAY <= clock.today < MAX_DAY
    && clock.startOf(clock.today).value <= clock.now < clock.startOf(clock.today + 1).value
  }

  /** What became of a day that was looked at. A day that is complete and neither today's nor yesterday's is left alone.
      Any other is asked for, from its start to its end or to now: if it has not begun its entry is empty, if all its
      pages came they are its entry, complete if the day is over, and otherwise its entry stays as it was. */
  lemma VisitedDay(before: map<int, CachedDay>, after: map<int, CachedDay>, clock: Clock, service: Service,
                   coalesce: Coalesce, low: int, until: int, day: int, start: int, next: int)
    requires Backfilled(before, after, clock, service, coalesce, low, until) && low <= day <= until && day < MAX_DAY
    requires clock.startOf(day) == Some(start) && clock.startOf(day + 1) == Some(next)
    ensures var end := if next < clock.now then next - 1 else clock.now - 1;
            var rows := DayRows(PagesOf(service, start, end), coalesce);
            var was := if day in before then Some(before[day]) else None;
            (if day in after then Some(after[day]) else None) ==
              if day < clock.today - 1 && day in before && before[day].complete then was
              else if end < start then Some(CachedDay(false, []))
              else if rows.Some? then Some(CachedDay(clock.now >= next, rows.value))
              else was
  {
    hide DayRows;
  }

  /** A past day that was looked at is usable exactly when it was complete before or all its pages could be fetched. */
  lemma UsableAfterBackfill(before: map<int, CachedDay>, after: map<int, CachedDay>,
                            clock: Clock, service: Service, coalesce: Coalesce, low: int, until: int, day: int)
    requires Backfilled(before, after, clock, service, coalesce, low, until) && Ticking(clock)
    requires MIN_DAY <= day < MAX_DAY && low <= day <= until
    ensures day < clock.today ==>
              (Usable(after, clock.today, day)
               <==> (day in before && before[day].complete) || Fetched(clock, service, coalesce, day).Some?)
    ensures day == clock.today ==>
              (Usable(after, clock.today, day)
               <==>
                 day in before || clock.now == clock.startOf(day).value || Fetched(clock, service, coalesce, day).Some?)
    ensures day > clock.today ==> Usable(after, clock.today, day) && after[day].rows == []
  {
    hide Fetched;
    var start, next := clock.startOf(day).value, clock.startOf(day + 1).value;
    assert start < next;
    if day < clock.today {
      assert next <= clock.startOf(clock.today).value;
    } else if day > clock.today {
      assert clock.startOf(clock.today + 1).value <= start;
    }
  }

  /** Once a day two or more days back is complete, it is never asked for again and never changes. */
  lemma CompletedDaysAreKept(before: map<int, CachedDay>, after: map<int, CachedDay>,
                             clock: Clock, service: Service, coalesce: Coalesce, low: int, until: int, day: int)
    requires Backfilled(before, after, clock, service, coalesce, low, until)
    requires day < clock.today - 1 && day in before && before[day].complete
    ensures day in after && after[day] == before[day] && !NeedsFetch(before, day, clock.today)
  {
  }

  // ----- the order of rows -----

  /** The rows of a window are those of its days one after the other, oldest first; a day that is not cached has none.
      */
  lemma {:induction false} WindowInOrder(days: map<int, CachedDay>, first: int, middle: int, last: int)
    requires first <= middle <= last + 1
    ensures Window(days, first, last) == Window(days, first, middle - 1) + Window(days, middle, last)
    ensures first == last ==> Window(days, first, last) == if first in days then days[first].rows else []
    decreases last - middle
  {
    if first == last {
      assert Window(days, first, last - 1) == [];
    }
    if middle <= last {
      WindowInOrder(days, first, middle, last - 1);
    }
  }

  /** The rows of a day are those of its pages one after the other. */
  lemma PagesInOrder(pages: nat -> Response, p: nat)
    ensures RowsUpTo(pages, 0) == []
    ensures pages(p + 1).Page? ==> RowsUpTo(pages, p + 1) == RowsUpTo(pages, p) + pages(p + 1).rows
  {
  }
}
