/** Reading a conversation database page by page, each page starting after the last index of the one before. */
module DatabasePages {
  import opened Wrappers
  import opened ProtoWire
  import opened ProtoEvent

  const BATCH_SIZE: nat := 8

  type Index = n: int | -0x8000_0000_0000_0000 <= n <= 0x7FFF_FFFF_FFFF_FFFF witness 0

  /** A row of the table; an oversized or malformed blob is read as None. */
  datatype Record = Record(idx: Index, blob: Option<seq<Byte>>)

  type Parse = seq<Byte> -> Option<Event>

  /** The events in the rows, in order. */
  function EventsOf(rows: seq<Record>, parse: Parse): seq<Event> {
    if rows == [] then []
    else
      var event := if rows[0].blob.Some? then parse(rows[0].blob.value) else None;
      (if event.Some? then [event.value] else []) + EventsOf(rows[1..], parse)
  }

  function Above(table: seq<Record>, last: int): seq<Record> {
    if table == [] then [] else (if table[0].idx > last then [table[0]] else []) + Above(table[1..], last)
  }

  predicate Ascending(table: seq<Record>) {
    forall i, j :: 0 <= i < j < |table| ==> table[i].idx < table[j].idx
  }

  function Take(rows: seq<Record>): seq<Record> { if |rows| <= BATCH_SIZE then rows else rows[..BATCH_SIZE] }

  /** The query gives the first rows of the table above the index asked for. */
  ghost predicate Answers(query: Index -> seq<Record>, table: seq<Record>) {
    Ascending(table) && forall last: Index :: query(last) == Take(Above(table, last))
  }

  /** Reads one page; it must go up from the last index. */
  method ReadBatch(batch: seq<Record>, last: Index, parse: Parse, ghost table: seq<Record>, ghost proper: bool)
    returns (ok: bool, end: Index, events: seq<Event>)
    requires proper ==> Ascending(table) && batch <= Above(table, last)
    ensures ok ==> end >= last && (batch != [] ==> end > last)
    ensures proper ==> ok && Above(table, end) == Above(table, last)[|batch|..]
    ensures proper ==> EventsOf(Above(table, last), parse) == events + EventsOf(Above(table, end), parse)
  {
    hide Ascending, Above, EventsOf;
    end, events := last, [];
    ghost var rest := Above(table, last);
    for i := 0 to |batch|
      invariant end >= last && (i > 0 ==> end > last)
      invariant proper ==>
                  Above(table, end) == rest[i..] && EventsOf(rest, parse) == events + EventsOf(rest[i..], parse)
    {
      var Record(idx, blob) := batch[i];
      if proper {
        NextRow(table, last, end, i, parse);
      }
      if idx <= end {
        return false, end, events;
      }
      end := idx;
      if blob.None? {
        continue;
      }
      var event := parse(blob.value);
      if event.Some? {
        events := events + [event.value];
      }
    }
    return true, end, events;
  }

  /** Ends whatever the database answers, with an error if a page goes back; and reads every row of a table that is
      answered properly, from index 0 on, exactly once and in order. */
  method ReadDatabase(query: Index -> seq<Record>, parse: Parse, ghost table: seq<Record>)
    returns (r: Option<seq<Event>>)
    ensures Answers(query, table) ==> r == Some(EventsOf(Above(table, -1), parse))
  {
    hide Answers, Above, EventsOf;
    ghost var proper := Answers(query, table);
    var last: Index := -1;
    var events: seq<Event> := [];
    while true
      invariant proper ==> events + EventsOf(Above(table, last), parse) == EventsOf(Above(table, -1), parse)
      decreases 0x7FFF_FFFF_FFFF_FFFF - last
    {
      var batch := query(last);
      if proper {
        Answered(query, table, last);
      }
      ghost var rest := Above(table, last);
      var ok, more;
      ok, last, more := ReadBatch(batch, last, parse, table, proper);
      if !ok {
        return None;
      }
      events := events + more;
      if |batch| < BATCH_SIZE {
        if proper {
          NoEvents(parse);
          assert events + EventsOf(Above(table, last), parse) == events;
        }
        break;
      }
    }
    assert proper ==> events == EventsOf(Above(table, -1), parse);
    return Some(events);
  }

  lemma Answered(query: Index -> seq<Record>, table: seq<Record>, last: Index)
    requires Answers(query, table)
    ensures Ascending(table) && query(last) <= Above(table, last)
    ensures (|query(last)| < BATCH_SIZE ==> query(last) == Above(table, last))
  {
  }

  lemma NoEvents(parse: Parse)
    ensures EventsOf([], parse) == []
  {
  }

  /** The row after those read is above the last one read, and what is above it are the rows after it. */
  lemma NextRow(table: seq<Record>, before: int, last: int, i: nat, parse: Parse)
    requires Ascending(table) && i < |Above(table, before)| && Above(table, last) == Above(table, before)[i..]
    ensures var rest := Above(table, before);
            && rest[i].idx > last && Above(table, rest[i].idx) == rest[i + 1..]
            && EventsOf(rest[i..], parse)
               == (if rest[i].blob.Some? && parse(rest[i].blob.value).Some? then [parse(rest[i].blob.value).value]
                   else [])
                  + EventsOf(rest[i + 1..], parse)
  {
    var rest := Above(table, before);
    assert rest[i..][0] == rest[i] && rest[i..][1..] == rest[i + 1..];
    FirstAbove(table, last);
  }

  lemma {:induction false} FirstAbove(table: seq<Record>, last: int)
    requires Ascending(table) && Above(table, last) != []
    ensures var rows := Above(table, last);
            rows[0] in table && rows[0].idx > last && Above(table, rows[0].idx) == rows[1..]
  {
    if table[0].idx > last {
      AllAbove(table[1..], table[0].idx);
      AllAbove(table[1..], last);
      assert ([table[0]] + table[1..])[1..] == table[1..];
    } else {
      FirstAbove(table[1..], last);
    }
  }

  lemma {:induction false} AllAbove(table: seq<Record>, last: int)
    requires forall row :: row in table ==> row.idx > last
    ensures Above(table, last) == table
  {
    if table != [] {
      AllAbove(table[1..], last);
    }
  }
}
