/** Fields of a protobuf message and the generation event read from them. */
module ProtoFields {
  import opened Wrappers
  import opened ProtoWire

  /** A record of a message; Fixed holds the 8 or 4 bytes of wire types 1 and 5. */
  datatype Record =
    | VarintRecord(number: nat, value: nat)
    | BytesRecord(number: nat, data: seq<Byte>)
    | FixedRecord(number: nat, data: seq<Byte>)

  datatype WireValue = VarintValue(value: nat) | BytesValue(data: seq<Byte>)

  // ----- reading -----

  /** The record at offset and the position after it; None where the message is malformed. */
  function RecordAt(bytes: seq<Byte>, offset: nat): (r: Option<(Record, nat)>)
    ensures r.Some? ==> offset < r.value.1 <= |bytes|
  {
    match Varint(bytes, offset, 0)
    case None => None
    case Some((tag, next)) =>
      var number := tag / 8;
      if number > U32_MAX || number == 0 then None
      else if tag % 8 == 0 then
        (match Varint(bytes, next, 0)
         case None => None
         case Some((value, after)) => Some((VarintRecord(number, value), after)))
      else if tag % 8 == 2 then
        (match Varint(bytes, next, 0)
         case None => None
         case Some((len, start)) =>
           if len > |bytes| - start then None else Some((BytesRecord(number, bytes[start..start + len]), start + len)))
      else if tag % 8 == 1 || tag % 8 == 5 then
        var width := if tag % 8 == 1 then 8 else 4;
        if |bytes| - next < width then None else Some((FixedRecord(number, bytes[next..next + width]), next + width))
      else None
  }

  /** The records from offset up to the end of the message or the first malformed one. */
  function Records(bytes: seq<Byte>, offset: nat): seq<Record>
    decreases |bytes| - offset
  {
    if offset >= |bytes| then []
    else match RecordAt(bytes, offset)
      case None => []
      case Some((record, next)) => [record] + Records(bytes, next)
  }

  /** The value of the first varint or length-delimited record with this number. */
  function FirstValue(number: nat, records: seq<Record>): Option<WireValue> {
    if records == [] then None
    else match records[0]
      case VarintRecord(n, value) => if n == number then Some(VarintValue(value)) else FirstValue(number, records[1..])
      case BytesRecord(n, data) => if n == number then Some(BytesValue(data)) else FirstValue(number, records[1..])
      case FixedRecord(_, _) => FirstValue(number, records[1..])
  }

  /** Finds the field in any bytes: what follows the first match, and a malformed rest, do not matter. */
  method Field(requested: nat, bytes: seq<Byte>) returns (r: Option<WireValue>)
    ensures r == FirstValue(requested, Records(bytes, 0))
  {
    hide Varint, Records, FirstValue;
    var offset := 0;
    while offset < |bytes|
      invariant 0 <= offset <= |bytes|
      invariant FirstValue(requested, Records(bytes, 0)) == FirstValue(requested, Records(bytes, offset))
    {
      NextRecord(requested, bytes, offset);
      var decoded := DecodeVarint(bytes, offset);
      if decoded.None? {
        return None;
      }
      var (tag, next) := decoded.value;
      var number := tag / 8;
      if number > U32_MAX || number == 0 {
        return None;
      }
      if tag % 8 == 0 {
        var value := DecodeVarint(bytes, next);
        if value.None? {
          return None;
        }
        if number == requested {
          return Some(VarintValue(value.value.0));
        }
        offset := value.value.1;
      } else if tag % 8 == 2 {
        var len := DecodeVarint(bytes, next);
        if len.None? {
          return None;
        }
        var start := len.value.1;
        var remaining := |bytes| - start;
        if len.value.0 > remaining {
          return None;
        }
        var end := start + len.value.0;
        if number == requested {
          return Some(BytesValue(bytes[start..end]));
        }
        offset := end;
      } else if tag % 8 == 1 || tag % 8 == 5 {
        var width := if tag % 8 == 1 then 8 else 4;
        if |bytes| - next < width {
          return None;
        }
        offset := next + width;
      } else {
        return None;
      }
    }
    NextRecord(requested, bytes, offset);
    return None;
  }

  /** Where no record starts nothing is found; otherwise the record is what is looked for, or it is passed over. */
  lemma NextRecord(requested: nat, bytes: seq<Byte>, offset: nat)
    ensures var found := FirstValue(requested, Records(bytes, offset));
            if offset >= |bytes| || RecordAt(bytes, offset).None? then found == None
            else
              var (record, next) := RecordAt(bytes, offset).value;
              found == if record.number == requested && record.VarintRecord? then Some(VarintValue(record.value))
                       else if record.number == requested && record.BytesRecord? then Some(BytesValue(record.data))
                       else FirstValue(requested, Records(bytes, next))
  {
    hide RecordAt;
  }

  // ----- writing -----

  predicate WellFormed(record: Record) {
    && 0 < record.number <= U32_MAX
    && (record.VarintRecord? ==> record.value < TWO_TO_THE_64)
    && (record.BytesRecord? ==> |record.data| < TWO_TO_THE_64)
    && (record.FixedRecord? ==> |record.data| == 8 || |record.data| == 4)
  }

  function KeyBytes(number: nat, wire: nat): seq<Byte>
    requires wire < 8
  {
    VarintBytes(8 * number + wire)
  }

  function RecordBytes(record: Record): seq<Byte> {
    match record
    case VarintRecord(number, value) => KeyBytes(number, 0) + VarintBytes(value)
    case BytesRecord(number, data) => KeyBytes(number, 2) + VarintBytes(|data|) + data
    case FixedRecord(number, data) => KeyBytes(number, if |data| == 8 then 1 else 5) + data
  }

  function MessageBytes(records: seq<Record>): seq<Byte> {
    if records == [] then [] else RecordBytes(records[0]) + MessageBytes(records[1..])
  }

  lemma ReadVarint(before: seq<Byte>, v: nat, after: seq<Byte>)
    requires v < TWO_TO_THE_64
    ensures Varint(before + VarintBytes(v) + after, |before|, 0) == Some((v, |before| + |VarintBytes(v)|))
  {
    LimitOfAll();
    VarintRoundTrip(before, v, after, 0);
  }

  /** Reading a record that was written, whatever comes before and after. */
  lemma RecordRoundTrip(before: seq<Byte>, record: Record, after: seq<Byte>)
    requires WellFormed(record)
    ensures var bytes := before + RecordBytes(record) + after;
            RecordAt(bytes, |before|) == Some((record, |before| + |RecordBytes(record)|))
  {
    hide RecordAt, RecordBytes;
    match record
    case VarintRecord(number, value) => VarintRecordRoundTrip(before, number, value, after);
    case BytesRecord(number, data) => BytesRecordRoundTrip(before, number, data, after);
    case FixedRecord(number, data) => FixedRecordRoundTrip(before, number, data, after);
  }

  lemma ReadKey(before: seq<Byte>, number: nat, wire: nat, after: seq<Byte>)
    requires 0 < number <= U32_MAX && wire < 8
    ensures Varint(before + KeyBytes(number, wire) + after, |before|, 0)
              == Some((8 * number + wire, |before| + |KeyBytes(number, wire)|))
    ensures (8 * number + wire) / 8 == number && (8 * number + wire) % 8 == wire
  {
    ReadVarint(before, 8 * number + wire, after);
  }

  lemma VarintRecordRoundTrip(before: seq<Byte>, number: nat, value: nat, after: seq<Byte>)
    requires WellFormed(VarintRecord(number, value))
    ensures var part := RecordBytes(VarintRecord(number, value));
            RecordAt(before + part + after, |before|) == Some((VarintRecord(number, value), |before| + |part|))
  {
    hide Varint, VarintBytes, KeyBytes;
    var key, v := KeyBytes(number, 0), VarintBytes(value);
    var bytes := before + (key + v) + after;
    assert bytes == before + key + (v + after) && bytes == (before + key) + v + after;
    ReadKey(before, number, 0, v + after);
    ReadVarint(before + key, value, after);
  }

  lemma BytesRecordRoundTrip(before: seq<Byte>, number: nat, data: seq<Byte>, after: seq<Byte>)
    requires WellFormed(BytesRecord(number, data))
    ensures var part := RecordBytes(BytesRecord(number, data));
            RecordAt(before + part + after, |before|) == Some((BytesRecord(number, data), |before| + |part|))
  {
    hide Varint, VarintBytes, KeyBytes;
    var key, len := KeyBytes(number, 2), VarintBytes(|data|);
    var bytes := before + (key + len + data) + after;
    assert bytes == before + key + (len + data + after) && bytes == (before + key) + len + (data + after);
    ReadKey(before, number, 2, len + data + after);
    ReadVarint(before + key, |data|, data + after);
    var start := |before| + |key| + |len|;
    assert bytes[start..start + |data|] == data;
  }

  lemma FixedRecordRoundTrip(before: seq<Byte>, number: nat, data: seq<Byte>, after: seq<Byte>)
    requires WellFormed(FixedRecord(number, data))
    ensures var part := RecordBytes(FixedRecord(number, data));
            RecordAt(before + part + after, |before|) == Some((FixedRecord(number, data), |before| + |part|))
  {
    hide Varint, VarintBytes, KeyBytes;
    var wire := if |data| == 8 then 1 else 5;
    var key := KeyBytes(number, wire);
    var bytes := before + (key + data) + after;
    assert bytes == before + key + (data + after);
    ReadKey(before, number, wire, data + after);
    var start := |before| + |key|;
    assert bytes[start..start + |data|] == data;
  }

  /** No record starts here: a field number that is 0 or too large, a wire type that is unknown or obsolete, and a
      record that is cut off. */
  predicate Malformed(number: nat, wire: nat, rest: seq<Byte>) {
    || number == 0 || number > U32_MAX || wire == 3 || wire == 4 || wire == 6 || wire == 7
    || (wire == 1 && |rest| < 8) || (wire == 5 && |rest| < 4)
    || ((wire == 0 || wire == 2) && Varint(rest, 0, 0).None?)
    || (wire == 2 && var (len, start) := Varint(rest, 0, 0).value; len > |rest| - start)
  }

  /** A message is read up to the first place where no record starts. */
  lemma MalformedRecord(before: seq<Byte>, number: nat, wire: nat, rest: seq<Byte>)
    requires wire < 8 && 8 * number + wire < TWO_TO_THE_64 && Malformed(number, wire, rest)
    ensures Records(before + VarintBytes(8 * number + wire) + rest, |before|) == []
  {
    hide Varint, VarintBytes, Records, RecordAt, Malformed;
    var head := before + VarintBytes(8 * number + wire);
    ReadVarint(before, 8 * number + wire, rest);
    VarintAfter(head, rest, 0, 0);
    NoRecord(head + rest, |before|, |head|, number, wire, rest);
    RecordsEnd(head + rest, |before|);
  }

  lemma RecordsEnd(bytes: seq<Byte>, offset: nat)
    requires RecordAt(bytes, offset).None?
    ensures Records(bytes, offset) == []
  {
    hide RecordAt;
  }

  lemma NoRecord(bytes: seq<Byte>, offset: nat, next: nat, number: nat, wire: nat, rest: seq<Byte>)
    requires wire < 8 && Malformed(number, wire, rest) && next + |rest| == |bytes|
    requires Varint(bytes, offset, 0) == Some((8 * number + wire, next))
    requires Varint(bytes, next, 0) == match Varint(rest, 0, 0)
                                       case None => None
                                       case Some((v, after)) => Some((v, next + after))
    ensures RecordAt(bytes, offset).None?
  {
    hide Varint;
    assert (8 * number + wire) / 8 == number && (8 * number + wire) % 8 == wire;
  }

  /** What stands before a number does not matter. */
  lemma {:induction false} VarintAfter(before: seq<Byte>, bytes: seq<Byte>, i: nat, k: nat)
    requires i <= |bytes|
    ensures Varint(before + bytes, |before| + i, k)
            == match Varint(bytes, i, k) case None => None case Some((v, next)) => Some((v, |before| + next))
    decreases |bytes| - i
  {
    if i < |bytes| {
      VarintAfter(before, bytes, i + 1, k + 1);
    }
  }

  /** Reading a message that was written gives back its records. */
  lemma {:induction false} MessageRoundTrip(before: seq<Byte>, records: seq<Record>)
    requires forall i :: 0 <= i < |records| ==> WellFormed(records[i])
    ensures Records(before + MessageBytes(records), |before|) == records
    decreases |records|
  {
    hide RecordAt, RecordBytes;
    var bytes := before + MessageBytes(records);
    if records != [] {
      var record, rest := records[0], records[1..];
      RecordRoundTrip(before, record, MessageBytes(rest));
      assert bytes == before + RecordBytes(record) + MessageBytes(rest);
      assert bytes == (before + RecordBytes(record)) + MessageBytes(rest);
      MessageRoundTrip(before + RecordBytes(record), rest);
      assert |RecordBytes(record)| > 0 by {
        RecordIsNotEmpty(record);
      }
    }
  }

  lemma RecordIsNotEmpty(record: Record)
    ensures |RecordBytes(record)| > 0
  {
  }

  /** In a well-formed message `Field` finds the first varint or length-delimited record of the number. */
  lemma FieldOfMessage(records: seq<Record>, number: nat)
    requires forall i :: 0 <= i < |records| ==> WellFormed(records[i])
    ensures FirstValue(number, Records(MessageBytes(records), 0)) == FirstValue(number, records)
  {
    MessageRoundTrip([], records);
    assert [] + MessageBytes(records) == MessageBytes(records);
  }
}
