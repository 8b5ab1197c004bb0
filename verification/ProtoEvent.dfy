/** The generation event inside an Antigravity metadata blob. */
module ProtoEvent {
  import opened Wrappers
  import opened ProtoWire
  import opened ProtoFields

  const I64_MAX: nat := 0x7FFF_FFFF_FFFF_FFFF
  const UNKNOWN_MODEL := "Unknown Antigravity Model"

  datatype Event = Event(model: string, input: nat, output: nat, cacheRead: nat, timestamp: nat)

  // ----- what the blob says -----

  function BytesAt(number: nat, bytes: seq<Byte>): Option<seq<Byte>> {
    match FirstValue(number, Records(bytes, 0))
    case Some(BytesValue(data)) => Some(data)
    case _ => None
  }

  function VarintAt(number: nat, bytes: seq<Byte>): Option<nat> {
    match FirstValue(number, Records(bytes, 0))
    case Some(VarintValue(value)) => Some(value)
    case _ => None
  }

  /** The bytes reached by following the numbers inwards. */
  function Inner(numbers: seq<nat>, bytes: seq<Byte>): Option<seq<Byte>> {
    if numbers == [] then Some(bytes)
    else match BytesAt(numbers[0], bytes)
      case None => None
      case Some(data) => Inner(numbers[1..], data)
  }

  function Count(number: nat, usage: seq<Byte>): nat {
    match VarintAt(number, usage)
    case None => 0
    case Some(value) => value
  }

  function ModelName(text: seq<Byte> -> Option<string>, raw: Option<seq<Byte>>): string {
    if raw.Some? && text(raw.value).Some? && text(raw.value).value != [] then text(raw.value).value else UNKNOWN_MODEL
  }

  predicate Countable(systemPrompt: nat, input: nat, output: nat, cacheRead: nat) {
    && systemPrompt + input <= I64_MAX && output <= I64_MAX && cacheRead <= I64_MAX
    && systemPrompt + input + output + cacheRead > 0
  }

  /** The event of a blob: usage at 1.4, timestamp at 1.9.4.1, model name at 1.19. */
  function EventOf(text: seq<Byte> -> Option<string>, blob: seq<Byte>): Option<Event> {
    match (Inner([1], blob), Inner([1, 4], blob), Inner([1, 9, 4], blob))
    case (Some(wrapped), Some(usage), Some(clock)) =>
      var systemPrompt, input, output, cacheRead := Count(1, usage), Count(2, usage), Count(3, usage), Count(5, usage);
      (match VarintAt(1, clock)
       case None => None
       case Some(timestamp) =>
         if Countable(systemPrompt, input, output, cacheRead) && 0 < timestamp <= I64_MAX then
           Some(Event(ModelName(text, BytesAt(19, wrapped)), systemPrompt + input, output, cacheRead, timestamp))
         else None)
    case _ => None
  }

  // ----- reading it -----

  method BytesField(number: nat, bytes: seq<Byte>) returns (r: Option<seq<Byte>>)
    ensures r == BytesAt(number, bytes)
  {
    hide FirstValue, Records;
    var value := Field(number, bytes);
    match value {
      case Some(BytesValue(data)) => return Some(data);
      case _ => return None;
    }
  }

  method VarintField(number: nat, bytes: seq<Byte>) returns (r: Option<nat>)
    ensures r == VarintAt(number, bytes)
  {
    hide FirstValue, Records;
    var value := Field(number, bytes);
    match value {
      case Some(VarintValue(v)) => return Some(v);
      case _ => return None;
    }
  }

  /** A counter read as a signed 64-bit number; an absent one is zero. */
  method Counter(number: nat, usage: seq<Byte>) returns (r: Option<nat>)
    ensures r == if Count(number, usage) <= I64_MAX then Some(Count(number, usage)) else None
  {
    hide VarintAt;
    var field := VarintField(number, usage);
    var value := if field.Some? then field.value else 0;
    return if value <= I64_MAX then Some(value) else None;
  }

  method GenerationEvent(text: seq<Byte> -> Option<string>, blob: seq<Byte>) returns (r: Option<Event>)
    ensures r == EventOf(text, blob)
  {
    hide BytesAt, VarintAt, Count, Inner;
    Follow(blob);
    var wrapped := BytesField(1, blob);
    if wrapped.None? {
      return None;
    }
    var raw := BytesField(19, wrapped.value);
    var model := UNKNOWN_MODEL;
    if raw.Some? {
      var decoded := text(raw.value);
      if decoded.Some? && decoded.value != [] {
        model := decoded.value;
      }
    }
    var usage := BytesField(4, wrapped.value);
    if usage.None? {
      return None;
    }
    var systemPrompt := Counter(1, usage.value);
    if systemPrompt.None? {
      return None;
    }
    var input := Counter(2, usage.value);
    if input.None? {
      return None;
    }
    var output := Counter(3, usage.value);
    if output.None? {
      return None;
    }
    var cacheRead := Counter(5, usage.value);
    if cacheRead.None? {
      return None;
    }
    var billable := systemPrompt.value + input.value;
    if billable > I64_MAX {
      return None;
    }
    if billable == 0 && output.value == 0 && cacheRead.value == 0 {
      return None;
    }
    var timing := BytesField(9, wrapped.value);
    if timing.None? {
      return None;
    }
    var clock := BytesField(4, timing.value);
    if clock.None? {
      return None;
    }
    var timestamp := VarintField(1, clock.value);
    if timestamp.None? || timestamp.value > I64_MAX || timestamp.value == 0 {
      return None;
    }
    return Some(Event(model, billable, output.value, cacheRead.value, timestamp.value));
  }

  lemma Follow(blob: seq<Byte>)
    ensures Inner([1], blob) == BytesAt(1, blob)
    ensures BytesAt(1, blob).None? ==> Inner([1, 4], blob).None? && Inner([1, 9, 4], blob).None?
    ensures BytesAt(1, blob).Some? ==>
              var wrapped := BytesAt(1, blob).value;
              && Inner([1, 4], blob) == BytesAt(4, wrapped)
              && (BytesAt(9, wrapped).None? ==> Inner([1, 9, 4], blob).None?)
              && (BytesAt(9, wrapped).Some? ==> Inner([1, 9, 4], blob) == BytesAt(4, BytesAt(9, wrapped).value))
  {
    hide BytesAt;
    Inner1(1, [], blob);
    Inner1(1, [4], blob);
    Inner1(1, [9, 4], blob);
    if BytesAt(1, blob).Some? {
      var wrapped := BytesAt(1, blob).value;
      Inner1(4, [], wrapped);
      Inner1(9, [4], wrapped);
      if BytesAt(9, wrapped).Some? {
        Inner1(4, [], BytesAt(9, wrapped).value);
      }
    }
  }

  lemma Inner1(number: nat, rest: seq<nat>, bytes: seq<Byte>)
    ensures Inner([number] + rest, bytes)
            == if BytesAt(number, bytes).None? then None else Inner(rest, BytesAt(number, bytes).value)
  {
  }

  // ----- writing it -----

  function Usage(systemPrompt: nat, input: nat, output: nat, cacheRead: nat): seq<Record> {
    [VarintRecord(1, systemPrompt), VarintRecord(2, input), VarintRecord(3, output), VarintRecord(5, cacheRead)]
  }

  function EncodeGenerationBlob(model: seq<Byte>, systemPrompt: nat, input: nat, output: nat, cacheRead: nat,
                                timestamp: nat)
    : seq<Byte>
  {
    var usage := MessageBytes(Usage(systemPrompt, input, output, cacheRead));
    var timing := MessageBytes([BytesRecord(4, MessageBytes([VarintRecord(1, timestamp)]))]);
    var wrapped := MessageBytes([BytesRecord(19, model), BytesRecord(4, usage), BytesRecord(9, timing)]);
    MessageBytes([BytesRecord(1, wrapped)])
  }

  lemma {:induction false} VarintIsShort(v: nat, k: nat)
    requires k < 10 && v < Limit(k)
    ensures |VarintBytes(v)| <= 10 - k
    decreases 10 - k
  {
    if v >= 128 {
      VarintIsShort(v / 128, k + 1);
    }
  }

  lemma RecordIsShort(record: Record)
    requires WellFormed(record)
    ensures record.VarintRecord? ==> |RecordBytes(record)| <= 20
    ensures record.BytesRecord? ==> |RecordBytes(record)| <= 20 + |record.data|
  {
    hide VarintBytes;
    LimitOfAll();
    VarintIsShort(8 * record.number, 0);
    if record.VarintRecord? {
      VarintIsShort(record.value, 0);
    } else if record.BytesRecord? {
      VarintIsShort(8 * record.number + 2, 0);
      VarintIsShort(|record.data|, 0);
    }
  }

  /** How long a message of these records can get. */
  function Bound(records: seq<Record>): nat {
    if records == [] then 0
    else 20 + (if records[0].VarintRecord? then 0 else |records[0].data|) + Bound(records[1..])
  }

  lemma BoundOfTail(records: seq<Record>)
    requires records != []
    ensures Bound(records) == 20 + (if records[0].VarintRecord? then 0 else |records[0].data|) + Bound(records[1..])
    ensures |records| > 1 ==> records[1..][1..] == records[2..]
    ensures |records| > 2 ==> records[2..][1..] == records[3..]
  {
  }

  lemma {:induction false} MessageIsShort(records: seq<Record>)
    requires forall i :: 0 <= i < |records| ==> WellFormed(records[i]) && !records[i].FixedRecord?
    ensures |MessageBytes(records)| <= Bound(records)
  {
    hide RecordBytes;
    if records != [] {
      RecordIsShort(records[0]);
      MessageIsShort(records[1..]);
    }
  }

  /** The first record with the number, in a message that was written. */
  lemma Found(records: seq<Record>, i: nat)
    requires forall j :: 0 <= j < |records| ==> WellFormed(records[j]) && !records[j].FixedRecord?
    requires i < |records| && forall j :: 0 <= j < i ==> records[j].number != records[i].number
    ensures records[i].BytesRecord? ==> BytesAt(records[i].number, MessageBytes(records)) == Some(records[i].data)
    ensures records[i].VarintRecord? ==> VarintAt(records[i].number, MessageBytes(records)) == Some(records[i].value)
  {
    hide Records, MessageBytes, WellFormed, FirstValue;
    FieldOfMessage(records, records[i].number);
    FirstIs(records, i);
  }

  lemma {:induction false} FirstIs(records: seq<Record>, i: nat)
    requires forall j :: 0 <= j < |records| ==> !records[j].FixedRecord?
    requires i < |records| && forall j :: 0 <= j < i ==> records[j].number != records[i].number
    ensures FirstValue(records[i].number, records)
            == Some(if records[i].BytesRecord? then BytesValue(records[i].data) else VarintValue(records[i].value))
  {
    if i > 0 {
      FirstIs(records[1..], i - 1);
    }
  }

  lemma CountsOf(systemPrompt: nat, input: nat, output: nat, cacheRead: nat)
    requires systemPrompt < TWO_TO_THE_64 && input < TWO_TO_THE_64
    requires output < TWO_TO_THE_64 && cacheRead < TWO_TO_THE_64
    ensures var usage := MessageBytes(Usage(systemPrompt, input, output, cacheRead));
            && |usage| <= 80
            && Count(1, usage) == systemPrompt && Count(2, usage) == input && Count(3, usage) == output
              && Count(5, usage) == cacheRead
  {
    hide VarintAt, MessageBytes;
    var records := Usage(systemPrompt, input, output, cacheRead);
    MessageIsShort(records);
    assert Bound(records) == 80 by {
      BoundOfTail(records);
      BoundOfTail(records[1..]);
      BoundOfTail(records[2..]);
      BoundOfTail(records[3..]);
    }
    Found(records, 0);
    Found(records, 1);
    Found(records, 2);
    Found(records, 3);
  }

  lemma ClockOf(timestamp: nat)
    requires timestamp < TWO_TO_THE_64
    ensures var clock := MessageBytes([VarintRecord(1, timestamp)]);
            var timing := MessageBytes([BytesRecord(4, clock)]);
            |timing| <= 40 && BytesAt(4, timing) == Some(clock) && VarintAt(1, clock) == Some(timestamp)
  {
    hide VarintAt, BytesAt, MessageBytes;
    var inner := [VarintRecord(1, timestamp)];
    MessageIsShort(inner);
    Found(inner, 0);
    var outer := [BytesRecord(4, MessageBytes(inner))];
    MessageIsShort(outer);
    Found(outer, 0);
  }

  lemma WrappedOf(model: seq<Byte>, usage: seq<Byte>, timing: seq<Byte>)
    requires |usage| <= 80 && |timing| <= 40 && |model| + 180 < TWO_TO_THE_64
    ensures var wrapped := MessageBytes([BytesRecord(19, model), BytesRecord(4, usage), BytesRecord(9, timing)]);
            && BytesAt(1, MessageBytes([BytesRecord(1, wrapped)])) == Some(wrapped)
            && BytesAt(19, wrapped) == Some(model) && BytesAt(4, wrapped) == Some(usage)
              && BytesAt(9, wrapped) == Some(timing)
  {
    hide BytesAt, MessageBytes;
    var records := [BytesRecord(19, model), BytesRecord(4, usage), BytesRecord(9, timing)];
    MessageIsShort(records);
    assert Bound(records) <= 180 + |model| by {
      BoundOfTail(records);
      BoundOfTail(records[1..]);
      BoundOfTail(records[2..]);
    }
    Found(records, 0);
    Found(records, 1);
    Found(records, 2);
    Found([BytesRecord(1, MessageBytes(records))], 0);
  }

  /** Whatever 64-bit counters are written into a blob, reading it gives exactly the billable event when the signed
      range holds every count and the timestamp and some count is positive, and nothing otherwise. */
  lemma GenerationRoundTrip(text: seq<Byte> -> Option<string>, model: seq<Byte>,
                            systemPrompt: nat, input: nat, output: nat, cacheRead: nat, timestamp: nat)
    requires systemPrompt < TWO_TO_THE_64 && input < TWO_TO_THE_64
    requires output < TWO_TO_THE_64 && cacheRead < TWO_TO_THE_64
    requires timestamp < TWO_TO_THE_64 && |model| + 180 < TWO_TO_THE_64
    ensures EventOf(text, EncodeGenerationBlob(model, systemPrompt, input, output, cacheRead, timestamp))
            == if && systemPrompt + input <= I64_MAX && output <= I64_MAX && cacheRead <= I64_MAX
                  && systemPrompt + input + output + cacheRead > 0 && 0 < timestamp <= I64_MAX
               then Some(Event(ModelName(text, Some(model)), systemPrompt + input, output, cacheRead, timestamp))
               else None
  {
    hide VarintAt, BytesAt, MessageBytes, Count, Inner;
    CountsOf(systemPrompt, input, output, cacheRead);
    ClockOf(timestamp);
    var usage := MessageBytes(Usage(systemPrompt, input, output, cacheRead));
    var timing := MessageBytes([BytesRecord(4, MessageBytes([VarintRecord(1, timestamp)]))]);
    WrappedOf(model, usage, timing);
    Follow(EncodeGenerationBlob(model, systemPrompt, input, output, cacheRead, timestamp));
  }

  // ----- any message -----

  predicate Written(records: seq<Record>) {
    forall i :: 0 <= i < |records| ==> WellFormed(records[i])
  }

  /** The first record with the number holds this message. */
  predicate Holds(records: seq<Record>, number: nat, inner: seq<Record>) {
    FirstValue(number, records) == Some(BytesValue(MessageBytes(inner)))
  }

  /** A counter that is absent, or no varint, is zero. */
  function CountIn(number: nat, records: seq<Record>): nat {
    if FirstValue(number, records).Some? && FirstValue(number, records).value.VarintValue? then
      FirstValue(number, records).value.value
    else 0
  }

  /** A blob of well-formed messages, whatever else they hold, is read as the event in its usage and timing messages,
      with absent counters as zero and an absent, unreadable or empty name as unknown; it is read as nothing if a count
      leaves the signed range, all counts are zero, or there is no positive timestamp. */
  lemma EventOfMessages(text: seq<Byte> -> Option<string>, blob: seq<Record>, wrapped: seq<Record>, usage: seq<Record>,
                        timing: seq<Record>, clock: seq<Record>)
    requires Written(blob) && Written(wrapped) && Written(usage) && Written(timing) && Written(clock)
    requires Holds(blob, 1, wrapped) && Holds(wrapped, 4, usage) && Holds(wrapped, 9, timing) && Holds(timing, 4, clock)
    ensures var billable := CountIn(1, usage) + CountIn(2, usage);
            var output, cacheRead, time := CountIn(3, usage), CountIn(5, usage), CountIn(1, clock);
            var name := FirstValue(19, wrapped);
            var known := name.Some? && name.value.BytesValue? && text(name.value.data).Some?
                         && text(name.value.data).value != "";
            EventOf(text, MessageBytes(blob)) ==
              if || billable > 9223372036854775807 || output > 9223372036854775807 || cacheRead > 9223372036854775807
                 || (billable == 0 && output == 0 && cacheRead == 0) || time == 0 || time > 9223372036854775807
              then None
              else
                var model := if known then text(name.value.data).value else "Unknown Antigravity Model";
                Some(Event(model, billable, output, cacheRead, time))
  {
    hide MessageBytes, Inner, Records, FirstValue, WellFormed;
    FieldOfMessage(blob, 1);
    FieldOfMessage(wrapped, 4);
    FieldOfMessage(wrapped, 9);
    FieldOfMessage(wrapped, 19);
    FieldOfMessage(timing, 4);
    FieldOfMessage(clock, 1);
    FieldOfMessage(usage, 1);
    FieldOfMessage(usage, 2);
    FieldOfMessage(usage, 3);
    FieldOfMessage(usage, 5);
    Follow(MessageBytes(blob));
  }

  /** Without one of these messages there is no event. */
  lemma MissingMessage(text: seq<Byte> -> Option<string>, blob: seq<Record>, wrapped: seq<Record>, timing: seq<Record>)
    requires Written(blob) && Written(wrapped) && Written(timing)
    ensures !IsBytes(FirstValue(1, blob)) ==> EventOf(text, MessageBytes(blob)) == None
    ensures Holds(blob, 1, wrapped) && !(IsBytes(FirstValue(4, wrapped)) && IsBytes(FirstValue(9, wrapped))) ==>
              EventOf(text, MessageBytes(blob)) == None
    ensures Holds(blob, 1, wrapped) && Holds(wrapped, 9, timing) && !IsBytes(FirstValue(4, timing)) ==>
              EventOf(text, MessageBytes(blob)) == None
  {
    hide MessageBytes, Inner, Records, FirstValue, WellFormed;
    FieldOfMessage(blob, 1);
    FieldOfMessage(wrapped, 4);
    FieldOfMessage(wrapped, 9);
    FieldOfMessage(timing, 4);
    Follow(MessageBytes(blob));
  }

  predicate IsBytes(value: Option<WireValue>) {
    value.Some? && value.value.BytesValue?
  }
}
