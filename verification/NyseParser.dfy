/** `nyse::Parser::ParseNext`: one line to at most one message. */
module NyseParser {
  import opened Words
  import opened Csv
  import opened Numbers
  import opened Schema
  import opened Messages
  import opened PerSymbol
  import opened BboValidation
  import Q = MessageQueue
  import S = Sequence

  // ----- the wire layouts -----

  const U8 := Leaf(Required(UnsignedKind(0x100)))
  const U64 := Leaf(Required(UnsignedKind(0x1_0000_0000_0000_0000)))
  const PRICE := Leaf(Required(PriceKind))
  const CHAR := Leaf(Required(CharKind))
  const TEXT := Leaf(Required(TextKind))
  const OPT_U64 := Leaf(Optional(UnsignedKind(0x1_0000_0000_0000_0000)))
  const OPT_PRICE := Leaf(Optional(PriceKind))
  const OPT_CHAR := Leaf(Optional(CharKind))

  const MESSAGE_HEADER := Struct([U8, U64])
  const PER_SYMBOL_HEADER := Struct([MESSAGE_HEADER, Leaf(Required(TimeKind)), TEXT, U64])

  /** The layout behind the header a message type starts with. */
  function LayoutOf(msgType: nat): Option<(Schema, seq<Schema>)> {
    match msgType
    case 3 => Some((MESSAGE_HEADER, [TEXT, U8, U8, CHAR, CHAR, U64, PRICE, U64, U8, CHAR, PRICE, U8]))
    case 34 => Some((PER_SYMBOL_HEADER,
                     [CHAR, OPT_CHAR, OPT_PRICE, OPT_PRICE, OPT_CHAR, OPT_U64, OPT_U64, OPT_CHAR, OPT_CHAR]))
    case 100 => Some((PER_SYMBOL_HEADER, [U64, PRICE, U64, CHAR, TEXT, OPT_U64]))
    case 101 => Some((PER_SYMBOL_HEADER, [U64, PRICE, U64, OPT_U64, CHAR, OPT_U64]))
    case 102 => Some((PER_SYMBOL_HEADER, [U64, OPT_U64]))
    case 103 => Some((PER_SYMBOL_HEADER,
                      [U64, U64, PRICE, U64, U8, OPT_U64, OPT_CHAR, OPT_CHAR, OPT_CHAR, OPT_CHAR]))
    case 104 => Some((PER_SYMBOL_HEADER, [U64, U64, PRICE, U64, CHAR, OPT_U64]))
    case 105 => Some((PER_SYMBOL_HEADER,
                      [PRICE, U64, U64, U64, U64, CHAR, CHAR, PRICE, PRICE, PRICE, PRICE, PRICE, PRICE, U8, U8, U64, U64,
                       CHAR, CHAR]))
    case 106 => Some((PER_SYMBOL_HEADER, [U64, PRICE, U64, CHAR, TEXT, OPT_U64]))
    case 110 => Some((PER_SYMBOL_HEADER, [U64, PRICE, U64, U8, OPT_CHAR, OPT_CHAR, OPT_CHAR, OPT_CHAR]))
    case 111 => Some((PER_SYMBOL_HEADER, [U64, PRICE, U64, CHAR]))
    case 112 => Some((PER_SYMBOL_HEADER, [U64]))
    case 113 => Some((PER_SYMBOL_HEADER, [U64, U64]))
    case 114 => Some((PER_SYMBOL_HEADER, [OPT_CHAR]))
    case _ => None
  }

  function SchemaOf(msgType: nat): Option<Schema> {
    var l := LayoutOf(msgType);
    if l.None? then None else Some(Struct([l.value.0] + l.value.1))
  }

  // ----- from a decoded row to the public message -----

  function NumberAt(row: seq<Option<Scalar>>, i: nat): u64 {
    if i < |row| && row[i].Some? && row[i].value.Unsigned? then Wrap(row[i].value.n) else 0
  }

  function PriceAt(row: seq<Option<Scalar>>, i: nat): Price {
    if i < |row| && row[i].Some? && row[i].value.Decimal? then row[i].value.price else 0
  }

  function CharAt(row: seq<Option<Scalar>>, i: nat): Option<char> {
    if i < |row| && row[i].Some? && row[i].value.Char? then Some(row[i].value.c) else None
  }

  function TextAt(row: seq<Option<Scalar>>, i: nat): string {
    if i < |row| && row[i].Some? && row[i].value.Text? then row[i].value.text else ""
  }

  function TimeAt(row: seq<Option<Scalar>>, i: nat): u64 {
    if i < |row| && row[i].Some? && row[i].value.Time? then Wrap(row[i].value.nanos) else 0
  }

  /** The public message of a decoded wire message; the records that are only stored whole are
      represented by their line. */
  function BodyOf(msgType: nat, row: seq<Option<Scalar>>, line: string): Body {
    match msgType
    case 3 => SymbolIndexMapping(line)
    case 34 => SecurityStatus(CharAt(row, 5).GetOr(' '))
    case 100 => AddOrder(NumberAt(row, 5), PriceAt(row, 6), NumberAt(row, 7), CharAt(row, 8).GetOr(' '))
    case 101 => ModifyOrder(NumberAt(row, 5), PriceAt(row, 6), NumberAt(row, 7), CharAt(row, 9).GetOr(' '))
    case 102 => DeleteOrder(NumberAt(row, 5))
    case 103 => OrderExecution(NumberAt(row, 5), NumberAt(row, 6), PriceAt(row, 7), NumberAt(row, 8))
    case 104 =>
      ReplaceOrder(NumberAt(row, 5), NumberAt(row, 6), PriceAt(row, 7), NumberAt(row, 8), CharAt(row, 9).GetOr(' '))
    case 106 => AddOrderRefresh(NumberAt(row, 5), PriceAt(row, 6), NumberAt(row, 7), CharAt(row, 8).GetOr(' '))
    case 110 => NonDisplayedTrade(NumberAt(row, 5), PriceAt(row, 6), NumberAt(row, 7))
    case 111 => CrossTrade(NumberAt(row, 5), PriceAt(row, 6), NumberAt(row, 7))
    case 112 => TradeCancel(NumberAt(row, 5))
    case 113 => CrossCorrection(NumberAt(row, 5), NumberAt(row, 6))
    case 114 => RetailPriceImprovement(CharAt(row, 5))
    case _ => Imbalance(line)
  }

  function EventOf(msgType: nat, row: seq<Option<Scalar>>, line: string): Event {
    if msgType == 3 then Event(0, Message(TextAt(row, 2), BodyOf(3, row, line)))
    else Event(TimeAt(row, 2), Message(TextAt(row, 3), BodyOf(msgType, row, line)))
  }

  // ----- one line -----

  datatype ParseError = NoError | UnknownMsgType | MessageDecode

  /** What a line comes to: the error, the header recorded, the message emitted. */
  datatype Outcome = Outcome(error: ParseError, recorded: Option<S.Header>, emitted: Option<Event>)

  function HeaderOf(codec: PriceCodec, fields: seq<string>): Result<S.Header> {
    var v :- Populate(codec, fields, MESSAGE_HEADER, 0);
    Ok(S.Header(NumberAt(Flat(v), 0), NumberAt(Flat(v), 1)))
  }

  /** The switch over the message types: the error, and the message emitted. */
  datatype Dispatched = Dispatched(error: ParseError, emitted: Option<Event>)

  function Dispatch(codec: PriceCodec, line: string, msgType: nat): Dispatched {
    var schema := SchemaOf(msgType);
    if schema.None? then
      Dispatched(UnknownMsgType, None)
    else
      match Populate(codec, Split(line), schema.value, 0)
      case Error(_, _) => Dispatched(MessageDecode, None)
      case Ok(v) => Dispatched(NoError, Some(EventOf(msgType, Flat(v), line)))
  }

  /** The header that is recorded, if it decodes. */
  function Recorded(header: Result<S.Header>): Option<S.Header> {
    if header.Ok? then Some(header.value) else None
  }

  function Parse(codec: PriceCodec, line: string): Outcome {
    var header := HeaderOf(codec, Split(line));
    var d := if header.Ok? then Dispatch(codec, line, header.value.msgType) else Dispatched(MessageDecode, None);
    Outcome(d.error, Recorded(header), d.emitted)
  }

  function RecordedAfter(r: S.Recording, recorded: Option<S.Header>): S.Recording {
    match recorded
    case None => r
    case Some(h) => S.RecordHeader(r, h)
  }

  class Parser {
    const codec: PriceCodec
    const recorder: S.IntegrityRecorder
    const queue: Q.MessageQueue<Event>

    ghost predicate Valid()
      reads this, recorder
    {
      recorder.Valid()
    }

    constructor (codec: PriceCodec, queue: Q.MessageQueue<Event>)
      ensures Valid() && this.codec == codec && this.queue == queue
      ensures fresh(recorder) && fresh(recorder.msgTypeCounts) && recorder.Value() == S.NothingRecorded()
    {
      this.codec, this.queue := codec, queue;
      recorder := new S.IntegrityRecorder();
    }

    /** Records the sequence number of every line with a header, and emits exactly one message for
        a line that decodes and none otherwise. */
    method ParseNext(line: string) returns (error: ParseError)
      requires Valid()
      modifies recorder, recorder.msgTypeCounts, queue
      ensures Valid() && (old(queue.Valid()) ==> queue.Valid())
      ensures var o := Parse(codec, line);
              && error == o.error
              && queue.queue == old(queue.queue) + (if o.emitted.Some? then [o.emitted.value] else [])
              && queue.closed == old(queue.closed)
              && recorder.Value() == RecordedAfter(old(recorder.Value()), o.recorded)
    {
      var reader := new CsvReader(line);
      var header := RecordHeader(reader);
      if header.Error? {
        return MessageDecode;
      }
      error := DispatchType(reader, header.value.msgType);
    }

    method RecordHeader(reader: CsvReader) returns (header: Result<S.Header>)
      requires Valid() && reader.Valid()
      modifies reader, recorder, recorder.msgTypeCounts
      ensures Valid() && reader.Valid()
      ensures header == HeaderOf(codec, Split(reader.line))
      ensures recorder.Value() == RecordedAfter(old(recorder.Value()), Recorded(header))
    {
      header := ReadHeader(reader);
      if header.Ok? {
        Record(header.value);
      }
    }

    method Record(header: S.Header)
      requires Valid() && header.msgType < 0x100
      modifies recorder, recorder.msgTypeCounts
      ensures Valid()
      ensures recorder.Value() == S.RecordHeader(old(recorder.Value()), header)
    {
      recorder.RecordSequence(header.msgType, header.sequenceNumber);
    }

    method ReadHeader(reader: CsvReader) returns (header: Result<S.Header>)
      requires reader.Valid()
      modifies reader
      ensures reader.Valid()
      ensures header == HeaderOf(codec, Split(reader.line))
      ensures header.Ok? ==> header.value.msgType < 0x100
    {
      var v := PopulateFrom(codec, reader, MESSAGE_HEADER, 0);
      if v.Error? {
        return Error(v.kind, v.fieldIndex);
      }
      HeaderInRange(codec, Split(reader.line));
      header := Ok(S.Header(NumberAt(Flat(v.value), 0), NumberAt(Flat(v.value), 1)));
    }

    method DispatchType(reader: CsvReader, msgType: nat) returns (error: ParseError)
      requires reader.Valid()
      modifies reader, queue
      ensures var d := Dispatch(codec, reader.line, msgType);
              && error == d.error
              && queue.queue == old(queue.queue) + (if d.emitted.Some? then [d.emitted.value] else [])
              && queue.closed == old(queue.closed)
              && (old(queue.Valid()) ==> queue.Valid())
    {
      var schema := SchemaOf(msgType);
      if schema.None? {
        return UnknownMsgType;
      }
      var v := PopulateFrom(codec, reader, schema.value, 0);
      if v.Error? {
        return MessageDecode;
      }
      queue.Push(EventOf(msgType, Flat(v.value), reader.line));
      return NoError;
    }
  }

  // ----- what a line comes to -----

  lemma {:induction false} LeavesOfLeaves(members: seq<Schema>)
    requires forall m :: m in members ==> m.Leaf?
    ensures |AllLeaves(members)| == |members|
    ensures forall i :: 0 <= i < |members| ==> AllLeaves(members)[i] == members[i].field
  {
    if members != [] {
      assert members[0] in members;
      LeavesOfLeaves(members[1..]);
    }
  }

  lemma HeaderLeaves()
    ensures Leaves(MESSAGE_HEADER) == [U8.field, U64.field]
  {
    LeavesOfLeaves([U8, U64]);
  }

  /** A header that decodes has a one-byte type and a 64-bit number. */
  lemma HeaderInRange(codec: PriceCodec, fields: seq<string>)
    requires Populate(codec, fields, MESSAGE_HEADER, 0).Ok?
    ensures var row := Flat(Populate(codec, fields, MESSAGE_HEADER, 0).value);
            && |row| == 2 && row[0].Some? && row[0].value.Unsigned? && row[0].value.n < 0x100
            && row[1].Some? && row[1].value.Unsigned? && row[1].value.n < TWO64
            && NumberAt(row, 0) == row[0].value.n && NumberAt(row, 1) == row[1].value.n
  {
    var row := Flat(Populate(codec, fields, MESSAGE_HEADER, 0).value);
    PopulateReadsRow(codec, fields, MESSAGE_HEADER, 0);
    HeaderLeaves();
    DecodeRowIff(codec, fields, Leaves(MESSAGE_HEADER), 0, row);
    assert PopulateField(codec, fields, U8.field, 0 + 0) == Ok(row[0]);
    assert PopulateField(codec, fields, U64.field, 0 + 1) == Ok(row[1]);
    UnsignedInRange(fields[0], 0x100);
    UnsignedInRange(fields[1], TWO64);
  }

  /** One message per success and none otherwise; a sequence number is recorded for every line
      but those whose header does not decode. */
  lemma OneEmitPerSuccess(codec: PriceCodec, line: string)
    ensures var o := Parse(codec, line);
            && (o.emitted.Some? <==> o.error.NoError?)
            && (o.recorded.Some? <==> Populate(codec, Split(line), MESSAGE_HEADER, 0).Ok?)
            && (o.recorded.None? ==> o.error.MessageDecode?)
            && (o.recorded.Some? ==> (o.error.UnknownMsgType? <==> LayoutOf(o.recorded.value.msgType).None?))
  {
  }

  /** The header of a line: a one-byte type and a 64-bit sequence number. */
  predicate HasHeader(fields: seq<string>) {
    |fields| >= 2 && IsNumeral(fields[0], 0x100) && IsNumeral(fields[1], 0x1_0000_0000_0000_0000)
  }

  lemma HeaderIff(codec: PriceCodec, fields: seq<string>)
    ensures HeaderOf(codec, fields).Ok? <==> HasHeader(fields)
    ensures HasHeader(fields) ==> HeaderOf(codec, fields) == Ok(S.Header(NumberOf(fields[0]), NumberOf(fields[1])))
  {
    PopulateOkIff(codec, fields, MESSAGE_HEADER, 0);
    HeaderLeaves();
    var leaves := [U8.field, U64.field];
    assert AllAccepted(codec, fields, leaves, 0) <==>
             Accepted(codec, fields, leaves[0], 0 + 0) && Accepted(codec, fields, leaves[1], 0 + 1);
    if HasHeader(fields) {
      HeaderInRange(codec, fields);
      HeaderReads(codec, fields);
    }
  }

  lemma HeaderReads(codec: PriceCodec, fields: seq<string>)
    requires HasHeader(fields) && Populate(codec, fields, MESSAGE_HEADER, 0).Ok?
    ensures var row := Flat(Populate(codec, fields, MESSAGE_HEADER, 0).value);
            |row| == 2 && row[0] == Some(Unsigned(NumberOf(fields[0]))) && row[1] == Some(Unsigned(NumberOf(fields[1])))
  {
    var row := Flat(Populate(codec, fields, MESSAGE_HEADER, 0).value);
    PopulateReadsRow(codec, fields, MESSAGE_HEADER, 0);
    HeaderLeaves();
    DecodeRowIff(codec, fields, [U8.field, U64.field], 0, row);
    assert PopulateField(codec, fields, U8.field, 0 + 0) == Ok(row[0]);
    assert PopulateField(codec, fields, U64.field, 0 + 1) == Ok(row[1]);
    PopulateFieldIff(codec, fields, U8.field, 0);
    PopulateFieldIff(codec, fields, U64.field, 1);
  }

  /** Every field of the layout of a message type is accepted. */
  predicate FieldsAccepted(codec: PriceCodec, fields: seq<string>, msgType: nat) {
    SchemaOf(msgType).Some? && AllAccepted(codec, fields, Leaves(SchemaOf(msgType).value), 0)
  }

  /** Exactly which lines parse, what is recorded of a line, and with which error the others fail. */
  lemma ParseIff(codec: PriceCodec, line: string)
    ensures var fields, o := Split(line), Parse(codec, line);
            && (HasHeader(fields) ==> o.recorded == Some(S.Header(NumberOf(fields[0]), NumberOf(fields[1]))))
            && (!HasHeader(fields) ==> o.recorded.None?)
            && (o.error.NoError? <==> HasHeader(fields) && FieldsAccepted(codec, fields, NumberOf(fields[0])))
            && (o.error.UnknownMsgType? <==> HasHeader(fields) && SchemaOf(NumberOf(fields[0])).None?)
            && (o.emitted.Some? <==> o.error.NoError?)
  {
    var fields := Split(line);
    HeaderIff(codec, fields);
    if HasHeader(fields) && SchemaOf(NumberOf(fields[0])).Some? {
      PopulateOkIff(codec, fields, SchemaOf(NumberOf(fields[0])).value, 0);
    }
  }

  lemma LeavesOfStruct(first: Schema, rest: seq<Schema>)
    ensures Leaves(Struct([first] + rest)) == Leaves(first) + AllLeaves(rest)
  {
    assert ([first] + rest)[1..] == rest;
  }

  /** Every layout starts with the message header. */
  lemma HeaderFirst(msgType: nat)
    requires LayoutOf(msgType).Some?
    ensures var leaves := Leaves(SchemaOf(msgType).value);
            |leaves| >= 2 && leaves[0] == U8.field && leaves[1] == U64.field
  {
    var l := LayoutOf(msgType).value;
    HeaderLeaves();
    LeavesOfStruct(l.0, l.1);
    LeavesOfStruct(MESSAGE_HEADER, [Leaf(Required(TimeKind)), TEXT, U64]);
    assert [MESSAGE_HEADER] + [Leaf(Required(TimeKind)), TEXT, U64] == PER_SYMBOL_HEADER.members;
  }

  /** A line that carries a row of its message type, with whatever behind it, is recorded under its
      own sequence number and emits the message of that row. */
  lemma ParseEncoded(codec: PriceCodec, msgType: nat, row: seq<Option<Scalar>>, extra: seq<string>)
    requires ValidCodec(codec) && SchemaOf(msgType).Some?
    requires var leaves := Leaves(SchemaOf(msgType).value); Typed(leaves, row) && AllCarried(leaves, row)
    requires |row| > 1 && row[0] == Some(Unsigned(msgType))
    ensures Encode(codec, row) + extra != []
    ensures var line := Join(Encode(codec, row) + extra);
            Parse(codec, line) ==
            Outcome(NoError, Some(S.Header(msgType, NumberAt(row, 1))), Some(EventOf(msgType, row, line)))
  {
    EncodeAt(codec, row);
    var line := Join(Encode(codec, row) + extra);
    var fields, schema := Split(line), SchemaOf(msgType).value;
    RowRoundTripIff(codec, Leaves(schema), row, extra);
    PopulateReadsRow(codec, fields, schema, 0);
    HeaderDecodes(codec, fields, msgType, row);
  }

  /** The header of a row that decodes decodes to the row's first two leaves. */
  lemma HeaderDecodes(codec: PriceCodec, fields: seq<string>, msgType: nat, row: seq<Option<Scalar>>)
    requires SchemaOf(msgType).Some? && |row| > 1 && row[0] == Some(Unsigned(msgType))
    requires DecodeRow(codec, fields, Leaves(SchemaOf(msgType).value), 0) == Ok(row)
    ensures HeaderOf(codec, fields) == Ok(S.Header(msgType, NumberAt(row, 1)))
  {
    var leaves := Leaves(SchemaOf(msgType).value);
    HeaderFirst(msgType);
    HeaderLeaves();
    DecodeRowIff(codec, fields, leaves, 0, row);
    assert PopulateField(codec, fields, leaves[0], 0 + 0) == Ok(row[0]);
    assert PopulateField(codec, fields, leaves[1], 0 + 1) == Ok(row[1]);
    DecodeRowIff(codec, fields, [U8.field, U64.field], 0, row[..2]);
    PopulateReadsRow(codec, fields, MESSAGE_HEADER, 0);
  }

  // ----- public messages through their wire rows -----

  /** The public message keeps fields of its line, not the line as a whole. */
  predicate KeepsFields(m: Body) {
    !m.SymbolIndexMapping? && !m.Imbalance?
  }

  function WireType(m: Body): nat
    requires KeepsFields(m)
  {
    match m
    case SecurityStatus(_) => 34
    case AddOrder(_, _, _, _) => 100
    case ModifyOrder(_, _, _, _) => 101
    case DeleteOrder(_) => 102
    case OrderExecution(_, _, _, _) => 103
    case ReplaceOrder(_, _, _, _, _) => 104
    case AddOrderRefresh(_, _, _, _) => 106
    case NonDisplayedTrade(_, _, _) => 110
    case CrossTrade(_, _, _) => 111
    case TradeCancel(_) => 112
    case CrossCorrection(_, _) => 113
    case RetailPriceImprovement(_) => 114
  }

  /** The values on a line that the model's message drops; `WireTail` says which type carries which. */
  datatype Dropped = Dropped(
    firm: string, printableFlag: u8, crossType: char,
    number1: Option<u64>, number2: Option<u64>, price1: Option<Price>, price2: Option<Price>,
    code1: Option<char>, code2: Option<char>, code3: Option<char>, code4: Option<char>)

  function N(n: u64): Option<Scalar> {
    Some(Unsigned(n))
  }

  function P(p: Price): Option<Scalar> {
    Some(Decimal(p))
  }

  function C(c: char): Option<Scalar> {
    Some(Char(c))
  }

  function OptN(n: Option<u64>): Option<Scalar> {
    if n.None? then None else N(n.value)
  }

  function OptP(p: Option<Price>): Option<Scalar> {
    if p.None? then None else P(p.value)
  }

  function OptC(c: Option<char>): Option<Scalar> {
    if c.None? then None else C(c.value)
  }

  /** What follows the header on the wire. */
  function WireTail(m: Body, x: Dropped): seq<Option<Scalar>>
    requires KeepsFields(m)
  {
    match m
    case SecurityStatus(status) =>
      [C(status), OptC(x.code1), OptP(x.price1), OptP(x.price2), OptC(x.code2), OptN(x.number1), OptN(x.number2),
       OptC(x.code3), OptC(x.code4)]
    case AddOrder(id, p, v, side) => [N(id), P(p), N(v), C(side), Some(Text(x.firm)), OptN(x.number1)]
    case ModifyOrder(id, p, v, side) => [N(id), P(p), N(v), OptN(x.number1), C(side), OptN(x.number2)]
    case DeleteOrder(id) => [N(id), OptN(x.number1)]
    case OrderExecution(id, tradeId, p, v) =>
      [N(id), N(tradeId), P(p), N(v), N(x.printableFlag), OptN(x.number1),
       OptC(x.code1), OptC(x.code2), OptC(x.code3), OptC(x.code4)]
    case ReplaceOrder(id, newId, p, v, side) => [N(id), N(newId), P(p), N(v), C(side), OptN(x.number1)]
    case AddOrderRefresh(id, p, v, side) => [N(id), P(p), N(v), C(side), Some(Text(x.firm)), OptN(x.number1)]
    case NonDisplayedTrade(tradeId, p, v) =>
      [N(tradeId), P(p), N(v), N(x.printableFlag), OptC(x.code1), OptC(x.code2), OptC(x.code3), OptC(x.code4)]
    case CrossTrade(crossId, p, v) => [N(crossId), P(p), N(v), C(x.crossType)]
    case TradeCancel(tradeId) => [N(tradeId)]
    case CrossCorrection(crossId, v) => [N(crossId), N(v)]
    case RetailPriceImprovement(indicator) => [OptC(indicator)]
  }

  function WireHead(msgType: nat, sequenceNumber: u64, e: Event, symbolSeqNum: u64): seq<Option<Scalar>> {
    [Some(Unsigned(msgType)), N(sequenceNumber), Some(Time(e.nanosSinceMidnight)), Some(Text(e.msg.symbol)), N(symbolSeqNum)]
  }

  function WireRow(e: Event, x: Dropped, sequenceNumber: u64, symbolSeqNum: u64): seq<Option<Scalar>>
    requires KeepsFields(e.msg.body)
  {
    WireHead(WireType(e.msg.body), sequenceNumber, e, symbolSeqNum) + WireTail(e.msg.body, x)
  }

  predicate NotComma(c: Option<char>) {
    c != Some(',')
  }

  /** The only values a line cannot carry: a comma in a text or as a code, and 100 hours or more. */
  predicate Travels(e: Event, x: Dropped) {
    && CommaFree(e.msg.symbol)
    && Printable(e.nanosSinceMidnight)
    && CodesTravel(e.msg.body)
    && Travelling(x)
  }

  predicate Travelling(x: Dropped) {
    && CommaFree(x.firm)
    && x.crossType != ','
    && NotComma(x.code1) && NotComma(x.code2) && NotComma(x.code3) && NotComma(x.code4)
  }

  predicate CodesTravel(m: Body) {
    match m
    case SecurityStatus(status) => status != ','
    case AddOrder(_, _, _, side) => side != ','
    case ModifyOrder(_, _, _, side) => side != ','
    case ReplaceOrder(_, _, _, _, side) => side != ','
    case AddOrderRefresh(_, _, _, side) => side != ','
    case RetailPriceImprovement(indicator) => NotComma(indicator)
    case _ => true
  }

  lemma PerSymbolHeaderLeaves()
    ensures Leaves(PER_SYMBOL_HEADER) == [U8.field, U64.field, Required(TimeKind), TEXT.field, U64.field]
  {
    HeaderLeaves();
    LeavesOfStruct(MESSAGE_HEADER, [Leaf(Required(TimeKind)), TEXT, U64]);
    assert [MESSAGE_HEADER] + [Leaf(Required(TimeKind)), TEXT, U64] == PER_SYMBOL_HEADER.members;
    LeavesOfLeaves([Leaf(Required(TimeKind)), TEXT, U64]);
  }

  /** A value fits a leaf, and its text carries it. */
  predicate Fits(member: Schema, x: Option<Scalar>) {
    member.Leaf? && TypedField(member.field, x) && Carried(member.field, x)
  }

  predicate FitsLeaves(members: seq<Schema>, row: seq<Option<Scalar>>) {
    |members| == |row| && forall i :: 0 <= i < |row| ==> Fits(members[i], row[i])
  }

  lemma OptionalsFit(x: Dropped)
    requires NotComma(x.code1) && NotComma(x.code2) && NotComma(x.code3) && NotComma(x.code4)
    ensures Fits(OPT_U64, OptN(x.number1)) && Fits(OPT_U64, OptN(x.number2))
    ensures Fits(OPT_PRICE, OptP(x.price1)) && Fits(OPT_PRICE, OptP(x.price2))
    ensures Fits(OPT_CHAR, OptC(x.code1)) && Fits(OPT_CHAR, OptC(x.code2))
    ensures Fits(OPT_CHAR, OptC(x.code3)) && Fits(OPT_CHAR, OptC(x.code4))
  {
  }

  /** The layout of a message type behind the per-symbol header. */
  function TailOf(msgType: nat): seq<Schema> {
    if LayoutOf(msgType).Some? then LayoutOf(msgType).value.1 else []
  }

  lemma OrderTailFits(m: Body, x: Dropped)
    requires m.AddOrder? || m.AddOrderRefresh? || m.ModifyOrder? || m.ReplaceOrder? || m.DeleteOrder?
    requires CodesTravel(m) && Travelling(x)
    ensures FitsLeaves(TailOf(WireType(m)), WireTail(m, x))
  {
    OptionalsFit(x);
    match m
    case AddOrder(_, _, _, _) =>
    case ModifyOrder(_, _, _, _) =>
    case ReplaceOrder(_, _, _, _, _) =>
    case AddOrderRefresh(_, _, _, _) =>
    case DeleteOrder(_) =>
  }

  lemma ExecutionTailFits(m: Body, x: Dropped)
    requires m.OrderExecution? && Travelling(x)
    ensures FitsLeaves(TailOf(WireType(m)), WireTail(m, x))
  {
    OptionalsFit(x);
  }

  lemma TradeTailFits(m: Body, x: Dropped)
    requires m.NonDisplayedTrade? || m.CrossTrade? || m.TradeCancel? || m.CrossCorrection?
    requires Travelling(x)
    ensures FitsLeaves(TailOf(WireType(m)), WireTail(m, x))
  {
    OptionalsFit(x);
    match m
    case NonDisplayedTrade(_, _, _) =>
    case CrossTrade(_, _, _) =>
    case TradeCancel(_) =>
    case CrossCorrection(_, _) =>
  }

  lemma StatusTailFits(m: Body, x: Dropped)
    requires (m.SecurityStatus? || m.RetailPriceImprovement?) && CodesTravel(m) && Travelling(x)
    ensures FitsLeaves(TailOf(WireType(m)), WireTail(m, x))
  {
    OptionalsFit(x);
  }

  lemma TailFits(m: Body, x: Dropped)
    requires KeepsFields(m) && CodesTravel(m) && Travelling(x)
    ensures LayoutOf(WireType(m)).Some? && LayoutOf(WireType(m)).value.0 == PER_SYMBOL_HEADER
    ensures FitsLeaves(LayoutOf(WireType(m)).value.1, WireTail(m, x))
  {
    if m.SecurityStatus? || m.RetailPriceImprovement? {
      StatusTailFits(m, x);
    } else if m.AddOrder? || m.AddOrderRefresh? || m.ModifyOrder? || m.ReplaceOrder? || m.DeleteOrder? {
      OrderTailFits(m, x);
    } else if m.OrderExecution? {
      ExecutionTailFits(m, x);
    } else {
      TradeTailFits(m, x);
    }
  }

  lemma HeadFits(msgType: nat, sequenceNumber: u64, e: Event, symbolSeqNum: u64)
    requires msgType < 0x100 && CommaFree(e.msg.symbol) && Printable(e.nanosSinceMidnight)
    ensures FitsLeaves([U8, U64, Leaf(Required(TimeKind)), TEXT, U64], WireHead(msgType, sequenceNumber, e, symbolSeqNum))
  {
  }

  /** Two rows that fit, one behind the other. */
  lemma FitsAppend(head: seq<Schema>, tail: seq<Schema>, row: seq<Option<Scalar>>, rest: seq<Option<Scalar>>)
    requires FitsLeaves(head, row) && FitsLeaves(tail, rest)
    ensures var leaves := AllLeaves(head) + AllLeaves(tail); Typed(leaves, row + rest) && AllCarried(leaves, row + rest)
  {
    forall m | m in head ensures m.Leaf? {
      var i :| 0 <= i < |head| && head[i] == m;
      assert Fits(head[i], row[i]);
    }
    forall m | m in tail ensures m.Leaf? {
      var i :| 0 <= i < |tail| && tail[i] == m;
      assert Fits(tail[i], rest[i]);
    }
    LeavesOfLeaves(head);
    LeavesOfLeaves(tail);
  }

  /** A row that fits its header and its tail fits the layout. */
  lemma PerSymbolRowFits(msgType: nat, first: seq<Option<Scalar>>, tail: seq<Option<Scalar>>)
    requires LayoutOf(msgType).Some? && LayoutOf(msgType).value.0 == PER_SYMBOL_HEADER
    requires FitsLeaves([U8, U64, Leaf(Required(TimeKind)), TEXT, U64], first)
    requires FitsLeaves(LayoutOf(msgType).value.1, tail)
    ensures Typed(Leaves(SchemaOf(msgType).value), first + tail)
    ensures AllCarried(Leaves(SchemaOf(msgType).value), first + tail)
  {
    var rest := LayoutOf(msgType).value.1;
    var head := [U8, U64, Leaf(Required(TimeKind)), TEXT, U64];
    FitsAppend(head, rest, first, tail);
    PerSymbolHeaderLeaves();
    LeavesOfLeaves(head);
    assert AllLeaves(head) == Leaves(PER_SYMBOL_HEADER);
    LeavesOfStruct(PER_SYMBOL_HEADER, rest);
  }

  lemma RowFits(e: Event, x: Dropped, sequenceNumber: u64, symbolSeqNum: u64)
    requires KeepsFields(e.msg.body) && Travels(e, x)
    ensures SchemaOf(WireType(e.msg.body)).Some?
    ensures var leaves, row := Leaves(SchemaOf(WireType(e.msg.body)).value), WireRow(e, x, sequenceNumber, symbolSeqNum);
            Typed(leaves, row) && AllCarried(leaves, row)
  {
    var msgType := WireType(e.msg.body);
    TailFits(e.msg.body, x);
    HeadFits(msgType, sequenceNumber, e, symbolSeqNum);
    PerSymbolRowFits(msgType, WireHead(msgType, sequenceNumber, e, symbolSeqNum), WireTail(e.msg.body, x));
  }

  lemma RowReadsBack(e: Event, x: Dropped, sequenceNumber: u64, symbolSeqNum: u64, line: string)
    requires KeepsFields(e.msg.body) && e.nanosSinceMidnight < TWO64
    ensures EventOf(WireType(e.msg.body), WireRow(e, x, sequenceNumber, symbolSeqNum), line) == e
  {
  }

  /** Every message whose public form keeps fields comes out of its line as it went in, whatever the
      other values on the line and whatever fields follow, and its line is recorded under its sequence
      number. */
  lemma MessageRoundTrip(
    codec: PriceCodec, e: Event, x: Dropped, sequenceNumber: u64, symbolSeqNum: u64, extra: seq<string>)
    requires ValidCodec(codec) && KeepsFields(e.msg.body) && Travels(e, x)
    ensures var row := WireRow(e, x, sequenceNumber, symbolSeqNum);
            && Encode(codec, row) + extra != []
            && Parse(codec, Join(Encode(codec, row) + extra)) ==
               Outcome(NoError, Some(S.Header(WireType(e.msg.body), sequenceNumber)), Some(e))
  {
    var row := WireRow(e, x, sequenceNumber, symbolSeqNum);
    RowFits(e, x, sequenceNumber, symbolSeqNum);
    ParseEncoded(codec, WireType(e.msg.body), row, extra);
    RowReadsBack(e, x, sequenceNumber, symbolSeqNum, Join(Encode(codec, row) + extra));
  }

  // ----- the two messages that are kept whole -----

  /** What a Symbol Index Mapping carries beside its symbol. */
  datatype MappingFields = MappingFields(
    marketId: u8, systemId: u8, exchangeCode: char, securityType: char, lotSize: u64, prevClosePrice: Price,
    prevCloseVolume: u64, priceResolution: u8, roundLot: char, mpv: Price, unitOfTrade: u8)

  /** Its 14 leaves. */
  function MappingRow(sequenceNumber: u64, symbol: string, f: MappingFields): seq<Option<Scalar>> {
    [N(3), N(sequenceNumber)] + MappingTail(symbol, f)
  }

  function MappingTail(symbol: string, f: MappingFields): seq<Option<Scalar>> {
    [Some(Text(symbol)), N(f.marketId), N(f.systemId), C(f.exchangeCode), C(f.securityType), N(f.lotSize),
     P(f.prevClosePrice), N(f.prevCloseVolume), N(f.priceResolution), C(f.roundLot), P(f.mpv), N(f.unitOfTrade)]
  }

  lemma MappingTailFits(symbol: string, f: MappingFields)
    requires CommaFree(symbol) && f.exchangeCode != ',' && f.securityType != ',' && f.roundLot != ','
    ensures FitsLeaves(TailOf(3), MappingTail(symbol, f))
  {
  }

  lemma HeaderRowFits(msgType: nat, first: seq<Option<Scalar>>, tail: seq<Option<Scalar>>)
    requires LayoutOf(msgType).Some? && LayoutOf(msgType).value.0 == MESSAGE_HEADER
    requires FitsLeaves([U8, U64], first) && FitsLeaves(LayoutOf(msgType).value.1, tail)
    ensures Typed(Leaves(SchemaOf(msgType).value), first + tail)
    ensures AllCarried(Leaves(SchemaOf(msgType).value), first + tail)
  {
    var rest := LayoutOf(msgType).value.1;
    FitsAppend([U8, U64], rest, first, tail);
    HeaderLeaves();
    LeavesOfLeaves([U8, U64]);
    assert AllLeaves([U8, U64]) == Leaves(MESSAGE_HEADER);
    LeavesOfStruct(MESSAGE_HEADER, rest);
  }

  lemma MappingReads(sequenceNumber: u64, symbol: string, f: MappingFields, line: string)
    ensures EventOf(3, MappingRow(sequenceNumber, symbol, f), line) ==
            Event(0, Message(symbol, SymbolIndexMapping(line)))
    ensures NumberAt(MappingRow(sequenceNumber, symbol, f), 1) == sequenceNumber
  {
  }

  /** A Symbol Index Mapping line emits its line under its own symbol, without a time. */
  lemma MappingRoundTrip(
    codec: PriceCodec, sequenceNumber: u64, symbol: string, f: MappingFields, extra: seq<string>)
    requires ValidCodec(codec)
    requires CommaFree(symbol) && f.exchangeCode != ',' && f.securityType != ',' && f.roundLot != ','
    ensures Encode(codec, MappingRow(sequenceNumber, symbol, f)) + extra != []
    ensures var line := Join(Encode(codec, MappingRow(sequenceNumber, symbol, f)) + extra);
            Parse(codec, line) ==
            Outcome(NoError, Some(S.Header(3, sequenceNumber)), Some(Event(0, Message(symbol, SymbolIndexMapping(line)))))
  {
    var row := MappingRow(sequenceNumber, symbol, f);
    MappingTailFits(symbol, f);
    HeaderRowFits(3, [N(3), N(sequenceNumber)], MappingTail(symbol, f));
    ParseEncoded(codec, 3, row, extra);
    MappingReads(sequenceNumber, symbol, f, Join(Encode(codec, row) + extra));
  }

  /** What an Imbalance carries behind its header. */
  datatype ImbalanceFields = ImbalanceFields(
    referencePrice: Price, pairedQty: u64, totalImbalanceQty: u64, marketImbalanceQty: u64, auctionTime: u64,
    auctionType: char, imbalanceSide: char, continuousBookClearingPrice: Price, auctionInterestClearingPrice: Price,
    ssrFilingPrice: Price, indicativeMatchPrice: Price, upperCollar: Price, lowerCollar: Price, auctionStatus: u8,
    freezeStatus: u8, numExtensions: u64, unpairedQuantity: u64, unpairedSide: char, significantImbalance: char)

  function ImbalanceTail(f: ImbalanceFields): seq<Option<Scalar>> {
    [P(f.referencePrice), N(f.pairedQty), N(f.totalImbalanceQty), N(f.marketImbalanceQty), N(f.auctionTime),
     C(f.auctionType), C(f.imbalanceSide), P(f.continuousBookClearingPrice), P(f.auctionInterestClearingPrice),
     P(f.ssrFilingPrice), P(f.indicativeMatchPrice), P(f.upperCollar), P(f.lowerCollar), N(f.auctionStatus),
     N(f.freezeStatus), N(f.numExtensions), N(f.unpairedQuantity), C(f.unpairedSide), C(f.significantImbalance)]
  }

  /** Its 24 leaves. */
  function ImbalanceRow(
    sequenceNumber: u64, nanos: u64, symbol: string, symbolSeqNum: u64, f: ImbalanceFields): seq<Option<Scalar>>
  {
    [N(105), N(sequenceNumber), Some(Time(nanos)), Some(Text(symbol)), N(symbolSeqNum)] + ImbalanceTail(f)
  }

  predicate ImbalanceTravels(f: ImbalanceFields) {
    f.auctionType != ',' && f.imbalanceSide != ',' && f.unpairedSide != ',' && f.significantImbalance != ','
  }

  lemma ImbalanceTailFits(f: ImbalanceFields)
    requires ImbalanceTravels(f)
    ensures FitsLeaves(TailOf(105), ImbalanceTail(f))
  {
  }

  lemma ImbalanceReads(
    sequenceNumber: u64, nanos: u64, symbol: string, symbolSeqNum: u64, f: ImbalanceFields, line: string)
    ensures EventOf(105, ImbalanceRow(sequenceNumber, nanos, symbol, symbolSeqNum, f), line) ==
            Event(nanos, Message(symbol, Imbalance(line)))
    ensures NumberAt(ImbalanceRow(sequenceNumber, nanos, symbol, symbolSeqNum, f), 1) == sequenceNumber
  {
  }

  /** An Imbalance line emits its line under its own symbol and time. */
  lemma ImbalanceRoundTrip(
    codec: PriceCodec, sequenceNumber: u64, nanos: u64, symbol: string, symbolSeqNum: u64, f: ImbalanceFields,
    extra: seq<string>)
    requires ValidCodec(codec) && CommaFree(symbol) && Printable(nanos) && ImbalanceTravels(f)
    ensures Encode(codec, ImbalanceRow(sequenceNumber, nanos, symbol, symbolSeqNum, f)) + extra != []
    ensures var line := Join(Encode(codec, ImbalanceRow(sequenceNumber, nanos, symbol, symbolSeqNum, f)) + extra);
            Parse(codec, line) ==
            Outcome(NoError, Some(S.Header(105, sequenceNumber)), Some(Event(nanos, Message(symbol, Imbalance(line)))))
  {
    var row := ImbalanceRow(sequenceNumber, nanos, symbol, symbolSeqNum, f);
    var first := WireHead(105, sequenceNumber, Event(nanos, Message(symbol, Imbalance(""))), symbolSeqNum);
    HeadFits(105, sequenceNumber, Event(nanos, Message(symbol, Imbalance(""))), symbolSeqNum);
    ImbalanceTailFits(f);
    PerSymbolRowFits(105, first, ImbalanceTail(f));
    ParseEncoded(codec, 105, row, extra);
    ImbalanceReads(sequenceNumber, nanos, symbol, symbolSeqNum, f, Join(Encode(codec, row) + extra));
  }

  // ----- the flat layouts -----

  const COUNT := Required(UnsignedKind(0x1_0000_0000_0000_0000))
  const SMALL := Required(UnsignedKind(0x100))
  const AMOUNT := Required(PriceKind)
  const CODE := Required(CharKind)
  const NAME := Required(TextKind)
  const OPT_COUNT := Optional(UnsignedKind(0x1_0000_0000_0000_0000))
  const OPT_AMOUNT := Optional(PriceKind)
  const OPT_CODE := Optional(CharKind)

  /** The types of the fields of a line, first to last, for the 14 known message types. */
  function FieldTypes(msgType: nat): seq<FieldType> {
    (if msgType == 3 then [SMALL, COUNT] else [SMALL, COUNT, Required(TimeKind), NAME, COUNT])
    + FieldTypesBehind(msgType)
  }

  function FieldTypesBehind(msgType: nat): seq<FieldType> {
    match msgType
    case 3 => [NAME, SMALL, SMALL, CODE, CODE, COUNT, AMOUNT, COUNT, SMALL, CODE, AMOUNT, SMALL]
    case 34 => [CODE, OPT_CODE, OPT_AMOUNT, OPT_AMOUNT, OPT_CODE, OPT_COUNT, OPT_COUNT, OPT_CODE, OPT_CODE]
    case 100 => [COUNT, AMOUNT, COUNT, CODE, NAME, OPT_COUNT]
    case 101 => [COUNT, AMOUNT, COUNT, OPT_COUNT, CODE, OPT_COUNT]
    case 102 => [COUNT, OPT_COUNT]
    case 103 => [COUNT, COUNT, AMOUNT, COUNT, SMALL, OPT_COUNT, OPT_CODE, OPT_CODE, OPT_CODE, OPT_CODE]
    case 104 => [COUNT, COUNT, AMOUNT, COUNT, CODE, OPT_COUNT]
    case 105 =>
      [AMOUNT, COUNT, COUNT, COUNT, COUNT, CODE, CODE, AMOUNT, AMOUNT, AMOUNT, AMOUNT, AMOUNT, AMOUNT, SMALL, SMALL,
       COUNT, COUNT, CODE, CODE]
    case 106 => [COUNT, AMOUNT, COUNT, CODE, NAME, OPT_COUNT]
    case 110 => [COUNT, AMOUNT, COUNT, SMALL, OPT_CODE, OPT_CODE, OPT_CODE, OPT_CODE]
    case 111 => [COUNT, AMOUNT, COUNT, CODE]
    case 112 => [COUNT]
    case 113 => [COUNT, COUNT]
    case 114 => [OPT_CODE]
    case _ => []
  }

  predicate KnownType(msgType: nat) {
    msgType == 3 || msgType == 34 || 100 <= msgType <= 106 || 110 <= msgType <= 114
  }

  predicate MatchingLeaves(members: seq<Schema>, types: seq<FieldType>) {
    |members| == |types| && forall i :: 0 <= i < |types| ==> members[i] == Leaf(types[i])
  }

  lemma LeavesMatch(members: seq<Schema>, types: seq<FieldType>)
    requires MatchingLeaves(members, types)
    ensures AllLeaves(members) == types
  {
    forall m | m in members ensures m.Leaf? {
      var i :| 0 <= i < |members| && members[i] == m;
    }
    LeavesOfLeaves(members);
  }

  lemma OrderTypesMatch(msgType: nat)
    requires 100 <= msgType <= 104 || msgType == 106
    ensures LayoutOf(msgType).Some? && LayoutOf(msgType).value.0 == PER_SYMBOL_HEADER
    ensures MatchingLeaves(TailOf(msgType), FieldTypesBehind(msgType))
  {
    if msgType == 100 || msgType == 106 {
    } else if msgType == 101 {
    } else if msgType == 102 {
    } else if msgType == 103 {
    } else {
    }
  }

  lemma ImbalanceTypesMatch()
    ensures LayoutOf(105).Some? && LayoutOf(105).value.0 == PER_SYMBOL_HEADER
    ensures MatchingLeaves(TailOf(105), FieldTypesBehind(105))
  {
    var members, types := TailOf(105), FieldTypesBehind(105);
    assert |members| == |types| == 19;
    forall i | 0 <= i < 19 ensures members[i] == Leaf(types[i]) {
      if i < 5 {
      } else if i < 10 {
      } else if i < 15 {
      } else {
      }
    }
  }

  lemma OtherTypesMatch(msgType: nat)
    requires msgType == 34 || 110 <= msgType <= 114
    ensures LayoutOf(msgType).Some? && LayoutOf(msgType).value.0 == PER_SYMBOL_HEADER
    ensures MatchingLeaves(TailOf(msgType), FieldTypesBehind(msgType))
  {
    if msgType == 34 {
    } else if msgType == 110 {
    } else if msgType == 111 {
    } else {
    }
  }

  lemma FlatBehind(msgType: nat, header: Schema, first: seq<FieldType>, rest: seq<FieldType>)
    requires LayoutOf(msgType).Some? && LayoutOf(msgType).value.0 == header
    requires Leaves(header) == first && MatchingLeaves(TailOf(msgType), rest)
    ensures Leaves(SchemaOf(msgType).value) == first + rest
  {
    LeavesMatch(TailOf(msgType), rest);
    LeavesOfStruct(header, TailOf(msgType));
  }

  lemma MappingTypesMatch()
    ensures LayoutOf(3).Some? && LayoutOf(3).value.0 == MESSAGE_HEADER
    ensures MatchingLeaves(TailOf(3), FieldTypesBehind(3))
  {
  }

  lemma MappingIsFlat()
    ensures SchemaOf(3).Some? && Leaves(SchemaOf(3).value) == FieldTypes(3)
  {
    MappingTypesMatch();
    HeaderLeaves();
    FlatBehind(3, MESSAGE_HEADER, [SMALL, COUNT], FieldTypesBehind(3));
  }

  lemma PerSymbolIsFlat(msgType: nat)
    requires msgType != 3 && LayoutOf(msgType).Some? && LayoutOf(msgType).value.0 == PER_SYMBOL_HEADER
    requires MatchingLeaves(TailOf(msgType), FieldTypesBehind(msgType))
    ensures SchemaOf(msgType).Some? && Leaves(SchemaOf(msgType).value) == FieldTypes(msgType)
  {
    PerSymbolHeaderLeaves();
    FlatBehind(
      msgType, PER_SYMBOL_HEADER, [SMALL, COUNT, Required(TimeKind), NAME, COUNT], FieldTypesBehind(msgType));
  }

  lemma UnknownTypes(msgType: nat)
    requires !KnownType(msgType)
    ensures SchemaOf(msgType).None?
  {
  }

  /** The nested layouts, flattened: which types are known, and the type of each field of their lines. */
  lemma LayoutIsFlat(msgType: nat)
    ensures SchemaOf(msgType).Some? <==> KnownType(msgType)
    ensures KnownType(msgType) ==> Leaves(SchemaOf(msgType).value) == FieldTypes(msgType)
  {
    if !KnownType(msgType) {
      UnknownTypes(msgType);
    } else if msgType == 3 {
      MappingIsFlat();
    } else if 100 <= msgType <= 104 || msgType == 106 {
      OrderTypesMatch(msgType);
      PerSymbolIsFlat(msgType);
    } else if msgType == 105 {
      ImbalanceTypesMatch();
      PerSymbolIsFlat(105);
    } else {
      OtherTypesMatch(msgType);
      PerSymbolIsFlat(msgType);
    }
  }

  /** Exactly which lines are decoded without an error: those with a header, a known type, and in each
      position a text that the field type of that position accepts. */
  lemma LineAcceptedIff(codec: PriceCodec, line: string)
    ensures Parse(codec, line).error.NoError? <==>
              var fields := Split(line);
              && HasHeader(fields)
              && KnownType(NumberOf(fields[0]))
              && AllAccepted(codec, fields, FieldTypes(NumberOf(fields[0])), 0)
  {
    ParseIff(codec, line);
    if HasHeader(Split(line)) {
      LayoutIsFlat(NumberOf(Split(line)[0]));
    }
  }
}
