/** Nested message layouts: decoding a line's fields into them, and encoding values back. */
module Schema {
  import opened Words
  import opened Csv
  import opened Numbers

  /** The types of a field.  An unsigned type is given by its first value out of range; prices are
      read by a codec, for their text is a floating-point literal. */
  datatype Kind = CharKind | TextKind | UnsignedKind(bound: nat) | TimeKind | PriceKind

  /** A field that must be there, or one that is published blank when it does not apply. */
  datatype FieldType = Required(kind: Kind) | Optional(kind: Kind)

  datatype Schema = Leaf(field: FieldType) | Struct(members: seq<Schema>)

  datatype Scalar = Char(c: char) | Text(text: string) | Unsigned(n: nat) | Time(nanos: nat) | Decimal(price: Price)

  datatype Value = Field(value: Option<Scalar>) | Record(members: seq<Value>)

  datatype ErrorKind = FieldNotFound | InvalidCharCount | ParseFailure

  datatype Result<+T> = Ok(value: T) | Error(kind: ErrorKind, fieldIndex: nat) {
    predicate IsFailure() {
      Error?
    }

    function PropagateFailure<U>(): Result<U>
      requires Error?
    {
      Error(kind, fieldIndex)
    }

    function Extract(): T
      requires Ok?
    {
      value
    }
  }

  /** A reader of price texts and a printer it undoes. */
  datatype PriceCodec = PriceCodec(parse: string -> Option<Price>, print_: Price -> string)

  ghost predicate ValidCodec(codec: PriceCodec) {
    forall p: Price ::
      && codec.parse(codec.print_(p)) == Some(p)
      && codec.print_(p) != []
      && CommaFree(codec.print_(p))
  }

  // ----- decoding, as the constructors do it -----

  function DecodeScalar(codec: PriceCodec, kind: Kind, text: string, idx: nat): Result<Scalar> {
    match kind
    case CharKind => if |text| == 1 then Ok(Char(text[0])) else Error(InvalidCharCount, idx)
    case TextKind => Ok(Text(text))
    case UnsignedKind(bound) =>
      var r := ParseUnsigned(text, bound);
      if r.Number? then Ok(Unsigned(r.n)) else Error(ParseFailure, idx)
    case TimeKind =>
      var r := ParseTime(text);
      if r.Some? then Ok(Time(r.value)) else Error(ParseFailure, idx)
    case PriceKind =>
      var r := codec.parse(text);
      if r.Some? then Ok(Decimal(r.value)) else Error(ParseFailure, idx)
  }

  function DecodeField(codec: PriceCodec, field: FieldType, text: string, idx: nat): Result<Option<Scalar>> {
    if field.Optional? && text == "" then
      Ok(None)
    else
      var x :- DecodeScalar(codec, field.kind, text, idx);
      Ok(Some(x))
  }

  /** `PopulateField`: field `idx` of the line. */
  function PopulateField(codec: PriceCodec, fields: seq<string>, field: FieldType, idx: nat): Result<Option<Scalar>> {
    if idx < |fields| then DecodeField(codec, field, fields[idx], idx) else Error(FieldNotFound, idx)
  }

  function FieldCount(schema: Schema): nat
    decreases schema, 1
  {
    match schema
    case Leaf(_) => 1
    case Struct(members) => FieldCounts(members)
  }

  function FieldCounts(members: seq<Schema>): nat
    decreases members, 0
  {
    if members == [] then 0 else FieldCount(members[0]) + FieldCounts(members[1..])
  }

  /** `PopulateMember`: a leaf is its field, a struct its members from the offset on. */
  function Populate(codec: PriceCodec, fields: seq<string>, schema: Schema, offset: nat): Result<Value>
    decreases schema, 1
  {
    match schema
    case Leaf(field) =>
      var x :- PopulateField(codec, fields, field, offset);
      Ok(Field(x))
    case Struct(members) =>
      var vs :- PopulateAll(codec, fields, members, offset);
      Ok(Record(vs))
  }

  function PopulateAll(codec: PriceCodec, fields: seq<string>, members: seq<Schema>, offset: nat): Result<seq<Value>>
    decreases members, 0
  {
    if members == [] then
      Ok([])
    else
      var v :- Populate(codec, fields, members[0], offset);
      var vs :- PopulateAll(codec, fields, members[1..], offset + FieldCount(members[0]));
      Ok([v] + vs)
  }

  // ----- the same through the lazy reader -----

  method PopulateFieldFrom(codec: PriceCodec, reader: CsvReader, field: FieldType, idx: nat)
    returns (r: Result<Option<Scalar>>)
    requires reader.Valid()
    modifies reader
    ensures reader.Valid()
    ensures r == PopulateField(codec, Split(reader.line), field, idx)
  {
    var text := reader.GetField(idx);
    if text.None? {
      return Error(FieldNotFound, idx);
    }
    r := DecodeField(codec, field, text.value, idx);
  }

  method PopulateFrom(codec: PriceCodec, reader: CsvReader, schema: Schema, offset: nat) returns (r: Result<Value>)
    requires reader.Valid()
    modifies reader
    ensures reader.Valid()
    ensures r == Populate(codec, Split(reader.line), schema, offset)
    decreases schema
  {
    if schema.Leaf? {
      var x := PopulateFieldFrom(codec, reader, schema.field, offset);
      return if x.Ok? then Ok(Field(x.value)) else Error(x.kind, x.fieldIndex);
    }
    var members := schema.members;
    var vs: seq<Value> := [];
    var idx: nat := offset;
    ghost var fields := Split(reader.line);
    ghost var all := PopulateAll(codec, fields, members, offset);
    assert members[0..] == members;
    PrependNothing(all);
    for i := 0 to |members|
      invariant reader.Valid()
      invariant all == Prepend(vs, PopulateAll(codec, fields, members[i..], idx))
    {
      assert members[i..][0] == members[i] && members[i..][1..] == members[i + 1..];
      var v := PopulateFrom(codec, reader, members[i], idx);
      if v.Error? {
        return v;
      }
      PrependOne(vs, v.value, PopulateAll(codec, fields, members[i + 1..], idx + FieldCount(members[i])));
      vs := vs + [v.value];
      idx := idx + FieldCount(members[i]);
    }
    assert members[|members|..] == [];
    assert vs + [] == vs;
    r := Ok(Record(vs));
  }

  ghost function Prepend<T>(front: seq<T>, r: Result<seq<T>>): Result<seq<T>> {
    match r
    case Ok(vs) => Ok(front + vs)
    case Error(kind, idx) => Error(kind, idx)
  }

  lemma PrependNothing<T>(r: Result<seq<T>>)
    ensures Prepend([], r) == r
  {
    if r.Ok? {
      assert [] + r.value == r.value;
    }
  }

  lemma PrependOne<T>(front: seq<T>, v: T, r: Result<seq<T>>)
    ensures Prepend(front, Prepend([v], r)) == Prepend(front + [v], r)
  {
    if r.Ok? {
      assert front + ([v] + r.value) == front + [v] + r.value;
    }
  }

  // ----- the flat reading: leaves left to right -----

  function Leaves(schema: Schema): (leaves: seq<FieldType>)
    ensures |leaves| == FieldCount(schema)
    decreases schema, 1
  {
    match schema
    case Leaf(field) => [field]
    case Struct(members) => AllLeaves(members)
  }

  function AllLeaves(members: seq<Schema>): (leaves: seq<FieldType>)
    ensures |leaves| == FieldCounts(members)
    decreases members, 0
  {
    if members == [] then [] else Leaves(members[0]) + AllLeaves(members[1..])
  }

  function Flat(v: Value): seq<Option<Scalar>>
    decreases v, 1
  {
    match v
    case Field(x) => [x]
    case Record(members) => AllFlat(members)
  }

  function AllFlat(vs: seq<Value>): seq<Option<Scalar>>
    decreases vs, 0
  {
    if vs == [] then [] else Flat(vs[0]) + AllFlat(vs[1..])
  }

  /** A value has the shape of a schema. */
  predicate Shaped(schema: Schema, v: Value)
    decreases schema, 1
  {
    match schema
    case Leaf(_) => v.Field?
    case Struct(members) => v.Record? && AllShaped(members, v.members)
  }

  predicate AllShaped(members: seq<Schema>, vs: seq<Value>)
    decreases members, 0
  {
    |members| == |vs| && (members != [] ==> Shaped(members[0], vs[0]) && AllShaped(members[1..], vs[1..]))
  }

  /** Leaf after leaf, each at the next field, until one fails. */
  function DecodeRow(codec: PriceCodec, fields: seq<string>, leaves: seq<FieldType>, offset: nat)
    : Result<seq<Option<Scalar>>>
    decreases leaves
  {
    if leaves == [] then
      Ok([])
    else
      var x :- PopulateField(codec, fields, leaves[0], offset);
      var xs :- DecodeRow(codec, fields, leaves[1..], offset + 1);
      Ok([x] + xs)
  }

  lemma {:induction false} DecodeRowAppend(
    codec: PriceCodec, fields: seq<string>, a: seq<FieldType>, b: seq<FieldType>, offset: nat)
    ensures DecodeRow(codec, fields, a + b, offset) ==
            match DecodeRow(codec, fields, a, offset)
            case Ok(xs) => Prepend(xs, DecodeRow(codec, fields, b, offset + |a|))
            case Error(kind, idx) => Error(kind, idx)
    decreases a
  {
    if a == [] {
      assert a + b == b;
      PrependNothing(DecodeRow(codec, fields, b, offset));
    } else {
      assert (a + b)[0] == a[0] && (a + b)[1..] == a[1..] + b;
      DecodeRowAppend(codec, fields, a[1..], b, offset + 1);
      var x := PopulateField(codec, fields, a[0], offset);
      var xs := DecodeRow(codec, fields, a[1..], offset + 1);
      var ys := DecodeRow(codec, fields, b, offset + |a|);
      if x.Ok? && xs.Ok? && ys.Ok? {
        assert [x.value] + (xs.value + ys.value) == ([x.value] + xs.value) + ys.value;
      }
    }
  }

  /** `r` decodes what `row` decodes, in the shape of `schema`, and fails as it fails. */
  ghost predicate DecodesAs(schema: Schema, r: Result<Value>, row: Result<seq<Option<Scalar>>>) {
    match r
    case Ok(v) => Shaped(schema, v) && row == Ok(Flat(v))
    case Error(kind, idx) => row == Error(kind, idx)
  }

  ghost predicate AllDecodeAs(members: seq<Schema>, r: Result<seq<Value>>, row: Result<seq<Option<Scalar>>>) {
    match r
    case Ok(vs) => AllShaped(members, vs) && row == Ok(AllFlat(vs))
    case Error(kind, idx) => row == Error(kind, idx)
  }

  /** The offset arithmetic of nested structs: populating any schema at an offset reads exactly the
      fields from there on, leaf `i` at field `offset + i`, and reports the first leaf that fails. */
  lemma {:induction false} PopulateReadsRow(codec: PriceCodec, fields: seq<string>, schema: Schema, offset: nat)
    ensures DecodesAs(schema, Populate(codec, fields, schema, offset),
                      DecodeRow(codec, fields, Leaves(schema), offset))
    decreases schema, 1
  {
    match schema
    case Leaf(field) =>
      assert Leaves(schema)[1..] == [];
      var x := PopulateField(codec, fields, field, offset);
      assert x.Ok? ==> [x.value] + [] == Flat(Field(x.value));
    case Struct(members) =>
      PopulateAllReadsRow(codec, fields, members, offset);
  }

  lemma {:induction false} PopulateAllReadsRow(codec: PriceCodec, fields: seq<string>, members: seq<Schema>, offset: nat)
    ensures AllDecodeAs(members, PopulateAll(codec, fields, members, offset),
                        DecodeRow(codec, fields, AllLeaves(members), offset))
    decreases members, 0
  {
    if members != [] {
      var next := offset + FieldCount(members[0]);
      PopulateReadsRow(codec, fields, members[0], offset);
      PopulateAllReadsRow(codec, fields, members[1..], next);
      DecodeRowAppend(codec, fields, Leaves(members[0]), AllLeaves(members[1..]), offset);
      var v, vs := Populate(codec, fields, members[0], offset), PopulateAll(codec, fields, members[1..], next);
      if v.Ok? && vs.Ok? {
        assert ([v.value] + vs.value)[1..] == vs.value;
      }
    }
  }

  // ----- which fields are accepted -----

  /** The texts a field accepts. */
  predicate Accepts(codec: PriceCodec, field: FieldType, text: string) {
    if field.Optional? && text == "" then
      true
    else
      match field.kind
      case CharKind => |text| == 1
      case TextKind => true
      case UnsignedKind(bound) => IsNumeral(text, bound)
      case TimeKind => IsTimeText(text)
      case PriceKind => codec.parse(text).Some?
  }

  /** What an accepted text is read as. */
  function Meaning(codec: PriceCodec, field: FieldType, text: string): Option<Scalar>
    requires Accepts(codec, field, text)
  {
    if field.Optional? && text == "" then
      None
    else
      match field.kind
      case CharKind => Some(Char(text[0]))
      case TextKind => Some(Text(text))
      case UnsignedKind(_) => Some(Unsigned(NumberOf(text)))
      case TimeKind =>
        ParseTimeIff(text);
        Some(Time(
          NumberOf(text[0..2]) * 3_600_000_000_000 + NumberOf(text[3..5]) * 60_000_000_000
          + NumberOf(text[6..8]) * 1_000_000_000 + NumberOf(text[9..18])))
      case PriceKind => Some(Decimal(codec.parse(text).value))
  }

  /** A field is there, and its text is accepted. */
  predicate Accepted(codec: PriceCodec, fields: seq<string>, field: FieldType, idx: nat) {
    idx < |fields| && Accepts(codec, field, fields[idx])
  }

  /** The error of a field that is not accepted. */
  function Rejection(fields: seq<string>, field: FieldType, idx: nat): ErrorKind {
    if idx >= |fields| then FieldNotFound else if field.kind.CharKind? then InvalidCharCount else ParseFailure
  }

  /** Exactly which fields are read, as what, and with which error the others are not. */
  lemma PopulateFieldIff(codec: PriceCodec, fields: seq<string>, field: FieldType, idx: nat)
    ensures PopulateField(codec, fields, field, idx) ==
            if Accepted(codec, fields, field, idx) then Ok(Meaning(codec, field, fields[idx]))
            else Error(Rejection(fields, field, idx), idx)
  {
    if idx < |fields| {
      var text := fields[idx];
      match field.kind
      case CharKind =>
      case TextKind =>
      case UnsignedKind(bound) => ParseUnsignedIff(text, bound);
      case TimeKind => ParseTimeIff(text);
      case PriceKind =>
    }
  }

  predicate AllAccepted(codec: PriceCodec, fields: seq<string>, leaves: seq<FieldType>, offset: nat) {
    forall i :: 0 <= i < |leaves| ==> Accepted(codec, fields, leaves[i], offset + i)
  }

  /** Leaf `i` is the first that is not accepted. */
  predicate FirstRejected(codec: PriceCodec, fields: seq<string>, leaves: seq<FieldType>, offset: nat, i: nat) {
    && i < |leaves|
    && !Accepted(codec, fields, leaves[i], offset + i)
    && forall j :: 0 <= j < i ==> Accepted(codec, fields, leaves[j], offset + j)
  }

  /** A row is read exactly if each of its fields is accepted, and otherwise the first that is not is
      the error. */
  lemma {:induction false} DecodeRowOkIff(codec: PriceCodec, fields: seq<string>, leaves: seq<FieldType>, offset: nat)
    ensures DecodeRow(codec, fields, leaves, offset).Ok? <==> AllAccepted(codec, fields, leaves, offset)
    ensures forall i: nat :: FirstRejected(codec, fields, leaves, offset, i) ==>
              DecodeRow(codec, fields, leaves, offset) == Error(Rejection(fields, leaves[i], offset + i), offset + i)
    decreases leaves
  {
    if leaves != [] {
      var rest := leaves[1..];
      PopulateFieldIff(codec, fields, leaves[0], offset);
      DecodeRowOkIff(codec, fields, rest, offset + 1);
      AcceptedTail(codec, fields, leaves, offset);
      forall i: nat | FirstRejected(codec, fields, leaves, offset, i) && i > 0
        ensures FirstRejected(codec, fields, rest, offset + 1, i - 1)
      {
        forall j | 0 <= j < i - 1 ensures Accepted(codec, fields, rest[j], offset + 1 + j) {
          assert Accepted(codec, fields, leaves[j + 1], offset + (j + 1));
        }
      }
    }
  }

  lemma AcceptedTail(codec: PriceCodec, fields: seq<string>, leaves: seq<FieldType>, offset: nat)
    requires leaves != []
    ensures AllAccepted(codec, fields, leaves, offset) <==>
              Accepted(codec, fields, leaves[0], offset) && AllAccepted(codec, fields, leaves[1..], offset + 1)
  {
    var rest := leaves[1..];
    if AllAccepted(codec, fields, leaves, offset) {
      forall i | 0 <= i < |rest| ensures Accepted(codec, fields, rest[i], offset + 1 + i) {
        assert Accepted(codec, fields, leaves[i + 1], offset + (i + 1));
      }
      assert Accepted(codec, fields, leaves[0], offset + 0);
    }
    if Accepted(codec, fields, leaves[0], offset) && AllAccepted(codec, fields, rest, offset + 1) {
      forall i | 0 <= i < |leaves| ensures Accepted(codec, fields, leaves[i], offset + i) {
        if i > 0 {
          assert Accepted(codec, fields, rest[i - 1], offset + 1 + (i - 1));
        }
      }
    }
  }

  /** So a nested layout is populated exactly if the fields of all its leaves are accepted. */
  lemma PopulateOkIff(codec: PriceCodec, fields: seq<string>, schema: Schema, offset: nat)
    ensures Populate(codec, fields, schema, offset).Ok? <==> AllAccepted(codec, fields, Leaves(schema), offset)
  {
    PopulateReadsRow(codec, fields, schema, offset);
    DecodeRowOkIff(codec, fields, Leaves(schema), offset);
  }

  // ----- encoding -----

  function PrintScalar(codec: PriceCodec, x: Scalar): string {
    match x
    case Char(c) => [c]
    case Text(text) => text
    case Unsigned(n) => Digits(n, 1)
    case Time(nanos) => PrintTime(nanos)
    case Decimal(price) => codec.print_(price)
  }

  /** A field's text: blank for an absent value. */
  function PrintField(codec: PriceCodec, x: Option<Scalar>): string {
    if x.None? then "" else PrintScalar(codec, x.value)
  }

  function Encode(codec: PriceCodec, row: seq<Option<Scalar>>): seq<string> {
    if row == [] then [] else [PrintField(codec, row[0])] + Encode(codec, row[1..])
  }

  predicate TypedScalar(kind: Kind, x: Scalar) {
    match kind
    case CharKind => x.Char?
    case TextKind => x.Text?
    case UnsignedKind(_) => x.Unsigned?
    case TimeKind => x.Time?
    case PriceKind => x.Decimal?
  }

  predicate TypedField(field: FieldType, x: Option<Scalar>) {
    if x.None? then field.Optional? else TypedScalar(field.kind, x.value)
  }

  predicate Typed(leaves: seq<FieldType>, row: seq<Option<Scalar>>) {
    |leaves| == |row| && forall i :: 0 <= i < |leaves| ==> TypedField(leaves[i], row[i])
  }

  /** A present value that its own text carries: in range, without a comma, and not a blank text
      where a blank means absent. */
  predicate Carried(field: FieldType, x: Option<Scalar>) {
    x.Some? ==>
      match x.value
      case Char(c) => c != ','
      case Text(text) => CommaFree(text) && (field.Optional? ==> text != "")
      case Unsigned(n) => field.kind.UnsignedKind? ==> n < field.kind.bound
      case Time(nanos) => Printable(nanos)
      case Decimal(_) => true
  }

  predicate AllCarried(leaves: seq<FieldType>, row: seq<Option<Scalar>>)
    requires |leaves| == |row|
  {
    forall i :: 0 <= i < |leaves| ==> Carried(leaves[i], row[i])
  }

  /** The text of a value never depends on what stands around it. */
  predicate CommaFreeField(x: Option<Scalar>) {
    x.Some? ==> (x.value.Char? ==> x.value.c != ',') && (x.value.Text? ==> CommaFree(x.value.text))
  }

  lemma DigitsCommaFree(text: string)
    requires AllDigits(text)
    ensures CommaFree(text)
  {
  }

  lemma PrintCommaFree(codec: PriceCodec, x: Option<Scalar>)
    requires ValidCodec(codec)
    ensures CommaFree(PrintField(codec, x)) <==> CommaFreeField(x)
  {
    if x.Some? {
      match x.value
      case Char(c) =>
      case Text(_) =>
      case Unsigned(n) => ColumnCommaFree(n, 1);
      case Time(t) => TimeCommaFree(t);
      case Decimal(p) => assert CommaFree(codec.print_(p));
    }
  }

  lemma ConcatCommaFree(a: string, b: string)
    requires CommaFree(a) && CommaFree(b)
    ensures CommaFree(a + b)
  {
  }

  lemma ColumnCommaFree(n: nat, width: nat)
    ensures CommaFree(Digits(n, width))
  {
    DigitsSpec(n, width);
    DigitsCommaFree(Digits(n, width));
  }

  lemma TimeTextCommaFree(h: nat, m: nat, s: nat, n: nat)
    ensures CommaFree(TimeText(h, m, s, n)) && TimeText(h, m, s, n) != ""
  {
    ColumnCommaFree(h, 2);
    ColumnCommaFree(m, 2);
    ColumnCommaFree(s, 2);
    ColumnCommaFree(n, 9);
    var a := Digits(h, 2) + ":" + Digits(m, 2);
    ConcatCommaFree(Digits(h, 2) + ":", Digits(m, 2));
    ConcatCommaFree(a + ":", Digits(s, 2));
    ConcatCommaFree(a + ":" + Digits(s, 2) + ".", Digits(n, 9));
  }

  lemma TimeCommaFree(t: nat)
    ensures CommaFree(PrintTime(t)) && PrintTime(t) != ""
  {
    if Printable(t) {
      TimeTextCommaFree(t / 3_600_000_000_000, t / 60_000_000_000 % 60, t / 1_000_000_000 % 60, t % 1_000_000_000);
    } else {
      DigitsSpec(t, 1);
      ColumnCommaFree(t, 1);
    }
  }

  /** Printed numbers, times and prices are never blank. */
  lemma PrintNotBlank(codec: PriceCodec, x: Scalar)
    requires ValidCodec(codec)
    ensures PrintScalar(codec, x) == "" ==> x.Text?
  {
    match x
    case Char(_) =>
    case Text(_) =>
    case Unsigned(n) => DigitsSpec(n, 1);
    case Time(t) => TimeCommaFree(t);
    case Decimal(p) => assert codec.print_(p) != [];
  }

  lemma ScalarRoundTripIff(codec: PriceCodec, kind: Kind, x: Scalar, idx: nat)
    requires ValidCodec(codec) && TypedScalar(kind, x)
    ensures DecodeScalar(codec, kind, PrintScalar(codec, x), idx) == Ok(x) <==>
              (x.Unsigned? ==> x.n < kind.bound) && (x.Time? ==> Printable(x.nanos))
  {
    match x
    case Char(_) =>
    case Text(_) =>
    case Unsigned(n) => ParsePrinted(n, 1, kind.bound);
    case Time(t) => ParsePrintedTime(t);
    case Decimal(p) => assert codec.parse(codec.print_(p)) == Some(p);
  }

  /** Field by field: a text is read back to the value it was printed from exactly when it carries it. */
  lemma FieldRoundTripIff(codec: PriceCodec, field: FieldType, x: Option<Scalar>, idx: nat)
    requires ValidCodec(codec) && TypedField(field, x) && CommaFreeField(x)
    ensures DecodeField(codec, field, PrintField(codec, x), idx) == Ok(x) <==> Carried(field, x)
  {
    if x.Some? {
      PrintNotBlank(codec, x.value);
      ScalarRoundTripIff(codec, field.kind, x.value, idx);
    }
  }

  /** What is decoded from comma-free text holds no comma. */
  lemma DecodedCommaFree(codec: PriceCodec, field: FieldType, text: string, idx: nat)
    requires CommaFree(text) && DecodeField(codec, field, text, idx).Ok?
    ensures CommaFreeField(DecodeField(codec, field, text, idx).value)
  {
    if |text| == 1 {
      assert text[0] in text;
    }
  }

  // ----- whole lines -----

  /** Leaf by leaf, the row is what the fields decode to. */
  predicate RowIs(
    codec: PriceCodec, fields: seq<string>, leaves: seq<FieldType>, offset: nat, row: seq<Option<Scalar>>)
  {
    |row| == |leaves| &&
    forall i :: 0 <= i < |leaves| ==> PopulateField(codec, fields, leaves[i], offset + i) == Ok(row[i])
  }

  lemma RowIsTail(
    codec: PriceCodec, fields: seq<string>, leaves: seq<FieldType>, offset: nat, row: seq<Option<Scalar>>)
    requires leaves != [] && row != []
    ensures RowIs(codec, fields, leaves, offset, row) <==>
              && PopulateField(codec, fields, leaves[0], offset) == Ok(row[0])
              && RowIs(codec, fields, leaves[1..], offset + 1, row[1..])
  {
    var rest, tail := leaves[1..], row[1..];
    if RowIs(codec, fields, leaves, offset, row) {
      assert PopulateField(codec, fields, leaves[0], offset + 0) == Ok(row[0]);
      forall i | 0 <= i < |rest| ensures PopulateField(codec, fields, rest[i], offset + 1 + i) == Ok(tail[i]) {
        assert PopulateField(codec, fields, leaves[i + 1], offset + (i + 1)) == Ok(row[i + 1]);
      }
    }
    if PopulateField(codec, fields, leaves[0], offset) == Ok(row[0]) && RowIs(codec, fields, rest, offset + 1, tail) {
      forall i | 0 <= i < |leaves| ensures PopulateField(codec, fields, leaves[i], offset + i) == Ok(row[i]) {
        if i > 0 {
          assert PopulateField(codec, fields, rest[i - 1], offset + 1 + (i - 1)) == Ok(tail[i - 1]);
        }
      }
    }
  }

  lemma DecodeRowTail(
    codec: PriceCodec, fields: seq<string>, leaves: seq<FieldType>, offset: nat, row: seq<Option<Scalar>>)
    requires leaves != [] && row != []
    ensures DecodeRow(codec, fields, leaves, offset) == Ok(row) <==>
              && PopulateField(codec, fields, leaves[0], offset) == Ok(row[0])
              && DecodeRow(codec, fields, leaves[1..], offset + 1) == Ok(row[1..])
  {
    assert row == [row[0]] + row[1..];
  }

  lemma {:induction false} DecodeRowIff(
    codec: PriceCodec, fields: seq<string>, leaves: seq<FieldType>, offset: nat, row: seq<Option<Scalar>>)
    ensures DecodeRow(codec, fields, leaves, offset) == Ok(row) <==> RowIs(codec, fields, leaves, offset, row)
    decreases leaves
  {
    if leaves != [] && row != [] {
      DecodeRowIff(codec, fields, leaves[1..], offset + 1, row[1..]);
      DecodeRowTail(codec, fields, leaves, offset, row);
      RowIsTail(codec, fields, leaves, offset, row);
    }
  }

  /** A shape and its leaves determine a value. */
  lemma {:induction false} FlatDetermines(schema: Schema, v: Value, w: Value)
    requires Shaped(schema, v) && Shaped(schema, w)
    ensures |Flat(v)| == |Flat(w)| == FieldCount(schema)
    ensures Flat(v) == Flat(w) ==> v == w
    decreases schema, 1
  {
    if schema.Struct? {
      AllFlatDetermines(schema.members, v.members, w.members);
    }
  }

  lemma {:induction false} AllFlatDetermines(members: seq<Schema>, vs: seq<Value>, ws: seq<Value>)
    requires AllShaped(members, vs) && AllShaped(members, ws)
    ensures |AllFlat(vs)| == |AllFlat(ws)| == FieldCounts(members)
    ensures AllFlat(vs) == AllFlat(ws) ==> vs == ws
    decreases members, 0
  {
    if members != [] {
      FlatDetermines(members[0], vs[0], ws[0]);
      AllFlatDetermines(members[1..], vs[1..], ws[1..]);
      var n := FieldCount(members[0]);
      assert AllFlat(vs)[..n] == Flat(vs[0]) && AllFlat(vs)[n..] == AllFlat(vs[1..]);
      assert AllFlat(ws)[..n] == Flat(ws[0]) && AllFlat(ws)[n..] == AllFlat(ws[1..]);
      assert vs == [vs[0]] + vs[1..] && ws == [ws[0]] + ws[1..];
    }
  }

  lemma {:induction false} EncodeAt(codec: PriceCodec, row: seq<Option<Scalar>>)
    ensures |Encode(codec, row)| == |row|
    ensures forall i :: 0 <= i < |row| ==> Encode(codec, row)[i] == PrintField(codec, row[i])
  {
    if row != [] {
      EncodeAt(codec, row[1..]);
    }
  }

  /** The fields of a line in which an encoded row stands in front. */
  lemma EncodedLine(codec: PriceCodec, row: seq<Option<Scalar>>, extra: seq<string>)
    requires ValidCodec(codec) && Encode(codec, row) + extra != []
    requires forall i :: 0 <= i < |row| ==> CommaFreeField(row[i])
    ensures var fields := Split(Join(Encode(codec, row) + extra));
            |row| <= |fields| && forall i :: 0 <= i < |row| ==> fields[i] == PrintField(codec, row[i])
  {
    EncodeAt(codec, row);
    if row != [] {
      forall f | f in Encode(codec, row) ensures CommaFree(f) {
        var i :| 0 <= i < |row| && f == PrintField(codec, row[i]);
        PrintCommaFree(codec, row[i]);
      }
      SplitPrefix(Encode(codec, row), extra);
    }
  }

  /** A row decoded from a line holds no commas. */
  lemma DecodedRowCommaFree(codec: PriceCodec, line: string, leaves: seq<FieldType>, row: seq<Option<Scalar>>)
    requires DecodeRow(codec, Split(line), leaves, 0) == Ok(row)
    ensures forall i :: 0 <= i < |row| ==> CommaFreeField(row[i])
  {
    JoinSplit(line);
    DecodeRowIff(codec, Split(line), leaves, 0, row);
    forall i | 0 <= i < |row| ensures CommaFreeField(row[i]) {
      assert PopulateField(codec, Split(line), leaves[i], 0 + i) == Ok(row[i]);
      DecodedCommaFree(codec, leaves[i], Split(line)[i], i);
    }
  }

  lemma RowRoundTripIff(codec: PriceCodec, leaves: seq<FieldType>, row: seq<Option<Scalar>>, extra: seq<string>)
    requires ValidCodec(codec) && Typed(leaves, row) && Encode(codec, row) + extra != []
    ensures DecodeRow(codec, Split(Join(Encode(codec, row) + extra)), leaves, 0) == Ok(row) <==> AllCarried(leaves, row)
  {
    var line := Join(Encode(codec, row) + extra);
    var fields := Split(line);
    DecodeRowIff(codec, fields, leaves, 0, row);
    if DecodeRow(codec, fields, leaves, 0) == Ok(row) {
      DecodedRowCommaFree(codec, line, leaves, row);
      EncodedLine(codec, row, extra);
      forall i | 0 <= i < |leaves| ensures Carried(leaves[i], row[i]) {
        assert PopulateField(codec, fields, leaves[i], 0 + i) == Ok(row[i]);
        FieldRoundTripIff(codec, leaves[i], row[i], i);
      }
    }
    if AllCarried(leaves, row) {
      forall i | 0 <= i < |row| ensures CommaFreeField(row[i]) {
        assert Carried(leaves[i], row[i]);
      }
      EncodedLine(codec, row, extra);
      forall i | 0 <= i < |leaves| ensures PopulateField(codec, fields, leaves[i], 0 + i) == Ok(row[i]) {
        FieldRoundTripIff(codec, leaves[i], row[i], i);
      }
    }
  }

  /** Decoding undoes encoding, for any nested schema and whatever fields follow: the value comes
      back exactly when each of its leaves is carried by its own text. */
  lemma DecodeEncodeIff(codec: PriceCodec, schema: Schema, v: Value, extra: seq<string>)
    requires ValidCodec(codec) && Shaped(schema, v) && Typed(Leaves(schema), Flat(v))
    requires Encode(codec, Flat(v)) + extra != []
    ensures Populate(codec, Split(Join(Encode(codec, Flat(v)) + extra)), schema, 0) == Ok(v) <==>
              AllCarried(Leaves(schema), Flat(v))
  {
    var fields := Split(Join(Encode(codec, Flat(v)) + extra));
    PopulateReadsRow(codec, fields, schema, 0);
    RowRoundTripIff(codec, Leaves(schema), Flat(v), extra);
    var r := Populate(codec, fields, schema, 0);
    if r.Ok? {
      FlatDetermines(schema, r.value, v);
    }
  }
}
