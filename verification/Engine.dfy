/** The two loops of the engine over the concrete parser and queue, and the whole pipeline: from
    lines to callback under any schedule, and from there into an order book. */
module Engine {
  import opened Words
  import opened Schema
  import opened NyseParser
  import opened BboValidation
  import H = HandOff
  import Q = MessageQueue
  import C = Csv
  import S = Sequence
  import Book = OrderBook

  /** What `f` gives for each line. */
  function Results<M>(f: string -> Option<M>, lines: seq<string>): seq<Option<M>> {
    if lines == [] then [] else Results(f, lines[..|lines| - 1]) + [f(lines[|lines| - 1])]
  }

  /** What the parse of a line emits: the input of the hand-off. */
  function Emits(codec: PriceCodec): string -> Option<Event> {
    line => Parse(codec, line).emitted
  }

  /** The header the parse of a line records. */
  function Records(codec: PriceCodec): string -> Option<S.Header> {
    line => Parse(codec, line).recorded
  }

  /** Whether a line parses without an error. */
  function Succeeds(codec: PriceCodec): string -> bool {
    line => Parse(codec, line).error.NoError?
  }

  function CountOf(p: string -> bool, lines: seq<string>): nat {
    if lines == [] then 0 else CountOf(p, lines[..|lines| - 1]) + if p(lines[|lines| - 1]) then 1 else 0
  }

  lemma ResultsSnoc<M>(f: string -> Option<M>, lines: seq<string>, line: string)
    ensures Results(f, lines + [line]) == Results(f, lines) + [f(line)]
    ensures H.Emitted(Results(f, lines + [line])) ==
            H.Emitted(Results(f, lines)) + (if f(line).Some? then [f(line).value] else [])
  {
    assert (lines + [line])[..|lines|] == lines;
    assert (Results(f, lines) + [f(line)])[..|Results(f, lines)|] == Results(f, lines);
  }

  class Engine {
    const parser: Parser
    const queue: Q.MessageQueue<Event>
    var success: u64
    var total: u64
    var egressCount: u64

    ghost predicate Valid()
      reads this, parser, parser.recorder
    {
      parser.Valid() && parser.queue == queue
    }

    constructor (codec: PriceCodec)
      ensures Valid() && parser.codec == codec && egressCount == 0
      ensures HasTaken([]) && queue.Valid() && !queue.closed
      ensures fresh(queue) && fresh(parser) && fresh(parser.recorder) && fresh(parser.recorder.msgTypeCounts)
    {
      var q := new Q.MessageQueue();
      queue := q;
      parser := new Parser(codec, q);
      success, total, egressCount := 0, 0, 0;
    }

    method RecordParseResult(error: ParseError)
      modifies this`success, this`total
      ensures success == (if error.NoError? then Wrap(old(success) + 1) else old(success))
      ensures total == Wrap(old(total) + 1)
    {
      if error.NoError? {
        success := Wrap(success + 1);
      }
      total := Wrap(total + 1);
    }

    /** The queue holds what `taken` emits, in the order of the lines, both counters agree, and the
        recorder has recorded the headers that decode. */
    ghost predicate HasTaken(taken: seq<string>)
      reads this, queue, parser, parser.recorder, parser.recorder.msgTypeCounts
    {
      && queue.queue == H.Emitted(Results(Emits(parser.codec), taken))
      && success == Wrap(|queue.queue|)
      && total == Wrap(|taken|)
      && parser.recorder.Value() == S.RecordAll(H.Emitted(Results(Records(parser.codec), taken)))
    }

    /** The ingest loop, finding a stop request before line `stopAt` if there is such a line: every
        line up to there is taken once and in order, and the queue is closed in any case. */
    method IngestLoop(lines: seq<string>, stopAt: nat)
      requires Valid() && HasTaken([]) && !queue.closed
      modifies this`success, this`total, queue, parser.recorder, parser.recorder.msgTypeCounts
      ensures Valid() && queue.closed && queue.Valid()
      ensures HasTaken(if stopAt < |lines| then lines[..stopAt] else lines)
    {
      var i := 0;
      while i < |lines| && i != stopAt
        invariant Valid() && i <= |lines| && i <= stopAt && HasTaken(lines[..i])
      {
        IngestLine(lines[..i], lines[i]);
        i := i + 1;
        assert lines[..i] == lines[..i - 1] + [lines[i - 1]];
      }
      assert lines[..|lines|] == lines;
      queue.Close();
    }

    /** One turn of the loop, after the lines `before`. */
    method IngestLine(ghost before: seq<string>, line: string)
      requires Valid() && HasTaken(before)
      modifies this`success, this`total, queue, parser.recorder, parser.recorder.msgTypeCounts
      ensures Valid() && HasTaken(before + [line])
    {
      var error := parser.ParseNext(line);
      RecordParseResult(error);
      OneEmitPerSuccess(parser.codec, line);
      ResultsSnoc(Emits(parser.codec), before, line);
      RecordedSnoc(before, line);
      CountNext(|before|);
      CountNext(|H.Emitted(Results(Emits(parser.codec), before))|);
    }

    lemma RecordedSnoc(before: seq<string>, line: string)
      ensures var recorded := Parse(parser.codec, line).recorded;
              S.RecordAll(H.Emitted(Results(Records(parser.codec), before + [line]))) ==
              RecordedAfter(S.RecordAll(H.Emitted(Results(Records(parser.codec), before))), recorded)
    {
      var hs := H.Emitted(Results(Records(parser.codec), before));
      var recorded := Parse(parser.codec, line).recorded;
      ResultsSnoc(Records(parser.codec), before, line);
      if recorded.Some? {
        assert (hs + [recorded.value])[..|hs|] == hs;
      } else {
        assert hs + [] == hs;
      }
    }

    lemma CountNext(n: nat)
      ensures Wrap(Wrap(n) + 1) == Wrap(n + 1)
    {
      WrapAdd(n, 1);
    }

    /** The egress loop until it has to sleep or ends: it hands over all that is queued, in order,
        and ends exactly if the queue is closed or a stop was requested. */
    method EgressLoop(stop: bool) returns (delivered: seq<Event>, ended: bool)
      modifies queue, this`egressCount
      ensures queue.queue == [] && queue.closed == old(queue.closed) && queue.Valid()
      ensures delivered == old(queue.queue)
      ensures ended <==> queue.closed || stop
      ensures queue.waiting <==> !ended
      ensures egressCount == Wrap(old(egressCount) + |delivered|)
    {
      delivered := [];
      while true
        invariant queue.closed == old(queue.closed)
        invariant delivered + queue.queue == old(queue.queue)
        invariant egressCount == Wrap(old(egressCount) + |delivered|)
        decreases |queue.queue|
      {
        var outcome := queue.TryWaitPop(stop);
        if !outcome.Got? {
          ended := outcome.Finished?;
          break;
        }
        WrapAdd(old(egressCount) + |delivered|, 1);
        delivered := delivered + [outcome.message];
        egressCount := Wrap(egressCount + 1);
      }
    }
  }

  // ----- the whole pipeline -----

  lemma {:induction false} EmittedCount<M>(f: string -> Option<M>, succeeds: string -> bool, lines: seq<string>)
    requires forall line :: succeeds(line) <==> f(line).Some?
    ensures |H.Emitted(Results(f, lines))| == CountOf(succeeds, lines)
    ensures |Results(f, lines)| == |lines|
  {
    if lines != [] {
      var front, line := lines[..|lines| - 1], lines[|lines| - 1];
      EmittedCount(f, succeeds, front);
      ResultsSnoc(f, front, line);
      assert front + [line] == lines;
    }
  }

  lemma EmittedAreSuccesses(codec: PriceCodec, lines: seq<string>)
    ensures |H.Emitted(Results(Emits(codec), lines))| == CountOf(Succeeds(codec), lines)
    ensures |Results(Emits(codec), lines)| == |lines|
  {
    forall line ensures Succeeds(codec)(line) <==> Emits(codec)(line).Some? {
      OneEmitPerSuccess(codec, line);
    }
    EmittedCount(Emits(codec), Succeeds(codec), lines);
  }

  /** From lines to callback, for any lines at all, malformed ones included, and any schedule: when
      `Join` returns the callback has been given exactly what the parses of the lines emitted, once
      each and in their order; the counters are the lines without an error, and the lines. */
  lemma PipelineDeliversParses(codec: PriceCodec, lines: seq<string>, moves: seq<H.Move>)
    requires H.Exec(Results(Emits(codec), lines), moves).Some?
    requires H.Exec(Results(Emits(codec), lines), moves).value.client == H.Idle(true)
    ensures var s := H.Exec(Results(Emits(codec), lines), moves).value;
            && s.delivered == H.Emitted(Results(Emits(codec), lines))
            && s.success == s.egressCount == Wrap(CountOf(Succeeds(codec), lines))
            && s.total == Wrap(|lines|)
  {
    EmittedAreSuccesses(codec, lines);
    H.JoinDeliversAll(Results(Emits(codec), lines), moves);
  }

  /** `line` is a line of message type `msgType` with the values of `row` and fields `extra` behind. */
  ghost predicate Carries(
    codec: PriceCodec, line: string, e: Event, msgType: nat, row: seq<Option<Scalar>>, extra: seq<string>)
  {
    && SchemaOf(msgType).Some?
    && Typed(Leaves(SchemaOf(msgType).value), row)
    && AllCarried(Leaves(SchemaOf(msgType).value), row)
    && |row| > 1
    && row[0] == Some(Unsigned(msgType))
    && Encode(codec, row) + extra != []
    && line == C.Join(Encode(codec, row) + extra)
    && e == EventOf(msgType, row, line)
  }

  /** `line` carries event `e`: it is a line of one of the 14 message types, with whatever values and
      whatever fields behind, and `e` is the message of its values. */
  ghost predicate CarriesEvent(codec: PriceCodec, line: string, e: Event) {
    exists msgType: nat, row, extra :: Carries(codec, line, e, msgType, row, extra)
  }

  lemma LineReadsBack(codec: PriceCodec, line: string, e: Event)
    requires ValidCodec(codec) && CarriesEvent(codec, line, e)
    ensures Parse(codec, line).error.NoError? && Emits(codec)(line) == Some(e)
  {
    var msgType: nat, row, extra :| Carries(codec, line, e, msgType, row, extra);
    ParseEncoded(codec, msgType, row, extra);
  }

  /** A message whose public form keeps fields is carried by its line, whatever else is on it. */
  lemma MessageLineCarries(
    codec: PriceCodec, e: Event, x: Dropped, sequenceNumber: u64, symbolSeqNum: u64, extra: seq<string>)
    requires ValidCodec(codec) && KeepsFields(e.msg.body) && Travels(e, x)
    ensures Encode(codec, WireRow(e, x, sequenceNumber, symbolSeqNum)) + extra != []
    ensures CarriesEvent(codec, C.Join(Encode(codec, WireRow(e, x, sequenceNumber, symbolSeqNum)) + extra), e)
  {
    var row := WireRow(e, x, sequenceNumber, symbolSeqNum);
    EncodeAt(codec, row);
    RowFits(e, x, sequenceNumber, symbolSeqNum);
    RowReadsBack(e, x, sequenceNumber, symbolSeqNum, C.Join(Encode(codec, row) + extra));
    assert Carries(codec, C.Join(Encode(codec, row) + extra), e, WireType(e.msg.body), row, extra);
  }

  /** What a line is meant to be: an event it carries, or a line that does not parse. */
  ghost predicate LineReadsAs(codec: PriceCodec, line: string, outcome: Option<Event>) {
    if outcome.Some? then CarriesEvent(codec, line, outcome.value) else !Parse(codec, line).error.NoError?
  }

  ghost predicate ReadsAs(codec: PriceCodec, lines: seq<string>, outcomes: seq<Option<Event>>) {
    |lines| == |outcomes| && forall i :: 0 <= i < |lines| ==> LineReadsAs(codec, lines[i], outcomes[i])
  }

  lemma ResultIs(codec: PriceCodec, line: string, outcome: Option<Event>)
    requires ValidCodec(codec) && LineReadsAs(codec, line, outcome)
    ensures Emits(codec)(line) == outcome
  {
    OneEmitPerSuccess(codec, line);
    if outcome.Some? {
      LineReadsBack(codec, line, outcome.value);
    }
  }

  lemma {:induction false} ResultsOf<M>(f: string -> Option<M>, lines: seq<string>, outcomes: seq<Option<M>>)
    requires |lines| == |outcomes| && forall i :: 0 <= i < |lines| ==> f(lines[i]) == outcomes[i]
    ensures Results(f, lines) == outcomes
  {
    if lines != [] {
      var m := |lines| - 1;
      ResultsOf(f, lines[..m], outcomes[..m]);
      assert outcomes == outcomes[..m] + [outcomes[m]];
    }
  }

  lemma ResultsAre(codec: PriceCodec, lines: seq<string>, outcomes: seq<Option<Event>>)
    requires ValidCodec(codec) && ReadsAs(codec, lines, outcomes)
    ensures Results(Emits(codec), lines) == outcomes
  {
    forall i | 0 <= i < |lines| ensures Emits(codec)(lines[i]) == outcomes[i] {
      ResultIs(codec, lines[i], outcomes[i]);
    }
    ResultsOf(Emits(codec), lines, outcomes);
  }

  /** In particular: of lines that each carry an event or do not parse, exactly the events carried are
      delivered, once each and in the order of the lines. */
  lemma PipelineDelivers(codec: PriceCodec, lines: seq<string>, outcomes: seq<Option<Event>>, moves: seq<H.Move>)
    requires ValidCodec(codec) && ReadsAs(codec, lines, outcomes)
    requires H.Exec(Results(Emits(codec), lines), moves).Some?
    requires H.Exec(Results(Emits(codec), lines), moves).value.client == H.Idle(true)
    ensures var s := H.Exec(Results(Emits(codec), lines), moves).value;
            && s.delivered == H.Emitted(outcomes)
            && s.success == s.egressCount == Wrap(|H.Emitted(outcomes)|)
            && s.total == Wrap(|lines|)
  {
    ResultsAre(codec, lines, outcomes);
    H.JoinDeliversAll(Results(Emits(codec), lines), moves);
  }

  /** From lines to book: whatever the schedule, an order book that is given the messages delivered
      when `Join` returns holds the run of the events the lines carry. */
  method BuildBook(
    ghost codec: PriceCodec, ghost lines: seq<string>, ghost outcomes: seq<Option<Event>>, ghost moves: seq<H.Move>,
    delivered: seq<Event>)
    returns (book: Book.OrderBook)
    requires ValidCodec(codec) && ReadsAs(codec, lines, outcomes)
    requires var end := H.Exec(Results(Emits(codec), lines), moves);
             end.Some? && end.value.client == H.Idle(true) && delivered == end.value.delivered
    ensures fresh(book) && book.HasTaken(Msgs(H.Emitted(outcomes)))
  {
    PipelineDelivers(codec, lines, outcomes, moves);
    book := new Book.OrderBook();
    book.Replay(Msgs(delivered));
  }
}
