/** All symbols together: the order book as a value, and its runs. */
module Feed {
  import opened Words
  import opened Messages
  import opened MapSum
  import opened PerSymbol
  import D = DisplayBook
  import T = TradeTape
  import C = Conservation
  import H = OrderHistory
  import Top = TopOfBook

  datatype Book = Book(
    display: D.Display, tape: T.Tape, halted: bool,
    lastRpiIndicator: Option<char>, info: Option<string>, lastImbalance: Option<string>)

  const EMPTY_BOOK := Book(D.EMPTY_DISPLAY, T.EMPTY_TAPE, false, None, None, None)

  /** One message on the book of its symbol. */
  function NextBook(b: Book, m: Body): Book {
    b.(display := D.Apply(b.display, m).display,
       tape := T.Apply(b.tape, m).tape,
       halted := if m.SecurityStatus? && (m.status == '4' || m.status == '5') then m.status == '4' else b.halted,
       lastRpiIndicator := if m.RetailPriceImprovement? then m.indicator else b.lastRpiIndicator,
       info := if m.SymbolIndexMapping? then Some(m.info) else b.info,
       lastImbalance := if m.Imbalance? then Some(m.imbalance) else b.lastImbalance)
  }

  predicate BuildFails(b: Book, m: Body) {
    D.Apply(b.display, m).failed
  }

  predicate LedgerFails(b: Book, m: Body) {
    T.Apply(b.tape, m).failed
  }

  datatype FeedState = FeedState(books: map<string, Book>, bookBuildFailures: u64, tradeLedgerFailures: u64)

  const NO_BOOKS := FeedState(map[], 0, 0)

  function BookOf(s: FeedState, symbol: string): Book {
    PartOf(s.books, EMPTY_BOOK, symbol)
  }

  /** The number of live orders of each book. */
  function OrderCounts(s: FeedState): map<string, nat> {
    map symbol | symbol in s.books :: |s.books[symbol].display.orders|
  }

  function Count(counter: u64, failed: bool): u64 {
    if failed then Wrap(counter + 1) else counter
  }

  /** One message on the whole state: it creates its symbol's book if need be. */
  function Step(s: FeedState, msg: Message<Body>): FeedState {
    var b := BookOf(s, msg.symbol);
    FeedState(
      s.books[msg.symbol := NextBook(b, msg.body)],
      Count(s.bookBuildFailures, BuildFails(b, msg.body)),
      Count(s.tradeLedgerFailures, LedgerFails(b, msg.body)))
  }

  function FeedRun(msgs: seq<Message<Body>>): FeedState {
    if msgs == [] then NO_BOOKS else Step(FeedRun(msgs[..|msgs| - 1]), msgs[|msgs| - 1])
  }

  lemma CountTally(counter: u64, n: nat, failed: bool)
    requires counter == Wrap(n)
    ensures Count(counter, failed) == Wrap(n + if failed then 1 else 0)
  {
    WrapAdd(n, 1);
  }

  /** The order book is a per-symbol machine with two failure tallies. */
  lemma {:induction false} FeedIsPerSymbol(msgs: seq<Message<Body>>)
    ensures FeedRun(msgs).books == Run(NextBook, EMPTY_BOOK, msgs)
    ensures FeedRun(msgs).bookBuildFailures == Wrap(Tally(NextBook, EMPTY_BOOK, BuildFails, msgs))
    ensures FeedRun(msgs).tradeLedgerFailures == Wrap(Tally(NextBook, EMPTY_BOOK, LedgerFails, msgs))
  {
    if msgs != [] {
      var front, m := msgs[..|msgs| - 1], msgs[|msgs| - 1];
      FeedIsPerSymbol(front);
      var b := BookOf(FeedRun(front), m.symbol);
      CountTally(FeedRun(front).bookBuildFailures, Tally(NextBook, EMPTY_BOOK, BuildFails, front), BuildFails(b, m.body));
      CountTally(FeedRun(front).tradeLedgerFailures, Tally(NextBook, EMPTY_BOOK, LedgerFails, front), LedgerFails(b, m.body));
    }
  }

  /** The displayed half and the trade half of a book never look at each other. */
  lemma {:induction false} HalvesIndependent(ms: seq<Body>)
    ensures OwnRun(NextBook, EMPTY_BOOK, ms).display == D.Run(ms)
    ensures OwnRun(NextBook, EMPTY_BOOK, ms).tape == T.Run(ms)
    ensures OwnTally(NextBook, EMPTY_BOOK, BuildFails, ms) == D.BuildFailures(ms)
    ensures OwnTally(NextBook, EMPTY_BOOK, LedgerFails, ms) == T.LedgerFailures(ms)
  {
    if ms != [] {
      HalvesIndependent(ms[..|ms| - 1]);
    }
  }

  /** The book of a symbol after any stream is its book after only its own messages, and its
      two halves are the runs of those messages on each half alone. */
  lemma BookIsOwnRun(msgs: seq<Message<Body>>, symbol: string)
    ensures symbol in FeedRun(msgs).books <==> Of(msgs, symbol) != []
    ensures BookOf(FeedRun(msgs), symbol) == OwnRun(NextBook, EMPTY_BOOK, Of(msgs, symbol))
    ensures BookOf(FeedRun(msgs), symbol).display == D.Run(Of(msgs, symbol))
    ensures BookOf(FeedRun(msgs), symbol).tape == T.Run(Of(msgs, symbol))
  {
    FeedIsPerSymbol(msgs);
    Projection(NextBook, EMPTY_BOOK, msgs, symbol);
    HalvesIndependent(Of(msgs, symbol));
  }

  /** Two interleavings of the same per-symbol streams leave the same order book. */
  lemma FeedInterleavingsAgree(msgs: seq<Message<Body>>, msgs': seq<Message<Body>>)
    requires forall s :: Of(msgs, s) == Of(msgs', s)
    ensures FeedRun(msgs) == FeedRun(msgs')
  {
    FeedIsPerSymbol(msgs);
    FeedIsPerSymbol(msgs');
    InterleavingsAgree(NextBook, EMPTY_BOOK, BuildFails, msgs, msgs');
    InterleavingsAgree(NextBook, EMPTY_BOOK, LedgerFails, msgs, msgs');
  }

  // ----- the single-field messages -----

  /** Message `i` is the last of its kind. */
  predicate LastOf(ms: seq<Body>, kind: Body -> bool, i: nat) {
    i < |ms| && kind(ms[i]) && forall j :: i < j < |ms| ==> !kind(ms[j])
  }

  predicate NoneOf(ms: seq<Body>, kind: Body -> bool) {
    forall i :: 0 <= i < |ms| ==> !kind(ms[i])
  }

  predicate IsHaltStatus(m: Body) {
    m == SecurityStatus('4') || m == SecurityStatus('5')
  }

  predicate IsIndicator(m: Body) {
    m.RetailPriceImprovement?
  }

  predicate IsMapping(m: Body) {
    m.SymbolIndexMapping?
  }

  predicate IsImbalance(m: Body) {
    m.Imbalance?
  }

  /** The last message of a kind, one message on: it is the new one, or the last one before. */
  lemma LastSnoc(ms: seq<Body>, kind: Body -> bool, i: nat)
    requires ms != [] && LastOf(ms, kind, i)
    ensures if kind(ms[|ms| - 1]) then i == |ms| - 1 else LastOf(ms[..|ms| - 1], kind, i)
  {
  }

  lemma NoneSnoc(ms: seq<Body>, kind: Body -> bool)
    requires ms != []
    ensures NoneOf(ms, kind) <==> NoneOf(ms[..|ms| - 1], kind) && !kind(ms[|ms| - 1])
  {
    if NoneOf(ms[..|ms| - 1], kind) && !kind(ms[|ms| - 1]) {
      forall i | 0 <= i < |ms| ensures !kind(ms[i]) {
        assert i < |ms| - 1 ==> ms[i] == ms[..|ms| - 1][i];
      }
    }
  }

  /** Trading is halted exactly if the last halt ('4') or resume ('5') was a halt. */
  lemma {:induction false} HaltedIs(ms: seq<Body>, i: nat)
    requires LastOf(ms, IsHaltStatus, i)
    ensures OwnRun(NextBook, EMPTY_BOOK, ms).halted <==> ms[i] == SecurityStatus('4')
  {
    if i < |ms| - 1 {
      LastSnoc(ms, IsHaltStatus, i);
      HaltedIs(ms[..|ms| - 1], i);
    }
  }

  /** The indicator is that of the last Retail Price Improvement message. */
  lemma {:induction false} IndicatorIs(ms: seq<Body>, i: nat)
    requires LastOf(ms, IsIndicator, i)
    ensures OwnRun(NextBook, EMPTY_BOOK, ms).lastRpiIndicator == ms[i].indicator
  {
    if i < |ms| - 1 {
      LastSnoc(ms, IsIndicator, i);
      IndicatorIs(ms[..|ms| - 1], i);
    }
  }

  /** The symbol information is the last Symbol Index Mapping, kept whole. */
  lemma {:induction false} InfoIs(ms: seq<Body>, i: nat)
    requires LastOf(ms, IsMapping, i)
    ensures OwnRun(NextBook, EMPTY_BOOK, ms).info == Some(ms[i].info)
  {
    if i < |ms| - 1 {
      LastSnoc(ms, IsMapping, i);
      InfoIs(ms[..|ms| - 1], i);
    }
  }

  /** The imbalance is the last Imbalance message, kept whole. */
  lemma {:induction false} ImbalanceIs(ms: seq<Body>, i: nat)
    requires LastOf(ms, IsImbalance, i)
    ensures OwnRun(NextBook, EMPTY_BOOK, ms).lastImbalance == Some(ms[i].imbalance)
  {
    if i < |ms| - 1 {
      LastSnoc(ms, IsImbalance, i);
      ImbalanceIs(ms[..|ms| - 1], i);
    }
  }

  /** Before the first message of a kind its field is as at the start. */
  lemma {:induction false} NoStatusYet(ms: seq<Body>)
    ensures var b := OwnRun(NextBook, EMPTY_BOOK, ms);
            && (NoneOf(ms, IsHaltStatus) ==> !b.halted)
            && (NoneOf(ms, IsIndicator) ==> b.lastRpiIndicator == None)
            && (NoneOf(ms, IsMapping) ==> b.info == None)
            && (NoneOf(ms, IsImbalance) ==> b.lastImbalance == None)
  {
    if ms != [] {
      NoStatusYet(ms[..|ms| - 1]);
      NoneSnoc(ms, IsHaltStatus);
      NoneSnoc(ms, IsIndicator);
      NoneSnoc(ms, IsMapping);
      NoneSnoc(ms, IsImbalance);
    }
  }

  /** In the book of any symbol of any feed, from the symbol's own messages. */
  lemma FeedStatusIs(msgs: seq<Message<Body>>, symbol: string, i: nat)
    ensures var ms, b := Of(msgs, symbol), BookOf(FeedRun(msgs), symbol);
            && (LastOf(ms, IsHaltStatus, i) ==> (b.halted <==> ms[i] == SecurityStatus('4')))
            && (LastOf(ms, IsIndicator, i) ==> b.lastRpiIndicator == ms[i].indicator)
            && (LastOf(ms, IsMapping, i) ==> b.info == Some(ms[i].info))
            && (LastOf(ms, IsImbalance, i) ==> b.lastImbalance == Some(ms[i].imbalance))
  {
    var ms := Of(msgs, symbol);
    BookIsOwnRun(msgs, symbol);
    if LastOf(ms, IsHaltStatus, i) {
      HaltedIs(ms, i);
    } else if LastOf(ms, IsIndicator, i) {
      IndicatorIs(ms, i);
    } else if LastOf(ms, IsMapping, i) {
      InfoIs(ms, i);
    } else if LastOf(ms, IsImbalance, i) {
      ImbalanceIs(ms, i);
    }
  }

  // ----- the per-symbol theorems, on the whole feed -----

  /** A count taken on each symbol's own messages, for the symbols seen. */
  function PerBook(msgs: seq<Message<Body>>, count: seq<Body> -> nat): map<string, nat> {
    map s | s in FeedRun(msgs).books :: count(Of(msgs, s))
  }

  lemma TalliesAreCounts(msgs: seq<Message<Body>>, flag: (Book, Body) -> bool, count: seq<Body> -> nat)
    requires forall ms :: OwnTally(NextBook, EMPTY_BOOK, flag, ms) == count(ms)
    ensures Tally(NextBook, EMPTY_BOOK, flag, msgs) == Sum(PerBook(msgs, count))
  {
    FeedIsPerSymbol(msgs);
    TallyIsSum(NextBook, EMPTY_BOOK, flag, msgs);
    assert Tallies(NextBook, EMPTY_BOOK, flag, msgs) == PerBook(msgs, count);
  }

  /** Each failure counter is the sum of the failures of the single books (as a 64-bit counter). */
  lemma CountersAreSums(msgs: seq<Message<Body>>)
    ensures FeedRun(msgs).bookBuildFailures == Wrap(Sum(PerBook(msgs, D.BuildFailures)))
    ensures FeedRun(msgs).tradeLedgerFailures == Wrap(Sum(PerBook(msgs, T.LedgerFailures)))
  {
    FeedIsPerSymbol(msgs);
    forall ms
      ensures OwnTally(NextBook, EMPTY_BOOK, BuildFails, ms) == D.BuildFailures(ms)
      ensures OwnTally(NextBook, EMPTY_BOOK, LedgerFails, ms) == T.LedgerFailures(ms)
    {
      HalvesIndependent(ms);
    }
    TalliesAreCounts(msgs, BuildFails, D.BuildFailures);
    TalliesAreCounts(msgs, LedgerFails, T.LedgerFailures);
  }

  lemma SameCounts(msgs: seq<Message<Body>>, f: seq<Body> -> nat, g: seq<Body> -> nat)
    requires forall s :: f(Of(msgs, s)) == g(Of(msgs, s))
    ensures PerBook(msgs, f) == PerBook(msgs, g)
  {
  }

  /** "The single best correctness signal": with positive volumes and no overflow the build
      counter is exactly the number of messages that named an order not live on arrival. */
  lemma CounterIsUnknownTargets(msgs: seq<Message<Body>>)
    requires forall s :: C.NeverOverflows(Of(msgs, s)) && Top.PositiveVolumes(Of(msgs, s))
    ensures FeedRun(msgs).bookBuildFailures == Wrap(Sum(PerBook(msgs, Top.UnknownTargets)))
  {
    CountersAreSums(msgs);
    forall s ensures D.BuildFailures(Of(msgs, s)) == Top.UnknownTargets(Of(msgs, s)) {
      Top.FailuresAreUnknownTargets(Of(msgs, s));
    }
    SameCounts(msgs, D.BuildFailures, Top.UnknownTargets);
  }

  /** The next message of a feed has exactly its effect on the book of its symbol, and none on any
      other. */
  lemma FeedMessageDoes(msgs: seq<Message<Body>>, msg: Message<Body>, other: string)
    requires C.NeverOverflows(Of(msgs, msg.symbol) + [msg.body]) && other != msg.symbol
    ensures H.Effect(
              BookOf(FeedRun(msgs), msg.symbol).display, msg.body, BookOf(FeedRun(msgs + [msg]), msg.symbol).display)
    ensures BookOf(FeedRun(msgs + [msg]), other) == BookOf(FeedRun(msgs), other)
  {
    var next := msgs + [msg];
    assert next[..|msgs|] == msgs;
    OfSnoc(next, msg.symbol);
    OfSnoc(next, other);
    BookIsOwnRun(msgs, msg.symbol);
    BookIsOwnRun(next, msg.symbol);
    BookIsOwnRun(msgs, other);
    BookIsOwnRun(next, other);
    H.MessageDoes(Of(msgs, msg.symbol), msg.body);
  }

  /** What is live in the book of any symbol of any feed, from the history of its ID. */
  lemma FeedLiveIff(msgs: seq<Message<Body>>, symbol: string, id: u64)
    ensures var ms := Of(msgs, symbol);
            id in BookOf(FeedRun(msgs), symbol).display.orders <==> exists i :: H.LivesSince(ms, id, i, |ms|)
  {
    BookIsOwnRun(msgs, symbol);
    H.LiveIff(Of(msgs, symbol), id);
  }

  lemma FeedLiveOrderIs(msgs: seq<Message<Body>>, symbol: string, id: u64, i: nat, s: nat)
    requires var ms := Of(msgs, symbol); H.LivesSince(ms, id, i, |ms|) && H.LastSetting(ms, id, i, s, |ms|)
    ensures var ms, orders := Of(msgs, symbol), BookOf(FeedRun(msgs), symbol).display.orders;
            && H.Executed(ms, id, s + 1, |ms|) <= ms[s].volume
            && id in orders
            && orders[id] == D.LiveOrder(ms[s].price, ms[s].volume - H.Executed(ms, id, s + 1, |ms|), ms[i].side)
  {
    BookIsOwnRun(msgs, symbol);
    H.LiveOrderIs(Of(msgs, symbol), id, i, s);
  }

  /** What the top-of-book theorem needs of a symbol's own messages. */
  predicate WellFormed(ms: seq<Body>) {
    C.NeverOverflows(ms) && Top.PositiveVolumes(ms) && C.NeverReuses(ms)
  }

  /** The top of the book of any symbol of any feed: the greatest price of a live 'B' order and the
      least price of any other live order, with the summed volumes there, absent exactly when no such
      order lives. */
  lemma FeedTopRefinesOrders(msgs: seq<Message<Body>>, symbol: string)
    requires WellFormed(Of(msgs, symbol))
    ensures var d := BookOf(FeedRun(msgs), symbol).display; Top.IsTopOf(Top.GetTopOfBook(d), d.orders)
  {
    BookIsOwnRun(msgs, symbol);
    Top.TopOfBookRefinesOrders(Of(msgs, symbol));
  }

  /** Conservation in the book of any symbol of any feed. */
  lemma FeedConserves(msgs: seq<Message<Body>>, symbol: string, bid: bool, price: Price)
    requires C.NeverOverflows(Of(msgs, symbol))
    ensures var d := BookOf(FeedRun(msgs), symbol).display;
            C.LevelVolume(d, bid, price) == D.Resting(d.orders, bid, price) + C.Phantom(Of(msgs, symbol), bid, price)
  {
    BookIsOwnRun(msgs, symbol);
    C.ConservationHolds(Of(msgs, symbol), bid, price);
  }
}
