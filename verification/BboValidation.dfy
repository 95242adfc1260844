/** Freezing each symbol's top of book at its reference quote's timestamp while a feed is replayed. */
module BboValidation {
  import opened Words
  import opened Messages
  import opened PerSymbol
  import opened PriceLevels
  import opened Feed
  import D = DisplayBook
  import Top = TopOfBook
  import Book = OrderBook

  /** A decoded message with the time its header carries. */
  datatype Event = Event(nanosSinceMidnight: u64, msg: Message<Body>)

  function Msgs(es: seq<Event>): seq<Message<Body>> {
    if es == [] then [] else Msgs(es[..|es| - 1]) + [es[|es| - 1].msg]
  }

  /** The message types reported as moving the displayed book. */
  predicate MutatesBook(m: Body) {
    m.AddOrder? || m.ModifyOrder? || m.DeleteOrder? || m.OrderExecution? || m.ReplaceOrder? || m.AddOrderRefresh?
  }

  /** The events that freeze their symbol: book-moving, and not past the reference time. */
  predicate Freezes(reference: map<string, u64>, e: Event) {
    && MutatesBook(e.msg.body)
    && e.msg.symbol in reference
    && e.nanosSinceMidnight <= reference[e.msg.symbol]
  }

  const NO_QUOTES := Top.TopOfBook(None, None)

  /** The top of book of a symbol after a stream. */
  type TopReading = (seq<Message<Body>>, string) -> Top.TopOfBook

  function BookTop(msgs: seq<Message<Body>>, symbol: string): Top.TopOfBook {
    Top.GetTopOfBook(BookOf(FeedRun(msgs), symbol).display)
  }

  /** The frozen snapshots after a replay, for any way of reading the top. */
  function Frozen(reference: map<string, u64>, top: TopReading, es: seq<Event>): map<string, Top.TopOfBook> {
    if es == [] then
      map[]
    else
      var e := es[|es| - 1];
      var frozen := Frozen(reference, top, es[..|es| - 1]);
      if Freezes(reference, e) then frozen[e.msg.symbol := top(Msgs(es), e.msg.symbol)] else frozen
  }

  lemma MsgsSnoc(es: seq<Event>, e: Event)
    ensures Msgs(es + [e]) == Msgs(es) + [e.msg]
  {
    assert (es + [e])[..|es|] == es;
  }

  lemma Snoc(reference: map<string, u64>, top: TopReading, es: seq<Event>, e: Event)
    ensures Msgs(es + [e]) == Msgs(es) + [e.msg]
    ensures Frozen(reference, top, es + [e]) ==
            if Freezes(reference, e)
            then Frozen(reference, top, es)[e.msg.symbol := top(Msgs(es + [e]), e.msg.symbol)]
            else Frozen(reference, top, es)
  {
    assert (es + [e])[..|es|] == es;
  }

  class Replayer {
    const reference: map<string, u64>
    const book: Book.OrderBook
    var frozen: map<string, Top.TopOfBook>
    ghost var events: seq<Event>  // what has been replayed

    ghost predicate Valid()
      reads this, book, book.Repr
    {
      && book.HasTaken(Msgs(events))
      && frozen == Frozen(reference, BookTop, events)
    }

    constructor (reference: map<string, u64>)
      ensures Valid() && events == [] && this.reference == reference && fresh(book) && fresh(book.Repr)
    {
      this.reference := reference;
      book := new Book.OrderBook();
      frozen, events := map[], [];
    }

    /** The snapshots once the book has taken the message: renewed if it is still time. */
    method Freeze(e: Event) returns (snapshots: map<string, Top.TopOfBook>)
      requires book.HasTaken(Msgs(events + [e]))
      requires frozen == Frozen(reference, BookTop, events)
      ensures snapshots == Frozen(reference, BookTop, events + [e])
    {
      Snoc(reference, BookTop, events, e);
      snapshots := frozen;
      if !MutatesBook(e.msg.body) {
        return;
      }
      if e.msg.symbol !in reference {
        return;
      }
      if e.nanosSinceMidnight <= reference[e.msg.symbol] {
        var top := book.GetTopOfBook(e.msg.symbol);
        snapshots := snapshots[e.msg.symbol := top];
      }
    }

    method Apply(e: Event)
      requires Valid()
      modifies book, book.Repr
      ensures book.HasTaken(Msgs(events + [e]))
      ensures fresh(book.Repr - old(book.Repr))
    {
      MsgsSnoc(events, e);
      book.OnNext(Msgs(events), e.msg);
    }

    /** Takes over the new snapshots; the book is not touched. */
    method Keep(snapshots: map<string, Top.TopOfBook>, ghost e: Event)
      requires book.HasTaken(Msgs(events + [e]))
      requires snapshots == Frozen(reference, BookTop, events + [e])
      modifies this`frozen, this`events
      ensures Valid() && events == old(events) + [e]
    {
      frozen, events := snapshots, events + [e];
      book.SameView();
    }

    /** The engine callback: apply the message, then freeze if it is still time. */
    method OnMessage(e: Event)
      requires Valid()
      modifies this, book, book.Repr
      ensures Valid() && events == old(events) + [e]
      ensures fresh(book.Repr - old(book.Repr))
    {
      Apply(e);
      var snapshots := Freeze(e);
      Keep(snapshots, e);
    }
  }

  // ----- what is frozen, for any framed reading of the top -----

  predicate Moves(e: Event, symbol: string) {
    e.msg.symbol == symbol && MutatesBook(e.msg.body)
  }

  /** A message of another symbol, or of a type reported as not moving the book, leaves the top
      of book of `symbol` alone; at the start there is none. */
  ghost predicate Framed(top: TopReading) {
    && (forall symbol :: top([], symbol) == NO_QUOTES)
    && (forall msgs, m: Message<Body>, symbol :: m.symbol != symbol || !MutatesBook(m.body) ==>
         top(msgs + [m], symbol) == top(msgs, symbol))
  }

  predicate FreezesSymbol(reference: map<string, u64>, e: Event, symbol: string) {
    e.msg.symbol == symbol && Freezes(reference, e)
  }

  /** Event `i` is the last one that freezes `symbol`. */
  predicate IsLastFreeze(reference: map<string, u64>, es: seq<Event>, symbol: string, i: nat) {
    && i < |es|
    && FreezesSymbol(reference, es[i], symbol)
    && forall j :: i < j < |es| ==> !FreezesSymbol(reference, es[j], symbol)
  }

  /** On every replay a frozen symbol shows the top of book right after the last event that froze
      it, whatever the timestamps. */
  lemma {:induction false} FrozenAtLast(
    reference: map<string, u64>, top: TopReading, es: seq<Event>, symbol: string, i: nat)
    requires IsLastFreeze(reference, es, symbol, i)
    ensures symbol in Frozen(reference, top, es)
    ensures Frozen(reference, top, es)[symbol] == top(Msgs(es[..i + 1]), symbol)
  {
    if i == |es| - 1 {
      assert es[..i + 1] == es;
    } else {
      FrozenAtLast(reference, top, es[..|es| - 1], symbol, i);
      assert es[..|es| - 1][..i + 1] == es[..i + 1];
    }
  }

  /** A symbol that no event freezes has no snapshot. */
  lemma {:induction false} NeverFrozen(reference: map<string, u64>, top: TopReading, es: seq<Event>, symbol: string)
    requires forall i :: 0 <= i < |es| ==> !FreezesSymbol(reference, es[i], symbol)
    ensures symbol !in Frozen(reference, top, es)
  {
    if es != [] {
      assert !FreezesSymbol(reference, es[|es| - 1], symbol);
      NeverFrozen(reference, top, es[..|es| - 1], symbol);
    }
  }

  /** The book-moving events of `symbol` never go back in time. */
  predicate InTimeOrder(es: seq<Event>, symbol: string) {
    forall i, j :: 0 <= i < j < |es| && Moves(es[i], symbol) && Moves(es[j], symbol) ==>
      es[i].nanosSinceMidnight <= es[j].nanosSinceMidnight
  }

  /** `n` events make the longest prefix none of whose book-moving events of `symbol` is past `time`. */
  predicate IsCut(es: seq<Event>, symbol: string, time: u64, n: nat) {
    && n <= |es|
    && (forall i :: 0 <= i < n && Moves(es[i], symbol) ==> es[i].nanosSinceMidnight <= time)
    && (n < |es| ==> Moves(es[n], symbol) && es[n].nanosSinceMidnight > time)
  }

  function FrozenTop(reference: map<string, u64>, top: TopReading, es: seq<Event>, symbol: string): Top.TopOfBook {
    var frozen := Frozen(reference, top, es);
    if symbol in frozen then frozen[symbol] else NO_QUOTES
  }

  /** While no event is past the reference the snapshot follows the book. */
  lemma {:induction false} FollowsInTime(reference: map<string, u64>, top: TopReading, es: seq<Event>, symbol: string)
    requires Framed(top) && symbol in reference
    requires forall i :: 0 <= i < |es| && Moves(es[i], symbol) ==> es[i].nanosSinceMidnight <= reference[symbol]
    ensures FrozenTop(reference, top, es, symbol) == top(Msgs(es), symbol)
  {
    if es != [] {
      var front, e := es[..|es| - 1], es[|es| - 1];
      FollowsInTime(reference, top, front, symbol);
      if !Moves(e, symbol) {
        assert top(Msgs(front) + [e.msg], symbol) == top(Msgs(front), symbol);
      }
    }
  }

  /** Events past the reference leave it as it is. */
  lemma {:induction false} StaysAfterwards(
    reference: map<string, u64>, top: TopReading, es: seq<Event>, symbol: string, cut: nat)
    requires symbol in reference && cut <= |es|
    requires NoLateStamp(es, symbol, reference[symbol], cut)
    ensures FrozenTop(reference, top, es, symbol) == FrozenTop(reference, top, es[..cut], symbol)
  {
    if cut == |es| {
      assert es[..cut] == es;
    } else {
      var front := es[..|es| - 1];
      assert NoLateStamp(front, symbol, reference[symbol], cut);
      StaysAfterwards(reference, top, front, symbol, cut);
      assert front[..cut] == es[..cut];
      assert !FreezesSymbol(reference, es[|es| - 1], symbol);
    }
  }

  /** No book-moving event of `symbol` behind the cut is stamped before the reference again. */
  predicate NoLateStamp(es: seq<Event>, symbol: string, time: u64, cut: nat) {
    forall i :: cut <= i < |es| && Moves(es[i], symbol) ==> es[i].nanosSinceMidnight > time
  }

  lemma TimeOrderHasNoLateStamp(es: seq<Event>, symbol: string, time: u64, cut: nat)
    requires InTimeOrder(es, symbol) && IsCut(es, symbol, time, cut)
    ensures NoLateStamp(es, symbol, time, cut)
  {
  }

  // ----- the order book's own top -----

  lemma BookTopOfOwn(msgs: seq<Message<Body>>, symbol: string)
    ensures BookTop(msgs, symbol) == Top.GetTopOfBook(D.Run(Of(msgs, symbol)))
  {
    BookIsOwnRun(msgs, symbol);
  }

  lemma FrameStep(d: D.Display, m: Body)
    requires !MutatesBook(m)
    ensures D.Apply(d, m).display == d
  {
  }

  predicate SameType(a: Body, b: Body) {
    match a
    case SymbolIndexMapping(_) => b.SymbolIndexMapping?
    case SecurityStatus(_) => b.SecurityStatus?
    case AddOrder(_, _, _, _) => b.AddOrder?
    case ModifyOrder(_, _, _, _) => b.ModifyOrder?
    case DeleteOrder(_) => b.DeleteOrder?
    case OrderExecution(_, _, _, _) => b.OrderExecution?
    case ReplaceOrder(_, _, _, _, _) => b.ReplaceOrder?
    case RetailPriceImprovement(_) => b.RetailPriceImprovement?
    case Imbalance(_) => b.Imbalance?
    case AddOrderRefresh(_, _, _, _) => b.AddOrderRefresh?
    case NonDisplayedTrade(_, _, _) => b.NonDisplayedTrade?
    case CrossTrade(_, _, _) => b.CrossTrade?
    case TradeCancel(_) => b.TradeCancel?
    case CrossCorrection(_, _) => b.CrossCorrection?
  }

  ghost predicate MovesATop(m: Body) {
    exists d: D.Display, other: Body ::
      SameType(m, other) && Top.GetTopOfBook(D.Apply(d, other).display) != Top.GetTopOfBook(d)
  }

  /** A message type is reported as moving the book exactly if some message of the type moves the top
      of some book. */
  lemma ReportedIff(m: Body)
    ensures MutatesBook(m) <==> MovesATop(m)
  {
    var d: D.Display := D.DisplayData(map[1 := D.LiveOrder(10, 100, 'B')], Rung(10, 100, Empty), Empty);
    var other := MoverLike(m);
    if MutatesBook(m) {
      MoverMoves(d, other);
    } else {
      forall d: D.Display, other: Body | SameType(m, other) ensures D.Apply(d, other).display == d {
        FrameStep(d, other);
      }
    }
  }

  /** A message of the type that moves a bid of 100 at 10. */
  function MoverLike(m: Body): (other: Body)
    ensures SameType(m, other)
  {
    match m
    case AddOrder(_, _, _, _) => AddOrder(2, 11, 100, 'B')
    case AddOrderRefresh(_, _, _, _) => AddOrderRefresh(2, 11, 100, 'B')
    case ModifyOrder(_, _, _, _) => ModifyOrder(1, 11, 100, 'B')
    case DeleteOrder(_) => DeleteOrder(1)
    case OrderExecution(_, _, _, _) => OrderExecution(1, 1, 10, 40)
    case ReplaceOrder(_, _, _, _, _) => ReplaceOrder(1, 2, 11, 100, 'B')
    case _ => m
  }

  lemma MoverMoves(d: D.Display, m: Body)
    requires d == D.DisplayData(map[1 := D.LiveOrder(10, 100, 'B')], Rung(10, 100, Empty), Empty)
    requires MutatesBook(m) && m == MoverLike(m)
    ensures Top.GetTopOfBook(D.Apply(d, m).display) != Top.GetTopOfBook(d)
  {
    assert D.Apply(d, m).display.bids != d.bids;
  }

  /** No message type left out of `MutatesBook` can move a top of book. */
  lemma BookTopFramed()
    ensures Framed(BookTop)
  {
    forall symbol ensures BookTop([], symbol) == NO_QUOTES {
    }
    forall msgs, m: Message<Body>, symbol | m.symbol != symbol || !MutatesBook(m.body)
      ensures BookTop(msgs + [m], symbol) == BookTop(msgs, symbol)
    {
      BookTopOfOwn(msgs, symbol);
      BookTopOfOwn(msgs + [m], symbol);
      assert (msgs + [m])[..|msgs|] == msgs;
      OfSnoc(msgs + [m], symbol);
      if m.symbol == symbol {
        Top.RunSnoc(Of(msgs, symbol), m.body);
        FrameStep(D.Run(Of(msgs, symbol)), m.body);
      }
    }
  }

  /** Point-in-time correctness: when no book-moving message behind the cut is stamped late, the
      snapshot at the end is the top of book after the longest prefix not past the reference. */
  lemma FreezingIsPointInTime(reference: map<string, u64>, es: seq<Event>, symbol: string, cut: nat)
    requires symbol in reference && IsCut(es, symbol, reference[symbol], cut)
    requires NoLateStamp(es, symbol, reference[symbol], cut)
    ensures FrozenTop(reference, BookTop, es, symbol) == BookTop(Msgs(es[..cut]), symbol)
  {
    BookTopFramed();
    PointInTime(reference, BookTop, es, symbol, cut);
  }

  /** In particular when the symbol's book-moving messages are in time order. */
  lemma FreezingInTimeOrder(reference: map<string, u64>, es: seq<Event>, symbol: string, cut: nat)
    requires symbol in reference && IsCut(es, symbol, reference[symbol], cut) && InTimeOrder(es, symbol)
    ensures FrozenTop(reference, BookTop, es, symbol) == BookTop(Msgs(es[..cut]), symbol)
  {
    TimeOrderHasNoLateStamp(es, symbol, reference[symbol], cut);
    FreezingIsPointInTime(reference, es, symbol, cut);
  }

  lemma PointInTime(reference: map<string, u64>, top: TopReading, es: seq<Event>, symbol: string, cut: nat)
    requires Framed(top) && symbol in reference && IsCut(es, symbol, reference[symbol], cut)
    requires NoLateStamp(es, symbol, reference[symbol], cut)
    ensures FrozenTop(reference, top, es, symbol) == top(Msgs(es[..cut]), symbol)
  {
    FollowsInTime(reference, top, es[..cut], symbol);
    StaysAfterwards(reference, top, es, symbol, cut);
  }

  // ----- when freezing is point-in-time correct -----

  /** The snapshot is right whatever the top of book is, as long as it is framed. */
  ghost predicate RightForEveryReading(reference: map<string, u64>, es: seq<Event>, symbol: string, cut: nat)
    requires cut <= |es|
  {
    forall top :: Framed(top) ==> FrozenTop(reference, top, es, symbol) == top(Msgs(es[..cut]), symbol)
  }

  /** How many messages of a stream move the book of `symbol`. */
  function MoveCount(msgs: seq<Message<Body>>, symbol: string): nat {
    if msgs == [] then
      0
    else
      var m := msgs[|msgs| - 1];
      MoveCount(msgs[..|msgs| - 1], symbol) + if m.symbol == symbol && MutatesBook(m.body) then 1 else 0
  }

  /** A reading that every book-moving message changes. */
  function CountedTop(msgs: seq<Message<Body>>, symbol: string): Top.TopOfBook {
    if MoveCount(msgs, symbol) == 0 then NO_QUOTES
    else Top.TopOfBook(Some(Top.PriceLevel(MoveCount(msgs, symbol), 0)), None)
  }

  lemma CountedTopFramed()
    ensures Framed(CountedTop)
  {
    forall msgs, m: Message<Body>, symbol | m.symbol != symbol || !MutatesBook(m.body)
      ensures CountedTop(msgs + [m], symbol) == CountedTop(msgs, symbol)
    {
      assert (msgs + [m])[..|msgs|] == msgs;
    }
  }

  lemma CountSnoc(es: seq<Event>, symbol: string, n: nat)
    requires n < |es|
    ensures MoveCount(Msgs(es[..n + 1]), symbol) ==
            MoveCount(Msgs(es[..n]), symbol) + if Moves(es[n], symbol) then 1 else 0
  {
    MsgsSnoc(es[..n], es[n]);
    assert es[..n] + [es[n]] == es[..n + 1];
    var msgs := Msgs(es[..n]);
    assert (msgs + [es[n].msg])[..|msgs|] == msgs;
  }

  lemma {:induction false} CountGrows(es: seq<Event>, symbol: string, a: nat, b: nat)
    requires a <= b <= |es|
    ensures MoveCount(Msgs(es[..a]), symbol) <= MoveCount(Msgs(es[..b]), symbol)
    decreases b
  {
    if a < b {
      CountGrows(es, symbol, a, b - 1);
      CountSnoc(es, symbol, b - 1);
    }
  }

  /** Where something freezes a symbol, something freezes it last. */
  lemma {:induction false} LastFreeze(reference: map<string, u64>, es: seq<Event>, symbol: string, i: nat)
    returns (last: nat)
    requires i < |es| && FreezesSymbol(reference, es[i], symbol)
    ensures i <= last && IsLastFreeze(reference, es, symbol, last)
    decreases |es| - i
  {
    last := i;
    if j: nat :| i < j < |es| && FreezesSymbol(reference, es[j], symbol) {
      last := LastFreeze(reference, es, symbol, j);
    }
  }

  /** A late stamp behind the cut puts the snapshot out of step with the counting reading. */
  lemma LateStampMiscounts(reference: map<string, u64>, es: seq<Event>, symbol: string, cut: nat, i: nat)
    requires symbol in reference && cut <= i < |es|
    requires Moves(es[i], symbol) && es[i].nanosSinceMidnight <= reference[symbol]
    ensures FrozenTop(reference, CountedTop, es, symbol) != CountedTop(Msgs(es[..cut]), symbol)
  {
    var last := LastFreeze(reference, es, symbol, i);
    FrozenAtLast(reference, CountedTop, es, symbol, last);
    CountGrows(es, symbol, cut, last);
    CountSnoc(es, symbol, last);
  }

  /** Freezing is point-in-time correct for every reading of the top if and only if no book-moving
      message behind the cut is stamped at or before the reference time. */
  lemma RightForEveryReadingIff(reference: map<string, u64>, es: seq<Event>, symbol: string, cut: nat)
    requires symbol in reference && IsCut(es, symbol, reference[symbol], cut)
    ensures RightForEveryReading(reference, es, symbol, cut) <==> NoLateStamp(es, symbol, reference[symbol], cut)
  {
    if NoLateStamp(es, symbol, reference[symbol], cut) {
      forall top | Framed(top) ensures FrozenTop(reference, top, es, symbol) == top(Msgs(es[..cut]), symbol) {
        PointInTime(reference, top, es, symbol, cut);
      }
    } else {
      var i :| cut <= i < |es| && Moves(es[i], symbol) && !(es[i].nanosSinceMidnight > reference[symbol]);
      CountedTopFramed();
      LateStampMiscounts(reference, es, symbol, cut, i);
    }
  }

  function Bid(orderId: u64, price: Price): Body {
    AddOrder(orderId, price, 100, 'B')
  }

  function Quote(nanos: u64, symbol: string, orderId: u64, price: Price): Event {
    Event(nanos, Message(symbol, Bid(orderId, price)))
  }

  /** Without that it is not: a late message stamped early freezes the book once more. */
  lemma LateStampRefreezes(symbol: string)
    ensures var es := [] + [Quote(1, symbol, 1, 10)] + [Quote(9, symbol, 2, 11)] + [Quote(2, symbol, 3, 12)];
            && IsCut(es, symbol, 5, 1)
            && FrozenTop(map[symbol := 5], BookTop, es, symbol) != BookTop(Msgs(es[..1]), symbol)
  {
    var e1, e2, e3 := Quote(1, symbol, 1, 10), Quote(9, symbol, 2, 11), Quote(2, symbol, 3, 12);
    Snoc(map[symbol := 5], BookTop, [] + [e1] + [e2], e3);
    OwnBids(symbol);
    assert ([] + [e1] + [e2] + [e3])[..1] == [] + [e1];
  }

  lemma OwnBids(symbol: string)
    ensures var e1, e2, e3 := Quote(1, symbol, 1, 10), Quote(9, symbol, 2, 11), Quote(2, symbol, 3, 12);
            BookTop(Msgs([] + [e1]), symbol) != BookTop(Msgs([] + [e1] + [e2] + [e3]), symbol)
  {
    var e1, e2, e3 := Quote(1, symbol, 1, 10), Quote(9, symbol, 2, 11), Quote(2, symbol, 3, 12);
    OwnSnoc([], e1, symbol);
    OwnSnoc([] + [e1], e2, symbol);
    OwnSnoc([] + [e1] + [e2], e3, symbol);
    BookTopOfOwn(Msgs([] + [e1]), symbol);
    BookTopOfOwn(Msgs([] + [e1] + [e2] + [e3]), symbol);
    BidsStack();
  }

  lemma OwnSnoc(es: seq<Event>, e: Event, symbol: string)
    requires e.msg.symbol == symbol
    ensures Of(Msgs(es + [e]), symbol) == Of(Msgs(es), symbol) + [e.msg.body]
  {
    assert (es + [e])[..|es|] == es;
    assert Msgs(es + [e])[..|Msgs(es)|] == Msgs(es);
    OfSnoc(Msgs(es + [e]), symbol);
  }

  lemma BidsStack()
    ensures D.Run([] + [Bid(1, 10)]).bids == Rung(10, 100, Empty)
    ensures D.Run([] + [Bid(1, 10)] + [Bid(2, 11)] + [Bid(3, 12)]).bids ==
            Rung(12, 100, Rung(11, 100, Rung(10, 100, Empty)))
  {
    Top.RunSnoc([], Bid(1, 10));
    Top.RunSnoc([] + [Bid(1, 10)], Bid(2, 11));
    Top.RunSnoc([] + [Bid(1, 10)] + [Bid(2, 11)], Bid(3, 12));
    assert D.Run([]) == D.EMPTY_DISPLAY;
  }
}
