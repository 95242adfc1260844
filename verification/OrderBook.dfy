/** The `OrderBook` class: per-symbol books updated in place. */
module OrderBook {
  import opened PerSymbol
  import opened Words
  import opened Messages
  import opened PriceLevels
  import opened DailyStatistics
  import opened Feed
  import opened MapSum
  import D = DisplayBook
  import T = TradeTape
  import Top = TopOfBook
  import C = Conservation
  import H = OrderHistory

  class SymbolBook {
    ghost const symbol: string  // the key of this book in its owner
    var orders: map<u64, D.LiveOrder>
    var bidLevels: Ladder
    var askLevels: Ladder
    var stats: DailyStats
    var halted: bool
    var lastRpiIndicator: Option<char>
    var info: Option<string>
    var lastImbalance: Option<string>
    var tradeLog: seq<TradeRecord>
    var tradesById: map<u64, nat>
    var crossesById: map<u64, nat>

    ghost predicate Valid()
      reads this
    {
      && D.Ordered(D.DisplayData(orders, bidLevels, askLevels))
      && T.InRange(T.TapeData(tradeLog, tradesById, crossesById, stats))
    }

    ghost function Value(): Book
      reads this
      requires Valid()
    {
      Book(
        D.DisplayData(orders, bidLevels, askLevels),
        T.TapeData(tradeLog, tradesById, crossesById, stats),
        halted, lastRpiIndicator, info, lastImbalance)
    }

    constructor (ghost symbol: string)
      ensures Valid() && Value() == EMPTY_BOOK && this.symbol == symbol
    {
      this.symbol := symbol;
      orders, bidLevels, askLevels := map[], Empty, Empty;
      stats := NO_TRADES;
      halted, lastRpiIndicator, info, lastImbalance := false, None, None, None;
      tradeLog, tradesById, crossesById := [], map[], map[];
    }

    method AddLevel(side: char, price: Price, volume: u64)
      requires Valid()
      modifies this
      ensures Valid()
      ensures Value() == old(Value()).(display := D.AddLevel(old(Value().display), side, price, volume))
    {
      if side == 'B' {
        AddAtSpec(Descending, bidLevels, price, volume, price);
        bidLevels := AddAt(Descending, bidLevels, price, volume);
      } else {
        AddAtSpec(Ascending, askLevels, price, volume, price);
        askLevels := AddAt(Ascending, askLevels, price, volume);
      }
    }

    /** False, with the book untouched, when the level is missing or holds less than `volume`. */
    method RemoveLevel(side: char, price: Price, volume: u64) returns (ok: bool)
      requires Valid()
      modifies this
      ensures Valid()
      ensures Value() == old(Value()).(display := D.RemoveLevel(old(Value().display), side, price, volume).display)
      ensures ok == !D.RemoveLevel(old(Value().display), side, price, volume).failed
      ensures ok <==> old(var l := if side == 'B' then bidLevels else askLevels;
                          Has(l, price) && volume <= VolumeAt(l, price))
    {
      if side == 'B' {
        TakeAtSpec(Descending, bidLevels, price, volume, price);
        var r := TakeAt(bidLevels, price, volume);
        if r.None? {
          return false;
        }
        bidLevels := r.value;
        return true;
      }
      TakeAtSpec(Ascending, askLevels, price, volume, price);
      var r := TakeAt(askLevels, price, volume);
      if r.None? {
        return false;
      }
      askLevels := r.value;
      return true;
    }

    method AppendTrade(price: Price, volume: u64) returns (index: nat)
      requires Valid()
      modifies this
      ensures Valid()
      ensures Value() == old(Value()).(tape := T.AppendTrade(old(Value().tape), price, volume))
      ensures index == |old(tradeLog)| == |tradeLog| - 1
    {
      if stats.open.None? {
        stats := stats.(open := Some(price));
      }
      if stats.high.None? || price > stats.high.value {
        stats := stats.(high := Some(price));
      }
      if stats.low.None? || price < stats.low.value {
        stats := stats.(low := Some(price));
      }
      stats := stats.(close := Some(price));
      stats := stats.(totalVolume := Wrap(stats.totalVolume + volume));

      tradeLog := tradeLog + [TradeRecord(price, volume, false)];
      index := |tradeLog| - 1;
    }

    /** Rebuilds the statistics from the live records (`FoldSummarizes` says what they are). */
    method RecomputeStats()
      requires Valid()
      modifies this`stats
      ensures Valid()
      ensures stats == Fold(tradeLog)
    {
      var s := NO_TRADES;
      for i := 0 to |tradeLog|
        invariant s == Fold(tradeLog[..i])
      {
        var trade := tradeLog[i];
        assert tradeLog[..i + 1][..i] == tradeLog[..i];
        if trade.cancelled {
          continue;
        }
        if s.open.None? {
          s := s.(open := Some(trade.price));
        }
        if s.high.None? || trade.price > s.high.value {
          s := s.(high := Some(trade.price));
        }
        if s.low.None? || trade.price < s.low.value {
          s := s.(low := Some(trade.price));
        }
        s := s.(close := Some(trade.price));
        s := s.(totalVolume := Wrap(s.totalVolume + trade.volume));
      }
      assert tradeLog[..|tradeLog|] == tradeLog;
      stats := s;
    }

    /** Where the levels account for the orders and the message overflows none: its exact effect on
        orders and levels. */
    static ghost predicate HasEffect(d: D.Display, m: Body, d': D.Display) {
      H.Backed(d) && C.Fits(d, m) ==> H.Effect(d, m, d')
    }

    static lemma EffectHolds(d: D.Display, m: Body)
      ensures HasEffect(d, m, D.Apply(d, m).display)
    {
      if H.Backed(d) && C.Fits(d, m) {
        H.EffectOf(d, m);
      }
    }

    // The handlers below return whether the owner has to count a failure.

    method ApplyAddOrder(m: Body)
      requires Valid() && (m.AddOrder? || m.AddOrderRefresh?)
      modifies this
      ensures Valid() && Value() == NextBook(old(Value()), m)
      ensures HasEffect(old(Value().display), m, Value().display)
    {
      EffectHolds(Value().display, m);
      orders := orders[m.orderId := D.LiveOrder(m.price, m.volume, m.side)];
      AddLevel(m.side, m.price, m.volume);
    }

    method ApplyModifyOrder(m: Body) returns (failed: bool)
      requires Valid() && m.ModifyOrder?
      modifies this
      ensures Valid() && Value() == NextBook(old(Value()), m)
      ensures failed == BuildFails(old(Value()), m)
      ensures HasEffect(old(Value().display), m, Value().display)
    {
      EffectHolds(Value().display, m);
      if m.orderId !in orders {
        return true;
      }
      var order := orders[m.orderId];
      var removed := RemoveLevel(order.side, order.price, order.volume);
      failed := !removed;
      orders := orders[m.orderId := D.LiveOrder(m.price, m.volume, order.side)];
      AddLevel(order.side, m.price, m.volume);
    }

    method ApplyDeleteOrder(m: Body) returns (failed: bool)
      requires Valid() && m.DeleteOrder?
      modifies this
      ensures Valid() && Value() == NextBook(old(Value()), m)
      ensures failed == BuildFails(old(Value()), m)
      ensures HasEffect(old(Value().display), m, Value().display)
    {
      EffectHolds(Value().display, m);
      if m.orderId !in orders {
        return true;
      }
      var order := orders[m.orderId];
      var removed := RemoveLevel(order.side, order.price, order.volume);
      failed := !removed;
      orders := orders - {m.orderId};
    }

    method ApplyOrderExecution(m: Body) returns (failed: bool)
      requires Valid() && m.OrderExecution?
      modifies this
      ensures Valid() && Value() == NextBook(old(Value()), m)
      ensures failed == BuildFails(old(Value()), m)
      ensures HasEffect(old(Value().display), m, Value().display)
    {
      EffectHolds(Value().display, m);
      var index := AppendTrade(m.price, m.volume);
      tradesById := tradesById[m.tradeId := index];

      if m.orderId !in orders {
        return true;
      }
      var order := orders[m.orderId];
      // The rest of a partly executed order keeps its resting price, which is its level's key.
      var executed := if m.volume > order.volume then order.volume else m.volume;
      var removed := RemoveLevel(order.side, order.price, executed);
      failed := !removed;
      if m.volume >= order.volume {
        orders := orders - {m.orderId};
      } else {
        orders := orders[m.orderId := order.(volume := order.volume - m.volume)];
      }
    }

    method ApplyReplaceOrder(m: Body) returns (failed: bool)
      requires Valid() && m.ReplaceOrder?
      modifies this
      ensures Valid() && Value() == NextBook(old(Value()), m)
      ensures failed == BuildFails(old(Value()), m)
      ensures HasEffect(old(Value().display), m, Value().display)
    {
      EffectHolds(Value().display, m);
      if m.orderId !in orders {
        failed := true;
      } else {
        var order := orders[m.orderId];
        var removed := RemoveLevel(order.side, order.price, order.volume);
        failed := !removed;
        orders := orders - {m.orderId};
      }
      orders := orders[m.newOrderId := D.LiveOrder(m.price, m.volume, m.side)];
      AddLevel(m.side, m.price, m.volume);
    }

    method ApplyNonDisplayedTrade(m: Body)
      requires Valid() && m.NonDisplayedTrade?
      modifies this
      ensures Valid() && Value() == NextBook(old(Value()), m)
    {
      var index := AppendTrade(m.price, m.volume);
      tradesById := tradesById[m.tradeId := index];
    }

    method ApplyCrossTrade(m: Body)
      requires Valid() && m.CrossTrade?
      modifies this
      ensures Valid() && Value() == NextBook(old(Value()), m)
    {
      var index := AppendTrade(m.price, m.volume);
      crossesById := crossesById[m.crossId := index];
    }

    method ApplyTradeCancel(m: Body) returns (failed: bool)
      requires Valid() && m.TradeCancel?
      modifies this
      ensures Valid() && Value() == NextBook(old(Value()), m)
      ensures failed == LedgerFails(old(Value()), m)
    {
      if m.tradeId !in tradesById || tradeLog[tradesById[m.tradeId]].cancelled {
        return true;
      }
      var i := tradesById[m.tradeId];
      tradeLog := tradeLog[i := tradeLog[i].(cancelled := true)];
      RecomputeStats();
      return false;
    }

    method ApplyCrossCorrection(m: Body) returns (failed: bool)
      requires Valid() && m.CrossCorrection?
      modifies this
      ensures Valid() && Value() == NextBook(old(Value()), m)
      ensures failed == LedgerFails(old(Value()), m)
    {
      if m.crossId !in crossesById {
        return true;
      }
      var i := crossesById[m.crossId];
      var trade := tradeLog[i];
      CorrectedIsExact(stats.totalVolume, trade.volume, m.volume);
      stats := stats.(totalVolume := Corrected(stats.totalVolume, trade.volume, m.volume));
      tradeLog := tradeLog[i := trade.(volume := m.volume)];
      return false;
    }

    /** The single-field messages. */
    method ApplyStatus(m: Body)
      requires Valid()
      requires m.SymbolIndexMapping? || m.SecurityStatus? || m.RetailPriceImprovement? || m.Imbalance?
      modifies this
      ensures Valid() && Value() == NextBook(old(Value()), m)
    {
      match m
      case SymbolIndexMapping(i) => info := Some(i);
      case SecurityStatus(status) =>
        if status == '4' {
          halted := true;
        } else if status == '5' {
          halted := false;
        }
      case RetailPriceImprovement(indicator) => lastRpiIndicator := indicator;
      case Imbalance(i) => lastImbalance := Some(i);
    }

    /** The dispatch of `OnMessage`, once the book is at hand. */
    method Apply(m: Body) returns (buildFailed: bool, ledgerFailed: bool)
      requires Valid()
      modifies this
      ensures Valid() && Value() == NextBook(old(Value()), m)
      ensures buildFailed == BuildFails(old(Value()), m)
      ensures ledgerFailed == LedgerFails(old(Value()), m)
    {
      buildFailed, ledgerFailed := false, false;
      match m
      case AddOrder(_, _, _, _) => ApplyAddOrder(m);
      case ModifyOrder(_, _, _, _) => buildFailed := ApplyModifyOrder(m);
      case DeleteOrder(_) => buildFailed := ApplyDeleteOrder(m);
      case OrderExecution(_, _, _, _) => buildFailed := ApplyOrderExecution(m);
      case ReplaceOrder(_, _, _, _, _) => buildFailed := ApplyReplaceOrder(m);
      case AddOrderRefresh(_, _, _, _) => ApplyAddOrder(m);
      case NonDisplayedTrade(_, _, _) => ApplyNonDisplayedTrade(m);
      case CrossTrade(_, _, _) => ApplyCrossTrade(m);
      case TradeCancel(_) => ledgerFailed := ApplyTradeCancel(m);
      case CrossCorrection(_, _) => ledgerFailed := ApplyCrossCorrection(m);
      case _ => ApplyStatus(m);
    }
  }

  class OrderBook {
    var books: map<string, SymbolBook>
    var bookBuildFailures: u64
    var tradeLedgerFailures: u64
    ghost var Repr: set<SymbolBook>  // the books in use

    /** Every symbol has a book of its own. */
    ghost predicate Valid()
      reads this`books, this`Repr, Repr
    {
      forall s <- books :: books[s] in Repr && books[s].symbol == s && books[s].Valid()
    }

    ghost function Books(): map<string, Book>
      reads this`books, this`Repr, Repr
      requires Valid()
    {
      map s | s in books :: books[s].Value()
    }

    ghost function View(): FeedState
      reads this, Repr
      requires Valid()
    {
      FeedState(Books(), bookBuildFailures, tradeLedgerFailures)
    }

    constructor ()
      ensures HasTaken([]) && Repr == {}
    {
      books, bookBuildFailures, tradeLedgerFailures, Repr := map[], 0, 0, {};
    }

    method GetOrCreateBook(symbol: string) returns (book: SymbolBook)
      requires Valid()
      modifies this`books, this`Repr
      ensures Valid()
      ensures symbol in books && books[symbol] == book
      ensures book.Value() == BookOf(old(View()), symbol)
      ensures books.Keys == old(books).Keys + {symbol}
      ensures forall s <- old(books) :: books[s] == old(books)[s]
      ensures fresh(Repr - old(Repr)) && old(Repr) <= Repr
    {
      if symbol in books {
        return books[symbol];
      }
      book := new SymbolBook(symbol);
      books, Repr := books[symbol := book], Repr + {book};
    }

    /** When no other book changed, the books differ at `symbol` alone. */
    twostate lemma OnlyBookOf(symbol: string)
      requires old(Valid()) && symbol in books
      requires books.Keys == old(books).Keys + {symbol}
      requires forall s <- old(books) :: books[s] == old(books)[s]
      requires forall s <- old(books) :: s != symbol ==> unchanged(books[s])
      requires Valid()
      ensures Books() == old(Books())[symbol := books[symbol].Value()]
    {
    }

    twostate lemma SameBooks()
      requires old(Valid())
      requires books == old(books) && Repr == old(Repr)
      requires forall s <- books :: unchanged(books[s])
      ensures Valid() && Books() == old(Books())
    {
    }

    /** The view depends on nothing outside the order book. */
    twostate lemma SameView()
      requires old(Valid()) && unchanged(this)
      requires forall b <- Repr :: unchanged(b)
      ensures Valid() && View() == old(View())
    {
      SameBooks();
    }

    /** One message on the book of its symbol, before the counters. */
    method Deliver(msg: Message<Body>) returns (buildFailed: bool, ledgerFailed: bool)
      requires Valid()
      modifies this`books, this`Repr, Repr
      ensures Valid() && fresh(Repr - old(Repr))
      ensures var was := BookOf(old(View()), msg.symbol);
              && Books() == old(Books())[msg.symbol := NextBook(was, msg.body)]
              && buildFailed == BuildFails(was, msg.body)
              && ledgerFailed == LedgerFails(was, msg.body)
    {
      ghost var was := BookOf(View(), msg.symbol);
      var book := GetOrCreateBook(msg.symbol);
      buildFailed, ledgerFailed := book.Apply(msg.body);
      assert book.Value() == NextBook(was, msg.body);
      OnlyBookOf(msg.symbol);
    }

    method CountFailures(buildFailed: bool, ledgerFailed: bool)
      requires Valid()
      modifies this`bookBuildFailures, this`tradeLedgerFailures
      ensures Valid() && Books() == old(Books())
      ensures bookBuildFailures == Count(old(bookBuildFailures), buildFailed)
      ensures tradeLedgerFailures == Count(old(tradeLedgerFailures), ledgerFailed)
    {
      if buildFailed {
        bookBuildFailures := Wrap(bookBuildFailures + 1);
      }
      if ledgerFailed {
        tradeLedgerFailures := Wrap(tradeLedgerFailures + 1);
      }
      SameBooks();
    }

    /** One message, on the book of its symbol and the two counters. */
    method OnMessage(msg: Message<Body>)
      requires Valid()
      modifies this, Repr
      ensures Valid() && fresh(Repr - old(Repr))
      ensures View() == Step(old(View()), msg)
    {
      var buildFailed, ledgerFailed := Deliver(msg);
      CountFailures(buildFailed, ledgerFailed);
    }

    /** The state is the run of `msgs`. */
    ghost predicate HasTaken(msgs: seq<Message<Body>>)
      reads this, Repr
    {
      Valid() && View() == FeedRun(msgs)
    }

    /** `OnMessage` in the middle of a run: after `msgs` it leaves the state of `msgs + [msg]`. */
    method OnNext(ghost msgs: seq<Message<Body>>, msg: Message<Body>)
      requires HasTaken(msgs)
      modifies this, Repr
      ensures HasTaken(msgs + [msg]) && fresh(Repr - old(Repr))
    {
      OnMessage(msg);
      assert (msgs + [msg])[..|msgs|] == msgs;
    }

    /** Feeds a whole stream: the state is the run of the stream. */
    method Replay(msgs: seq<Message<Body>>)
      requires HasTaken([])
      modifies this, Repr
      ensures HasTaken(msgs) && fresh(Repr - old(Repr))
    {
      for i := 0 to |msgs|
        invariant HasTaken(msgs[..i]) && fresh(Repr - old(Repr))
      {
        assert msgs[..i] + [msgs[i]] == msgs[..i + 1];
        OnNext(msgs[..i], msgs[i]);
      }
      assert msgs[..|msgs|] == msgs;
    }

    /** The first entries of the two level maps; after any well-formed stream they are the best live
        prices of the symbol with their summed volumes. */
    method GetTopOfBook(symbol: string) returns (top: Top.TopOfBook)
      requires Valid()
      ensures top == Top.GetTopOfBook(BookOf(View(), symbol).display)
      ensures forall msgs :: HasTaken(msgs) && WellFormed(Of(msgs, symbol)) ==>
                Top.IsTopOf(top, BookOf(View(), symbol).display.orders)
    {
      top := ReadTop(symbol);
      forall msgs | HasTaken(msgs) && WellFormed(Of(msgs, symbol))
        ensures Top.IsTopOf(Top.GetTopOfBook(BookOf(View(), symbol).display), BookOf(View(), symbol).display.orders)
      {
        FeedTopRefinesOrders(msgs, symbol);
      }
    }

    method ReadTop(symbol: string) returns (top: Top.TopOfBook)
      requires Valid()
      ensures top == Top.GetTopOfBook(BookOf(View(), symbol).display)
    {
      top := Top.TopOfBook(None, None);
      if symbol !in books {
        return;
      }
      var book := books[symbol];
      if book.bidLevels != Empty {
        top := top.(bestBid := Some(Top.PriceLevel(book.bidLevels.price, book.bidLevels.volume)));
      }
      if book.askLevels != Empty {
        top := top.(bestAsk := Some(Top.PriceLevel(book.askLevels.price, book.askLevels.volume)));
      }
    }

    method GetDailyStats(symbol: string) returns (stats: DailyStats)
      requires Valid()
      ensures stats == BookOf(View(), symbol).tape.stats
    {
      stats := if symbol in books then books[symbol].stats else NO_TRADES;
    }

    lemma CountOneMore(total: u64, all: map<string, nat>, rest: set<string>, symbol: string)
      requires symbol in all && symbol in rest && total == Wrap(Sum(all - rest))
      ensures Wrap(total + all[symbol]) == Wrap(Sum(all - (rest - {symbol})))
    {
      SumKeep(all, rest, symbol);
      WrapAdd(Sum(all - rest), all[symbol]);
    }

    method GetLiveOrderCount() returns (total: u64)
      requires Valid()
      ensures total == Wrap(Sum(OrderCounts(View())))
    {
      ghost var view := View();
      CountsAreSizes();
      total := AddUpOrders(OrderCounts(view));
      SameView();
    }

    /** The order counts of the view are the sizes of the order maps. */
    lemma CountsAreSizes()
      requires Valid()
      ensures OrderCounts(View()).Keys == books.Keys
      ensures forall s <- books :: OrderCounts(View())[s] == |books[s].orders|
    {
    }

    /** The loop over the books; `counts` is what it visits. */
    method AddUpOrders(ghost counts: map<string, nat>) returns (total: u64)
      requires books.Keys == counts.Keys
      requires forall s <- books :: |books[s].orders| == counts[s]
      ensures total == Wrap(Sum(counts))
    {
      total := 0;
      var rest := books.Keys;
      SumEnds(counts);
      while rest != {}
        invariant rest <= books.Keys
        invariant total == Wrap(Sum(counts - rest))
      {
        var symbol :| symbol in rest;
        CountOneMore(total, counts, rest, symbol);
        total := Wrap(total + |books[symbol].orders|);
        rest := rest - {symbol};
      }
    }
  }
}
