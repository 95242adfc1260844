/** The `TradeLedger` class: per-symbol ledgers updated in place. */
module TradeLedger {
  import opened Words
  import opened DailyStatistics
  import opened PerSymbol
  import opened MapSum
  import L = Ledger

  class SymbolLedger<Id(==)> {
    ghost const symbol: string  // the key of this ledger in its owner
    var log: seq<TradeRecord>
    var byId: map<Id, nat>
    var stats: DailyStats

    ghost predicate Valid()
      reads this
    {
      L.Indexed(L.LedgerData(log, byId, stats))
    }

    ghost function Value(): L.Ledger<Id>
      reads this
      requires Valid()
    {
      L.LedgerData(log, byId, stats)
    }

    constructor (ghost symbol: string)
      ensures Valid() && Value() == L.EmptyLedger() && this.symbol == symbol
    {
      this.symbol := symbol;
      log, byId, stats := [], map[], NO_TRADES;
    }

    method AppendRaw(price: Price, volume: u64) returns (index: nat)
      modifies this`log
      ensures log == old(log) + [TradeRecord(price, volume, false)]
      ensures index == |old(log)|
    {
      log := log + [TradeRecord(price, volume, false)];
      index := |log| - 1;
    }

    static method FoldIntoStats(s: DailyStats, price: Price, volume: u64) returns (stats: DailyStats)
      ensures stats == FoldIn(s, price, volume)
    {
      stats := s;
      if stats.open.None? {
        stats := stats.(open := Some(price));
      }
      if stats.high.None? || price > stats.high.value {
        stats := stats.(high := Some(price));
      }
      if stats.low.None? || price < stats.low.value {
        stats := stats.(low := Some(price));
      }
      stats := stats.(close := Some(price));
      stats := stats.(totalVolume := Wrap(stats.totalVolume + volume));
    }

    /** Rebuilds the statistics from the live records (`FoldSummarizes` says what they are). */
    method Recompute()
      modifies this`stats
      ensures stats == Fold(log)
    {
      var s := NO_TRADES;
      for i := 0 to |log|
        invariant s == Fold(log[..i])
      {
        assert log[..i + 1][..i] == log[..i];
        if log[i].cancelled {
          continue;
        }
        s := FoldIntoStats(s, log[i].price, log[i].volume);
      }
      assert log[..|log|] == log;
      stats := s;
    }

    method RecordTrade(id: Id, price: Price, volume: u64)
      requires Valid()
      modifies this
      ensures Valid() && Value() == L.RecordTrade(old(Value()), id, price, volume)
    {
      var index := AppendRaw(price, volume);
      byId := byId[id := index];
      stats := FoldIntoStats(stats, price, volume);
    }

    method CancelTrade(id: Id) returns (ok: bool)
      requires Valid()
      modifies this
      ensures Valid() && L.LedgerStep(Value(), ok) == L.CancelTrade(old(Value()), id)
    {
      if id !in byId || log[byId[id]].cancelled {
        return false;
      }
      log := log[byId[id] := log[byId[id]].(cancelled := true)];
      Recompute();
      return true;
    }

    method AdjustVolume(id: Id, newVolume: u64) returns (ok: bool)
      requires Valid()
      modifies this
      ensures Valid() && L.LedgerStep(Value(), ok) == L.AdjustVolume(old(Value()), id, newVolume)
    {
      if id !in byId {
        return false;
      }
      var trade := log[byId[id]];
      CorrectedIsExact(stats.totalVolume, trade.volume, newVolume);
      stats := stats.(totalVolume := Corrected(stats.totalVolume, trade.volume, newVolume));
      log := log[byId[id] := trade.(volume := newVolume)];
      return true;
    }

    method ReplaceTrade(oldId: Id, newId: Id, price: Price, volume: u64) returns (foundOld: bool)
      requires Valid()
      modifies this
      ensures Valid() && L.LedgerStep(Value(), foundOld) == L.ReplaceTrade(old(Value()), oldId, newId, price, volume)
    {
      foundOld := false;
      if oldId in byId && !log[byId[oldId]].cancelled {
        log := log[byId[oldId] := log[byId[oldId]].(cancelled := true)];
        foundOld := true;
      }
      var index := AppendRaw(price, volume);
      byId := byId[newId := index];
      Recompute();
    }

    /** Any of the four operations, and whether it succeeded. */
    method Apply(op: L.Op<Id>) returns (ok: bool)
      requires Valid()
      modifies this
      ensures Valid() && L.LedgerStep(Value(), ok) == L.Apply(old(Value()), op)
    {
      match op
      case Record(id, price, volume) =>
        RecordTrade(id, price, volume);
        ok := true;
      case Cancel(id) => ok := CancelTrade(id);
      case Adjust(id, volume) => ok := AdjustVolume(id, volume);
      case Replace(oldId, id, price, volume) => ok := ReplaceTrade(oldId, id, price, volume);
    }
  }

  /** All symbols together, as a value. */
  datatype LedgerState<Id(==)> = LedgerState(ledgers: map<string, L.Ledger<Id>>, failures: u64)

  function LedgerOf<Id(==)>(s: LedgerState<Id>, symbol: string): L.Ledger<Id> {
    PartOf(s.ledgers, L.EmptyLedger(), symbol)
  }

  function Step<Id(==)>(s: LedgerState<Id>, msg: Message<L.Op<Id>>): LedgerState<Id> {
    var r := L.Apply(LedgerOf(s, msg.symbol), msg.body);
    LedgerState(s.ledgers[msg.symbol := r.ledger], if r.ok then s.failures else Wrap(s.failures + 1))
  }

  function LedgerRun<Id(==)>(msgs: seq<Message<L.Op<Id>>>): LedgerState<Id> {
    if msgs == [] then LedgerState(map[], 0) else Step(LedgerRun(msgs[..|msgs| - 1]), msgs[|msgs| - 1])
  }

  function NextLedger<Id(==)>(l: L.Ledger<Id>, op: L.Op<Id>): L.Ledger<Id> {
    L.Apply(l, op).ledger
  }

  predicate Fails<Id(==)>(l: L.Ledger<Id>, op: L.Op<Id>) {
    !L.Apply(l, op).ok
  }

  /** The trade ledger is a per-symbol machine with one failure tally. */
  lemma {:induction false} LedgerIsPerSymbol<Id>(msgs: seq<Message<L.Op<Id>>>)
    ensures LedgerRun(msgs).ledgers == Run(NextLedger, L.EmptyLedger(), msgs)
    ensures LedgerRun(msgs).failures == Wrap(Tally(NextLedger, L.EmptyLedger(), Fails, msgs))
  {
    if msgs != [] {
      LedgerIsPerSymbol(msgs[..|msgs| - 1]);
      WrapAdd(Tally(NextLedger, L.EmptyLedger(), Fails, msgs[..|msgs| - 1]), 1);
    }
  }

  lemma {:induction false} OwnLedgerRun<Id>(ops: seq<L.Op<Id>>)
    ensures OwnRun(NextLedger, L.EmptyLedger(), ops) == L.Run(ops)
    ensures OwnTally(NextLedger, L.EmptyLedger(), Fails, ops) == L.Failures(ops)
  {
    if ops != [] {
      OwnLedgerRun(ops[..|ops| - 1]);
    }
  }

  /** Each symbol's ledger is the run of its own operations. */
  lemma LedgerIsOwnRun<Id>(msgs: seq<Message<L.Op<Id>>>, symbol: string)
    ensures symbol in LedgerRun(msgs).ledgers <==> Of(msgs, symbol) != []
    ensures LedgerOf(LedgerRun(msgs), symbol) == L.Run(Of(msgs, symbol))
  {
    LedgerIsPerSymbol(msgs);
    Projection(NextLedger, L.EmptyLedger(), msgs, symbol);
    OwnLedgerRun(Of(msgs, symbol));
  }

  function PerLedger<Id(==)>(msgs: seq<Message<L.Op<Id>>>): map<string, nat> {
    map s | s in LedgerRun(msgs).ledgers :: L.Failures(Of(msgs, s))
  }

  lemma TalliesAreFailures<Id>(msgs: seq<Message<L.Op<Id>>>)
    ensures Tallies(NextLedger, L.EmptyLedger(), Fails, msgs) == PerLedger(msgs)
  {
    LedgerIsPerSymbol(msgs);
    forall s ensures OwnTally(NextLedger, L.EmptyLedger(), Fails, Of(msgs, s)) == L.Failures(Of(msgs, s)) {
      OwnLedgerRun(Of(msgs, s));
    }
  }

  /** The failure counter is the sum of the failures of the single ledgers (as a 64-bit counter). */
  lemma LedgerFailuresAreSum<Id>(msgs: seq<Message<L.Op<Id>>>)
    ensures LedgerRun(msgs).failures == Wrap(Sum(PerLedger(msgs)))
  {
    LedgerIsPerSymbol(msgs);
    TallyIsSum(NextLedger, L.EmptyLedger(), Fails, msgs);
    TalliesAreFailures(msgs);
  }

  class TradeLedger<Id(==)> {
    var ledgers: map<string, SymbolLedger<Id>>
    var failures: u64
    ghost var Repr: set<SymbolLedger<Id>>  // the ledgers in use

    /** Every symbol has a ledger of its own. */
    ghost predicate Valid()
      reads this`ledgers, this`Repr, Repr
    {
      forall s <- ledgers :: ledgers[s] in Repr && ledgers[s].symbol == s && ledgers[s].Valid()
    }

    ghost function Ledgers(): map<string, L.Ledger<Id>>
      reads this`ledgers, this`Repr, Repr
      requires Valid()
    {
      map s | s in ledgers :: ledgers[s].Value()
    }

    ghost function View(): LedgerState<Id>
      reads this, Repr
      requires Valid()
    {
      LedgerState(Ledgers(), failures)
    }

    constructor ()
      ensures Valid() && View() == LedgerRun([]) && Repr == {}
    {
      ledgers, failures, Repr := map[], 0, {};
    }

    method GetOrCreate(symbol: string) returns (ledger: SymbolLedger<Id>)
      requires Valid()
      modifies this`ledgers, this`Repr
      ensures Valid()
      ensures symbol in ledgers && ledgers[symbol] == ledger
      ensures ledger.Value() == LedgerOf(old(View()), symbol)
      ensures ledgers.Keys == old(ledgers).Keys + {symbol}
      ensures forall s <- old(ledgers) :: ledgers[s] == old(ledgers)[s]
      ensures fresh(Repr - old(Repr)) && old(Repr) <= Repr
    {
      if symbol in ledgers {
        return ledgers[symbol];
      }
      ledger := new SymbolLedger(symbol);
      ledgers, Repr := ledgers[symbol := ledger], Repr + {ledger};
    }

    /** When no other ledger changed, the ledgers differ at `symbol` alone. */
    twostate lemma OnlyLedgerOf(symbol: string)
      requires old(Valid()) && symbol in ledgers
      requires ledgers.Keys == old(ledgers).Keys + {symbol}
      requires forall s <- old(ledgers) :: ledgers[s] == old(ledgers)[s]
      requires forall s <- old(ledgers) :: s != symbol ==> unchanged(ledgers[s])
      requires Valid()
      ensures Ledgers() == old(Ledgers())[symbol := ledgers[symbol].Value()]
    {
    }

    twostate lemma SameLedgers()
      requires old(Valid())
      requires ledgers == old(ledgers) && Repr == old(Repr)
      requires forall s <- ledgers :: unchanged(ledgers[s])
      ensures Valid() && Ledgers() == old(Ledgers())
    {
    }

    method Deliver(msg: Message<L.Op<Id>>) returns (ok: bool)
      requires Valid()
      modifies this`ledgers, this`Repr, Repr
      ensures Valid() && fresh(Repr - old(Repr))
      ensures var r := L.Apply(LedgerOf(old(View()), msg.symbol), msg.body);
              && Ledgers() == old(Ledgers())[msg.symbol := r.ledger]
              && ok == r.ok
    {
      var ledger := GetOrCreate(msg.symbol);
      ok := ledger.Apply(msg.body);
      OnlyLedgerOf(msg.symbol);
    }

    method CountFailure()
      requires Valid()
      modifies this`failures
      ensures Valid() && Ledgers() == old(Ledgers())
      ensures failures == Wrap(old(failures) + 1)
    {
      failures := Wrap(failures + 1);
      SameLedgers();
    }

    /** One operation, on the ledger of its symbol and the failure counter. */
    method Process(msg: Message<L.Op<Id>>) returns (ok: bool)
      requires Valid()
      modifies this, Repr
      ensures Valid() && fresh(Repr - old(Repr))
      ensures View() == Step(old(View()), msg)
      ensures ok == L.Apply(LedgerOf(old(View()), msg.symbol), msg.body).ok
    {
      ok := Deliver(msg);
      if !ok {
        CountFailure();
      }
    }
  }
}
