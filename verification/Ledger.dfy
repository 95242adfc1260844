/** One symbol's trade ledger as a value: what the methods of `TradeLedger` compute. */
module Ledger {
  import opened Words
  import opened DailyStatistics

  datatype LedgerData<Id> = LedgerData(log: seq<TradeRecord>, byId: map<Id, nat>, stats: DailyStats)

  /** Every ID points into the log, and no two IDs point at the same record. */
  predicate Indexed<Id(==)>(l: LedgerData<Id>) {
    && (forall id <- l.byId :: l.byId[id] < |l.log|)
    && (forall a <- l.byId, b <- l.byId :: l.byId[a] == l.byId[b] ==> a == b)
  }

  type Ledger<Id(==)> = l: LedgerData<Id> | Indexed(l) witness LedgerData([], map[], NO_TRADES)

  /** A ledger and whether the operation succeeded; a failure is counted by the owner. */
  datatype LedgerStep<Id(==)> = LedgerStep(ledger: Ledger<Id>, ok: bool)

  datatype Op<Id> =
    | Record(id: Id, price: Price, volume: u64)
    | Cancel(id: Id)
    | Adjust(id: Id, volume: u64)
    | Replace(oldId: Id, id: Id, price: Price, volume: u64)

  function EmptyLedger<Id(==)>(): Ledger<Id> {
    LedgerData([], map[], NO_TRADES)
  }

  function RecordTrade<Id(==)>(l: Ledger<Id>, id: Id, price: Price, volume: u64): Ledger<Id> {
    LedgerData(l.log + [TradeRecord(price, volume, false)], l.byId[id := |l.log|], FoldIn(l.stats, price, volume))
  }

  predicate Cancellable<Id(==)>(l: Ledger<Id>, id: Id) {
    id in l.byId && !l.log[l.byId[id]].cancelled
  }

  function Cancelled(log: seq<TradeRecord>, i: nat): seq<TradeRecord>
    requires i < |log|
  {
    log[i := log[i].(cancelled := true)]
  }

  function CancelTrade<Id(==)>(l: Ledger<Id>, id: Id): LedgerStep<Id> {
    if Cancellable(l, id) then
      var log := Cancelled(l.log, l.byId[id]);
      LedgerStep(LedgerData(log, l.byId, Fold(log)), true)
    else
      LedgerStep(l, false)
  }

  function AdjustVolume<Id(==)>(l: Ledger<Id>, id: Id, volume: u64): LedgerStep<Id> {
    if id in l.byId then
      var i := l.byId[id];
      var total := Wrap(l.stats.totalVolume - l.log[i].volume + volume);
      LedgerStep(LedgerData(l.log[i := l.log[i].(volume := volume)], l.byId, l.stats.(totalVolume := total)), true)
    else
      LedgerStep(l, false)
  }

  function ReplaceTrade<Id(==)>(l: Ledger<Id>, oldId: Id, id: Id, price: Price, volume: u64): LedgerStep<Id> {
    var ok := Cancellable(l, oldId);
    var log := (if ok then Cancelled(l.log, l.byId[oldId]) else l.log) + [TradeRecord(price, volume, false)];
    LedgerStep(LedgerData(log, l.byId[id := |l.log|], Fold(log)), ok)
  }

  function Apply<Id(==)>(l: Ledger<Id>, op: Op<Id>): LedgerStep<Id> {
    match op
    case Record(id, price, volume) => LedgerStep(RecordTrade(l, id, price, volume), true)
    case Cancel(id) => CancelTrade(l, id)
    case Adjust(id, volume) => AdjustVolume(l, id, volume)
    case Replace(oldId, id, price, volume) => ReplaceTrade(l, oldId, id, price, volume)
  }

  /** The ledger after a whole run, from empty. */
  function Run<Id(==)>(ops: seq<Op<Id>>): Ledger<Id> {
    if ops == [] then EmptyLedger() else Apply(Run(ops[..|ops| - 1]), ops[|ops| - 1]).ledger
  }

  /** How many operations of a run failed. */
  function Failures<Id(==)>(ops: seq<Op<Id>>): nat {
    if ops == [] then
      0
    else
      var front := ops[..|ops| - 1];
      Failures(front) + if Apply(Run(front), ops[|ops| - 1]).ok then 0 else 1
  }

  // ----- fast form against simple form -----

  ghost predicate InStep<Id>(l: Ledger<Id>) {
    l.stats == Fold(l.log)
  }

  lemma FoldAppend(log: seq<TradeRecord>, price: Price, volume: u64)
    ensures var log' := log + [TradeRecord(price, volume, false)];
            && Fold(log') == FoldIn(Fold(log), price, volume)
            && LiveVolume(log') == LiveVolume(log) + volume
  {
    var log' := log + [TradeRecord(price, volume, false)];
    assert log'[..|log' | - 1] == log;
  }

  /** How far `_totalVolume` has run away from the live volume.  Only a volume correction that
      finds its record already cancelled moves it, and any rebuild of the statistics clears it. */
  function Drift<Id(==)>(ops: seq<Op<Id>>): int {
    if ops == [] then 0 else NextDrift(Run(ops[..|ops| - 1]), ops[|ops| - 1], Drift(ops[..|ops| - 1]))
  }

  function NextDrift<Id(==)>(l: Ledger<Id>, op: Op<Id>, drift: int): int {
    if Correction(l, op) then
      drift + op.volume - l.log[l.byId[op.id]].volume
    else if op.Replace? || (op.Cancel? && Cancellable(l, op.id)) then
      0
    else
      drift
  }

  /** `op` corrects the volume of a record that is no longer live. */
  predicate Correction<Id(==)>(l: Ledger<Id>, op: Op<Id>) {
    op.Adjust? && op.id in l.byId && l.log[l.byId[op.id]].cancelled
  }

  ghost predicate UpToDrift<Id>(l: Ledger<Id>, drift: int) {
    && SamePrices(l.stats, Fold(l.log))
    && l.stats.totalVolume == Wrap(LiveVolume(l.log) + drift)
  }

  lemma RecordKeepsDrift<Id>(l: Ledger<Id>, drift: int, id: Id, price: Price, volume: u64)
    requires UpToDrift(l, drift)
    ensures UpToDrift(RecordTrade(l, id, price, volume), drift)
  {
    FoldAppend(l.log, price, volume);
    WrapAdd(LiveVolume(l.log) + drift, volume);
  }

  /** A rebuild clears the drift. */
  lemma RebuiltHasNoDrift<Id>(l: Ledger<Id>)
    requires InStep(l)
    ensures UpToDrift(l, 0)
  {
    FoldTotal(l.log);
  }

  lemma AdjustDrift<Id>(l: Ledger<Id>, drift: int, id: Id, volume: u64)
    requires UpToDrift(l, drift) && id in l.byId
    ensures var t := l.log[l.byId[id]];
            UpToDrift(AdjustVolume(l, id, volume).ledger, drift + if t.cancelled then volume - t.volume else 0)
  {
    var i := l.byId[id];
    RestateVolume(l.log, i, volume);
    WrapAdd(LiveVolume(l.log) + drift, volume - l.log[i].volume);
  }

  lemma StepUpToDrift<Id>(l: Ledger<Id>, op: Op<Id>, drift: int)
    requires UpToDrift(l, drift)
    ensures UpToDrift(Apply(l, op).ledger, NextDrift(l, op, drift))
  {
    if op.Record? {
      RecordKeepsDrift(l, drift, op.id, op.price, op.volume);
    } else if op.Replace? || (op.Cancel? && Cancellable(l, op.id)) {
      RebuiltHasNoDrift(Apply(l, op).ledger);
    } else if op.Adjust? && op.id in l.byId {
      AdjustDrift(l, drift, op.id, op.volume);
    }
  }

  /** On every run at all: the prices never drift, and the volume drifts by exactly `Drift`. */
  lemma {:induction false} StatsUpToDrift<Id>(ops: seq<Op<Id>>)
    ensures UpToDrift(Run(ops), Drift(ops))
  {
    if ops == [] {
      RebuiltHasNoDrift(EmptyLedger<Id>());
    } else {
      StatsUpToDrift(ops[..|ops| - 1]);
      StepUpToDrift(Run(ops[..|ops| - 1]), ops[|ops| - 1], Drift(ops[..|ops| - 1]));
    }
  }

  lemma InStepIff<Id>(l: Ledger<Id>, drift: int)
    requires UpToDrift(l, drift)
    ensures InStep(l) <==> Wrap(drift) == 0
  {
    FoldTotal(l.log);
    WrapEqual(LiveVolume(l.log) + drift, LiveVolume(l.log));
  }

  /** The incrementally kept statistics are the rebuilt ones exactly when nothing has drifted. */
  lemma StatsAreFoldIff<Id>(ops: seq<Op<Id>>)
    ensures InStep(Run(ops)) <==> Wrap(Drift(ops)) == 0
  {
    StatsUpToDrift(ops);
    InStepIff(Run(ops), Drift(ops));
  }

  ghost predicate CorrectsOnlyLive<Id>(ops: seq<Op<Id>>) {
    forall n :: 0 <= n < |ops| ==> !Correction(Run(ops[..n]), ops[n])
  }

  /** If every correction finds its record live, the statistics are the declared ones. */
  lemma {:induction false} FastFormRefinesSpec<Id>(ops: seq<Op<Id>>)
    requires CorrectsOnlyLive(ops)
    ensures Drift(ops) == 0
    ensures Summarizes(Run(ops).stats, Run(ops).log)
  {
    NoDrift(ops);
    StatsAreFoldIff(ops);
    SummaryIsFold(Run(ops).stats, Run(ops).log);
  }

  lemma {:induction false} NoDrift<Id>(ops: seq<Op<Id>>)
    requires CorrectsOnlyLive(ops)
    ensures Drift(ops) == 0
  {
    if ops != [] {
      var front := ops[..|ops| - 1];
      forall n | 0 <= n < |front| ensures !Correction(Run(front[..n]), front[n]) {
        assert front[..n] == ops[..n] && front[n] == ops[n];
      }
      NoDrift(front);
      assert !Correction(Run(ops[..|ops| - 1]), ops[|ops| - 1]);
    }
  }

  /** One correction on statistics that are in step keeps them so exactly when its record is
      unknown or live, or the volume is not really changed. */
  lemma AdjustKeepsInStepIff<Id>(l: Ledger<Id>, id: Id, volume: u64)
    requires InStep(l)
    ensures InStep(AdjustVolume(l, id, volume).ledger) <==>
              id !in l.byId || !l.log[l.byId[id]].cancelled || volume == l.log[l.byId[id]].volume
  {
    if id in l.byId {
      PatchIsFoldIff(l.log, l.byId[id], volume);
    }
  }

  /** The same correction on a live record, in the bounded words of the code. */
  lemma AdjustExact<Id>(l: Ledger<Id>, id: Id, volume: u64)
    requires InStep(l) && Cancellable(l, id)
    requires LiveVolume(l.log) < TWO63 && volume < TWO63
    ensures var l' := AdjustVolume(l, id, volume).ledger;
            var old_ := l.log[l.byId[id]].volume;
            && LiveVolume(l'.log) == LiveVolume(l.log) - old_ + volume
            && (CorrectionDefined(l.stats.totalVolume, old_, volume) <==> LiveVolume(l'.log) < TWO63)
            && (LiveVolume(l'.log) < TWO63 ==>
                  0 <= AsSigned(l.stats.totalVolume) + Delta(old_, volume) == l'.stats.totalVolume == LiveVolume(l'.log))
  {
    LiveCorrectionExact(l.log, l.byId[id], volume);
    CorrectedIsExact(l.stats.totalVolume, l.log[l.byId[id]].volume, volume);
  }

  /** The smallest run that breaks the statistics: record a trade, cancel it, correct it. */
  lemma CancelledCorrectionDrifts(id: u64)
    ensures var l := RecordTrade(EmptyLedger(), id, 10, 100);
            var l' := AdjustVolume(CancelTrade(l, id).ledger, id, 40).ledger;
            && !AnyLive(l'.log)
            && l'.stats.totalVolume == TWO64 - 60
            && !InStep(l')
  {
    CancelThenAdjust(RecordTrade(EmptyLedger(), id, 10, 100), id);
  }

  lemma CancelThenAdjust(l: Ledger<u64>, id: u64)
    requires l.log == [TradeRecord(10, 100, false)] && l.byId == map[id := 0]
    ensures var l' := AdjustVolume(CancelTrade(l, id).ledger, id, 40).ledger;
            && !AnyLive(l'.log)
            && l'.stats.totalVolume == TWO64 - 60
            && !InStep(l')
  {
    var log2, log3 := [TradeRecord(10, 100, true)], [TradeRecord(10, 40, true)];
    assert Cancelled(l.log, 0) == log2 && log2[0 := TradeRecord(10, 40, true)] == log3;
    assert log2[..0] == [] && log3[..0] == [];
    assert Fold(log2) == NO_TRADES && Fold(log3) == NO_TRADES;
  }

  // ----- algebra -----

  /** A replacement is a cancel followed by a record, in every field and in the reported result,
      exactly when the cancel rebuilds the statistics or the volume had not drifted. */
  lemma ReplaceIsCancelThenRecordIff<Id>(l: Ledger<Id>, oldId: Id, id: Id, price: Price, volume: u64)
    requires SamePrices(l.stats, Fold(l.log))
    ensures var c := CancelTrade(l, oldId);
            ReplaceTrade(l, oldId, id, price, volume) == LedgerStep(RecordTrade(c.ledger, id, price, volume), c.ok)
            <==> c.ok || l.stats.totalVolume == Fold(l.log).totalVolume
  {
    var c := CancelTrade(l, oldId);
    FoldAppend(c.ledger.log, price, volume);
    WrapEqual(l.stats.totalVolume + volume, Fold(l.log).totalVolume + volume);
    WrapEqual(l.stats.totalVolume, Fold(l.log).totalVolume);
  }

  lemma RunSnoc<Id>(ops: seq<Op<Id>>, op: Op<Id>)
    ensures Run(ops + [op]) == Apply(Run(ops), op).ledger
    ensures Failures(ops + [op]) == Failures(ops) + if Apply(Run(ops), op).ok then 0 else 1
  {
    assert (ops + [op])[..|ops|] == ops;
  }

  /** In a run: a replacement can be split into a cancel and a record exactly when the cancel
      succeeds or the volume has not drifted so far; the failures are the same in any case. */
  lemma ReplaceSplitsIff<Id>(ops: seq<Op<Id>>, oldId: Id, id: Id, price: Price, volume: u64)
    ensures var whole := ops + [Replace(oldId, id, price, volume)];
            var split := ops + [Cancel(oldId)] + [Record(id, price, volume)];
            && Failures(whole) == Failures(split)
            && (Run(whole) == Run(split) <==> Cancellable(Run(ops), oldId) || Wrap(Drift(ops)) == 0)
  {
    var l := Run(ops);
    RunSnoc(ops, Replace(oldId, id, price, volume));
    RunSnoc(ops, Cancel(oldId));
    RunSnoc(ops + [Cancel(oldId)], Record(id, price, volume));
    StatsUpToDrift(ops);
    InStepIff(l, Drift(ops));
    ReplaceIsCancelThenRecordIff(l, oldId, id, price, volume);
  }

  /** The smallest run that tells them apart: after a corrected cancelled trade the replacement of
      an unknown trade rebuilds the total, a failed cancel leaves it drifted. */
  lemma UnknownReplacementDiffers(id: u64, other: u64, next: u64)
    requires other != id
    ensures var l := AdjustVolume(CancelTrade(RecordTrade(EmptyLedger(), id, 10, 100), id).ledger, id, 40).ledger;
            var c := CancelTrade(l, other);
            !c.ok && ReplaceTrade(l, other, next, 7, 60).ledger != RecordTrade(c.ledger, next, 7, 60)
  {
    CancelledCorrectionDrifts(id);
    DriftedReplacementDiffers(
      AdjustVolume(CancelTrade(RecordTrade(EmptyLedger(), id, 10, 100), id).ledger, id, 40).ledger, other, next);
  }

  lemma DriftedReplacementDiffers(l: Ledger<u64>, other: u64, next: u64)
    requires !Cancellable(l, other) && !AnyLive(l.log) && l.stats.totalVolume == TWO64 - 60
    ensures ReplaceTrade(l, other, next, 7, 60).ledger != RecordTrade(l, next, 7, 60)
  {
    FoldAppend(l.log, 7, 60);
    NothingLive(l.log);
  }

  lemma {:induction false} NothingLive(log: seq<TradeRecord>)
    requires !AnyLive(log)
    ensures Fold(log) == NO_TRADES
  {
    if log != [] {
      var n := |log| - 1;
      assert Live(log, n) <==> !log[n].cancelled;
      forall i | Live(log[..n], i) ensures Live(log, i) {
      }
      NothingLive(log[..n]);
    }
  }

  /** Cancels of two different IDs can be reordered: same ledger, same two results. */
  lemma CancelsCommute<Id>(l: Ledger<Id>, a: Id, b: Id)
    requires a != b
    ensures var ab := CancelTrade(CancelTrade(l, a).ledger, b);
            var ba := CancelTrade(CancelTrade(l, b).ledger, a);
            && ab.ledger == ba.ledger
            && ab.ok == CancelTrade(l, b).ok
            && ba.ok == CancelTrade(l, a).ok
  {
    if Cancellable(l, a) && Cancellable(l, b) {
      var i, j := l.byId[a], l.byId[b];
      assert Cancelled(Cancelled(l.log, i), j) == Cancelled(Cancelled(l.log, j), i);
    }
  }
}
