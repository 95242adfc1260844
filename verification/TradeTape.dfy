/** The trade half of one symbol's book: its own log, two ID maps and statistics.

    It keeps executions and non-displayed trades under trade IDs and crosses under cross IDs;
    that it nevertheless runs in lockstep with one `TradeLedger` is proved here. */
module TradeTape {
  import opened Words
  import opened DailyStatistics
  import opened Messages
  import L = Ledger

  datatype TapeData = TapeData(
    log: seq<TradeRecord>, tradesById: map<u64, nat>, crossesById: map<u64, nat>, stats: DailyStats)

  predicate InRange(t: TapeData) {
    && (forall id <- t.tradesById :: t.tradesById[id] < |t.log|)
    && (forall id <- t.crossesById :: t.crossesById[id] < |t.log|)
  }

  type Tape = t: TapeData | InRange(t) witness TapeData([], map[], map[], NO_TRADES)

  const EMPTY_TAPE: Tape := TapeData([], map[], map[], NO_TRADES)

  /** A tape and whether the step counts as a trade-ledger failure. */
  datatype TapeStep = TapeStep(tape: Tape, failed: bool)

  function AppendTrade(t: Tape, price: Price, volume: u64): Tape {
    t.(log := t.log + [TradeRecord(price, volume, false)], stats := FoldIn(t.stats, price, volume))
  }

  function FileTrade(t: Tape, id: u64, price: Price, volume: u64): Tape {
    AppendTrade(t, price, volume).(tradesById := t.tradesById[id := |t.log|])
  }

  function FileCross(t: Tape, id: u64, price: Price, volume: u64): Tape {
    AppendTrade(t, price, volume).(crossesById := t.crossesById[id := |t.log|])
  }

  function CancelTrade(t: Tape, id: u64): TapeStep {
    if id !in t.tradesById || t.log[t.tradesById[id]].cancelled then
      TapeStep(t, true)
    else
      var i := t.tradesById[id];
      var log := t.log[i := t.log[i].(cancelled := true)];
      TapeStep(t.(log := log, stats := Fold(log)), false)
  }

  function CorrectCross(t: Tape, id: u64, volume: u64): TapeStep {
    if id !in t.crossesById then
      TapeStep(t, true)
    else
      var i := t.crossesById[id];
      var total := Wrap(t.stats.totalVolume - t.log[i].volume + volume);
      TapeStep(t.(log := t.log[i := t.log[i].(volume := volume)], stats := t.stats.(totalVolume := total)), false)
  }

  /** The effect of one message on the trade half. */
  function Apply(t: Tape, m: Body): TapeStep {
    match m
    case OrderExecution(_, tradeId, price, volume) => TapeStep(FileTrade(t, tradeId, price, volume), false)
    case NonDisplayedTrade(tradeId, price, volume) => TapeStep(FileTrade(t, tradeId, price, volume), false)
    case CrossTrade(crossId, price, volume) => TapeStep(FileCross(t, crossId, price, volume), false)
    case TradeCancel(tradeId) => CancelTrade(t, tradeId)
    case CrossCorrection(crossId, volume) => CorrectCross(t, crossId, volume)
    case _ => TapeStep(t, false)
  }

  function Run(ms: seq<Body>): Tape {
    if ms == [] then EMPTY_TAPE else Apply(Run(ms[..|ms| - 1]), ms[|ms| - 1]).tape
  }

  function LedgerFailures(ms: seq<Body>): nat {
    if ms == [] then
      0
    else
      LedgerFailures(ms[..|ms| - 1]) + if Apply(Run(ms[..|ms| - 1]), ms[|ms| - 1]).failed then 1 else 0
  }

  // ----- what every message keeps -----

  /** All filed indices differ: between two trades, between two crosses, between the two maps. */
  predicate Separate(t: Tape) {
    && (forall a <- t.tradesById, b <- t.tradesById :: t.tradesById[a] == t.tradesById[b] ==> a == b)
    && (forall a <- t.crossesById, b <- t.crossesById :: t.crossesById[a] == t.crossesById[b] ==> a == b)
    && (forall a <- t.tradesById, b <- t.crossesById :: t.tradesById[a] != t.crossesById[b])
  }

  predicate CrossesLive(t: Tape) {
    forall id <- t.crossesById :: !t.log[t.crossesById[id]].cancelled
  }

  predicate Sound(t: Tape) {
    Separate(t) && CrossesLive(t) && t.stats == Fold(t.log)
  }

  lemma CorrectCrossSound(t: Tape, id: u64, volume: u64)
    requires Sound(t)
    ensures Sound(CorrectCross(t, id, volume).tape)
  {
    if id in t.crossesById {
      CorrectionRefolds(t.log, t.crossesById[id], volume);
    }
  }

  lemma FileTradeSeparate(t: Tape, id: u64, price: Price, volume: u64)
    requires Separate(t)
    ensures Separate(FileTrade(t, id, price, volume))
  {
  }

  lemma FileCrossSeparate(t: Tape, id: u64, price: Price, volume: u64)
    requires Separate(t)
    ensures Separate(FileCross(t, id, price, volume))
  {
  }

  lemma FileTradeSound(t: Tape, id: u64, price: Price, volume: u64)
    requires Sound(t)
    ensures Sound(FileTrade(t, id, price, volume))
  {
    L.FoldAppend(t.log, price, volume);
  }

  lemma FileCrossSound(t: Tape, id: u64, price: Price, volume: u64)
    requires Sound(t)
    ensures Sound(FileCross(t, id, price, volume))
  {
    L.FoldAppend(t.log, price, volume);
  }

  /** A cancel reaches trades only, so crosses stay live. */
  lemma CancelTradeSound(t: Tape, id: u64)
    requires Sound(t)
    ensures Sound(CancelTrade(t, id).tape)
  {
  }

  lemma ApplySound(t: Tape, m: Body)
    requires Sound(t)
    ensures Sound(Apply(t, m).tape)
  {
    match m
    case OrderExecution(_, id, price, volume) => FileTradeSound(t, id, price, volume);
    case NonDisplayedTrade(id, price, volume) => FileTradeSound(t, id, price, volume);
    case CrossTrade(id, price, volume) => FileCrossSound(t, id, price, volume);
    case TradeCancel(id) => CancelTradeSound(t, id);
    case CrossCorrection(id, volume) => CorrectCrossSound(t, id, volume);
    case _ =>
  }

  /** On every stream: the statistics kept incrementally, rebuilt on cancels and patched by cross
      corrections are the declared statistics of the log, and no cross is ever cancelled. */
  lemma {:induction false} StatsAlwaysSummarize(ms: seq<Body>)
    ensures Separate(Run(ms)) && CrossesLive(Run(ms))
    ensures Run(ms).stats == Fold(Run(ms).log)
    ensures Summarizes(Run(ms).stats, Run(ms).log)
  {
    RunSound(ms);
    FoldSummarizes(Run(ms).log);
  }

  lemma {:induction false} RunSound(ms: seq<Body>)
    ensures Sound(Run(ms))
  {
    if ms != [] {
      RunSound(ms[..|ms| - 1]);
      ApplySound(Run(ms[..|ms| - 1]), ms[|ms| - 1]);
    }
  }

  /** The signed arithmetic of a cross correction on any reachable book is that of correcting a
      live record, so it is exact and overflow-free exactly while the true volume fits 63 bits. */
  lemma CrossCorrectionExact(ms: seq<Body>, id: u64, volume: u64)
    requires id in Run(ms).crossesById
    requires LiveVolume(Run(ms).log) < TWO63 && volume < TWO63
    ensures var t, t' := Run(ms), CorrectCross(Run(ms), id, volume).tape;
            var old_ := t.log[t.crossesById[id]].volume;
            && LiveVolume(t'.log) == LiveVolume(t.log) - old_ + volume
            && (CorrectionDefined(t.stats.totalVolume, old_, volume) <==> LiveVolume(t'.log) < TWO63)
            && (LiveVolume(t'.log) < TWO63 ==>
                  0 <= AsSigned(t.stats.totalVolume) + Delta(old_, volume) == t'.stats.totalVolume == LiveVolume(t'.log))
  {
    var t := Run(ms);
    RunSound(ms);
    LiveCorrectionExact(t.log, t.crossesById[id], volume);
    CorrectedIsExact(t.stats.totalVolume, t.log[t.crossesById[id]].volume, volume);
  }

  // ----- lockstep with a trade ledger -----

  /** Trade IDs and cross IDs, told apart. */
  datatype TradeKey = TradeKey(tradeId: u64) | CrossKey(crossId: u64)

  predicate Filed(t: Tape, k: TradeKey) {
    match k
    case TradeKey(id) => id in t.tradesById
    case CrossKey(id) => id in t.crossesById
  }

  function IndexOf(t: Tape, k: TradeKey): nat
    requires Filed(t, k)
  {
    match k
    case TradeKey(id) => t.tradesById[id]
    case CrossKey(id) => t.crossesById[id]
  }

  function Keys(t: Tape): (ks: set<TradeKey>)
    ensures forall k :: k in ks <==> Filed(t, k)
  {
    (set id | id in t.tradesById :: TradeKey(id)) + (set id | id in t.crossesById :: CrossKey(id))
  }

  function Index(t: Tape): map<TradeKey, nat> {
    map k | k in Keys(t) :: IndexOf(t, k)
  }

  lemma IndexSeparate(t: Tape)
    requires Separate(t)
    ensures L.Indexed(L.LedgerData(t.log, Index(t), t.stats))
  {
  }

  function AsLedger(t: Tape): L.Ledger<TradeKey>
    requires Separate(t)
  {
    IndexSeparate(t);
    L.LedgerData(t.log, Index(t), t.stats)
  }

  /** The ledger operation a message stands for. */
  function OpOf(m: Body): Option<L.Op<TradeKey>> {
    match m
    case OrderExecution(_, tradeId, price, volume) => Some(L.Record(TradeKey(tradeId), price, volume))
    case NonDisplayedTrade(tradeId, price, volume) => Some(L.Record(TradeKey(tradeId), price, volume))
    case CrossTrade(crossId, price, volume) => Some(L.Record(CrossKey(crossId), price, volume))
    case TradeCancel(tradeId) => Some(L.Cancel(TradeKey(tradeId)))
    case CrossCorrection(crossId, volume) => Some(L.Adjust(CrossKey(crossId), volume))
    case _ => None
  }

  function Ops(ms: seq<Body>): seq<L.Op<TradeKey>> {
    if ms == [] then
      []
    else
      Ops(ms[..|ms| - 1]) + match OpOf(ms[|ms| - 1]) case None => [] case Some(op) => [op]
  }

  predicate Mirrors(s: TapeStep, r: L.LedgerStep<TradeKey>) {
    Separate(s.tape) && r == L.LedgerStep(AsLedger(s.tape), !s.failed)
  }

  lemma IndexAfterFiling(t: Tape, t': Tape, k: TradeKey, i: nat)
    requires Filed(t', k) && IndexOf(t', k) == i
    requires forall j :: j != k ==> (Filed(t', j) <==> Filed(t, j)) && (Filed(t, j) ==> IndexOf(t', j) == IndexOf(t, j))
    ensures Index(t') == Index(t)[k := i]
  {
  }

  lemma FileTradeMirrors(t: Tape, id: u64, price: Price, volume: u64)
    requires Separate(t) && Separate(FileTrade(t, id, price, volume))
    ensures AsLedger(FileTrade(t, id, price, volume)) == L.RecordTrade(AsLedger(t), TradeKey(id), price, volume)
  {
    IndexAfterFiling(t, FileTrade(t, id, price, volume), TradeKey(id), |t.log|);
  }

  lemma FileCrossMirrors(t: Tape, id: u64, price: Price, volume: u64)
    requires Separate(t) && Separate(FileCross(t, id, price, volume))
    ensures AsLedger(FileCross(t, id, price, volume)) == L.RecordTrade(AsLedger(t), CrossKey(id), price, volume)
  {
    IndexAfterFiling(t, FileCross(t, id, price, volume), CrossKey(id), |t.log|);
  }

  lemma SameIndex(t: Tape, t': Tape)
    requires t.tradesById == t'.tradesById && t.crossesById == t'.crossesById
    ensures Index(t) == Index(t')
  {
    assert Keys(t) == Keys(t');
  }

  lemma CancelTradeMirrors(t: Tape, id: u64)
    requires Separate(t)
    ensures Mirrors(CancelTrade(t, id), L.CancelTrade(AsLedger(t), TradeKey(id)))
  {
    SameIndex(t, CancelTrade(t, id).tape);
    assert TradeKey(id) in Index(t) <==> id in t.tradesById;
  }

  lemma CorrectCrossMirrors(t: Tape, id: u64, volume: u64)
    requires Separate(t)
    ensures Mirrors(CorrectCross(t, id, volume), L.AdjustVolume(AsLedger(t), CrossKey(id), volume))
  {
    var t' := CorrectCross(t, id, volume).tape;
    assert CrossKey(id) in Index(t) <==> id in t.crossesById;
    SameIndex(t, t');
    if id in t.crossesById {
      var r := L.AdjustVolume(AsLedger(t), CrossKey(id), volume).ledger;
      assert Index(t)[CrossKey(id)] == t.crossesById[id];
      assert r == L.LedgerData(t'.log, Index(t'), t'.stats);
    }
  }

  ghost predicate Simulates(t: Tape, m: Body)
    requires Separate(t)
  {
    match OpOf(m)
    case None => Apply(t, m) == TapeStep(t, false)
    case Some(op) => Mirrors(Apply(t, m), L.Apply(AsLedger(t), op))
  }

  lemma FileTradeSimulates(t: Tape, m: Body)
    requires Separate(t) && (m.OrderExecution? || m.NonDisplayedTrade?)
    ensures Simulates(t, m)
  {
    var op := L.Record(TradeKey(m.tradeId), m.price, m.volume);
    assert OpOf(m) == Some(op) && Apply(t, m) == TapeStep(FileTrade(t, m.tradeId, m.price, m.volume), false);
    assert L.Apply(AsLedger(t), op) == L.LedgerStep(L.RecordTrade(AsLedger(t), op.id, op.price, op.volume), true);
    FileTradeSeparate(t, m.tradeId, m.price, m.volume);
    FileTradeMirrors(t, m.tradeId, m.price, m.volume);
  }

  lemma FileCrossSimulates(t: Tape, m: Body)
    requires Separate(t) && m.CrossTrade?
    ensures Simulates(t, m)
  {
    var op := L.Record(CrossKey(m.crossId), m.price, m.volume);
    assert OpOf(m) == Some(op) && Apply(t, m) == TapeStep(FileCross(t, m.crossId, m.price, m.volume), false);
    assert L.Apply(AsLedger(t), op) == L.LedgerStep(L.RecordTrade(AsLedger(t), op.id, op.price, op.volume), true);
    FileCrossSeparate(t, m.crossId, m.price, m.volume);
    FileCrossMirrors(t, m.crossId, m.price, m.volume);
  }

  lemma CancelTradeSimulates(t: Tape, m: Body)
    requires Separate(t) && m.TradeCancel?
    ensures Simulates(t, m)
  {
    CancelTradeMirrors(t, m.tradeId);
  }

  lemma CorrectCrossSimulates(t: Tape, m: Body)
    requires Separate(t) && m.CrossCorrection?
    ensures Simulates(t, m)
  {
    var op := L.Adjust(CrossKey(m.crossId), m.volume);
    assert OpOf(m) == Some(op) && Apply(t, m) == CorrectCross(t, m.crossId, m.volume);
    assert L.Apply(AsLedger(t), op) == L.AdjustVolume(AsLedger(t), op.id, op.volume);
    CorrectCrossMirrors(t, m.crossId, m.volume);
  }

  lemma OthersSimulate(t: Tape, m: Body)
    requires Separate(t) && OpOf(m).None?
    ensures Simulates(t, m)
  {
  }

  /** One message does to the trade half what its operation does to the ledger. */
  lemma StepSimulation(t: Tape, m: Body)
    requires Separate(t)
    ensures Simulates(t, m)
  {
    if m.OrderExecution? || m.NonDisplayedTrade? {
      FileTradeSimulates(t, m);
    } else if m.CrossTrade? {
      FileCrossSimulates(t, m);
    } else if m.TradeCancel? {
      CancelTradeSimulates(t, m);
    } else if m.CrossCorrection? {
      CorrectCrossSimulates(t, m);
    } else {
      OthersSimulate(t, m);
    }
  }

  ghost predicate InLockstep(ms: seq<Body>) {
    && Separate(Run(ms))
    && AsLedger(Run(ms)) == L.Run(Ops(ms))
    && LedgerFailures(ms) == L.Failures(Ops(ms))
  }

  /** On every stream the trade half is a `TradeLedger` fed with the corresponding operations:
      same log, same index, same statistics, same number of failures. */
  lemma {:induction false} TapeRunsLikeLedger(ms: seq<Body>)
    ensures Separate(Run(ms))
    ensures AsLedger(Run(ms)) == L.Run(Ops(ms))
    ensures LedgerFailures(ms) == L.Failures(Ops(ms))
  {
    if ms == [] {
      assert Index(Run(ms)) == map[];
    } else {
      TapeRunsLikeLedger(ms[..|ms| - 1]);
      LockstepKept(ms);
    }
  }

  lemma LockstepKept(ms: seq<Body>)
    requires ms != [] && InLockstep(ms[..|ms| - 1])
    ensures InLockstep(ms)
  {
    var front, m := ms[..|ms| - 1], ms[|ms| - 1];
    StepSimulation(Run(front), m);
    if OpOf(m).Some? {
      OpsOfFiled(ms);
      L.RunSnoc(Ops(front), OpOf(m).value);
    } else {
      OpsOfOthers(ms);
    }
  }

  lemma OpsOfFiled(ms: seq<Body>)
    requires ms != [] && OpOf(ms[|ms| - 1]).Some?
    ensures Ops(ms) == Ops(ms[..|ms| - 1]) + [OpOf(ms[|ms| - 1]).value]
  {
  }

  lemma OpsOfOthers(ms: seq<Body>)
    requires ms != [] && OpOf(ms[|ms| - 1]).None?
    ensures Ops(ms) == Ops(ms[..|ms| - 1])
  {
    assert Ops(ms[..|ms| - 1]) + [] == Ops(ms[..|ms| - 1]);
  }
}
