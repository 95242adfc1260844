/** What a trade log holds, read off the operations alone: the history of every recorded trade, and
    when an operation fails.  `TapeRunsLikeLedger` carries it to the trade half of a book. */
module TradeHistory {
  import opened Words
  import opened DailyStatistics
  import opened Ledger
  import T = TradeTape
  import M = Messages

  /** The operation records a trade, under `op.id`. */
  predicate Files<Id>(op: Op<Id>) {
    op.Record? || op.Replace?
  }

  predicate FilesUnder<Id(==)>(op: Op<Id>, id: Id) {
    Files(op) && op.id == id
  }

  /** The ID whose trade the operation cancels, if it cancels one. */
  function CancelTarget<Id>(op: Op<Id>): Option<Id> {
    match op
    case Cancel(id) => Some(id)
    case Replace(oldId, _, _, _) => Some(oldId)
    case _ => None
  }

  function AdjustTarget<Id>(op: Op<Id>): Option<Id> {
    if op.Adjust? then Some(op.id) else None
  }

  /** How many of the first `n` operations record a trade. */
  function Filings<Id>(ops: seq<Op<Id>>, n: nat): nat
    requires n <= |ops|
  {
    if n == 0 then 0 else Filings(ops, n - 1) + if Files(ops[n - 1]) then 1 else 0
  }

  /** When operation `j` arrives, the trade recorded by `i` is the last one under its ID. */
  predicate StillFiled<Id(==)>(ops: seq<Op<Id>>, i: nat, j: nat)
    requires i < j <= |ops| && Files(ops[i])
  {
    forall k :: i < k < j ==> !FilesUnder(ops[k], ops[i].id)
  }

  /** Operation `j` is meant for the trade recorded by `i`. */
  predicate Reaches<Id(==)>(ops: seq<Op<Id>>, i: nat, j: nat, target: Option<Id>) {
    && i < j <= |ops|
    && Files(ops[i])
    && target == Some(ops[i].id)
    && StillFiled(ops, i, j)
  }

  predicate CancelledBy<Id(==)>(ops: seq<Op<Id>>, i: nat, j: nat) {
    j < |ops| && Reaches(ops, i, j, CancelTarget(ops[j]))
  }

  predicate AdjustedBy<Id(==)>(ops: seq<Op<Id>>, i: nat, j: nat) {
    j < |ops| && Reaches(ops, i, j, AdjustTarget(ops[j]))
  }

  predicate LastAdjust<Id(==)>(ops: seq<Op<Id>>, i: nat, j: nat, n: nat) {
    j < n && AdjustedBy(ops, i, j) && forall k :: j < k < n ==> !AdjustedBy(ops, i, k)
  }

  // ----- the index -----

  /** The ledgers of a run, before the first operation and after each. */
  ghost predicate IsTrace<Id>(ops: seq<Op<Id>>, ls: seq<Ledger<Id>>) {
    && |ls| == |ops| + 1
    && ls[0] == EmptyLedger()
    && forall n: nat :: n < |ops| ==> Steps(ops, ls, n)
  }

  ghost predicate Steps<Id>(ops: seq<Op<Id>>, ls: seq<Ledger<Id>>, n: nat)
    requires n < |ops| && |ls| == |ops| + 1
  {
    ls[n + 1] == Apply(ls[n], ops[n]).ledger
  }

  lemma RunSteps<Id>(ops: seq<Op<Id>>, n: nat)
    requires n < |ops|
    ensures Run(ops[..n + 1]) == Apply(Run(ops[..n]), ops[n]).ledger
  {
    assert ops[..n + 1][..n] == ops[..n];
  }

  lemma TraceOf<Id>(ops: seq<Op<Id>>) returns (ls: seq<Ledger<Id>>)
    ensures IsTrace(ops, ls)
    ensures forall n: nat :: n <= |ops| ==> ls[n] == Run(ops[..n])
  {
    ls := seq(|ops| + 1, n requires 0 <= n <= |ops| => Run(ops[..n]));
    assert ops[..0] == [];
    forall n: nat | n < |ops| ensures Steps(ops, ls, n) {
      RunSteps(ops, n);
    }
  }

  /** One operation appends a record or none, and files or leaves an ID. */
  predicate FilesAs<Id(==)>(l: Ledger<Id>, l': Ledger<Id>, op: Op<Id>, id: Id) {
    && |l'.log| == |l.log| + (if Files(op) then 1 else 0)
    && (if FilesUnder(op, id) then id in l'.byId && l'.byId[id] == |l.log|
        else (id in l'.byId <==> id in l.byId) && (id in l.byId ==> l'.byId[id] == l.byId[id]))
  }

  lemma StepFiles<Id>(l: Ledger<Id>, op: Op<Id>, id: Id)
    ensures FilesAs(l, Apply(l, op).ledger, op, id)
  {
  }

  lemma {:induction false} LogSize<Id>(ops: seq<Op<Id>>, ls: seq<Ledger<Id>>, n: nat)
    requires n <= |ops| && IsTrace(ops, ls)
    ensures |ls[n].log| == Filings(ops, n)
    decreases n
  {
    if n > 0 {
      LogSize(ops, ls, n - 1);
      assert Steps(ops, ls, n - 1);
      StepFiles(ls[n - 1], ops[n - 1], ops[n - 1].id);
    }
  }

  lemma {:induction false} FilingsGrow<Id>(ops: seq<Op<Id>>, i: nat, n: nat)
    requires i < n <= |ops| && Files(ops[i])
    ensures Filings(ops, i) < Filings(ops, n)
    decreases n
  {
    if i < n - 1 {
      FilingsGrow(ops, i, n - 1);
    }
  }

  /** The last operation to record a trade under the ID, as the number of its record. */
  function LastFiled<Id(==)>(ops: seq<Op<Id>>, id: Id, n: nat): Option<nat>
    requires n <= |ops|
  {
    if n == 0 then None
    else if FilesUnder(ops[n - 1], id) then Some(Filings(ops, n - 1))
    else LastFiled(ops, id, n - 1)
  }

  function Lookup<Id(==)>(l: Ledger<Id>, id: Id): Option<nat> {
    if id in l.byId then Some(l.byId[id]) else None
  }

  /** An ID leads to the last trade recorded under it. */
  lemma {:induction false} IndexIs<Id>(ops: seq<Op<Id>>, ls: seq<Ledger<Id>>, id: Id, n: nat)
    requires n <= |ops| && IsTrace(ops, ls)
    ensures Lookup(ls[n], id) == LastFiled(ops, id, n)
    decreases n
  {
    if n > 0 {
      IndexIs(ops, ls, id, n - 1);
      LogSize(ops, ls, n - 1);
      assert Steps(ops, ls, n - 1);
      StepFiles(ls[n - 1], ops[n - 1], id);
    }
  }

  lemma {:induction false} FiledAt<Id>(ops: seq<Op<Id>>, i: nat, n: nat)
    requires i < n <= |ops| && Files(ops[i]) && StillFiled(ops, i, n)
    ensures LastFiled(ops, ops[i].id, n) == Some(Filings(ops, i))
    decreases n
  {
    if i < n - 1 {
      FiledAt(ops, i, n - 1);
    }
  }

  lemma {:induction false} WasFiled<Id>(ops: seq<Op<Id>>, id: Id, n: nat) returns (i: nat)
    requires n <= |ops| && LastFiled(ops, id, n).Some?
    ensures i < n && FilesUnder(ops[i], id) && StillFiled(ops, i, n) && LastFiled(ops, id, n) == Some(Filings(ops, i))
    decreases n
  {
    if FilesUnder(ops[n - 1], id) {
      i := n - 1;
    } else {
      i := WasFiled(ops, id, n - 1);
    }
  }

  lemma {:induction false} LastFiling<Id>(ops: seq<Op<Id>>, id: Id, i: nat, n: nat) returns (last: nat)
    requires i < n <= |ops| && FilesUnder(ops[i], id)
    ensures i <= last < n && FilesUnder(ops[last], id) && StillFiled(ops, last, n)
    decreases n
  {
    if FilesUnder(ops[n - 1], id) {
      last := n - 1;
    } else {
      last := LastFiling(ops, id, i, n - 1);
    }
  }

  /** An ID leads to the record of filing `i` exactly if that is the last one under it. */
  lemma LeadsToIff<Id>(ops: seq<Op<Id>>, i: nat, n: nat, target: Id)
    requires i < n <= |ops| && Files(ops[i])
    ensures LastFiled(ops, target, n) == Some(Filings(ops, i)) <==> Reaches(ops, i, n, Some(target))
  {
    if LastFiled(ops, target, n) == Some(Filings(ops, i)) {
      var other := WasFiled(ops, target, n);
      if other < i {
        FilingsGrow(ops, other, i);
      } else if i < other {
        FilingsGrow(ops, i, other);
      }
    }
    if Reaches(ops, i, n, Some(target)) {
      FiledAt(ops, i, n);
    }
  }

  // ----- the records -----

  /** The operation's target is the record at `k`. */
  predicate Hits<Id(==)>(l: Ledger<Id>, target: Option<Id>, k: nat) {
    target.Some? && Lookup(l, target.value) == Some(k)
  }

  lemma StepRecord<Id>(l: Ledger<Id>, op: Op<Id>, k: nat)
    requires k < |l.log|
    ensures var l' := Apply(l, op).ledger;
            && k < |l'.log|
            && l'.log[k] == TradeRecord(
                 l.log[k].price,
                 if Hits(l, AdjustTarget(op), k) then op.volume else l.log[k].volume,
                 l.log[k].cancelled || Hits(l, CancelTarget(op), k))
  {
  }

  lemma StepAppends<Id>(l: Ledger<Id>, op: Op<Id>)
    requires Files(op)
    ensures var log' := Apply(l, op).ledger.log;
            |log'| == |l.log| + 1 && log'[|l.log|] == TradeRecord(op.price, op.volume, false)
  {
  }

  /** The record of filing `i` after `n` operations, one operation at a time. */
  function RecordAfter<Id(==)>(ops: seq<Op<Id>>, i: nat, n: nat): TradeRecord
    requires i < n <= |ops| && Files(ops[i])
    decreases n
  {
    if n == i + 1 then
      TradeRecord(ops[i].price, ops[i].volume, false)
    else
      var t := RecordAfter(ops, i, n - 1);
      TradeRecord(
        t.price,
        if AdjustedBy(ops, i, n - 1) then ops[n - 1].volume else t.volume,
        t.cancelled || CancelledBy(ops, i, n - 1))
  }

  lemma HitsIff<Id>(ops: seq<Op<Id>>, ls: seq<Ledger<Id>>, i: nat, n: nat, target: Option<Id>)
    requires i < n <= |ops| && Files(ops[i]) && IsTrace(ops, ls)
    ensures Hits(ls[n], target, Filings(ops, i)) <==> Reaches(ops, i, n, target)
  {
    if target.Some? {
      IndexIs(ops, ls, target.value, n);
      LeadsToIff(ops, i, n, target.value);
    }
  }

  lemma RecordMoves<Id>(ops: seq<Op<Id>>, ls: seq<Ledger<Id>>, i: nat, n: nat)
    requires i < n < |ops| && Files(ops[i]) && IsTrace(ops, ls)
    requires Filings(ops, i) < |ls[n].log| && ls[n].log[Filings(ops, i)] == RecordAfter(ops, i, n)
    ensures Filings(ops, i) < |ls[n + 1].log| && ls[n + 1].log[Filings(ops, i)] == RecordAfter(ops, i, n + 1)
  {
    HitsIff(ops, ls, i, n, CancelTarget(ops[n]));
    HitsIff(ops, ls, i, n, AdjustTarget(ops[n]));
    assert Steps(ops, ls, n);
    StepRecord(ls[n], ops[n], Filings(ops, i));
  }

  lemma {:induction false} LogHolds<Id>(ops: seq<Op<Id>>, ls: seq<Ledger<Id>>, i: nat, n: nat)
    requires i < n <= |ops| && Files(ops[i]) && IsTrace(ops, ls)
    ensures |ls[n].log| == Filings(ops, n) > Filings(ops, i)
    ensures ls[n].log[Filings(ops, i)] == RecordAfter(ops, i, n)
    decreases n
  {
    LogSize(ops, ls, n);
    FilingsGrow(ops, i, n);
    if i == n - 1 {
      LogSize(ops, ls, i);
      assert Steps(ops, ls, i);
      StepAppends(ls[i], ops[i]);
    } else {
      LogHolds(ops, ls, i, n - 1);
      RecordMoves(ops, ls, i, n - 1);
    }
  }

  /** What a record must be: the price given when it was recorded, the volume last given for it, and
      cancelled exactly if some operation cancelled its ID while it was the last trade under it. */
  ghost predicate RecordIs<Id>(ops: seq<Op<Id>>, i: nat, n: nat, t: TradeRecord)
    requires i < n <= |ops| && Files(ops[i])
  {
    && t.price == ops[i].price
    && (t.cancelled <==> exists j: nat :: j < n && CancelledBy(ops, i, j))
    && (forall j: nat :: LastAdjust(ops, i, j, n) ==> t.volume == ops[j].volume)
    && ((forall j: nat :: j < n ==> !AdjustedBy(ops, i, j)) ==> t.volume == ops[i].volume)
  }

  lemma {:induction false} RecordAfterIs<Id>(ops: seq<Op<Id>>, i: nat, n: nat)
    requires i < n <= |ops| && Files(ops[i])
    ensures RecordIs(ops, i, n, RecordAfter(ops, i, n))
    decreases n
  {
    if i < n - 1 {
      RecordAfterIs(ops, i, n - 1);
      RecordKept(ops, i, n - 1, RecordAfter(ops, i, n - 1), RecordAfter(ops, i, n));
    }
  }

  lemma RecordKept<Id>(ops: seq<Op<Id>>, i: nat, n: nat, t: TradeRecord, t': TradeRecord)
    requires i < n < |ops| && Files(ops[i]) && RecordIs(ops, i, n, t)
    requires t'.price == t.price
    requires t'.cancelled <==> t.cancelled || CancelledBy(ops, i, n)
    requires t'.volume == if AdjustedBy(ops, i, n) then ops[n].volume else t.volume
    ensures RecordIs(ops, i, n + 1, t')
  {
    forall j: nat | LastAdjust(ops, i, j, n + 1) ensures t'.volume == ops[j].volume {
      if j < n {
        assert LastAdjust(ops, i, j, n);
      }
    }
  }

  /** The whole log of a run: a record for each recording operation, in their order, and each as it
      must be. */
  lemma LogOfRun<Id>(ops: seq<Op<Id>>, i: nat)
    requires i < |ops| && Files(ops[i])
    ensures |Run(ops).log| == Filings(ops, |ops|) > Filings(ops, i)
    ensures RecordIs(ops, i, |ops|, Run(ops).log[Filings(ops, i)])
  {
    var ls := TraceOf(ops);
    LogHolds(ops, ls, i, |ops|);
    RecordAfterIs(ops, i, |ops|);
    assert ops[..|ops|] == ops;
  }

  /** The trade log of a book: a record for each execution, non-displayed trade and cross of its stream,
      in their order, and each as it must be. */
  lemma TapeLogIs(ms: seq<M.Body>, i: nat)
    requires i < |T.Ops(ms)| && Files(T.Ops(ms)[i])
    ensures var ops, log := T.Ops(ms), T.Run(ms).log;
            |log| == Filings(ops, |ops|) > Filings(ops, i) && RecordIs(ops, i, |ops|, log[Filings(ops, i)])
  {
    T.TapeRunsLikeLedger(ms);
    LogOfRun(T.Ops(ms), i);
  }

  // ----- failures -----

  /** Filing `i` is the last one under the ID, and no operation has cancelled it. */
  ghost predicate LiveTrade<Id>(ops: seq<Op<Id>>, i: nat, n: nat, id: Id)
    requires n <= |ops|
  {
    Reaches(ops, i, n, Some(id)) && forall j: nat :: j < n ==> !CancelledBy(ops, i, j)
  }

  ghost predicate HasLiveTrade<Id>(ops: seq<Op<Id>>, n: nat, id: Id)
    requires n <= |ops|
  {
    exists i: nat :: LiveTrade(ops, i, n, id)
  }

  /** Some trade was recorded under the ID. */
  ghost predicate HadTrade<Id>(ops: seq<Op<Id>>, n: nat, id: Id)
    requires n <= |ops|
  {
    exists i: nat :: i < n && FilesUnder(ops[i], id)
  }

  /** When an operation succeeds: a cancel or a replacement if there is a live trade under its ID, a
      correction if there ever was a trade under its ID, a recording always. */
  lemma SucceedsIff<Id>(ops: seq<Op<Id>>, n: nat)
    requires n < |ops|
    ensures Apply(Run(ops[..n]), ops[n]).ok <==>
              if ops[n].Cancel? then HasLiveTrade(ops, n, ops[n].id)
              else if ops[n].Replace? then HasLiveTrade(ops, n, ops[n].oldId)
              else if ops[n].Adjust? then HadTrade(ops, n, ops[n].id)
              else true
  {
    var ls := TraceOf(ops);
    if ops[n].Cancel? {
      CancellableIff(ops, ls, n, ops[n].id);
    } else if ops[n].Replace? {
      CancellableIff(ops, ls, n, ops[n].oldId);
    } else if ops[n].Adjust? {
      KnownIff(ops, ls, n, ops[n].id);
    }
  }

  lemma KnownIff<Id>(ops: seq<Op<Id>>, ls: seq<Ledger<Id>>, n: nat, id: Id)
    requires n <= |ops| && IsTrace(ops, ls)
    ensures id in ls[n].byId <==> HadTrade(ops, n, id)
  {
    IndexIs(ops, ls, id, n);
    if LastFiled(ops, id, n).Some? {
      var i := WasFiled(ops, id, n);
    }
    if i: nat :| i < n && FilesUnder(ops[i], id) {
      var last := LastFiling(ops, id, i, n);
      FiledAt(ops, last, n);
    }
  }

  lemma CancellableIff<Id>(ops: seq<Op<Id>>, ls: seq<Ledger<Id>>, n: nat, id: Id)
    requires n <= |ops| && IsTrace(ops, ls)
    ensures Cancellable(ls[n], id) <==> HasLiveTrade(ops, n, id)
  {
    IndexIs(ops, ls, id, n);
    if LastFiled(ops, id, n).Some? {
      var i := WasFiled(ops, id, n);
      assert Reaches(ops, i, n, Some(id));
      LiveRecordIff(ops, ls, i, n, id);
    }
    if i: nat :| LiveTrade(ops, i, n, id) {
      FiledAt(ops, i, n);
      LiveRecordIff(ops, ls, i, n, id);
    }
  }

  lemma LiveRecordIff<Id>(ops: seq<Op<Id>>, ls: seq<Ledger<Id>>, i: nat, n: nat, id: Id)
    requires n <= |ops| && IsTrace(ops, ls)
    requires Reaches(ops, i, n, Some(id)) && Lookup(ls[n], id) == Some(Filings(ops, i))
    ensures Cancellable(ls[n], id) <==> LiveTrade(ops, i, n, id)
  {
    LogHolds(ops, ls, i, n);
    RecordAfterIs(ops, i, n);
  }
}
