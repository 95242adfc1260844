/** The engine's hand-off as a step system: the ingest thread, the egress thread and the thread
    that owns the engine, around one mutex-protected queue with a condition variable.

    A step is what a thread does between two points where others may run.  Locking waits for
    the mutex; work under the lock ends by releasing it; notifications are sent after the
    release and are lost unless the egress thread is asleep.  Testing the wait predicate and
    falling asleep is one step: that is what a condition-variable wait with a stop token
    guarantees.  The engine's thread structure does not depend on what a line contains, so the
    input is given as what each line's parse emits. */
module HandOff {
  import opened Words
  import opened MessageQueue

  datatype Thread = IngestThread | EgressThread | ClientThread

  /** The three steps of `MessageQueue::Close`. */
  datatype CloseStep = ToLock | ToSet | ToNotifyAll

  datatype Ingest<+M> =
    | AtLine                  // loop head: stop requested? another line?
    | Pushing(message: M)     // about to lock the mutex for `Push`
    | Locked(message: M)      // holds the mutex
    | ToNotifyOne             // released it, notification still to be sent
    | Recording(ok: bool)     // about to count the parse result
    | Closing(step: CloseStep)
    | IngestDone

  datatype Egress<+M> =
    | Entering                // about to lock the mutex in `WaitPop`
    | Testing                 // holds the mutex, about to test the predicate
    | Asleep
    | Woken                   // has to lock the mutex again
    | Delivering(message: M)  // released the mutex with a message in hand
    | Counting                // the callback has returned
    | EgressDone

  datatype Client =
    | Idle(joined: bool)      // outside the engine, before or after `Join`
    | JoinIngest
    | JoinClose(step: CloseStep)
    | JoinEgress
    | StopIngest              // the destructor, and then the members' own destructors
    | DropClose(step: CloseStep)
    | StopEgress
    | WakeEgress              // the stop callback's notification
    | ReapIngest
    | ReapEgress
    | Destroyed

  datatype State<M> = State(
    results: seq<Option<M>>,  // what the parse of each input line emits
    next: nat,                // lines taken so far
    ingest: Ingest<M>, egress: Egress<M>, client: Client,
    owner: Option<Thread>,
    queue: seq<M>, closed: bool,
    ingestStop: bool, egressStop: bool,
    delivered: seq<M>,
    success: u64, total: u64, egressCount: u64)

  function Init<M>(results: seq<Option<M>>): State<M> {
    State(results, 0, AtLine, Entering, Idle(false), None, [], false, false, false, [], 0, 0, 0)
  }

  /** `notify_one` and `notify_all`: egress is the only thread that ever waits. */
  function Notified<M>(e: Egress<M>): Egress<M> {
    if e.Asleep? then Woken else e
  }

  // ----- the steps -----

  function IngestStep<M>(s: State<M>): Option<State<M>> {
    match s.ingest
    case AtLine =>
      if s.ingestStop || s.next >= |s.results| then
        Some(s.(ingest := Closing(ToLock)))
      else
        Some(s.(next := s.next + 1,
                ingest := match s.results[s.next] case Some(m) => Pushing(m) case None => Recording(false)))
    case Pushing(m) => if s.owner.Some? then None else Some(s.(owner := Some(IngestThread), ingest := Locked(m)))
    case Locked(m) => Some(s.(queue := s.queue + [m], owner := None, ingest := ToNotifyOne))
    case ToNotifyOne => Some(s.(egress := Notified(s.egress), ingest := Recording(true)))
    case Recording(ok) =>
      Some(s.(success := if ok then Wrap(s.success + 1) else s.success, total := Wrap(s.total + 1), ingest := AtLine))
    case Closing(ToLock) =>
      if s.owner.Some? then None else Some(s.(owner := Some(IngestThread), ingest := Closing(ToSet)))
    case Closing(ToSet) => Some(s.(closed := true, owner := None, ingest := Closing(ToNotifyAll)))
    case Closing(ToNotifyAll) => Some(s.(egress := Notified(s.egress), ingest := IngestDone))
    case IngestDone => None
  }

  function EgressStep<M>(s: State<M>): Option<State<M>> {
    match s.egress
    case Entering => if s.owner.Some? then None else Some(s.(owner := Some(EgressThread), egress := Testing))
    case Testing =>
      (match WaitOutcome(s.queue, s.closed, s.egressStop)
       case Got(m) => Some(s.(queue := s.queue[1..], owner := None, egress := Delivering(m)))
       case Finished => Some(s.(owner := None, egress := EgressDone))
       case MustSleep => Some(s.(owner := None, egress := Asleep)))
    case Asleep => None
    case Woken => if s.owner.Some? then None else Some(s.(owner := Some(EgressThread), egress := Testing))
    case Delivering(m) => Some(s.(delivered := s.delivered + [m], egress := Counting))
    case Counting => Some(s.(egressCount := Wrap(s.egressCount + 1), egress := Entering))
    case EgressDone => None
  }

  /** The owner's thread inside `Join` or the destructor. */
  function ClientStep<M>(s: State<M>): Option<State<M>> {
    match s.client
    case Idle(_) => None
    case JoinIngest => if s.ingest.IngestDone? then Some(s.(client := JoinClose(ToLock))) else None
    case JoinClose(ToLock) =>
      if s.owner.Some? then None else Some(s.(owner := Some(ClientThread), client := JoinClose(ToSet)))
    case JoinClose(ToSet) => Some(s.(closed := true, owner := None, client := JoinClose(ToNotifyAll)))
    case JoinClose(ToNotifyAll) => Some(s.(egress := Notified(s.egress), client := JoinEgress))
    case JoinEgress => if s.egress.EgressDone? then Some(s.(client := Idle(true))) else None
    case StopIngest => Some(s.(ingestStop := true, client := DropClose(ToLock)))
    case DropClose(ToLock) =>
      if s.owner.Some? then None else Some(s.(owner := Some(ClientThread), client := DropClose(ToSet)))
    case DropClose(ToSet) => Some(s.(closed := true, owner := None, client := DropClose(ToNotifyAll)))
    case DropClose(ToNotifyAll) => Some(s.(egress := Notified(s.egress), client := StopEgress))
    case StopEgress => Some(s.(egressStop := true, client := WakeEgress))
    case WakeEgress => Some(s.(egress := Notified(s.egress), client := ReapIngest))
    case ReapIngest => if s.ingest.IngestDone? then Some(s.(client := ReapEgress)) else None
    case ReapEgress => if s.egress.EgressDone? then Some(s.(client := Destroyed)) else None
    case Destroyed => None
  }

  /** What the scheduler, the owner's program and the condition variable can choose next. */
  datatype Move = IngestMove | EgressMove | ClientMove | CallJoin | CallDestructor | SpuriousWakeup

  function Step<M>(s: State<M>, move: Move): Option<State<M>> {
    match move
    case IngestMove => IngestStep(s)
    case EgressMove => EgressStep(s)
    case ClientMove => ClientStep(s)
    case CallJoin => if s.client == Idle(false) then Some(s.(client := JoinIngest)) else None
    case CallDestructor => if s.client.Idle? then Some(s.(client := StopIngest)) else None
    case SpuriousWakeup => if s.egress.Asleep? then Some(s.(egress := Woken)) else None
  }

  /** The state after a schedule, if every move of it was possible. */
  function Exec<M>(results: seq<Option<M>>, moves: seq<Move>): Option<State<M>> {
    if moves == [] then
      Some(Init(results))
    else
      match Exec(results, moves[..|moves| - 1])
      case None => None
      case Some(s) => Step(s, moves[|moves| - 1])
  }

  // ----- what every step keeps -----

  function Emitted<M>(results: seq<Option<M>>): seq<M> {
    if results == [] then
      []
    else
      Emitted(results[..|results| - 1]) +
      match results[|results| - 1] case Some(m) => [m] case None => []
  }

  /** The message the egress thread has popped and not yet delivered. */
  function InHand<M>(e: Egress<M>): seq<M> {
    if e.Delivering? then [e.message] else []
  }

  /** The message the ingest thread has decoded and not yet pushed. */
  function Held<M>(i: Ingest<M>): seq<M> {
    if i.Pushing? || i.Locked? then [i.message] else []
  }

  predicate Stopping(c: Client) {
    c.DropClose? || c.StopEgress? || c.WakeEgress? || c.ReapIngest? || c.ReapEgress? || c.Destroyed?
  }

  predicate IngestFinished<M>(i: Ingest<M>) {
    i.IngestDone? || (i.Closing? && i.step == ToNotifyAll)
  }

  predicate NotificationPending<M>(s: State<M>) {
    s.ingest.ToNotifyOne? || IngestAt(s, ToNotifyAll) || ClientAt(s, ToNotifyAll) || s.client.WakeEgress?
  }

  predicate HeldBy<M>(s: State<M>, t: Thread) {
    s.owner.Some? && s.owner.value == t
  }

  predicate IngestAt<M>(s: State<M>, step: CloseStep) {
    s.ingest.Closing? && s.ingest.step == step
  }

  predicate ClientAt<M>(s: State<M>, step: CloseStep) {
    (s.client.JoinClose? || s.client.DropClose?) && s.client.step == step
  }

  /** The mutex is held exactly by the thread that is inside a critical section. */
  ghost predicate MutexInv<M>(s: State<M>) {
    && (HeldBy(s, IngestThread) <==> s.ingest.Locked? || IngestAt(s, ToSet))
    && (HeldBy(s, EgressThread) <==> s.egress.Testing?)
    && (HeldBy(s, ClientThread) <==> ClientAt(s, ToSet))
  }

  /** Delivered, in hand, queued and held messages make up the emitted ones, in order. */
  ghost predicate FlowInv<M>(s: State<M>) {
    && s.next <= |s.results|
    && s.delivered + InHand(s.egress) + s.queue + Held(s.ingest) == Emitted(s.results[..s.next])
  }

  function Unrecorded<M>(i: Ingest<M>): int {
    if i.Pushing? || i.Locked? || i.ToNotifyOne? || i.Recording? then 1 else 0
  }

  function Unsucceeded<M>(i: Ingest<M>): int {
    if i.Recording? && !i.ok then 0 else Unrecorded(i)
  }

  ghost predicate CountInv<M>(s: State<M>) {
    && s.next <= |s.results|
    && s.success == Wrap(|Emitted(s.results[..s.next])| - Unsucceeded(s.ingest))
    && s.total == Wrap(s.next - Unrecorded(s.ingest))
    && s.egressCount == Wrap(|s.delivered| - if s.egress.Counting? then 1 else 0)
  }

  /** No wake-up is lost. */
  ghost predicate SleepInv<M>(s: State<M>) {
    s.egress.Asleep? ==> (s.queue == [] && !s.closed && !s.egressStop) || NotificationPending(s)
  }

  /** Who has closed, stopped and finished what. */
  ghost predicate PhaseInv<M>(s: State<M>) {
    && (s.ingestStop <==> Stopping(s.client))
    && (s.egressStop <==> s.client.WakeEgress? || s.client.ReapIngest? || s.client.ReapEgress? || s.client.Destroyed?)
    && (IngestFinished(s.ingest) ==> s.closed)
    && (s.closed && !Stopping(s.client) ==> IngestFinished(s.ingest))
    && (s.closed && s.client.DropClose? && s.client.step == ToLock ==> IngestFinished(s.ingest))
    && (s.client.JoinClose? || s.client.JoinEgress? || (s.client.Idle? && s.client.joined) ==> s.ingest.IngestDone?)
    && (s.client.ReapEgress? || s.client.Destroyed? ==> s.ingest.IngestDone?)
    && ((s.client.Idle? && s.client.joined) || s.client.Destroyed? ==> s.egress.EgressDone?)
    && ((s.client.DropClose? && s.client.step.ToNotifyAll?) || s.egressStop || s.client.StopEgress? ==> s.closed)
    && (s.ingest.Closing? || s.ingest.IngestDone? ==> s.ingestStop || s.next == |s.results|)
    && (s.ingest.IngestDone? && !s.ingestStop ==> s.next == |s.results|)
  }

  /** Egress never leaves more behind than what ingest had in hand when it was stopped. */
  ghost predicate ExitInv<M>(s: State<M>) {
    s.egress.EgressDone? ==>
      && |s.queue| + |Held(s.ingest)| <= 1
      && (!Stopping(s.client) ==> s.queue == [] && IngestFinished(s.ingest))
  }

  ghost predicate ControlInv<M>(s: State<M>) {
    MutexInv(s) && SleepInv(s) && PhaseInv(s) && ExitInv(s)
  }

  // Thread by thread, the proofs go through the thread's phases.

  lemma IngestControl<M>(s: State<M>)
    requires s.next <= |s.results| && ControlInv(s) && IngestStep(s).Some?
    ensures ControlInv(IngestStep(s).value)
  {
    match s.ingest
    case AtLine =>
    case Pushing(_) =>
    case Locked(_) =>
    case ToNotifyOne =>
    case Recording(_) =>
    case Closing(step) => if step.ToLock? {} else if step.ToSet? {} else {}
  }

  lemma EgressControl<M>(s: State<M>)
    requires ControlInv(s) && EgressStep(s).Some?
    ensures ControlInv(EgressStep(s).value)
  {
    match s.egress
    case Entering =>
    case Testing => if s.queue != [] {} else if s.closed || s.egressStop {} else {}
    case Woken =>
    case Delivering(_) =>
    case Counting =>
  }

  lemma ClientControl<M>(s: State<M>)
    requires ControlInv(s) && ClientStep(s).Some?
    ensures ControlInv(ClientStep(s).value)
  {
    match s.client
    case JoinIngest =>
    case JoinClose(step) => if step.ToLock? {} else if step.ToSet? {} else {}
    case JoinEgress =>
    case StopIngest =>
    case DropClose(step) => if step.ToLock? {} else if step.ToSet? {} else {}
    case StopEgress =>
    case WakeEgress =>
    case ReapIngest =>
    case ReapEgress =>
  }

  lemma ControlKept<M>(s: State<M>, move: Move)
    requires s.next <= |s.results| && ControlInv(s) && Step(s, move).Some?
    ensures ControlInv(Step(s, move).value)
  {
    match move
    case IngestMove => IngestControl(s);
    case EgressMove => EgressControl(s);
    case ClientMove => ClientControl(s);
    case CallJoin =>
    case CallDestructor =>
    case SpuriousWakeup =>
  }

  lemma EmittedNext<M>(results: seq<Option<M>>, n: nat)
    requires n < |results|
    ensures Emitted(results[..n + 1]) ==
            Emitted(results[..n]) + match results[n] case Some(m) => [m] case None => []
  {
    assert results[..n + 1][..n] == results[..n];
  }

  /** Messages and counters are where they were. */
  ghost predicate SameFlow<M>(s: State<M>, t: State<M>) {
    && t.results == s.results && t.next == s.next && t.queue == s.queue && t.delivered == s.delivered
    && Held(t.ingest) == Held(s.ingest) && InHand(t.egress) == InHand(s.egress)
  }

  ghost predicate SameCounts<M>(s: State<M>, t: State<M>) {
    && t.results == s.results && t.next == s.next && |t.delivered| == |s.delivered|
    && t.success == s.success && t.total == s.total && t.egressCount == s.egressCount
    && Unrecorded(t.ingest) == Unrecorded(s.ingest) && Unsucceeded(t.ingest) == Unsucceeded(s.ingest)
    && t.egress.Counting? == s.egress.Counting?
  }

  lemma IngestFrame<M>(s: State<M>)
    requires IngestStep(s).Some? && !s.ingest.AtLine?
    ensures !s.ingest.Locked? ==> SameFlow(s, IngestStep(s).value)
    ensures !s.ingest.Recording? ==> SameCounts(s, IngestStep(s).value)
  {
    match s.ingest
    case Pushing(_) =>
    case Locked(_) =>
    case ToNotifyOne =>
    case Recording(_) =>
    case Closing(step) => if step.ToLock? {} else if step.ToSet? {} else {}
  }

  lemma TakeLine<M>(s: State<M>)
    requires s.ingest.AtLine? && !s.ingestStop && s.next < |s.results| && FlowInv(s)
    ensures IngestStep(s).Some? && FlowInv(IngestStep(s).value)
  {
    var t := IngestStep(s).value;
    var flow := s.delivered + InHand(s.egress) + s.queue;
    EmittedNext(s.results, s.next);
    assert flow + [] == flow;
    assert Held(t.ingest) == match s.results[s.next] case Some(m) => [m] case None => [];
  }

  lemma TakeLineCount<M>(s: State<M>)
    requires s.ingest.AtLine? && !s.ingestStop && s.next < |s.results| && CountInv(s)
    ensures IngestStep(s).Some? && CountInv(IngestStep(s).value)
  {
    EmittedNext(s.results, s.next);
  }

  lemma PushMessage<M>(s: State<M>)
    requires s.ingest.Locked? && FlowInv(s)
    ensures IngestStep(s).Some? && FlowInv(IngestStep(s).value)
  {
    var m := s.ingest.message;
    assert s.delivered + InHand(s.egress) + (s.queue + [m]) + [] == s.delivered + InHand(s.egress) + s.queue + [m];
  }

  lemma RecordResult<M>(s: State<M>)
    requires s.ingest.Recording? && CountInv(s)
    ensures IngestStep(s).Some? && CountInv(IngestStep(s).value)
  {
    WrapAdd(|Emitted(s.results[..s.next])| - 1, 1);
    WrapAdd(s.next - 1, 1);
  }

  lemma IngestFlow<M>(s: State<M>)
    requires FlowInv(s) && CountInv(s) && IngestStep(s).Some?
    ensures FlowInv(IngestStep(s).value) && CountInv(IngestStep(s).value)
  {
    if s.ingest.AtLine? {
      if !s.ingestStop && s.next < |s.results| {
        TakeLine(s);
        TakeLineCount(s);
      } else {
        assert SameFlow(s, IngestStep(s).value) && SameCounts(s, IngestStep(s).value);
      }
    } else {
      IngestFrame(s);
      if s.ingest.Locked? {
        PushMessage(s);
      } else if s.ingest.Recording? {
        RecordResult(s);
      }
    }
  }

  lemma EgressFrame<M>(s: State<M>)
    requires EgressStep(s).Some?
    ensures s.egress.Entering? || s.egress.Woken? || s.egress.Counting? ==> SameFlow(s, EgressStep(s).value)
    ensures s.egress.Entering? || s.egress.Woken? || s.egress.Testing? ==> SameCounts(s, EgressStep(s).value)
  {
    match s.egress
    case Entering =>
    case Testing =>
    case Woken =>
    case Delivering(_) =>
    case Counting =>
  }

  lemma PopMessage<M>(s: State<M>)
    requires s.egress.Testing? && FlowInv(s)
    ensures EgressStep(s).Some? && FlowInv(EgressStep(s).value)
  {
    if s.queue != [] {
      var m, rest := s.queue[0], s.queue[1..];
      assert s.queue == [m] + rest;
      assert s.delivered + [m] + rest + Held(s.ingest) == s.delivered + [] + s.queue + Held(s.ingest);
    }
  }

  lemma DeliverMessage<M>(s: State<M>)
    requires s.egress.Delivering? && FlowInv(s) && CountInv(s)
    ensures EgressStep(s).Some? && FlowInv(EgressStep(s).value) && CountInv(EgressStep(s).value)
  {
    var m := s.egress.message;
    assert (s.delivered + [m]) + [] + s.queue + Held(s.ingest) == s.delivered + [m] + s.queue + Held(s.ingest);
  }

  lemma EgressFlow<M>(s: State<M>)
    requires FlowInv(s) && CountInv(s) && EgressStep(s).Some?
    ensures FlowInv(EgressStep(s).value) && CountInv(EgressStep(s).value)
  {
    EgressFrame(s);
    if s.egress.Testing? {
      PopMessage(s);
    } else if s.egress.Delivering? {
      DeliverMessage(s);
    } else if s.egress.Counting? {
      WrapAdd(|s.delivered| - 1, 1);
    }
  }

  lemma ClientFrame<M>(s: State<M>)
    requires ClientStep(s).Some?
    ensures SameFlow(s, ClientStep(s).value) && SameCounts(s, ClientStep(s).value)
  {
    match s.client
    case JoinIngest =>
    case JoinClose(step) => if step.ToLock? {} else if step.ToSet? {} else {}
    case JoinEgress =>
    case StopIngest =>
    case DropClose(step) => if step.ToLock? {} else if step.ToSet? {} else {}
    case StopEgress =>
    case WakeEgress =>
    case ReapIngest =>
    case ReapEgress =>
  }

  lemma FlowKept<M>(s: State<M>, move: Move)
    requires FlowInv(s) && CountInv(s) && Step(s, move).Some?
    ensures FlowInv(Step(s, move).value) && CountInv(Step(s, move).value)
  {
    match move
    case IngestMove => IngestFlow(s);
    case EgressMove => EgressFlow(s);
    case ClientMove => ClientFrame(s);
    case CallJoin => assert SameFlow(s, Step(s, move).value) && SameCounts(s, Step(s, move).value);
    case CallDestructor => assert SameFlow(s, Step(s, move).value) && SameCounts(s, Step(s, move).value);
    case SpuriousWakeup => assert SameFlow(s, Step(s, move).value) && SameCounts(s, Step(s, move).value);
  }

  ghost predicate Inv<M>(s: State<M>) {
    ControlInv(s) && FlowInv(s) && CountInv(s)
  }

  lemma InitInv<M>(results: seq<Option<M>>)
    ensures Inv(Init(results))
  {
  }

  lemma StepKeepsInv<M>(s: State<M>, move: Move)
    requires Inv(s) && Step(s, move).Some?
    ensures Inv(Step(s, move).value)
  {
    ControlKept(s, move);
    FlowKept(s, move);
  }

  lemma {:induction false} ReachableInv<M>(results: seq<Option<M>>, moves: seq<Move>)
    requires Exec(results, moves).Some?
    ensures Inv(Exec(results, moves).value)
    ensures Exec(results, moves).value.results == results
  {
    if moves == [] {
      InitInv(results);
    } else {
      var s := Exec(results, moves[..|moves| - 1]).value;
      ReachableInv(results, moves[..|moves| - 1]);
      StepKeepsInv(s, moves[|moves| - 1]);
      ResultsFixed(s, moves[|moves| - 1]);
    }
  }

  lemma ResultsFixed<M>(s: State<M>, move: Move)
    requires Step(s, move).Some?
    ensures Step(s, move).value.results == s.results
  {
    if move.ClientMove? {
      ClientFrame(s);
    }
  }

  // ----- delivery -----

  /** Under every schedule: delivered, in hand, queued and about to be pushed messages are
      together the messages emitted so far, once each and in order. */
  lemma NothingLostOrReordered<M>(results: seq<Option<M>>, moves: seq<Move>)
    requires Exec(results, moves).Some?
    ensures var s := Exec(results, moves).value;
            && s.next <= |results|
            && s.delivered + InHand(s.egress) + s.queue + Held(s.ingest) == Emitted(results[..s.next])
            && s.delivered <= Emitted(results)
  {
    ReachableInv(results, moves);
    var s := Exec(results, moves).value;
    assert s.delivered <= Emitted(results[..s.next]);
    EmittedPrefix(results, s.next);
  }

  lemma {:induction false} EmittedPrefix<M>(results: seq<Option<M>>, n: nat)
    requires n <= |results|
    ensures Emitted(results[..n]) <= Emitted(results)
    decreases |results| - n
  {
    if n == |results| {
      assert results[..n] == results;
    } else {
      EmittedNext(results, n);
      EmittedPrefix(results, n + 1);
    }
  }

  /** When `Join` returns, everything the input emitted has been delivered, once and in order,
      and the three counters agree with it (as 64-bit counters). */
  lemma JoinDeliversAll<M>(results: seq<Option<M>>, moves: seq<Move>)
    requires Exec(results, moves).Some? && Exec(results, moves).value.client == Idle(true)
    ensures var s := Exec(results, moves).value;
            && s.delivered == Emitted(results)
            && s.egressCount == s.success == Wrap(|Emitted(results)|)
            && s.total == Wrap(|results|)
  {
    var s := Exec(results, moves).value;
    ReachableInv(results, moves);
    JoinedState(s);
    assert s.results[..|s.results|] == s.results;
  }

  lemma JoinedState<M>(s: State<M>)
    requires Inv(s) && s.client == Idle(true)
    ensures s.next == |s.results| && s.egress.EgressDone? && s.ingest.IngestDone? && s.queue == []
    ensures s.delivered == Emitted(s.results[..s.next])
    ensures s.success == s.egressCount == Wrap(|s.delivered|) && s.total == Wrap(s.next)
  {
    assert s.delivered + [] + [] + [] == s.delivered;
  }

  /** When the destructor returns, at any moment it was called, the delivered messages are the
      emitted ones but for at most the last. */
  lemma DestructorLosesAtMostOne<M>(results: seq<Option<M>>, moves: seq<Move>)
    requires Exec(results, moves).Some? && Exec(results, moves).value.client.Destroyed?
    ensures var s := Exec(results, moves).value;
            && s.next <= |results|
            && s.delivered + s.queue == Emitted(results[..s.next])
            && |s.queue| <= 1
  {
    ReachableInv(results, moves);
    var s := Exec(results, moves).value;
    assert InHand(s.egress) == [] && Held(s.ingest) == [];
    assert s.delivered + [] == s.delivered && s.delivered + s.queue + [] == s.delivered + s.queue;
  }

  lemma Extend<M>(results: seq<Option<M>>, moves: seq<Move>, s: State<M>, move: Move)
    requires Exec(results, moves) == Some(s)
    ensures Exec(results, moves + [move]) == Step(s, move)
  {
    assert (moves + [move])[..|moves|] == moves;
  }

  /** Some continuation of the schedule `from` leads to `s`. */
  ghost predicate Reaches<M>(results: seq<Option<M>>, from: seq<Move>, s: State<M>) {
    exists after :: Exec(results, from + after) == Some(s)
  }

  lemma ReachesNext<M>(results: seq<Option<M>>, from: seq<Move>, s: State<M>, move: Move, t: State<M>)
    requires Reaches(results, from, s) && Step(s, move) == Some(t)
    ensures Reaches(results, from, t)
  {
    var after :| Exec(results, from + after) == Some(s);
    Extend(results, from + after, s, move);
    assert from + after + [move] == from + (after + [move]);
  }

  /** The destructor has returned, and some emitted message was not delivered. */
  ghost predicate Loses<M>(results: seq<Option<M>>, moves: seq<Move>) {
    var end := Exec(results, moves);
    end.Some? && end.value.client.Destroyed? && end.value.next <= |results| &&
    end.value.delivered != Emitted(results[..end.value.next])
  }

  // If ingest is not about to lock the mutex with a message when the stop request is set:

  /** Nothing is left behind, and nothing will be. */
  ghost predicate NothingToLose<M>(s: State<M>) {
    && Stopping(s.client)
    && !s.ingest.Pushing?
    && (s.egress.EgressDone? ==> s.queue == [] && !s.ingest.Locked?)
  }

  lemma StopFindsNothing<M>(s: State<M>)
    requires Inv(s) && s.client.StopIngest? && !s.ingest.Pushing?
    ensures NothingToLose(ClientStep(s).value)
  {
  }

  lemma IngestLosesNothing<M>(s: State<M>)
    requires ControlInv(s) && s.next <= |s.results| && NothingToLose(s) && IngestStep(s).Some?
    ensures NothingToLose(IngestStep(s).value)
  {
    match s.ingest
    case AtLine =>
    case Locked(_) =>
    case ToNotifyOne =>
    case Recording(_) =>
    case Closing(step) => if step.ToLock? {} else if step.ToSet? {} else {}
  }

  lemma ClientLosesNothing<M>(s: State<M>)
    requires NothingToLose(s) && ClientStep(s).Some?
    ensures NothingToLose(ClientStep(s).value)
  {
    match s.client
    case DropClose(step) => if step.ToLock? {} else if step.ToSet? {} else {}
    case StopEgress =>
    case WakeEgress =>
    case ReapIngest =>
    case ReapEgress =>
  }

  lemma NothingToLoseKept<M>(s: State<M>, move: Move)
    requires ControlInv(s) && s.next <= |s.results| && NothingToLose(s) && Step(s, move).Some?
    ensures NothingToLose(Step(s, move).value)
  {
    match move
    case IngestMove => IngestLosesNothing(s);
    case EgressMove =>
    case ClientMove => ClientLosesNothing(s);
    case SpuriousWakeup =>
  }

  lemma {:induction false} StaysSafe<M>(results: seq<Option<M>>, from: seq<Move>, after: seq<Move>)
    requires Exec(results, from).Some? && NothingToLose(Exec(results, from).value)
    requires Exec(results, from + after).Some?
    ensures NothingToLose(Exec(results, from + after).value)
    decreases |after|
  {
    if after == [] {
      assert from + after == from;
    } else {
      var k := |after| - 1;
      assert (from + after)[..|from| + k] == from + after[..k];
      StaysSafe(results, from, after[..k]);
      ReachableInv(results, from + after[..k]);
      NothingToLoseKept(Exec(results, from + after[..k]).value, after[k]);
    }
  }

  lemma AllReaped<M>(results: seq<Option<M>>, moves: seq<Move>)
    requires Exec(results, moves).Some? && Exec(results, moves).value.client.Destroyed?
    ensures Exec(results, moves).value.egress.EgressDone?
  {
    ReachableInv(results, moves);
  }

  lemma NothingLost<M>(results: seq<Option<M>>, before: seq<Move>, after: seq<Move>)
    requires Exec(results, before).Some?
    requires Exec(results, before).value.client.StopIngest? && !Exec(results, before).value.ingest.Pushing?
    ensures !Loses(results, before + [ClientMove] + after)
  {
    var s, end := Exec(results, before).value, Exec(results, before + [ClientMove] + after);
    ReachableInv(results, before);
    StopFindsNothing(s);
    Extend(results, before, s, ClientMove);
    if end.Some? && end.value.client.Destroyed? {
      StaysSafe(results, before + [ClientMove], after);
      AllReaped(results, before + [ClientMove] + after);
      DestructorLosesAtMostOne(results, before + [ClientMove] + after);
      assert end.value.delivered + [] == end.value.delivered;
    }
  }

  // If it is: egress is let to drain the closed queue and end before ingest goes on.

  lemma StopsAndCloses<M>(results: seq<Option<M>>, from: seq<Move>, s: State<M>)
    requires Reaches(results, from, s) && s.client == DropClose(ToLock) && s.owner.None?
    ensures Reaches(results, from,
                    s.(client := ReapIngest, closed := true, egressStop := true, egress := Notified(s.egress)))
  {
    var s2 := s.(owner := Some(ClientThread), client := DropClose(ToSet));
    var s3 := s.(closed := true, client := DropClose(ToNotifyAll));
    ReachesNext(results, from, s, ClientMove, s2);
    ReachesNext(results, from, s2, ClientMove, s3);
    NotifiesAndStops(results, from, s3);
  }

  lemma NotifiesAndStops<M>(results: seq<Option<M>>, from: seq<Move>, s: State<M>)
    requires Reaches(results, from, s) && s.client == DropClose(ToNotifyAll)
    ensures Reaches(results, from, s.(client := ReapIngest, egressStop := true, egress := Notified(s.egress)))
  {
    var s4 := s.(egress := Notified(s.egress), client := StopEgress);
    var s5 := s4.(egressStop := true, client := WakeEgress);
    ReachesNext(results, from, s, ClientMove, s4);
    ReachesNext(results, from, s4, ClientMove, s5);
    ReachesNext(results, from, s5, ClientMove, s5.(client := ReapIngest));
  }

  /** Egress, let run alone on a closed queue, delivers what is queued and ends. */
  lemma {:induction false} Drains<M>(results: seq<Option<M>>, from: seq<Move>, s: State<M>) returns (t: State<M>)
    requires Reaches(results, from, s) && s.owner.None? && s.closed
    requires !s.egress.Asleep? && !s.egress.Testing? && (s.egress.EgressDone? ==> s.queue == [])
    ensures Reaches(results, from, t)
    ensures t == s.(egress := EgressDone, queue := [], delivered := t.delivered, egressCount := t.egressCount)
    decreases |s.queue|, EgressWeight(s.egress)
  {
    if s.egress.EgressDone? {
      t := s;
    } else {
      var s1 := EgressTurn(results, from, s);
      t := Drains(results, from, s1);
    }
  }

  /** The next egress step; with the lock, the test that follows it as well. */
  lemma EgressTurn<M>(results: seq<Option<M>>, from: seq<Move>, s: State<M>) returns (t: State<M>)
    requires Reaches(results, from, s) && s.owner.None? && s.closed
    requires !s.egress.Asleep? && !s.egress.Testing? && !s.egress.EgressDone?
    ensures Reaches(results, from, t) && !t.egress.Asleep? && !t.egress.Testing? && (t.egress.EgressDone? ==> t.queue == [])
    ensures t == s.(egress := t.egress, queue := t.queue, delivered := t.delivered, egressCount := t.egressCount)
    ensures |t.queue| < |s.queue| || (|t.queue| == |s.queue| && EgressWeight(t.egress) < EgressWeight(s.egress))
  {
    if s.egress.Entering? || s.egress.Woken? {
      var s1 := s.(owner := Some(EgressThread), egress := Testing);
      ReachesNext(results, from, s, EgressMove, s1);
      t := if s.queue == [] then s.(egress := EgressDone)
           else s.(queue := s.queue[1..], egress := Delivering(s.queue[0]));
      ReachesNext(results, from, s1, EgressMove, t);
    } else {
      t := EgressStep(s).value;
      ReachesNext(results, from, s, EgressMove, t);
    }
  }

  lemma PushesLast<M>(results: seq<Option<M>>, from: seq<Move>, s: State<M>, m: M, t: State<M>)
    requires Reaches(results, from, s) && s.ingest == Pushing(m) && s.owner.None? && s.egress.EgressDone? && s.queue == []
    requires t == s.(queue := [m], ingest := AtLine, success := Wrap(s.success + 1), total := Wrap(s.total + 1))
    ensures Reaches(results, from, t)
  {
    Queued(results, from, s, m);
    Recorded(results, from, s.(queue := [m], ingest := ToNotifyOne), t);
  }

  lemma Queued<M>(results: seq<Option<M>>, from: seq<Move>, s: State<M>, m: M)
    requires Reaches(results, from, s) && s.ingest == Pushing(m) && s.owner.None? && s.queue == []
    ensures Reaches(results, from, s.(queue := [m], ingest := ToNotifyOne))
  {
    var s1 := s.(owner := Some(IngestThread), ingest := Locked(m));
    var s2 := s.(queue := [m], ingest := ToNotifyOne);
    assert IngestStep(s1) == Some(s2) by { assert s.queue + [m] == [m]; }
    ReachesNext(results, from, s, IngestMove, s1);
    ReachesNext(results, from, s1, IngestMove, s2);
  }

  lemma Recorded<M>(results: seq<Option<M>>, from: seq<Move>, s: State<M>, t: State<M>)
    requires Reaches(results, from, s) && s.ingest.ToNotifyOne? && s.egress.EgressDone?
    requires t == s.(ingest := AtLine, success := Wrap(s.success + 1), total := Wrap(s.total + 1))
    ensures Reaches(results, from, t)
  {
    var s1 := s.(ingest := Recording(true));
    assert IngestStep(s1) == Some(t);
    ReachesNext(results, from, s, IngestMove, s1);
    ReachesNext(results, from, s1, IngestMove, t);
  }

  lemma ClosesAgain<M>(results: seq<Option<M>>, from: seq<Move>, s: State<M>)
    requires Reaches(results, from, s) && s.ingest.AtLine? && s.owner.None? && s.egress.EgressDone?
    requires s.ingestStop && s.closed
    ensures Reaches(results, from, s.(ingest := IngestDone))
  {
    var s1 := s.(ingest := Closing(ToLock));
    var s2 := s.(owner := Some(IngestThread), ingest := Closing(ToSet));
    var s3 := s.(ingest := Closing(ToNotifyAll));
    ReachesNext(results, from, s, IngestMove, s1);
    ReachesNext(results, from, s1, IngestMove, s2);
    ReachesNext(results, from, s2, IngestMove, s3);
    ReachesNext(results, from, s3, IngestMove, s.(ingest := IngestDone));
  }

  lemma ReapsBoth<M>(results: seq<Option<M>>, from: seq<Move>, s: State<M>)
    requires Reaches(results, from, s) && s.client.ReapIngest? && s.ingest.IngestDone? && s.egress.EgressDone?
    ensures Reaches(results, from, s.(client := Destroyed))
  {
    var s1 := s.(client := ReapEgress);
    ReachesNext(results, from, s, ClientMove, s1);
    ReachesNext(results, from, s1, ClientMove, s.(client := Destroyed));
  }

  /** Once the stop request is set, the mutex comes free with egress still waiting or running. */
  lemma MutexComesFree<M>(results: seq<Option<M>>, before: seq<Move>, s: State<M>) returns (t: State<M>)
    requires Exec(results, before) == Some(s) && s.client.StopIngest? && s.ingest.Pushing?
    ensures Reaches(results, before + [ClientMove], t)
    ensures t.client == DropClose(ToLock) && t.owner.None? && t.ingestStop
    ensures t.ingest == s.ingest && !t.egress.Testing? && !t.egress.EgressDone?
  {
    ReachableInv(results, before);
    t := s.(ingestStop := true, client := DropClose(ToLock));
    Extend(results, before, s, ClientMove);
    assert before + [ClientMove] + [] == before + [ClientMove];
    assert Exec(results, before + [ClientMove] + []) == Some(t);
    if s.egress.Testing? {
      var u := EgressStep(t).value;
      ReachesNext(results, before + [ClientMove], t, EgressMove, u);
      t := u;
    }
  }

  lemma OneLost<M>(results: seq<Option<M>>, before: seq<Move>, s: State<M>, m: M) returns (after: seq<Move>)
    requires Exec(results, before) == Some(s) && s.client.StopIngest? && s.ingest == Pushing(m)
    ensures Loses(results, before + [ClientMove] + after)
    ensures Exec(results, before + [ClientMove] + after).value.queue == [m]
  {
    var from := before + [ClientMove];
    var free := MutexComesFree(results, before, s);
    StopsAndCloses(results, from, free);
    var stopped := free.(client := ReapIngest, closed := true, egressStop := true, egress := Notified(free.egress));
    var drained := Drains(results, from, stopped);
    var pushed := drained.(queue := [m], ingest := AtLine,
                           success := Wrap(drained.success + 1), total := Wrap(drained.total + 1));
    PushesLast(results, from, drained, m, pushed);
    ClosesAgain(results, from, pushed);
    ReapsBoth(results, from, pushed.(ingest := IngestDone));
    after :| Exec(results, from + after) == Some(pushed.(ingest := IngestDone, client := Destroyed));
    DestructorLosesAtMostOne(results, from + after);
  }

  /** The exact condition: from the moment the destructor sets the stop request, some continuation
      loses a message if and only if ingest is at that moment about to lock the mutex with one. */
  lemma DestructorLosesIff<M>(results: seq<Option<M>>, before: seq<Move>)
    requires Exec(results, before).Some? && Exec(results, before).value.client.StopIngest?
    ensures (exists after :: Loses(results, before + [ClientMove] + after)) <==>
              Exec(results, before).value.ingest.Pushing?
  {
    var s := Exec(results, before).value;
    if s.ingest.Pushing? {
      var after := OneLost(results, before, s, s.ingest.message);
    } else {
      forall after ensures !Loses(results, before + [ClientMove] + after) {
        NothingLost(results, before, after);
      }
    }
  }

  /** The smallest engine that can lose a message: one line, decoded when the destructor is called. */
  lemma DestructorCanLoseOne<M>(m: M)
    ensures exists moves :: Loses([Some(m)], moves)
  {
    var results := [Some(m)];
    var decoded := Init(results).(next := 1, ingest := Pushing(m));
    Extend(results, [], Init(results), IngestMove);
    Extend(results, [] + [IngestMove], decoded, CallDestructor);
    var after := OneLost(results, [] + [IngestMove] + [CallDestructor], decoded.(client := StopIngest), m);
  }

  /** A destructor called after `Join` has returned loses nothing. */
  lemma JoinedEngineLosesNothing<M>(results: seq<Option<M>>, moves: seq<Move>, after: seq<Move>)
    requires Exec(results, moves).Some? && Exec(results, moves).value.client == Idle(true)
    ensures !Loses(results, moves + [CallDestructor] + [ClientMove] + after)
  {
    ReachableInv(results, moves);
    Extend(results, moves, Exec(results, moves).value, CallDestructor);
    NothingLost(results, moves + [CallDestructor], after);
  }

  // ----- liveness -----

  /** No wake-up is lost: a sleeping egress thread has nothing to wake up for, or a notification
      that will wake it is on its way. */
  lemma NoLostWakeup<M>(results: seq<Option<M>>, moves: seq<Move>)
    requires Exec(results, moves).Some? && Exec(results, moves).value.egress.Asleep?
    ensures var s := Exec(results, moves).value;
            || WaitOutcome(s.queue, s.closed, s.egressStop).MustSleep?
            || NotificationPending(s)
  {
    ReachableInv(results, moves);
  }

  /** Both threads have ended, and the owner is not inside the engine. */
  predicate Quiescent<M>(s: State<M>) {
    s.ingest.IngestDone? && s.egress.EgressDone? && (s.client.Idle? || s.client.Destroyed?)
  }

  /** A move of one of the three threads, not a choice from outside. */
  predicate Internal(move: Move) {
    move.IngestMove? || move.EgressMove? || move.ClientMove?
  }

  /** No deadlock: in every reachable state that is not quiescent some thread can move. */
  lemma SomeThreadCanMove<M>(results: seq<Option<M>>, moves: seq<Move>)
    requires Exec(results, moves).Some? && !Quiescent(Exec(results, moves).value)
    ensures exists move :: Internal(move) && Step(Exec(results, moves).value, move).Some?
  {
    ReachableInv(results, moves);
    var s := Exec(results, moves).value;
    var move := Runnable(s);
  }

  /** Who: the holder of the mutex, else ingest, else egress, else the owner. */
  lemma Runnable<M>(s: State<M>) returns (move: Move)
    requires Inv(s) && !Quiescent(s)
    ensures Internal(move) && Step(s, move).Some?
  {
    if s.owner.Some? {
      move := match s.owner.value
        case IngestThread => IngestMove
        case EgressThread => EgressMove
        case ClientThread => ClientMove;
    } else if !s.ingest.IngestDone? {
      move := IngestMove;
    } else if !s.egress.EgressDone? && !s.egress.Asleep? {
      move := EgressMove;
    } else {
      move := ClientMove;
    }
  }

  function CloseWeight(step: CloseStep): nat {
    match step
    case ToLock => 5
    case ToSet => 4
    case ToNotifyAll => 3
  }

  function IngestWeight<M>(i: Ingest<M>): nat {
    match i
    case AtLine => 6
    case Pushing(_) => 16
    case Locked(_) => 15
    case ToNotifyOne => 10
    case Recording(_) => 7
    case Closing(step) => CloseWeight(step)
    case IngestDone => 0
  }

  function EgressWeight<M>(e: Egress<M>): nat {
    match e
    case Entering => 3
    case Testing => 2
    case Asleep => 1
    case Woken => 3
    case Delivering(_) => 5
    case Counting => 4
    case EgressDone => 0
  }

  function ClientWeight(c: Client): nat {
    match c
    case Idle(joined) => if joined then 13 else 21
    case JoinIngest => 20
    case JoinClose(step) => 14 + CloseWeight(step)
    case JoinEgress => 14
    case StopIngest => 12
    case DropClose(step) => 6 + CloseWeight(step)
    case StopEgress => 6
    case WakeEgress => 5
    case ReapIngest => 2
    case ReapEgress => 1
    case Destroyed => 0
  }

  /** What is left to do. */
  function Work<M>(s: State<M>): nat
    requires s.next <= |s.results|
  {
    11 * (|s.results| - s.next) + 4 * |s.queue|
    + IngestWeight(s.ingest) + EgressWeight(s.egress) + ClientWeight(s.client)
  }

  lemma IngestWorks<M>(s: State<M>)
    requires s.next <= |s.results| && IngestStep(s).Some?
    ensures var t := IngestStep(s).value; t.next <= |t.results| && Work(t) < Work(s)
  {
    match s.ingest
    case AtLine =>
    case Pushing(_) =>
    case Locked(_) =>
    case ToNotifyOne =>
    case Recording(_) =>
    case Closing(step) => if step.ToLock? {} else if step.ToSet? {} else {}
  }

  lemma EgressWorks<M>(s: State<M>)
    requires s.next <= |s.results| && EgressStep(s).Some?
    ensures var t := EgressStep(s).value; t.next <= |t.results| && Work(t) < Work(s)
  {
    match s.egress
    case Entering =>
    case Testing =>
    case Woken =>
    case Delivering(_) =>
    case Counting =>
  }

  lemma ClientWorks<M>(s: State<M>)
    requires s.next <= |s.results| && ClientStep(s).Some?
    ensures var t := ClientStep(s).value; t.next <= |t.results| && Work(t) < Work(s)
  {
    ClientFrame(s);
    ClientWeights(s);
  }

  lemma ClientWeights<M>(s: State<M>)
    requires ClientStep(s).Some?
    ensures var t := ClientStep(s).value;
            && t.ingest == s.ingest
            && EgressWeight(t.egress) + ClientWeight(t.client) < EgressWeight(s.egress) + ClientWeight(s.client)
  {
    match s.client
    case JoinIngest =>
    case JoinClose(step) => if step.ToLock? {} else if step.ToSet? {} else {}
    case JoinEgress =>
    case StopIngest =>
    case DropClose(step) => if step.ToLock? {} else if step.ToSet? {} else {}
    case StopEgress =>
    case WakeEgress =>
    case ReapIngest =>
    case ReapEgress =>
  }

  /** Every move but a spurious wake-up gets work done; a spurious wake-up makes 2 units of it. */
  lemma MovesWork<M>(s: State<M>, move: Move)
    requires s.next <= |s.results| && Step(s, move).Some?
    ensures var t := Step(s, move).value;
            && t.next <= |t.results|
            && (if move.SpuriousWakeup? then Work(t) == Work(s) + 2 else Work(t) < Work(s))
  {
    match move
    case IngestMove => IngestWorks(s);
    case EgressMove => EgressWorks(s);
    case ClientMove => ClientWorks(s);
    case CallJoin =>
    case CallDestructor =>
    case SpuriousWakeup =>
  }

  function Spurious(moves: seq<Move>): nat {
    if moves == [] then 0
    else Spurious(moves[..|moves| - 1]) + if moves[|moves| - 1].SpuriousWakeup? then 1 else 0
  }

  /** Termination: no schedule is longer than 11 moves a line, 30 for starting, joining and tearing
      down, and 3 for every spurious wake-up.  With `SomeThreadCanMove`: a schedule that lets threads
      move while they can reaches a quiescent state, so `Join` and the destructor return. */
  lemma {:induction false} SchedulesAreBounded<M>(results: seq<Option<M>>, moves: seq<Move>)
    requires Exec(results, moves).Some?
    ensures var s := Exec(results, moves).value;
            && s.next <= |s.results|
            && |moves| + Work(s) <= 11 * |results| + 30 + 3 * Spurious(moves)
  {
    if moves != [] {
      var front := moves[..|moves| - 1];
      SchedulesAreBounded(results, front);
      MovesWork(Exec(results, front).value, moves[|moves| - 1]);
    }
  }

  // ----- calls return -----

  predicate InJoin(c: Client) {
    c.JoinIngest? || c.JoinClose? || c.JoinEgress?
  }

  /** The owner's thread is inside `Join` or the destructor. */
  predicate Inside(c: Client) {
    !c.Idle? && !c.Destroyed?
  }

  /** Where the call it is in returns to. */
  function Returned(c: Client): Client
    requires Inside(c)
  {
    if InJoin(c) then Idle(true) else Destroyed
  }

  /** A move of a thread leaves the owner in the call it is in, or returns from it. */
  lemma StaysInCall<M>(s: State<M>, move: Move)
    requires Inside(s.client) && Internal(move) && Step(s, move).Some?
    ensures var c := Step(s, move).value.client;
            if Inside(c) then Returned(c) == Returned(s.client) else c == Returned(s.client)
  {
    if move.ClientMove? {
      match s.client
      case JoinIngest =>
      case JoinClose(step) => if step.ToLock? {} else if step.ToSet? {} else {}
      case JoinEgress =>
      case StopIngest =>
      case DropClose(step) => if step.ToLock? {} else if step.ToSet? {} else {}
      case StopEgress =>
      case WakeEgress =>
      case ReapIngest =>
      case ReapEgress =>
    }
  }

  predicate AllInternal(moves: seq<Move>) {
    forall move <- moves :: Internal(move)
  }

  /** Where the owner is after some moves of the threads, seen from a call. */
  predicate InOrReturned(call: Client, c: Client)
    requires Inside(call)
  {
    if Inside(c) then Returned(c) == Returned(call) else c == Returned(call)
  }

  /** From inside a call some thread can move, and that is work done. */
  lemma CallGoesOn<M>(results: seq<Option<M>>, from: seq<Move>, s: State<M>) returns (move: Move, t: State<M>)
    requires Exec(results, from) == Some(s) && Inside(s.client)
    ensures Internal(move) && Step(s, move) == Some(t) && Exec(results, from + [move]) == Some(t)
    ensures s.next <= |s.results| && t.next <= |t.results| && Work(t) < Work(s)
    ensures InOrReturned(s.client, t.client)
  {
    ReachableInv(results, from);
    move := Runnable(s);
    MovesWork(s, move);
    StaysInCall(s, move);
    Extend(results, from, s, move);
    t := Step(s, move).value;
  }

  /** `more` are at most `n` moves of the threads that continue `from` and leave the owner at `c`. */
  ghost predicate LeadsTo<M>(results: seq<Option<M>>, from: seq<Move>, more: seq<Move>, c: Client, n: nat) {
    && AllInternal(more)
    && |more| <= n
    && Exec(results, from + more).Some?
    && Exec(results, from + more).value.client == c
  }

  lemma OneMoveLeadsTo<M>(results: seq<Option<M>>, from: seq<Move>, move: Move, c: Client, n: nat)
    requires Internal(move) && n > 0
    requires Exec(results, from + [move]).Some? && Exec(results, from + [move]).value.client == c
    ensures LeadsTo(results, from, [move], c, n)
  {
  }

  lemma OneMoreLeadsTo<M>(results: seq<Option<M>>, from: seq<Move>, move: Move, rest: seq<Move>, c: Client, n: nat)
    requires Internal(move) && LeadsTo(results, from + [move], rest, c, n)
    ensures LeadsTo(results, from, [move] + rest, c, n + 1)
  {
    assert from + [move] + rest == from + ([move] + rest);
  }

  /** Inside a call the threads can always go on to its return, in as many moves as there is work. */
  lemma {:induction false} CallReturns<M>(results: seq<Option<M>>, from: seq<Move>, s: State<M>, work: nat)
    returns (more: seq<Move>)
    requires Exec(results, from) == Some(s) && Inside(s.client)
    requires s.next <= |s.results| && Work(s) <= work
    ensures LeadsTo(results, from, more, Returned(s.client), work)
    decreases work
  {
    var move, t := CallGoesOn(results, from, s);
    if Inside(t.client) {
      var rest := CallReturns(results, from + [move], t, work - 1);
      OneMoreLeadsTo(results, from, move, rest, Returned(s.client), work - 1);
      more := [move] + rest;
    } else {
      OneMoveLeadsTo(results, from, move, Returned(s.client), work);
      more := [move];
    }
  }

  /** No thread can move. */
  predicate Stuck<M>(s: State<M>) {
    Step(s, IngestMove).None? && Step(s, EgressMove).None? && Step(s, ClientMove).None?
  }

  lemma StaysInOrReturned<M>(call: Client, s: State<M>, move: Move)
    requires Internal(move) && Step(s, move).Some?
    requires Inside(call) && InOrReturned(call, s.client)
    ensures InOrReturned(call, Step(s, move).value.client)
  {
    if Inside(s.client) {
      StaysInCall(s, move);
    }
  }

  /** After `k` moves from inside a call that had at most `n` units of work. */
  predicate UnderWay<M>(call: Client, n: nat, k: nat, t: State<M>)
    requires Inside(call)
  {
    t.next <= |t.results| && k + Work(t) <= n && InOrReturned(call, t.client)
  }

  lemma UnderWayKept<M>(call: Client, n: nat, k: nat, t: State<M>, move: Move)
    requires Inside(call) && UnderWay(call, n, k, t) && Internal(move) && Step(t, move).Some?
    ensures UnderWay(call, n, k + 1, Step(t, move).value)
  {
    MovesWork(t, move);
    StaysInOrReturned(call, t, move);
  }

  lemma ExecFront<M>(results: seq<Option<M>>, moves: seq<Move>, move: Move)
    requires Exec(results, moves + [move]).Some?
    ensures Exec(results, moves).Some? && Exec(results, moves + [move]) == Step(Exec(results, moves).value, move)
  {
    assert (moves + [move])[..|moves|] == moves;
  }

  lemma ExecLast<M>(results: seq<Option<M>>, from: seq<Move>, more: seq<Move>)
    requires more != [] && Exec(results, from + more).Some?
    ensures var front := from + more[..|more| - 1];
            Exec(results, front).Some? && Exec(results, from + more) == Step(Exec(results, front).value, more[|more| - 1])
  {
    var front, last := more[..|more| - 1], more[|more| - 1];
    assert from + more == from + front + [last] by { assert more == front + [last]; }
    ExecFront(results, from + front, last);
  }

  lemma {:induction false} InternalMoves<M>(
    results: seq<Option<M>>, from: seq<Move>, call: Client, n: nat, more: seq<Move>)
    requires Exec(results, from).Some? && Inside(call) && UnderWay(call, n, 0, Exec(results, from).value)
    requires AllInternal(more) && Exec(results, from + more).Some?
    ensures UnderWay(call, n, |more|, Exec(results, from + more).value)
    decreases |more|
  {
    if more == [] {
      assert from + more == from;
    } else {
      var k := |more| - 1;
      ExecLast(results, from, more);
      InternalMoves(results, from, call, n, more[..k]);
      UnderWayKept(call, n, k, Exec(results, from + more[..k]).value, more[k]);
    }
  }

  /** However the threads are scheduled from inside a call, they make no more moves than there is
      work, and when none of them can move any more the call has returned. */
  lemma EveryScheduleReturns<M>(results: seq<Option<M>>, from: seq<Move>, s: State<M>, more: seq<Move>)
    requires Exec(results, from) == Some(s) && Inside(s.client)
    requires AllInternal(more) && Exec(results, from + more).Some?
    ensures s.next <= |s.results| && |more| <= Work(s)
    ensures Stuck(Exec(results, from + more).value) ==> Exec(results, from + more).value.client == Returned(s.client)
  {
    var t := Exec(results, from + more).value;
    ReachableInv(results, from);
    InternalMoves(results, from, s.client, Work(s), more);
    if Inside(t.client) {
      var move, next := CallGoesOn(results, from + more, t);
    }
  }

  /** `Join` returns with everything delivered, within the work there is when it is called. */
  lemma JoinReturns<M>(results: seq<Option<M>>, from: seq<Move>, s: State<M>) returns (more: seq<Move>, t: State<M>)
    requires Exec(results, from) == Some(s) && InJoin(s.client)
    ensures s.next <= |s.results| && AllInternal(more) && |more| <= Work(s)
    ensures Exec(results, from + more) == Some(t) && t.client == Idle(true) && t.delivered == Emitted(results)
  {
    ReachableInv(results, from);
    more := CallReturns(results, from, s, Work(s));
    t := Exec(results, from + more).value;
    JoinDeliversAll(results, from + more);
  }
}
