/** The manager's queue of heavy operations, as a state machine over every
    interleaving of callers, canceller threads and the one worker. */
module Operations {
  import opened Options

  /** One accepted request; an empty key means it is not deduplicated. */
  datatype Op = Op(key: string, background: bool, kind: string, cancellable: bool)

  /** Where the caller of Run is: about to signal, in its select, on its way to
      removing itself, waiting for the result only, or gone. */
  datatype Caller = Signalling | Waiting | Leaving | Awaiting | Returned

  /** Where the worker is: about to look at the queue, blocked on the wake channel,
      holding a dequeued operation, running it, about to send its result, or about
      to signal. */
  datatype Worker = Looking | Asleep | Taken(op: nat) | Running(op: nat) | Reporting(op: nat) | Ending

  /** Operations are numbered in the order they were accepted. "sends", "removals"
      and "starts" count, for each, results sent, self-removals and body starts;
      "owed" are operations a canceller has dequeued but not answered yet. */
  datatype State = State(
    ops: seq<Op>,
    ctxDone: seq<bool>,
    callers: seq<Caller>,
    sends: seq<nat>,
    removals: seq<nat>,
    starts: seq<nat>,
    queue: seq<nat>,
    dedupe: set<string>,
    active: Option<nat>,
    worker: Worker,
    token: bool,
    owed: set<nat>,
    cancelSignals: nat)

  const Init := State([], [], [], [], [], [], [], {}, None, Looking, false, {}, 0)

  datatype Event =
    | Enqueue(op: Op)
    | CtxDone(i: nat)
    | CancelQueued(i: nat)
    | CallerSignal(i: nat)
    | CallerReceive(i: nat)
    | CallerLeave(i: nat)
    | CallerRemove(i: nat)
    | OwedSend(i: nat)
    | CancelSignal
    | WorkerNext
    | WorkerWake
    | WorkerStart
    | WorkerFinish
    | WorkerReport
    | WorkerSignal

  /** Events from outside; all others are steps the program itself takes. */
  predicate External(e: Event) {
    e.Enqueue? || e.CtxDone? || e.CancelQueued?
  }

  // ----- the queue -----

  predicate InRange(queue: seq<nat>, n: nat) {
    forall j :: 0 <= j < |queue| ==> queue[j] < n
  }

  /** Position of the first user operation, or of the first one at all. */
  function Pick(ops: seq<Op>, queue: seq<nat>): (k: nat)
    requires queue != [] && InRange(queue, |ops|)
    ensures k < |queue|
    ensures !ops[queue[k]].background ==> forall j :: 0 <= j < k ==> ops[queue[j]].background
    ensures ops[queue[k]].background ==> k == 0 && forall j :: 0 <= j < |queue| ==> ops[queue[j]].background
  {
    var k := FirstUser(ops, queue, 0);
    if k < |queue| then k else 0
  }

  function FirstUser(ops: seq<Op>, queue: seq<nat>, from: nat): (k: nat)
    requires from <= |queue| && InRange(queue, |ops|)
    ensures from <= k <= |queue| && (k < |queue| ==> !ops[queue[k]].background)
    ensures forall j :: from <= j < k ==> ops[queue[j]].background
    decreases |queue| - from
  {
    if from == |queue| || !ops[queue[from]].background then from else FirstUser(ops, queue, from + 1)
  }

  function RemoveAt(queue: seq<nat>, k: nat): seq<nat>
    requires k < |queue|
  {
    queue[..k] + queue[k + 1..]
  }

  function IndexOf(queue: seq<nat>, i: nat): (k: nat)
    requires i in queue
    ensures k < |queue| && queue[k] == i
  {
    if queue[0] == i then 0 else 1 + IndexOf(queue[1..], i)
  }

  function Remove(queue: seq<nat>, i: nat): seq<nat>
    requires i in queue
  {
    RemoveAt(queue, IndexOf(queue, i))
  }

  ghost predicate Increasing(queue: seq<nat>) {
    forall a, b :: 0 <= a < b < |queue| ==> queue[a] < queue[b]
  }

  lemma RemoveFacts(queue: seq<nat>, i: nat)
    requires Increasing(queue) && i in queue
    ensures Increasing(Remove(queue, i)) && |Remove(queue, i)| == |queue| - 1
    ensures forall x :: x in Remove(queue, i) <==> x in queue && x != i
    ensures forall n :: InRange(queue, n) ==> InRange(Remove(queue, i), n)
  {
    var k := IndexOf(queue, i);
    var r := Remove(queue, i);
    forall x | x in queue && x != i
      ensures x in r
    {
      var j :| 0 <= j < |queue| && queue[j] == x;
      if j < k {
        assert r[j] == x;
      } else {
        assert r[j - 1] == x;
      }
    }
  }

  // ----- steps -----

  /** finishQueuedLocked. */
  function Forget(dedupe: set<string>, op: Op): set<string> {
    if op.key != "" then dedupe - {op.key} else dedupe
  }

  predicate Sized(s: State) {
    |s.ctxDone| == |s.ops| && |s.callers| == |s.ops| && |s.sends| == |s.ops| && |s.removals| == |s.ops| && |s.starts| == |s.ops|
  }

  predicate Rejected(s: State, op: Op) {
    op.key != "" && op.key in s.dedupe
  }

  predicate Enabled(s: State, e: Event)
    requires Sized(s)
  {
    match e
    case Enqueue(_) => true
    case CtxDone(i) => i < |s.ops|
    case CancelQueued(i) => i in s.queue && i < |s.ops| && s.ops[i].cancellable
    case CallerSignal(i) => i < |s.ops| && s.callers[i] == Signalling
    case CallerReceive(i) => i < |s.ops| && (s.callers[i] == Waiting || s.callers[i] == Awaiting) && s.sends[i] > 0
    case CallerLeave(i) => i < |s.ops| && s.callers[i] == Waiting && s.ctxDone[i]
    case CallerRemove(i) => i < |s.ops| && s.callers[i] == Leaving
    case OwedSend(i) => i in s.owed && i < |s.ops|
    case CancelSignal => s.cancelSignals > 0
    case WorkerNext => s.worker == Looking && InRange(s.queue, |s.ops|)
    case WorkerWake => s.worker == Asleep && s.token
    case WorkerStart => s.worker.Taken? && s.worker.op < |s.ops|
    case WorkerFinish => s.worker.Running? && s.worker.op < |s.ops|
    case WorkerReport => s.worker.Reporting? && s.worker.op < |s.ops|
    case WorkerSignal => s.worker == Ending
  }

  function DoEnqueue(s: State, op: Op): State {
    if Rejected(s, op) then s
    else s.(
        ops := s.ops + [op], ctxDone := s.ctxDone + [false], callers := s.callers + [Signalling],
        sends := s.sends + [0], removals := s.removals + [0], starts := s.starts + [0],
        queue := s.queue + [|s.ops|], dedupe := if op.key != "" then s.dedupe + {op.key} else s.dedupe)
  }

  /** One iteration of next. */
  function DoNext(s: State): State
    requires Sized(s) && InRange(s.queue, |s.ops|)
  {
    if s.queue == [] then s.(worker := Asleep)
    else
      var i := s.queue[Pick(s.ops, s.queue)];
      var t := s.(queue := Remove(s.queue, i));
      if s.ctxDone[i] then t.(dedupe := Forget(s.dedupe, s.ops[i]), sends := s.sends[i := s.sends[i] + 1])
      else t.(worker := Taken(i))
  }

  function DoCancelQueued(s: State, i: nat): State
    requires Sized(s) && i in s.queue && i < |s.ops|
  {
    s.(queue := Remove(s.queue, i), dedupe := Forget(s.dedupe, s.ops[i]), owed := s.owed + {i})
  }

  function DoCallerRemove(s: State, i: nat): State
    requires Sized(s) && i < |s.ops|
  {
    if i in s.queue then
      s.(queue := Remove(s.queue, i), dedupe := Forget(s.dedupe, s.ops[i]),
         removals := s.removals[i := s.removals[i] + 1], callers := s.callers[i := Returned])
    else s.(callers := s.callers[i := Awaiting])
  }

  function Step(s: State, e: Event): State
    requires Sized(s) && Enabled(s, e)
  {
    match e
    case Enqueue(op) => DoEnqueue(s, op)
    case CtxDone(i) => s.(ctxDone := s.ctxDone[i := true])
    case CancelQueued(i) => DoCancelQueued(s, i)
    case CallerSignal(i) => s.(callers := s.callers[i := Waiting], token := true)
    case CallerReceive(i) => s.(callers := s.callers[i := Returned])
    case CallerLeave(i) => s.(callers := s.callers[i := Leaving])
    case CallerRemove(i) => DoCallerRemove(s, i)
    case OwedSend(i) => s.(owed := s.owed - {i}, sends := s.sends[i := s.sends[i] + 1], cancelSignals := s.cancelSignals + 1)
    case CancelSignal => s.(cancelSignals := s.cancelSignals - 1, token := true)
    case WorkerNext => DoNext(s)
    case WorkerWake => s.(worker := Looking, token := false)
    case WorkerStart =>
      s.(worker := Running(s.worker.op), active := Some(s.worker.op), starts := s.starts[s.worker.op := s.starts[s.worker.op] + 1])
    case WorkerFinish => s.(worker := Reporting(s.worker.op), active := None, dedupe := Forget(s.dedupe, s.ops[s.worker.op]))
    case WorkerReport => s.(worker := Ending, sends := s.sends[s.worker.op := s.sends[s.worker.op] + 1])
    case WorkerSignal => s.(worker := Looking, token := true)
  }

  // ----- what every step keeps -----

  predicate Held(s: State, i: nat) {
    (s.worker.Taken? || s.worker.Running? || s.worker.Reporting?) && s.worker.op == i
  }

  /** Accepted and not completed yet. */
  predicate Pending(s: State, i: nat) {
    i in s.queue || i in s.owed || Held(s, i)
  }

  /** Holding its dedupe key. */
  predicate Live(s: State, i: nat) {
    i in s.queue || (Held(s, i) && !s.worker.Reporting?)
  }

  ghost predicate Shape(s: State) {
    && Sized(s) && Increasing(s.queue)
    && InRange(s.queue, |s.ops|) && (forall q :: q in s.queue ==> q !in s.owed && !Held(s, q))
    && (forall q :: q in s.owed ==> q < |s.ops| && !Held(s, q))
    && (s.worker.Taken? || s.worker.Running? || s.worker.Reporting? ==> s.worker.op < |s.ops|)
    && s.active == if s.worker.Running? then Some(s.worker.op) else None
  }

  /** Every accepted operation is completed exactly once: one result or one
      self-removal, and that once it is no longer pending. */
  ghost predicate Completed(s: State)
    requires Sized(s)
  {
    forall i: nat :: i < |s.ops| ==> CompletedAt(s, i)
  }

  predicate CompletedAt(s: State, i: nat)
    requires Sized(s) && i < |s.ops|
  {
    && s.sends[i] + s.removals[i] == (if Pending(s, i) then 0 else 1)
    && (s.callers[i] == Returned ==> !Pending(s, i))
    && (s.removals[i] > 0 ==> s.callers[i] == Returned)
  }

  /** A body starts at most once, and never after its operation was removed or
      cancelled in the queue. */
  ghost predicate Started(s: State)
    requires Sized(s)
  {
    forall i: nat :: i < |s.ops| ==> StartedAt(s, i)
  }

  predicate StartedAt(s: State, i: nat)
    requires Sized(s) && i < |s.ops|
  {
    && s.starts[i] <= 1
    && (s.starts[i] == 1 ==> i !in s.queue && i !in s.owed && s.removals[i] == 0 && s.worker != Taken(i))
    && (s.worker == Running(i) || s.worker == Reporting(i) ==> s.starts[i] == 1)
  }

  /** The dedupe keys are exactly those of live operations, each held by one. */
  ghost predicate Keys(s: State) {
    && "" !in s.dedupe
    && (forall k :: k in s.dedupe ==> exists i: nat :: i < |s.ops| && Live(s, i) && s.ops[i].key == k)
    && (forall i: nat :: i < |s.ops| && Live(s, i) && s.ops[i].key != "" ==> s.ops[i].key in s.dedupe)
    && (forall i: nat, j: nat :: i < |s.ops| && j < |s.ops| && Live(s, i) && Live(s, j) && s.ops[i].key == s.ops[j].key && s.ops[i].key != "" ==> i == j)
  }

  predicate SignalDue(s: State) {
    s.cancelSignals > 0 || exists i :: 0 <= i < |s.callers| && s.callers[i] == Signalling
  }

  /** No lost wake-up. */
  predicate Awake(s: State) {
    s.worker == Asleep && s.queue != [] ==> s.token || SignalDue(s)
  }

  ghost predicate Inv(s: State) {
    Shape(s) && Completed(s) && Started(s) && Keys(s) && Awake(s)
  }

  /** The operation an event takes out of the queue, if it does. */
  function Leaver(s: State, e: Event): Option<nat>
    requires Sized(s) && Enabled(s, e)
  {
    match e
    case CancelQueued(i) => Some(i)
    case CallerRemove(i) => if i in s.queue then Some(i) else None
    case WorkerNext => if s.queue == [] then None else Some(s.queue[Pick(s.ops, s.queue)])
    case _ => None
  }

  lemma PushFacts(queue: seq<nat>, n: nat)
    requires Increasing(queue) && InRange(queue, n)
    ensures Increasing(queue + [n]) && InRange(queue + [n], n + 1)
    ensures forall x :: x in queue + [n] <==> x in queue || x == n
    ensures n !in queue
  {
  }

  /** What happens to the queue, whatever the event. */
  lemma QueueAfter(s: State, e: Event)
    requires Shape(s) && Enabled(s, e)
    ensures var t := Step(s, e);
      && Increasing(t.queue) && InRange(t.queue, |t.ops|)
      && (Leaver(s, e).Some? ==>
            && Leaver(s, e).value in s.queue && |t.queue| == |s.queue| - 1
            && (forall x :: x in t.queue <==> x in s.queue && x != Leaver(s, e).value))
      && (Leaver(s, e).None? && !(e.Enqueue? && !Rejected(s, e.op)) ==> t.queue == s.queue)
      && (e.Enqueue? && !Rejected(s, e.op) ==>
            t.queue == s.queue + [|s.ops|] && |s.ops| !in s.queue && forall x :: x in t.queue <==> x in s.queue || x == |s.ops|)
  {
    hide Remove, Held, Increasing;
    if Leaver(s, e).Some? {
      RemoveFacts(s.queue, Leaver(s, e).value);
    } else if e.Enqueue? {
      PushFacts(s.queue, |s.ops|);
    }
  }

  lemma ShapeKept(s: State, e: Event)
    requires Shape(s) && Enabled(s, e)
    ensures Shape(Step(s, e))
  {
    hide Step, Enabled, Leaver, Increasing, Completed;
    if Leaver(s, e).Some? {
      ShapeLeave(s, e);
    } else {
      ShapeStay(s, e);
    }
  }

  lemma ShapeLeave(s: State, e: Event)
    requires Shape(s) && Enabled(s, e) && Leaver(s, e).Some?
    ensures Shape(Step(s, e))
  {
    hide Remove, Pick, Increasing;
    QueueAfter(s, e);
  }

  lemma ShapeStay(s: State, e: Event)
    requires Shape(s) && Enabled(s, e) && Leaver(s, e).None?
    ensures Shape(Step(s, e))
  {
    hide Remove, Pick, Increasing;
    QueueAfter(s, e);
  }

  lemma CompletedKept(s: State, e: Event)
    requires Shape(s) && Completed(s) && Enabled(s, e)
    ensures Sized(Step(s, e)) && Completed(Step(s, e))
  {
    hide Step, Enabled, Leaver, Increasing, Completed;
    if Leaver(s, e).Some? {
      CompletedLeave(s, e);
    } else {
      CompletedStay(s, e);
    }
  }

  lemma CompletedLeave(s: State, e: Event)
    requires Shape(s) && Completed(s) && Enabled(s, e) && Leaver(s, e).Some?
    ensures Sized(Step(s, e)) && Completed(Step(s, e))
  {
    hide Remove, Pick, Increasing;
    QueueAfter(s, e);
    var t := Step(s, e);
    forall i: nat | i < |t.ops|
      ensures CompletedAt(t, i)
    {
      assert CompletedAt(s, i);
    }
  }

  lemma CompletedStay(s: State, e: Event)
    requires Shape(s) && Completed(s) && Enabled(s, e) && Leaver(s, e).None?
    ensures Sized(Step(s, e)) && Completed(Step(s, e))
  {
    hide Remove, Pick, Increasing;
    QueueAfter(s, e);
    var t := Step(s, e);
    forall i: nat | i < |t.ops|
      ensures CompletedAt(t, i)
    {
      assert i < |s.ops| ==> CompletedAt(s, i);
    }
  }

  lemma StartedKept(s: State, e: Event)
    requires Shape(s) && Completed(s) && Started(s) && Enabled(s, e)
    ensures Sized(Step(s, e)) && Started(Step(s, e))
  {
    hide Remove, Pick, Increasing;
    QueueAfter(s, e);
    var t := Step(s, e);
    forall i: nat | i < |t.ops|
      ensures StartedAt(t, i)
    {
      assert i < |s.ops| ==> StartedAt(s, i) && CompletedAt(s, i);
    }
  }

  lemma AwakeKept(s: State, e: Event)
    requires Shape(s) && Awake(s) && Enabled(s, e)
    ensures Awake(Step(s, e))
  {
    hide Remove, Pick, Increasing, InRange;
    QueueAfter(s, e);
    var t := Step(s, e);
    if e.Enqueue? && !Rejected(s, e.op) {
      assert t.callers[|s.ops|] == Signalling;
    } else if i :| 0 <= i < |s.callers| && s.callers[i] == Signalling && !e.CallerSignal? {
      assert t.callers[i] == Signalling;
    }
  }

  /** The operation whose key an event frees, if it does. */
  function Freed(s: State, e: Event): Option<nat>
    requires Sized(s) && Enabled(s, e)
  {
    if e.WorkerFinish? then Some(s.worker.op)
    else if e.WorkerNext? && s.queue != [] && !s.ctxDone[s.queue[Pick(s.ops, s.queue)]] then None
    else Leaver(s, e)
  }

  predicate Accepts(s: State, e: Event) {
    e.Enqueue? && !Rejected(s, e.op)
  }

  lemma LiveAfter(s: State, e: Event, i: nat)
    requires Shape(s) && Enabled(s, e)
    ensures Live(Step(s, e), i) <==> (Live(s, i) && Freed(s, e) != Some(i)) || (Accepts(s, e) && i == |s.ops|)
    ensures Freed(s, e) == Some(i) ==> Live(s, i)
  {
    hide Remove, Pick, Increasing;
    QueueAfter(s, e);
  }

  lemma FreesKey(s: State, e: Event)
    requires Shape(s) && Enabled(s, e)
    ensures var t := Step(s, e);
      && (Accepts(s, e) ==> t.ops == s.ops + [e.op] && t.dedupe == if e.op.key != "" then s.dedupe + {e.op.key} else s.dedupe)
      && (!Accepts(s, e) ==> t.ops == s.ops)
      && (Freed(s, e).Some? ==> Freed(s, e).value < |s.ops| && t.dedupe == Forget(s.dedupe, s.ops[Freed(s, e).value]))
      && (Freed(s, e).None? && !Accepts(s, e) ==> t.dedupe == s.dedupe)
  {
    hide Remove, Pick, Increasing, Forget;
  }

  lemma KeysForgotten(s: State, t: State, i: nat)
    requires Keys(s) && t.ops == s.ops && i < |s.ops| && Live(s, i) && t.dedupe == Forget(s.dedupe, s.ops[i])
    requires forall x: nat :: Live(t, x) <==> Live(s, x) && x != i
    ensures Keys(t)
  {
    hide Live;
    forall k | k in t.dedupe
      ensures exists j: nat :: j < |t.ops| && Live(t, j) && t.ops[j].key == k
    {
      var j: nat :| j < |s.ops| && Live(s, j) && s.ops[j].key == k;
      assert Live(t, j);
    }
  }

  lemma KeysAdded(s: State, t: State, op: Op)
    requires Keys(s) && t.ops == s.ops + [op] && !Rejected(s, op)
    requires t.dedupe == if op.key != "" then s.dedupe + {op.key} else s.dedupe
    requires forall x: nat :: Live(t, x) <==> Live(s, x) || x == |s.ops|
    ensures Keys(t)
  {
    hide Live;
    forall k | k in t.dedupe
      ensures exists j: nat :: j < |t.ops| && Live(t, j) && t.ops[j].key == k
    {
      if k in s.dedupe {
        var j: nat :| j < |s.ops| && Live(s, j) && s.ops[j].key == k;
        assert Live(t, j) && t.ops[j].key == k;
      } else {
        assert Live(t, |s.ops|) && t.ops[|s.ops|] == op;
      }
    }
    assert forall i: nat :: i < |s.ops| ==> t.ops[i] == s.ops[i];
  }

  lemma KeysSame(s: State, t: State)
    requires Keys(s) && t.ops == s.ops && t.dedupe == s.dedupe && forall x: nat :: Live(t, x) <==> Live(s, x)
    ensures Keys(t)
  {
    hide Live;
    forall k | k in t.dedupe
      ensures exists j: nat :: j < |t.ops| && Live(t, j) && t.ops[j].key == k
    {
      var j: nat :| j < |s.ops| && Live(s, j) && s.ops[j].key == k;
      assert Live(t, j);
    }
  }

  lemma KeysKept(s: State, e: Event)
    requires Shape(s) && Keys(s) && Enabled(s, e)
    ensures Keys(Step(s, e))
  {
    hide Keys, Live, Step, Enabled, Freed, Forget, Rejected;
    var t := Step(s, e);
    FreesKey(s, e);
    forall x: nat
      ensures Live(t, x) <==> (Live(s, x) && Freed(s, e) != Some(x)) || (Accepts(s, e) && x == |s.ops|)
      ensures Freed(s, e) == Some(x) ==> Live(s, x)
    {
      LiveAfter(s, e, x);
    }
    if Accepts(s, e) {
      NothingFreed(s, e);
      KeysAdded(s, t, e.op);
    } else if Freed(s, e).Some? {
      KeysForgotten(s, t, Freed(s, e).value);
    } else {
      KeysSame(s, t);
    }
  }

  lemma NothingFreed(s: State, e: Event)
    requires Shape(s) && Enabled(s, e) && Accepts(s, e)
    ensures Freed(s, e) == None
  {
  }

  lemma InvKept(s: State, e: Event)
    requires Inv(s) && Enabled(s, e)
    ensures Inv(Step(s, e))
  {
    hide Shape, Completed, Started, Keys, Awake, Step, Enabled;
    ShapeKept(s, e);
    CompletedKept(s, e);
    StartedKept(s, e);
    KeysKept(s, e);
    AwakeKept(s, e);
  }

  // ----- every run -----

  ghost predicate Runs(es: seq<Event>, ss: seq<State>) {
    && |ss| == |es| + 1 && ss[0] == Init
    && forall i :: 0 <= i < |es| ==> Sized(ss[i]) && Enabled(ss[i], es[i]) && ss[i + 1] == Step(ss[i], es[i])
  }

  /** In every state of every run the invariant holds. */
  lemma {:induction false} RunInv(es: seq<Event>, ss: seq<State>, i: nat)
    requires Runs(es, ss) && i <= |es|
    ensures Inv(ss[i])
  {
    hide Inv, Step, Enabled;
    if i == 0 {
      InitInv();
    } else {
      RunInv(es, ss, i - 1);
      InvKept(ss[i - 1], es[i - 1]);
    }
  }

  lemma InitInv()
    ensures Inv(Init)
  {
  }

  // ----- every accepted operation is completed -----

  function Rank(c: Caller): nat {
    match c
    case Signalling => 6
    case Waiting => 3
    case Leaving => 2
    case Awaiting => 1
    case Returned => 0
  }

  function WorkerRank(w: Worker): nat {
    match w
    case Taken(_) => 7
    case Running(_) => 6
    case Reporting(_) => 5
    case Ending => 4
    case Looking => 1
    case Asleep => 0
  }

  function CallerSum(cs: seq<Caller>): nat {
    if cs == [] then 0 else Rank(cs[0]) + CallerSum(cs[1..])
  }

  /** How much work is left if nothing more comes from outside. */
  function Measure(s: State): nat {
    7 * |s.queue| + 4 * |s.owed| + 3 * s.cancelSignals + (if s.token then 2 else 0) + WorkerRank(s.worker) + CallerSum(s.callers)
  }

  lemma {:induction false} CallerMoves(cs: seq<Caller>, i: nat, c: Caller)
    requires i < |cs|
    ensures CallerSum(cs[i := c]) == CallerSum(cs) - Rank(cs[i]) + Rank(c)
    decreases |cs|
  {
    hide Rank;
    var ds := cs[i := c];
    if i == 0 {
      assert ds[1..] == cs[1..];
    } else {
      assert ds[1..] == cs[1..][i - 1 := c];
      CallerMoves(cs[1..], i - 1, c);
    }
  }

  /** Every step of the program itself leaves less work. */
  lemma StepDecreases(s: State, e: Event)
    requires Shape(s) && Enabled(s, e) && !External(e)
    ensures Measure(Step(s, e)) < Measure(s)
  {
    hide Shape, Enabled, Step, Measure;
    if e.CallerSignal? || e.CallerReceive? || e.CallerLeave? || e.CallerRemove? {
      CallerStepDecreases(s, e);
    } else {
      OtherStepDecreases(s, e);
    }
  }

  lemma OtherStepDecreases(s: State, e: Event)
    requires Shape(s) && Enabled(s, e) && !External(e) && !(e.CallerSignal? || e.CallerReceive? || e.CallerLeave? || e.CallerRemove?)
    ensures Measure(Step(s, e)) < Measure(s)
  {
    hide Remove, Pick, Increasing, InRange, CallerSum, Forget, Held;
    QueueSize(s, e);
  }

  lemma QueueSize(s: State, e: Event)
    requires Shape(s) && Enabled(s, e) && !External(e)
    ensures |Step(s, e).queue| == if Leaver(s, e).Some? then |s.queue| - 1 else |s.queue|
  {
    hide Remove, Pick, Increasing, InRange, Held;
    QueueAfter(s, e);
  }

  lemma CallerStepDecreases(s: State, e: Event)
    requires Shape(s) && Enabled(s, e) && (e.CallerSignal? || e.CallerReceive? || e.CallerLeave? || e.CallerRemove?)
    ensures Measure(Step(s, e)) < Measure(s)
  {
    hide Remove, Pick, Increasing, InRange, CallerSum, Forget;
    QueueAfter(s, e);
    CallerMoves(s.callers, e.i, Step(s, e).callers[e.i]);
  }

  /** While a caller has not returned, the program itself can take a step. */
  lemma CanStep(s: State, i: nat) returns (e: Event)
    requires Inv(s) && i < |s.ops| && s.callers[i] != Returned
    ensures !External(e) && Enabled(s, e)
  {
    assert CompletedAt(s, i);
    if s.callers[i] == Signalling {
      return CallerSignal(i);
    } else if s.callers[i] == Leaving {
      return CallerRemove(i);
    } else if s.sends[i] > 0 {
      return CallerReceive(i);
    } else if i in s.owed {
      return OwedSend(i);
    }
    match s.worker
    case Looking => return WorkerNext;
    case Taken(_) => return WorkerStart;
    case Running(_) => return WorkerFinish;
    case Reporting(_) => return WorkerReport;
    case Ending => return WorkerSignal;
    case Asleep =>
      assert i in s.queue;
      if s.token {
        return WorkerWake;
      } else if s.cancelSignals > 0 {
        return CancelSignal;
      }
      var j :| 0 <= j < |s.callers| && s.callers[j] == Signalling;
      return CallerSignal(j);
  }

  /** A run of the program alone, from a state some run has reached. */
  ghost predicate Settles(es: seq<Event>, ss: seq<State>) {
    && |ss| == |es| + 1 && Inv(ss[0])
    && forall i :: 0 <= i < |es| ==> Sized(ss[i]) && !External(es[i]) && Enabled(ss[i], es[i]) && ss[i + 1] == Step(ss[i], es[i])
  }

  lemma {:induction false} SettlesInv(es: seq<Event>, ss: seq<State>, i: nat)
    requires Settles(es, ss) && i <= |es|
    ensures Inv(ss[i]) && Measure(ss[i]) + i <= Measure(ss[0])
  {
    hide Step, Enabled, Measure, Completed, Started, Keys, Awake, Shape;
    if i > 0 {
      SettlesInv(es, ss, i - 1);
      InvKept(ss[i - 1], es[i - 1]);
      StepDecreases(ss[i - 1], es[i - 1]);
    }
  }

  /** Left alone, the program comes to rest after a bounded number of steps, and
      when it rests every caller has returned and every accepted operation has
      been completed exactly once. */
  lemma EveryOperationCompletes(es: seq<Event>, ss: seq<State>)
    requires Settles(es, ss)
    ensures |es| <= Measure(ss[0])
    ensures var t := ss[|es|];
      Inv(t) && ((forall e :: Enabled(t, e) ==> External(e)) ==>
        forall i :: 0 <= i < |t.ops| ==> t.callers[i] == Returned && t.sends[i] + t.removals[i] == 1)
  {
    hide Step, Enabled, Measure, Keys, Awake, Started;
    SettlesInv(es, ss, |es|);
    var t := ss[|es|];
    if forall e :: Enabled(t, e) ==> External(e) {
      forall i | 0 <= i < |t.ops|
        ensures t.callers[i] == Returned && t.sends[i] + t.removals[i] == 1
      {
        if t.callers[i] != Returned {
          var e := CanStep(t, i);
        } else {
          assert CompletedAt(t, i);
        }
      }
    }
  }

  // ----- the coordinator -----

  /** next as a whole: iterations until there is an operation or the queue is empty. */
  function NextAll(s: State): State
    requires Sized(s) && InRange(s.queue, |s.ops|) && Increasing(s.queue)
    decreases |s.queue|
  {
    if s.worker != Looking || s.queue == [] then (if s.worker == Looking then DoNext(s) else s)
    else
      RemoveFacts(s.queue, s.queue[Pick(s.ops, s.queue)]);
      NextAll(DoNext(s))
  }

  /** The parts of the invariant the loop itself relies on. */
  ghost predicate InvShape(s: State) {
    Sized(s) && InRange(s.queue, |s.ops|) && Increasing(s.queue)
  }

  /** Dequeued without being handed to the worker. */
  predicate Answered(s: State, t: State, q: nat) {
    q in s.queue && q !in t.queue && t.worker != Taken(q)
  }

  /** The choice: the oldest live user operation, or the oldest live one if there
      is no such; the worker goes to sleep only if every queued operation had
      ended. Only ended operations are dropped, and each gets exactly one result. */
  ghost predicate Chosen(s: State, t: State)
    requires InvShape(s)
  {
    && t.ops == s.ops && t.ctxDone == s.ctxDone && |t.sends| == |s.ops|
    && (t.worker.Taken? || (t.worker == Asleep && t.queue == []))
    && (forall i: nat :: t.worker == Taken(i) ==> i in s.queue && i < |s.ops| && First(s, i))
    && (forall q :: q in t.queue ==> q in s.queue && t.worker != Taken(q))
    && (forall q :: q in s.queue ==> q < |s.ops| && (Answered(s, t, q) ==> s.ctxDone[q]))
    && (forall q: nat :: q < |s.ops| ==> t.sends[q] == s.sends[q] + if Answered(s, t, q) then 1 else 0)
  }

  /** i is live, and no live operation goes before it. */
  ghost predicate First(s: State, i: nat)
    requires InvShape(s) && i < |s.ops|
  {
    && !s.ctxDone[i]
    && forall q: nat :: q < |s.ops| && q in s.queue && !s.ctxDone[q] ==>
         && (!s.ops[q].background ==> !s.ops[i].background && i <= q)
         && (s.ops[i].background ==> i <= q)
  }

  lemma PickIsFirst(s: State, i: nat)
    requires InvShape(s) && s.queue != [] && i == s.queue[Pick(s.ops, s.queue)] && !s.ctxDone[i]
    ensures First(s, i)
  {
    var k := Pick(s.ops, s.queue);
    hide Pick;
    forall q: nat | q < |s.ops| && q in s.queue && !s.ctxDone[q]
      ensures !s.ops[q].background ==> !s.ops[i].background && i <= q
      ensures s.ops[i].background ==> i <= q
    {
      var j :| 0 <= j < |s.queue| && s.queue[j] == q;
    }
  }

  /** What next as a whole does. */
  lemma {:induction false} NextAllChooses(s: State)
    requires InvShape(s) && s.worker == Looking
    ensures Chosen(s, NextAll(s))
    decreases |s.queue|
  {
    hide Pick, Remove, First, Forget, Increasing, NextAll;
    if s.queue == [] {
      NextAllEmpty(s);
    } else {
      var i := s.queue[Pick(s.ops, s.queue)];
      var t := DoNext(s);
      Picked(s, i);
      RemoveFacts(s.queue, i);
      if s.ctxDone[i] {
        NextAllChooses(t);
        StillFirst(s, t, i);
        SkipEnded(s, t, NextAll(t), i);
      } else {
        NextAllEmpty(t);
        PickIsFirst(s, i);
      }
    }
  }

  lemma NextAllEmpty(s: State)
    requires InvShape(s)
    ensures s.worker == Looking && s.queue == [] ==> NextAll(s) == s.(worker := Asleep)
    ensures s.worker != Looking ==> NextAll(s) == s
  {
  }

  /** An ended operation makes no difference to who is first. */
  lemma StillFirst(s: State, t: State, i: nat)
    requires InvShape(s) && InvShape(t) && t.ops == s.ops && t.ctxDone == s.ctxDone && i < |s.ops| && s.ctxDone[i]
    requires forall q :: q in t.queue <==> q in s.queue && q != i
    ensures forall j: nat :: j < |s.ops| && First(t, j) ==> First(s, j)
  {
  }

  lemma SkipEnded(s: State, t: State, u: State, i: nat)
    requires InvShape(s) && InvShape(t) && t.ops == s.ops && t.ctxDone == s.ctxDone && i in s.queue && i < |s.ops| && s.ctxDone[i]
    requires (forall q :: q in t.queue <==> q in s.queue && q != i) && t.sends == s.sends[i := s.sends[i] + 1]
    requires Chosen(t, u) && forall j: nat :: j < |s.ops| && First(t, j) ==> First(s, j)
    ensures Chosen(s, u)
  {
    hide First, Increasing;
    forall q: nat | q < |s.ops|
      ensures u.sends[q] == s.sends[q] + if Answered(s, u, q) then 1 else 0
    {
      assert Answered(t, u, q) ==> q != i;
    }
    forall q | q in s.queue
      ensures q < |s.ops| && (Answered(s, u, q) ==> s.ctxDone[q])
    {
      assert q != i ==> q in t.queue && (Answered(t, u, q) ==> t.ctxDone[q]);
    }
  }

  /** What the callers' channels and contexts hold, operation by operation. */
  datatype Log = Log(ctxDone: seq<bool>, callers: seq<Caller>, sends: seq<nat>, removals: seq<nat>, starts: seq<nat>)

  class Coordinator {
    var ops: seq<Op>
    var log: Log
    var queue: seq<nat>
    var dedupe: set<string>
    var active: Option<nat>
    var worker: Worker
    var wake: bool
    var owed: set<nat>
    var cancelSignals: nat

    constructor ()
      ensures Now() == Init && Inv(Now())
    {
      ops, log := [], Log([], [], [], [], []);
      queue, dedupe, active, worker, wake, owed, cancelSignals := [], {}, None, Looking, false, {}, 0;
      new;
      InitInv();
    }

    function Now(): State
      reads this
    {
      State(ops, log.ctxDone, log.callers, log.sends, log.removals, log.starts, queue, dedupe, active, worker, wake, owed, cancelSignals)
    }

    /** The locked part of Run: a request whose key is already held is dropped. */
    method Submit(op: Op) returns (accepted: bool)
      requires Inv(Now())
      modifies this
      ensures Now() == DoEnqueue(old(Now()), op) && Inv(Now())
      ensures accepted <==> op.key == "" || op.key !in old(dedupe)
      ensures accepted ==> queue == old(queue) + [|old(ops)|] && ops == old(ops) + [op] && log.callers == old(log.callers) + [Signalling]
      ensures !accepted ==> Now() == old(Now())
    {
      hide Inv;
      SubmitKeeps(Now(), op);
      if op.key != "" && op.key in dedupe {
        return false;
      }
      accepted := true;
      var keys := if op.key != "" then dedupe + {op.key} else dedupe;
      log := Log(log.ctxDone + [false], log.callers + [Signalling], log.sends + [0], log.removals + [0], log.starts + [0]);
      dedupe, queue, ops := keys, queue + [|ops|], ops + [op];
    }

    /** next: operations whose context has ended are answered and skipped. */
    method Next() returns (op: Option<nat>)
      requires Inv(Now()) && worker == Looking
      modifies this
      ensures Now() == NextAll(old(Now())) && Inv(Now())
      ensures InvShape(old(Now())) && Chosen(old(Now()), Now())
      ensures match op case Some(i) => worker == Taken(i) case None => worker == Asleep
    {
      hide Inv, NextAll, Pick, Increasing, Chosen;
      var s;
      s, op := PopLive(Now());
      queue, dedupe, worker := s.queue, s.dedupe, s.worker;
      log := log.(sends := s.sends);
    }

    /** removeQueued, called by a caller whose context has ended: it takes its own
        operation back, or learns that somebody else is going to answer it. */
    method RemoveQueued(i: nat) returns (removed: bool)
      requires Inv(Now()) && i < |ops| && |log.callers| == |ops| && log.callers[i] == Leaving
      modifies this
      ensures Sized(old(Now())) && Now() == DoCallerRemove(old(Now()), i) && Inv(Now())
      ensures removed == (i in old(queue))
    {
      hide Inv, Remove, Forget;
      CallerRemoveKeeps(Now(), i);
      var k := FindId(queue, i);
      removed := k < |queue|;
      if removed {
        Position(queue, k);
        queue, dedupe := queue[..k] + queue[k + 1..], Forget(dedupe, ops[i]);
        log := log.(removals := log.removals[i := log.removals[i] + 1], callers := log.callers[i := Returned]);
      } else {
        log := log.(callers := log.callers[i := Awaiting]);
      }
    }

    /** CancelKind: asks the active operation to stop if it is of this kind, and
        otherwise takes the first such operation out of the queue. */
    method CancelKind(kind: string) returns (found: bool, dequeued: Option<nat>)
      requires Inv(Now())
      modifies this
      ensures Inv(Now()) && Sized(old(Now())) && InRange(old(queue), |old(ops)|)
      ensures match dequeued
        case Some(i) =>
          && found && i in old(queue) && old(ops)[i].kind == kind && old(ops)[i].cancellable
          && Now() == DoCancelQueued(old(Now()), i)
          && forall j :: j in old(queue) && old(ops)[j].kind == kind && old(ops)[j].cancellable ==> i <= j
        case None =>
          && Now() == old(Now())
          && (found <==> active.Some? && active.value < |ops| && ops[active.value].kind == kind && ops[active.value].cancellable)
          && (!found ==> forall j :: j in queue ==> !(ops[j].kind == kind && ops[j].cancellable))
    {
      hide Inv, Remove, Forget;
      InvParts(Now());
      if active.Some? && ops[active.value].kind == kind && ops[active.value].cancellable {
        return true, None;
      }
      var k := FindKind(ops, queue, kind);
      if k == |queue| {
        return false, None;
      }
      var i := queue[k];
      CancelKeeps(Now(), i);
      Position(queue, k);
      queue, dedupe, owed := queue[..k] + queue[k + 1..], Forget(dedupe, ops[i]), owed + {i};
      return true, Some(i);
    }
  }

  /** The loop in next. */
  method PopLive(s0: State) returns (s: State, op: Option<nat>)
    requires Inv(s0) && s0.worker == Looking
    ensures InvShape(s0) && s == NextAll(s0) && Inv(s)
    ensures s == s0.(queue := s.queue, dedupe := s.dedupe, sends := s.sends, worker := s.worker)
    ensures Chosen(s0, s)
    ensures match op case Some(i) => s.worker == Taken(i) case None => s.worker == Asleep
  {
    hide Inv, Pick, Remove, NextAll, Increasing, Chosen;
    s, op := s0, None;
    NextStep(s);
    NextAllChooses(s0);
    while |s.queue| > 0
      invariant InvShape(s0) && InvShape(s) && Inv(s) && s.worker == Looking && NextAll(s0) == NextAll(s)
      invariant s == s0.(queue := s.queue, dedupe := s.dedupe, sends := s.sends)
      decreases |s.queue|
    {
      NextStep(s);
      var index := FindNext(s.ops, s.queue);
      var i := s.queue[index];
      Picked(s, i);
      ghost var next := DoNext(s);
      s := s.(queue := s.queue[..index] + s.queue[index + 1..]);
      if s.ctxDone[i] {
        s := s.(dedupe := Forget(s.dedupe, s.ops[i]), sends := s.sends[i := s.sends[i] + 1]);
        assert s == next;
      } else {
        s := s.(worker := Taken(i));
        assert s == next;
        NextStep(s);
        return s, Some(i);
      }
    }
    NextStep(s);
    s := s.(worker := Asleep);
  }

  /** The scan in next. */
  method FindNext(ops: seq<Op>, queue: seq<nat>) returns (index: nat)
    requires queue != [] && InRange(queue, |ops|)
    ensures index == Pick(ops, queue)
  {
    index := 0;
    while index < |queue| && ops[queue[index]].background
      invariant index <= |queue| && FirstUser(ops, queue, 0) == FirstUser(ops, queue, index)
    {
      index := index + 1;
    }
    if index == |queue| {
      index := 0;
    }
  }

  method FindId(queue: seq<nat>, i: nat) returns (k: nat)
    ensures k <= |queue| && (k < |queue| ==> queue[k] == i) && (k == |queue| ==> i !in queue)
  {
    k := 0;
    while k < |queue| && queue[k] != i
      invariant k <= |queue| && i !in queue[..k]
    {
      k := k + 1;
    }
  }

  method FindKind(ops: seq<Op>, queue: seq<nat>, kind: string) returns (k: nat)
    requires InRange(queue, |ops|)
    ensures k <= |queue| && (k < |queue| ==> ops[queue[k]].kind == kind && ops[queue[k]].cancellable)
    ensures forall j :: 0 <= j < k ==> !(ops[queue[j]].kind == kind && ops[queue[j]].cancellable)
  {
    k := 0;
    while k < |queue| && !(ops[queue[k]].kind == kind && ops[queue[k]].cancellable)
      invariant k <= |queue| && forall j :: 0 <= j < k ==> !(ops[queue[j]].kind == kind && ops[queue[j]].cancellable)
    {
      k := k + 1;
    }
  }

  lemma Position(queue: seq<nat>, k: nat)
    requires Increasing(queue) && k < |queue|
    ensures Remove(queue, queue[k]) == queue[..k] + queue[k + 1..]
  {
    assert IndexOf(queue, queue[k]) == k;
  }

  lemma InvParts(s: State)
    requires Inv(s)
    ensures InvShape(s) && s.active == if s.worker.Running? then Some(s.worker.op) else None
    ensures s.active.Some? ==> s.active.value < |s.ops|
  {
    hide Completed, Started, Keys, Awake;
  }

  lemma CallerRemoveKeeps(s: State, i: nat)
    requires Inv(s) && i < |s.ops| && |s.callers| == |s.ops| && s.callers[i] == Leaving
    ensures InvShape(s) && Inv(DoCallerRemove(s, i))
  {
    hide Completed, Started, Keys, Awake;
    InvKept(s, CallerRemove(i));
  }

  lemma CancelKeeps(s: State, i: nat)
    requires Inv(s) && i in s.queue && i < |s.ops| && s.ops[i].cancellable
    ensures InvShape(s) && Inv(DoCancelQueued(s, i))
  {
    hide Completed, Started, Keys, Awake;
    InvKept(s, CancelQueued(i));
  }

  lemma SubmitKeeps(s: State, op: Op)
    requires Inv(s)
    ensures Inv(DoEnqueue(s, op))
  {
    hide Completed, Started, Keys, Awake;
    InvKept(s, Enqueue(op));
  }

  /** What the loop in next needs to know about the state it is in. */
  lemma NextStep(s: State)
    requires Inv(s)
    ensures InvShape(s) && Sized(s) && InRange(s.queue, |s.ops|) && Increasing(s.queue)
    ensures s.worker == Looking ==> Inv(DoNext(s))
    ensures s.worker == Looking && s.queue == [] ==> NextAll(s) == DoNext(s)
    ensures s.worker != Looking ==> NextAll(s) == s
  {
    hide Completed, Started, Keys, Awake;
    if s.worker == Looking {
      InvKept(s, WorkerNext);
    }
  }

  lemma Picked(s: State, i: nat)
    requires InvShape(s) && s.worker == Looking && s.queue != [] && i == s.queue[Pick(s.ops, s.queue)]
    ensures Remove(s.queue, i) == RemoveAt(s.queue, Pick(s.ops, s.queue))
    ensures InvShape(DoNext(s)) && |DoNext(s).queue| == |s.queue| - 1 && NextAll(s) == NextAll(DoNext(s))
    ensures forall x :: x in DoNext(s).queue ==> x in s.queue
  {
    hide Pick;
    var k := Pick(s.ops, s.queue);
    assert IndexOf(s.queue, i) == k;
    RemoveFacts(s.queue, i);
  }
}
