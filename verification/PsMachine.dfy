/**
Records requests and worker runs of the process sensor in any interleaving. Each takes the sensor
lock (the worker by trying until it succeeds), then puts, reads and clears one slot at a time; in
between, the others may try the lock and fail. `base` and `isNew` remember, for the proofs, the
array that a request found and whether its nonce was non-zero and new.
*/
module PsMachine {
  import opened RecordSlots
  import opened PsSensor

  datatype Phase =
    | Filling(k: nat)
    | Draining(i: nat, replies: seq<Reply<Process>>)
    | Finished(ccode: int, replies: seq<Reply<Process>>)

  datatype Request = Request(nonce: Nonce, running: seq<Process>, base: seq<Slot<Process>>, isNew: bool)

  datatype Holder =
    | Nobody
    | Worker(nonce: Nonce, running: seq<Process>, k: nat)
    | Requester(request: Request, phase: Phase)

  datatype Completed = Completed(request: Request, ccode: int, replies: seq<Reply<Process>>)

  datatype State = State(slots: seq<Slot<Process>>, used: set<Nonce>, holder: Holder, done: seq<Completed>)

  /** `WorkerTryLock` and `RequestLock` try the lock; `Advance` is one step of whoever holds it. */
  datatype Step =
    | WorkerTryLock(nonce: Nonce, running: seq<Process>)
    | RequestLock(nonce: Nonce, running: seq<Process>)
    | Advance

  function Init(size: nat): State {
    State(seq(size, _ => Filled(0, Process(0, 0, ""))), {}, Nobody, [])
  }

  function Do(s: State, step: Step): State {
    match step
    case WorkerTryLock(nonce, running) =>
      if s.holder.Nobody? then s.(used := s.used + {nonce}, holder := Worker(nonce, running, 0)) else s
    case RequestLock(nonce, running) =>
      if s.holder.Nobody?
      then s.(used := s.used + {nonce},
              holder := Requester(Request(nonce, running, s.slots, nonce != 0 && nonce !in s.used), Filling(0)))
      else s
    case Advance =>
      match s.holder
      case Nobody => s
      case Worker(nonce, running, k) =>
        if k < |running| && k < |s.slots|
        then s.(slots := s.slots[k := Filled(nonce, running[k])], holder := Worker(nonce, running, k + 1))
        else s.(holder := Nobody)
      case Requester(request, phase) => AdvanceRequest(s, request, phase)
  }

  function AdvanceRequest(s: State, q: Request, phase: Phase): State {
    match phase
    case Filling(k) =>
      if k == |q.running| then s.(holder := Requester(q, Draining(0, [])))
      else if k < |s.slots| && k < |q.running|
      then s.(slots := s.slots[k := Filled(q.nonce, q.running[k])], holder := Requester(q, Filling(k + 1)))
      else s.(holder := Requester(q, Finished(-ENOMEM, [])))
    case Draining(i, replies) =>
      var more := replies + [ReadSlot(s.slots, i, q.nonce)];
      s.(slots := ClearSlot(s.slots, i),
         holder := Requester(q, if Stops(s.slots, i, q.nonce) then Finished(0, more) else Draining(i + 1, more)))
    case Finished(ccode, replies) =>
      s.(holder := Nobody, done := s.done + [Completed(q, ccode, replies)])
  }

  function Run(s: State, steps: seq<Step>): State
    decreases |steps|
  {
    if steps == [] then s else Run(Do(s, steps[0]), steps[1..])
  }

  /** Every nonce in the array was used before, or is the zero of the preallocation. */
  ghost predicate NoncesUsed(s: State) {
    forall j :: 0 <= j < |s.slots| && s.slots[j].Filled? ==> s.slots[j].nonce == 0 || s.slots[j].nonce in s.used
  }

  /** A request found an array of the right size; if its nonce is marked fresh, it is. */
  ghost predicate Well(q: Request, size: nat) {
    |q.base| == size && (q.isNew ==> Fresh(q.base, q.nonce))
  }

  ghost predicate HolderOk(s: State) {
    match s.holder
    case Nobody => true
    case Worker(nonce, _, _) => nonce in s.used
    case Requester(q, phase) =>
      && Well(q, |s.slots|) && q.nonce in s.used
      && var full := Fill(q.base, q.running, q.nonce, |q.running|);
      match phase
      case Filling(k) =>
        k <= |q.running| && k <= |s.slots| && s.slots == Fill(q.base, q.running, q.nonce, k)
      case Draining(i, replies) =>
        |q.running| <= |s.slots| && Reading(full, s.slots, i, q.nonce, replies, false)
      case Finished(ccode, replies) =>
        RequestSpec(q.base, q.running, q.nonce) == Outcome(ccode, replies, s.slots)
  }

  ghost predicate DoneOk(s: State) {
    forall j :: 0 <= j < |s.done| ==>
      var d := s.done[j];
      && Well(d.request, |s.slots|)
      && var spec := RequestSpec(d.request.base, d.request.running, d.request.nonce);
      d.ccode == spec.ccode && d.replies == spec.replies
  }

  ghost predicate Inv(s: State) {
    NoncesUsed(s) && HolderOk(s) && DoneOk(s)
  }

  lemma AdvanceFilling(s: State)
    requires Inv(s) && s.holder.Requester? && s.holder.phase.Filling?
    ensures Inv(Do(s, Advance))
  {
    var q, k, t := s.holder.request, s.holder.phase.k, Do(s, Advance);
    if k == |q.running| {
    } else if k < |s.slots| {
      assert t.slots == Fill(q.base, q.running, q.nonce, k + 1);
    } else {
      assert s.slots == Fill(q.base, q.running, q.nonce, |q.running|);
    }
  }

  lemma AdvanceDraining(s: State)
    requires Inv(s) && s.holder.Requester? && s.holder.phase.Draining?
    ensures Inv(Do(s, Advance))
  {
    var q, phase := s.holder.request, s.holder.phase;
    ReadingStep(Fill(q.base, q.running, q.nonce, |q.running|), s.slots, phase.i, q.nonce, phase.replies);
  }

  lemma DoInv(s: State, step: Step)
    requires Inv(s)
    ensures Inv(Do(s, step)) && |Do(s, step).slots| == |s.slots|
  {
    if step.Advance? && s.holder.Requester? {
      match s.holder.phase
      case Filling(_) => AdvanceFilling(s);
      case Draining(_, _) => AdvanceDraining(s);
      case Finished(_, _) =>
    }
  }

  lemma {:induction false} RunInv(s: State, steps: seq<Step>)
    requires Inv(s)
    ensures Inv(Run(s, steps)) && |Run(s, steps).slots| == |s.slots|
    decreases |steps|
  {
    if steps != [] {
      DoInv(s, steps[0]);
      RunInv(Do(s, steps[0]), steps[1..]);
    }
  }

  /** In every interleaving, a completed request with a new non-zero nonce got exactly the processes
      of its own refresh, in order, then one terminator, for any number up to the size of the
      array; more processes than that fail it with no reply at all. For any other nonce, it got the
      snapshot if and only if the slot behind the last process stopped it. */
  lemma RecordsAreOneSnapshot(size: nat, steps: seq<Step>, j: nat)
    requires j < |Run(Init(size), steps).done|
    ensures var d := Run(Init(size), steps).done[j]; var q := d.request;
      && |q.base| == size
      && (|q.running| > size ==> d.ccode == -ENOMEM && d.replies == [])
      && (|q.running| <= size ==>
            && d.ccode == 0
            && (d.replies == Snapshot(q.running, 0) <==>
                  |q.running| == size || q.base[|q.running|].Cleared?
                  || (q.nonce != 0 && q.base[|q.running|].nonce != q.nonce))
            && (q.isNew ==> d.replies == Snapshot(q.running, 0)))
  {
    RunInv(Init(size), steps);
    var q := Run(Init(size), steps).done[j].request;
    if |q.running| <= size {
      SnapshotIff(q.base, q.running, q.nonce);
    }
  }

  // ----- An uninterrupted request is served -----

  function Advances(n: nat): seq<Step> {
    seq(n, _ => Advance)
  }

  lemma {:induction false} RunAppend(s: State, a: seq<Step>, b: seq<Step>)
    ensures Run(s, a + b) == Run(Run(s, a), b)
    decreases |a|
  {
    if a == [] {
      assert a + b == b;
    } else {
      assert (a + b)[1..] == a[1..] + b;
      RunAppend(Do(s, a[0]), a[1..], b);
    }
  }

  lemma RunOne(s: State, a: Step)
    ensures Run(s, [a]) == Do(s, a)
  {
    assert [a][1..] == [];
  }

  lemma AdvanceOnce(s: State, n: nat)
    requires n > 0
    ensures Run(s, Advances(n)) == Run(Do(s, Advance), Advances(n - 1))
  {
    assert Advances(n)[1..] == Advances(n - 1);
  }

  lemma FillAdvance(s: State, q: Request, k: nat)
    requires s.holder == Requester(q, Filling(k)) && k < |q.running| && k < |s.slots|
    ensures Do(s, Advance) ==
      s.(slots := s.slots[k := Filled(q.nonce, q.running[k])], holder := Requester(q, Filling(k + 1)))
  {
  }

  lemma WorkerAdvance(s: State, nonce: Nonce, running: seq<Process>, k: nat)
    requires s.holder == Worker(nonce, running, k) && k < |running| && k < |s.slots|
    ensures Do(s, Advance) ==
      s.(slots := s.slots[k := Filled(nonce, running[k])], holder := Worker(nonce, running, k + 1))
  {
  }

  /** A request that has put k processes. */
  function Put(s: State, q: Request, k: nat): State
    requires k <= |q.running|
  {
    s.(slots := Fill(q.base, q.running, q.nonce, k), holder := Requester(q, Filling(k)))
  }

  lemma PutOne(s: State, q: Request, k: nat, n: nat)
    requires k < |q.running| && k < |q.base| && n > 0
    ensures Run(Put(s, q, k), Advances(n)) == Run(Put(s, q, k + 1), Advances(n - 1))
  {
    AdvanceOnce(Put(s, q, k), n);
    FillStep(q.base, q.running, q.nonce, k);
    FillAdvance(Put(s, q, k), q, k);
  }

  /** The first n processes are put, one by one. */
  lemma {:induction false} FillRun(s: State, q: Request, k: nat, n: nat)
    requires k + n <= |q.running| && k + n <= |q.base|
    ensures Run(Put(s, q, k), Advances(n)) == Put(s, q, k + n)
    decreases n
  {
    if n > 0 {
      PutOne(s, q, k, n);
      FillRun(s, q, k + 1, n - 1);
    } else {
      assert Advances(0) == [];
    }
  }

  /** The slots are read, one by one, to the first that stops. */
  lemma {:induction false} DrainRun(s: State, q: Request, i: nat, replies: seq<Reply<Process>>)
    requires s.holder == Requester(q, Draining(i, replies))
    ensures Run(s, Advances(|Drain(s.slots, i, q.nonce)|)) ==
      s.(slots := Drained(s.slots, i, q.nonce),
         holder := Requester(q, Finished(0, replies + Drain(s.slots, i, q.nonce))))
    decreases |s.slots| - i
  {
    var d := Drain(s.slots, i, q.nonce);
    AdvanceOnce(s, |d|);
    var t := Do(s, Advance);
    if Stops(s.slots, i, q.nonce) {
      assert Run(t, Advances(0)) == t;
    } else {
      var r := ReadSlot(s.slots, i, q.nonce);
      DrainRun(t, q, i + 1, replies + [r]);
      assert replies + [r] + Drain(t.slots, i + 1, q.nonce) == replies + ([r] + Drain(t.slots, i + 1, q.nonce));
    }
  }

  /** The steps of a request: it locks; fills the array; and, unless it overran, drains it; and unlocks. */
  function RequestSteps(slots: seq<Slot<Process>>, nonce: Nonce, running: seq<Process>): seq<Step> {
    var filled := Fill(slots, running, nonce, |running|);
    [RequestLock(nonce, running)] +
    if |running| > |slots| then Advances(|slots|) + Advances(2)
    else Advances(|running|) + ([Advance] + (Advances(|Drain(filled, 0, nonce)|) + [Advance]))
  }

  lemma FitsIsRun(s: State, q: Request)
    requires s.holder == Requester(q, Filling(0)) && s.slots == q.base && |q.running| <= |s.slots|
    ensures var filled := Fill(q.base, q.running, q.nonce, |q.running|);
      var d := Drain(filled, 0, q.nonce);
      Run(s, Advances(|q.running|) + ([Advance] + (Advances(|d|) + [Advance]))) ==
        s.(slots := Drained(filled, 0, q.nonce), holder := Nobody, done := s.done + [Completed(q, 0, d)])
  {
    var filled := Fill(q.base, q.running, q.nonce, |q.running|);
    var d := Drain(filled, 0, q.nonce);
    FillRun(s, q, 0, |q.running|);
    assert Put(s, q, 0) == s;
    var a := Run(s, Advances(|q.running|));
    RunAppend(s, Advances(|q.running|), [Advance] + (Advances(|d|) + [Advance]));
    RunAppend(a, [Advance], Advances(|d|) + [Advance]);
    RunOne(a, Advance);
    var b := Do(a, Advance);
    RunAppend(b, Advances(|d|), [Advance]);
    DrainRun(b, q, 0, []);
    assert [] + d == d;
    RunOne(Run(b, Advances(|d|)), Advance);
  }

  lemma OverrunIsRun(s: State, q: Request)
    requires s.holder == Requester(q, Filling(0)) && s.slots == q.base && |q.running| > |s.slots|
    ensures Run(s, Advances(|s.slots|) + Advances(2)) ==
      s.(slots := Fill(q.base, q.running, q.nonce, |q.running|), holder := Nobody,
         done := s.done + [Completed(q, -ENOMEM, [])])
  {
    FillRun(s, q, 0, |s.slots|);
    assert Put(s, q, 0) == s;
    var a := Run(s, Advances(|s.slots|));
    RunAppend(s, Advances(|s.slots|), Advances(2));
    AdvanceOnce(a, 2);
    AdvanceOnce(Do(a, Advance), 1);
    assert a.slots == Fill(q.base, q.running, q.nonce, |q.running|);
    assert Run(Do(Do(a, Advance), Advance), Advances(0)) == Do(Do(a, Advance), Advance);
  }

  /** From any state in which nobody holds the sensor, a request that nothing interrupts completes with the
      code, the replies and the array of its specification. */
  lemma RequestIsRun(s: State, nonce: Nonce, running: seq<Process>)
    requires s.holder.Nobody?
    ensures var o := RequestSpec(s.slots, running, nonce);
      var q := Request(nonce, running, s.slots, nonce != 0 && nonce !in s.used);
      Run(s, RequestSteps(s.slots, nonce, running)) ==
        State(o.slots, s.used + {nonce}, Nobody, s.done + [Completed(q, o.ccode, o.replies)])
  {
    var steps := RequestSteps(s.slots, nonce, running);
    var t := Do(s, RequestLock(nonce, running));
    RunOne(s, RequestLock(nonce, running));
    RunAppend(s, [RequestLock(nonce, running)], steps[1..]);
    assert steps == [RequestLock(nonce, running)] + steps[1..];
    if |running| > |s.slots| {
      assert steps[1..] == Advances(|s.slots|) + Advances(2);
      OverrunIsRun(t, t.holder.request);
    } else {
      var d := Drain(Fill(s.slots, running, nonce, |running|), 0, nonce);
      assert steps[1..] == Advances(|running|) + ([Advance] + (Advances(|d|) + [Advance]));
      FitsIsRun(t, t.holder.request);
    }
  }

  /** A worker that has put k processes. */
  function WorkerPut(s: State, base: seq<Slot<Process>>, nonce: Nonce, running: seq<Process>, k: nat): State
    requires k <= |running|
  {
    s.(slots := Fill(base, running, nonce, k), holder := Worker(nonce, running, k))
  }

  lemma WorkerPutOne(s: State, base: seq<Slot<Process>>, nonce: Nonce, running: seq<Process>, k: nat, n: nat)
    requires k < |running| && k < |base| && n > 0
    ensures Run(WorkerPut(s, base, nonce, running, k), Advances(n)) ==
      Run(WorkerPut(s, base, nonce, running, k + 1), Advances(n - 1))
  {
    AdvanceOnce(WorkerPut(s, base, nonce, running, k), n);
    FillStep(base, running, nonce, k);
    WorkerAdvance(WorkerPut(s, base, nonce, running, k), nonce, running, k);
  }

  lemma {:induction false} WorkerFills(s: State, base: seq<Slot<Process>>, nonce: Nonce, running: seq<Process>, k: nat, n: nat)
    requires k + n <= |running| && k + n <= |base|
    ensures Run(WorkerPut(s, base, nonce, running, k), Advances(n)) == WorkerPut(s, base, nonce, running, k + n)
    decreases n
  {
    if n > 0 {
      WorkerPutOne(s, base, nonce, running, k, n);
      WorkerFills(s, base, nonce, running, k + 1, n - 1);
    } else {
      assert Advances(0) == [];
    }
  }

  /** A run of the worker that nothing interrupts is a refresh, of as many processes as fit. */
  lemma WorkerIsRun(s: State, nonce: Nonce, running: seq<Process>)
    requires s.holder.Nobody?
    ensures Run(s, [WorkerTryLock(nonce, running)] + (Advances(Min(|running|, |s.slots|)) + [Advance])) ==
      State(Fill(s.slots, running, nonce, |running|), s.used + {nonce}, Nobody, s.done)
  {
    var n := Min(|running|, |s.slots|);
    var t := Do(s, WorkerTryLock(nonce, running));
    RunOne(s, WorkerTryLock(nonce, running));
    RunAppend(s, [WorkerTryLock(nonce, running)], Advances(n) + [Advance]);
    WorkerFills(t, s.slots, nonce, running, 0, n);
    assert WorkerPut(t, s.slots, nonce, running, 0) == t;
    RunAppend(t, Advances(n), [Advance]);
    RunOne(Run(t, Advances(n)), Advance);
    assert Fill(s.slots, running, nonce, n) == Fill(s.slots, running, nonce, |running|);
  }
}
