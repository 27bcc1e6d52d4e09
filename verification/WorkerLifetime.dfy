/**
The repeating worker of a sensor. A run decrements the sensor's `repeat` without holding the
sensor lock, by reading and then writing it; OFF and ON messages write the same field in between,
and shutdown is a flag that the worker tests.
*/
module WorkerLifetime {

  const INT_MAX := 0x7fff_ffff
  const INT_MIN := -0x8000_0000

  type Int = x: int | INT_MIN <= x <= INT_MAX

  function Wrap(x: int): Int
    requires INT_MIN - 1 <= x <= INT_MAX
  {
    if x < INT_MIN then INT_MAX else x
  }

  /** Program points of the worker: work is queued; a run has begun; it read `repeat`; it wrote it
      back; it sleeps before queuing itself again; it has tested for shutdown for the last time; it has
      ended for good. */
  datatype Phase = Queued | Running | Loaded(v: Int) | Stored | Sleeping | Requeuing | Ended

  datatype State = State(repeat: Int, phase: Phase, runs: nat, shutdown: bool)

  datatype Step = Work | Off | On | Shutdown

  /** The worker is queued once, when the sensor is initialised. */
  function Init(repeat: Int): State {
    State(repeat, Queued, 0, false)
  }

  function Do(s: State, step: Step): State {
    match step
    case Off => s.(repeat := 0)
    case On => s.(repeat := INT_MAX)
    case Shutdown => s.(shutdown := true)
    case Work =>
      match s.phase
      case Queued => s.(phase := Running, runs := s.runs + 1)
      case Running => s.(phase := Loaded(s.repeat))
      case Loaded(v) => s.(phase := Stored, repeat := Wrap(v - 1))
      case Stored => s.(phase := if s.repeat > 0 && !s.shutdown then Sleeping else Ended)
      case Sleeping => s.(phase := if s.shutdown then Ended else Requeuing)
      case Requeuing => s.(phase := Queued)
      case Ended => s
  }

  function Run(s: State, steps: seq<Step>): State
    decreases |steps|
  {
    if steps == [] then s else Run(Do(s, steps[0]), steps[1..])
  }

  function Positive(x: int): nat {
    if x > 0 then x else 0
  }

  /** How many runs a worker that is queued with `repeat` will make if left alone. */
  function Total(repeat: Int): nat {
    1 + Positive(Wrap(repeat - 1))
  }

  /** How many further runs may begin without an ON message. */
  function More(s: State): nat {
    if s.shutdown then (if s.phase.Queued? || s.phase.Requeuing? then 1 else 0)
    else
      match s.phase
      case Queued => Total(s.repeat)
      case Running => Positive(Wrap(s.repeat - 1))
      case Loaded(v) => Positive(Wrap(v - 1))
      case Stored => Positive(s.repeat)
      case Sleeping => Total(s.repeat)
      case Requeuing => Total(s.repeat)
      case Ended => 0
  }

  lemma DoMore(s: State, step: Step)
    requires step != On
    ensures Do(s, step).runs + More(Do(s, step)) <= s.runs + More(s)
  {
    if step == Work {
      WorkMore(s);
    }
  }

  lemma WorkMore(s: State)
    ensures Do(s, Work).runs + More(Do(s, Work)) <= s.runs + More(s)
  {
  }

  lemma {:induction false} MoreBounds(s: State, steps: seq<Step>)
    requires On !in steps
    ensures Run(s, steps).runs <= s.runs + More(s)
    decreases |steps|
  {
    if steps != [] {
      DoMore(s, steps[0]);
      MoreBounds(Do(s, steps[0]), steps[1..]);
    }
  }

  // ----- Left alone -----

  function Works(n: nat): seq<Step> {
    seq(n, _ => Work)
  }

  lemma WorksSplit(s: State, n: nat)
    requires n > 0
    ensures Run(s, Works(n)) == Run(Do(s, Work), Works(n - 1))
  {
    assert Works(n)[1..] == Works(n - 1);
  }

  /** What holds between the steps of a worker that nobody disturbs. */
  predicate Undisturbed(s: State) {
    !s.shutdown && (s.phase.Loaded? ==> s.phase.v == s.repeat) && (s.phase.Sleeping? || s.phase.Requeuing? ==> s.repeat > 0)
  }

  lemma AloneStep(s: State)
    requires Undisturbed(s)
    ensures var t := Do(s, Work);
      Undisturbed(t) && t.runs + More(t) == s.runs + More(s)
      && (s.phase.Ended? || Distance(t) == Distance(s) - 1)
  {
  }

  /** Left alone, the worker keeps to the number of runs it set out with. */
  lemma {:induction false} AloneExact(s: State, n: nat)
    requires Undisturbed(s)
    ensures var t := Run(s, Works(n));
      t.runs + More(t) == s.runs + More(s) && !t.shutdown
    decreases n
  {
    if n > 0 {
      AloneStep(s);
      WorksSplit(s, n);
      AloneExact(Do(s, Work), n - 1);
    }
  }

  /** Steps until the end: six for a run that is followed by another, four for the last. */
  function Distance(s: State): int {
    match s.phase
    case Queued => 6 * More(s) - 2
    case Running => 6 * More(s) + 3
    case Loaded(_) => 6 * More(s) + 2
    case Stored => 6 * More(s) + 1
    case Sleeping => 6 * More(s)
    case Requeuing => 6 * More(s) - 1
    case Ended => 0
  }

  lemma {:induction false} AloneEnds(s: State, n: nat)
    requires Undisturbed(s)
    requires n >= Distance(s)
    ensures Run(s, Works(n)).phase == Ended
    decreases n
  {
    if n > 0 {
      AloneStep(s);
      WorksSplit(s, n);
      AloneEnds(Do(s, Work), n - 1);
    }
  }

  /** With no messages the worker runs max(1, repeat) times and ends, if and only if the initial
      `repeat` is not the smallest integer, whose decrement wraps around. */
  lemma RunsExactly(repeat: Int, n: nat)
    ensures var t := Run(Init(repeat), Works(n));
      && t.runs <= Total(repeat)
      && (t.phase.Ended? ==> t.runs == Total(repeat))
      && (n >= Distance(Init(repeat)) ==> t.phase.Ended?)
    ensures Total(repeat) == (if repeat > 1 then repeat else 1) <==> repeat != INT_MIN
  {
    AloneExact(Init(repeat), n);
    if n >= Distance(Init(repeat)) {
      AloneEnds(Init(repeat), n);
    }
  }

  // ----- Messages and shutdown -----

  /** Once the worker has ended, no sequence of messages starts another run. */
  lemma {:induction false} EndedForGood(s: State, steps: seq<Step>)
    requires s.phase.Ended?
    ensures Run(s, steps).phase.Ended? && Run(s, steps).runs == s.runs
    decreases |steps|
  {
    if steps != [] {
      EndedForGood(Do(s, steps[0]), steps[1..]);
    }
  }

  /** After shutdown at most one further run begins, and only if it was queued already or the worker had
      made its last test for shutdown before queuing it. */
  lemma {:induction false} AfterShutdown(s: State, steps: seq<Step>)
    requires s.shutdown
    ensures Run(s, steps).runs <= s.runs + (if s.phase.Queued? || s.phase.Requeuing? then 1 else 0)
    ensures Run(s, steps).shutdown
    decreases |steps|
  {
    if steps != [] {
      AfterShutdown(Do(s, steps[0]), steps[1..]);
    }
  }

  /** OFF arrives between the worker's read of `repeat` and its write, which then revives the rest of
      the runs. */
  predicate OffIsLost(s: State) {
    !s.shutdown && s.phase.Loaded? && Wrap(s.phase.v - 1) > 1
  }

  /** After OFF, with no later ON, at most one further run begins, if and only if OFF did not arrive
      inside the unlocked decrement of a worker with more than one run to go. */
  lemma AtMostOneRunAfterOffIff(s: State)
    ensures (forall steps: seq<Step> :: On !in steps ==> Run(Do(s, Off), steps).runs <= s.runs + 1)
            <==> !OffIsLost(s)
  {
    var t := Do(s, Off);
    if OffIsLost(s) {
      RunEleven(t);
      assert On !in Works(11);
    } else {
      forall steps: seq<Step> | On !in steps ensures Run(t, steps).runs <= s.runs + 1 {
        MoreBounds(t, steps);
      }
    }
  }

  /** OFF was overwritten: the run ends as if it had not been sent, and the next run begins. */
  lemma Revived(t: State, n: nat)
    requires !t.shutdown && t.phase.Loaded? && Wrap(t.phase.v - 1) > 0 && n >= 5
    ensures Run(t, Works(n)) == Run(State(Wrap(t.phase.v - 1), Running, t.runs + 1, false), Works(n - 5))
  {
    var a := Do(t, Work);
    var b := Do(a, Work);
    var c := Do(b, Work);
    var d := Do(c, Work);
    assert d == State(Wrap(t.phase.v - 1), Queued, t.runs, false);
    WorksSplit(t, n);
    WorksSplit(a, n - 1);
    WorksSplit(b, n - 2);
    WorksSplit(c, n - 3);
    WorksSplit(d, n - 4);
  }

  lemma RunEleven(t: State)
    requires !t.shutdown && t.phase.Loaded? && Wrap(t.phase.v - 1) > 1
    ensures Run(t, Works(11)).runs == t.runs + 2
  {
    Revived(t, 11);
    var a := State(Wrap(t.phase.v - 1), Running, t.runs + 1, false);
    WorksSplit(a, 6);
    Revived(Do(a, Work), 5);
  }

  /** A worker with five runs to go, and OFF between the read and the write of its first decrement. */
  lemma OffCanBeLost()
    ensures OffIsLost(Run(Init(5), [Work, Work]))
  {
    var s := Init(5);
    assert [Work, Work][1..] == [Work] && [Work][1..] == [];
    assert Run(s, [Work, Work]) == Run(Do(s, Work), [Work]) == Do(Do(s, Work), Work);
  }

  /** Shutdown between the last test and the queuing: one further run begins. */
  lemma ShutdownCanComeLate(s: State)
    requires s.phase.Requeuing?
    ensures Run(Do(s, Shutdown), Works(2)).runs == s.runs + 1
  {
    var t := Do(s, Shutdown);
    WorksSplit(t, 2);
    WorksSplit(Do(t, Work), 1);
  }

  /** The shutdown flag, once set, has that effect from any state. */
  lemma ShutdownStops(s: State, steps: seq<Step>)
    ensures Run(Do(s, Shutdown), steps).runs <= s.runs + (if s.phase.Queued? || s.phase.Requeuing? then 1 else 0)
  {
    AfterShutdown(Do(s, Shutdown), steps);
  }

  /** How many steps of its own a worker takes to its end once it is told to shut down: it neither sleeps nor
      queues itself at a test that comes after. */
  function Remaining(phase: Phase): nat {
    match phase
    case Requeuing => 5
    case Queued => 4
    case Running => 3
    case Loaded(_) => 2
    case Stored => 1
    case Sleeping => 1
    case Ended => 0
  }

  /** After shutdown the worker ends in that many steps, whatever messages come in between, and in no fewer. */
  lemma {:induction false} ShutdownEndsIff(s: State, steps: seq<Step>)
    requires s.shutdown
    ensures Run(s, steps).phase.Ended? <==> multiset(steps)[Work] >= Remaining(s.phase)
    decreases |steps|
  {
    if steps != [] {
      assert steps == [steps[0]] + steps[1..];
      ShutdownEndsIff(Do(s, steps[0]), steps[1..]);
    }
  }

  /** How many further runs ON grants: the largest integer, less the one that has begun. */
  function Granted(phase: Phase): nat {
    if phase.Running? then 0x7fff_fffe else 0x7fff_ffff
  }

  /** ON, sent to a worker that has neither ended nor is inside its decrement, lets it go on: left alone it
      makes as many further runs as ON grants. */
  lemma OnGoesOn(s: State, n: nat)
    requires !s.shutdown && !s.phase.Ended? && !s.phase.Loaded?
    ensures var t := Do(s, On);
      n >= Distance(t) ==> Run(t, Works(n)).runs == s.runs + Granted(s.phase)
  {
    var t := Do(s, On);
    if n >= Distance(t) {
      AloneExact(t, n);
      AloneEnds(t, n);
    }
  }

  /** Inside the decrement ON is overwritten like OFF: the worker goes on as if it had not been sent. */
  lemma OnIsLost(s: State)
    requires s.phase.Loaded?
    ensures Do(Do(s, On), Work) == Do(s, Work)
  {
  }
}
