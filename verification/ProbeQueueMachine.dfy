/**
The probe data queue under concurrency: producers run `Enqueue` and consumers run
wait, `Dequeue`, then `Dispose` or `PutBack`, in any interleaving of small steps.

The spinlock serialises the list, but a waiting consumer takes its semaphore unit
outside the lock, also while a producer is between its lock and its unlock. The state
is a value and a run is a list of steps; a step that is not enabled changes nothing,
so every list of steps is a run and every reachable state is the end of one.
*/
module ProbeQueueMachine {
  import opened ProbeQueue

  /** A consumer sleeps or waits; was granted its wait; or holds the entry it dequeued. */
  datatype Consumer = Idle | Granted | InHand(entry: Entry)

  /** Why the lock is held: `Enqueue` of a new entry, or `PutBack` by a consumer. */
  datatype Op = Arrive(size: UShort) | Return(consumer: nat)

  /** Program points between lock and unlock. `trims` counts the entries this call discarded. */
  datatype Section =
    | Free
    | Trimming(op: Op, trims: nat)
    | Evicted(op: Op, trims: nat)
    | Ready(op: Op, trims: nat)
    | Inserted(op: Op, trims: nat)

  /** The shared state, the program points, and the history of the run:
      `accepted`, `trimmed` and `disposed` list entries; `artificial` counts units released by
      `TerminateLoop`, `nulls` the calls of `Dequeue` that found the list empty, `lost` the
      producers' releases that hit the limit, `failed` the zero-timeout waits that got no unit;
      `corrupt` records the removal of the head of an empty list. */
  datatype State = State(
    list: seq<Entry>, semaphore: nat, size: int, connected: bool,
    section: Section, consumers: seq<Consumer>,
    accepted: seq<Entry>, trimmed: seq<Entry>, disposed: seq<Entry>,
    artificial: nat, nulls: nat, lost: nat, failed: nat, corrupt: bool)

  function Init(consumers: nat): State {
    State([], 0, 0, false, Free, seq(consumers, _ => Idle), [], [], [], 0, 0, 0, 0, false)
  }

  datatype Step =
    | Connect
    | Disconnect
    | Grant(i: nat)      // consumer i's wait for semaphore and event returns
    | Take(i: nat)       // consumer i runs Dequeue
    | Dispose(i: nat)    // consumer i disposes of its entry
    | Lock(op: Op)       // a producer or a consumer that puts back takes the lock
    | Check              // reads the count; at the limit, removes the head
    | Acquire            // zero-timeout wait for one unit, result ignored
    | Insert             // at the tail for Enqueue, at the head for PutBack
    | Release            // gives one unit and unlocks
    | Terminate          // TerminateLoop: an artificial release, and the connect event

  function Do(s: State, step: Step): State {
    match step
    case Connect => s.(connected := true)
    case Disconnect => s.(connected := false)
    case Grant(i) => DoGrant(s, i)
    case Take(i) => DoTake(s, i)
    case Dispose(i) => DoDispose(s, i)
    case Lock(op) => DoLock(s, op)
    case Check => DoCheck(s)
    case Acquire => DoAcquire(s)
    case Insert => if s.section.Ready? then DoInsert(s) else s
    case Release => DoRelease(s)
    case Terminate => DoTerminate(s)
  }

  function DoGrant(s: State, i: nat): State {
    if i < |s.consumers| && s.consumers[i].Idle? && s.connected && s.semaphore > 0
    then s.(semaphore := s.semaphore - 1, consumers := s.consumers[i := Granted])
    else s
  }

  function DoTake(s: State, i: nat): State {
    if !(i < |s.consumers| && s.consumers[i].Granted? && s.section.Free?) then s
    else if s.list == [] then s.(consumers := s.consumers[i := Idle], nulls := s.nulls + 1)
    else s.(list := s.list[1..], size := s.size - s.list[0].size,
            consumers := s.consumers[i := InHand(s.list[0])])
  }

  function DoDispose(s: State, i: nat): State {
    if i < |s.consumers| && s.consumers[i].InHand? && !PuttingBack(s, i)
    then s.(consumers := s.consumers[i := Idle], disposed := s.disposed + [s.consumers[i].entry])
    else s
  }

  function DoLock(s: State, op: Op): State {
    if s.section.Free? && (op.Return? ==> op.consumer < |s.consumers| && s.consumers[op.consumer].InHand?)
    then s.(section := Trimming(op, 0))
    else s
  }

  function DoCheck(s: State): State {
    if !s.section.Trimming? then s
    else if s.semaphore < CAPACITY then s.(section := Ready(s.section.op, s.section.trims))
    else if s.list == [] then s.(section := Evicted(s.section.op, s.section.trims + 1), corrupt := true)
    else s.(section := Evicted(s.section.op, s.section.trims + 1), list := s.list[1..],
            size := s.size - s.list[0].size, trimmed := s.trimmed + [s.list[0]])
  }

  function DoAcquire(s: State): State {
    if !s.section.Evicted? then s
    else if s.semaphore > 0
    then s.(section := Trimming(s.section.op, s.section.trims), semaphore := s.semaphore - 1)
    else s.(section := Trimming(s.section.op, s.section.trims), failed := s.failed + 1)
  }

  function DoRelease(s: State): State {
    if !s.section.Inserted? then s
    else if s.semaphore < CAPACITY then s.(section := Free, semaphore := s.semaphore + 1)
    else s.(section := Free, lost := s.lost + 1)
  }

  function DoTerminate(s: State): State {
    var t := s.(connected := true);
    if s.semaphore < CAPACITY then t.(semaphore := s.semaphore + 1, artificial := s.artificial + 1) else t
  }

  function DoInsert(s: State): State
    requires s.section.Ready?
  {
    var after := Inserted(s.section.op, s.section.trims);
    match s.section.op
    case Arrive(size) =>
      var e := Entry(|s.accepted|, size);
      s.(section := after, list := s.list + [e], size := s.size + size, accepted := s.accepted + [e])
    case Return(i) =>
      if i < |s.consumers| && s.consumers[i].InHand? then
        var e := s.consumers[i].entry;
        s.(section := after, list := [e] + s.list, size := s.size + e.size, consumers := s.consumers[i := Idle])
      else s
  }

  /** Consumer i is inside `PutBack`, between lock and insertion. */
  predicate PuttingBack(s: State, i: nat) {
    Holding(s.section) && s.section.op == Return(i)
  }

  predicate Holding(section: Section) {
    section.Trimming? || section.Evicted? || section.Ready?
  }

  function Run(s: State, steps: seq<Step>): State
    decreases |steps|
  {
    if steps == [] then s else Run(Do(s, steps[0]), steps[1..])
  }

  /** How many waits were granted and not yet followed by a `Dequeue`. */
  function Waits(cs: seq<Consumer>): nat {
    if cs == [] then 0 else (if cs[0].Granted? then 1 else 0) + Waits(cs[1..])
  }

  /** The entries that consumers hold. */
  function Hands(cs: seq<Consumer>): multiset<Entry> {
    if cs == [] then multiset{} else HandOf(cs[0]) + Hands(cs[1..])
  }

  function HandOf(c: Consumer): multiset<Entry> {
    if c.InHand? then multiset{c.entry} else multiset{}
  }

  lemma {:induction false} WaitsUpdate(cs: seq<Consumer>, i: nat, c: Consumer)
    requires i < |cs|
    ensures Waits(cs[i := c]) + (if cs[i].Granted? then 1 else 0)
            == Waits(cs) + (if c.Granted? then 1 else 0)
  {
    if i == 0 {
      assert cs[0 := c][1..] == cs[1..];
    } else {
      assert cs[i := c][1..] == cs[1..][i - 1 := c];
      WaitsUpdate(cs[1..], i - 1, c);
    }
  }

  lemma {:induction false} HandsUpdate(cs: seq<Consumer>, i: nat, c: Consumer)
    requires i < |cs|
    ensures Hands(cs[i := c]) + HandOf(cs[i]) == Hands(cs) + HandOf(c)
  {
    var rest := cs[1..];
    if i == 0 {
      assert cs[0 := c][1..] == rest;
      Swap(HandOf(cs[0]), Hands(rest), HandOf(c));
    } else {
      HandsUpdate(rest, i - 1, c);
      assert cs[i := c][1..] == rest[i - 1 := c];
      Prefix(HandOf(cs[0]), Hands(rest[i - 1 := c]), HandOf(cs[i]), Hands(rest), HandOf(c));
    }
  }

  lemma Swap(a: multiset<Entry>, b: multiset<Entry>, c: multiset<Entry>)
    ensures c + b + a == a + b + c
  {
  }

  lemma Prefix(a: multiset<Entry>, b: multiset<Entry>, c: multiset<Entry>, d: multiset<Entry>, e: multiset<Entry>)
    requires b + c == d + e
    ensures a + b + c == a + d + e
  {
    assert a + b + c == a + (b + c);
  }

  lemma {:induction false} WaitsBound(cs: seq<Consumer>)
    ensures Waits(cs) <= |cs|
  {
    if cs != [] {
      WaitsBound(cs[1..]);
    }
  }

  /** Units with no entry behind them that nobody has claimed yet. */
  function Surplus(s: State): int {
    s.artificial - s.nulls - s.lost
  }

  /** Token conservation. Outside a critical section the list is exactly as long as the semaphore
      count plus the granted waits (less the surplus of `TerminateLoop`); it is one short after an
      eviction and one over after an insertion. */
  ghost predicate Balanced(s: State) {
    |s.list| + Surplus(s)
    == s.semaphore + Waits(s.consumers)
       + (match s.section case Evicted(_, _) => -1 case Inserted(_, _) => 1 case _ => 0)
  }

  /** What bounds the count, and why the trim loop ends. */
  ghost predicate Bounded(s: State) {
    && s.semaphore <= CAPACITY
    && Surplus(s) >= 0
    && (s.section.Ready? || s.section.Inserted? ==> s.semaphore < CAPACITY || Surplus(s) > 0)
    && (s.section.Evicted? ==> s.semaphore + Waits(s.consumers) >= CAPACITY)
    && (s.artificial == 0 ==>
          match s.section
          case Free => true
          case Trimming(_, k) => k == 0 || (k == 1 && s.semaphore < CAPACITY)
          case Evicted(_, k) => k == 1
          case Ready(_, k) => k <= 1
          case Inserted(_, k) => k <= 1)
  }

  /** Where every entry is. */
  ghost function Places(s: State): multiset<Entry> {
    multiset(s.list) + multiset(s.trimmed) + multiset(s.disposed) + Hands(s.consumers)
  }

  /** Arrivals are numbered in order, the recorded size is the total size of the list, and an entry
      being put back is still in its consumer's hand. */
  ghost predicate Recorded(s: State) {
    && (forall k :: 0 <= k < |s.accepted| ==> s.accepted[k].id == k)
    && s.size == TotalSize(s.list)
    && (Holding(s.section) && s.section.op.Return? ==>
          s.section.op.consumer < |s.consumers| && s.consumers[s.section.op.consumer].InHand?)
  }

  /** The entries accepted so far are exactly those in the list, trimmed, disposed of or in a hand. */
  ghost predicate Conserved(s: State) {
    Recorded(s) && Placed(s)
  }

  ghost predicate Placed(s: State) {
    Places(s) == multiset(s.accepted)
  }

  ghost predicate Tokens(s: State) {
    !s.corrupt && s.failed == 0 && Balanced(s) && Bounded(s)
  }

  lemma TokensGrant(s: State, i: nat)
    requires Tokens(s) && |s.consumers| < CAPACITY
    ensures Tokens(DoGrant(s, i))
  {
    if DoGrant(s, i) != s { WaitsUpdate(s.consumers, i, Granted); }
  }

  lemma TokensTake(s: State, i: nat)
    requires Tokens(s)
    ensures Tokens(DoTake(s, i))
  {
    var t := DoTake(s, i);
    if t != s {
      WaitsUpdate(s.consumers, i, t.consumers[i]);
    }
  }

  lemma TokensDispose(s: State, i: nat)
    requires Tokens(s)
    ensures Tokens(DoDispose(s, i))
  {
    if DoDispose(s, i) != s { WaitsUpdate(s.consumers, i, Idle); }
  }

  lemma TokensCheck(s: State)
    requires Tokens(s) && |s.consumers| < CAPACITY && s.artificial < CAPACITY
    ensures Tokens(DoCheck(s))
  {
    WaitsBound(s.consumers);
  }

  lemma TokensAcquire(s: State)
    requires Tokens(s) && |s.consumers| < CAPACITY
    ensures Tokens(DoAcquire(s))
  {
    WaitsBound(s.consumers);
  }

  lemma TokensInsert(s: State)
    requires Tokens(s) && s.section.Ready?
    ensures Tokens(DoInsert(s))
  {
    if s.section.op.Return? && DoInsert(s) != s {
      WaitsUpdate(s.consumers, s.section.op.consumer, Idle);
    }
  }

  lemma TokensRelease(s: State)
    requires Tokens(s)
    ensures Tokens(DoRelease(s))
  {
  }

  lemma TokensTerminate(s: State)
    requires Tokens(s)
    ensures Tokens(DoTerminate(s))
  {
  }

  /** Every step keeps the tokens balanced, given fewer consumers and fewer artificial releases
      than capacity. */
  lemma DoTokens(s: State, step: Step)
    requires Tokens(s) && |s.consumers| < CAPACITY && s.artificial < CAPACITY
    ensures Tokens(Do(s, step))
  {
    match step
    case Grant(i) => TokensGrant(s, i);
    case Take(i) => TokensTake(s, i);
    case Dispose(i) => TokensDispose(s, i);
    case Check => TokensCheck(s);
    case Acquire => TokensAcquire(s);
    case Insert => if s.section.Ready? { TokensInsert(s); }
    case Release => TokensRelease(s);
    case Terminate => TokensTerminate(s);
    case _ =>
  }

  lemma RecordedInsert(s: State)
    requires Recorded(s) && s.section.Ready?
    ensures Recorded(DoInsert(s))
  {
    if s.section.op.Arrive? {
      TotalSizeAppend(s.list, Entry(|s.accepted|, s.section.op.size));
    }
  }

  lemma DoRecorded(s: State, step: Step)
    requires Recorded(s)
    ensures Recorded(Do(s, step))
  {
    match step
    case Grant(_) =>
    case Take(_) =>
    case Dispose(_) =>
    case Lock(_) =>
    case Check =>
    case Insert => if s.section.Ready? { RecordedInsert(s); }
    case _ =>
  }

  lemma HeadTail(q: seq<Entry>)
    requires q != []
    ensures multiset(q) == multiset{q[0]} + multiset(q[1..])
  {
    assert q == [q[0]] + q[1..];
  }

  /** A consumer that holds nothing before and after leaves the hands alone. */
  lemma HandsKeep(cs: seq<Consumer>, i: nat, c: Consumer)
    requires i < |cs| && !cs[i].InHand? && !c.InHand?
    ensures Hands(cs[i := c]) == Hands(cs)
  {
    HandsUpdate(cs, i, c);
    var before, after := Hands(cs), Hands(cs[i := c]);
    assert before + multiset{} == before && after + multiset{} == after;
  }

  lemma HandsDrop(cs: seq<Consumer>, i: nat)
    requires i < |cs| && cs[i].InHand?
    ensures Hands(cs) == Hands(cs[i := Idle]) + multiset{cs[i].entry}
  {
    HandsUpdate(cs, i, Idle);
    var before := Hands(cs);
    assert before + multiset{} == before;
  }

  lemma HandsGain(cs: seq<Consumer>, i: nat, e: Entry)
    requires i < |cs| && !cs[i].InHand?
    ensures Hands(cs[i := InHand(e)]) == Hands(cs) + multiset{e}
  {
    HandsUpdate(cs, i, InHand(e));
    var after := Hands(cs[i := InHand(e)]);
    assert after + multiset{} == after;
  }

  lemma PlacesAfterTake(s: State, t: State, i: nat)
    requires i < |s.consumers| && s.consumers[i].Granted? && s.list != []
    requires t.consumers == s.consumers[i := InHand(s.list[0])] && t.list == s.list[1..]
    requires t.trimmed == s.trimmed && t.disposed == s.disposed
    ensures Places(t) == Places(s)
  {
    HeadTail(s.list);
    HandsGain(s.consumers, i, s.list[0]);
  }

  lemma PlacesAfterDispose(s: State, t: State, i: nat)
    requires i < |s.consumers| && s.consumers[i].InHand?
    requires t.consumers == s.consumers[i := Idle] && t.disposed == s.disposed + [s.consumers[i].entry]
    requires t.trimmed == s.trimmed && t.list == s.list
    ensures Places(t) == Places(s)
  {
    HandsDrop(s.consumers, i);
  }

  lemma PlacesAfterCheck(s: State, t: State)
    requires s.list != [] && t.list == s.list[1..] && t.trimmed == s.trimmed + [s.list[0]]
    requires t.disposed == s.disposed && t.consumers == s.consumers
    ensures Places(t) == Places(s)
  {
    HeadTail(s.list);
    var x, l, r, d, h := multiset{s.list[0]}, multiset(s.list[1..]), multiset(s.trimmed), multiset(s.disposed), Hands(s.consumers);
    assert multiset(t.trimmed) == r + x;
    MoveOver(x, l, r, d, h);
  }

  lemma MoveOver(x: multiset<Entry>, l: multiset<Entry>, r: multiset<Entry>, d: multiset<Entry>, h: multiset<Entry>)
    ensures l + (r + x) + d + h == (x + l) + r + d + h
  {
  }

  lemma PlacesAfterReturn(s: State, t: State, i: nat)
    requires i < |s.consumers| && s.consumers[i].InHand?
    requires t.consumers == s.consumers[i := Idle] && t.list == [s.consumers[i].entry] + s.list
    requires t.trimmed == s.trimmed && t.disposed == s.disposed
    ensures Places(t) == Places(s)
  {
    HandsDrop(s.consumers, i);
  }

  lemma PlacesAfterArrive(s: State, t: State, e: Entry)
    requires t.list == s.list + [e] && t.consumers == s.consumers
    requires t.trimmed == s.trimmed && t.disposed == s.disposed
    ensures Places(t) == Places(s) + multiset{e}
  {
  }

  /** The parts of the state that `Places` and `accepted` depend on. */
  predicate SamePlaces(s: State, t: State) {
    && t.list == s.list && t.trimmed == s.trimmed && t.disposed == s.disposed
    && t.consumers == s.consumers && t.accepted == s.accepted
  }

  lemma PlacedGrant(s: State, i: nat)
    requires Conserved(s)
    ensures Placed(DoGrant(s, i))
  {
    if DoGrant(s, i) != s { HandsKeep(s.consumers, i, Granted); }
  }

  lemma PlacedTake(s: State, i: nat)
    requires Conserved(s)
    ensures Placed(DoTake(s, i))
  {
    var t := DoTake(s, i);
    if t == s {
    } else if s.list == [] {
      HandsKeep(s.consumers, i, Idle);
    } else {
      PlacesAfterTake(s, t, i);
    }
  }

  lemma PlacedDispose(s: State, i: nat)
    requires Conserved(s)
    ensures Placed(DoDispose(s, i))
  {
    if DoDispose(s, i) != s { PlacesAfterDispose(s, DoDispose(s, i), i); }
  }

  lemma PlacedCheck(s: State)
    requires Conserved(s)
    ensures Placed(DoCheck(s))
  {
    if DoCheck(s).list != s.list {
      PlacesAfterCheck(s, DoCheck(s));
    } else {
      PlacedSame(s, DoCheck(s));
    }
  }

  lemma PlacedInsert(s: State)
    requires Conserved(s) && s.section.Ready?
    ensures Placed(DoInsert(s))
  {
    if s.section.op.Return? {
      PlacesAfterReturn(s, DoInsert(s), s.section.op.consumer);
    } else {
      PlacesAfterArrive(s, DoInsert(s), Entry(|s.accepted|, s.section.op.size));
    }
  }

  lemma PlacedSame(s: State, t: State)
    requires Placed(s) && SamePlaces(s, t)
    ensures Placed(t)
  {
  }

  /** The steps that move no entry. */
  lemma PlacedOther(s: State, step: Step)
    requires !step.Grant? && !step.Take? && !step.Dispose? && !step.Check? && !step.Insert?
    ensures SamePlaces(s, Do(s, step))
  {
  }

  lemma DoPlaced(s: State, step: Step)
    requires Conserved(s)
    ensures Placed(Do(s, step))
  {
    match step
    case Grant(i) => PlacedGrant(s, i);
    case Take(i) => PlacedTake(s, i);
    case Dispose(i) => PlacedDispose(s, i);
    case Check => PlacedCheck(s);
    case Insert => if s.section.Ready? { PlacedInsert(s); }
    case _ =>
      PlacedOther(s, step);
      PlacedSame(s, Do(s, step));
  }

  /** Every step keeps each accepted entry in exactly one place. */
  lemma DoConserved(s: State, step: Step)
    requires Conserved(s)
    ensures Conserved(Do(s, step))
  {
    DoRecorded(s, step);
    DoPlaced(s, step);
  }

  // ----- Whole runs -----

  lemma {:induction false} RunAppend(s: State, a: seq<Step>, b: seq<Step>)
    ensures Run(s, a + b) == Run(Run(s, a), b)
    decreases |a|
  {
    if a == [] {
      assert a + b == b;
    } else {
      assert (a + b)[1..] == a[1..] + b;
      RunAppend(Do(s, a[0]), a[1..], b);
    }
  }

  lemma DoArtificial(s: State, step: Step)
    ensures s.artificial <= Do(s, step).artificial && |Do(s, step).consumers| == |s.consumers|
  {
  }

  lemma {:induction false} ArtificialGrows(s: State, steps: seq<Step>)
    ensures s.artificial <= Run(s, steps).artificial
    ensures |Run(s, steps).consumers| == |s.consumers|
    decreases |steps|
  {
    if steps != [] {
      DoArtificial(s, steps[0]);
      ArtificialGrows(Do(s, steps[0]), steps[1..]);
    }
  }

  lemma {:induction false} RunTokens(s: State, steps: seq<Step>)
    requires Tokens(s) && |s.consumers| < CAPACITY && Run(s, steps).artificial < CAPACITY
    ensures Tokens(Run(s, steps))
    decreases |steps|
  {
    if steps != [] {
      ArtificialGrows(s, steps);
      ArtificialGrows(s, steps[..1]);
      DoTokens(s, steps[0]);
      RunTokens(Do(s, steps[0]), steps[1..]);
    }
  }

  lemma {:induction false} RunConserved(s: State, steps: seq<Step>)
    requires Conserved(s)
    ensures Conserved(Run(s, steps))
    decreases |steps|
  {
    if steps != [] {
      DoConserved(s, steps[0]);
      RunConserved(Do(s, steps[0]), steps[1..]);
    }
  }

  lemma {:induction false} InitEmpty(n: nat)
    ensures Waits(Init(n).consumers) == 0 && Hands(Init(n).consumers) == multiset{}
    decreases n
  {
    if n > 0 {
      InitEmpty(n - 1);
      assert Init(n).consumers[1..] == Init(n - 1).consumers;
    }
  }

  lemma {:induction false} WaitsPositive(cs: seq<Consumer>, i: nat)
    requires i < |cs| && cs[i].Granted?
    ensures Waits(cs) > 0
  {
    if i > 0 {
      WaitsPositive(cs[1..], i - 1);
    }
  }

  /** Token conservation and the bounds of the queue, in every reachable state of every
      interleaving of producers and fewer than CAPACITY consumers. */
  lemma TokenConservation(n: nat, steps: seq<Step>)
    requires n < CAPACITY
    ensures var t := Run(Init(n), steps);
      t.artificial < CAPACITY ==>
        && !t.corrupt && t.failed == 0 && t.nulls + t.lost <= t.artificial && t.semaphore <= CAPACITY
        && |t.list| + (t.artificial - t.nulls - t.lost)
           == t.semaphore + Waits(t.consumers)
              + (match t.section case Evicted(_, _) => -1 case Inserted(_, _) => 1 case _ => 0)
        && (t.section.Free? ==> |t.list| <= CAPACITY + Waits(t.consumers))
  {
    InitEmpty(n);
    if Run(Init(n), steps).artificial < CAPACITY {
      RunTokens(Init(n), steps);
    }
  }

  /** Without `TerminateLoop`: no release is lost, a granted consumer finds an entry, and one call
      discards at most one entry. */
  lemma GrantedNeverEmpty(n: nat, steps: seq<Step>, i: nat)
    requires n < CAPACITY && Run(Init(n), steps).artificial == 0
    ensures var t := Run(Init(n), steps);
      && t.nulls == 0 && t.lost == 0
      && (t.section.Inserted? ==> t.semaphore < CAPACITY)
      && (!t.section.Free? ==> t.section.trims <= 1)
      && (i < |t.consumers| && t.consumers[i].Granted? && t.section.Free? ==>
            t.list != [] && Do(t, Take(i)).consumers[i] == InHand(t.list[0]))
  {
    InitEmpty(n);
    RunTokens(Init(n), steps);
    ArtificialGrows(Init(n), steps);
    var t := Run(Init(n), steps);
    if i < |t.consumers| && t.consumers[i].Granted? {
      WaitsPositive(t.consumers, i);
    }
  }

  lemma {:induction false} OccursOnce(s: seq<Entry>, k: nat)
    requires forall j :: 0 <= j < |s| ==> s[j].id == j
    requires k < |s|
    ensures multiset(s)[s[k]] == 1
  {
    var e := s[k];
    assert s == s[..k] + [e] + s[k + 1..];
    assert e !in s[..k] && e !in s[k + 1..];
  }

  /** Nothing is lost or doubled: with any number of consumers, the k-th accepted entry is in
      exactly one of the list, the trimmed entries, the disposed entries and the hands. */
  lemma ExactlyOnePlace(n: nat, steps: seq<Step>, k: nat)
    requires k < |Run(Init(n), steps).accepted|
    ensures var t := Run(Init(n), steps); var e := t.accepted[k];
      && e.id == k
      && multiset(t.list)[e] + multiset(t.trimmed)[e] + multiset(t.disposed)[e] + Hands(t.consumers)[e] == 1
      && t.size == TotalSize(t.list)
  {
    InitEmpty(n);
    RunConserved(Init(n), steps);
    OccursOnce(Run(Init(n), steps).accepted, k);
  }

  // ----- One consumer: order -----

  function Hand(c: Consumer): seq<Entry> {
    if c.InHand? then [c.entry] else []
  }

  /** Disposed entries, then the entry in hand, then the list. */
  function Chain(s: State): seq<Entry>
    requires |s.consumers| == 1
  {
    s.disposed + Hand(s.consumers[0]) + s.list
  }

  /** `chain` is a strictly increasing subsequence of `accepted`, whose ids are its indexes. */
  ghost predicate Rising(chain: seq<Entry>, accepted: seq<Entry>) {
    && (forall j :: 0 <= j < |accepted| ==> accepted[j].id == j)
    && (forall j :: 0 <= j < |chain| ==> chain[j].id < |accepted| && accepted[chain[j].id] == chain[j])
    && (forall j, k :: 0 <= j < k < |chain| ==> chain[j].id < chain[k].id)
  }

  lemma RisingWithout(a: seq<Entry>, e: Entry, b: seq<Entry>, accepted: seq<Entry>)
    requires Rising(a + [e] + b, accepted)
    ensures Rising(a + b, accepted)
  {
    var full := a + [e] + b;
    assert forall j :: 0 <= j < |a| ==> (a + b)[j] == full[j];
    assert forall j :: |a| <= j < |a + b| ==> (a + b)[j] == full[j + 1];
  }

  lemma RisingAppend(chain: seq<Entry>, accepted: seq<Entry>, e: Entry)
    requires Rising(chain, accepted) && e.id == |accepted|
    ensures Rising(chain + [e], accepted + [e])
  {
  }

  ghost predicate Ordered(s: State) {
    |s.consumers| == 1 && Rising(Chain(s), s.accepted)
  }

  /** Apart from an eviction, which drops one element, and an arrival, which appends one, no step
      changes the chain: an entry put back returns in front of everything younger. */
  lemma ChainKept(s: State, step: Step)
    requires |s.consumers| == 1
    requires step.Take? || step.Dispose? || (step.Insert? && s.section.Ready? && s.section.op.Return?)
    ensures |Do(s, step).consumers| == 1 && Chain(Do(s, step)) == Chain(s)
  {
    match step
    case Take(i) =>
      if DoTake(s, i) != s && s.list != [] { Regroup(s.disposed, [s.list[0]], s.list[1..], s.list); }
    case Dispose(_) =>
    case Insert =>
  }

  lemma Regroup(a: seq<Entry>, b: seq<Entry>, c: seq<Entry>, bc: seq<Entry>)
    requires b + c == bc
    ensures a + b + c == a + [] + bc
  {
  }

  lemma OrderedCheck(s: State)
    requires Ordered(s)
    ensures Ordered(DoCheck(s))
  {
    var t := DoCheck(s);
    if t.list != s.list {
      var front := s.disposed + Hand(s.consumers[0]);
      assert Chain(t) == front + s.list[1..] && Chain(s) == front + [s.list[0]] + s.list[1..];
      RisingWithout(front, s.list[0], s.list[1..], s.accepted);
    }
  }

  lemma OrderedInsert(s: State)
    requires Ordered(s) && s.section.Ready?
    ensures Ordered(DoInsert(s))
  {
    if s.section.op.Arrive? {
      var e := Entry(|s.accepted|, s.section.op.size);
      assert Chain(DoInsert(s)) == Chain(s) + [e];
      RisingAppend(Chain(s), s.accepted, e);
    } else {
      ChainKept(s, Insert);
      assert Do(s, Insert) == DoInsert(s);
    }
  }

  lemma OrderedGrant(s: State, i: nat)
    requires Ordered(s)
    ensures Ordered(DoGrant(s, i))
  {
    assert Chain(DoGrant(s, i)) == Chain(s);
  }

  lemma OrderedSame(s: State, t: State)
    requires Ordered(s) && SamePlaces(s, t)
    ensures Ordered(t)
  {
  }

  lemma OrderedTake(s: State, i: nat)
    requires Ordered(s)
    ensures Ordered(DoTake(s, i))
  {
    ChainKept(s, Take(i));
    assert Do(s, Take(i)) == DoTake(s, i) && DoTake(s, i).accepted == s.accepted;
  }

  lemma OrderedDispose(s: State, i: nat)
    requires Ordered(s)
    ensures Ordered(DoDispose(s, i))
  {
    ChainKept(s, Dispose(i));
    assert Do(s, Dispose(i)) == DoDispose(s, i) && DoDispose(s, i).accepted == s.accepted;
  }

  lemma DoOrdered(s: State, step: Step)
    requires Ordered(s)
    ensures Ordered(Do(s, step))
  {
    match step
    case Grant(i) => OrderedGrant(s, i);
    case Take(i) => OrderedTake(s, i);
    case Dispose(i) => OrderedDispose(s, i);
    case Check => OrderedCheck(s);
    case Insert => if s.section.Ready? { OrderedInsert(s); }
    case _ =>
      PlacedOther(s, step);
      OrderedSame(s, Do(s, step));
  }

  lemma {:induction false} RunOrdered(s: State, steps: seq<Step>)
    requires Ordered(s)
    ensures Ordered(Run(s, steps))
    decreases |steps|
  {
    if steps != [] {
      DoOrdered(s, steps[0]);
      RunOrdered(Do(s, steps[0]), steps[1..]);
    }
  }

  /** With one consumer, what was disposed of, what is in hand and what is queued is a strictly
      increasing subsequence of the arrivals, also when `PutBack` meets a full queue. */
  lemma ArrivalOrderKept(steps: seq<Step>)
    ensures Ordered(Run(Init(1), steps))
  {
    RunOrdered(Init(1), steps);
  }

  // ----- The bound on the number of consumers is exact -----

  /** `k` consumers' waits are granted in turn. */
  function Grants(k: nat): seq<Step> {
    if k == 0 then [] else Grants(k - 1) + [Grant(k - 1)]
  }

  /** `k` producers run `Enqueue`, one after the other, on a queue that is not full. */
  function Fill(k: nat): seq<Step> {
    if k == 0 then [] else Fill(k - 1) + [Lock(Arrive(0)), Check, Insert, Release]
  }

  lemma FillOnce(s: State)
    requires s.section.Free? && s.semaphore < CAPACITY
    ensures var t := Do(Do(Do(Do(s, Lock(Arrive(0))), Check), Insert), Release);
      t.section.Free? && t.semaphore == s.semaphore + 1 && t.connected == s.connected && |t.list| == |s.list| + 1
      && t.consumers == s.consumers && t.artificial == s.artificial && t.failed == s.failed
  {
    var a := DoLock(s, Arrive(0));
    var b := DoCheck(a);
    assert b.section == Ready(Arrive(0), 0);
    var c := DoInsert(b);
    assert c.section.Inserted?;
  }

  lemma {:induction false} AfterFill(s: State, k: nat)
    requires s.section.Free? && s.semaphore == 0 && k <= CAPACITY
    ensures var t := Run(s, Fill(k));
      t.section.Free? && t.semaphore == k && t.connected == s.connected && |t.list| == |s.list| + k
      && t.consumers == s.consumers && t.artificial == s.artificial && t.failed == s.failed
  {
    if k > 0 {
      AfterFill(s, k - 1);
      var once := [Lock(Arrive(0)), Check, Insert, Release];
      RunAppend(s, Fill(k - 1), once);
      RunFour(Run(s, Fill(k - 1)), Lock(Arrive(0)), Check, Insert, Release);
      FillOnce(Run(s, Fill(k - 1)));
    }
  }

  lemma RunFour(s: State, a: Step, b: Step, c: Step, d: Step)
    ensures Run(s, [a, b, c, d]) == Do(Do(Do(Do(s, a), b), c), d)
  {
    RunAppend(s, [a], [b, c, d]);
    RunAppend(Do(s, a), [b], [c, d]);
    RunAppend(Do(Do(s, a), b), [c], [d]);
    RunOne(s, a);
    RunOne(Do(s, a), b);
    RunOne(Do(Do(s, a), b), c);
    RunOne(Do(Do(Do(s, a), b), c), d);
    assert [a, b, c, d] == [a] + [b, c, d] && [b, c, d] == [b] + [c, d] && [c, d] == [c] + [d];
  }

  lemma RunOne(s: State, a: Step)
    ensures Run(s, [a]) == Do(s, a)
  {
    assert [a][1..] == [];
  }

  lemma {:induction false} AfterGrants(s: State, k: nat)
    requires s.connected && k <= |s.consumers| && k <= s.semaphore
    requires forall i :: 0 <= i < |s.consumers| ==> s.consumers[i].Idle?
    ensures var t := Run(s, Grants(k));
      t.semaphore == s.semaphore - k && |t.consumers| == |s.consumers|
      && (forall i :: k <= i < |s.consumers| ==> t.consumers[i].Idle?) && t.connected
      && t.section == s.section && t.artificial == s.artificial && t.failed == s.failed
  {
    if k > 0 {
      AfterGrants(s, k - 1);
      RunAppend(s, Grants(k - 1), [Grant(k - 1)]);
      RunOne(Run(s, Grants(k - 1)), Grant(k - 1));
    }
  }

  /** CAPACITY consumers can all be granted their waits between a producer's eviction and its
      zero-timeout wait, which then fails. `limit` names CAPACITY, so that the runs are reasoned about
      and not computed. */
  lemma TrimCanFail(n: nat, limit: nat) returns (steps: seq<Step>)
    requires n >= limit == CAPACITY
    ensures Run(Init(n), steps).artificial == 0 && Run(Init(n), steps).failed > 0
  {
    var fill := [Connect] + Fill(limit);
    var s1 := Do(Init(n), Connect);
    var s2 := Run(Init(n), fill);
    RunOne(Init(n), Connect);
    RunAppend(Init(n), [Connect], Fill(limit));
    AfterFill(s1, limit);
    steps := fill + TrimUnderGrants(limit);
    RunAppend(Init(n), fill, TrimUnderGrants(limit));
    TrimFailsFrom(s2, limit);
  }

  /** A producer's trim round in which `k` waits are granted between eviction and acquisition. */
  function TrimUnderGrants(k: nat): seq<Step> {
    [Lock(Arrive(0))] + [Check] + Grants(k) + [Acquire]
  }

  lemma RunTrimUnderGrants(s: State, k: nat)
    ensures Run(s, TrimUnderGrants(k)) == Do(Run(Do(Do(s, Lock(Arrive(0))), Check), Grants(k)), Acquire)
  {
    RunOne(s, Lock(Arrive(0)));
    RunAppend(s, [Lock(Arrive(0))], [Check]);
    RunOne(Do(s, Lock(Arrive(0))), Check);
    RunAppend(s, [Lock(Arrive(0))] + [Check], Grants(k));
    RunAppend(s, [Lock(Arrive(0))] + [Check] + Grants(k), [Acquire]);
    RunOne(Run(Do(Do(s, Lock(Arrive(0))), Check), Grants(k)), Acquire);
  }

  lemma EvictAtLimit(s: State)
    requires s.section.Free? && s.semaphore == CAPACITY && s.list != []
    ensures var t := Do(Do(s, Lock(Arrive(0))), Check);
      t.section == Evicted(Arrive(0), 1) && t.semaphore == CAPACITY && t.connected == s.connected
      && t.consumers == s.consumers && t.artificial == s.artificial && t.failed == s.failed
  {
  }

  lemma TrimFailsFrom(s: State, limit: nat)
    requires s.section.Free? && s.semaphore == limit == CAPACITY && s.connected && s.list != []
    requires |s.consumers| >= limit && forall i :: 0 <= i < |s.consumers| ==> s.consumers[i].Idle?
    ensures var t := Run(s, TrimUnderGrants(limit)); t.artificial == s.artificial && t.failed == s.failed + 1
  {
    EvictAtLimit(s);
    RunTrimUnderGrants(s, limit);
    var b := Do(Do(s, Lock(Arrive(0))), Check);
    AfterGrants(b, limit);
    AcquireFails(Run(b, Grants(limit)));
  }

  lemma AcquireFails(s: State)
    requires s.section.Evicted? && s.semaphore == 0
    ensures Do(s, Acquire).artificial == s.artificial && Do(s, Acquire).failed == s.failed + 1
  {
  }

  /** The zero-timeout wait whose result the trim loop ignores always succeeds, in every run without
      `TerminateLoop`, if and only if there are fewer consumers than the queue holds entries. */
  lemma TrimNeverFailsIff(n: nat)
    ensures (forall steps: seq<Step> :: Run(Init(n), steps).artificial == 0 ==> Run(Init(n), steps).failed == 0)
            <==> n < CAPACITY
  {
    if n < CAPACITY {
      forall steps: seq<Step> | Run(Init(n), steps).artificial == 0 ensures Run(Init(n), steps).failed == 0 {
        TokenConservation(n, steps);
      }
    } else {
      var steps := TrimCanFail(n, CAPACITY);
    }
  }

  // ----- The sequential methods are uninterrupted runs -----

  /** The steps of one uninterrupted `Enqueue` or `PutBack`. */
  function Uninterrupted(s: State, op: Op): seq<Step> {
    if s.semaphore >= CAPACITY
    then [Lock(op), Check, Acquire, Check] + [Insert] + [Release]
    else [Lock(op), Check, Insert, Release]
  }

  /** What the call of an operation promises, as the methods specify it. */
  function CallSpec(s: State, op: Op): Contents
    requires s.semaphore >= CAPACITY ==> s.list != []
    requires op.Return? ==> op.consumer < |s.consumers| && s.consumers[op.consumer].InHand?
  {
    match op
    case Arrive(size) => EnqueueSpec(Contents(s.list, s.semaphore), Entry(|s.accepted|, size))
    case Return(i) => PutBackSpec(Contents(s.list, s.semaphore), s.consumers[i].entry)
  }

  /** The consumers after a call: one that put back has nothing in hand. */
  function AfterCall(s: State, op: Op): seq<Consumer>
    requires op.Return? ==> op.consumer < |s.consumers| && s.consumers[op.consumer].InHand?
  {
    if op.Return? then s.consumers[op.consumer := Idle] else s.consumers
  }

  /** The end of a call: insertion and release. */
  lemma InsertRelease(s: State)
    requires s.section.Ready? && s.semaphore < CAPACITY
    requires var op := s.section.op; op.Return? ==> op.consumer < |s.consumers| && s.consumers[op.consumer].InHand?
    ensures var t := Do(Do(s, Insert), Release);
      t.section.Free? && Contents(t.list, t.semaphore) == CallSpec(s, s.section.op)
      && t.consumers == AfterCall(s, s.section.op)
  {
    var u := DoInsert(s);
    assert u.section.Inserted? && u.semaphore == s.semaphore;
  }

  /** The begin of a call on a full queue: one round of trimming. */
  lemma TrimOnce(s: State, op: Op)
    requires s.section.Free? && s.semaphore == CAPACITY && s.list != []
    requires op.Return? ==> op.consumer < |s.consumers| && s.consumers[op.consumer].InHand?
    ensures var t := Do(Do(Do(Do(s, Lock(op)), Check), Acquire), Check);
      t.section == Ready(op, 1) && t.list == s.list[1..] && t.semaphore == CAPACITY - 1
      && t.consumers == s.consumers && t.accepted == s.accepted
  {
    var a := DoLock(s, op);
    var b := DoCheck(a);
    assert b.section == Evicted(op, 1);
    var c := DoAcquire(b);
    assert c.section == Trimming(op, 1) && c.semaphore == CAPACITY - 1;
  }

  lemma NoTrim(s: State, op: Op)
    requires s.section.Free? && s.semaphore < CAPACITY
    requires op.Return? ==> op.consumer < |s.consumers| && s.consumers[op.consumer].InHand?
    ensures var t := Do(Do(s, Lock(op)), Check);
      t.section == Ready(op, 0) && t.list == s.list && t.semaphore == s.semaphore
      && t.consumers == s.consumers && t.accepted == s.accepted
  {
  }

  lemma RunSix(s: State, a: Step, b: Step, c: Step, d: Step, e: Step, f: Step)
    ensures Run(s, [a, b, c, d] + [e] + [f]) == Do(Do(Do(Do(Do(Do(s, a), b), c), d), e), f)
  {
    RunFour(s, a, b, c, d);
    RunAppend(s, [a, b, c, d], [e]);
    RunOne(Run(s, [a, b, c, d]), e);
    RunAppend(s, [a, b, c, d] + [e], [f]);
    RunOne(Run(s, [a, b, c, d] + [e]), f);
  }

  lemma {:induction false} RunRecorded(s: State, steps: seq<Step>)
    requires Recorded(s)
    ensures Recorded(Run(s, steps))
    decreases |steps|
  {
    if steps != [] {
      DoRecorded(s, steps[0]);
      RunRecorded(Do(s, steps[0]), steps[1..]);
    }
  }

  /** An uninterrupted `Enqueue` or `PutBack` has exactly the effect its method promises. */
  lemma UninterruptedCall(s: State, op: Op)
    requires s.section.Free? && s.semaphore <= CAPACITY && (s.semaphore == CAPACITY ==> s.list != [])
    requires op.Return? ==> op.consumer < |s.consumers| && s.consumers[op.consumer].InHand?
    ensures var t := Run(s, Uninterrupted(s, op));
      && t.section.Free? && Contents(t.list, t.semaphore) == CallSpec(s, op)
      && t.consumers == AfterCall(s, op)
      && (Recorded(s) ==> t.size == TotalSize(t.list))
  {
    if Recorded(s) {
      RunRecorded(s, Uninterrupted(s, op));
    }
    if s.semaphore >= CAPACITY {
      RunSix(s, Lock(op), Check, Acquire, Check, Insert, Release);
      TrimOnce(s, op);
      InsertRelease(Do(Do(Do(Do(s, Lock(op)), Check), Acquire), Check));
    } else {
      RunFour(s, Lock(op), Check, Insert, Release);
      NoTrim(s, op);
      InsertRelease(Do(Do(s, Lock(op)), Check));
    }
  }

  // ----- Every step that can happen does -----

  /** An idle consumer is granted its wait if and only if there is a unit and the port is connected. */
  lemma GrantIff(s: State, i: nat)
    requires i < |s.consumers| && s.consumers[i].Idle?
    ensures Do(s, Grant(i)) ==
      if s.connected && s.semaphore > 0
      then s.(semaphore := s.semaphore - 1, consumers := s.consumers[i := Granted])
      else s
  {
  }

  lemma GrantsNeedConnect(s: State, step: Step)
    requires !s.connected && !step.Connect? && !step.Terminate?
    ensures !Do(s, step).connected && Waits(Do(s, step).consumers) <= Waits(s.consumers)
  {
    match step
    case Take(i) => if DoTake(s, i) != s { WaitsUpdate(s.consumers, i, DoTake(s, i).consumers[i]); }
    case Dispose(i) => if DoDispose(s, i) != s { WaitsUpdate(s.consumers, i, Idle); }
    case Insert =>
      if s.section.Ready? && s.section.op.Return? && DoInsert(s) != s {
        WaitsUpdate(s.consumers, s.section.op.consumer, Idle);
      }
    case _ =>
  }

  /** As long as the port is not connected no wait is granted, whatever producers enqueue. */
  lemma {:induction false} NoGrantsUnconnected(s: State, steps: seq<Step>)
    requires !s.connected && Connect !in steps && Terminate !in steps
    ensures !Run(s, steps).connected && Waits(Run(s, steps).consumers) <= Waits(s.consumers)
    decreases |steps|
  {
    if steps != [] {
      GrantsNeedConnect(s, steps[0]);
      NoGrantsUnconnected(Do(s, steps[0]), steps[1..]);
    }
  }

  /** Disconnecting keeps further waits from being granted; connecting lets them. */
  lemma ConnectionDecides(s: State, i: nat)
    requires i < |s.consumers| && s.consumers[i].Idle? && s.semaphore > 0
    ensures Do(Do(s, Disconnect), Grant(i)).consumers[i].Idle?
    ensures Do(Do(s, Connect), Grant(i)).consumers[i].Granted?
  {
  }

  /** After `TerminateLoop` an idle consumer is granted its wait, whatever the queue and the port were. */
  lemma TerminateWakes(s: State, i: nat)
    requires i < |s.consumers| && s.consumers[i].Idle?
    ensures Do(Do(s, Terminate), Grant(i)).consumers[i].Granted?
  {
  }

  /** Trimming an empty list is what `corrupt` records. */
  lemma EmptyTrimCorrupts(s: State)
    requires s.section.Trimming? && s.semaphore >= CAPACITY && s.list == []
    ensures Do(s, Check).corrupt
  {
  }

  /** A consumer that waits, dequeues and disposes. */
  function Serve(i: nat): seq<Step> {
    [Grant(i), Take(i)] + [Dispose(i)]
  }

  lemma RunTwo(s: State, a: Step, b: Step)
    ensures Run(s, [a, b]) == Do(Do(s, a), b)
  {
    RunAppend(s, [a], [b]);
    RunOne(s, a);
    RunOne(Do(s, a), b);
    assert [a, b] == [a] + [b];
  }

  predicate CanServe(s: State, i: nat) {
    && i < |s.consumers| && s.consumers[i].Idle? && s.connected && s.section.Free?
    && s.semaphore > 0 && s.list != []
  }

  /** The state when the head of the list is in the hand of consumer i. */
  function Taken(s: State, i: nat): State
    requires CanServe(s, i)
  {
    s.(semaphore := s.semaphore - 1, list := s.list[1..], size := s.size - s.list[0].size,
       consumers := s.consumers[i := InHand(s.list[0])])
  }

  lemma TakeIs(s: State, i: nat)
    requires CanServe(s, i)
    ensures Run(s, [Grant(i), Take(i)]) == Taken(s, i)
  {
    RunTwo(s, Grant(i), Take(i));
    assert s.consumers[i := Granted][i := InHand(s.list[0])] == s.consumers[i := InHand(s.list[0])];
  }

  /** One round of an undisturbed consumer disposes of the head of the list, and of nothing else. */
  lemma ServeIs(s: State, i: nat)
    requires CanServe(s, i)
    ensures Run(s, Serve(i)) ==
      s.(semaphore := s.semaphore - 1, list := s.list[1..], size := s.size - s.list[0].size,
         disposed := s.disposed + [s.list[0]])
  {
    TakeIs(s, i);
    RunAppend(s, [Grant(i), Take(i)], [Dispose(i)]);
    RunOne(Taken(s, i), Dispose(i));
    assert s.consumers[i := InHand(s.list[0])][i := Idle] == s.consumers;
  }

  /** Putting back undoes taking: list, units, recorded size and consumers are as before the wait. */
  lemma PutBackUndoesTake(s: State, i: nat)
    requires CanServe(s, i) && s.semaphore <= CAPACITY && s.size == TotalSize(s.list)
    ensures Run(s, [Grant(i), Take(i)] + [Lock(Return(i)), Check, Insert, Release]) == s
  {
    var t := Taken(s, i);
    TakeIs(s, i);
    RunAppend(s, [Grant(i), Take(i)], [Lock(Return(i)), Check, Insert, Release]);
    RunFour(t, Lock(Return(i)), Check, Insert, Release);
    ReturnIs(t, i, s.list[0]);
    assert [s.list[0]] + s.list[1..] == s.list;
    assert t.consumers[i := Idle] == s.consumers;
  }

  lemma ReturnIs(t: State, i: nat, e: Entry)
    requires t.section.Free? && i < |t.consumers| && t.consumers[i] == InHand(e) && t.semaphore < CAPACITY
    ensures Do(Do(Do(Do(t, Lock(Return(i))), Check), Insert), Release) ==
      t.(list := [e] + t.list, size := t.size + e.size, semaphore := t.semaphore + 1, consumers := t.consumers[i := Idle])
  {
    NoTrim(t, Return(i));
    var b := Do(Do(t, Lock(Return(i))), Check);
    assert b == t.(section := Ready(Return(i), 0));
    assert DoInsert(b).section == Inserted(Return(i), 0);
  }

  // ----- From arrival to disposal -----

  /** The entries for data of these sizes, numbered from `first`. */
  function Entries(first: nat, sizes: seq<UShort>): (r: seq<Entry>)
    ensures |r| == |sizes| && forall k :: 0 <= k < |r| ==> r[k] == Entry(first + k, sizes[k])
  {
    seq(|sizes|, k requires 0 <= k < |sizes| => Entry(first + k, sizes[k]))
  }

  /** One producer after the other runs `Enqueue`, undisturbed, on a queue that is not full. */
  function Arrivals(sizes: seq<UShort>): seq<Step> {
    if sizes == [] then []
    else Arrivals(sizes[..|sizes| - 1]) + [Lock(Arrive(sizes[|sizes| - 1])), Check, Insert, Release]
  }

  lemma ArriveIs(s: State, size: UShort)
    requires s.section.Free? && s.semaphore < CAPACITY
    ensures var e := Entry(|s.accepted|, size);
      Do(Do(Do(Do(s, Lock(Arrive(size))), Check), Insert), Release) ==
        s.(list := s.list + [e], size := s.size + size, semaphore := s.semaphore + 1, accepted := s.accepted + [e])
  {
    NoTrim(s, Arrive(size));
    var b := Do(Do(s, Lock(Arrive(size))), Check);
    assert b == s.(section := Ready(Arrive(size), 0));
    assert DoInsert(b).section == Inserted(Arrive(size), 0);
  }

  lemma {:induction false} ArrivalsAre(s: State, sizes: seq<UShort>)
    requires s.section.Free? && s.semaphore + |sizes| <= CAPACITY
    ensures var t, es := Run(s, Arrivals(sizes)), Entries(|s.accepted|, sizes);
      && t.list == s.list + es && t.accepted == s.accepted + es && t.semaphore == s.semaphore + |sizes|
      && t.section == s.section && t.consumers == s.consumers && t.connected == s.connected && t.disposed == s.disposed
    decreases |sizes|
  {
    var es := Entries(|s.accepted|, sizes);
    if sizes == [] {
      assert s.list + es == s.list && s.accepted + es == s.accepted;
    } else {
      var front, last := sizes[..|sizes| - 1], sizes[|sizes| - 1];
      ArrivalsAre(s, front);
      var u := Run(s, Arrivals(front));
      RunAppend(s, Arrivals(front), [Lock(Arrive(last)), Check, Insert, Release]);
      RunFour(u, Lock(Arrive(last)), Check, Insert, Release);
      ArriveIs(u, last);
      assert es == Entries(|s.accepted|, front) + [Entry(|u.accepted|, last)];
    }
  }

  function Serves(i: nat, k: nat): seq<Step> {
    if k == 0 then [] else Serve(i) + Serves(i, k - 1)
  }

  lemma {:induction false} ServesAre(s: State, i: nat, k: nat)
    requires i < |s.consumers| && s.consumers[i].Idle? && s.connected && s.section.Free?
    requires k <= s.semaphore && k <= |s.list|
    ensures var t := Run(s, Serves(i, k));
      && t.disposed == s.disposed + s.list[..k] && t.list == s.list[k..] && t.semaphore == s.semaphore - k
    decreases k
  {
    if k > 0 {
      RunAppend(s, Serve(i), Serves(i, k - 1));
      ServeIs(s, i);
      ServesAre(Run(s, Serve(i)), i, k - 1);
      assert [s.list[0]] + s.list[1..][..k - 1] == s.list[..k];
      assert s.list[1..][k - 1..] == s.list[k..];
    }
  }

  /** Whatever at most 256K data arrive at a connected queue, an undisturbed consumer disposes of all of them,
      in the order of their arrival, and leaves the queue as it was at the start. */
  lemma AllIsDelivered(sizes: seq<UShort>)
    requires |sizes| <= 0x40000
    ensures var t := Run(Init(1), [Connect] + Arrivals(sizes) + Serves(0, |sizes|));
      t.disposed == Entries(0, sizes) && t.list == [] && t.semaphore == 0
  {
    var s := Do(Init(1), Connect);
    RunOne(Init(1), Connect);
    RunAppend(Init(1), [Connect], Arrivals(sizes));
    RunAppend(Init(1), [Connect] + Arrivals(sizes), Serves(0, |sizes|));
    ArrivalsAre(s, sizes);
    var u := Run(s, Arrivals(sizes));
    ServesAre(u, 0, |sizes|);
    assert u.list == Entries(0, sizes);
    assert u.list[..|sizes|] == u.list;
  }
}
