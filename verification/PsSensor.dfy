/**
The process sensor: one records request refreshes the array of processes and reads it back, while
a worker thread refreshes the same array for its own purposes. The class has the loops of the
sensor; the machine interleaves requests and worker runs, which the sensor lock serialises.
*/
module PsSensor {
  import opened RecordSlots

  datatype Process = Process(pid: int, uid: nat, comm: string)

  /** The outcome of a request: an error code with the replies linked so far, and the array left. */
  datatype Outcome = Outcome(ccode: int, replies: seq<Reply<Process>>, slots: seq<Slot<Process>>)

  /** A request on an array: more processes than slots fail it before the first reply. */
  function RequestSpec(slots: seq<Slot<Process>>, running: seq<Process>, nonce: Nonce): Outcome {
    var filled := Fill(slots, running, nonce, |running|);
    if |running| > |slots| then Outcome(-ENOMEM, [], filled)
    else Outcome(0, Drain(filled, 0, nonce), Drained(filled, 0, nonce))
  }

  /** The same when buffers (`available`) or reply messages (`linkable`) cannot be allocated in some rounds
      of the loop; without a buffer for the first round there is not even a refresh. */
  function RequestWith(slots: seq<Slot<Process>>, running: seq<Process>, nonce: Nonce,
                       available: nat -> bool, linkable: nat -> bool): Outcome
  {
    var filled := Fill(slots, running, nonce, |running|);
    if !available(0) then Outcome(-ENOMEM, [], slots)
    else if |running| > |slots| then Outcome(-ENOMEM, [], filled)
    else
      var (replies, left, short) := Partial(filled, nonce, available, linkable);
      Outcome(if short then -ENOMEM else 0, replies, left)
  }

  lemma WithoutFailures(slots: seq<Slot<Process>>, running: seq<Process>, nonce: Nonce,
                        available: nat -> bool, linkable: nat -> bool)
    requires (forall i: nat :: available(i)) && forall i: nat :: linkable(i)
    ensures RequestWith(slots, running, nonce, available, linkable) == RequestSpec(slots, running, nonce)
  {
    PartialIsWhole(Fill(slots, running, nonce, |running|), nonce, available, linkable);
  }

  /** A request fails without a reply if the processes do not fit; otherwise it yields all of them
      and the terminator, if and only if the slot behind the last one stops the reader. */
  lemma RequestIsSnapshotIff(slots: seq<Slot<Process>>, running: seq<Process>, nonce: Nonce)
    ensures var o := RequestSpec(slots, running, nonce);
      && (|running| > |slots| ==> o.ccode == -12 && o.replies == [])
      && (|running| <= |slots| ==>
            && o.ccode == 0
            && (o.replies == Snapshot(running, 0) <==>
                  |running| == |slots| || slots[|running|].Cleared?
                  || (nonce != 0 && slots[|running|].nonce != nonce)))
      && (|running| <= |slots| && Fresh(slots, nonce) ==> o.replies == Snapshot(running, 0))
  {
    if |running| <= |slots| {
      SnapshotIff(slots, running, nonce);
    }
  }

  /** On the array as it is preallocated, a request that draws the nonce 0 does not get its snapshot
      as long as there are fewer processes than slots. */
  lemma ZeroNonceMisses(size: nat, running: seq<Process>)
    requires |running| < size
    ensures var zeroed := seq(size, _ => Filled(0, Process(0, 0, "")));
      RequestSpec(zeroed, running, 0).replies != Snapshot(running, 0)
  {
    RequestIsSnapshotIff(seq(size, _ => Filled(0, Process(0, 0, ""))), running, 0);
  }

  /** The state of the loop over the records before round `index`. */
  ghost predicate Looping(base: seq<Slot<Process>>, now: seq<Slot<Process>>, running: seq<Process>, nonce: Nonce,
                          index: nat, more: bool, ccode: int, all: seq<Reply<Process>>, replies: seq<Reply<Process>>,
                          available: nat -> bool, linkable: nat -> bool)
  {
    var start := Fill(base, running, nonce, |running|);
    if index == 0 then more && ccode == 0 && now == base && all == [] && replies == []
    else if |running| > |base| then !more && ccode == -ENOMEM && now == start && replies == []
    else ccode == 0 && Progress(start, now, index, nonce, all, replies, !more, available, linkable)
  }

  lemma LoopCut(base: seq<Slot<Process>>, now: seq<Slot<Process>>, running: seq<Process>, nonce: Nonce, index: nat,
                all: seq<Reply<Process>>, replies: seq<Reply<Process>>, available: nat -> bool, linkable: nat -> bool)
    requires Looping(base, now, running, nonce, index, true, 0, all, replies, available, linkable)
    requires !available(index) && (index > 0 ==> available(0))
    ensures Outcome(-ENOMEM, replies, now) == RequestWith(base, running, nonce, available, linkable)
  {
    if index > 0 {
      ProgressCut(Fill(base, running, nonce, |running|), now, index, nonce, all, replies, available, linkable);
    }
  }

  lemma LoopDone(base: seq<Slot<Process>>, now: seq<Slot<Process>>, running: seq<Process>, nonce: Nonce, index: nat,
                 ccode: int, all: seq<Reply<Process>>, replies: seq<Reply<Process>>,
                 available: nat -> bool, linkable: nat -> bool)
    requires Looping(base, now, running, nonce, index, false, ccode, all, replies, available, linkable) && available(0)
    ensures Outcome(ccode, replies, now) == RequestWith(base, running, nonce, available, linkable)
  {
    if |running| <= |base| {
      ProgressDone(Fill(base, running, nonce, |running|), now, index, nonce, all, replies, available, linkable);
    }
  }

  class KpsSensor {
    const slots: array<Slot<Process>>

    /** The array is preallocated with zeroes. */
    constructor (size: nat)
      ensures fresh(slots) && slots.Length == size
      ensures forall j :: 0 <= j < size ==> slots[j] == Filled(0, Process(0, 0, ""))
    {
      slots := new Slot<Process>[size](_ => Filled(0, Process(0, 0, "")));
    }

    /** Copies the running processes into the array; -ENOMEM if they do not all fit. */
    method KernelPsUnlocked(running: seq<Process>, nonce: Nonce) returns (index: int)
      modifies slots
      ensures slots[..] == Fill(old(slots[..]), running, nonce, |running|)
      ensures index == if |running| <= slots.Length then |running| else -ENOMEM
    {
      index := 0;
      for task := 0 to |running|
        invariant index == task <= slots.Length
        invariant slots[..] == Fill(old(slots[..]), running, nonce, task)
      {
        if index < slots.Length {
          slots[index] := Filled(nonce, running[task]);
        } else {
          return -ENOMEM;
        }
        index := index + 1;
      }
    }

    /** Reads, and clears, the slot at `index`, after a refresh if `runProbe`. */
    method KernelPsGetRecord(running: seq<Process>, runProbe: bool, nonce: Nonce, index: nat)
      returns (ccode: int, reply: Reply<Process>)
      modifies slots
      ensures var now := if runProbe then Fill(old(slots[..]), running, nonce, |running|) else old(slots[..]);
        if runProbe && |running| > slots.Length
        then ccode == -ENOMEM && slots[..] == now
        else ccode == 0 && reply == ReadSlot(now, index, nonce) && slots[..] == ClearSlot(now, index)
    {
      reply := Terminator;
      if runProbe {
        var count := KernelPsUnlocked(running, nonce);
        if count < 0 {
          return count, reply;
        }
      }
      if index < slots.Length && slots[index].Filled? && !(nonce != 0 && slots[index].nonce != nonce) {
        reply := Record(index, slots[index].payload);
      }
      if index < slots.Length {
        slots[index] := Cleared;
      }
      ccode := 0;
    }

    /** One round of the loop over the records, after a refresh in the first: reads, and links the reply
        if its message can be allocated. */
    method ReadRound(running: seq<Process>, nonce: Nonce, index: nat, linkable: nat -> bool, linked: seq<Reply<Process>>,
                     ghost base: seq<Slot<Process>>, ghost all: seq<Reply<Process>>, ghost available: nat -> bool)
      returns (ccode: int, replies: seq<Reply<Process>>, more: bool, ghost seen: seq<Reply<Process>>)
      requires available(index)
      requires Looping(base, slots[..], running, nonce, index, true, 0, all, linked, available, linkable)
      modifies slots
      ensures Looping(base, slots[..], running, nonce, index + 1, more, ccode, seen, replies, available, linkable)
      ensures more ==> ccode == 0 && index < slots.Length
    {
      ghost var start := Fill(base, running, nonce, |running|);
      ghost var before := if index == 0 then start else slots[..];
      var reply;
      ccode, reply := KernelPsGetRecord(running, index == 0, nonce, index);
      replies := linked;
      if ccode >= 0 {
        if index == 0 {
          ProgressStart(start, nonce, available, linkable);
        }
        ProgressStep(start, before, index, nonce, all, linked, available, linkable);
        replies := linked + (if linkable(index) then [reply] else []);
      }
      seen := all + [reply];
      more := ccode == 0 && reply != Terminator;
    }

    /** The loop over the records, from one lock of the sensor to its unlock. */
    method ProcessRecordsRequest(running: seq<Process>, nonce: Nonce, available: nat -> bool, linkable: nat -> bool)
      returns (ccode: int, replies: seq<Reply<Process>>)
      modifies slots
      ensures Outcome(ccode, replies, slots[..]) == RequestWith(old(slots[..]), running, nonce, available, linkable)
    {
      ghost var base := slots[..];
      ghost var all: seq<Reply<Process>> := [];
      ccode, replies := 0, [];
      var index: nat, more := 0, true;
      while more
        invariant Looping(base, slots[..], running, nonce, index, more, ccode, all, replies, available, linkable)
        invariant (index > 0 ==> available(0)) && (more ==> ccode == 0 && index <= slots.Length) && |base| == slots.Length
        decreases more, slots.Length - index
      {
        if !available(index) {
          LoopCut(base, slots[..], running, nonce, index, all, replies, available, linkable);
          return -ENOMEM, replies;
        }
        ccode, replies, more, all := ReadRound(running, nonce, index, linkable, replies, base, all, available);
        index := index + 1;
      }
      LoopDone(base, slots[..], running, nonce, index, ccode, all, replies, available, linkable);
    }
  }
}
