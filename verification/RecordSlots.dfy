/**
The preallocated arrays in which the Linux kernel sensors keep their records.

A refresh overwrites the first slots and tags them with a nonce; it never clears the rest, so
records of earlier refreshes stay behind as a stale tail. A reader asks for slot after slot, clears
each slot it read, and stops at a slot that is cleared or carries another nonce.
*/
module RecordSlots {

  /** A random 64-bit number that names one refresh; 0 disables the comparison of nonces. */
  type Nonce = x: int | 0 <= x < 0x1_0000_0000_0000_0000

  /** An element of a flexible array: cleared (every byte is FLEX_ARRAY_FREE), or a record.
      A preallocated element is zero, that is, a record with nonce 0. */
  datatype Slot<T> = Cleared | Filled(nonce: Nonce, payload: T)

  /** One reply message: a record with its index, or the empty record that ends a response. */
  datatype Reply<T> = Record(index: nat, payload: T) | Terminator

  /** A refresh that does not fit, or an allocation that fails, is reported with this number negated. */
  const ENOMEM: int := 12

  function Min(a: nat, b: nat): nat {
    if a <= b then a else b
  }

  /** Slot i ends a response: it is beyond the array, cleared, or (for a non-zero nonce) foreign. */
  predicate Stops<T>(slots: seq<Slot<T>>, i: nat, nonce: Nonce) {
    i >= |slots| || slots[i].Cleared? || (nonce != 0 && slots[i].nonce != nonce)
  }

  function ReadSlot<T>(slots: seq<Slot<T>>, i: nat, nonce: Nonce): Reply<T> {
    if Stops(slots, i, nonce) then Terminator else Record(i, slots[i].payload)
  }

  function ClearSlot<T>(slots: seq<Slot<T>>, i: nat): (r: seq<Slot<T>>)
    ensures |r| == |slots|
  {
    if i < |slots| then slots[i := Cleared] else slots
  }

  /** The array after the first `k` items were put: overruns are dropped. */
  function Fill<T>(slots: seq<Slot<T>>, items: seq<T>, nonce: Nonce, k: nat): (r: seq<Slot<T>>)
    requires k <= |items|
    ensures |r| == |slots|
    ensures forall j :: 0 <= j < |r| ==> r[j] == if j < k then Filled(nonce, items[j]) else slots[j]
  {
    if k == 0 then slots
    else
      var r := Fill(slots, items, nonce, k - 1);
      if k - 1 < |r| then r[k - 1 := Filled(nonce, items[k - 1])] else r
  }

  lemma FillStep<T>(slots: seq<Slot<T>>, items: seq<T>, nonce: Nonce, k: nat)
    requires k < |items| && k < |slots|
    ensures Fill(slots, items, nonce, k)[k := Filled(nonce, items[k])] == Fill(slots, items, nonce, k + 1)
  {
  }

  /** The replies to reading and clearing slot after slot, from slot i to the first that stops. */
  function Drain<T>(slots: seq<Slot<T>>, i: nat, nonce: Nonce): seq<Reply<T>>
    decreases |slots| - i
  {
    if Stops(slots, i, nonce) then [Terminator]
    else [ReadSlot(slots, i, nonce)] + Drain(ClearSlot(slots, i), i + 1, nonce)
  }

  /** The array after that. */
  function Drained<T>(slots: seq<Slot<T>>, i: nat, nonce: Nonce): seq<Slot<T>>
    decreases |slots| - i
  {
    if Stops(slots, i, nonce) then ClearSlot(slots, i)
    else Drained(ClearSlot(slots, i), i + 1, nonce)
  }

  /** What a client wants: all items in order, numbered from i, then the terminator. */
  function Snapshot<T>(items: seq<T>, i: nat): seq<Reply<T>>
    requires i <= |items|
    decreases |items| - i
  {
    if i == |items| then [Terminator] else [Record(i, items[i])] + Snapshot(items, i + 1)
  }

  lemma {:induction false} SnapshotShape<T>(items: seq<T>, i: nat)
    requires i <= |items|
    ensures var s := Snapshot(items, i);
      |s| == |items| - i + 1 && s[|items| - i] == Terminator
      && forall k :: 0 <= k < |items| - i ==> s[k] == Record(i + k, items[i + k])
    decreases |items| - i
  {
    if i < |items| {
      var rest := Snapshot(items, i + 1);
      SnapshotShape(items, i + 1);
      assert Snapshot(items, i) == [Record(i, items[i])] + rest;
      forall k | 0 < k < |items| - i ensures Snapshot(items, i)[k] == Record(i + k, items[i + k]) {
        assert Snapshot(items, i)[k] == rest[k - 1];
      }
    }
  }

  lemma ConsCancels<T>(x: T, a: seq<T>, b: seq<T>)
    ensures [x] + a == [x] + b <==> a == b
  {
    assert ([x] + a)[1..] == a && ([x] + b)[1..] == b;
  }

  /** While the items last, draining yields them, whatever the slots before i hold. */
  lemma {:induction false} DrainFollowsSnapshot<T>(slots: seq<Slot<T>>, items: seq<T>, nonce: Nonce, i: nat)
    requires i <= |items| <= |slots|
    requires forall j :: i <= j < |items| ==> slots[j] == Filled(nonce, items[j])
    ensures Drain(slots, i, nonce) == Snapshot(items, i) <==> Stops(slots, |items|, nonce)
    decreases |items| - i
  {
    if i < |items| {
      var rest := ClearSlot(slots, i);
      DrainFollowsSnapshot(rest, items, nonce, i + 1);
      ConsCancels(Record(i, items[i]), Drain(rest, i + 1, nonce), Snapshot(items, i + 1));
    } else if !Stops(slots, i, nonce) {
      assert Drain(slots, i, nonce)[0] != Terminator;
    }
  }

  /** Draining clears what it read and the slot that stopped it, and nothing else. */
  lemma {:induction false} DrainedSlots<T>(slots: seq<Slot<T>>, items: seq<T>, nonce: Nonce, i: nat)
    requires i <= |items| <= |slots|
    requires forall j :: i <= j < |items| ==> slots[j] == Filled(nonce, items[j])
    requires Stops(slots, |items|, nonce)
    ensures var r := Drained(slots, i, nonce);
      |r| == |slots|
      && forall j :: 0 <= j < |slots| ==> r[j] == if i <= j <= |items| then Cleared else slots[j]
    decreases |items| - i
  {
    if i < |items| {
      DrainedSlots(ClearSlot(slots, i), items, nonce, i + 1);
    }
  }

  /** A refresh followed by a read is a snapshot exactly when the slot behind the last item stops
      the reader: stale data does no harm unless it carries the same nonce, or the nonce is 0. */
  lemma RefreshThenDrain<T>(slots: seq<Slot<T>>, items: seq<T>, nonce: Nonce)
    requires |items| <= |slots|
    ensures Drain(Fill(slots, items, nonce, |items|), 0, nonce) == Snapshot(items, 0)
            <==> Stops(slots, |items|, nonce)
    ensures Stops(slots, |items|, nonce) ==>
      var r := Drained(Fill(slots, items, nonce, |items|), 0, nonce);
      |r| == |slots|
      && forall j :: 0 <= j < |slots| ==> r[j] == if j <= |items| then Cleared else slots[j]
  {
    var filled := Fill(slots, items, nonce, |items|);
    DrainFollowsSnapshot(filled, items, nonce, 0);
    if Stops(slots, |items|, nonce) {
      DrainedSlots(filled, items, nonce, 0);
    }
  }

  /** The same in terms of the array: the slot behind the last item, if there is one, is cleared or, for a
      non-zero nonce, carries another. */
  lemma SnapshotIff<T>(slots: seq<Slot<T>>, items: seq<T>, nonce: Nonce)
    requires |items| <= |slots|
    ensures Drain(Fill(slots, items, nonce, |items|), 0, nonce) == Snapshot(items, 0) <==>
      (|items| == |slots| || slots[|items|].Cleared? || (nonce != 0 && slots[|items|].nonce != nonce))
  {
    RefreshThenDrain(slots, items, nonce);
  }

  /** A nonce that occurs nowhere. */
  ghost predicate Fresh<T>(slots: seq<Slot<T>>, nonce: Nonce) {
    nonce != 0 && forall j :: 0 <= j < |slots| && slots[j].Filled? ==> slots[j].nonce != nonce
  }

  /** The state of a reading loop that began on `start`: the replies so far, and what is to come. */
  ghost predicate Reading<T>(start: seq<Slot<T>>, now: seq<Slot<T>>, i: nat, nonce: Nonce,
                             replies: seq<Reply<T>>, done: bool)
  {
    && |now| == |start|
    && Drain(start, 0, nonce) == replies + (if done then [] else Drain(now, i, nonce))
    && Drained(start, 0, nonce) == (if done then now else Drained(now, i, nonce))
  }

  lemma ReadingStep<T>(start: seq<Slot<T>>, now: seq<Slot<T>>, i: nat, nonce: Nonce, replies: seq<Reply<T>>)
    requires Reading(start, now, i, nonce, replies, false)
    ensures Reading(start, ClearSlot(now, i), i + 1, nonce, replies + [ReadSlot(now, i, nonce)], Stops(now, i, nonce))
  {
    var reply, rest := ReadSlot(now, i, nonce), Drain(ClearSlot(now, i), i + 1, nonce);
    if Stops(now, i, nonce) {
      assert replies + [reply] + [] == replies + [Terminator];
    } else {
      assert replies + ([reply] + rest) == replies + [reply] + rest;
    }
  }

  // ----- The loop of a records request, with its allocations -----

  /** The array after its first k slots were read, and so cleared. */
  function ReadTo<T>(slots: seq<Slot<T>>, k: nat): (r: seq<Slot<T>>)
    ensures |r| == |slots|
    ensures forall j :: 0 <= j < |r| ==> r[j] == if j < k then Cleared else slots[j]
  {
    seq(|slots|, j requires 0 <= j < |slots| => if j < k then Cleared else slots[j])
  }

  /** The replies for which a message could be allocated; the others are dropped silently. */
  function Linked<T>(replies: seq<Reply<T>>, linkable: nat -> bool): seq<Reply<T>> {
    if replies == [] then []
    else
      var last := |replies| - 1;
      Linked(replies[..last], linkable) + (if linkable(last) then [replies[last]] else [])
  }

  /** The first round whose buffer cannot be allocated; n if none before round n. */
  function FirstMissing(available: nat -> bool, n: nat): (k: nat)
    ensures k <= n && (k < n ==> !available(k)) && forall j: nat :: j < k ==> available(j)
  {
    if n == 0 then 0
    else
      var k := FirstMissing(available, n - 1);
      if k < n - 1 || !available(n - 1) then k else n
  }

  /** What the loop reads of a refreshed array: the replies linked, the array left, and whether a missing
      buffer cut it short. */
  function Partial<T>(start: seq<Slot<T>>, nonce: Nonce, available: nat -> bool, linkable: nat -> bool)
    : (seq<Reply<T>>, seq<Slot<T>>, bool)
  {
    var full := Drain(start, 0, nonce);
    var cut := FirstMissing(available, |full|);
    (Linked(full[..cut], linkable), ReadTo(start, cut), cut < |full|)
  }

  /** The state of the loop before round i; `all` are the replies read, `linked` those linked. */
  ghost predicate Progress<T>(start: seq<Slot<T>>, now: seq<Slot<T>>, i: nat, nonce: Nonce, all: seq<Reply<T>>,
                              linked: seq<Reply<T>>, done: bool, available: nat -> bool, linkable: nat -> bool)
  {
    && Reading(start, now, i, nonce, all, done) && |all| == i
    && now == ReadTo(start, i) && linked == Linked(all, linkable)
    && forall j: nat :: j < i ==> available(j)
  }

  lemma ProgressStart<T>(start: seq<Slot<T>>, nonce: Nonce, available: nat -> bool, linkable: nat -> bool)
    ensures Progress(start, start, 0, nonce, [], [], false, available, linkable)
  {
  }

  lemma LinkedStep<T>(all: seq<Reply<T>>, r: Reply<T>, linkable: nat -> bool)
    ensures Linked(all + [r], linkable) == Linked(all, linkable) + (if linkable(|all|) then [r] else [])
  {
    assert (all + [r])[..|all|] == all;
  }

  lemma ProgressStep<T>(start: seq<Slot<T>>, now: seq<Slot<T>>, i: nat, nonce: Nonce, all: seq<Reply<T>>,
                        linked: seq<Reply<T>>, available: nat -> bool, linkable: nat -> bool)
    requires Progress(start, now, i, nonce, all, linked, false, available, linkable) && available(i)
    ensures var r := ReadSlot(now, i, nonce);
      Progress(start, ClearSlot(now, i), i + 1, nonce, all + [r], linked + (if linkable(i) then [r] else []),
               Stops(now, i, nonce), available, linkable)
  {
    var r := ReadSlot(now, i, nonce);
    ReadingStep(start, now, i, nonce, all);
    LinkedStep(all, r, linkable);
    assert ClearSlot(now, i) == ReadTo(start, i + 1);
  }

  lemma ProgressDone<T>(start: seq<Slot<T>>, now: seq<Slot<T>>, i: nat, nonce: Nonce, all: seq<Reply<T>>,
                        linked: seq<Reply<T>>, available: nat -> bool, linkable: nat -> bool)
    requires Progress(start, now, i, nonce, all, linked, true, available, linkable)
    ensures Partial(start, nonce, available, linkable) == (linked, now, false)
  {
    assert Drain(start, 0, nonce) == all && all[..|all|] == all;
    assert FirstMissing(available, |all|) == |all|;
  }

  lemma ProgressCut<T>(start: seq<Slot<T>>, now: seq<Slot<T>>, i: nat, nonce: Nonce, all: seq<Reply<T>>,
                       linked: seq<Reply<T>>, available: nat -> bool, linkable: nat -> bool)
    requires Progress(start, now, i, nonce, all, linked, false, available, linkable) && !available(i)
    ensures Partial(start, nonce, available, linkable) == (linked, now, true)
  {
    var full := Drain(start, 0, nonce);
    assert full == all + Drain(now, i, nonce) && |Drain(now, i, nonce)| > 0;
    assert FirstMissing(available, |full|) == i && full[..i] == all;
  }

  // ----- Without failures -----

  lemma {:induction false} LinkedAll<T>(replies: seq<Reply<T>>, linkable: nat -> bool)
    requires forall i: nat :: linkable(i)
    ensures Linked(replies, linkable) == replies
  {
    if replies != [] {
      LinkedAll(replies[..|replies| - 1], linkable);
      assert replies[..|replies| - 1] + [replies[|replies| - 1]] == replies;
    }
  }

  lemma {:induction false} DrainedIsReadTo<T>(start: seq<Slot<T>>, i: nat, nonce: Nonce)
    ensures Drained(ReadTo(start, i), i, nonce) == ReadTo(start, i + |Drain(ReadTo(start, i), i, nonce)|)
    decreases |start| - i
  {
    var now := ReadTo(start, i);
    assert ClearSlot(now, i) == ReadTo(start, i + 1);
    if !Stops(now, i, nonce) {
      DrainedIsReadTo(start, i + 1, nonce);
    }
  }

  /** If every allocation succeeds, the loop reads and links all there is to read. */
  lemma PartialIsWhole<T>(start: seq<Slot<T>>, nonce: Nonce, available: nat -> bool, linkable: nat -> bool)
    requires (forall i: nat :: available(i)) && forall i: nat :: linkable(i)
    ensures Partial(start, nonce, available, linkable) == (Drain(start, 0, nonce), Drained(start, 0, nonce), false)
  {
    var full := Drain(start, 0, nonce);
    assert FirstMissing(available, |full|) == |full| && full[..|full|] == full;
    LinkedAll(full, linkable);
    assert ReadTo(start, 0) == start;
    DrainedIsReadTo(start, 0, nonce);
  }

  /** Linked reply k is reply i of all, and the ones before it come from before it. */
  ghost predicate Origin<T>(replies: seq<Reply<T>>, linkable: nat -> bool, k: nat, i: nat)
    requires k < |Linked(replies, linkable)|
  {
    && k <= i < |replies| && linkable(i) && Linked(replies, linkable)[k] == replies[i]
    && Linked(replies[..i], linkable) == Linked(replies, linkable)[..k]
  }

  /** Whatever fails, the replies linked are those of the whole response before the first missing buffer,
      less the ones dropped: in particular, a snapshot loses items but never reorders or invents one. */
  lemma {:induction false} LinkedAt<T>(replies: seq<Reply<T>>, linkable: nat -> bool, k: nat)
    requires k < |Linked(replies, linkable)|
    ensures exists i: nat :: Origin(replies, linkable, k, i)
    decreases |replies|
  {
    var last := |replies| - 1;
    var front := replies[..last];
    LinkedNoLonger(front, linkable);
    if k < |Linked(front, linkable)| {
      LinkedAt(front, linkable, k);
      var i: nat :| Origin(front, linkable, k, i);
      assert front[..i] == replies[..i] && front[i] == replies[i];
      assert Origin(replies, linkable, k, i);
    } else {
      assert k == |Linked(front, linkable)| && linkable(last) && Linked(replies, linkable)[k] == replies[last];
      assert Linked(replies, linkable)[..k] == Linked(front, linkable);
      assert Origin(replies, linkable, k, last);
    }
  }

  /** And every reply that could be linked is there. */
  lemma {:induction false} LinkedHas<T>(replies: seq<Reply<T>>, linkable: nat -> bool, i: nat)
    requires i < |replies| && linkable(i)
    ensures exists k: nat :: k < |Linked(replies, linkable)| && Origin(replies, linkable, k, i)
    decreases |replies|
  {
    var last := |replies| - 1;
    var front := replies[..last];
    LinkedNoLonger(front, linkable);
    if i < last {
      LinkedHas(front, linkable, i);
      var k: nat :| k < |Linked(front, linkable)| && Origin(front, linkable, k, i);
      assert front[..i] == replies[..i] && front[i] == replies[i];
      assert Origin(replies, linkable, k, i);
    } else {
      var k := |Linked(front, linkable)|;
      assert Linked(replies, linkable)[..k] == Linked(front, linkable);
      assert Origin(replies, linkable, k, i);
    }
  }

  lemma {:induction false} LinkedNoLonger<T>(replies: seq<Reply<T>>, linkable: nat -> bool)
    ensures |Linked(replies, linkable)| <= |replies|
  {
    if replies != [] {
      LinkedNoLonger(replies[..|replies| - 1], linkable);
    }
  }

  /** On an array as it is preallocated every non-zero nonce is fresh. */
  lemma ZeroedIsFresh<T>(slots: seq<Slot<T>>, nonce: Nonce)
    requires nonce != 0 && forall j :: 0 <= j < |slots| ==> slots[j].Filled? && slots[j].nonce == 0
    ensures Fresh(slots, nonce)
  {
  }
}
