/**
The probe data queue of the Windows driver: a list guarded by a spinlock, and a
counting semaphore that says how many entries a consumer may still claim.

`Contents` is the abstract queue (the list and the semaphore count); the class
`QueueManager` has the fields and loops of the driver and is proved against it.
One method call is one thread running alone; the interleavings of several threads
are the business of ProbeQueueMachine.
*/
module ProbeQueue {
  import opened Wrappers

  /** The maximum number of entries, 256K. */
  const CAPACITY: nat := 0x40000

  /** `data_sz` is an unsigned 16-bit field, so its negation never wraps. */
  type UShort = x: int | 0 <= x < 0x1_0000

  /** A probe data header; `id` numbers the entries in their order of arrival. */
  datatype Entry = Entry(id: nat, size: UShort)

  /** The list and the semaphore count. */
  datatype Contents = Contents(list: seq<Entry>, count: nat)

  function TotalSize(q: seq<Entry>): int {
    if q == [] then 0 else q[0].size + TotalSize(q[1..])
  }

  lemma {:induction false} TotalSizeAppend(q: seq<Entry>, e: Entry)
    ensures TotalSize(q + [e]) == TotalSize(q) + e.size
  {
    if q == [] {
      assert q + [e] == [e];
    } else {
      TotalSizeAppend(q[1..], e);
      assert (q + [e])[1..] == q[1..] + [e];
    }
  }

  /** What making room does: a full semaphore costs the oldest entry and one unit. */
  function MakeRoom(c: Contents): Contents
    requires c.count >= CAPACITY ==> c.list != []
  {
    if c.count >= CAPACITY then Contents(c.list[1..], c.count - 1) else c
  }

  function EnqueueSpec(c: Contents, e: Entry): Contents
    requires c.count >= CAPACITY ==> c.list != []
  {
    var r := MakeRoom(c);
    Contents(r.list + [e], r.count + 1)
  }

  function PutBackSpec(c: Contents, e: Entry): Contents
    requires c.count >= CAPACITY ==> c.list != []
  {
    var r := MakeRoom(c);
    Contents([e] + r.list, r.count + 1)
  }

  /** Enqueuing one entry after another while no consumer takes anything. */
  function EnqueueAll(c: Contents, items: seq<Entry>): Contents
    requires c.count == |c.list| <= CAPACITY
    decreases |items|
  {
    if items == [] then c else EnqueueAll(EnqueueSpec(c, items[0]), items[1..])
  }

  function Last(s: seq<Entry>, n: nat): seq<Entry> {
    if |s| <= n then s else s[|s| - n..]
  }

  lemma LastIs(s: seq<Entry>, n: nat)
    ensures var r := Last(s, n);
      && |r| == (if |s| <= n then |s| else n)
      && forall k :: 0 <= k < |r| ==> r[k] == s[|s| - |r| + k]
  {
  }

  /** Drop-oldest: whatever is enqueued, exactly the newest CAPACITY entries stay, in order. */
  lemma {:induction false} DropOldest(c: Contents, items: seq<Entry>)
    requires c.count == |c.list| <= CAPACITY
    ensures var r := EnqueueAll(c, items);
            r.list == Last(c.list + items, 0x4_0000) && r.count == |r.list|
    decreases |items|
  {
    if items == [] {
      assert c.list + items == c.list;
    } else {
      var next := EnqueueSpec(c, items[0]);
      DropOldest(next, items[1..]);
      if c.count >= CAPACITY {
        assert next.list + items[1..] == (c.list + items)[1..];
      } else {
        assert next.list + items[1..] == c.list + items;
      }
    }
  }

  /** The driver's queue manager. */
  class QueueManager {
    var list: seq<Entry>
    var semaphore: nat
    var sizeOfDataInQueue: int
    var messageId: nat
    var enabled: bool
    var connected: bool
    var dataStreamConnected: bool
    var shuttingDown: bool
    /** Units released by `TerminateLoop` with no entry behind them. */
    ghost var artificial: nat

    ghost predicate Valid()
      reads this
    {
      && semaphore <= CAPACITY
      && semaphore <= |list| + artificial
      && sizeOfDataInQueue == TotalSize(list)
      && messageId < 0x1_0000_0000_0000_0000
    }

    ghost function View(): Contents
      reads this
    {
      Contents(list, semaphore)
    }

    /** What removing the head of a full queue needs. It holds as long as there were fewer artificial
        units than the queue has room for. */
    ghost predicate CanTrim()
      reads this
    {
      semaphore >= CAPACITY ==> list != []
    }

    lemma FewArtificial()
      requires Valid() && artificial < CAPACITY
      ensures CanTrim()
    {
    }

    /** `poolAvailable` says whether the pool allocations for the semaphore and the event succeeded. */
    constructor (poolAvailable: bool)
      ensures Valid()
      ensures View() == Contents([], 0) && messageId == 1 && artificial == 0
      ensures enabled == poolAvailable && !connected && !dataStreamConnected && !shuttingDown
    {
      list, semaphore, sizeOfDataInQueue, messageId := [], 0, 0, 1;
      enabled, connected, dataStreamConnected, shuttingDown := poolAvailable, false, false, false;
      artificial := 0;
    }

    /** A wait with a zero timeout: it takes a unit if there is one and never blocks. */
    method AcquireQueueSemaphore() returns (acquired: bool)
      modifies this`semaphore
      ensures acquired <==> old(semaphore) > 0
      ensures semaphore == if old(semaphore) > 0 then old(semaphore) - 1 else 0
    {
      acquired := semaphore > 0;
      if acquired {
        semaphore := semaphore - 1;
      }
    }

    /** A release beyond the limit raises an exception that is caught and ignored. */
    method SemaphoreRelease()
      requires semaphore <= CAPACITY
      modifies this`semaphore
      ensures semaphore == if old(semaphore) < CAPACITY then old(semaphore) + 1 else old(semaphore)
    {
      if semaphore + 1 <= CAPACITY {
        semaphore := semaphore + 1;
      }
    }

    /** `corrupt` says that the head of an empty list was removed, which leaves the list undefined. */
    method TrimProbeDataQueue() returns (corrupt: bool)
      requires Valid()
      modifies this`list, this`semaphore, this`sizeOfDataInQueue
      ensures corrupt <==> old(!CanTrim())
      ensures !corrupt ==> Valid() && semaphore < CAPACITY && View() == MakeRoom(old(View()))
    {
      corrupt := false;
      while semaphore >= CAPACITY
        invariant Valid() && !corrupt
        invariant View() == old(View()) || (old(CanTrim()) && semaphore < CAPACITY && View() == MakeRoom(old(View())))
        decreases semaphore
      {
        if list == [] {
          return true;
        }
        var oldest := list[0];
        list := list[1..];
        sizeOfDataInQueue := sizeOfDataInQueue - oldest.size;
        var _ := AcquireQueueSemaphore();
      }
    }

    method Enqueue(e: Entry) returns (success: bool, corrupt: bool)
      requires Valid()
      modifies this`list, this`semaphore, this`sizeOfDataInQueue
      ensures success == enabled
      ensures corrupt <==> enabled && old(!CanTrim())
      ensures !corrupt ==> Valid() && View() == if enabled then EnqueueSpec(old(View()), e) else old(View())
    {
      if !enabled {
        return false, false;
      }
      corrupt := TrimProbeDataQueue();
      success := true;
      if !corrupt {
        list := list + [e];
        TotalSizeAppend(list[..|list| - 1], e);
        assert list[..|list| - 1] + [e] == list;
        sizeOfDataInQueue := sizeOfDataInQueue + e.size;
        SemaphoreRelease();
      }
    }

    method PutBack(e: Entry) returns (success: bool, corrupt: bool)
      requires Valid()
      modifies this`list, this`semaphore, this`sizeOfDataInQueue
      ensures success == enabled
      ensures corrupt <==> enabled && old(!CanTrim())
      ensures !corrupt ==> Valid() && View() == if enabled then PutBackSpec(old(View()), e) else old(View())
    {
      if !enabled {
        return false, false;
      }
      corrupt := TrimProbeDataQueue();
      success := true;
      if !corrupt {
        list := [e] + list;
        sizeOfDataInQueue := sizeOfDataInQueue + e.size;
        SemaphoreRelease();
      }
    }

    /** Waits for the semaphore and the connect event together; false is a timeout. */
    method WaitForQueueAndPortConnect() returns (granted: bool)
      modifies this`semaphore
      ensures granted <==> old(semaphore) > 0 && connected
      ensures semaphore == if granted then old(semaphore) - 1 else old(semaphore)
    {
      granted := semaphore > 0 && connected;
      if granted {
        semaphore := semaphore - 1;
      }
    }

    /** After a granted wait, which has taken the unit of this call, the units still match the list. */
    method Dequeue() returns (entry: Option<Entry>)
      requires Valid()
      modifies this`list, this`sizeOfDataInQueue
      ensures entry.None? <==> !enabled || old(list) == []
      ensures entry.None? ==> list == old(list) && Valid()
      ensures entry.Some? ==> [entry.value] + list == old(list)
      ensures sizeOfDataInQueue == TotalSize(list)
      ensures old(semaphore < |list| + artificial) ==> Valid()
    {
      if !enabled || list == [] {
        return None;
      }
      entry := Some(list[0]);
      sizeOfDataInQueue := sizeOfDataInQueue - list[0].size;
      list := list[1..];
    }

    method Dispose()
      requires Valid()
      modifies this`messageId
      ensures Valid() && messageId == (old(messageId) + 1) % 0x1_0000_0000_0000_0000
    {
      messageId := (messageId + 1) % 0x1_0000_0000_0000_0000;
    }

    method OnConnect()
      modifies this`connected, this`dataStreamConnected
      ensures connected && dataStreamConnected
    {
      connected, dataStreamConnected := true, true;
    }

    method OnDisconnect()
      modifies this`connected, this`dataStreamConnected
      ensures !connected && !dataStreamConnected
    {
      connected, dataStreamConnected := false, false;
    }

    /** Lets a waiting consumer through although nothing was enqueued. */
    method TerminateLoop()
      requires Valid()
      modifies this`shuttingDown, this`semaphore, this`connected, this`dataStreamConnected, this`artificial
      ensures Valid() && shuttingDown && connected && dataStreamConnected
      ensures semaphore == if old(semaphore) < CAPACITY then old(semaphore) + 1 else old(semaphore)
      ensures artificial == old(artificial) + (semaphore - old(semaphore))
    {
      shuttingDown := true;
      ghost var before := semaphore;
      SemaphoreRelease();
      artificial := artificial + (semaphore - before);
      OnConnect();
    }
  }
}
