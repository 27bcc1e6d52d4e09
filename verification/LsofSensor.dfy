/**
The open-files sensor. A refresh first copies the ids of the running processes into one array, then
walks that array as far as it carries the nonce and flattens the open files of each process that is
still alive into a second array, through one running index. Overruns of either array are ignored.
*/
module LsofSensor {
  import opened Wrappers
  import opened RecordSlots

  datatype OpenFile = OpenFile(pid: int, uid: nat, path: string, flags: nat, mode: nat, count: int)

  /** An element of the array of process ids. */
  datatype PidEl = PidEl(nonce: Nonce, pid: int)

  /** A process by the time its files are read: it may have died, or have no file table. */
  datatype Task = Task(alive: bool, files: Option<seq<Option<OpenFile>>>)

  /** The open files up to the first empty descriptor. */
  function Leading(fds: seq<Option<OpenFile>>): seq<OpenFile> {
    if fds == [] || fds[0].None? then [] else [fds[0].value] + Leading(fds[1..])
  }

  function FilesOf(tasks: map<int, Task>, pid: int): seq<OpenFile> {
    if pid in tasks && tasks[pid].alive && tasks[pid].files.Some?
    then Leading(tasks[pid].files.value)
    else []
  }

  function Flatten(pids: seq<int>, tasks: map<int, Task>): seq<OpenFile>
    decreases |pids|
  {
    if pids == [] then [] else Flatten(pids[..|pids| - 1], tasks) + FilesOf(tasks, pids[|pids| - 1])
  }

  function Indexed(els: seq<PidEl>, running: seq<int>, nonce: Nonce): seq<PidEl> {
    seq(|els|, i requires 0 <= i < |els| => if i < |running| then PidEl(nonce, running[i]) else els[i])
  }

  /** The ids the walk visits: those before the first element with another nonce. */
  function Visited(els: seq<PidEl>, nonce: Nonce): seq<int> {
    if els == [] || els[0].nonce != nonce then [] else [els[0].pid] + Visited(els[1..], nonce)
  }

  function PidsOf(els: seq<PidEl>): seq<int> {
    seq(|els|, i requires 0 <= i < |els| => els[i].pid)
  }

  function First<T>(s: seq<T>, n: nat): (r: seq<T>)
    ensures |r| == Min(|s|, n) && forall k :: 0 <= k < |r| ==> r[k] == s[k]
  {
    if |s| <= n then s else s[..n]
  }

  lemma {:induction false} VisitedPrefix(els: seq<PidEl>, nonce: Nonce, k: nat)
    requires k <= |els| && (forall i :: 0 <= i < k ==> els[i].nonce == nonce)
    requires k == |els| || els[k].nonce != nonce
    ensures |Visited(els, nonce)| == k && forall i :: 0 <= i < k ==> Visited(els, nonce)[i] == els[i].pid
  {
    if k > 0 {
      VisitedPrefix(els[1..], nonce, k - 1);
    }
  }

  /** With a nonce that the stale tail does not carry, the walk visits exactly the first processes
      that fit into the array. */
  lemma VisitedFresh(els: seq<PidEl>, running: seq<int>, nonce: Nonce)
    requires forall i :: 0 <= i < |els| ==> els[i].nonce != nonce
    ensures Visited(Indexed(els, running, nonce), nonce) == First(running, |els|)
  {
    VisitedPrefix(Indexed(els, running, nonce), nonce, Min(|running|, |els|));
  }

  lemma {:induction false} LeadingAt(fds: seq<Option<OpenFile>>, k: nat)
    requires k <= |Leading(fds)|
    ensures k <= |fds|
    ensures k < |Leading(fds)| ==> k < |fds| && fds[k] == Some(Leading(fds)[k])
    ensures k == |Leading(fds)| ==> k == |fds| || fds[k].None?
  {
    if k > 0 {
      LeadingAt(fds[1..], k - 1);
    }
  }

  lemma FlattenStep(els: seq<PidEl>, index: nat, tasks: map<int, Task>)
    requires index < |els|
    ensures Flatten(PidsOf(els[..index + 1]), tasks)
            == Flatten(PidsOf(els[..index]), tasks) + FilesOf(tasks, els[index].pid)
  {
    var pids := PidsOf(els[..index + 1]);
    assert |pids| == index + 1 && pids[index] == els[index].pid;
    assert pids[..index] == PidsOf(els[..index]);
  }

  /** The walk has come to `index`, and found `flat`. */
  ghost predicate Walking(els: seq<PidEl>, tasks: map<int, Task>, nonce: Nonce, index: nat, flat: seq<OpenFile>) {
    && index <= |els| && (forall i :: 0 <= i < index ==> els[i].nonce == nonce)
    && flat == Flatten(PidsOf(els[..index]), tasks)
  }

  lemma WalkingStep(els: seq<PidEl>, tasks: map<int, Task>, nonce: Nonce, index: nat, flat: seq<OpenFile>)
    requires Walking(els, tasks, nonce, index, flat) && index < |els| && els[index].nonce == nonce
    ensures Walking(els, tasks, nonce, index + 1, flat + FilesOf(tasks, els[index].pid))
  {
    FlattenStep(els, index, tasks);
  }

  lemma WalkingEnd(els: seq<PidEl>, tasks: map<int, Task>, nonce: Nonce, index: nat, flat: seq<OpenFile>)
    requires Walking(els, tasks, nonce, index, flat) && (index == |els| || els[index].nonce != nonce)
    ensures flat == Flatten(Visited(els, nonce), tasks)
  {
    VisitedPrefix(els, nonce, index);
    assert Visited(els, nonce) == PidsOf(els[..index]);
  }

  // ----- What the flattening contains -----

  /** The values of the descriptors below the first empty one, and nothing more. */
  lemma {:induction false} LeadingIs(fds: seq<Option<OpenFile>>, n: nat)
    requires n <= |fds| && (forall k :: 0 <= k < n ==> fds[k].Some?) && (n == |fds| || fds[n].None?)
    ensures Leading(fds) == seq(n, k requires 0 <= k < n => fds[k].value)
  {
    if n > 0 {
      LeadingIs(fds[1..], n - 1);
    }
  }

  /** A process that is alive and has a file table contributes exactly its descriptors below the first
      empty one; any other process contributes nothing. */
  lemma FlattenOne(pid: int, tasks: map<int, Task>, n: nat)
    ensures pid in tasks && tasks[pid].alive && tasks[pid].files.Some? ==>
      var fds := tasks[pid].files.value;
      n <= |fds| && (forall k :: 0 <= k < n ==> fds[k].Some?) && (n == |fds| || fds[n].None?) ==>
        Flatten([pid], tasks) == seq(n, k requires 0 <= k < n => fds[k].value)
    ensures !(pid in tasks && tasks[pid].alive && tasks[pid].files.Some?) ==> Flatten([pid], tasks) == []
  {
    assert [pid][..0] == [];
    assert Flatten([pid], tasks) == [] + FilesOf(tasks, pid);
    if pid in tasks && tasks[pid].alive && tasks[pid].files.Some? {
      var fds := tasks[pid].files.value;
      if n <= |fds| && (forall k :: 0 <= k < n ==> fds[k].Some?) && (n == |fds| || fds[n].None?) {
        LeadingIs(fds, n);
      }
    }
  }

  /** The flattening of several processes is the concatenation of theirs. */
  lemma {:induction false} FlattenAppend(a: seq<int>, b: seq<int>, tasks: map<int, Task>)
    ensures Flatten(a + b, tasks) == Flatten(a, tasks) + Flatten(b, tasks)
    decreases |b|
  {
    if b == [] {
      assert a + b == a;
    } else {
      var front := b[..|b| - 1];
      assert (a + b)[..|a + b| - 1] == a + front;
      FlattenAppend(a, front, tasks);
    }
  }

  /** The data array after `files` were put from index `start` on; what does not fit is dropped. */
  function PutFrom(slots: seq<Slot<OpenFile>>, start: nat, files: seq<OpenFile>, nonce: Nonce)
    : seq<Slot<OpenFile>>
  {
    seq(|slots|, i requires 0 <= i < |slots| =>
      if start <= i < start + |files| then Filled(nonce, files[i - start]) else slots[i])
  }

  lemma PutFromExtends(base: seq<Slot<OpenFile>>, flat: seq<OpenFile>, files: seq<OpenFile>, nonce: Nonce)
    ensures PutFrom(Fill(base, flat, nonce, |flat|), Min(|flat|, |base|), files, nonce)
            == Fill(base, flat + files, nonce, |flat + files|)
  {
  }

  /** The outcome of a request on the two arrays; it never fails. */
  datatype Outcome = Outcome(replies: seq<Reply<OpenFile>>, pids: seq<PidEl>, slots: seq<Slot<OpenFile>>)

  function RefreshedFiles(els: seq<PidEl>, running: seq<int>, tasks: map<int, Task>, nonce: Nonce): seq<OpenFile> {
    Flatten(Visited(Indexed(els, running, nonce), nonce), tasks)
  }

  function RequestSpec(els: seq<PidEl>, slots: seq<Slot<OpenFile>>, running: seq<int>,
                       tasks: map<int, Task>, nonce: Nonce): Outcome
  {
    var flat := RefreshedFiles(els, running, tasks, nonce);
    var filled := Fill(slots, flat, nonce, |flat|);
    Outcome(Drain(filled, 0, nonce), Indexed(els, running, nonce), Drained(filled, 0, nonce))
  }

  /** An error code with the outcome. */
  datatype Result = Result(ccode: int, outcome: Outcome)

  /** The same when buffers (`available`) or reply messages (`linkable`) cannot be allocated in some rounds
      of the loop; without a buffer for the first round there is not even a refresh. */
  function RequestWith(els: seq<PidEl>, slots: seq<Slot<OpenFile>>, running: seq<int>, tasks: map<int, Task>,
                       nonce: Nonce, available: nat -> bool, linkable: nat -> bool): Result
  {
    var flat := RefreshedFiles(els, running, tasks, nonce);
    if !available(0) then Result(-ENOMEM, Outcome([], els, slots))
    else
      var (replies, left, short) := Partial(Fill(slots, flat, nonce, |flat|), nonce, available, linkable);
      Result(if short then -ENOMEM else 0, Outcome(replies, Indexed(els, running, nonce), left))
  }

  lemma WithoutFailures(els: seq<PidEl>, slots: seq<Slot<OpenFile>>, running: seq<int>, tasks: map<int, Task>,
                        nonce: Nonce, available: nat -> bool, linkable: nat -> bool)
    requires (forall i: nat :: available(i)) && forall i: nat :: linkable(i)
    ensures RequestWith(els, slots, running, tasks, nonce, available, linkable)
            == Result(0, RequestSpec(els, slots, running, tasks, nonce))
  {
    var flat := RefreshedFiles(els, running, tasks, nonce);
    PartialIsWhole(Fill(slots, flat, nonce, |flat|), nonce, available, linkable);
  }

  /** With a new non-zero nonce the reply is the flattening of the open files of the first processes,
      cut off at the size of the data array, whatever both arrays held before. */
  lemma LsofIsFlattening(els: seq<PidEl>, slots: seq<Slot<OpenFile>>, running: seq<int>,
                         tasks: map<int, Task>, nonce: Nonce)
    requires forall i :: 0 <= i < |els| ==> els[i].nonce != nonce
    requires Fresh(slots, nonce)
    ensures RequestSpec(els, slots, running, tasks, nonce).replies
            == Snapshot(First(Flatten(First(running, |els|), tasks), |slots|), 0)
  {
    VisitedFresh(els, running, nonce);
    var flat := Flatten(First(running, |els|), tasks);
    var cut := First(flat, |slots|);
    assert Fill(slots, flat, nonce, |flat|) == Fill(slots, cut, nonce, |cut|);
    RefreshThenDrain(slots, cut, nonce);
  }

  class KlsofSensor {
    const pids: array<PidEl>
    const slots: array<Slot<OpenFile>>

    constructor (pidCount: nat, fileCount: nat)
      ensures fresh(pids) && fresh(slots) && pids.Length == pidCount && slots.Length == fileCount
      ensures forall j :: 0 <= j < pidCount ==> pids[j] == PidEl(0, 0)
      ensures forall j :: 0 <= j < fileCount ==> slots[j] == Filled(0, OpenFile(0, 0, "", 0, 0, 0))
    {
      pids := new PidEl[pidCount](_ => PidEl(0, 0));
      slots := new Slot<OpenFile>[fileCount](_ => Filled(0, OpenFile(0, 0, "", 0, 0, 0)));
    }

    method BuildPidIndexUnlocked(running: seq<int>, nonce: Nonce) returns (index: int)
      modifies pids
      ensures pids[..] == Indexed(old(pids[..]), running, nonce)
      ensures index == if |running| <= pids.Length then |running| else -ENOMEM
    {
      index := 0;
      for task := 0 to |running|
        invariant index == task <= pids.Length
        invariant pids[..] == Indexed(old(pids[..]), running[..task], nonce)
      {
        if index < pids.Length {
          pids[index] := PidEl(nonce, running[task]);
          index := index + 1;
        } else {
          return -ENOMEM;
        }
      }
      assert running[..|running|] == running;
    }

    /** Puts the open files of one process from `start` on, up to its first empty descriptor. */
    method LsofGetFilesStruct(task: Task, start: nat, nonce: Nonce) returns (ccode: int, next: nat)
      requires start <= slots.Length
      modifies slots
      ensures var files := if task.alive && task.files.Some? then Leading(task.files.value) else [];
        && slots[..] == PutFrom(old(slots[..]), start, files, nonce)
        && next == Min(start + |files|, slots.Length)
        && ccode == if start + |files| <= slots.Length then 0 else -ENOMEM
    {
      next := start;
      if !task.alive || task.files.None? {
        assert slots[..] == PutFrom(slots[..], start, [], nonce);
        return 0, next;
      }
      var fds := task.files.value;
      ghost var files := Leading(fds);
      var fd := 0;
      LeadingAt(fds, 0);
      while fd < |fds| && fds[fd].Some?
        invariant fd <= |files| && next == start + fd <= slots.Length
        invariant fd < |files| ==> fd < |fds| && fds[fd] == Some(files[fd])
        invariant fd <= |fds|
        invariant fd == |files| ==> fd == |fds| || fds[fd].None?
        invariant slots[..] == PutFrom(old(slots[..]), start, files[..fd], nonce)
        decreases |files| - fd
      {
        if next < slots.Length {
          slots[next] := Filled(nonce, fds[fd].value);
          next := next + 1;
        } else {
          return -ENOMEM, next;
        }
        fd := fd + 1;
        LeadingAt(fds, fd);
      }
      ccode := 0;
    }

    /** The body of the walk for one process id; `flat` lists the files put so far. */
    method VisitPid(pid: int, tasks: map<int, Task>, start: nat, nonce: Nonce,
                    ghost base: seq<Slot<OpenFile>>, ghost flat: seq<OpenFile>) returns (next: nat)
      requires slots[..] == Fill(base, flat, nonce, |flat|) && start == Min(|flat|, slots.Length)
      modifies slots
      ensures var more := flat + FilesOf(tasks, pid);
        slots[..] == Fill(base, more, nonce, |more|) && next == Min(|more|, slots.Length)
    {
      next := start;
      PutFromExtends(base, flat, FilesOf(tasks, pid), nonce);
      if pid in tasks && tasks[pid].alive {
        var ccode;
        ccode, next := LsofGetFilesStruct(tasks[pid], start, nonce);
      } else {
        assert flat + [] == flat;
      }
    }

    method LsofForEachPidUnlocked(tasks: map<int, Task>, nonce: Nonce) returns (fileIndex: nat)
      modifies slots
      ensures var flat := Flatten(Visited(pids[..], nonce), tasks);
        slots[..] == Fill(old(slots[..]), flat, nonce, |flat|) && fileIndex == Min(|flat|, slots.Length)
    {
      fileIndex := 0;
      var index := 0;
      ghost var base, els := slots[..], pids[..];
      ghost var flat: seq<OpenFile> := [];
      while index < pids.Length && pids[index].nonce == nonce
        invariant Walking(els, tasks, nonce, index, flat)
        invariant slots[..] == Fill(base, flat, nonce, |flat|) && fileIndex == Min(|flat|, slots.Length)
      {
        fileIndex := VisitPid(pids[index].pid, tasks, fileIndex, nonce, base, flat);
        WalkingStep(els, tasks, nonce, index, flat);
        flat := flat + FilesOf(tasks, els[index].pid);
        index := index + 1;
      }
      WalkingEnd(els, tasks, nonce, index, flat);
    }

    /** The count of the first pass is overwritten, so its overrun goes unnoticed. */
    method KernelLsofUnlocked(running: seq<int>, tasks: map<int, Task>, nonce: Nonce) returns (count: int)
      modifies pids, slots
      ensures pids[..] == Indexed(old(pids[..]), running, nonce)
      ensures var flat := RefreshedFiles(old(pids[..]), running, tasks, nonce);
        slots[..] == Fill(old(slots[..]), flat, nonce, |flat|) && count == Min(|flat|, slots.Length)
    {
      count := BuildPidIndexUnlocked(running, nonce);
      count := LsofForEachPidUnlocked(tasks, nonce);
    }

    method KernelLsofGetRecord(running: seq<int>, tasks: map<int, Task>, runProbe: bool, nonce: Nonce, index: nat)
      returns (ccode: int, reply: Reply<OpenFile>)
      modifies pids, slots
      ensures var flat := RefreshedFiles(old(pids[..]), running, tasks, nonce);
        var now := if runProbe then Fill(old(slots[..]), flat, nonce, |flat|) else old(slots[..]);
        ccode == 0 && reply == ReadSlot(now, index, nonce) && slots[..] == ClearSlot(now, index)
      ensures pids[..] == if runProbe then Indexed(old(pids[..]), running, nonce) else old(pids[..])
    {
      reply := Terminator;
      if runProbe {
        var count := KernelLsofUnlocked(running, tasks, nonce);
        if count < 0 {
          return count, reply;
        }
      }
      if index < slots.Length && slots[index].Filled? && !(nonce != 0 && slots[index].nonce != nonce) {
        reply := Record(index, slots[index].payload);
      }
      if index < slots.Length {
        slots[index] := Cleared;
      }
      ccode := 0;
    }

    /** One round of the loop over the records, after a refresh in the first: reads, and links the reply
        if its message can be allocated. */
    method ReadRound(running: seq<int>, tasks: map<int, Task>, nonce: Nonce, index: nat, linkable: nat -> bool,
                     linked: seq<Reply<OpenFile>>, ghost start: seq<Slot<OpenFile>>, ghost all: seq<Reply<OpenFile>>,
                     ghost available: nat -> bool)
      returns (ccode: int, replies: seq<Reply<OpenFile>>, more: bool, ghost seen: seq<Reply<OpenFile>>)
      requires available(index)
      requires index == 0 ==>
        var flat := RefreshedFiles(pids[..], running, tasks, nonce); start == Fill(slots[..], flat, nonce, |flat|)
      requires Progress(start, if index == 0 then start else slots[..], index, nonce, all, linked, false, available, linkable)
      modifies pids, slots
      ensures ccode == 0 && (more ==> index < slots.Length)
      ensures pids[..] == if index == 0 then Indexed(old(pids[..]), running, nonce) else old(pids[..])
      ensures Progress(start, slots[..], index + 1, nonce, seen, replies, !more, available, linkable)
    {
      ghost var before := if index == 0 then start else slots[..];
      var reply;
      ccode, reply := KernelLsofGetRecord(running, tasks, index == 0, nonce, index);
      ProgressStep(start, before, index, nonce, all, linked, available, linkable);
      replies := linked + (if linkable(index) then [reply] else []);
      seen := all + [reply];
      more := reply != Terminator;
    }

    method ProcessRecordsRequest(running: seq<int>, tasks: map<int, Task>, nonce: Nonce,
                                 available: nat -> bool, linkable: nat -> bool)
      returns (ccode: int, replies: seq<Reply<OpenFile>>)
      modifies pids, slots
      ensures Result(ccode, Outcome(replies, pids[..], slots[..]))
              == RequestWith(old(pids[..]), old(slots[..]), running, tasks, nonce, available, linkable)
    {
      ghost var flat := RefreshedFiles(pids[..], running, tasks, nonce);
      ghost var start := Fill(slots[..], flat, nonce, |flat|);
      ghost var all: seq<Reply<OpenFile>> := [];
      ccode, replies := 0, [];
      if !available(0) {
        return -ENOMEM, replies;
      }
      var index, more := 0, true;
      ProgressStart(start, nonce, available, linkable);
      while more
        invariant 0 <= index && ccode == 0 && (more ==> index <= slots.Length)
        invariant index == 0 ==> more && pids[..] == old(pids[..]) && slots[..] == old(slots[..])
        invariant index > 0 ==> pids[..] == Indexed(old(pids[..]), running, nonce)
        invariant Progress(start, if index == 0 then start else slots[..], index, nonce, all, replies, !more, available, linkable)
        decreases more, slots.Length - index
      {
        if !available(index) {
          ProgressCut(start, slots[..], index, nonce, all, replies, available, linkable);
          return -ENOMEM, replies;
        }
        ccode, replies, more, all := ReadRound(running, tasks, nonce, index, linkable, replies, start, all, available);
        index := index + 1;
      }
      ProgressDone(start, slots[..], index, nonce, all, replies, available, linkable);
    }
  }
}
