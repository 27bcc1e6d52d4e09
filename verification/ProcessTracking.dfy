/**
The list of tracked processes, and the probe that validates it. The list grows and shrinks with the
process notifications of the system; lookup on destruction is by EPROCESS pointer, removal by id.
*/
module ProcessTracking {
  import opened Wrappers

  /** `eprocess` stands for the EPROCESS pointer. */
  datatype Process = Process(eprocess: int, pid: int)

  const INVALID_HANDLE_VALUE := -1

  function FindByEProcess(list: seq<Process>, eprocess: int): (k: nat)
    ensures k <= |list| && (k < |list| ==> list[k].eprocess == eprocess)
    ensures forall j :: 0 <= j < k ==> list[j].eprocess != eprocess
  {
    if list == [] || list[0].eprocess == eprocess then 0 else 1 + FindByEProcess(list[1..], eprocess)
  }

  function FindByPid(list: seq<Process>, pid: int): (k: nat)
    ensures k <= |list| && (k < |list| ==> list[k].pid == pid)
    ensures forall j :: 0 <= j < k ==> list[j].pid != pid
  {
    if list == [] || list[0].pid == pid then 0 else 1 + FindByPid(list[1..], pid)
  }

  function Without(list: seq<Process>, k: nat): seq<Process> {
    if k < |list| then list[..k] + list[k + 1..] else list
  }

  /** What a destroy notification does to the list. */
  function AfterDestroy(list: seq<Process>, eprocess: int): seq<Process> {
    var k := FindByEProcess(list, eprocess);
    if k < |list| then Without(list, FindByPid(list, list[k].pid)) else list
  }

  /** The id that the system gives for an entry is invalid or another one. */
  predicate Disagrees(p: Process, system: int -> int) {
    system(p.eprocess) == INVALID_HANDLE_VALUE || system(p.eprocess) != p.pid
  }

  function FirstBad(list: seq<Process>, system: int -> int): (k: nat)
    ensures k <= |list| && (k < |list| ==> Disagrees(list[k], system))
    ensures forall j :: 0 <= j < k ==> !Disagrees(list[j], system)
  {
    if list == [] || Disagrees(list[0], system) then 0 else 1 + FirstBad(list[1..], system)
  }

  /** A report names the pointer of the entry and the id that the system gave for it. */
  datatype Report = Report(eprocess: int, pid: int)

  /** What a notification enqueues. */
  datatype Notice = Notice(created: bool, eprocess: int, pid: int)

  class ProcessList {
    var list: seq<Process>

    constructor ()
      ensures list == []
    {
      list := [];
    }

    method InsertProcessEntry(eprocess: int, pid: int, poolAvailable: bool) returns (success: bool)
      modifies this
      ensures success == poolAvailable
      ensures list == if poolAvailable then old(list) + [Process(eprocess, pid)] else old(list)
    {
      if !poolAvailable {
        return false;
      }
      list := list + [Process(eprocess, pid)];
      success := true;
    }

    method FindProcessByEProcess(eprocess: int) returns (entry: Option<Process>)
      ensures var k := FindByEProcess(list, eprocess);
        entry == if k < |list| then Some(list[k]) else None
    {
      var k := 0;
      while k < |list|
        invariant k <= |list| && forall j :: 0 <= j < k ==> list[j].eprocess != eprocess
      {
        if list[k].eprocess == eprocess {
          return Some(list[k]);
        }
        k := k + 1;
      }
      entry := None;
    }

    method RemoveProcessEntry(entry: Process) returns (success: bool)
      modifies this
      ensures list == Without(old(list), FindByPid(old(list), entry.pid))
      ensures success <==> FindByPid(old(list), entry.pid) < |old(list)|
    {
      var k := 0;
      while k < |list|
        invariant k <= |list| && list == old(list) && forall j :: 0 <= j < k ==> list[j].pid != entry.pid
      {
        if list[k].pid == entry.pid {
          list := list[..k] + list[k + 1..];
          return true;
        }
        k := k + 1;
      }
      success := false;
    }

    /** The system's callback, on creation or destruction of a process. Nothing happens if the probe is
        not in the registry; a notice is sent only if its allocation succeeds and the queue takes it. */
    method ProcessNotify(eprocess: int, pid: int, created: bool, registered: bool, poolAvailable: bool, noticePool: bool,
                         queueEnabled: bool)
      returns (notice: Option<Notice>)
      modifies this
      ensures list ==
        if !registered then old(list)
        else if !created then AfterDestroy(old(list), eprocess)
        else if poolAvailable then old(list) + [Process(eprocess, pid)] else old(list)
      ensures notice == if registered && noticePool && queueEnabled then Some(Notice(created, eprocess, pid)) else None
    {
      notice := None;
      if !registered {
        return;
      }
      if created {
        var _ := InsertProcessEntry(eprocess, pid, poolAvailable);
      } else {
        var entry := FindProcessByEProcess(eprocess);
        if entry.Some? {
          var _ := RemoveProcessEntry(entry.value);
        }
      }
      if noticePool && queueEnabled {
        notice := Some(Notice(created, eprocess, pid));
      }
    }

    /** One run of the validation probe. The report is sent only if its allocation succeeds and the queue
        takes it; the entry is gone in any case. */
    method OnRun(enabled: bool, system: int -> int, reportPool: bool, queueEnabled: bool) returns (report: Option<Report>)
      modifies this
      ensures list == if enabled then Without(old(list), FirstBad(old(list), system)) else old(list)
      ensures var k := FirstBad(old(list), system);
        report == if enabled && k < |old(list)| && reportPool && queueEnabled
                  then Some(Report(old(list)[k].eprocess, system(old(list)[k].eprocess))) else None
    {
      if !enabled {
        return None;
      }
      var k := 0;
      while k < |list|
        invariant k <= |list| && list == old(list) && forall j :: 0 <= j < k ==> !Disagrees(list[j], system)
      {
        var pid := system(list[k].eprocess);
        if pid == INVALID_HANDLE_VALUE || pid != list[k].pid {
          assert FirstBad(list, system) == k;
          report := if reportPool && queueEnabled then Some(Report(list[k].eprocess, pid)) else None;
          list := list[..k] + list[k + 1..];
          return;
        }
        k := k + 1;
      }
      report := None;
    }
  }

  // ----- Histories -----

  /** `live`: the running processes in the order of their creation; `created`: those of them created
      since the probe started; `tracked`: those whose entry was allocated and not removed by the
      validation; `lost` counts failed allocations and removals by the validation. */
  datatype State = State(live: seq<Process>, list: seq<Process>, created: set<Process>, tracked: set<Process>, lost: nat)

  datatype Event =
    | Create(process: Process, poolAvailable: bool)
    | Destroy(process: Process)
    | Validate(system: int -> int)

  /** Live processes have distinct pointers and distinct ids. */
  ghost predicate Distinct(live: seq<Process>) {
    forall j, k :: 0 <= j < k < |live| ==> live[j].eprocess != live[k].eprocess && live[j].pid != live[k].pid
  }

  /** The system reuses neither the pointer nor the id of a live process, and destroys live ones. */
  predicate Possible(s: State, e: Event) {
    match e
    case Create(p, _) => forall j :: 0 <= j < |s.live| ==> s.live[j].eprocess != p.eprocess && s.live[j].pid != p.pid
    case Destroy(p) => p in s.live
    case Validate(_) => true
  }

  /** Without the first occurrence of p. */
  function Drop(s: seq<Process>, p: Process): seq<Process> {
    if s == [] then [] else if s[0] == p then s[1..] else [s[0]] + Drop(s[1..], p)
  }

  function Do(s: State, e: Event): State {
    if !Possible(s, e) then s else
    match e
    case Create(p, poolAvailable) =>
      State(s.live + [p], if poolAvailable then s.list + [p] else s.list, s.created + {p},
            if poolAvailable then s.tracked + {p} else s.tracked, if poolAvailable then s.lost else s.lost + 1)
    case Destroy(p) =>
      State(Drop(s.live, p), AfterDestroy(s.list, p.eprocess), s.created - {p}, s.tracked - {p}, s.lost)
    case Validate(system) =>
      var k := FirstBad(s.list, system);
      if k < |s.list|
      then s.(list := Without(s.list, k), tracked := s.tracked - {s.list[k]}, lost := s.lost + 1)
      else s
  }

  function Run(s: State, events: seq<Event>): State
    decreases |events|
  {
    if events == [] then s else Run(Do(s, events[0]), events[1..])
  }

  /** The subsequence of the members of a set. */
  function Filter(s: seq<Process>, keep: set<Process>): seq<Process> {
    if s == [] then [] else (if s[0] in keep then [s[0]] else []) + Filter(s[1..], keep)
  }

  ghost predicate Inv(s: State) {
    && Distinct(s.live)
    && s.list == Filter(s.live, s.tracked)
    && s.tracked <= s.created
    && (forall p :: p in s.created ==> p in s.live)
    && (s.lost == 0 ==> s.tracked == s.created)
  }

  lemma FilterCons(x: Process, s: seq<Process>, keep: set<Process>)
    ensures Filter([x] + s, keep) == (if x in keep then [x] else []) + Filter(s, keep)
  {
    assert ([x] + s)[1..] == s;
  }

  lemma {:induction false} FilterAppend(s: seq<Process>, p: Process, keep: set<Process>)
    ensures Filter(s + [p], keep) == Filter(s, keep) + (if p in keep then [p] else [])
  {
    if s == [] {
      assert s + [p] == [p] + [];
      FilterCons(p, [], keep);
    } else {
      assert s + [p] == [s[0]] + (s[1..] + [p]);
      FilterCons(s[0], s[1..] + [p], keep);
      FilterAppend(s[1..], p, keep);
    }
  }

  lemma {:induction false} FilterSame(s: seq<Process>, a: set<Process>, b: set<Process>)
    requires forall k :: 0 <= k < |s| ==> (s[k] in a <==> s[k] in b)
    ensures Filter(s, a) == Filter(s, b)
  {
    if s != [] {
      FilterSame(s[1..], a, b);
    }
  }

  lemma {:induction false} FilterMembers(s: seq<Process>, keep: set<Process>)
    ensures forall p :: p in Filter(s, keep) <==> p in s && p in keep
  {
    if s != [] {
      FilterMembers(s[1..], keep);
    }
  }

  lemma {:induction false} FilterDistinct(s: seq<Process>, keep: set<Process>)
    requires Distinct(s)
    ensures Distinct(Filter(s, keep))
  {
    if s != [] {
      var rest := Filter(s[1..], keep);
      FilterDistinct(s[1..], keep);
      FilterMembers(s[1..], keep);
      forall k | 0 <= k < |rest| ensures rest[k].eprocess != s[0].eprocess && rest[k].pid != s[0].pid {
        assert rest[k] in s[1..];
      }
    }
  }

  lemma {:induction false} DropAbsent(s: seq<Process>, p: Process)
    requires p !in s
    ensures Drop(s, p) == s
  {
    if s != [] {
      DropAbsent(s[1..], p);
    }
  }

  lemma WithoutTail(list: seq<Process>, k: nat)
    requires 0 < k < |list|
    ensures Without(list, k) == [list[0]] + Without(list[1..], k - 1)
  {
    var rest := list[1..];
    assert list[..k] == [list[0]] + rest[..k - 1];
    assert list[k + 1..] == rest[k..];
  }

  lemma {:induction false} WithoutIsDrop(s: seq<Process>, k: nat)
    requires k < |s| && forall j :: 0 <= j < k ==> s[j] != s[k]
    ensures Without(s, k) == Drop(s, s[k])
  {
    if k > 0 {
      var t := s[1..];
      WithoutIsDrop(t, k - 1);
      WithoutTail(s, k);
      assert s[0] != s[k] && t[k - 1] == s[k];
    }
  }

  lemma {:induction false} DropMembers(s: seq<Process>, p: Process)
    requires Distinct(s)
    ensures forall q :: q in Drop(s, p) <==> q in s && q != p
  {
    if s != [] {
      DropMembers(s[1..], p);
    }
  }

  lemma {:induction false} DropDistinct(s: seq<Process>, p: Process)
    requires Distinct(s)
    ensures Distinct(Drop(s, p))
  {
    if s != [] && s[0] != p {
      var rest := Drop(s[1..], p);
      DropDistinct(s[1..], p);
      DropMembers(s[1..], p);
      forall k | 0 <= k < |rest| ensures rest[k].eprocess != s[0].eprocess && rest[k].pid != s[0].pid {
        assert rest[k] in s[1..];
      }
    }
  }

  lemma {:induction false} DropFromPrefixed(x: seq<Process>, rest: seq<Process>, p: Process)
    requires |x| <= 1 && p !in x
    ensures Drop(x + rest, p) == x + Drop(rest, p)
  {
    if |x| == 1 {
      assert (x + rest)[1..] == rest;
      assert x + Drop(rest, p) == [x[0]] + Drop(rest, p);
    } else {
      assert x + rest == rest;
    }
  }

  /** Taking an element out of the kept set takes it out of the subsequence. */
  lemma {:induction false} FilterDrop(s: seq<Process>, keep: set<Process>, p: Process)
    requires Distinct(s)
    ensures Filter(s, keep - {p}) == Drop(Filter(s, keep), p)
  {
    if s != [] {
      var t, x := s[1..], if s[0] in keep then [s[0]] else [];
      if s[0] == p {
        FilterSame(t, keep - {p}, keep);
        FilterMembers(t, keep);
        if p in keep {
          assert Filter(s, keep)[0] == p && Filter(s, keep)[1..] == Filter(t, keep);
        } else {
          assert Filter(s, keep) == Filter(t, keep);
          DropAbsent(Filter(t, keep), p);
        }
      } else {
        FilterDrop(t, keep, p);
        DropFromPrefixed(x, Filter(t, keep), p);
      }
    }
  }

  /** Taking an element out of the whole takes it out of the subsequence. */
  lemma {:induction false} FilterOfDrop(s: seq<Process>, keep: set<Process>, p: Process)
    requires Distinct(s)
    ensures Filter(Drop(s, p), keep - {p}) == Filter(s, keep - {p})
  {
    if s != [] && s[0] != p {
      FilterOfDrop(s[1..], keep, p);
      assert ([s[0]] + Drop(s[1..], p))[1..] == Drop(s[1..], p);
    }
  }

  /** In a list of distinct processes, lookup by pointer and removal by id hit the same entry. */
  lemma DestroyHitsOwnEntry(list: seq<Process>, p: Process)
    requires Distinct(list)
    requires forall q :: q in list && (q.eprocess == p.eprocess || q.pid == p.pid) ==> q == p
    ensures AfterDestroy(list, p.eprocess) == Drop(list, p)
  {
    var k := FindByEProcess(list, p.eprocess);
    if k < |list| {
      assert list[k] in list;
      var m := FindByPid(list, p.pid);
      assert m < |list| && list[m] in list;
      WithoutIsDrop(list, m);
    } else {
      assert p !in list;
      DropAbsent(list, p);
    }
  }

  lemma InvDestroy(s: State, p: Process)
    requires Inv(s) && p in s.live
    ensures Inv(Do(s, Destroy(p)))
  {
    FilterMembers(s.live, s.tracked);
    FilterDistinct(s.live, s.tracked);
    DestroyHitsOwnEntry(s.list, p);
    FilterDrop(s.live, s.tracked, p);
    FilterOfDrop(s.live, s.tracked, p);
    DropMembers(s.live, p);
    DropDistinct(s.live, p);
  }

  lemma InvCreate(s: State, p: Process, poolAvailable: bool)
    requires Inv(s) && Possible(s, Create(p, poolAvailable))
    ensures Inv(Do(s, Create(p, poolAvailable)))
  {
    assert p !in s.live;
    var tracked := if poolAvailable then s.tracked + {p} else s.tracked;
    FilterAppend(s.live, p, tracked);
    FilterSame(s.live, tracked, s.tracked);
  }

  lemma InvValidate(s: State, system: int -> int)
    requires Inv(s)
    ensures Inv(Do(s, Validate(system)))
  {
    var k := FirstBad(s.list, system);
    if k < |s.list| {
      FilterDistinct(s.live, s.tracked);
      FilterDrop(s.live, s.tracked, s.list[k]);
      WithoutIsDrop(s.list, k);
    }
  }

  lemma {:induction false} RunInv(s: State, events: seq<Event>)
    requires Inv(s)
    ensures Inv(Run(s, events))
    decreases |events|
  {
    if events != [] {
      if Possible(s, events[0]) {
        match events[0]
        case Create(p, poolAvailable) => InvCreate(s, p, poolAvailable);
        case Destroy(p) => InvDestroy(s, p);
        case Validate(system) => InvValidate(s, system);
      }
      RunInv(Do(s, events[0]), events[1..]);
    }
  }

  /** For every history of a started probe, the list is the subsequence of live processes that are
      tracked, in creation order; if no allocation failed and the validation removed nothing, these
      are all the live processes created since the start. */
  lemma ListIsLiveSubsequence(existing: seq<Process>, events: seq<Event>)
    requires Distinct(existing)
    ensures var s := Run(State(existing, [], {}, {}, 0), events);
      && s.list == Filter(s.live, s.tracked) && s.tracked <= s.created
      && (s.lost == 0 ==> s.list == Filter(s.live, s.created))
  {
    FilterNone(existing);
    RunInv(State(existing, [], {}, {}, 0), events);
  }

  lemma {:induction false} FilterNone(s: seq<Process>)
    ensures Filter(s, {}) == []
  {
    if s != [] {
      FilterNone(s[1..]);
    }
  }

  // ----- Validation converges -----

  function Bad(list: seq<Process>, system: int -> int): seq<Process> {
    if list == [] then [] else (if Disagrees(list[0], system) then [list[0]] else []) + Bad(list[1..], system)
  }

  function Good(list: seq<Process>, system: int -> int): seq<Process> {
    if list == [] then [] else (if Disagrees(list[0], system) then [] else [list[0]]) + Good(list[1..], system)
  }

  function Reports(bad: seq<Process>, system: int -> int): (r: seq<Report>)
    ensures |r| == |bad|
    ensures forall k :: 0 <= k < |bad| ==> r[k] == Report(bad[k].eprocess, system(bad[k].eprocess))
  {
    if bad == [] then []
    else [Report(bad[0].eprocess, system(bad[0].eprocess))] + Reports(bad[1..], system)
  }

  lemma BadCons(x: Process, list: seq<Process>, system: int -> int)
    ensures Bad([x] + list, system) == (if Disagrees(x, system) then [x] else []) + Bad(list, system)
    ensures Good([x] + list, system) == (if Disagrees(x, system) then [] else [x]) + Good(list, system)
  {
    assert ([x] + list)[1..] == list;
  }

  /** One run removes the first disagreeing entry, and no agreeing one. */
  lemma {:induction false} OneRun(list: seq<Process>, system: int -> int)
    ensures var k := FirstBad(list, system);
      && Good(Without(list, k), system) == Good(list, system)
      && (k == |list| <==> Bad(list, system) == [])
      && (k < |list| ==> Bad(list, system) == [list[k]] + Bad(Without(list, k), system))
  {
    if list != [] {
      var k, t := FirstBad(list, system), list[1..];
      if k == 0 {
        assert Without(list, 0) == t;
        assert [] + Good(t, system) == Good(t, system);
      } else {
        OneRun(t, system);
        assert [] + Bad(t, system) == Bad(t, system);
        if k < |list| {
          WithoutTail(list, k);
          BadCons(list[0], Without(t, k - 1), system);
          assert [] + Bad(Without(t, k - 1), system) == Bad(Without(t, k - 1), system);
        }
      }
    }
  }

  function Take(bad: seq<Process>, n: nat): seq<Process> {
    if n < |bad| then bad[..n] else bad
  }

  function Rest(bad: seq<Process>, n: nat): seq<Process> {
    if n < |bad| then bad[n..] else []
  }

  lemma TakeOneMore(x: Process, bad: seq<Process>, n: nat)
    requires n > 0
    ensures Rest([x] + bad, n) == Rest(bad, n - 1)
    ensures Take([x] + bad, n) == [x] + Take(bad, n - 1)
  {
  }

  lemma ReportsOneMore(x: Process, bad: seq<Process>, system: int -> int)
    ensures Reports([x] + bad, system) == [Report(x.eprocess, system(x.eprocess))] + Reports(bad, system)
  {
    assert ([x] + bad)[1..] == bad;
  }

  /** `n` enabled runs of the validation: what is left, and the reports. */
  function Left(list: seq<Process>, system: int -> int, n: nat): seq<Process> {
    if n == 0 then list else Left(Without(list, FirstBad(list, system)), system, n - 1)
  }

  function Sent(list: seq<Process>, system: int -> int, n: nat): seq<Report> {
    if n == 0 then []
    else
      var k := FirstBad(list, system);
      (if k < |list| then [Report(list[k].eprocess, system(list[k].eprocess))] else [])
        + Sent(Without(list, k), system, n - 1)
  }

  lemma {:induction false} GoodStays(list: seq<Process>, system: int -> int, n: nat)
    ensures Good(Left(list, system, n), system) == Good(list, system)
    decreases n
  {
    if n > 0 {
      OneRun(list, system);
      GoodStays(Without(list, FirstBad(list, system)), system, n - 1);
    }
  }

  lemma BadShrinks(list: seq<Process>, system: int -> int, n: nat)
    requires n > 0
    ensures Rest(Bad(list, system), n) == Rest(Bad(Without(list, FirstBad(list, system)), system), n - 1)
  {
    var k := FirstBad(list, system);
    OneRun(list, system);
    if k < |list| {
      TakeOneMore(list[k], Bad(Without(list, k), system), n);
    } else {
      assert Without(list, k) == list && Bad(list, system) == [];
    }
  }

  /** After n runs, the first n disagreeing entries are gone, in order, and nothing else: k
      disagreeing entries take exactly k runs. */
  lemma {:induction false} ValidationConverges(list: seq<Process>, system: int -> int, n: nat)
    ensures Good(Left(list, system, n), system) == Good(list, system)
    ensures Bad(Left(list, system, n), system) == Rest(Bad(list, system), n)
    decreases n
  {
    GoodStays(list, system, n);
    if n > 0 {
      BadShrinks(list, system, n);
      ValidationConverges(Without(list, FirstBad(list, system)), system, n - 1);
    } else {
      assert Rest(Bad(list, system), 0) == Bad(list, system);
    }
  }

  /** Each of these runs reports the entry that it removes; later runs report nothing. */
  lemma {:induction false} ReportsAreTheRemoved(list: seq<Process>, system: int -> int, n: nat)
    ensures Sent(list, system, n) == Reports(Take(Bad(list, system), n), system)
    decreases n
  {
    if n > 0 {
      var k := FirstBad(list, system);
      var next := Without(list, k);
      OneRun(list, system);
      ReportsAreTheRemoved(next, system, n - 1);
      if k < |list| {
        TakeOneMore(list[k], Bad(next, system), n);
        ReportsOneMore(list[k], Take(Bad(next, system), n - 1), system);
      } else {
        assert next == list && Take(Bad(list, system), n) == [];
      }
    } else {
      assert Take(Bad(list, system), 0) == [];
    }
  }

  /** A list in which all agree is left as it is, without a report. */
  lemma {:induction false} NothingBad(list: seq<Process>, system: int -> int)
    ensures Bad(list, system) == [] <==> Good(list, system) == list
  {
    GoodAndBad(list, system);
    if list != [] {
      NothingBad(list[1..], system);
      if !Disagrees(list[0], system) {
        assert Good(list, system) == [list[0]] + Good(list[1..], system) && list == [list[0]] + list[1..];
        assert Good(list, system)[1..] == Good(list[1..], system);
      }
    }
  }

  lemma {:induction false} GoodAndBad(list: seq<Process>, system: int -> int)
    ensures |Good(list, system)| + |Bad(list, system)| == |list|
  {
    if list != [] {
      GoodAndBad(list[1..], system);
    }
  }

  // ----- The results in terms of list and system -----

  lemma {:induction false} GoodCount(list: seq<Process>, system: int -> int, p: Process)
    ensures multiset(Good(list, system))[p] == if Disagrees(p, system) then 0 else multiset(list)[p]
  {
    if list != [] {
      GoodCount(list[1..], system, p);
      assert list == [list[0]] + list[1..];
    }
  }

  lemma {:induction false} BadMembers(list: seq<Process>, system: int -> int)
    ensures forall p :: p in Bad(list, system) <==> p in list && Disagrees(p, system)
  {
    if list != [] {
      BadMembers(list[1..], system);
    }
  }

  lemma LeftIsGood(list: seq<Process>, system: int -> int)
    ensures Left(list, system, |list|) == Good(list, system)
  {
    var left := Left(list, system, |list|);
    ValidationConverges(list, system, |list|);
    GoodAndBad(list, system);
    NothingBad(left, system);
  }

  /** After as many enabled runs as the list has entries, exactly those entries are left for which the
      system gives the id that was recorded, and a valid one. */
  lemma LeftExactly(list: seq<Process>, system: int -> int, p: Process)
    ensures multiset(Left(list, system, |list|))[p] ==
      if system(p.eprocess) == p.pid && p.pid != -1 then multiset(list)[p] else 0
  {
    LeftIsGood(list, system);
    GoodCount(list, system, p);
  }

  /** And exactly the others were reported, with the id that the system gave. */
  lemma ReportedExactly(list: seq<Process>, system: int -> int, r: Report)
    ensures r in Sent(list, system, |list|) <==>
      exists p :: p in list && (system(p.eprocess) == -1 || system(p.eprocess) != p.pid)
        && r == Report(p.eprocess, system(p.eprocess))
  {
    var bad := Bad(list, system);
    ReportsAreTheRemoved(list, system, |list|);
    GoodAndBad(list, system);
    assert Take(bad, |list|) == bad;
    BadMembers(list, system);
    var reports := Reports(bad, system);
    if r in reports {
      var k :| 0 <= k < |reports| && reports[k] == r;
      assert bad[k] in bad;
    }
    if p :| p in list && (system(p.eprocess) == -1 || system(p.eprocess) != p.pid) && r == Report(p.eprocess, system(p.eprocess)) {
      assert p in bad;
      var k :| 0 <= k < |bad| && bad[k] == p;
      assert reports[k] == r;
    }
  }

  // ----- What the history of the list is -----

  /** A new process is last among the live ones and, if its entry could be allocated, last in the list. */
  lemma CreateIs(s: State, p: Process, poolAvailable: bool)
    requires Possible(s, Create(p, poolAvailable))
    ensures var t := Do(s, Create(p, poolAvailable));
      && t.live == s.live + [p] && t.created == s.created + {p}
      && t.list == (if poolAvailable then s.list + [p] else s.list)
      && t.lost == (if poolAvailable then s.lost else s.lost + 1)
  {
  }

  /** A destroyed process is gone from both, and only it. */
  lemma DestroyIs(s: State, p: Process)
    requires Inv(s) && p in s.live
    ensures var t := Do(s, Destroy(p));
      && (forall q :: q in t.live <==> q in s.live && q != p)
      && (forall q :: q in t.list <==> q in s.list && q != p)
      && t.lost == s.lost
  {
    FilterMembers(s.live, s.tracked);
    FilterDistinct(s.live, s.tracked);
    DestroyHitsOwnEntry(s.list, p);
    DropMembers(s.live, p);
    DropMembers(s.list, p);
  }

  lemma {:induction false} NothingLost(s: State, events: seq<Event>)
    requires forall k :: 0 <= k < |events| ==> !events[k].Validate? && (events[k].Create? ==> events[k].poolAvailable)
    ensures Run(s, events).lost == s.lost
    decreases |events|
  {
    if events != [] {
      assert forall k :: 0 <= k < |events| - 1 ==> events[1..][k] == events[k + 1];
      NothingLost(Do(s, events[0]), events[1..]);
    }
  }

  /** p was created before q. */
  ghost predicate Before(live: seq<Process>, p: Process, q: Process) {
    exists a, b :: 0 <= a < b < |live| && live[a] == p && live[b] == q
  }

  /** Any two entries of the list stand in it as they stand among the live processes. */
  ghost predicate InOrder(list: seq<Process>, live: seq<Process>) {
    forall j, k :: 0 <= j < k < |list| ==> Before(live, list[j], list[k])
  }

  lemma {:induction false} FilterInOrder(s: seq<Process>, keep: set<Process>)
    ensures InOrder(Filter(s, keep), s)
  {
    if s != [] {
      var t, f := s[1..], Filter(s, keep);
      var rest := Filter(t, keep);
      FilterInOrder(t, keep);
      FilterMembers(t, keep);
      forall j, k | 0 <= j < k < |f| ensures Before(s, f[j], f[k]) {
        if s[0] in keep && j == 0 {
          assert f[k] == rest[k - 1] && rest[k - 1] in t;
          var b :| 0 <= b < |t| && t[b] == rest[k - 1];
          assert s[0] == f[j] && s[b + 1] == f[k];
        } else {
          var d := if s[0] in keep then 1 else 0;
          assert f[j] == rest[j - d] && f[k] == rest[k - d] && Before(t, rest[j - d], rest[k - d]);
          var a, b :| 0 <= a < b < |t| && t[a] == rest[j - d] && t[b] == rest[k - d];
          assert s[a + 1] == f[j] && s[b + 1] == f[k];
        }
      }
    }
  }

  /** With no failed allocation and no validation, the list holds exactly the live processes created since
      the start, in the order of their creation. */
  lemma ListIsAllCreated(existing: seq<Process>, events: seq<Event>)
    requires Distinct(existing)
    requires forall k :: 0 <= k < |events| ==> !events[k].Validate? && (events[k].Create? ==> events[k].poolAvailable)
    ensures var s := Run(State(existing, [], {}, {}, 0), events);
      (forall p :: p in s.list <==> p in s.live && p in s.created) && InOrder(s.list, s.live)
  {
    ListIsLiveSubsequence(existing, events);
    NothingLost(State(existing, [], {}, {}, 0), events);
    var s := Run(State(existing, [], {}, {}, 0), events);
    FilterMembers(s.live, s.created);
    FilterInOrder(s.live, s.created);
  }

  /** Two processes are created, and the first is destroyed. */
  lemma TwoAndOne(p: Process, q: Process)
    requires p.eprocess != q.eprocess && p.pid != q.pid
    ensures var s := Run(State([], [], {}, {}, 0), [Create(p, true), Create(q, true), Destroy(p)]);
      s.list == [q] && s.live == [q]
  {
    var s0 := State([], [], {}, {}, 0);
    var s1 := State([p], [p], {p}, {p}, 0);
    var s2 := State([p, q], [p, q], {p, q}, {p, q}, 0);
    var events := [Create(p, true), Create(q, true), Destroy(p)];
    assert events[1..] == [Create(q, true), Destroy(p)] && events[1..][1..] == [Destroy(p)] && events[1..][1..][1..] == [];
    assert Do(s0, events[0]) == s1;
    assert Do(s1, events[1]) == s2;
    var s3 := Do(s2, events[2]);
    assert s3.list == [q] && s3.live == [q];
    assert Run(s0, events) == Run(s1, events[1..]) == Run(s2, events[1..][1..]) == Run(s3, []) == s3;
  }
}
