/**
The sessions of the message parser when several connections are at work. Each step is a critical section
or an access without the lock; only the walk over the tokens of a line, which is private, is one step.

A message points to the session that it opened, and such pointers are always good. The walk that looks
for a socket's old session goes through the list without the lock, so the session it stands on can be
freed under it; how, and when, is stated exactly. What a walk reads from a freed session is not part of
this model: the connection stops there.
*/
module SessionMachine {
  import opened Sessions

  /** How far a connection has got with a message: it is parsing it; it walks the list and stands on a
      session; it has found that its socket has no old session, or collected it; or the message
      points to the session it opened. */
  datatype Stage = Parsing | Walking(at: nat) | Collected | Serving

  datatype Work = Work(socket: Socket, stage: Stage)

  /** `work`: the messages that connections are working on. `lines` remembers the line of each request
      message; `broken` records the use of a message's pointer to a session that is gone, `strayed`
      a walk that stood on one. */
  datatype State = State(table: Table, work: map<nat, Work>, lines: map<nat, Line>, broken: bool, strayed: bool)

  function Init(): State {
    State(Table([], [], 0), map[], map[], false, false)
  }

  /** The connection of a socket is at work. */
  predicate Busy(s: State, a: Socket) {
    exists m :: m in s.work && s.work[m].socket == a
  }

  /** A connection handles one line at a time; several connections interleave freely. */
  datatype Step =
    | Arrive(socket: Socket, line: Line)  // a message is allocated for a line
    | Parse(m: nat)                       // the parser rejects it, or begins to walk the list
    | Walk(m: nat)                        // looks at one session: frees it if it is the socket's, or goes on
    | Open(m: nat)                        // a session is inserted
    | Reply(m: nat)                       // a reply is allocated and linked through the message's pointer
    | LooseReply(m: nat)
    | Finish(m: nat)                      // the session is freed through the message's pointer
    | Leave(m: nat)                       // the request ends with its session still in the list

  predicate On(s: State, m: nat, stage: Stage) {
    m in s.work && s.work[m].stage == stage
  }

  predicate Walks(s: State, m: nat) {
    m in s.work && s.work[m].stage.Walking?
  }

  function Do(s: State, step: Step): State {
    match step
    case Arrive(a, line) => if Busy(s, a) then s else DoArrive(s, a, line)
    case Parse(m) => if On(s, m, Parsing) then DoParse(s, m) else s
    case Walk(m) => if Walks(s, m) then DoWalk(s, m) else s
    case Open(m) => if On(s, m, Collected) then DoOpen(s, m) else s
    case Reply(m) => if On(s, m, Serving) then DoReply(s, m) else s
    case LooseReply(m) => if On(s, m, Serving) then s.(table := Loose(s.table)) else s
    case Finish(m) => if On(s, m, Serving) then DoFinish(s, m) else s
    case Leave(m) => if On(s, m, Serving) then s.(work := s.work - {m}) else s
  }

  function DoArrive(s: State, a: Socket, line: Line): State {
    var m := s.table.next;
    s.(table := s.table.(next := m + 1), work := s.work[m := Work(a, Parsing)], lines := s.lines[m := line])
  }

  function To(s: State, m: nat, stage: Stage): State
    requires m in s.work
  {
    s.(work := s.work[m := Work(s.work[m].socket, stage)])
  }

  /** Where a walk goes: on to session k, or to the end of the list. */
  function Towards(sessions: seq<Session>, k: nat): Stage {
    if k < |sessions| then Walking(sessions[k].request) else Collected
  }

  function DoParse(s: State, m: nat): State
    requires m in s.work
  {
    if m !in s.lines || !ReachesNonce(s.lines[m]) then s.(work := s.work - {m})
    else if !NonceOk(s.lines[m].nonceBytes)
    then s.(table := s.table.(freed := s.table.freed + [m]), work := s.work - {m})
    else To(s, m, Towards(s.table.sessions, 0))
  }

  function DoWalk(s: State, m: nat): State
    requires Walks(s, m)
  {
    var k := At(s.table.sessions, s.work[m].stage.at);
    if k == |s.table.sessions| then s.(strayed := true)
    else if s.table.sessions[k].socket == s.work[m].socket
    then To(s, m, Collected).(table := FreeAt(s.table, k))
    else To(s, m, Towards(s.table.sessions, k + 1))
  }

  function DoOpen(s: State, m: nat): State
    requires m in s.work
  {
    To(s, m, Serving).(table := Insert(s.table, s.work[m].socket, m))
  }

  function DoReply(s: State, m: nat): State {
    if Live(s.table, m) then s.(table := Link(s.table, m)) else s.(broken := true)
  }

  function DoFinish(s: State, m: nat): State {
    if Live(s.table, m) then s.(table := Free(s.table, m), work := s.work - {m})
    else s.(broken := true)
  }

  function Run(s: State, steps: seq<Step>): State
    decreases |steps|
  {
    if steps == [] then s else Run(Do(s, steps[0]), steps[1..])
  }

  // ----- Every pointer of a message is good -----

  /** No socket has two messages at work; each such message has a line, and one that got past parsing has
      a line that reached its nonce. */
  ghost predicate Connected(s: State) {
    && (forall m :: m in s.lines ==> m < s.table.next)
    && (forall m :: m in s.work ==>
          m in s.lines && (s.work[m].stage.Parsing? || ReachesNonce(s.lines[m])))
    && (forall x, y :: x in s.work && y in s.work && x != y ==> s.work[x].socket != s.work[y].socket)
  }

  /** What the stage of a message says about the list. */
  ghost predicate StageOk(sessions: seq<Session>, m: nat, w: Work) {
    match w.stage
    case Parsing => NoRequest(sessions, m)
    case Walking(r) => NoRequest(sessions, m) && Passed(sessions, r, w.socket)
    case Collected => NoRequest(sessions, m) && NoSocket(sessions, w.socket)
    case Serving => Has(sessions, w.socket, m)
  }

  ghost predicate Pointed(s: State) {
    && !s.broken && Distinct(s.table.sessions)
    && (forall k :: 0 <= k < |s.table.sessions| ==> s.table.sessions[k].request in s.lines)
    && (forall m :: m in s.work ==> StageOk(s.table.sessions, m, s.work[m]))
  }

  lemma ConnectedArrive(s: State, a: Socket, line: Line)
    requires Connected(s) && !Busy(s, a)
    ensures Connected(DoArrive(s, a, line))
  {
  }

  lemma ConnectedParse(s: State, m: nat)
    requires Connected(s) && On(s, m, Parsing)
    ensures Connected(DoParse(s, m))
  {
  }

  lemma ConnectedWalk(s: State, m: nat)
    requires Connected(s) && Walks(s, m)
    ensures Connected(DoWalk(s, m))
  {
  }

  lemma DoConnected(s: State, step: Step)
    requires Connected(s)
    ensures Connected(Do(s, step))
  {
    match step
    case Arrive(a, line) => if !Busy(s, a) { ConnectedArrive(s, a, line); }
    case Parse(m) => if On(s, m, Parsing) { ConnectedParse(s, m); }
    case Walk(m) => if Walks(s, m) { ConnectedWalk(s, m); }
    case _ =>
  }

  /** A step that removes at most a session of the socket of m, and touches no other message at work. */
  lemma PointedAgree(s: State, t: State, m: nat)
    requires Pointed(s) && Connected(s) && m in s.work && !t.broken && t.lines == s.lines
    requires Distinct(t.table.sessions) && Agree(s.table.sessions, t.table.sessions, s.work[m].socket)
    requires forall k :: 0 <= k < |t.table.sessions| ==> t.table.sessions[k].request in s.lines
    requires forall x :: x in t.work && x != m ==> x in s.work && t.work[x] == s.work[x]
    requires m in t.work ==> StageOk(t.table.sessions, m, t.work[m])
    ensures Pointed(t)
  {
    forall x | x in t.work ensures StageOk(t.table.sessions, x, t.work[x]) {
      if x != m {
        assert StageOk(s.table.sessions, x, s.work[x]) && s.work[x].socket != s.work[m].socket;
      }
    }
  }

  lemma WithoutRequests(s: State, k: nat)
    requires Pointed(s) && k < |s.table.sessions|
    ensures var r := Without(s.table.sessions, k); forall j :: 0 <= j < |r| ==> r[j].request in s.lines
  {
    var r := Without(s.table.sessions, k);
    assert forall j :: 0 <= j < |r| ==> r[j] == if j < k then s.table.sessions[j] else s.table.sessions[j + 1];
  }

  lemma PointedArrive(s: State, a: Socket, line: Line)
    requires Pointed(s) && Connected(s)
    ensures Pointed(DoArrive(s, a, line))
  {
    var t := DoArrive(s, a, line);
    assert NoRequest(s.table.sessions, s.table.next) by {
      forall k | 0 <= k < |s.table.sessions| ensures s.table.sessions[k].request != s.table.next {
        assert s.table.sessions[k].request in s.lines;
      }
    }
    forall x | x in t.work ensures StageOk(t.table.sessions, x, t.work[x]) {
      if x != s.table.next {
        assert StageOk(s.table.sessions, x, s.work[x]);
      }
    }
  }

  lemma AgreeSame(sessions: seq<Session>, a: Socket)
    ensures Agree(sessions, sessions, a)
  {
  }

  lemma PointedParse(s: State, m: nat)
    requires Pointed(s) && Connected(s) && On(s, m, Parsing)
    ensures Pointed(DoParse(s, m))
  {
    assert StageOk(s.table.sessions, m, s.work[m]);
    AgreeSame(s.table.sessions, s.work[m].socket);
    TowardsOk(s.table.sessions, 0, s.work[m].socket);
    PointedAgree(s, DoParse(s, m), m);
  }

  /** Before session k there is none of the socket: where the walk goes next, this is still so. */
  lemma TowardsOk(sessions: seq<Session>, k: nat, a: Socket)
    requires Distinct(sessions) && k <= |sessions| && forall j :: 0 <= j < k ==> sessions[j].socket != a
    ensures match Towards(sessions, k)
            case Walking(r) => Passed(sessions, r, a)
            case _ => NoSocket(sessions, a)
  {
  }

  lemma PointedWalk(s: State, m: nat)
    requires Pointed(s) && Connected(s) && Walks(s, m)
    ensures Pointed(DoWalk(s, m))
  {
    var c, a := s.table.sessions, s.work[m].socket;
    var k := At(c, s.work[m].stage.at);
    assert StageOk(c, m, s.work[m]);
    if k == |c| {
      PointedSame(s, DoWalk(s, m));
    } else if c[k].socket == a {
      WithoutRequests(s, k);
      WithoutAgrees(c, k);
      PointedAgree(s, DoWalk(s, m), m);
    } else {
      AgreeSame(c, a);
      TowardsOk(c, k + 1, a);
      PointedAgree(s, DoWalk(s, m), m);
    }
  }

  lemma PointedOpen(s: State, m: nat)
    requires Pointed(s) && Connected(s) && On(s, m, Collected)
    ensures Pointed(DoOpen(s, m))
  {
    var t, a := DoOpen(s, m), s.work[m].socket;
    var c, r := s.table.sessions, t.table.sessions;
    assert StageOk(c, m, s.work[m]);
    InsertAgrees(s.table, a, m);
    assert forall j :: 1 <= j < |r| ==> r[j] == c[j - 1];
    forall x | x in t.work ensures StageOk(r, x, t.work[x]) {
      if x != m {
        assert StageOk(c, x, s.work[x]) && s.work[x].socket != a;
      }
    }
  }

  lemma ServingLive(s: State, m: nat)
    requires Pointed(s) && On(s, m, Serving)
    ensures Live(s.table, m) && s.table.sessions[At(s.table.sessions, m)].socket == s.work[m].socket
  {
    assert StageOk(s.table.sessions, m, s.work[m]);
    HasAt(s.table.sessions, s.work[m].socket, m);
  }

  lemma PointedReply(s: State, m: nat)
    requires Pointed(s) && On(s, m, Serving)
    ensures Pointed(DoReply(s, m)) && Live(s.table, m)
  {
    var t := DoReply(s, m);
    ServingLive(s, m);
    LinkAgrees(s.table, m);
    var c, r := s.table.sessions, t.table.sessions;
    assert |r| == |c| && forall j :: 0 <= j < |r| ==> r[j].request == c[j].request;
    forall x | x in t.work ensures StageOk(r, x, t.work[x]) {
      assert StageOk(c, x, s.work[x]);
    }
  }

  lemma PointedFinish(s: State, m: nat)
    requires Pointed(s) && Connected(s) && On(s, m, Serving)
    ensures Pointed(DoFinish(s, m)) && Live(s.table, m)
  {
    ServingLive(s, m);
    var k := At(s.table.sessions, m);
    WithoutRequests(s, k);
    WithoutAgrees(s.table.sessions, k);
    PointedAgree(s, DoFinish(s, m), m);
  }

  lemma PointedSame(s: State, t: State)
    requires Pointed(s) && t.table.sessions == s.table.sessions && t.lines == s.lines && t.broken == s.broken
    requires forall x :: x in t.work ==> x in s.work && t.work[x] == s.work[x]
    ensures Pointed(t)
  {
    forall x | x in t.work ensures StageOk(t.table.sessions, x, t.work[x]) {
      assert StageOk(s.table.sessions, x, s.work[x]);
    }
  }

  /** No step follows a message's pointer to a session that is gone, and every step keeps it so. */
  lemma DoPointed(s: State, step: Step)
    requires Pointed(s) && Connected(s)
    ensures Pointed(Do(s, step))
  {
    match step
    case Arrive(a, line) => PointedArrive(s, a, line);
    case Parse(m) => if On(s, m, Parsing) { PointedParse(s, m); }
    case Walk(m) => if Walks(s, m) { PointedWalk(s, m); }
    case Open(m) => if On(s, m, Collected) { PointedOpen(s, m); }
    case Reply(m) => if On(s, m, Serving) { PointedReply(s, m); }
    case LooseReply(_) => PointedSame(s, Do(s, step));
    case Finish(m) => if On(s, m, Serving) { PointedFinish(s, m); }
    case Leave(_) => PointedSame(s, Do(s, step));
  }

  // ----- Every message is accounted for -----

  /** A connection is still parsing the message. */
  predicate Pending(s: State, m: nat) {
    m in s.work && !s.work[m].stage.Serving?
  }

  /** The message was allocated for a line that is rejected before its nonce. */
  predicate Rejected(s: State, m: nat) {
    m in s.lines && !ReachesNonce(s.lines[m])
  }

  /** How often a message is to be accounted for: once it was allocated, it was freed once or is held
      by one session once, except while it is being parsed and if it was rejected before its nonce. */
  function Due(s: State, m: nat): nat {
    if m < s.table.next && !Pending(s, m) && !Rejected(s, m) then 1 else 0
  }

  ghost predicate Accounted(s: State) {
    forall m: nat :: Count(s.table, m) == Due(s, m)
  }

  lemma AccountedArrive(s: State, a: Socket, line: Line)
    requires Connected(s) && Accounted(s)
    ensures Accounted(DoArrive(s, a, line))
  {
    var t := DoArrive(s, a, line);
    forall m: nat ensures Count(t.table, m) == Due(t, m) {
      assert Count(t.table, m) == Count(s.table, m) == Due(s, m);
    }
  }

  /** The nonce is refused: the message is freed, and no longer pending. */
  lemma AccountedRefuse(s: State, t: State, x: nat)
    requires Connected(s) && Accounted(s) && On(s, x, Parsing) && !Rejected(s, x)
    requires t == s.(table := s.table.(freed := s.table.freed + [x]), work := s.work - {x})
    ensures Accounted(t)
  {
    forall m: nat ensures Count(t.table, m) == Due(t, m) {
      assert Count(t.table, m) == Count(s.table, m) + (if m == x then 1 else 0);
      assert Count(s.table, m) == Due(s, m);
    }
  }

  /** Steps on a message that stays pending. */
  lemma AccountedPending(s: State, t: State, x: nat)
    requires Accounted(s) && x in s.work && !s.work[x].stage.Serving? && t.lines == s.lines
    requires x in t.work && !t.work[x].stage.Serving? && t.work == s.work[x := t.work[x]]
    requires t.table.next == s.table.next && forall m: nat :: Count(t.table, m) == Count(s.table, m)
    ensures Accounted(t)
  {
    forall m: nat ensures Count(t.table, m) == Due(t, m) {
      assert Pending(t, m) == Pending(s, m) && Count(s.table, m) == Due(s, m);
    }
  }

  lemma AccountedParse(s: State, x: nat)
    requires Connected(s) && Accounted(s) && On(s, x, Parsing)
    ensures Accounted(DoParse(s, x))
  {
    var t := DoParse(s, x);
    if Rejected(s, x) {
      forall m: nat ensures Count(t.table, m) == Due(t, m) {
        assert Count(s.table, m) == Due(s, m);
      }
    } else if !NonceOk(s.lines[x].nonceBytes) {
      AccountedRefuse(s, t, x);
    } else {
      AccountedPending(s, t, x);
    }
  }

  lemma AccountedFound(s: State, t: State, x: nat, k: nat)
    requires Accounted(s) && Walks(s, x) && k < |s.table.sessions|
    requires t == To(s, x, Collected).(table := FreeAt(s.table, k))
    ensures Accounted(t)
  {
    forall m: nat ensures Count(t.table, m) == Count(s.table, m) {
      CountFree(s.table, k, m);
    }
    AccountedPending(s, t, x);
  }

  lemma AccountedStrayed(s: State)
    requires Accounted(s)
    ensures Accounted(s.(strayed := true))
  {
    var t := s.(strayed := true);
    forall m: nat ensures Count(t.table, m) == Due(t, m) {
      assert Count(s.table, m) == Due(s, m);
    }
  }

  lemma AccountedWalk(s: State, x: nat)
    requires Accounted(s) && Walks(s, x)
    ensures Accounted(DoWalk(s, x))
  {
    var t, k := DoWalk(s, x), At(s.table.sessions, s.work[x].stage.at);
    if k == |s.table.sessions| {
      AccountedStrayed(s);
    } else if s.table.sessions[k].socket == s.work[x].socket {
      AccountedFound(s, t, x, k);
    } else {
      AccountedPending(s, t, x);
    }
  }

  lemma AccountedOpen(s: State, x: nat)
    requires Connected(s) && Accounted(s) && On(s, x, Collected)
    ensures Accounted(DoOpen(s, x))
  {
    var t := DoOpen(s, x);
    forall m: nat ensures Count(t.table, m) == Due(t, m) {
      assert Count(s.table, m) == Due(s, m);
      CountInsert(s.table, s.work[x].socket, x, m);
    }
  }

  /** Steps that allocate one message, and free or link it, and leave the work alone. */
  lemma AccountedOneMore(s: State, t: State)
    requires Connected(s) && Accounted(s) && t.work == s.work && t.lines == s.lines
    requires t.table.next == s.table.next + 1
    requires forall m: nat :: Count(t.table, m) == Count(s.table, m) + (if m == s.table.next then 1 else 0)
    ensures Accounted(t)
  {
    forall m: nat ensures Count(t.table, m) == Due(t, m) {
      assert Count(s.table, m) == Due(s, m);
    }
  }

  /** Steps that end a request. */
  lemma AccountedEnd(s: State, t: State, x: nat)
    requires Connected(s) && Accounted(s) && On(s, x, Serving)
    requires t.work == s.work - {x} && t.lines == s.lines && t.table.next == s.table.next
    requires forall m: nat :: Count(t.table, m) == Count(s.table, m)
    ensures Accounted(t)
  {
    forall m: nat ensures Count(t.table, m) == Due(t, m) {
      assert Count(s.table, m) == Due(s, m);
    }
  }

  lemma DoAccounted(s: State, step: Step)
    requires Pointed(s) && Connected(s) && Accounted(s)
    ensures Accounted(Do(s, step))
  {
    var t := Do(s, step);
    match step
    case Arrive(a, line) => AccountedArrive(s, a, line);
    case Parse(x) => if On(s, x, Parsing) { AccountedParse(s, x); }
    case Walk(x) => if Walks(s, x) { AccountedWalk(s, x); }
    case Open(x) => if On(s, x, Collected) { AccountedOpen(s, x); }
    case Reply(x) =>
      if On(s, x, Serving) {
        PointedReply(s, x);
        forall m: nat ensures Count(t.table, m) == Count(s.table, m) + (if m == s.table.next then 1 else 0) {
          CountLink(s.table, x, m);
        }
        AccountedOneMore(s, t);
      }
    case LooseReply(x) => if On(s, x, Serving) { AccountedOneMore(s, t); }
    case Finish(x) =>
      if On(s, x, Serving) {
        PointedFinish(s, x);
        forall m: nat ensures Count(t.table, m) == Count(s.table, m) {
          CountFree(s.table, At(s.table.sessions, x), m);
        }
        AccountedEnd(s, t, x);
      }
    case Leave(x) => if On(s, x, Serving) { AccountedEnd(s, t, x); }
  }

  ghost predicate Inv(s: State) {
    Connected(s) && Pointed(s) && Accounted(s)
  }

  lemma {:induction false} RunInv(s: State, steps: seq<Step>)
    requires Inv(s)
    ensures Inv(Run(s, steps))
    decreases |steps|
  {
    if steps != [] {
      DoConnected(s, steps[0]);
      DoPointed(s, steps[0]);
      DoAccounted(s, steps[0]);
      RunInv(Do(s, steps[0]), steps[1..]);
    }
  }

  lemma InitInv()
    ensures Inv(Init())
  {
  }

  // ----- Whole runs -----

  /** Over every interleaving of lines on any connections: no message's pointer to a freed session is
      ever followed, no two sessions share a socket, and every message is freed at most once, held by
      at most one session, and not both. */
  lemma SessionOwnership(steps: seq<Step>, m: nat)
    ensures var s := Run(Init(), steps); var t := s.table;
      && !s.broken
      && Distinct(t.sessions)
      && multiset(t.freed)[m] + Held(t.sessions)[m] <= 1
      && (m >= t.next ==> m !in t.freed && Held(t.sessions)[m] == 0)
  {
    InitInv();
    RunInv(Init(), steps);
    var s := Run(Init(), steps);
    assert Count(s.table, m) == Due(s, m);
  }

  /** A message that is no longer being parsed was freed once or is held once, if and only if it was
      not allocated for a line that is rejected before its nonce. */
  lemma NothingLostIff(steps: seq<Step>, m: nat)
    ensures var s := Run(Init(), steps);
      m < s.table.next && !Pending(s, m) ==>
        (multiset(s.table.freed)[m] + Held(s.table.sessions)[m] == 1 <==> !Rejected(s, m))
  {
    InitInv();
    RunInv(Init(), steps);
    var s := Run(Init(), steps);
    assert Count(s.table, m) == Due(s, m);
  }

  /** A line on which the tokenizer fails: its message is neither freed nor held by a session. */
  lemma MalformedIsLost(line: Line)
    requires line.count < 0
    ensures var s := Run(Init(), [Arrive(0, line), Parse(0)]);
      s.table.next == 1 && s.work == map[] && s.table.freed == [] && s.table.sessions == []
  {
    var s := Do(Init(), Arrive(0, line));
    RunTwo(Init(), Arrive(0, line), Parse(0));
    assert s.work == map[0 := Work(0, Parsing)];
    assert s.work - {0} == map[];
  }

  /** The pointers stay good because a connection handles one line at a time: collecting the session of a
      socket leaves every pointer in use good, if and only if no message of that socket points to
      a session. */
  lemma CollectSafeIff(steps: seq<Step>, a: Socket)
    ensures var s := Run(Init(), steps);
      (forall m :: On(s, m, Serving) ==> Live(Collect(s.table, a), m))
      <==> !(exists m :: On(s, m, Serving) && s.work[m].socket == a)
  {
    InitInv();
    RunInv(Init(), steps);
    var s := Run(Init(), steps);
    var c := Collect(s.table, a);
    CollectAgrees(s.table, a);
    forall m | On(s, m, Serving) ensures Live(c, m) <==> s.work[m].socket != a {
      var b := s.work[m].socket;
      assert StageOk(s.table.sessions, m, s.work[m]);
      HasAt(s.table.sessions, b, m);
      if b != a {
        HasAt(c.sessions, b, m);
      } else {
        WithoutAgrees(s.table.sessions, Find(s.table.sessions, a));
      }
    }
  }

  /** A request that runs to its end frees the session that it opened, with its replies and itself,
      and leaves none for its socket; the others stay as they are. */
  lemma CompletedLeavesNone(steps: seq<Step>, m: nat)
    requires On(Run(Init(), steps), m, Serving)
    ensures var s := Run(Init(), steps); var t := Do(s, Finish(m)); var a := s.work[m].socket;
      && Live(s.table, m) && s.table.sessions[At(s.table.sessions, m)].socket == a
      && t.table == FreeAt(s.table, At(s.table.sessions, m))
      && NoSocket(t.table.sessions, a) && NoRequest(t.table.sessions, m) && m !in t.work
  {
    InitInv();
    RunInv(Init(), steps);
    var s := Run(Init(), steps);
    ServingLive(s, m);
    WithoutAgrees(s.table.sessions, At(s.table.sessions, m));
  }

  /** At every point of every run the list is in order and the next message is new to it, as the statements
      about whole lines need it. */
  lemma AlwaysSound(steps: seq<Step>)
    ensures Sound(Run(Init(), steps).table)
  {
    InitInv();
    RunInv(Init(), steps);
    var s := Run(Init(), steps);
    assert Count(s.table, s.table.next) == Due(s, s.table.next);
    forall k | 0 <= k < |s.table.sessions| ensures s.table.sessions[k].request != s.table.next {
      assert s.table.sessions[k].request in s.lines;
    }
  }

  // ----- The walk -----

  /** Every walk stands on a session that is there. */
  ghost predicate Steady(s: State) {
    forall y :: Walks(s, y) ==> Live(s.table, s.work[y].stage.at)
  }

  /** The session that a step frees, by the number of its request. */
  function Frees(s: State, step: Step): set<nat> {
    match step
    case Finish(m) => if On(s, m, Serving) && Live(s.table, m) then {m} else {}
    case Walk(m) =>
      if Walks(s, m) && Live(s.table, s.work[m].stage.at)
         && s.table.sessions[At(s.table.sessions, s.work[m].stage.at)].socket == s.work[m].socket
      then {s.work[m].stage.at} else {}
    case _ => {}
  }

  /** The step frees the session on which another connection's walk stands. */
  ghost predicate Undermines(s: State, step: Step) {
    exists y :: Walks(s, y) && step != Walk(y) && s.work[y].stage.at in Frees(s, step)
  }

  lemma LiveWithout(t: Table, k: nat, r: nat)
    requires Distinct(t.sessions) && k < |t.sessions| && Live(t, r)
    ensures Live(FreeAt(t, k), r) <==> t.sessions[k].request != r
  {
    var c, f, i := t.sessions, FreeAt(t, k).sessions, At(t.sessions, r);
    assert forall j :: 0 <= j < |f| ==> f[j] == if j < k then c[j] else c[j + 1];
    if i != k {
      assert f[if i < k then i else i - 1].request == r;
    }
  }

  lemma LiveInsert(t: Table, a: Socket, x: nat, r: nat)
    requires Live(t, r)
    ensures Live(Insert(t, a, x), r)
  {
    var c, f := t.sessions, Insert(t, a, x).sessions;
    assert f[At(c, r) + 1].request == r;
  }

  lemma LiveLink(t: Table, x: nat, r: nat)
    requires Live(t, x) && Live(t, r)
    ensures Live(Link(t, x), r)
  {
    var c, f := t.sessions, Link(t, x).sessions;
    assert f[At(c, r)].request == r;
  }

  lemma LiveAt(t: Table, k: nat)
    requires k < |t.sessions|
    ensures Live(t, t.sessions[k].request)
  {
  }

  lemma SteadyFinish(s: State, m: nat)
    requires Inv(s) && Steady(s) && On(s, m, Serving)
    ensures Steady(DoFinish(s, m)) <==> !Undermines(s, Finish(m))
  {
    ServingLive(s, m);
    var t, k := DoFinish(s, m), At(s.table.sessions, m);
    forall y | Walks(s, y) ensures Walks(t, y) && (Live(t.table, s.work[y].stage.at) <==> s.work[y].stage.at != m) {
      LiveWithout(s.table, k, s.work[y].stage.at);
    }
    forall y | Walks(t, y) ensures Walks(s, y) && t.work[y] == s.work[y] {
    }
  }

  lemma SteadyCollect(s: State, m: nat)
    requires Inv(s) && Steady(s) && Walks(s, m) && Frees(s, Walk(m)) != {}
    ensures Steady(DoWalk(s, m)) <==> !Undermines(s, Walk(m))
  {
    var r := s.work[m].stage.at;
    var t, k := DoWalk(s, m), At(s.table.sessions, r);
    forall y | Walks(s, y) && y != m
      ensures Walks(t, y) && t.work[y] == s.work[y] && (Live(t.table, s.work[y].stage.at) <==> s.work[y].stage.at != r)
    {
      LiveWithout(s.table, k, s.work[y].stage.at);
    }
    forall y | Walks(t, y) ensures y != m && Walks(s, y) && t.work[y] == s.work[y] {
    }
  }

  /** Steps that free nothing keep every walk steady. */
  lemma SteadyKept(s: State, t: State, m: nat)
    requires Steady(s)
    requires forall r :: Live(s.table, r) ==> Live(t.table, r)
    requires forall y :: Walks(t, y) && y != m ==> Walks(s, y) && t.work[y] == s.work[y]
    requires Walks(t, m) ==> Live(t.table, t.work[m].stage.at)
    ensures Steady(t)
  {
  }

  lemma SteadyOpen(s: State, m: nat)
    requires Steady(s) && On(s, m, Collected)
    ensures Steady(DoOpen(s, m))
  {
    var t := DoOpen(s, m);
    forall r | Live(s.table, r) ensures Live(t.table, r) {
      LiveInsert(s.table, s.work[m].socket, m, r);
    }
    SteadyKept(s, t, m);
  }

  lemma SteadyReply(s: State, m: nat)
    requires Steady(s) && On(s, m, Serving)
    ensures Steady(DoReply(s, m))
  {
    var t := DoReply(s, m);
    if Live(s.table, m) {
      forall r | Live(s.table, r) ensures Live(t.table, r) {
        LiveLink(s.table, m, r);
      }
    }
    SteadyKept(s, t, m);
  }

  lemma SteadyParse(s: State, m: nat)
    requires Steady(s) && On(s, m, Parsing)
    ensures Steady(DoParse(s, m))
  {
    if s.table.sessions != [] {
      LiveAt(s.table, 0);
    }
    SteadyKept(s, DoParse(s, m), m);
  }

  lemma SteadyWalkOn(s: State, m: nat)
    requires Steady(s) && Walks(s, m) && Frees(s, Walk(m)) == {}
    ensures Steady(DoWalk(s, m))
  {
    var k := At(s.table.sessions, s.work[m].stage.at);
    if k + 1 < |s.table.sessions| {
      LiveAt(s.table, k + 1);
    }
    SteadyKept(s, DoWalk(s, m), m);
  }

  /** In a reachable state in which every walk stands on a session that is there, a step leaves it so if
      and only if it does not free the session under another connection's walk. */
  lemma SteadyIff(s: State, step: Step)
    requires Inv(s) && Steady(s)
    ensures Steady(Do(s, step)) <==> !Undermines(s, step)
  {
    match step
    case Arrive(_, _) => SteadyKept(s, Do(s, step), s.table.next);
    case Parse(m) => if On(s, m, Parsing) { SteadyParse(s, m); }
    case Walk(m) =>
      if Walks(s, m) {
        if Frees(s, step) == {} { SteadyWalkOn(s, m); } else { SteadyCollect(s, m); }
      }
    case Open(m) => if On(s, m, Collected) { SteadyOpen(s, m); }
    case Reply(m) => if On(s, m, Serving) { SteadyReply(s, m); }
    case LooseReply(m) => SteadyKept(s, Do(s, step), m);
    case Finish(m) => if On(s, m, Serving) { SteadyFinish(s, m); }
    case Leave(m) => SteadyKept(s, Do(s, step), m);
  }

  /** No step of a run frees the session under another connection's walk. */
  ghost predicate NeverUndermines(s: State, steps: seq<Step>)
    decreases |steps|
  {
    steps == [] || (!Undermines(s, steps[0]) && NeverUndermines(Do(s, steps[0]), steps[1..]))
  }

  /** Walks are steady all along a run. */
  ghost predicate AlwaysSteady(s: State, steps: seq<Step>)
    decreases |steps|
  {
    Steady(s) && (steps == [] || AlwaysSteady(Do(s, steps[0]), steps[1..]))
  }

  lemma DoStrays(s: State, step: Step)
    requires Steady(s) && !s.strayed
    ensures !Do(s, step).strayed
  {
  }

  /** Over every run: all walks stand on sessions that are there, all the time, if and only if no step
      frees the session under another connection's walk; and then no walk reads a freed session. */
  lemma {:induction false} WalksSafeIff(s: State, steps: seq<Step>)
    requires Inv(s) && Steady(s) && !s.strayed
    ensures AlwaysSteady(s, steps) <==> NeverUndermines(s, steps)
    ensures NeverUndermines(s, steps) ==> !Run(s, steps).strayed
    decreases |steps|
  {
    if steps != [] {
      var t := Do(s, steps[0]);
      SteadyIff(s, steps[0]);
      DoConnected(s, steps[0]);
      DoPointed(s, steps[0]);
      DoAccounted(s, steps[0]);
      DoStrays(s, steps[0]);
      if Steady(t) {
        WalksSafeIff(t, steps[1..]);
      }
    }
  }

  /** A walk that has lost its session reads it at its next step. */
  lemma LostWalkStrays(s: State, y: nat)
    requires Walks(s, y) && !Live(s.table, s.work[y].stage.at)
    ensures Do(s, Walk(y)).strayed
  {
  }

  /** Socket 1 walks onto the session of socket 0, whose request then ends. */
  function Undermining(line: Line): seq<Step> {
    [Arrive(0, line), Parse(0)] + [Open(0), Arrive(1, line)] + [Parse(1), Finish(0)] + [Walk(1)]
  }

  lemma WalkCanStray(line: Line)
    requires Accepted(line)
    ensures Run(Init(), Undermining(line)).strayed
  {
    var a := Do(Do(Init(), Arrive(0, line)), Parse(0));
    assert a.work == map[0 := Work(0, Collected)] && a.lines == map[0 := line];
    var b := Do(a, Open(0));
    assert b.table == Table([Session(0, 0, [])], [], 1) && b.work == map[0 := Work(0, Serving)];
    assert !Busy(b, 1);
    var c := Do(b, Arrive(1, line));
    assert c.work == map[0 := Work(0, Serving), 1 := Work(1, Parsing)] && c.lines[1] == line;
    var d := Do(c, Parse(1));
    assert d.work == map[0 := Work(0, Serving), 1 := Work(1, Walking(0))] && d.table.sessions == [Session(0, 0, [])];
    var e := Do(d, Finish(0));
    assert e.table.sessions == [] && Walks(e, 1);
    RunTwo(Init(), Arrive(0, line), Parse(0));
    RunTwo(a, Open(0), Arrive(1, line));
    RunTwo(c, Parse(1), Finish(0));
    RunOne(e, Walk(1));
    RunAppend(Init(), [Arrive(0, line), Parse(0)], [Open(0), Arrive(1, line)]);
    RunAppend(Init(), [Arrive(0, line), Parse(0)] + [Open(0), Arrive(1, line)], [Parse(1), Finish(0)]);
    RunAppend(Init(), [Arrive(0, line), Parse(0)] + [Open(0), Arrive(1, line)] + [Parse(1), Finish(0)], [Walk(1)]);
  }

  // ----- The methods are runs -----

  lemma {:induction false} RunAppend(s: State, a: seq<Step>, b: seq<Step>)
    ensures Run(s, a + b) == Run(Run(s, a), b)
    decreases |a|
  {
    if a == [] {
      assert a + b == b;
    } else {
      assert (a + b)[1..] == a[1..] + b;
      RunAppend(Do(s, a[0]), a[1..], b);
    }
  }

  lemma RunOne(s: State, a: Step)
    ensures Run(s, [a]) == Do(s, a)
  {
    assert [a][1..] == [];
  }

  lemma RunTwo(s: State, a: Step, b: Step)
    ensures Run(s, [a, b]) == Do(Do(s, a), b)
  {
    RunAppend(s, [a], [b]);
    RunOne(s, a);
    RunOne(Do(s, a), b);
    assert [a, b] == [a] + [b];
  }

  function Replies(m: nat, n: nat): seq<Step> {
    if n == 0 then [] else Replies(m, n - 1) + [Reply(m)]
  }

  predicate Ready(s: State, m: nat) {
    On(s, m, Serving) && Live(s.table, m)
  }

  lemma {:induction false} RunReplies(s: State, m: nat, n: nat)
    requires Ready(s, m)
    ensures Run(s, Replies(m, n)) == s.(table := LinkMany(s.table, m, n))
  {
    if n > 0 {
      RunReplies(s, m, n - 1);
      RunAppend(s, Replies(m, n - 1), [Reply(m)]);
      RunOne(s.(table := LinkMany(s.table, m, n - 1)), Reply(m));
    }
  }

  /** The steps of a command. */
  function CommandSteps(m: nat, c: Command): seq<Step> {
    match c
    case Invalid => [Leave(m)]
    case Connect => [Leave(m)]
    case ForState(StateNotFound) => [Leave(m)]
    case ForState(SensorError) => [Finish(m)]
    case ForState(NoReply) => [Finish(m)]
    case ForState(NoReplyLine) => [LooseReply(m), Finish(m)]
    case ForState(Replied(_)) => [Reply(m), Finish(m)]
    case ForRecords(RecordsNotFound) => [Leave(m)]
    case ForRecords(Ended(n, _, _)) => Replies(m, n) + [Finish(m)]
    case ForDiscovery(NoReplyMessage) => [Finish(m)]
    case ForDiscovery(NoBuffer) => [LooseReply(m), Finish(m)]
    case ForDiscovery(NoLine) => [LooseReply(m), Finish(m)]
    case ForDiscovery(Discovered) => [Reply(m), Finish(m)]
  }

  lemma FinishIs(s: State, m: nat)
    requires Ready(s, m)
    ensures Run(s, [Finish(m)]) == s.(table := Free(s.table, m), work := s.work - {m})
  {
    RunOne(s, Finish(m));
  }

  /** One step that keeps the message served, then the end. */
  lemma ThenFinish(s: State, first: Step, t: Table, m: nat)
    requires Ready(s, m) && Do(s, first) == s.(table := t) && Live(t, m)
    ensures Run(s, [first, Finish(m)]) == s.(table := Free(t, m), work := s.work - {m})
  {
    var u := s.(table := t);
    RunTwo(s, first, Finish(m));
    assert Ready(u, m) && Do(u, Finish(m)) == DoFinish(u, m);
  }

  lemma RepliesThenFinish(s: State, m: nat, n: nat)
    requires Ready(s, m)
    ensures Run(s, Replies(m, n) + [Finish(m)]) == s.(table := Free(LinkMany(s.table, m, n), m), work := s.work - {m})
  {
    RunReplies(s, m, n);
    RunAppend(s, Replies(m, n), [Finish(m)]);
    FinishIs(s.(table := LinkMany(s.table, m, n)), m);
  }

  lemma CommandIsRun(s: State, m: nat, c: Command)
    requires Ready(s, m)
    ensures Run(s, CommandSteps(m, c)) == s.(table := AfterCommand(s.table, m, c), work := s.work - {m})
  {
    var steps := CommandSteps(m, c);
    if steps == [Leave(m)] {
      RunOne(s, Leave(m));
    } else if steps == [Finish(m)] && !c.ForRecords? {
      FinishIs(s, m);
    } else if c.ForRecords? {
      RepliesThenFinish(s, m, c.records.replies);
    } else if steps[0].LooseReply? {
      ThenFinish(s, LooseReply(m), Loose(s.table), m);
    } else {
      LinkKeeps(s.table, m);
      ThenFinish(s, Reply(m), Link(s.table, m), m);
    }
  }

  /** The steps of an accepted message from its session on. */
  function ServeSteps(m: nat, line: Line): seq<Step> {
    [Open(m)] + if line.count > CMD then CommandSteps(m, CommandOf(line)) else [Leave(m)]
  }

  function WalkSteps(m: nat, n: nat): seq<Step> {
    seq(n, _ => Walk(m))
  }

  /** How many sessions an undisturbed walk looks at. */
  function WalkLength(sessions: seq<Session>, a: Socket): nat {
    var k := Find(sessions, a);
    if k < |sessions| then k + 1 else k
  }

  /** The steps of a connection on a line, for which message m is allocated. */
  function LineSteps(t: Table, a: Socket, m: nat, line: Line): seq<Step> {
    [Arrive(a, line), Parse(m)] +
    if !Accepted(line) then [] else WalkSteps(m, WalkLength(t.sessions, a)) + ServeSteps(m, line)
  }

  /** One step of an undisturbed walk. */
  lemma WalkStep(s: State, m: nat, k: nat)
    requires m in s.work && k < |s.table.sessions| && s.work[m].stage == Towards(s.table.sessions, k)
    requires Distinct(s.table.sessions)
    ensures Do(s, Walk(m)) ==
      if s.table.sessions[k].socket == s.work[m].socket
      then To(s, m, Collected).(table := FreeAt(s.table, k))
      else To(s, m, Towards(s.table.sessions, k + 1))
  {
    assert At(s.table.sessions, s.table.sessions[k].request) == k;
  }

  lemma RunWalk(s: State, m: nat, n: nat)
    requires n > 0
    ensures Run(s, WalkSteps(m, n)) == Run(Do(s, Walk(m)), WalkSteps(m, n - 1))
  {
    assert WalkSteps(m, n)[1..] == WalkSteps(m, n - 1);
  }

  /** The state when a walk has ended: the socket's old session is collected. */
  function Walked(s: State, m: nat): State
    requires m in s.work
  {
    To(s, m, Collected).(table := Collect(s.table, s.work[m].socket))
  }

  lemma WalkedOn(s: State, m: nat, stage: Stage)
    requires m in s.work
    ensures Walked(To(s, m, stage), m) == Walked(s, m)
  {
    assert To(To(s, m, stage), m, Collected).work == To(s, m, Collected).work;
  }

  lemma WalkedAlready(s: State, m: nat)
    requires On(s, m, Collected) && Find(s.table.sessions, s.work[m].socket) == |s.table.sessions|
    ensures Walked(s, m) == s
  {
    assert To(s, m, Collected).work == s.work;
  }

  /** The last step of a walk that finds its socket's session. */
  lemma WalkLast(s: State, m: nat, k: nat)
    requires m in s.work && k < |s.table.sessions| && s.work[m].stage == Towards(s.table.sessions, k)
    requires Distinct(s.table.sessions) && Find(s.table.sessions, s.work[m].socket) == k
    ensures Run(s, WalkSteps(m, 1)) == Walked(s, m)
  {
    WalkStep(s, m, k);
    RunWalk(s, m, 1);
    assert WalkSteps(m, 0) == [];
  }

  /** An undisturbed walk from session k on collects the session of the socket, if there is one. */
  lemma {:induction false} WalkIs(s: State, m: nat, k: nat)
    requires m in s.work && k <= |s.table.sessions| && s.work[m].stage == Towards(s.table.sessions, k)
    requires Distinct(s.table.sessions) && k <= Find(s.table.sessions, s.work[m].socket)
    ensures Run(s, WalkSteps(m, WalkLength(s.table.sessions, s.work[m].socket) - k)) == Walked(s, m)
    decreases |s.table.sessions| - k
  {
    var c, a := s.table.sessions, s.work[m].socket;
    if k == |c| {
      WalkedAlready(s, m);
    } else if c[k].socket == a {
      WalkLast(s, m, k);
    } else {
      WalkStep(s, m, k);
      RunWalk(s, m, WalkLength(c, a) - k);
      WalkIs(To(s, m, Towards(c, k + 1)), m, k + 1);
      WalkedOn(s, m, Towards(c, k + 1));
    }
  }

  lemma Rejects(s: State, a: Socket, line: Line)
    requires !Busy(s, a) && s.table.next !in s.work && !Accepted(line)
    ensures Run(s, [Arrive(a, line), Parse(s.table.next)]) ==
      State(AfterLine(s.table, a, line), s.work, s.lines[s.table.next := line], s.broken, s.strayed)
  {
    var m := s.table.next;
    RunTwo(s, Arrive(a, line), Parse(m));
    assert s.work[m := Work(a, Parsing)] - {m} == s.work;
  }

  /** The state when an accepted line has been parsed, and its connection begins to walk the list. */
  function Parsed(s: State, a: Socket, line: Line): State {
    var m := s.table.next;
    State(s.table.(next := m + 1), s.work[m := Work(a, Towards(s.table.sessions, 0))],
          s.lines[m := line], s.broken, s.strayed)
  }

  lemma Accepts(s: State, a: Socket, line: Line)
    requires !Busy(s, a) && s.table.next !in s.work && Accepted(line)
    ensures Run(s, [Arrive(a, line), Parse(s.table.next)]) == Parsed(s, a, line)
  {
    var m := s.table.next;
    var b := DoArrive(s, a, line);
    var stage := Towards(s.table.sessions, 0);
    RunTwo(s, Arrive(a, line), Parse(m));
    assert On(b, m, Parsing) && DoParse(b, m) == To(b, m, stage);
    assert s.work[m := Work(a, Parsing)][m := Work(a, stage)] == s.work[m := Work(a, stage)];
  }

  /** An accepted line: its session is opened, the command runs, or the line ends before it. */
  lemma OpenAndServe(s: State, a: Socket, m: nat, line: Line)
    requires m in s.work && s.work[m] == Work(a, Collected)
    ensures var r := Insert(s.table, a, m);
      Live(r, m) &&
      Run(s, ServeSteps(m, line)) ==
        s.(table := if line.count > CMD then AfterCommand(r, m, CommandOf(line)) else r, work := s.work - {m})
  {
    var u := Do(s, Open(m));
    var end := if line.count > CMD then CommandSteps(m, CommandOf(line)) else [Leave(m)];
    RunAppend(s, [Open(m)], end);
    RunOne(s, Open(m));
    assert Ready(u, m);
    assert u.work - {m} == s.work - {m};
    if line.count > CMD {
      CommandIsRun(u, m, CommandOf(line));
    } else {
      RunOne(u, Leave(m));
    }
  }

  lemma AcceptedIsRun(t: State, a: Socket, m: nat, line: Line)
    requires m in t.work && t.work[m] == Work(a, Towards(t.table.sessions, 0))
    requires Distinct(t.table.sessions) && Accepted(line)
    ensures Run(t, WalkSteps(m, WalkLength(t.table.sessions, a)) + ServeSteps(m, line)) ==
      t.(table := AfterParse(t.table, a, m, line), work := t.work - {m})
  {
    var u := Walked(t, m);
    WalkIs(t, m, 0);
    RunAppend(t, WalkSteps(m, WalkLength(t.table.sessions, a)), ServeSteps(m, line));
    OpenAndServe(u, a, m, line);
    assert u.work - {m} == t.work - {m};
  }

  /** The state when a line has been dealt with. */
  function Dealt(s: State, a: Socket, line: Line): State {
    State(AfterLine(s.table, a, line), s.work, s.lines[s.table.next := line], s.broken, s.strayed)
  }

  lemma ParsedIsDealt(s: State, a: Socket, line: Line)
    requires s.table.next !in s.work
    ensures var t, m := Parsed(s, a, line), s.table.next;
      t.(table := AfterParse(t.table, a, m, line), work := t.work - {m}) == Dealt(s, a, line)
  {
    assert Parsed(s, a, line).work - {s.table.next} == s.work;
  }

  lemma AcceptedLine(s: State, a: Socket, line: Line, rest: seq<Step>)
    requires !Busy(s, a) && s.table.next !in s.work && Distinct(s.table.sessions) && Accepted(line)
    requires rest == WalkSteps(s.table.next, WalkLength(s.table.sessions, a)) + ServeSteps(s.table.next, line)
    ensures Run(s, [Arrive(a, line), Parse(s.table.next)] + rest) == Dealt(s, a, line)
  {
    Accepts(s, a, line);
    RunAppend(s, [Arrive(a, line), Parse(s.table.next)], rest);
    AcceptedIsRun(Parsed(s, a, line), a, s.table.next, line);
    ParsedIsDealt(s, a, line);
  }

  /** A line that nothing interrupts, on a connection at rest, has the effect its method promises,
      whatever the line and the outcome of its command. */
  lemma LineIsRun(s: State, a: Socket, line: Line)
    requires !Busy(s, a) && s.table.next !in s.work && Distinct(s.table.sessions)
    ensures Run(s, LineSteps(s.table, a, s.table.next, line)) == Dealt(s, a, line)
  {
    var m := s.table.next;
    if Accepted(line) {
      AcceptedLine(s, a, line, WalkSteps(m, WalkLength(s.table.sessions, a)) + ServeSteps(m, line));
    } else {
      Rejects(s, a, line);
      assert [Arrive(a, line), Parse(m)] + [] == [Arrive(a, line), Parse(m)];
    }
  }

  /** At every point of every run, an accepted line that nothing interrupts, on a connection at rest, leaves
      its session behind if and only if it has no command or the command does not run to its end. */
  lemma LineLeavesIff(steps: seq<Step>, a: Socket, line: Line)
    requires !Busy(Run(Init(), steps), a) && Accepted(line)
    ensures var s := Run(Init(), steps);
      var t := Run(s, LineSteps(s.table, a, s.table.next, line));
      NoSocket(t.table.sessions, a) <==> line.count > CMD && Ends(CommandOf(line))
  {
    var s := Run(Init(), steps);
    InitInv();
    RunInv(Init(), steps);
    AlwaysSound(steps);
    LineIsRun(s, a, line);
    LeftBehindIff(s.table, a, line);
  }

  /** What `broken` records: a message whose pointer leads to a session that is gone, and a step that
      follows it. */
  lemma LostPointerBreaks(s: State, m: nat)
    requires On(s, m, Serving) && !Live(s.table, m)
    ensures Do(s, Reply(m)).broken && Do(s, Finish(m)).broken
  {
  }
}
