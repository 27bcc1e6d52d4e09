/**
The sessions of the message parser. A request message opens a session, which collects its reply
messages; at most one session exists for a socket, because a new request on a socket first collects
a session that an earlier request left behind.

Messages are numbered as they are allocated, and a pointer to a session is the number of the request
message that opened it. `freed` lists the messages freed so far, so that freeing one twice shows.
*/
module Sessions {

  type Socket = int

  datatype Session = Session(socket: Socket, request: nat, replies: seq<nat>)

  datatype Table = Table(sessions: seq<Session>, freed: seq<nat>, next: nat)

  /** The first session for a socket; the length if there is none. */
  function Find(sessions: seq<Session>, socket: Socket): (k: nat)
    ensures k <= |sessions|
    ensures k < |sessions| ==> sessions[k].socket == socket
    ensures forall j :: 0 <= j < k ==> sessions[j].socket != socket
  {
    if sessions == [] || sessions[0].socket == socket then 0 else 1 + Find(sessions[1..], socket)
  }

  /** Where a pointer to a session points; the length if that session is no longer there. */
  function At(sessions: seq<Session>, request: nat): (k: nat)
    ensures k <= |sessions|
    ensures k < |sessions| ==> sessions[k].request == request
    ensures forall j :: 0 <= j < k ==> sessions[j].request != request
  {
    if sessions == [] || sessions[0].request == request then 0 else 1 + At(sessions[1..], request)
  }

  predicate Live(t: Table, request: nat) {
    At(t.sessions, request) < |t.sessions|
  }

  function Without(sessions: seq<Session>, k: nat): seq<Session>
    requires k < |sessions|
  {
    sessions[..k] + sessions[k + 1..]
  }

  /** Unlinks session k and frees its replies and its request. */
  function FreeAt(t: Table, k: nat): Table
    requires k < |t.sessions|
  {
    var s := t.sessions[k];
    t.(sessions := Without(t.sessions, k), freed := t.freed + s.replies + [s.request])
  }

  function Free(t: Table, request: nat): Table
    requires Live(t, request)
  {
    FreeAt(t, At(t.sessions, request))
  }

  /** Garbage collection on a new request: a session of the same socket goes. */
  function Collect(t: Table, socket: Socket): Table {
    var k := Find(t.sessions, socket);
    if k < |t.sessions| then FreeAt(t, k) else t
  }

  function Insert(t: Table, socket: Socket, m: nat): Table {
    t.(sessions := [Session(socket, m, [])] + t.sessions)
  }

  /** A reply message that is allocated and freed without ever being linked. */
  function Loose(t: Table): Table {
    t.(freed := t.freed + [t.next], next := t.next + 1)
  }

  /** Allocates a reply message and links it to a session. */
  function Link(t: Table, request: nat): Table
    requires Live(t, request)
  {
    var k := At(t.sessions, request);
    var s := t.sessions[k];
    t.(sessions := t.sessions[k := s.(replies := s.replies + [t.next])], next := t.next + 1)
  }

  lemma LinkKeeps(t: Table, request: nat)
    requires Live(t, request)
    ensures At(Link(t, request).sessions, request) == At(t.sessions, request)
    ensures |Link(t, request).sessions| == |t.sessions|
  {
    var k, r := At(t.sessions, request), Link(t, request);
    assert r.sessions[k].request == request;
    assert forall j :: 0 <= j < k ==> r.sessions[j] == t.sessions[j];
  }

  function LinkMany(t: Table, request: nat, n: nat): (r: Table)
    requires Live(t, request)
    ensures Live(r, request)
    decreases n
  {
    if n == 0 then t else
      var m := LinkMany(t, request, n - 1);
      LinkKeeps(m, request);
      Link(m, request)
  }

  // ----- Commands -----

  const NUM_COMMANDS := 12
  const OFF := 2

  /** The words of the command table, and how many characters of each are compared. */
  const WORDS := ["connect", "discovery", "off", "on", "increase", "decrease", "low", "default", "high",
                  "adversarial", "reset", "records"]
  const LENGTHS: seq<nat> := [1, 2, 2, 2, 1, 3, 1, 3, 1, 1, 3, 3]

  /** JSMN_ERROR_INVAL; the source negates it once more. */
  const ERROR_INVAL := -2

  function Min(a: nat, b: nat): nat {
    if a <= b then a else b
  }

  /** The comparison ends with the shorter of the command and the length in the table. */
  predicate Matches(cmd: string, i: nat)
    requires i < NUM_COMMANDS
  {
    var n := Min(LENGTHS[i], |cmd|);
    n <= |WORDS[i]| && cmd[..n] == WORDS[i][..n]
  }

  /** The first match from i on; for none, what the source returns. */
  function IndexFrom(cmd: string, i: nat): (k: int)
    requires i <= NUM_COMMANDS
    decreases NUM_COMMANDS - i
  {
    if i == NUM_COMMANDS then -ERROR_INVAL
    else if Matches(cmd, i) then i
    else IndexFrom(cmd, i + 1)
  }

  method IndexCommand(cmd: string) returns (k: int)
    ensures k == IndexFrom(cmd, 0)
  {
    for i := 0 to NUM_COMMANDS
      invariant IndexFrom(cmd, 0) == IndexFrom(cmd, i)
    {
      var n := Min(LENGTHS[i], |cmd|);
      if n <= |WORDS[i]| && cmd[..n] == WORDS[i][..n] {
        return i;
      }
    }
    k := -ERROR_INVAL;
  }

  lemma {:induction false} IndexFromIs(cmd: string, i: nat)
    requires i <= NUM_COMMANDS
    ensures var k := IndexFrom(cmd, i);
      && 0 <= k < NUM_COMMANDS
      && (forall j :: i <= j < NUM_COMMANDS && (j < k || k < i) ==> !Matches(cmd, j))
      && (k == OFF || (i <= k && Matches(cmd, k)))
      && (k == OFF && i <= OFF ==> Matches(cmd, OFF) || forall j :: i <= j < NUM_COMMANDS ==> !Matches(cmd, j))
    decreases NUM_COMMANDS - i
  {
    if i < NUM_COMMANDS && !Matches(cmd, i) {
      IndexFromIs(cmd, i + 1);
    }
  }

  /** Every word of the table is found at its place. */
  lemma WordsFound(i: nat)
    requires i < NUM_COMMANDS
    ensures IndexFrom(WORDS[i], 0) == i
  {
    IndexFromIs(WORDS[i], 0);
    assert Matches(WORDS[i], i);
    WordsApart(i);
  }

  /** No word of the table matches an earlier entry. */
  lemma WordsApart(i: nat)
    requires i < NUM_COMMANDS
    ensures forall j :: 0 <= j < i ==> !Matches(WORDS[i], j)
  {
    var w := WORDS[i];
    forall j | 0 <= j < i ensures !Matches(w, j) {
      var n, d := Min(LENGTHS[j], |w|), Differ(j, i);
      assert d < n <= |WORDS[j]|;
      assert w[..n][d] == w[d] && WORDS[j][..n][d] == WORDS[j][d];
    }
  }

  /** Where two words of the table differ within the characters compared. */
  function Differ(j: nat, i: nat): (d: nat)
    requires j < i < NUM_COMMANDS
    ensures d < LENGTHS[j] <= |WORDS[j]| && d < |WORDS[i]| && WORDS[i][d] != WORDS[j][d]
  {
    if (j, i) in {(2, 3), (1, 5), (1, 7)} then 1 else if (j, i) in {(5, 7), (10, 11)} then 2 else 0
  }

  /** A command is run as OFF if and only if it matches that word or none at all. */
  lemma RunsAsOffIff(cmd: string)
    requires cmd != ""
    ensures IndexFrom(cmd, 0) == OFF <==>
      Matches(cmd, OFF) || forall j :: 0 <= j < NUM_COMMANDS ==> !Matches(cmd, j)
  {
    IndexFromIs(cmd, 0);
    if Matches(cmd, OFF) {
      OffApart(cmd);
    }
  }

  lemma OffApart(cmd: string)
    requires cmd != "" && Matches(cmd, OFF)
    ensures !Matches(cmd, 0) && !Matches(cmd, 1)
  {
    var n := Min(2, |cmd|);
    assert cmd[..n][0] == WORDS[2][..n][0] == 'o';
    assert cmd[..1][0] == 'o' && WORDS[0][..1][0] == 'c' && WORDS[1][..n][0] == 'd';
  }

  /** A word that is not in the table. */
  lemma StatusRunsAsOff()
    ensures IndexFrom("status", 0) == OFF
  {
    var cmd := "status";
    forall j | 0 <= j < NUM_COMMANDS ensures !Matches(cmd, j) {
      var n := Min(LENGTHS[j], |cmd|);
      assert 0 < n && cmd[..n][0] == 's' && WORDS[j][..n][0] == WORDS[j][0] != 's';
    }
    RunsAsOffIff(cmd);
  }

  /** The command has letter `c` at place j, or ends before it. */
  predicate Letter(cmd: string, j: nat, c: char) {
    j < |cmd| ==> cmd[j] == c
  }

  lemma MatchesIff(cmd: string, i: nat)
    requires i < NUM_COMMANDS && LENGTHS[i] <= |WORDS[i]|
    ensures Matches(cmd, i) <==> forall j :: 0 <= j < LENGTHS[i] ==> Letter(cmd, j, WORDS[i][j])
  {
    var n := Min(LENGTHS[i], |cmd|);
    assert forall j :: 0 <= j < n ==> WORDS[i][..n][j] == WORDS[i][j] && cmd[..n][j] == cmd[j];
  }

  lemma MatchesOne(cmd: string, i: nat, a: char)
    requires i < NUM_COMMANDS && LENGTHS[i] == 1 <= |WORDS[i]| && WORDS[i][0] == a
    ensures Matches(cmd, i) <==> Letter(cmd, 0, a)
  {
    MatchesIff(cmd, i);
  }

  lemma MatchesTwo(cmd: string, i: nat, a: char, b: char)
    requires i < NUM_COMMANDS && LENGTHS[i] == 2 <= |WORDS[i]| && WORDS[i][0] == a && WORDS[i][1] == b
    ensures Matches(cmd, i) <==> Letter(cmd, 0, a) && Letter(cmd, 1, b)
  {
    MatchesIff(cmd, i);
  }

  lemma MatchesThree(cmd: string, i: nat, a: char, b: char, c: char)
    requires i < NUM_COMMANDS && LENGTHS[i] == 3 <= |WORDS[i]| && WORDS[i][0] == a && WORDS[i][1] == b && WORDS[i][2] == c
    ensures Matches(cmd, i) <==> Letter(cmd, 0, a) && Letter(cmd, 1, b) && Letter(cmd, 2, c)
  {
    MatchesIff(cmd, i);
  }

  lemma MatchesConnect(cmd: string)
    ensures Matches(cmd, 0) <==> Letter(cmd, 0, 'c')
    ensures Matches(cmd, 1) <==> Letter(cmd, 0, 'd') && Letter(cmd, 1, 'i')
    ensures Matches(cmd, 2) <==> Letter(cmd, 0, 'o') && Letter(cmd, 1, 'f')
    ensures Matches(cmd, 3) <==> Letter(cmd, 0, 'o') && Letter(cmd, 1, 'n')
  {
    MatchesOne(cmd, 0, 'c');
    MatchesTwo(cmd, 1, 'd', 'i');
    MatchesTwo(cmd, 2, 'o', 'f');
    MatchesTwo(cmd, 3, 'o', 'n');
  }

  lemma MatchesIncrease(cmd: string)
    ensures Matches(cmd, 4) <==> Letter(cmd, 0, 'i')
    ensures Matches(cmd, 5) <==> Letter(cmd, 0, 'd') && Letter(cmd, 1, 'e') && Letter(cmd, 2, 'c')
    ensures Matches(cmd, 6) <==> Letter(cmd, 0, 'l')
    ensures Matches(cmd, 7) <==> Letter(cmd, 0, 'd') && Letter(cmd, 1, 'e') && Letter(cmd, 2, 'f')
  {
    MatchesOne(cmd, 4, 'i');
    MatchesThree(cmd, 5, 'd', 'e', 'c');
    MatchesOne(cmd, 6, 'l');
    MatchesThree(cmd, 7, 'd', 'e', 'f');
  }

  lemma MatchesHigh(cmd: string)
    ensures Matches(cmd, 8) <==> Letter(cmd, 0, 'h')
    ensures Matches(cmd, 9) <==> Letter(cmd, 0, 'a')
    ensures Matches(cmd, 10) <==> Letter(cmd, 0, 'r') && Letter(cmd, 1, 'e') && Letter(cmd, 2, 's')
    ensures Matches(cmd, 11) <==> Letter(cmd, 0, 'r') && Letter(cmd, 1, 'e') && Letter(cmd, 2, 'c')
  {
    MatchesOne(cmd, 8, 'h');
    MatchesOne(cmd, 9, 'a');
    MatchesThree(cmd, 10, 'r', 'e', 's');
    MatchesThree(cmd, 11, 'r', 'e', 'c');
  }

  /** The first match, by number. */
  lemma FirstMatchIs(cmd: string, i: nat)
    requires i < NUM_COMMANDS && Matches(cmd, i) && forall j :: 0 <= j < i ==> !Matches(cmd, j)
    ensures IndexFrom(cmd, 0) == i
  {
    IndexFromIs(cmd, 0);
  }

  lemma NoMatchIs(cmd: string)
    requires forall j :: 0 <= j < NUM_COMMANDS ==> !Matches(cmd, j)
    ensures IndexFrom(cmd, 0) == 2
  {
    IndexFromIs(cmd, 0);
  }

  /** What the first three letters make of a command. */
  function ByLetters(cmd: string): nat
    requires cmd != ""
  {
    match cmd[0]
    case 'c' => 0
    case 'd' =>
      if Letter(cmd, 1, 'i') then 1
      else if cmd[1] != 'e' then 2
      else if Letter(cmd, 2, 'c') then 5
      else if cmd[2] == 'f' then 7
      else 2
    case 'o' => if |cmd| > 1 && cmd[1] == 'n' then 3 else 2
    case 'i' => 4
    case 'l' => 6
    case 'h' => 8
    case 'a' => 9
    case 'r' =>
      if !Letter(cmd, 1, 'e') then 2
      else if Letter(cmd, 2, 's') then 10
      else if cmd[2] == 'c' then 11
      else 2
    case _ => 2
  }

  /** The command that a word runs, by its first three letters; an abbreviation runs the first command of
      the table that it abbreviates. */
  lemma LettersDecide(cmd: string)
    requires cmd != ""
    ensures IndexFrom(cmd, 0) == ByLetters(cmd)
  {
    MatchesConnect(cmd);
    MatchesIncrease(cmd);
    MatchesHigh(cmd);
    var k := ByLetters(cmd);
    if Matches(cmd, k) {
      FirstMatchIs(cmd, k);
    } else {
      NoMatchIs(cmd);
    }
  }

  // ----- Lines and commands -----

  const VER_TAG := 1
  const VERSION := 2
  const MSG := 3
  const NONCE := 5
  const CMD := 6

  const MAX_NONCE_SIZE := 40

  /** How a state request ends: the sensor is not found or refuses; the reply message or its line
      cannot be allocated; or the reply is linked, and written or not. */
  datatype StateOutcome = StateNotFound | SensorError | NoReply | NoReplyLine | Replied(written: bool)

  /** How a records request ends: the loop over the records links some replies, and it or the writing of
      the replies may fail. */
  datatype RecordsOutcome = RecordsNotFound | Ended(replies: nat, failed: bool, written: bool)

  datatype DiscoveryOutcome = NoReplyMessage | NoBuffer | NoLine | Discovered

  /** How a request would end, for each kind of command. */
  datatype Outcomes = Outcomes(state: StateOutcome, records: RecordsOutcome, discovery: DiscoveryOutcome)

  datatype Command =
    | Invalid                    // no command or no sensor name, or one that is too long
    | Connect
    | ForState(state: StateOutcome)
    | ForRecords(records: RecordsOutcome)
    | ForDiscovery(discovery: DiscoveryOutcome)

  /** A line that a connection reads: the number of its tokens (negative if the tokenizer fails),
      whether the tokens are consistent, whether the version and the word "request" are as expected, the
      size of the nonce, the command, the size of the sensor's name (zero if there is none), and how
      the request ends. */
  datatype Line = Line(count: int, wellFormed: bool, version: bool, isRequest: bool, nonceBytes: int,
                       cmd: string, nameBytes: nat, ends: Outcomes)

  const MAX_CMD_SIZE := 128
  const MAX_NAME_SIZE := 128

  function CommandOf(line: Line): Command {
    if |line.cmd| == 0 || |line.cmd| >= MAX_CMD_SIZE then Invalid
    else if line.nameBytes == 0 || line.nameBytes > MAX_NAME_SIZE then Invalid
    else
      var k := IndexFrom(line.cmd, 0);
      if k == 0 then Connect
      else if k == 1 then ForDiscovery(line.ends.discovery)
      else if k == 11 then ForRecords(line.ends.records)
      else ForState(line.ends.state)
  }

  /** The parser gets as far as the nonce. */
  predicate ReachesNonce(line: Line) {
    line.count > NONCE && line.wellFormed && line.version && line.isRequest
  }

  predicate NonceOk(nonceBytes: int) {
    0 < nonceBytes <= MAX_NONCE_SIZE
  }

  predicate Succeeds(c: Command) {
    match c
    case Invalid => false
    case Connect => true
    case ForState(o) => o == Replied(true)
    case ForRecords(o) => o.Ended? && o.replies > 0 && !o.failed && o.written
    case ForDiscovery(_) => true
  }

  /** The request runs to its end, where its session is freed. */
  predicate Ends(c: Command) {
    match c
    case Invalid => false
    case Connect => false
    case ForState(o) => o != StateNotFound
    case ForRecords(o) => o.Ended?
    case ForDiscovery(_) => true
  }

  /** A line that opens a session. */
  predicate Accepted(line: Line) {
    ReachesNonce(line) && NonceOk(line.nonceBytes)
  }

  /** The connection stays open after a line. */
  predicate Keeps(line: Line) {
    && line.count >= 0
    && (line.count > 0 && line.wellFormed ==>
          && (line.count > VER_TAG ==> line.version)
          && (line.count > MSG ==> line.isRequest)
          && (line.count > NONCE ==> NonceOk(line.nonceBytes))
          && (line.count > CMD ==> Succeeds(CommandOf(line))))
  }

  /** What the command of request m does; on some paths the session stays. */
  function AfterCommand(t: Table, m: nat, c: Command): Table
    requires Live(t, m)
  {
    match c
    case Invalid => t
    case Connect => t
    case ForState(o) => AfterState(t, m, o)
    case ForRecords(o) => AfterRecords(t, m, o)
    case ForDiscovery(o) => AfterDiscovery(t, m, o)
  }

  function AfterState(t: Table, m: nat, o: StateOutcome): Table
    requires Live(t, m)
  {
    LinkKeeps(t, m);
    match o
    case StateNotFound => t
    case SensorError => Free(t, m)
    case NoReply => Free(t, m)
    case NoReplyLine => Free(Loose(t), m)
    case Replied(_) => Free(Link(t, m), m)
  }

  function AfterRecords(t: Table, m: nat, o: RecordsOutcome): Table
    requires Live(t, m)
  {
    match o
    case RecordsNotFound => t
    case Ended(replies, _, _) => Free(LinkMany(t, m, replies), m)
  }

  function AfterDiscovery(t: Table, m: nat, o: DiscoveryOutcome): Table
    requires Live(t, m)
  {
    LinkKeeps(t, m);
    match o
    case NoReplyMessage => Free(t, m)
    case NoBuffer => Free(Loose(t), m)
    case NoLine => Free(Loose(t), m)
    case Discovered => Free(Link(t, m), m)
  }

  /** What the parser does with line m: one that is rejected before its nonce is left behind, neither
      freed nor in a session. */
  function AfterParse(t: Table, socket: Socket, m: nat, line: Line): Table {
    if !ReachesNonce(line) then t
    else if !NonceOk(line.nonceBytes) then t.(freed := t.freed + [m])
    else
      var r := Insert(Collect(t, socket), socket, m);
      if line.count > CMD then AfterCommand(r, m, CommandOf(line)) else r
  }

  /** What a connection does with a line it has read. */
  function AfterLine(t: Table, socket: Socket, line: Line): Table {
    AfterParse(t.(next := t.next + 1), socket, t.next, line)
  }

  // ----- The parser -----

  class Parser {
    var sessions: seq<Session>
    var freed: seq<nat>
    var next: nat

    ghost function View(): Table
      reads this
    {
      Table(sessions, freed, next)
    }

    constructor ()
      ensures View() == Table([], [], 0)
    {
      sessions, freed, next := [], [], 0;
    }

    method FreeMessage(m: nat)
      modifies this`freed
      ensures freed == old(freed) + [m]
    {
      freed := freed + [m];
    }

    method NewMessage() returns (m: nat)
      modifies this`next
      ensures m == old(next) && next == old(next) + 1
    {
      m := next;
      next := next + 1;
    }

    /** Unlinks the session and frees its replies one by one, then its request. */
    method FreeSessionAt(k: nat)
      requires k < |sessions|
      modifies this
      ensures View() == FreeAt(old(View()), k)
    {
      var s := sessions[k];
      sessions := sessions[..k] + sessions[k + 1..];
      var left := s.replies;
      while left != []
        invariant freed + left == old(freed) + s.replies
        invariant sessions == Without(old(sessions), k) && next == old(next)
        decreases |left|
      {
        FreeMessage(left[0]);
        left := left[1..];
      }
      FreeMessage(s.request);
    }

    /** Frees the session that a message points to. */
    method FreeSession(request: nat)
      requires Live(View(), request)
      modifies this
      ensures View() == Free(old(View()), request)
    {
      FreeSessionAt(At(sessions, request));
    }

    method GarbageCollectSession(socket: Socket)
      modifies this
      ensures View() == Collect(old(View()), socket)
    {
      var k := 0;
      while k < |sessions| && sessions[k].socket != socket
        invariant k <= |sessions| && View() == old(View())
        invariant forall j :: 0 <= j < k ==> sessions[j].socket != socket
      {
        k := k + 1;
      }
      assert k == Find(sessions, socket);
      if k < |sessions| {
        FreeSessionAt(k);
      }
    }

    /** Opens a session for request m, unless the nonce has the wrong length. */
    method GetSession(m: nat, socket: Socket, nonceBytes: int) returns (found: bool)
      modifies this
      ensures found <==> NonceOk(nonceBytes)
      ensures View() == if found then Insert(Collect(old(View()), socket), socket, m) else old(View())
    {
      if nonceBytes <= 0 || nonceBytes > MAX_NONCE_SIZE {
        return false;
      }
      GarbageCollectSession(socket);
      sessions := [Session(socket, m, [])] + sessions;
      found := true;
    }

    method LinkReply(request: nat)
      requires Live(View(), request)
      modifies this
      ensures View() == Link(old(View()), request)
    {
      var m := NewMessage();
      var k := At(sessions, request);
      sessions := sessions[k := sessions[k].(replies := sessions[k].replies + [m])];
    }

    method ProcessStateRequest(m: nat, o: StateOutcome) returns (completed: bool)
      requires Live(View(), m)
      modifies this
      ensures completed == Succeeds(ForState(o))
      ensures View() == AfterState(old(View()), m, o)
    {
      if o == StateNotFound {
        return false;
      }
      if o == NoReplyLine {
        var reply := NewMessage();
        FreeMessage(reply);
      } else if o.Replied? {
        LinkKeeps(View(), m);
        LinkReply(m);
      }
      FreeSession(m);
      completed := o == Replied(true);
    }

    method ProcessRecordsRequest(m: nat, o: RecordsOutcome) returns (completed: bool)
      requires Live(View(), m)
      modifies this
      ensures completed == Succeeds(ForRecords(o))
      ensures View() == AfterRecords(old(View()), m, o)
    {
      if o.RecordsNotFound? {
        return false;
      }
      for i := 0 to o.replies
        invariant View() == LinkMany(old(View()), m, i)
      {
        LinkReply(m);
      }
      FreeSession(m);
      completed := !o.failed && o.replies > 0 && o.written;
    }

    method ProcessDiscoveryRequest(m: nat, o: DiscoveryOutcome)
      requires Live(View(), m)
      modifies this
      ensures View() == AfterDiscovery(old(View()), m, o)
    {
      if o == NoBuffer || o == NoLine {
        var reply := NewMessage();
        FreeMessage(reply);
      } else if o == Discovered {
        LinkKeeps(View(), m);
        LinkReply(m);
      }
      FreeSession(m);
    }

    method PreProcessRequest(m: nat, line: Line) returns (ok: bool)
      requires Live(View(), m)
      modifies this
      ensures ok == Succeeds(CommandOf(line))
      ensures View() == AfterCommand(old(View()), m, CommandOf(line))
    {
      if |line.cmd| == 0 || |line.cmd| >= MAX_CMD_SIZE {
        return false;
      }
      if line.nameBytes == 0 || line.nameBytes > MAX_NAME_SIZE {
        return false;
      }
      var k := IndexCommand(line.cmd);
      if k == 0 {
        ok := true;
      } else if k == 1 {
        ProcessDiscoveryRequest(m, line.ends.discovery);
        ok := true;
      } else if k == 11 {
        ok := ProcessRecordsRequest(m, line.ends.records);
      } else {
        ok := ProcessStateRequest(m, line.ends.state);
      }
    }

    /** The walk over the tokens of a line. */
    method ParseJsonMessage(m: nat, socket: Socket, line: Line) returns (keep: bool)
      modifies this
      ensures keep == Keeps(line)
      ensures View() == AfterParse(old(View()), socket, m, line)
    {
      if line.count < 0 {
        return false;
      }
      if line.count < 1 || !line.wellFormed {
        return true;
      }
      var i := 1;
      while i < line.count
        invariant i == VER_TAG || MSG <= i <= CMD
        invariant i >= MSG ==> line.count > VER_TAG && line.version
        invariant i > MSG ==> line.count > MSG && line.isRequest
        invariant i <= NONCE ==> View() == old(View())
        invariant i == CMD ==> ReachesNonce(line) && NonceOk(line.nonceBytes)
        invariant i == CMD ==> View() == Insert(Collect(old(View()), socket), socket, m)
        decreases CMD - i
      {
        if i == VER_TAG {
          if !line.version {
            return false;
          }
          i := VERSION;
        } else if i == MSG {
          if !line.isRequest {
            return false;
          }
        } else if i == NONCE {
          var found := GetSession(m, socket, line.nonceBytes);
          if !found {
            FreeMessage(m);
            return false;
          }
        } else if i == CMD {
          keep := PreProcessRequest(m, line);
          return;
        }
        i := i + 1;
      }
      keep := true;
    }

    /** A connection allocates a message for the line it has read, and has it parsed. */
    method Receive(socket: Socket, line: Line) returns (keep: bool)
      modifies this
      ensures keep == Keeps(line)
      ensures View() == AfterLine(old(View()), socket, line)
    {
      var m := NewMessage();
      keep := ParseJsonMessage(m, socket, line);
    }
  }

  // ----- The list of sessions -----

  /** No two sessions share a socket, or a request. */
  ghost predicate Distinct(sessions: seq<Session>) {
    forall j, k :: 0 <= j < k < |sessions| ==>
      sessions[j].socket != sessions[k].socket && sessions[j].request != sessions[k].request
  }

  /** The session of request m is there, and belongs to the socket. */
  ghost predicate Has(sessions: seq<Session>, a: Socket, m: nat) {
    exists k :: 0 <= k < |sessions| && sessions[k].socket == a && sessions[k].request == m
  }

  ghost predicate NoSocket(sessions: seq<Session>, a: Socket) {
    forall k :: 0 <= k < |sessions| ==> sessions[k].socket != a
  }

  ghost predicate NoRequest(sessions: seq<Session>, m: nat) {
    forall k :: 0 <= k < |sessions| ==> sessions[k].request != m
  }

  /** No session of the socket comes before session r. */
  ghost predicate Passed(sessions: seq<Session>, r: nat, a: Socket) {
    forall j, k :: 0 <= j < k < |sessions| && sessions[k].request == r ==> sessions[j].socket != a
  }

  /** What two lists of sessions have in common as far as the connections can tell. */
  ghost predicate Agree(before: seq<Session>, after: seq<Session>, a: Socket) {
    && (forall b, m :: b != a && Has(before, b, m) ==> Has(after, b, m))
    && (forall b :: b != a && NoSocket(before, b) ==> NoSocket(after, b))
    && (forall m :: NoRequest(before, m) ==> NoRequest(after, m))
    && (forall b, r :: b != a && Passed(before, r, b) ==> Passed(after, r, b))
  }

  lemma HasAt(sessions: seq<Session>, a: Socket, m: nat)
    requires Distinct(sessions) && Has(sessions, a, m)
    ensures At(sessions, m) < |sessions| && sessions[At(sessions, m)].socket == a
    ensures Find(sessions, a) == At(sessions, m)
  {
    var k :| 0 <= k < |sessions| && sessions[k].socket == a && sessions[k].request == m;
    var i, j := At(sessions, m), Find(sessions, a);
    assert i == k && j == k;
  }

  /** Removing one session. */
  lemma WithoutAgrees(sessions: seq<Session>, k: nat)
    requires Distinct(sessions) && k < |sessions|
    ensures Distinct(Without(sessions, k))
    ensures NoSocket(Without(sessions, k), sessions[k].socket) && NoRequest(Without(sessions, k), sessions[k].request)
    ensures Agree(sessions, Without(sessions, k), sessions[k].socket)
  {
    var r, a := Without(sessions, k), sessions[k].socket;
    assert forall j :: 0 <= j < |r| ==> r[j] == if j < k then sessions[j] else sessions[j + 1];
    forall b, m | b != a && Has(sessions, b, m) ensures Has(r, b, m) {
      var i :| 0 <= i < |sessions| && sessions[i].socket == b && sessions[i].request == m;
      assert r[if i < k then i else i - 1].request == m;
    }
  }

  lemma CollectAgrees(t: Table, a: Socket)
    requires Distinct(t.sessions)
    ensures var r := Collect(t, a).sessions; Distinct(r) && NoSocket(r, a) && Agree(t.sessions, r, a)
  {
    var k := Find(t.sessions, a);
    if k < |t.sessions| {
      WithoutAgrees(t.sessions, k);
    }
  }

  lemma InsertAgrees(t: Table, a: Socket, m: nat)
    requires Distinct(t.sessions) && NoSocket(t.sessions, a) && NoRequest(t.sessions, m)
    ensures var r := Insert(t, a, m).sessions;
      && Distinct(r) && Has(r, a, m)
      && (forall b, x :: Has(t.sessions, b, x) ==> Has(r, b, x))
      && (forall b :: b != a && NoSocket(t.sessions, b) ==> NoSocket(r, b))
      && (forall x :: x != m && NoRequest(t.sessions, x) ==> NoRequest(r, x))
      && (forall b, x :: b != a && Passed(t.sessions, x, b) ==> Passed(r, x, b))
  {
    var c, r := t.sessions, Insert(t, a, m).sessions;
    assert forall j :: 1 <= j < |r| ==> r[j] == c[j - 1];
    assert r[0].socket == a && r[0].request == m;
    forall b, x | Has(c, b, x) ensures Has(r, b, x) {
      var i :| 0 <= i < |c| && c[i].socket == b && c[i].request == x;
      assert r[i + 1].request == x;
    }
  }

  lemma LinkAgrees(t: Table, m: nat)
    requires Distinct(t.sessions) && Live(t, m)
    ensures var r := Link(t, m).sessions;
      && Distinct(r)
      && (forall b, x :: Has(t.sessions, b, x) ==> Has(r, b, x))
      && (forall b :: NoSocket(t.sessions, b) ==> NoSocket(r, b))
      && (forall x :: NoRequest(t.sessions, x) ==> NoRequest(r, x))
      && (forall b, x :: Passed(t.sessions, x, b) ==> Passed(r, x, b))
  {
    var c, r := t.sessions, Link(t, m).sessions;
    assert |r| == |c| && forall j :: 0 <= j < |r| ==> r[j].socket == c[j].socket && r[j].request == c[j].request;
    forall b, x | Has(c, b, x) ensures Has(r, b, x) {
      var i :| 0 <= i < |c| && c[i].socket == b && c[i].request == x;
      assert r[i].request == x;
    }
  }

  // ----- Counting messages -----

  function MessagesOf(s: Session): multiset<nat> {
    multiset(s.replies) + multiset{s.request}
  }

  /** The messages that sessions hold. */
  function Held(sessions: seq<Session>): multiset<nat> {
    if sessions == [] then multiset{} else MessagesOf(sessions[0]) + Held(sessions[1..])
  }

  /** How often a message was freed, and how often it is held. */
  function Count(t: Table, m: nat): nat {
    multiset(t.freed)[m] + Held(t.sessions)[m]
  }

  lemma WithoutTail(sessions: seq<Session>, k: nat)
    requires 0 < k < |sessions|
    ensures Without(sessions, k) == [sessions[0]] + Without(sessions[1..], k - 1)
  {
    var rest := sessions[1..];
    assert sessions[..k] == [sessions[0]] + rest[..k - 1] && sessions[k + 1..] == rest[k..];
  }

  lemma HeldCons(x: Session, rest: seq<Session>)
    ensures Held([x] + rest) == MessagesOf(x) + Held(rest)
  {
    assert ([x] + rest)[1..] == rest;
  }

  lemma {:induction false} HeldWithout(sessions: seq<Session>, k: nat, m: nat)
    requires k < |sessions|
    ensures Held(sessions)[m] == Held(Without(sessions, k))[m] + MessagesOf(sessions[k])[m]
  {
    var rest := sessions[1..];
    if k == 0 {
      assert Without(sessions, 0) == rest;
    } else {
      HeldWithout(rest, k - 1, m);
      WithoutTail(sessions, k);
      HeldCons(sessions[0], Without(rest, k - 1));
      assert rest[k - 1] == sessions[k];
    }
  }

  lemma CountFree(t: Table, k: nat, m: nat)
    requires k < |t.sessions|
    ensures Count(FreeAt(t, k), m) == Count(t, m)
  {
    HeldWithout(t.sessions, k, m);
    var s := t.sessions[k];
    var f, r, q := multiset(t.freed), multiset(s.replies), multiset{s.request};
    assert multiset(t.freed + s.replies + [s.request]) == f + r + q;
  }

  lemma CountCollect(t: Table, a: Socket, m: nat)
    ensures Count(Collect(t, a), m) == Count(t, m)
  {
    var k := Find(t.sessions, a);
    if k < |t.sessions| {
      CountFree(t, k, m);
    }
  }

  lemma CountInsert(t: Table, a: Socket, x: nat, m: nat)
    ensures Count(Insert(t, a, x), m) == Count(t, m) + (if m == x then 1 else 0)
  {
    HeldCons(Session(a, x, []), t.sessions);
  }

  lemma CountLink(t: Table, x: nat, m: nat)
    requires Live(t, x)
    ensures Count(Link(t, x), m) == Count(t, m) + (if m == t.next then 1 else 0)
  {
    var k := At(t.sessions, x);
    var s := t.sessions[k].(replies := t.sessions[k].replies + [t.next]);
    var after := t.sessions[k := s];
    assert Link(t, x) == t.(sessions := after, next := t.next + 1);
    HeldWithout(t.sessions, k, m);
    HeldWithout(after, k, m);
    assert Without(after, k) == Without(t.sessions, k) && after[k] == s;
    assert MessagesOf(s) == MessagesOf(t.sessions[k]) + multiset{t.next};
  }

  // ----- Whole lines -----

  /** The list of sessions is in order, and the next message is new to it. */
  ghost predicate Sound(t: Table) {
    Distinct(t.sessions) && NoRequest(t.sessions, t.next) && Count(t, t.next) == 0
  }

  lemma FreeLeavesNone(t: Table, a: Socket, m: nat)
    requires Distinct(t.sessions) && Has(t.sessions, a, m)
    ensures Live(t, m) && NoSocket(Free(t, m).sessions, a) && m in Free(t, m).freed
  {
    HasAt(t.sessions, a, m);
    WithoutAgrees(t.sessions, At(t.sessions, m));
  }

  lemma {:induction false} LinkManyKeeps(t: Table, a: Socket, m: nat, n: nat)
    requires Distinct(t.sessions) && Has(t.sessions, a, m) && Live(t, m)
    ensures Distinct(LinkMany(t, m, n).sessions) && Has(LinkMany(t, m, n).sessions, a, m)
  {
    if n > 0 {
      LinkManyKeeps(t, a, m, n - 1);
      LinkAgrees(LinkMany(t, m, n - 1), m);
    }
  }

  /** A command that ends leaves no session for the socket, and frees its request. */
  lemma EndLeavesNone(t: Table, a: Socket, m: nat, c: Command)
    requires Distinct(t.sessions) && Has(t.sessions, a, m) && Live(t, m) && Ends(c)
    ensures NoSocket(AfterCommand(t, m, c).sessions, a) && m in AfterCommand(t, m, c).freed
  {
    LinkKeeps(t, m);
    LinkAgrees(t, m);
    FreeLeavesNone(t, a, m);
    FreeLeavesNone(Loose(t), a, m);
    FreeLeavesNone(Link(t, m), a, m);
    if c.ForRecords? {
      LinkManyKeeps(t, a, m, c.records.replies);
      FreeLeavesNone(LinkMany(t, m, c.records.replies), a, m);
    }
  }

  /** The table when an accepted line has opened its session. */
  function Opened(t: Table, a: Socket): Table {
    Insert(Collect(t.(next := t.next + 1), a), a, t.next)
  }

  lemma OpenedIs(t: Table, a: Socket)
    requires Sound(t)
    ensures var r := Opened(t, a);
      && Distinct(r.sessions) && Has(r.sessions, a, t.next) && Live(r, t.next)
      && t.next !in r.freed && r.sessions[0] == Session(a, t.next, [])
      && forall k :: 0 < k < |r.sessions| ==> r.sessions[k].socket != a
  {
    var m, u := t.next, t.(next := t.next + 1);
    CollectAgrees(u, a);
    InsertAgrees(Collect(u, a), a, m);
    HasAt(Opened(t, a).sessions, a, m);
    CountCollect(u, a, m);
    assert Count(u, m) == Count(t, m);
  }

  /** The session of a socket after a line: an accepted line leaves its own behind if and only if it has
      no command or the command does not run to its end; any other line leaves things as they were. */
  lemma LeftBehindIff(t: Table, a: Socket, line: Line)
    requires Sound(t)
    ensures var r := AfterLine(t, a, line).sessions;
      if Accepted(line)
      then NoSocket(r, a) <==> line.count > CMD && Ends(CommandOf(line))
      else r == t.sessions
  {
    if Accepted(line) {
      OpenedIs(t, a);
      if line.count > CMD && Ends(CommandOf(line)) {
        EndLeavesNone(Opened(t, a), a, t.next, CommandOf(line));
      }
    }
  }

  /** A request for a sensor that does not exist. */
  lemma UnknownSensorLeavesSession(line: Line)
    requires line == Line(8, true, true, true, 32, "reset", 36, line.ends) && line.ends.state == StateNotFound
    ensures AfterLine(Table([], [], 0), 7, line).sessions == [Session(7, 0, [])]
  {
    WordsFound(10);
  }

  /** When the parser returns to the connection, the message that it parsed was freed, if and only if the
      line reached its nonce and either the nonce was refused or the command ran to its end. */
  lemma FreedOnReturnIff(t: Table, a: Socket, line: Line)
    requires Sound(t)
    ensures t.next in AfterLine(t, a, line).freed <==>
      ReachesNonce(line) && (!NonceOk(line.nonceBytes) || (line.count > CMD && Ends(CommandOf(line))))
  {
    assert t.next !in t.freed;
    if Accepted(line) {
      OpenedIs(t, a);
      if line.count > CMD && Ends(CommandOf(line)) {
        EndLeavesNone(Opened(t, a), a, t.next, CommandOf(line));
      }
    }
  }

  /** A session that an earlier line left behind is freed by the next accepted line of its socket. */
  lemma LeftIsCollected(t: Table, a: Socket, line: Line, k: nat)
    requires Sound(t) && Accepted(line) && k < |t.sessions| && t.sessions[k].socket == a
    ensures var r := Opened(t, a);
      t.sessions[k].request in r.freed && NoRequest(r.sessions, t.sessions[k].request)
  {
    OpenedIs(t, a);
    var u := t.(next := t.next + 1);
    assert Find(u.sessions, a) == k;
    WithoutAgrees(u.sessions, k);
    InsertAgrees(Collect(u, a), a, t.next);
  }

  // ----- What each command does, by its word -----

  /** n message numbers from `first` on. */
  function Ids(first: nat, n: nat): (r: seq<nat>)
    ensures |r| == n && forall k :: 0 <= k < n ==> r[k] == first + k
  {
    seq(n, k requires 0 <= k < n => first + k)
  }

  lemma {:induction false} LinkManyIs(r: Table, x: Session, rest: seq<Session>, n: nat)
    requires r.sessions == [x] + rest && x.replies == [] && Live(r, x.request)
    ensures LinkMany(r, x.request, n) == Table([x.(replies := Ids(r.next, n))] + rest, r.freed, r.next + n)
  {
    if n > 0 {
      LinkManyIs(r, x, rest, n - 1);
      var y := x.(replies := Ids(r.next, n - 1));
      var sessions := [y] + rest;
      assert At(sessions, x.request) == 0;
      assert Ids(r.next, n - 1) + [r.next + n - 1] == Ids(r.next, n);
      assert sessions[0 := y.(replies := Ids(r.next, n))] == [x.(replies := Ids(r.next, n))] + rest;
    } else {
      assert Ids(r.next, 0) == [] && x.(replies := []) == x;
    }
  }

  lemma FreeFirst(t: Table, x: Session, rest: seq<Session>)
    requires t.sessions == [x] + rest
    ensures Live(t, x.request) && Free(t, x.request) == Table(rest, t.freed + x.replies + [x.request], t.next)
  {
    assert At(t.sessions, x.request) == 0;
    assert Without(t.sessions, 0) == rest;
  }

  /** The table when a line has been accepted and its socket's old session collected. */
  function Cleared(t: Table, a: Socket): Table {
    Collect(t.(next := t.next + 1), a)
  }

  /** The table when the request of the line, message m, has ended with n replies, freed in their order before
      the request itself. */
  function EndedWith(t: Table, a: Socket, n: nat): Table {
    var c, m := Cleared(t, a), t.next;
    Table(c.sessions, c.freed + Ids(m + 1, n) + [m], m + 1 + n)
  }

  lemma EndsWithReplies(t: Table, a: Socket, n: nat)
    requires Live(Opened(t, a), t.next)
    ensures var r := LinkMany(Opened(t, a), t.next, n);
      Live(r, t.next) && Free(r, t.next) == EndedWith(t, a, n)
  {
    var r, x := Opened(t, a), Session(a, t.next, []);
    LinkManyIs(r, x, Cleared(t, a).sessions, n);
    FreeFirst(LinkMany(r, t.next, n), x.(replies := Ids(r.next, n)), Cleared(t, a).sessions);
  }

  /** A reply message that is never linked is freed before the request, like one that is. */
  lemma EndsWithLoose(t: Table, a: Socket)
    requires Live(Opened(t, a), t.next)
    ensures Live(Loose(Opened(t, a)), t.next) && Free(Loose(Opened(t, a)), t.next) == EndedWith(t, a, 1)
  {
    FreeFirst(Loose(Opened(t, a)), Session(a, t.next, []), Cleared(t, a).sessions);
    assert Ids(t.next + 1, 1) == [t.next + 1];
    var f := Cleared(t, a).freed;
    assert f + [t.next + 1] + [] + [t.next] == f + [t.next + 1] + [t.next];
  }

  /** An accepted line with this command and a sensor name. */
  predicate Says(line: Line, word: string) {
    && line.count > 6 && line.wellFormed && line.version && line.isRequest && 0 < line.nonceBytes <= 40
    && line.cmd == word && 0 < line.nameBytes <= 128
  }

  lemma OpenedLive(t: Table, a: Socket)
    ensures Live(Opened(t, a), t.next)
  {
    assert At(Opened(t, a).sessions, t.next) == 0;
  }

  /** With a command, an accepted line comes down to what the command does. */
  lemma CommandDecides(t: Table, a: Socket, line: Line)
    requires Accepted(line) && line.count > 6
    ensures Live(Opened(t, a), t.next)
    ensures AfterLine(t, a, line) == AfterCommand(Opened(t, a), t.next, CommandOf(line))
    ensures Keeps(line) <==> Succeeds(CommandOf(line))
  {
    OpenedLive(t, a);
  }

  /** "records": the request ends with the replies that were linked; the connection stays open exactly if
      there were some and nothing failed. For an unknown sensor the session stays and the connection is closed. */
  lemma RecordsLine(t: Table, a: Socket, line: Line)
    requires Says(line, "records")
    ensures match line.ends.records
      case RecordsNotFound => AfterLine(t, a, line) == Opened(t, a) && !Keeps(line)
      case Ended(n, failed, written) =>
        AfterLine(t, a, line) == EndedWith(t, a, n) && (Keeps(line) <==> n > 0 && !failed && written)
  {
    WordsFound(11);
    assert CommandOf(line) == ForRecords(line.ends.records);
    CommandDecides(t, a, line);
    if line.ends.records.Ended? {
      EndsWithReplies(t, a, line.ends.records.replies);
    }
  }

  /** "discovery": the request ends with one reply, linked or not, or with none if not even the message could
      be allocated; the connection stays open in any case. */
  lemma DiscoveryLine(t: Table, a: Socket, line: Line)
    requires Says(line, "discovery")
    ensures AfterLine(t, a, line) == EndedWith(t, a, if line.ends.discovery == NoReplyMessage then 0 else 1)
    ensures Keeps(line)
  {
    WordsFound(1);
    assert CommandOf(line) == ForDiscovery(line.ends.discovery);
    CommandDecides(t, a, line);
    EndsSimply(t, a);
  }

  /** The ends of a request with no reply or with one, linked or loose. */
  lemma EndsSimply(t: Table, a: Socket)
    requires Live(Opened(t, a), t.next)
    ensures var r, m := Opened(t, a), t.next;
      && Free(r, m) == EndedWith(t, a, 0)
      && Live(Loose(r), m) && Free(Loose(r), m) == EndedWith(t, a, 1)
      && Live(Link(r, m), m) && Free(Link(r, m), m) == EndedWith(t, a, 1)
  {
    EndsWithReplies(t, a, 0);
    EndsWithReplies(t, a, 1);
    EndsWithLoose(t, a);
    LinkOnce(t, a);
  }

  lemma LinkOnce(t: Table, a: Socket)
    requires Live(Opened(t, a), t.next)
    ensures LinkMany(Opened(t, a), t.next, 0) == Opened(t, a)
    ensures LinkMany(Opened(t, a), t.next, 1) == Link(Opened(t, a), t.next)
  {
  }

  /** "connect": the session stays, and so does the connection. */
  lemma ConnectLine(t: Table, a: Socket, line: Line)
    requires Says(line, "connect")
    ensures AfterLine(t, a, line) == Opened(t, a) && Keeps(line)
  {
    WordsFound(0);
    CommandDecides(t, a, line);
  }

  /** Any other command is a state request: it ends with one reply message, or with none; the connection
      stays open exactly if the reply was linked and written. For an unknown sensor the session stays. */
  lemma StateLine(t: Table, a: Socket, line: Line)
    requires Says(line, line.cmd) && 2 <= IndexFrom(line.cmd, 0) <= 10 && 0 < |line.cmd| < 128
    ensures match line.ends.state
      case StateNotFound => AfterLine(t, a, line) == Opened(t, a) && !Keeps(line)
      case SensorError => AfterLine(t, a, line) == EndedWith(t, a, 0) && !Keeps(line)
      case NoReply => AfterLine(t, a, line) == EndedWith(t, a, 0) && !Keeps(line)
      case NoReplyLine => AfterLine(t, a, line) == EndedWith(t, a, 1) && !Keeps(line)
      case Replied(written) => AfterLine(t, a, line) == EndedWith(t, a, 1) && (Keeps(line) <==> written)
  {
    assert CommandOf(line) == ForState(line.ends.state);
    CommandDecides(t, a, line);
    EndsSimply(t, a);
  }

  /** A missing or oversized command or sensor name leaves the session and closes the connection. */
  lemma InvalidLine(t: Table, a: Socket, line: Line)
    requires Accepted(line) && line.count > 6
    requires |line.cmd| == 0 || |line.cmd| >= 128 || line.nameBytes == 0 || line.nameBytes > 128
    ensures AfterLine(t, a, line) == Opened(t, a) && !Keeps(line)
  {
  }

  /** A line that ends before its command leaves the session and keeps the connection. */
  lemma UnfinishedLine(t: Table, a: Socket, line: Line)
    requires Accepted(line) && line.count <= 6
    ensures AfterLine(t, a, line) == Opened(t, a) && Keeps(line)
  {
  }

  lemma AcceptedIff(line: Line)
    ensures Accepted(line) <==>
      line.count > 5 && line.wellFormed && line.version && line.isRequest && 0 < line.nonceBytes <= 40
  {
  }

  /** Lines that are not accepted: one with a nonce that is empty or longer than 40 has its message freed and
      closes the connection; any other leaves all but the number of messages as it was. */
  lemma UnacceptedLine(t: Table, a: Socket, line: Line)
    requires !Accepted(line)
    ensures AfterLine(t, a, line) ==
      if line.count > 5 && line.wellFormed && line.version && line.isRequest
      then Table(t.sessions, t.freed + [t.next], t.next + 1) else t.(next := t.next + 1)
    ensures Keeps(line) <==>
      && line.count >= 0
      && (line.count > 0 && line.wellFormed ==>
            (line.version && line.count <= 5 && (line.isRequest || line.count <= 3)) || line.count <= 1)
  {
  }
}
