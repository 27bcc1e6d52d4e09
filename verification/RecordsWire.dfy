/**
The records of one request on their way to the client. The kernel writes each reply line with its
terminating NUL; the client reads up to a newline, strips NULs, parses, and stops at the first reply
that is too short to hold a record. The NUL behind the last line stays in the stream and is seen in
front of the first line of the next response.
*/
module RecordsWire {
  import opened Wrappers
  import opened RecordSlots

  const NUL: Byte := 0
  const LF: Byte := 10

  type Line = seq<Byte>

  // ----- The byte stream -----

  /** One line: a newline at the end, no other newline and no NUL. */
  predicate OneLine(l: Line) {
    |l| > 0 && l[|l| - 1] == LF && forall i :: 0 <= i < |l| - 1 ==> l[i] != LF && l[i] != NUL
  }

  /** What the kernel writes: every line followed by a NUL. */
  function Wire(lines: seq<Line>): seq<Byte> {
    if lines == [] then [] else lines[0] + [NUL] + Wire(lines[1..])
  }

  function Zeros(n: nat): seq<Byte> {
    seq(n, _ => NUL)
  }

  /** The position of the first newline, or the length. */
  function NewlineAt(s: seq<Byte>): (n: nat)
    ensures n <= |s| && (n < |s| ==> s[n] == LF) && forall i :: 0 <= i < n ==> s[i] != LF
  {
    if s == [] || s[0] == LF then 0 else 1 + NewlineAt(s[1..])
  }

  /** Removes every NUL. */
  function Strip(s: seq<Byte>): seq<Byte> {
    if s == [] then [] else (if s[0] == NUL then [] else [s[0]]) + Strip(s[1..])
  }

  lemma {:induction false} StripZeros(z: nat, l: Line)
    requires OneLine(l)
    ensures Strip(Zeros(z) + l) == l
    decreases z
  {
    if z == 0 {
      assert Zeros(0) + l == l;
      StripNothing(l);
    } else {
      assert (Zeros(z) + l)[1..] == Zeros(z - 1) + l;
      StripZeros(z - 1, l);
    }
  }

  lemma {:induction false} StripNothing(s: seq<Byte>)
    requires forall i :: 0 <= i < |s| ==> s[i] != NUL
    ensures Strip(s) == s
  {
    if s != [] {
      StripNothing(s[1..]);
    }
  }

  /** The lines a reader recovers, and the bytes left in the stream behind the last newline. */
  function Lines(s: seq<Byte>): (seq<Line>, seq<Byte>)
    decreases |s|
  {
    var n := NewlineAt(s);
    if n == |s| then ([], s)
    else
      var rest := Lines(s[n + 1..]);
      ([Strip(s[..n + 1])] + rest.0, rest.1)
  }

  lemma ReadFirst(z: nat, l: Line, rest: seq<Byte>)
    requires OneLine(l)
    ensures var s := Zeros(z) + l + rest;
      NewlineAt(s) == z + |l| - 1 && s[..z + |l|] == Zeros(z) + l && s[z + |l|..] == rest
      && Strip(s[..z + |l|]) == l
  {
    var s := Zeros(z) + l + rest;
    assert forall i :: 0 <= i < z ==> s[i] == NUL;
    assert forall i :: z <= i < z + |l| ==> s[i] == l[i - z];
    var n, last := NewlineAt(s), z + |l| - 1;
    assert s[last] == LF;
    assert forall i :: 0 <= i < last ==> s[i] != LF;
    assert s[..z + |l|] == Zeros(z) + l;
    StripZeros(z, l);
  }

  lemma LinesOfFirst(z: nat, l: Line, rest: seq<Byte>)
    requires OneLine(l)
    ensures Lines(Zeros(z) + l + rest) == ([l] + Lines(rest).0, Lines(rest).1)
  {
    ReadFirst(z, l, rest);
  }

  lemma WireCons(z: nat, lines: seq<Line>)
    requires lines != []
    ensures Zeros(z) + Wire(lines) == Zeros(z) + lines[0] + (Zeros(1) + Wire(lines[1..]))
  {
    assert Zeros(1) == [NUL];
  }

  lemma LinesOfZeros(z: nat)
    ensures Lines(Zeros(z)) == ([], Zeros(z))
  {
    assert forall i :: 0 <= i < z ==> Zeros(z)[i] == NUL;
  }

  /** Framing round trip: whatever NULs precede, the lines come back, and one NUL stays behind. */
  lemma {:induction false} LinesOfWire(z: nat, lines: seq<Line>)
    requires forall i :: 0 <= i < |lines| ==> OneLine(lines[i])
    ensures Lines(Zeros(z) + Wire(lines)) == (lines, Zeros(if lines == [] then z else 1))
    decreases |lines|
  {
    if lines == [] {
      assert Zeros(z) + Wire(lines) == Zeros(z);
      LinesOfZeros(z);
    } else {
      WireCons(z, lines);
      LinesOfFirst(z, lines[0], Zeros(1) + Wire(lines[1..]));
      LinesOfWire(1, lines[1..]);
      assert [lines[0]] + lines[1..] == lines;
    }
  }

  /** The first failing write; the number of lines if none fails. */
  function Failing(results: seq<int>): (k: nat)
    ensures k <= |results| && (k < |results| ==> results[k] < 0)
    ensures forall j :: 0 <= j < k ==> results[j] >= 0
  {
    if results == [] || results[0] < 0 then 0 else 1 + Failing(results[1..])
  }

  lemma {:induction false} WireAppend(lines: seq<Line>, l: Line)
    ensures Wire(lines + [l]) == Wire(lines) + (l + [NUL])
  {
    if lines == [] {
      assert lines + [l] == [l] && [l][1..] == [];
    } else {
      assert (lines + [l])[1..] == lines[1..] + [l];
      WireAppend(lines[1..], l);
    }
  }

  /** The kernel's loop over the replies linked to a session; -ENOENT if there is none. `results[i]` is
      what the socket returns for line i, an error or a count; the first error ends the loop. */
  method WriteSessionReplies(lines: seq<Line>, results: seq<int>) returns (ccode: int, written: seq<Byte>)
    requires |results| == |lines|
    ensures ccode == if lines == [] then -2 else if Failing(results) < |lines| then results[Failing(results)] else 0
    ensures written == Wire(lines[..Failing(results)])
  {
    written := [];
    if lines == [] {
      return -2, written;
    }
    for i := 0 to |lines|
      invariant written == Wire(lines[..i]) && forall j :: 0 <= j < i ==> results[j] >= 0
    {
      if results[i] < 0 {
        return results[i], written;
      }
      WireAppend(lines[..i], lines[i]);
      assert lines[..i] + [lines[i]] == lines[..i + 1];
      written := written + (lines[i] + [NUL]);
    }
    ccode := 0;
  }

  // ----- The messages -----

  /** An element of the array under "reply": a string, or the nested object of a record. */
  datatype Field<D> = Text(text: string) | Data(data: D)

  /** A parsed message: the array under "reply", if there is one. */
  datatype Message<D> = Message(reply: Option<seq<Field<D>>>)

  /** What the client makes of a parsed line. Indexing past the end of the reply, or converting a
      line that did not parse, raises an exception. */
  datatype Converted<D> = Stop | Payload(sensor: Field<D>, data: Field<D>) | Raises

  const UNHANDLED := "unhandled"

  function ConvertSensorReply<D>(m: Option<Message<D>>): Converted<D> {
    if m.None? then Raises
    else if m.value.reply.None? || |m.value.reply.value| < 4 then Stop
    else
      var reply := m.value.reply.value;
      if reply[2] == Text("kernel-lsof") then
        if |reply| > 4 then Payload(reply[2], reply[4]) else Raises
      else if reply[2] == Text("kernel-ps") then
        if |reply| > 5 then Payload(reply[2], reply[5]) else Raises
      else Payload(reply[2], Text(UNHANDLED))
  }

  /** Which sensor replies, and the strings that every reply of a request repeats. */
  datatype Header = Header(tag: string, sessionNonce: string, name: string, uuid: string, refresh: string)

  /** The reply array that the sensor's printer writes for one record, or for the end. */
  function Fields<D>(h: Header, r: Reply<D>, index: nat -> string): seq<Field<D>> {
    match r
    case Terminator => [Text(h.sessionNonce), Text(h.name), Text(h.uuid)]
    case Record(i, d) =>
      if h.tag == "kernel-ps" then
        [Text(h.sessionNonce), Text(h.name), Text(h.tag), Text(h.uuid), Text(index(i)), Data(d), Text(h.refresh)]
      else
        [Text(h.sessionNonce), Text(h.name), Text(h.tag), Text(h.uuid), Data(d)]
  }

  /** The printers and the JSON library, seen from outside: how an index and a reply array are
      rendered, and what the parser makes of a line. */
  datatype Codec<!D> = Codec(index: nat -> string, render: seq<Field<D>> -> Line, loads: Line -> Option<Message<D>>)

  /** This reply array renders to one line, which parses back to it. */
  ghost predicate Faithful<D>(c: Codec<D>, fields: seq<Field<D>>) {
    OneLine(c.render(fields)) && c.loads(c.render(fields)) == Some(Message(Some(fields)))
  }

  /** The codec carries the response to a request: each of its records and the terminator. */
  ghost predicate Carries<D>(c: Codec<D>, h: Header, items: seq<D>) {
    && Faithful(c, Fields(h, Terminator, c.index))
    && forall k :: 0 <= k < |items| ==> Faithful(c, Fields(h, Record(k, items[k]), c.index))
  }

  function Rendered<D>(c: Codec<D>, h: Header, replies: seq<Reply<D>>): (lines: seq<Line>)
    ensures |lines| == |replies|
    ensures forall k :: 0 <= k < |lines| ==> lines[k] == c.render(Fields(h, replies[k], c.index))
  {
    seq(|replies|, k requires 0 <= k < |replies| => c.render(Fields(h, replies[k], c.index)))
  }

  // ----- The client -----

  /** What the client reads next, and what is left: a line up to its newline or, once the connection is
      closed, what there is. */
  function NextLine(stream: seq<Byte>, closed: bool): (r: Option<(Line, seq<Byte>)>)
    ensures r.Some? ==> |r.value.1| < |stream|
  {
    var n := NewlineAt(stream);
    if n < |stream| then Some((Strip(stream[..n + 1]), stream[n + 1..]))
    else if closed && stream != [] then Some((Strip(stream), []))
    else None
  }

  /** The client's loop: it reads lines until one ends the response or its timeout fires, after at most
      `patience` lines, or when nothing more can be read. `raised` says that an exception escaped. */
  method FetchSensorRecords<D>(c: Codec<D>, stream: seq<Byte>, patience: nat, closed: bool)
    returns (payloads: seq<Field<D>>, rest: seq<Byte>, raised: bool)
    ensures (payloads, rest, raised) == Fetch(c, stream, patience, closed)
  {
    payloads, rest, raised := [], stream, false;
    assert payloads + Fetch(c, rest, patience, closed).0 == Fetch(c, rest, patience, closed).0;
    var left: nat := patience;
    while left > 0
      invariant !raised && left <= patience
      invariant var f := Fetch(c, rest, left, closed);
        Fetch(c, stream, patience, closed) == (payloads + f.0, f.1, f.2)
    {
      var next := NextLine(rest, closed);
      if next.None? {
        assert payloads + [] == payloads;
        return;
      }
      ghost var before := payloads;
      var converted := ConvertSensorReply(c.loads(next.value.0));
      rest := next.value.1;
      left := left - 1;
      match converted
      case Stop =>
        assert payloads + [] == payloads;
        return;
      case Raises =>
        raised := true;
        assert payloads + [] == payloads;
        return;
      case Payload(_, data) =>
        payloads := payloads + [data];
        assert before + ([data] + Fetch(c, rest, left, closed).0) == payloads + Fetch(c, rest, left, closed).0;
    }
    assert payloads + [] == payloads;
  }

  function Fetch<D>(c: Codec<D>, stream: seq<Byte>, patience: nat, closed: bool): (seq<Field<D>>, seq<Byte>, bool)
    decreases patience
  {
    if patience == 0 || NextLine(stream, closed).None? then ([], stream, false)
    else
      var (line, rest) := NextLine(stream, closed).value;
      match ConvertSensorReply(c.loads(line))
      case Stop => ([], rest, false)
      case Raises => ([], rest, true)
      case Payload(_, data) =>
        var f := Fetch(c, rest, patience - 1, closed);
        ([data] + f.0, f.1, f.2)
  }

  function Payloads<D>(items: seq<D>): seq<Field<D>> {
    seq(|items|, k requires 0 <= k < |items| => Data(items[k]))
  }

  lemma FetchLine<D>(c: Codec<D>, z: nat, line: Line, more: seq<Byte>, patience: nat, closed: bool)
    requires OneLine(line) && patience > 0
    ensures Fetch(c, Zeros(z) + line + more, patience, closed) ==
      match ConvertSensorReply(c.loads(line))
      case Stop => ([], more, false)
      case Raises => ([], more, true)
      case Payload(_, data) =>
        var f := Fetch(c, more, patience - 1, closed);
        ([data] + f.0, f.1, f.2)
  {
    ReadFirst(z, line, more);
  }

  /** The wire form of a response that begins with one reply. */
  lemma WireSplit<D>(c: Codec<D>, h: Header, first: Reply<D>, rest: seq<Reply<D>>, z: nat, later: seq<Byte>)
    ensures Zeros(z) + Wire(Rendered(c, h, [first] + rest)) + later
            == Zeros(z) + c.render(Fields(h, first, c.index)) + (Zeros(1) + Wire(Rendered(c, h, rest)) + later)
  {
    var lines := Rendered(c, h, [first] + rest);
    assert lines[1..] == Rendered(c, h, rest);
    assert Zeros(1) == [NUL];
  }

  lemma ConvertRecord<D>(c: Codec<D>, h: Header, i: nat, d: D)
    requires Faithful(c, Fields(h, Record(i, d), c.index)) && (h.tag == "kernel-ps" || h.tag == "kernel-lsof")
    ensures ConvertSensorReply(c.loads(c.render(Fields(h, Record(i, d), c.index)))) == Payload(Text(h.tag), Data(d))
  {
  }

  lemma FetchRecord<D>(c: Codec<D>, h: Header, i: nat, d: D, rest: seq<Reply<D>>, z: nat, later: seq<Byte>, patience: nat, closed: bool)
    requires Faithful(c, Fields(h, Record(i, d), c.index)) && (h.tag == "kernel-ps" || h.tag == "kernel-lsof")
    requires patience > 0
    ensures var f := Fetch(c, Zeros(1) + Wire(Rendered(c, h, rest)) + later, patience - 1, closed);
      Fetch(c, Zeros(z) + Wire(Rendered(c, h, [Record(i, d)] + rest)) + later, patience, closed) == ([Data(d)] + f.0, f.1, f.2)
  {
    WireSplit(c, h, Record(i, d), rest, z, later);
    ConvertRecord(c, h, i, d);
    FetchLine(c, z, c.render(Fields(h, Record(i, d), c.index)), Zeros(1) + Wire(Rendered(c, h, rest)) + later, patience, closed);
  }

  lemma FetchEnd<D>(c: Codec<D>, h: Header, z: nat, later: seq<Byte>, patience: nat, closed: bool)
    requires Faithful(c, Fields(h, Terminator, c.index)) && patience > 0
    ensures Fetch(c, Zeros(z) + Wire(Rendered(c, h, [Terminator])) + later, patience, closed) == ([], Zeros(1) + later, false)
  {
    var end: seq<Reply<D>> := [Terminator];
    assert end + [] == end;
    WireSplit(c, h, Terminator, [], z, later);
    var none := Wire(Rendered(c, h, []));
    FetchLine(c, z, c.render(Fields(h, Terminator, c.index)), Zeros(1) + none + later, patience, closed);
    assert Zeros(1) + none == Zeros(1);
  }

  /** The first items, as many as the client's patience allows. */
  function Soon<D>(items: seq<D>, patience: nat): seq<D> {
    if patience < |items| then items[..patience] else items
  }

  lemma SoonFrom<D>(items: seq<D>, i: nat, patience: nat)
    requires i < |items| && patience > 0
    ensures Payloads(Soon(items[i..], patience)) == [Data(items[i])] + Payloads(Soon(items[i + 1..], patience - 1))
  {
    assert Soon(items[i..], patience) == [items[i]] + Soon(items[i + 1..], patience - 1);
    PayloadsCons(items[i], Soon(items[i + 1..], patience - 1));
  }

  lemma PayloadsCons<D>(d: D, items: seq<D>)
    ensures Payloads([d] + items) == [Data(d)] + Payloads(items)
  {
  }

  /** The bytes of a response from item i on, between `z` NULs and what follows. */
  function Response<D>(c: Codec<D>, h: Header, items: seq<D>, i: nat, z: nat, later: seq<Byte>): seq<Byte>
    requires i <= |items|
  {
    Zeros(z) + Wire(Rendered(c, h, Snapshot(items, i))) + later
  }

  lemma FetchStep<D>(c: Codec<D>, h: Header, items: seq<D>, i: nat, z: nat, later: seq<Byte>, patience: nat, closed: bool)
    requires Carries(c, h, items) && (h.tag == "kernel-ps" || h.tag == "kernel-lsof") && i < |items| && patience > 0
    ensures var f := Fetch(c, Response(c, h, items, i + 1, 1, later), patience - 1, closed);
      Fetch(c, Response(c, h, items, i, z, later), patience, closed) == ([Data(items[i])] + f.0, f.1, f.2)
  {
    FetchRecord(c, h, i, items[i], Snapshot(items, i + 1), z, later, patience, closed);
  }

  lemma FetchLast<D>(c: Codec<D>, h: Header, items: seq<D>, z: nat, later: seq<Byte>, patience: nat, closed: bool)
    requires Carries(c, h, items) && patience > 0
    ensures Fetch(c, Response(c, h, items, |items|, z, later), patience, closed) == ([], Zeros(1) + later, false)
  {
    FetchEnd(c, h, z, later, patience, closed);
  }

  lemma FetchNone<D>(c: Codec<D>, stream: seq<Byte>, closed: bool)
    ensures Fetch(c, stream, 0, closed) == ([], stream, false)
  {
  }

  lemma SoonNone<D>(items: seq<D>, i: nat, patience: nat)
    requires i <= |items| && (patience == 0 || i == |items|)
    ensures Payloads(Soon(items[i..], patience)) == []
  {
  }

  /** What the client gets from item i on. */
  ghost predicate Gets<D>(f: (seq<Field<D>>, seq<Byte>, bool), items: seq<D>, i: nat, later: seq<Byte>, patience: nat)
    requires i <= |items|
  {
    && f.0 == Payloads(Soon(items[i..], patience)) && !f.2
    && (patience > |items| - i ==> f.1 == Zeros(1) + later)
  }

  lemma GetsStep<D>(f: (seq<Field<D>>, seq<Byte>, bool), items: seq<D>, i: nat, later: seq<Byte>, patience: nat)
    requires i < |items| && patience > 0 && Gets(f, items, i + 1, later, patience - 1)
    ensures Gets(([Data(items[i])] + f.0, f.1, f.2), items, i, later, patience)
  {
    SoonFrom(items, i, patience);
  }

  lemma GetsNone<D>(rest: seq<Byte>, items: seq<D>, i: nat, later: seq<Byte>, patience: nat)
    requires i <= |items|
    requires patience == 0 || (i == |items| && rest == Zeros(1) + later)
    ensures Gets(([], rest, false), items, i, later, patience)
  {
    SoonNone(items, i, patience);
  }

  lemma FetchZero<D>(c: Codec<D>, h: Header, items: seq<D>, i: nat, z: nat, later: seq<Byte>, closed: bool)
    requires i <= |items|
    ensures Gets(Fetch(c, Response(c, h, items, i, z, later), 0, closed), items, i, later, 0)
  {
    FetchNone(c, Response(c, h, items, i, z, later), closed);
    GetsNone(Response(c, h, items, i, z, later), items, i, later, 0);
  }

  lemma FetchAtEnd<D>(c: Codec<D>, h: Header, items: seq<D>, z: nat, later: seq<Byte>, patience: nat, closed: bool)
    requires Carries(c, h, items) && patience > 0
    ensures Gets(Fetch(c, Response(c, h, items, |items|, z, later), patience, closed), items, |items|, later, patience)
  {
    FetchLast(c, h, items, z, later, patience, closed);
    GetsNone(Zeros(1) + later, items, |items|, later, patience);
  }

  lemma FetchOneMore<D>(c: Codec<D>, h: Header, items: seq<D>, i: nat, z: nat, later: seq<Byte>, patience: nat, closed: bool)
    requires Carries(c, h, items) && (h.tag == "kernel-ps" || h.tag == "kernel-lsof") && i < |items| && patience > 0
    requires Gets(Fetch(c, Response(c, h, items, i + 1, 1, later), patience - 1, closed), items, i + 1, later, patience - 1)
    ensures Gets(Fetch(c, Response(c, h, items, i, z, later), patience, closed), items, i, later, patience)
  {
    var f := Fetch(c, Response(c, h, items, i + 1, 1, later), patience - 1, closed);
    FetchStep(c, h, items, i, z, later, patience, closed);
    GetsStep(f, items, i, later, patience);
  }

  /** From item i on: without a timeout the client gets the remaining items, stops at the terminator
      and leaves the trailing NUL and whatever follows; a timeout cuts the list short, and no more. */
  lemma {:induction false} FetchFrom<D>(c: Codec<D>, h: Header, items: seq<D>, i: nat, z: nat, later: seq<Byte>, patience: nat, closed: bool)
    requires Carries(c, h, items) && (h.tag == "kernel-ps" || h.tag == "kernel-lsof") && i <= |items|
    ensures Gets(Fetch(c, Response(c, h, items, i, z, later), patience, closed), items, i, later, patience)
    decreases |items| - i
  {
    if patience == 0 {
      FetchZero(c, h, items, i, z, later, closed);
    } else if i < |items| {
      FetchFrom(c, h, items, i + 1, 1, later, patience - 1, closed);
      FetchOneMore(c, h, items, i, z, later, patience, closed);
    } else {
      FetchAtEnd(c, h, items, z, later, patience, closed);
    }
  }

  // ----- Other lines -----

  /** Where the kernel puts the parts of a record. */
  lemma RecordPlaces<D>(h: Header, i: nat, d: D, index: nat -> string)
    ensures var f := Fields(h, Record(i, d), index);
      && f[0] == Text(h.sessionNonce) && f[1] == Text(h.name) && f[2] == Text(h.tag) && f[3] == Text(h.uuid)
      && (h.tag == "kernel-ps" ==> |f| == 7 && f[4] == Text(index(i)) && f[5] == Data(d) && f[6] == Text(h.refresh))
      && (h.tag != "kernel-ps" ==> |f| == 5 && f[4] == Data(d))
    ensures Fields<D>(h, Terminator, index) == [Text(h.sessionNonce), Text(h.name), Text(h.uuid)]
  {
  }

  /** What the client makes of any reply array. */
  lemma ConvertCases<D>(reply: seq<Field<D>>)
    ensures var r := ConvertSensorReply(Some(Message(Some(reply))));
      && (|reply| < 4 ==> r == Stop)
      && (|reply| >= 4 && reply[2] == Text("kernel-lsof") ==>
            r == if |reply| == 4 then Raises else Payload(reply[2], reply[4]))
      && (|reply| >= 4 && reply[2] == Text("kernel-ps") ==>
            r == if |reply| <= 5 then Raises else Payload(reply[2], reply[5]))
      && (|reply| >= 4 && reply[2] != Text("kernel-lsof") && reply[2] != Text("kernel-ps") ==>
            r == Payload(reply[2], Text("unhandled")))
    ensures ConvertSensorReply<D>(None) == Raises && ConvertSensorReply<D>(Some(Message(None))) == Stop
  {
  }

  /** A line that does not parse raises an exception in the client, which loses the payloads before it to
      the caller but no byte behind it. */
  lemma UnparsedRaises<D>(c: Codec<D>, z: nat, line: Line, more: seq<Byte>, patience: nat, closed: bool)
    requires OneLine(line) && patience > 0 && c.loads(line) == None
    ensures Fetch(c, Zeros(z) + line + more, patience, closed) == ([], more, true)
  {
    FetchLine(c, z, line, more, patience, closed);
  }

  /** A message without reply, or with a reply of fewer than four parts, ends the list. */
  lemma ShortReplyStops<D>(c: Codec<D>, z: nat, line: Line, more: seq<Byte>, patience: nat, closed: bool)
    requires OneLine(line) && patience > 0 && c.loads(line).Some?
    requires var m := c.loads(line).value; m.reply.None? || |m.reply.value| < 4
    ensures Fetch(c, Zeros(z) + line + more, patience, closed) == ([], more, false)
  {
    FetchLine(c, z, line, more, patience, closed);
  }

  /** A record of another sensor is kept as unhandled, and the list goes on. */
  lemma OtherSensorUnhandled<D>(c: Codec<D>, z: nat, line: Line, reply: seq<Field<D>>, more: seq<Byte>, patience: nat, closed: bool)
    requires OneLine(line) && patience > 0 && c.loads(line) == Some(Message(Some(reply))) && |reply| >= 4
    requires reply[2] != Text("kernel-lsof") && reply[2] != Text("kernel-ps")
    ensures var f := Fetch(c, more, patience - 1, closed);
      Fetch(c, Zeros(z) + line + more, patience, closed) == ([Text("unhandled")] + f.0, f.1, f.2)
  {
    FetchLine(c, z, line, more, patience, closed);
    ConvertCases(reply);
  }

  /** A line cut short: while the connection is open the client waits, and takes nothing; once it is closed
      the client parses what there is. */
  lemma CutLineIs<D>(c: Codec<D>, stream: seq<Byte>, patience: nat)
    requires LF !in stream && patience > 0
    ensures Fetch(c, stream, patience, false) == ([], stream, false)
    ensures stream == [] ==> Fetch(c, stream, patience, true) == ([], [], false)
    ensures stream != [] && c.loads(Strip(stream)) == None ==> Fetch(c, stream, patience, true) == ([], [], true)
  {
    assert NewlineAt(stream) == |stream|;
  }

  // ----- There are such codecs -----

  ghost function IndexOf<D>(all: seq<seq<Field<D>>>, f: seq<Field<D>>): (k: nat)
    ensures k <= |all| && (k < |all| ==> all[k] == f) && (f in all ==> k < |all|)
  {
    if all == [] || all[0] == f then 0 else 1 + IndexOf(all[1..], f)
  }

  /** A line of n bytes and a newline. */
  function Bar(n: nat): (l: Line)
    ensures |l| == n + 1 && OneLine(l)
  {
    seq(n, _ => 65) + [LF]
  }

  /** For every response there is a codec that carries it: what `FetchFrom` assumes can be had. */
  lemma CodecExists<D>(h: Header, items: seq<D>, index: nat -> string) returns (c: Codec<D>)
    ensures c.index == index && Carries(c, h, items)
  {
    var all := [Fields(h, Terminator, index)]
      + seq(|items|, k requires 0 <= k < |items| => Fields(h, Record(k, items[k]), index));
    c := Codec(index, f => Bar(IndexOf(all, f)),
               l => if 1 <= |l| <= |all| then Some(Message(Some(all[|l| - 1]))) else None);
    assert Fields(h, Terminator, index) == all[0];
    forall k | 0 <= k < |items| ensures Faithful(c, Fields(h, Record(k, items[k]), c.index)) {
      assert Fields(h, Record(k, items[k]), index) == all[k + 1];
    }
  }
}
