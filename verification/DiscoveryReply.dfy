/**
The discovery reply on its way to the client: the line in which the kernel sends the array of sensors,
cut at the size of its buffer, and what the client reads, decodes and keeps of it.
*/
module DiscoveryReply {
  import opened Wrappers
  import opened Json
  import opened Discovery

  const CONNECTION_MAX_HEADER := 0x400
  const TAG := "Virtue-protocol-version"

  /** The array under "reply". */
  function ReplyArray(nonce: string, sensors: seq<Sensor>): string {
    "[\"" + nonce + "\", \"" + "discovery" + "\", " + Text(sensors) + "]"
  }

  function FullReply(nonce: string, sensors: seq<Sensor>): string {
    "{\"" + TAG + "\": 0.1, \"" + "reply" + "\": " + ReplyArray(nonce, sensors) + "}\n"
  }

  /** The printer of the line is given one byte less than its buffer, and keeps one for the NUL. */
  function ReplyLine(nonce: string, sensors: seq<Sensor>): string {
    var full := FullReply(nonce, sensors);
    if |full| <= CONNECTION_MAX_HEADER - 2 then full else full[..CONNECTION_MAX_HEADER - 2]
  }

  // ----- The line, piece by piece -----

  function Quoted(t: string, rest: string): string {
    "\"" + t + "\"" + rest
  }

  /** The line from the array of sensors on. */
  function AtSensors(sensors: seq<Sensor>): string {
    Text(sensors) + "]}\n"
  }

  function AtDiscovery(sensors: seq<Sensor>): string {
    Quoted("discovery", ", " + AtSensors(sensors))
  }

  function AtNonce(nonce: string, sensors: seq<Sensor>): string {
    Quoted(nonce, ", " + AtDiscovery(sensors))
  }

  function AtReply(nonce: string, sensors: seq<Sensor>): string {
    Quoted("reply", ": " + ("[" + AtNonce(nonce, sensors)))
  }

  function AtTag(nonce: string, sensors: seq<Sensor>): string {
    Quoted(TAG, ": 0.1, " + AtReply(nonce, sensors))
  }

  lemma Regroup5(a: string, b: string, c: string, d: string, e: string)
    ensures a + b + c + d + e == a + (b + (c + (d + e)))
  {
  }

  lemma ArrayPieces(nonce: string, sensors: seq<Sensor>)
    ensures ReplyArray(nonce, sensors) + "}\n" == "[" + AtNonce(nonce, sensors)
  {
    ArrayPiecesOf(nonce, "discovery", Text(sensors));
  }

  lemma ArrayPiecesOf(nonce: string, word: string, text: string)
    ensures "[\"" + nonce + "\", \"" + word + "\", " + text + "]" + "}\n"
         == "[" + Quoted(nonce, ", " + Quoted(word, ", " + (text + "]}\n")))
  {
    assert "[\"" == "[" + "\"" && "\", \"" == "\"" + ", " + "\"" && "\", " == "\"" + ", ";
    assert "]" + "}\n" == "]}\n";
  }

  lemma LinePieces(nonce: string, sensors: seq<Sensor>)
    ensures FullReply(nonce, sensors) == "{" + AtTag(nonce, sensors)
  {
    ArrayPieces(nonce, sensors);
    LinePiecesOf(TAG, "reply", ReplyArray(nonce, sensors), "[" + AtNonce(nonce, sensors));
  }

  lemma LinePiecesOf(tag: string, word: string, reply: string, tail: string)
    requires reply + "}\n" == tail
    ensures "{\"" + tag + "\": 0.1, \"" + word + "\": " + reply + "}\n"
         == "{" + Quoted(tag, ": 0.1, " + Quoted(word, ": " + tail))
  {
    assert "{\"" == "{" + "\"" && "\": 0.1, \"" == "\"" + ": 0.1, " + "\"" && "\": " == "\"" + ": ";
    Regroup5("{\"" + tag + "\": 0.1, \"" + word, "\": ", reply, "}\n", "");
  }

  // ----- When the line is complete -----

  /** Names without newline. */
  predicate OneLineNames(sensors: seq<Sensor>) {
    forall k :: 0 <= k < |sensors| ==> '\n' !in sensors[k].name
  }

  lemma NoNewline(a: string, b: string)
    requires '\n' !in a && '\n' !in b
    ensures '\n' !in a + b
  {
  }

  lemma EntryOneLine(s: Sensor)
    requires '\n' !in s.name
    ensures '\n' !in Entry(s)
  {
    assert forall i :: 0 <= i < |s.uuid| ==> s.uuid[i] != '\n';
    assert '\n' !in s.uuid && '\n' !in "[\"" && '\n' !in "\", \"" && '\n' !in "\"]";
    NoNewline("[\"", s.name);
    NoNewline("[\"" + s.name, "\", \"");
    NoNewline("[\"" + s.name + "\", \"", s.uuid);
    NoNewline("[\"" + s.name + "\", \"" + s.uuid, "\"]");
  }

  lemma {:induction false} TailOneLine(sensors: seq<Sensor>)
    requires OneLineNames(sensors)
    ensures '\n' !in Tail(sensors)
  {
    if sensors != [] {
      EntryOneLine(sensors[0]);
      TailOneLine(sensors[1..]);
    }
  }

  lemma TextOneLine(sensors: seq<Sensor>)
    requires OneLineNames(sensors)
    ensures '\n' !in Text(sensors)
  {
    TailOneLine(sensors);
    if sensors != [] {
      assert Tail(sensors)[2..] == From(sensors, 0);
    }
  }

  lemma ReplyArrayOneLine(nonce: string, sensors: seq<Sensor>)
    requires '\n' !in nonce && OneLineNames(sensors)
    ensures '\n' !in ReplyArray(nonce, sensors)
  {
    TextOneLine(sensors);
    var text, start := Text(sensors), "[\"" + nonce;
    assert '\n' !in "\", \"" && '\n' !in "discovery" && '\n' !in "\", ";
    NoNewline("[\"", nonce);
    NoNewline(start, "\", \"");
    NoNewline(start + "\", \"", "discovery");
    NoNewline(start + "\", \"" + "discovery", "\", ");
    NoNewline(start + "\", \"" + "discovery" + "\", ", text);
    NoNewline(start + "\", \"" + "discovery" + "\", " + text, "]");
  }

  function Front(nonce: string, sensors: seq<Sensor>): string {
    "{\"" + TAG + "\": 0.1, \"" + "reply" + "\": " + ReplyArray(nonce, sensors) + "}"
  }

  lemma FrontOneLine(nonce: string, sensors: seq<Sensor>)
    requires '\n' !in nonce && OneLineNames(sensors)
    ensures '\n' !in Front(nonce, sensors)
    ensures FullReply(nonce, sensors) == Front(nonce, sensors) + "\n"
  {
    ReplyArrayOneLine(nonce, sensors);
    var start := "{\"" + TAG + "\": 0.1, \"" + "reply" + "\": ";
    assert '\n' !in start;
    NoNewline(start, ReplyArray(nonce, sensors));
    NoNewline(start + ReplyArray(nonce, sensors), "}");
  }

  lemma CutLine(front: string, n: nat)
    requires '\n' !in front
    ensures var full := front + "\n"; var line := if |full| <= n then full else full[..n];
      ('\n' in line <==> |full| <= n) && ('\n' in line <==> line == full)
  {
    var full := front + "\n";
    if |full| > n {
      assert full[..n] == front[..n];
    } else {
      assert full[|full| - 1] == '\n';
    }
  }

  /** Although the array may take 4096 bytes, the line that carries it ends with its newline, and is
      complete, only up to 1022 characters: beyond that the client never sees a whole line. */
  lemma ReplyCompleteIff(nonce: string, sensors: seq<Sensor>)
    requires '\n' !in nonce && OneLineNames(sensors)
    ensures '\n' in ReplyLine(nonce, sensors) <==> |FullReply(nonce, sensors)| <= 1022
    ensures '\n' in ReplyLine(nonce, sensors) <==> ReplyLine(nonce, sensors) == FullReply(nonce, sensors)
  {
    FrontOneLine(nonce, sensors);
    CutLine(Front(nonce, sensors), CONNECTION_MAX_HEADER - 2);
  }

  /** One sensor with a name of 1000 letters: its array is printed, but its line is cut. */
  lemma CutAlthoughItFits(nonce: string, uuid: Uuid)
    ensures var sensors := [Sensor(seq(1000, _ => 'a'), uuid)];
      && AllClean(sensors) && Fits(sensors, 0, 1)
      && |FullReply(nonce, sensors)| > 1022
  {
    var name: Name := seq(1000, _ => 'a');
    var sensors := [Sensor(name, uuid)];
    assert |Text(sensors)| > 1000;
    assert |ReplyArray(nonce, sensors)| > |Text(sensors)| + 16;
    assert |FullReply(nonce, sensors)| > |ReplyArray(nonce, sensors)| + 20;
    FitsStep(sensors, 0, 1);
  }

  // ----- The client's list -----

  /** What the client keeps of one sensor. */
  datatype Found = Found(name: Value, uuid: Value)

  /** What a number selects in a value; the elements of a string are strings of one character. Nothing
      else has elements that a number selects. */
  function Elements(v: Value): seq<Value> {
    match v
    case Arr(elements) => elements
    case Str(text) => seq(|text|, k requires 0 <= k < |text| => Str([text[k]]))
    case _ => []
  }

  /** The keys of an object, each once. */
  function Keys(members: seq<Member>): seq<string> {
    if members == [] then []
    else
      var keys := Keys(members[..|members| - 1]);
      var last := members[|members| - 1].key;
      if last in keys then keys else keys + [last]
  }

  predicate Iterable(v: Value) {
    !v.Num? && !v.Word?
  }

  /** What a loop over a value goes through. */
  function Items(v: Value): seq<Value> {
    match v
    case Obj(members) =>
      var keys := Keys(members);
      seq(|keys|, k requires 0 <= k < |keys| => Str(keys[k]))
    case _ => Elements(v)
  }

  /** The list that the client makes of a reply. None: an exception, for a reply of another type, or
      for an element without a name and an id. */
  function DiscoveredIn(reply: Value): Option<seq<Found>> {
    var fields := Elements(reply);
    if |fields| < 3 || fields[1] != Str("discovery") || !Iterable(fields[2]) then None
    else if exists k :: 0 <= k < |Items(fields[2])| && |Elements(Items(fields[2])[k])| < 2 then None
    else Some(FoundIn(Items(fields[2])))
  }

  function FoundIn(elements: seq<Value>): (r: seq<Found>)
    requires forall k :: 0 <= k < |elements| ==> |Elements(elements[k])| >= 2
    ensures |r| == |elements|
    ensures forall k :: 0 <= k < |r| ==> r[k] == Found(Elements(elements[k])[0], Elements(elements[k])[1])
  {
    seq(|elements|, k requires 0 <= k < |elements| => Found(Elements(elements[k])[0], Elements(elements[k])[1]))
  }

  /** The value of a key; of several, the last. */
  function Lookup(members: seq<Member>, key: string): (r: Option<Value>)
    ensures r.Some? ==> exists k :: 0 <= k < |members| && members[k].value == r.value
  {
    if members == [] then None
    else if members[|members| - 1].key == key then Some(members[|members| - 1].value)
    else Lookup(members[..|members| - 1], key)
  }

  function StripNuls(s: string): string {
    if s == "" then "" else (if s[0] == NUL then "" else [s[0]]) + StripNuls(s[1..])
  }

  /** The position of the first newline, or the length. */
  function NewlineAt(s: string): (n: nat)
    ensures n <= |s| && (n < |s| ==> s[n] == '\n') && forall i :: 0 <= i < n ==> s[i] != '\n'
  {
    if s == "" || s[0] == '\n' then 0 else 1 + NewlineAt(s[1..])
  }

  /** What the client makes of a line. None: an exception. */
  function ListOf(line: string): Option<seq<Found>> {
    match Decode(line)
    case None => None
    case Some(response) =>
      if !response.Obj? || Lookup(response.members, "reply").None? then None
      else DiscoveredIn(Lookup(response.members, "reply").value)
  }

  /** What the client makes of the characters that arrive. None: no whole line, or an exception. */
  function ClientList(stream: string): Option<seq<Found>> {
    var n := NewlineAt(stream);
    if n == |stream| then None else ListOf(StripNuls(stream[..n + 1]))
  }

  /** The client's loop over the elements of the reply. */
  method KeepAll(list: seq<Value>) returns (r: Option<seq<Found>>)
    ensures r.None? <==> exists k :: 0 <= k < |list| && |Elements(list[k])| < 2
    ensures r.Some? ==> r.value == FoundIn(list)
  {
    var found: seq<Found> := [];
    for k := 0 to |list|
      invariant |found| == k && forall j :: 0 <= j < k ==> |Elements(list[j])| >= 2
      invariant forall j :: 0 <= j < k ==> found[j] == Found(Elements(list[j])[0], Elements(list[j])[1])
    {
      var s := Elements(list[k]);
      if |s| < 2 {
        return None;
      }
      found := found + [Found(s[0], s[1])];
    }
    assert found == FoundIn(list);
    r := Some(found);
  }

  method DiscoverSensors(stream: string) returns (r: Option<seq<Found>>)
    ensures r == ClientList(stream)
  {
    var n := NewlineAt(stream);
    if n == |stream| {
      return None;
    }
    var response := Decode(StripNuls(stream[..n + 1]));
    if response.None? || !response.value.Obj? {
      return None;
    }
    var reply := Lookup(response.value.members, "reply");
    if reply.None? {
      return None;
    }
    var fields := Elements(reply.value);
    if |fields| < 2 || fields[1] != Str("discovery") || |fields| == 2 || !Iterable(fields[2]) {
      return None;
    }
    r := KeepAll(Items(fields[2]));
  }

  /** What the client should know of a list of sensors. */
  function Known(sensors: seq<Sensor>): seq<Found> {
    seq(|sensors|, k requires 0 <= k < |sensors| => Found(Str(sensors[k].name), Str(sensors[k].uuid)))
  }

  // ----- Decoding the whole line -----

  lemma SpaceValue(s: string)
    ensures ParseValue(" " + s) == ParseValue(s) && ParseElements(" " + s) == ParseElements(s)
    ensures ParseMembers(" " + s) == ParseMembers(s)
  {
    assert (" " + s)[1..] == s;
  }

  /** A key and its colon. */
  lemma ParseKey(key: string, x: string)
    requires Clean(key)
    ensures var s := Quoted(key, ": " + x);
      s[0] == '"' && SkipSpace(s) == s && ParseString(s[1..]) == Some((key, ": " + x))
    ensures SkipSpace(": " + x) == ": " + x && ParseValue((": " + x)[1..]) == ParseValue(x)
  {
    var s := Quoted(key, ": " + x);
    assert s[1..] == key + "\"" + (": " + x);
    ParseClean(key, ": " + x);
    assert (": " + x)[1..] == " " + x;
    SpaceValue(x);
  }

  lemma MembersEnd(s: string, key: string, u: string, v: Value, w: string)
    requires s != "" && s[0] == '"' && SkipSpace(s) == s && ParseString(s[1..]) == Some((key, u))
    requires u != "" && u[0] == ':' && SkipSpace(u) == u && ParseValue(u[1..]) == Some((v, w))
    requires w != "" && w[0] == '}' && SkipSpace(w) == w
    ensures ParseMembers(s) == Some(([Member(key, v)], w[1..]))
  {
  }

  /** The last member of an object. */
  lemma LastMember(key: string, x: string, v: Value, end: string)
    requires Clean(key) && ParseValue(x) == Some((v, "}" + end))
    ensures ParseMembers(Quoted(key, ": " + x)) == Some(([Member(key, v)], end))
  {
    ParseKey(key, x);
    MembersEnd(Quoted(key, ": " + x), key, ": " + x, v, "}" + end);
    assert ("}" + end)[1..] == end;
  }

  lemma MembersStep(s: string, key: string, u: string, v: Value, w: string)
    requires s != "" && s[0] == '"' && SkipSpace(s) == s && ParseString(s[1..]) == Some((key, u))
    requires u != "" && u[0] == ':' && SkipSpace(u) == u && ParseValue(u[1..]) == Some((v, w))
    requires w != "" && w[0] == ',' && SkipSpace(w) == w
    ensures ParseMembers(s) ==
      match ParseMembers(w[1..])
      case None => None
      case Some((members, end)) => Some(([Member(key, v)] + members, end))
  {
  }

  /** A member that is followed by others. */
  lemma NextMember(key: string, x: string, v: Value, more: string, members: seq<Member>, end: string)
    requires Clean(key) && ParseValue(x) == Some((v, ", " + more)) && ParseMembers(more) == Some((members, end))
    ensures ParseMembers(Quoted(key, ": " + x)) == Some(([Member(key, v)] + members, end))
  {
    ParseKey(key, x);
    CommaFirst(more);
    MembersStep(Quoted(key, ": " + x), key, ": " + x, v, ", " + more);
  }

  lemma CommaFirst(more: string)
    ensures var w := ", " + more; w[0] == ',' && SkipSpace(w) == w && ParseMembers(w[1..]) == ParseMembers(more)
  {
    var w := ", " + more;
    assert w[1..] == " " + more;
    SpaceValue(more);
  }

  lemma ParseVersion(rest: string)
    ensures ParseValue("0.1" + (", " + rest)) == Some((Num("0.1"), ", " + rest))
  {
    var s := "0.1" + (", " + rest);
    assert s[1..] == ".1" + (", " + rest) && s[1..][1..] == "1" + (", " + rest);
    assert s[3..] == ", " + rest && s[1..][1..][1..] == ", " + rest;
    assert Digits(s[1..][1..]) == 1 && FractionWidth(s[1..]) == 2 && ExponentWidth(s[3..]) == 0;
    assert s[0..] == s && NumberWidth(s) == 3 && s[..3] == "0.1";
  }

  /** One more string in front of the elements of an array. */
  lemma ParseQuoted(t: string, x: string)
    requires Clean(t) && ParseElements(x).Some?
    ensures ParseElements(Quoted(t, ", " + x)) == Some(([Str(t)] + ParseElements(x).value.0, ParseElements(x).value.1))
  {
    ParseStr(t, ", " + x);
    assert ", " + x == "," + (" " + x);
    NextElement(Quoted(t, ", " + x), Str(t), " " + x);
    SpaceValue(x);
  }

  function ReplyValue(nonce: string, sensors: seq<Sensor>): Value {
    Arr([Str(nonce)] + ([Str("discovery")] + [Arr(Pairs(sensors))]))
  }

  lemma ParseReplyValue(nonce: string, sensors: seq<Sensor>)
    requires Clean(nonce) && AllClean(sensors)
    ensures ParseValue("[" + AtNonce(nonce, sensors)) == Some((ReplyValue(nonce, sensors), "}\n"))
  {
    ParseText(sensors, "]}\n");
    assert "]}\n" == "]" + "}\n";
    LastElement(AtSensors(sensors), Arr(Pairs(sensors)), "}\n");
    var word: string := "discovery";
    assert Clean(word);
    ParseQuoted(word, AtSensors(sensors));
    ParseQuoted(nonce, AtDiscovery(sensors));
    ParseBracket(AtNonce(nonce, sensors));
  }

  function Response(nonce: string, sensors: seq<Sensor>): Value {
    Obj([Member(TAG, Num("0.1"))] + [Member("reply", ReplyValue(nonce, sensors))])
  }

  lemma ParseObject(inner: string)
    requires inner != "" && inner[0] == '"'
    ensures ParseValue("{" + inner) ==
      match ParseMembers(inner)
      case None => None
      case Some((members, rest)) => Some((Obj(members), rest))
  {
    var text := "{" + inner;
    assert text[1..] == inner && SkipSpace(text) == text && SkipSpace(inner) == inner;
  }

  lemma ParseReplyMember(nonce: string, sensors: seq<Sensor>)
    requires Clean(nonce) && AllClean(sensors)
    ensures ParseMembers(AtReply(nonce, sensors)) == Some(([Member("reply", ReplyValue(nonce, sensors))], "\n"))
  {
    var word: string := "reply";
    assert Clean(word);
    ParseReplyValue(nonce, sensors);
    assert "}\n" == "}" + "\n";
    LastMember(word, "[" + AtNonce(nonce, sensors), ReplyValue(nonce, sensors), "\n");
  }

  lemma VersionText(reply: string)
    ensures ": " + ("0.1" + (", " + reply)) == ": 0.1, " + reply
  {
  }

  lemma ParseTagMember(tag: string, reply: string, members: seq<Member>, end: string)
    requires Clean(tag) && ParseMembers(reply) == Some((members, end))
    ensures ParseMembers(Quoted(tag, ": 0.1, " + reply)) == Some(([Member(tag, Num("0.1"))] + members, end))
  {
    ParseVersion(reply);
    VersionText(reply);
    NextMember(tag, "0.1" + (", " + reply), Num("0.1"), reply, members, end);
  }

  lemma CleanTag()
    ensures Clean(TAG)
  {
  }

  lemma DecodeReply(nonce: string, sensors: seq<Sensor>)
    requires Clean(nonce) && AllClean(sensors)
    ensures Decode(FullReply(nonce, sensors)) == Some(Response(nonce, sensors))
  {
    ParseReplyMember(nonce, sensors);
    CleanTag();
    ParseTagMember(TAG, AtReply(nonce, sensors), [Member("reply", ReplyValue(nonce, sensors))], "\n");
    LinePieces(nonce, sensors);
    ParseObject(AtTag(nonce, sensors));
    assert SkipSpace("\n") == "" by {
      assert "\n"[1..] == "";
    }
  }

  lemma PairsDiscovered(nonce: string, sensors: seq<Sensor>)
    ensures DiscoveredIn(ReplyValue(nonce, sensors)) == Some(Known(sensors))
  {
    var pairs := Pairs(sensors);
    assert forall k :: 0 <= k < |pairs| ==> Elements(pairs[k]) == [Str(sensors[k].name), Str(sensors[k].uuid)];
    assert FoundIn(pairs) == Known(sensors);
  }

  lemma LookupReply(v: Value)
    ensures Lookup([Member(TAG, Num("0.1"))] + [Member("reply", v)], "reply") == Some(v)
  {
  }

  // ----- What misleads the decoder -----

  /** A string that cannot be the longest unclean name, of length `max`. */
  predicate Harmless(t: string, max: nat) {
    Clean(t) || |t| < max
  }

  /** Reading a string, just behind its quotation mark: it is harmless, or the reader comes out in
      front of an id, where no value can end. */
  predicate LiteralOk(y: string, max: nat) {
    match ParseString(y)
    case None => true
    case Some((t, rest)) => Harmless(t, max) || (rest != "" && UuidChar(rest[0]))
  }

  /** This holds behind every quotation mark. */
  ghost predicate Safe(x: string, max: nat) {
    forall o :: 0 <= o < |x| && x[o] == '"' ==> LiteralOk(x[o + 1..], max)
  }

  predicate Suffix(r: string, x: string) {
    |r| <= |x| && r == x[|x| - |r|..]
  }

  lemma SuffixOf(r: string, y: string, x: string)
    requires Suffix(r, y) && Suffix(y, x)
    ensures Suffix(r, x)
  {
  }

  lemma SafeSuffix(r: string, x: string, max: nat)
    requires Safe(x, max) && Suffix(r, x)
    ensures Safe(r, max)
  {
    forall o | 0 <= o < |r| && r[o] == '"' ensures LiteralOk(r[o + 1..], max) {
      var p := |x| - |r| + o;
      assert x[p] == '"' && x[p + 1..] == r[o + 1..];
    }
  }

  lemma {:induction false} SkipSuffix(s: string)
    ensures Suffix(SkipSpace(s), s)
  {
    if s != "" && IsSpace(s[0]) {
      SkipSuffix(s[1..]);
    }
  }

  /** Behind a string, whose last character was a quotation mark. */
  lemma {:induction false} StringSuffix(y: string)
    requires ParseString(y).Some?
    ensures var r := ParseString(y).value.1; Suffix(r, y) && |r| < |y| && y[|y| - |r| - 1] == '"'
    decreases |y|
  {
    if y[0] != '"' {
      var width := StringChar(y).value.1;
      StringSuffix(y[width..]);
    }
  }

  /** Every string of a value is harmless. */
  predicate HarmlessValue(v: Value, max: nat) {
    match v
    case Str(t) => Harmless(t, max)
    case Num(_) => true
    case Word(_) => true
    case Arr(elements) => forall k :: 0 <= k < |elements| ==> HarmlessValue(elements[k], max)
    case Obj(members) => forall k :: 0 <= k < |members| ==> HarmlessValue(members[k].value, max)
  }

  /** A value was read, and `rest` follows. */
  ghost predicate ReadOk(v: Value, rest: string, x: string, max: nat) {
    Suffix(rest, x) && (HarmlessValue(v, max) || (rest != "" && UuidChar(rest[0])))
  }

  /** Behind white space and one more character. */
  function Next(x: string): string
    requires SkipSpace(x) != ""
  {
    SkipSpace(x)[1..]
  }

  lemma NextSafe(x: string, y: string, max: nat)
    requires Safe(y, max) && Suffix(x, y) && SkipSpace(x) != ""
    ensures Suffix(SkipSpace(x), y) && Suffix(Next(x), y) && Safe(Next(x), max)
    ensures SkipSpace(x)[0] == '"' ==> LiteralOk(Next(x), max)
  {
    var t := SkipSpace(x);
    SkipSuffix(x);
    SuffixOf(t, x, y);
    SuffixOf(Next(x), t, y);
    SafeSuffix(Next(x), y, max);
    assert t[0] == y[|y| - |t|] && y[|y| - |t| + 1..] == Next(x);
  }

  lemma StringHarmless(x: string, max: nat)
    requires Safe(x, max) && ParseValue(x).Some? && SkipSpace(x)[0] == '"'
    ensures ReadOk(ParseValue(x).value.0, ParseValue(x).value.1, x, max)
  {
    NextSafe(x, x, max);
    StringSuffix(Next(x));
    SuffixOf(ParseValue(x).value.1, Next(x), x);
  }

  lemma EmptyHarmless(x: string, max: nat)
    requires Safe(x, max) && SkipSpace(x) != "" && SkipSpace(Next(x)) != ""
    ensures Suffix(Next(Next(x)), x)
  {
    NextSafe(x, x, max);
    NextSafe(Next(x), x, max);
  }

  lemma ReadArray(vs: seq<Value>, rest: string, y: string, x: string, max: nat)
    requires AllHarmless(vs, rest, y, max) && Suffix(y, x)
    ensures ReadOk(Arr(vs), rest, x, max)
  {
    SuffixOf(rest, y, x);
  }

  lemma ReadObject(ms: seq<Member>, rest: string, y: string, x: string, max: nat)
    requires AllMembersHarmless(ms, rest, y, max) && Suffix(y, x)
    ensures ReadOk(Obj(ms), rest, x, max)
  {
    SuffixOf(rest, y, x);
  }

  /** A closing bracket or brace comes first. */
  predicate Empty(x: string, close: char) {
    SkipSpace(x) != "" && SkipSpace(x)[0] == close
  }

  lemma ArrayParses(x: string)
    requires ParseValue(x).Some? && SkipSpace(x)[0] == '['
    ensures Empty(Next(x), ']') ==> ParseValue(x) == Some((Arr([]), Next(Next(x))))
    ensures !Empty(Next(x), ']') ==>
      var r := ParseElements(Next(x)); r.Some? && ParseValue(x) == Some((Arr(r.value.0), r.value.1))
  {
  }

  lemma ObjectParses(x: string)
    requires ParseValue(x).Some? && SkipSpace(x)[0] == '{'
    ensures Empty(Next(x), '}') ==> ParseValue(x) == Some((Obj([]), Next(Next(x))))
    ensures !Empty(Next(x), '}') ==>
      var r := ParseMembers(Next(x)); r.Some? && ParseValue(x) == Some((Obj(r.value.0), r.value.1))
  {
  }

  lemma {:induction false} ArrayHarmless(x: string, max: nat)
    requires Safe(x, max) && ParseValue(x).Some? && SkipSpace(x)[0] == '['
    ensures ReadOk(ParseValue(x).value.0, ParseValue(x).value.1, x, max)
    decreases |x|, 0
  {
    NextSafe(x, x, max);
    ArrayParses(x);
    var y := Next(x);
    if Empty(y, ']') {
      EmptyHarmless(x, max);
      ReadArray([], Next(y), x, x, max);
    } else {
      ElementsHarmless(y, max);
      ReadArray(ParseElements(y).value.0, ParseElements(y).value.1, y, x, max);
    }
  }

  lemma {:induction false} ObjectHarmless(x: string, max: nat)
    requires Safe(x, max) && ParseValue(x).Some? && SkipSpace(x)[0] == '{'
    ensures ReadOk(ParseValue(x).value.0, ParseValue(x).value.1, x, max)
    decreases |x|, 0
  {
    NextSafe(x, x, max);
    ObjectParses(x);
    var y := Next(x);
    if Empty(y, '}') {
      EmptyHarmless(x, max);
      ReadObject([], Next(y), x, x, max);
    } else {
      MembersHarmless(y, max);
      ReadObject(ParseMembers(y).value.0, ParseMembers(y).value.1, y, x, max);
    }
  }

  lemma {:induction false} ValueHarmless(x: string, max: nat)
    requires Safe(x, max) && ParseValue(x).Some?
    ensures ReadOk(ParseValue(x).value.0, ParseValue(x).value.1, x, max)
    decreases |x|, 1
  {
    var t := SkipSpace(x);
    if t[0] == '"' {
      StringHarmless(x, max);
    } else if t[0] == '[' {
      ArrayHarmless(x, max);
    } else if t[0] == '{' {
      ObjectHarmless(x, max);
    } else {
      SkipSuffix(x);
      SuffixOf(ParseValue(x).value.1, t, x);
    }
  }

  /** Where a value may end, no id begins. */
  lemma EndsHere(rest: string)
    requires SkipSpace(rest) != "" && SkipSpace(rest)[0] in {',', ']', '}'}
    ensures rest != "" && !UuidChar(rest[0])
  {
  }

  ghost predicate AllHarmless(vs: seq<Value>, rest: string, x: string, max: nat) {
    Suffix(rest, x) && forall k :: 0 <= k < |vs| ==> HarmlessValue(vs[k], max)
  }

  lemma AllHarmlessCons(v: Value, vs: seq<Value>, rest: string, y: string, x: string, max: nat)
    requires HarmlessValue(v, max) && AllHarmless(vs, rest, y, max) && Suffix(y, x)
    ensures AllHarmless([v] + vs, rest, x, max)
  {
    SuffixOf(rest, y, x);
  }

  lemma {:induction false} ElementsHarmless(x: string, max: nat)
    requires Safe(x, max) && ParseElements(x).Some?
    ensures AllHarmless(ParseElements(x).value.0, ParseElements(x).value.1, x, max)
    decreases |x|, 2
  {
    ValueHarmless(x, max);
    var (v, rest) := ParseValue(x).value;
    EndsHere(rest);
    NextSafe(rest, x, max);
    if SkipSpace(rest)[0] == ',' {
      var more := Next(rest);
      ElementsHarmless(more, max);
      AllHarmlessCons(v, ParseElements(more).value.0, ParseElements(more).value.1, more, x, max);
    }
  }

  ghost predicate AllMembersHarmless(ms: seq<Member>, rest: string, x: string, max: nat) {
    Suffix(rest, x) && forall k :: 0 <= k < |ms| ==> HarmlessValue(ms[k].value, max)
  }

  lemma AllMembersCons(m: Member, ms: seq<Member>, rest: string, y: string, x: string, max: nat)
    requires HarmlessValue(m.value, max) && AllMembersHarmless(ms, rest, y, max) && Suffix(y, x)
    ensures AllMembersHarmless([m] + ms, rest, x, max)
  {
    SuffixOf(rest, y, x);
  }

  /** Behind the key and the colon of a member. */
  lemma BehindKey(x: string, max: nat) returns (y: string)
    requires Safe(x, max) && ParseMembers(x).Some?
    ensures Safe(y, max) && Suffix(y, x) && |y| < |x| && ParseValue(y).Some?
    ensures var (key, behind) := ParseString(Next(x)).value; y == Next(behind)
  {
    NextSafe(x, x, max);
    StringSuffix(Next(x));
    var behind := ParseString(Next(x)).value.1;
    SuffixOf(behind, Next(x), x);
    NextSafe(behind, x, max);
    y := Next(behind);
  }

  lemma {:induction false} MembersHarmless(x: string, max: nat)
    requires Safe(x, max) && ParseMembers(x).Some?
    ensures AllMembersHarmless(ParseMembers(x).value.0, ParseMembers(x).value.1, x, max)
    decreases |x|, 2
  {
    var y := BehindKey(x, max);
    var key := ParseString(Next(x)).value.0;
    ValueHarmless(y, max);
    var (v, rest) := ParseValue(y).value;
    EndsHere(rest);
    SuffixOf(rest, y, x);
    NextSafe(rest, x, max);
    if SkipSpace(rest)[0] == ',' {
      var more := Next(rest);
      MembersHarmless(more, max);
      AllMembersCons(Member(key, v), ParseMembers(more).value.0, ParseMembers(more).value.1, more, x, max);
    }
  }

  lemma DecodeHarmless(x: string, max: nat)
    requires Safe(x, max) && Decode(x).Some?
    ensures HarmlessValue(Decode(x).value, max)
  {
    ValueHarmless(x, max);
  }

  /** What a number selects in a string is one character. */
  lemma ElementsOfString(v: Value)
    ensures v.Arr? || forall k :: 0 <= k < |Elements(v)| ==> Elements(v)[k].Str? && |Elements(v)[k].text| == 1
  {
  }

  /** A list with a name that is unclean and of length `max` does not come out of a harmless response. */
  lemma KnownNeedsHarm(reply: Value, sensors: seq<Sensor>, k: nat, max: nat)
    requires HarmlessValue(reply, max) && DiscoveredIn(reply) == Some(Known(sensors))
    requires k < |sensors| && |sensors[k].name| == max
    ensures Clean(sensors[k].name)
  {
    var third := Elements(reply)[2];
    var item := Items(third)[k];
    assert Known(sensors)[k] == Found(Elements(item)[0], Elements(item)[1]);
    assert Elements(item)[1] == Str(sensors[k].uuid) && |sensors[k].uuid| == 36;
    ElementsOfString(item);
    assert item.Arr? && third.Arr?;
    ElementsOfString(reply);
    ElementsOfString(third);
    assert reply.Arr?;
    assert HarmlessValue(third, max) && HarmlessValue(item, max);
    assert HarmlessValue(item.elements[0], max) && item.elements[0] == Str(sensors[k].name);
  }

  // ----- No string of the line misleads the decoder -----

  lemma {:induction false} NoQuoteNone(x: string)
    requires '"' !in x
    ensures ParseString(x).None?
  {
    if ParseString(x).Some? {
      StringSuffix(x);
    }
  }

  lemma NoQuoteOk(x: string, max: nat)
    requires '"' !in x
    ensures LiteralOk(x, max) && Safe(x, max)
  {
    NoQuoteNone(x);
  }

  /** Clean text up to the next quotation mark. */
  lemma GapOk(gap: string, more: string, max: nat)
    requires Clean(gap)
    ensures LiteralOk(gap + ("\"" + more), max)
  {
    ParseClean(gap, more);
    assert gap + ("\"" + more) == gap + "\"" + more;
  }

  lemma SafeGap(gap: string, x: string, max: nat)
    requires '"' !in gap && Safe(x, max)
    ensures Safe(gap + x, max)
  {
    var s := gap + x;
    forall o | 0 <= o < |s| && s[o] == '"' ensures LiteralOk(s[o + 1..], max) {
      assert s[o] == x[o - |gap|] && s[o + 1..] == x[o - |gap| + 1..];
    }
  }

  lemma SafeQuote(x: string, max: nat)
    requires LiteralOk(x, max) && Safe(x, max)
    ensures Safe("\"" + x, max)
  {
    var s := "\"" + x;
    forall o | 0 <= o < |s| && s[o] == '"' ensures LiteralOk(s[o + 1..], max) {
      if o == 0 {
        assert s[1..] == x;
      } else {
        assert s[o] == x[o - 1] && s[o + 1..] == x[o - 1 + 1..];
      }
    }
  }

  /** A clean string in the line. */
  lemma SafeQuoted(t: string, x: string, max: nat)
    requires Clean(t) && LiteralOk(x, max) && Safe(x, max)
    ensures Safe(Quoted(t, x), max)
  {
    var inner := t + ("\"" + x);
    SafeQuote(x, max);
    SafeGap(t, "\"" + x, max);
    GapOk(t, x, max);
    SafeQuote(inner, max);
    assert Quoted(t, x) == "\"" + inner;
  }

  /** What follows a name: its id, and more. */
  function AfterName(uuid: Uuid, rest: string): string {
    ", " + Quoted(uuid, rest)
  }

  /** Reading from within a name, or from its beginning: the string is shorter than what is left of the
      name, or is what is left of it and clean, or runs over the closing quotation mark and comes
      out in front of the id. */
  lemma {:induction false} NameLiteral(u: string, uuid: Uuid, rest: string)
    ensures match ParseString(u + ("\"" + AfterName(uuid, rest)))
            case None => true
            case Some((t, r)) => |t| < |u| || (t == u && Clean(u)) || (r != "" && UuidChar(r[0]))
    decreases |u|
  {
    var behind := "\"" + AfterName(uuid, rest);
    var y := u + behind;
    if u == "" {
      assert y == behind;
    } else if y[0] != '"' && ParseString(y).Some? {
      var (c, width) := StringChar(y).value;
      assert u < y && y[|u|] == '"';
      NoHexQuote(y, u);
      if width > |u| {
        RunsOver(u, uuid, rest);
      } else {
        var v := u[width..];
        assert y[width..] == v + behind;
        NameLiteral(v, uuid, rest);
        var t' := ParseString(v + behind).value.0;
        assert ParseString(y).value.0 == [c] + t';
        if t' == v && Clean(v) && width == 1 {
          assert c == u[0] && Plain(c) && [c] + v == u;
        }
      }
    }
  }

  lemma RunsOver(u: string, uuid: Uuid, rest: string)
    requires var y := u + ("\"" + AfterName(uuid, rest));
      |u| == 1 && u[0] != '"' && StringChar(y).Some? && StringChar(y).value.1 == 2 && ParseString(y).Some?
    ensures var y := u + ("\"" + AfterName(uuid, rest));
      var r := ParseString(y).value.1; r != "" && UuidChar(r[0])
  {
    var y := u + ("\"" + AfterName(uuid, rest));
    var more := uuid + "\"" + rest;
    assert y[2..] == ", " + "\"" + more;
    var gap: string := ", ";
    assert Clean(gap);
    ParseClean(gap, more);
    assert more[0] == uuid[0];
  }

  /** No unclean name is longer than `max`. */
  predicate Bounded(name: string, max: nat) {
    Clean(name) || |name| <= max
  }

  lemma NameOk(name: string, uuid: Uuid, rest: string, max: nat)
    requires Bounded(name, max) && Safe(AfterName(uuid, rest), max)
    ensures var x := name + ("\"" + AfterName(uuid, rest)); LiteralOk(x, max) && Safe(x, max)
  {
    var after := AfterName(uuid, rest);
    var x := name + ("\"" + after);
    NameLiteral(name, uuid, rest);
    if Clean(name) {
      GapOk(name, after, max);
    }
    AfterNameOk(uuid, rest, max);
    forall o | 0 <= o < |x| && x[o] == '"' ensures LiteralOk(x[o + 1..], max) {
      if o < |name| {
        assert x[o + 1..] == name[o + 1..] + ("\"" + after);
        assert name[o] == '"' && !Clean(name);
        NameLiteral(name[o + 1..], uuid, rest);
      } else if o == |name| {
        assert x[o + 1..] == after;
      } else {
        assert x[o + 1..] == after[o - |name|..] && after[o - |name| - 1] == '"';
      }
    }
  }

  lemma AfterNameOk(uuid: Uuid, rest: string, max: nat)
    ensures LiteralOk(AfterName(uuid, rest), max)
  {
    var gap: string := ", ";
    assert Clean(gap);
    GapOk(gap, uuid + "\"" + rest, max);
    assert AfterName(uuid, rest) == gap + ("\"" + (uuid + "\"" + rest));
  }

  /** An entry up to the bracket that closes it, and what follows. */
  function EntryAnd(s: Sensor, rest: string): string {
    "[" + ("\"" + (s.name + ("\"" + AfterName(s.uuid, "]" + rest))))
  }

  lemma EntryAndIs(s: Sensor, rest: string)
    ensures Entry(s) + rest == EntryAnd(s, rest)
  {
    EntryIs(s, rest);
    assert ("," + (" " + IdPart(s.uuid, rest))) == AfterName(s.uuid, "]" + rest);
  }

  lemma UuidClean(uuid: Uuid)
    ensures Clean(uuid)
  {
  }

  lemma EntrySafe(s: Sensor, rest: string, max: nat)
    requires Bounded(s.name, max) && Safe(rest, max) && LiteralOk("]" + rest, max)
    ensures Safe(Entry(s) + rest, max)
  {
    UuidClean(s.uuid);
    SafeGap("]", rest, max);
    SafeQuoted(s.uuid, "]" + rest, max);
    SafeGap(", ", Quoted(s.uuid, "]" + rest), max);
    NameOk(s.name, s.uuid, "]" + rest, max);
    var x := s.name + ("\"" + AfterName(s.uuid, "]" + rest));
    SafeQuote(x, max);
    SafeGap("[", "\"" + x, max);
    EntryAndIs(s, rest);
  }

  predicate AllBounded(sensors: seq<Sensor>, max: nat) {
    forall k :: 0 <= k < |sensors| ==> Bounded(sensors[k].name, max)
  }

  /** An entry behind a gap. */
  lemma GapEntrySafe(gap: string, s: Sensor, rest: string, max: nat)
    requires Clean(gap) && Bounded(s.name, max) && Safe(rest, max) && LiteralOk("]" + rest, max)
    ensures var x := gap + (Entry(s) + rest); Safe(x, max) && LiteralOk(x, max)
  {
    EntrySafe(s, rest, max);
    SafeGap(gap, Entry(s) + rest, max);
    EntryAndIs(s, rest);
    var wide := gap + "[";
    var name := s.name + ("\"" + AfterName(s.uuid, "]" + rest));
    GapOk(wide, name, max);
    assert gap + (Entry(s) + rest) == wide + ("\"" + name);
  }

  lemma TailText(entry: string, tail: string, end: string)
    ensures ", " + entry + tail + end == ", " + (entry + (tail + end))
    ensures "]" + (", " + entry + tail + end) == "], " + (entry + (tail + end))
  {
  }

  lemma SensorsText(entry: string, tail: string, end: string)
    ensures "[" + (entry + tail) + end == "[" + (entry + (tail + end))
    ensures ", " + ("[" + (entry + tail) + end) == ", [" + (entry + (tail + end))
  {
  }

  /** The entries behind some id, with the bracket in front of them. */
  lemma {:induction false} TailSafe(sensors: seq<Sensor>, end: string, max: nat)
    requires AllBounded(sensors, max) && '"' !in end
    ensures Safe(Tail(sensors) + end, max) && LiteralOk("]" + (Tail(sensors) + end), max)
  {
    var x := Tail(sensors) + end;
    if sensors == [] {
      NoQuoteOk(x, max);
      NoQuoteOk("]" + x, max);
    } else {
      var rest := Tail(sensors[1..]) + end;
      TailSafe(sensors[1..], end, max);
      var comma: string, bracket: string := ", ", "], ";
      assert Clean(comma) && Clean(bracket);
      GapEntrySafe(comma, sensors[0], rest, max);
      GapEntrySafe(bracket, sensors[0], rest, max);
      TailText(Entry(sensors[0]), Tail(sensors[1..]), end);
    }
  }

  lemma SensorsSafe(sensors: seq<Sensor>, max: nat)
    requires AllBounded(sensors, max)
    ensures Safe(AtSensors(sensors), max) && LiteralOk(", " + AtSensors(sensors), max)
  {
    var x := AtSensors(sensors);
    if sensors == [] {
      assert x == "[" + "]" + "]}\n";
      NoQuoteOk(x, max);
      NoQuoteOk(", " + x, max);
    } else {
      var rest := Tail(sensors[1..]) + "]}\n";
      TailSafe(sensors[1..], "]}\n", max);
      var bracket: string, comma: string := "[", ", [";
      assert Clean(bracket) && Clean(comma);
      GapEntrySafe(bracket, sensors[0], rest, max);
      GapEntrySafe(comma, sensors[0], rest, max);
      SensorsText(Entry(sensors[0]), Tail(sensors[1..]), "]}\n");
    }
  }

  /** A clean string behind which the line is safe, and the gap in front of it. */
  lemma SafeMore(gap: string, t: string, x: string, max: nat)
    requires Clean(gap) && Clean(t) && LiteralOk(x, max) && Safe(x, max)
    ensures LiteralOk(gap + Quoted(t, x), max) && Safe(gap + Quoted(t, x), max)
  {
    SafeQuoted(t, x, max);
    SafeGap(gap, Quoted(t, x), max);
    GapOk(gap, t + "\"" + x, max);
    assert Quoted(t, x) == "\"" + (t + "\"" + x);
  }

  lemma ReplySafe(nonce: string, sensors: seq<Sensor>, max: nat)
    requires Clean(nonce) && AllBounded(sensors, max)
    ensures LiteralOk(": " + ("[" + AtNonce(nonce, sensors)), max) && Safe(": " + ("[" + AtNonce(nonce, sensors)), max)
  {
    var comma: string, word: string, colon: string := ", ", "discovery", ": [";
    assert Clean(comma) && Clean(word) && Clean(colon);
    SensorsSafe(sensors, max);
    SafeGap(comma, AtSensors(sensors), max);
    SafeMore(comma, word, comma + AtSensors(sensors), max);
    SafeMore(colon, nonce, comma + AtDiscovery(sensors), max);
    assert ": " + ("[" + AtNonce(nonce, sensors)) == colon + AtNonce(nonce, sensors);
  }

  lemma LineSafe(nonce: string, sensors: seq<Sensor>, max: nat)
    requires Clean(nonce) && AllBounded(sensors, max)
    ensures Safe(FullReply(nonce, sensors), max)
  {
    var gap: string, word: string, tag: string := ": 0.1, ", "reply", TAG;
    assert Clean(gap) && Clean(word) && Clean(tag);
    ReplySafe(nonce, sensors, max);
    SafeMore(gap, word, ": " + ("[" + AtNonce(nonce, sensors)), max);
    SafeQuoted(tag, gap + AtReply(nonce, sensors), max);
    SafeGap("{", AtTag(nonce, sensors), max);
    LinePieces(nonce, sensors);
  }

  // ----- A line that a name cuts short -----

  /** Reading a string does not depend on what follows it. */
  lemma {:induction false} StringExtends(y: string, z: string)
    requires ParseString(y).Some?
    ensures ParseString(y + z) == Some((ParseString(y).value.0, ParseString(y).value.1 + z))
    decreases |y|
  {
    var s := y + z;
    if y[0] == '"' {
      assert s[1..] == y[1..] + z;
    } else {
      var width := StringChar(y).value.1;
      CharExtends(y, z);
      StringExtends(y[width..], z);
      assert s[width..] == y[width..] + z;
    }
  }

  lemma CharExtends(y: string, z: string)
    requires y != "" && StringChar(y).Some?
    ensures StringChar(y + z) == StringChar(y)
  {
    if StringChar(y).value.1 == 6 {
      assert (y + z)[2..6] == y[2..6];
    }
  }

  lemma PrefixLiteral(y: string, more: string, max: nat)
    requires y != "" && y[|y| - 1] == '\n' && LiteralOk(y + more, max)
    ensures LiteralOk(y, max)
  {
    if ParseString(y).Some? {
      StringExtends(y, more);
      StringSuffix(y);
      var r := ParseString(y).value.1;
      assert r != "" && (r + more)[0] == r[0];
    }
  }

  lemma PrefixSafe(line: string, more: string, max: nat)
    requires line != "" && line[|line| - 1] == '\n' && Safe(line + more, max)
    ensures Safe(line, max)
  {
    forall o | 0 <= o < |line| && line[o] == '"' ensures LiteralOk(line[o + 1..], max) {
      var y := line[o + 1..];
      assert y != "" && y[|y| - 1] == '\n';
      assert (line + more)[o] == '"' && (line + more)[o + 1..] == y + more;
      PrefixLiteral(y, more, max);
    }
  }

  lemma {:induction false} StripNothing(s: string)
    requires NUL !in s
    ensures StripNuls(s) == s
  {
    if s != "" {
      StripNothing(s[1..]);
    }
  }

  lemma {:induction false} TailNoNul(sensors: seq<Sensor>)
    ensures NUL !in Tail(sensors)
  {
    if sensors != [] {
      var s := sensors[0];
      assert NUL !in s.name && NUL !in s.uuid;
      assert NUL !in Entry(s);
      TailNoNul(sensors[1..]);
    }
  }

  lemma NoNul(a: string, b: string)
    requires NUL !in a && NUL !in b
    ensures NUL !in a + b
  {
  }

  lemma QuotedNoNul(t: string, x: string)
    requires NUL !in t && NUL !in x
    ensures NUL !in Quoted(t, x)
  {
  }

  lemma SensorsNoNul(sensors: seq<Sensor>)
    ensures NUL !in AtSensors(sensors)
  {
    TailNoNul(sensors);
    if sensors != [] {
      assert Tail(sensors)[2..] == From(sensors, 0);
    }
    NoNul("[", From(sensors, 0));
    NoNul("[" + From(sensors, 0), "]}\n");
  }

  lemma LineNoNul(nonce: string, sensors: seq<Sensor>)
    requires Clean(nonce)
    ensures NUL !in FullReply(nonce, sensors)
  {
    SensorsNoNul(sensors);
    NoNul(", ", AtSensors(sensors));
    QuotedNoNul("discovery", ", " + AtSensors(sensors));
    NoNul(", ", AtDiscovery(sensors));
    QuotedNoNul(nonce, ", " + AtDiscovery(sensors));
    NoNul("[", AtNonce(nonce, sensors));
    NoNul(": ", "[" + AtNonce(nonce, sensors));
    QuotedNoNul("reply", ": " + ("[" + AtNonce(nonce, sensors)));
    NoNul(": 0.1, ", AtReply(nonce, sensors));
    QuotedNoNul(TAG, ": 0.1, " + AtReply(nonce, sensors));
    NoNul("{", AtTag(nonce, sensors));
    LinePieces(nonce, sensors);
  }

  /** The length of the longest unclean name, and where it is. */
  lemma {:induction false} LongestUnclean(sensors: seq<Sensor>) returns (k: nat)
    requires !AllClean(sensors)
    ensures k < |sensors| && !Clean(sensors[k].name) && AllBounded(sensors, |sensors[k].name|)
    decreases |sensors|
  {
    var last := |sensors| - 1;
    var front := sensors[..last];
    assert sensors == front + [sensors[last]];
    if AllClean(front) {
      k := last;
    } else {
      k := LongestUnclean(front);
      if !Clean(sensors[last].name) && |sensors[last].name| > |sensors[k].name| {
        k := last;
      }
    }
  }

  /** An unclean name keeps the client from the list, whatever else the name contains: it may cut the
      line short, end the decoding, or turn into other values, but never into itself. */
  lemma UncleanIsNotKnown(nonce: string, sensors: seq<Sensor>)
    requires Clean(nonce) && !AllClean(sensors)
    ensures ClientList(ReplyLine(nonce, sensors)) != Some(Known(sensors))
  {
    var stream, full := ReplyLine(nonce, sensors), FullReply(nonce, sensors);
    var n := NewlineAt(stream);
    if n < |stream| {
      var k := LongestUnclean(sensors);
      LineSafe(nonce, sensors, |sensors[k].name|);
      LineNoNul(nonce, sensors);
      assert full == stream[..n + 1] + full[n + 1..];
      PrefixNotKnown(stream[..n + 1], full[n + 1..], sensors, k);
    }
  }

  lemma PrefixNotKnown(line: string, more: string, sensors: seq<Sensor>, k: nat)
    requires line != "" && line[|line| - 1] == '\n' && NUL !in line + more
    requires k < |sensors| && !Clean(sensors[k].name) && Safe(line + more, |sensors[k].name|)
    ensures ListOf(StripNuls(line)) != Some(Known(sensors))
  {
    PrefixSafe(line, more, |sensors[k].name|);
    assert NUL !in line;
    StripNothing(line);
    SafeNotKnown(line, sensors, k, |sensors[k].name|);
  }

  lemma SafeNotKnown(line: string, sensors: seq<Sensor>, k: nat, max: nat)
    requires Safe(line, max) && k < |sensors| && |sensors[k].name| == max && !Clean(sensors[k].name)
    ensures ListOf(line) != Some(Known(sensors))
  {
    if ListOf(line) == Some(Known(sensors)) {
      DecodeHarmless(line, max);
      var members := Decode(line).value.members;
      var reply := Lookup(members, "reply").value;
      var j :| 0 <= j < |members| && members[j].value == reply;
      KnownNeedsHarm(reply, sensors, k, max);
      assert false;
    }
  }

  lemma WholeLine(front: string)
    requires '\n' !in front
    ensures var full := front + "\n"; NewlineAt(full) == |front| && full[..|front| + 1] == full
  {
    var full := front + "\n";
    assert full[|front|] == '\n';
    assert forall i :: 0 <= i < |front| ==> full[i] == front[i];
  }

  lemma WholeLineKept(front: string, list: Option<seq<Found>>)
    requires '\n' !in front && NUL !in front + "\n" && ListOf(front + "\n") == list
    ensures ClientList(front + "\n") == list
  {
    var full := front + "\n";
    WholeLine(front);
    StripNothing(full);
    var line := StripNuls(full[..NewlineAt(full) + 1]);
    assert line == full;
  }

  lemma ListOfReply(line: string, nonce: string, sensors: seq<Sensor>)
    requires Decode(line) == Some(Response(nonce, sensors))
    ensures ListOf(line) == Some(Known(sensors))
  {
    LookupReply(ReplyValue(nonce, sensors));
    PairsDiscovered(nonce, sensors);
  }

  lemma CleanIsKnown(nonce: string, sensors: seq<Sensor>)
    requires Clean(nonce) && AllClean(sensors) && |FullReply(nonce, sensors)| <= CONNECTION_MAX_HEADER - 2
    ensures ClientList(ReplyLine(nonce, sensors)) == Some(Known(sensors))
  {
    assert OneLineNames(sensors) && '\n' !in nonce;
    FrontOneLine(nonce, sensors);
    LineNoNul(nonce, sensors);
    DecodeReply(nonce, sensors);
    ListOfReply(FullReply(nonce, sensors), nonce, sensors);
    WholeLineKept(Front(nonce, sensors), Some(Known(sensors)));
  }

  /** From the kernel's list to the client's: whatever the names are, the client comes to know the name
      and the id of every sensor, in order, if and only if the whole line has at most 1022
      characters and no name contains a quotation mark, a backslash or a control character. */
  lemma ClientListIff(nonce: string, sensors: seq<Sensor>)
    requires Clean(nonce)
    ensures ClientList(ReplyLine(nonce, sensors)) == Some(Known(sensors))
            <==> |FullReply(nonce, sensors)| <= 1022 && AllClean(sensors)
  {
    if !AllClean(sensors) {
      UncleanIsNotKnown(nonce, sensors);
    } else if |FullReply(nonce, sensors)| <= CONNECTION_MAX_HEADER - 2 {
      CleanIsKnown(nonce, sensors);
    } else {
      assert OneLineNames(sensors) && '\n' !in nonce;
      ReplyCompleteIff(nonce, sensors);
    }
  }

  // ----- The pieces, by themselves -----

  /** Of several members with one key the last counts. */
  lemma LookupIs(members: seq<Member>, m: Member, key: string)
    ensures Lookup(members + [m], key) == if m.key == key then Some(m.value) else Lookup(members, key)
    ensures Lookup([], key) == None
  {
    assert (members + [m])[..|members|] == members;
  }

  /** The client wants a list of at least three parts whose second says "discovery", and pairs in the third. */
  lemma DiscoveredCases(fields: seq<Value>, pairs: seq<Value>)
    ensures |fields| < 3 || fields[1] != Str("discovery") ==> DiscoveredIn(Arr(fields)) == None
    ensures |fields| >= 3 && fields[1] == Str("discovery") && fields[2] == Arr(pairs) ==>
      if exists k :: 0 <= k < |pairs| && |Elements(pairs[k])| < 2 then DiscoveredIn(Arr(fields)) == None
      else DiscoveredIn(Arr(fields)) == Some(FoundIn(pairs))
  {
  }

  const START := "{\"Virtue-protocol-version\": 0.1, \"reply\": "

  lemma StartTag()
    ensures "{\"" + TAG == "{\"Virtue-protocol-version"
  {
  }

  lemma StartRest()
    ensures "\": 0.1, \"" + "reply" + "\": " == "\": 0.1, \"reply\": "
  {
  }

  lemma StartWhole()
    ensures "{\"Virtue-protocol-version" + "\": 0.1, \"reply\": " == START
  {
  }

  lemma StartIs()
    ensures "{\"" + TAG + "\": 0.1, \"" + "reply" + "\": " == START
  {
    StartTag();
    StartRest();
    StartWhole();
    ThreePieces("{\"" + TAG, "\": 0.1, \"", "reply", "\": ");
  }

  lemma ThreePieces(a: string, b: string, c: string, d: string)
    ensures a + b + c + d == a + (b + c + d)
  {
  }

  lemma MiddleIs()
    ensures "\", \"" + "discovery" + "\", " == "\", \"discovery\", "
  {
  }

  lemma LinePiecesIs(start: string, nonce: string, text: string, a: string, word: string, b: string)
    ensures start + ("[\"" + nonce + a + word + b + text + "]") + "}\n"
         == start + "[\"" + nonce + (a + word + b) + text + "]}\n"
  {
    assert "]" + "}\n" == "]}\n";
  }

  /** The line, as it is sent. */
  lemma FullReplyIs(nonce: string, sensors: seq<Sensor>)
    ensures FullReply(nonce, sensors) == START + "[\"" + nonce + "\", \"discovery\", " + Text(sensors) + "]}\n"
  {
    StartIs();
    MiddleIs();
    LinePiecesIs(START, nonce, Text(sensors), "\", \"", "discovery", "\", ");
  }
}
