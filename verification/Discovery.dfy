/**
The discovery reply: a hand-made printer writes the names and ids of all sensors as a JSON array into
a buffer of 4096 bytes, counting down what remains.
*/
module Discovery {
  import opened Wrappers
  import opened Json

  const CONNECTION_MAX_REPLY := 0x1000
  const UUID_STRING_LEN := 36
  const NUL: char := '\0'
  const ENOMEM: int := 12

  predicate UuidChar(c: char) {
    c == '-' || '0' <= c <= '9' || 'a' <= c <= 'f'
  }

  /** The printed form of an id: always 36 characters. */
  type Uuid = s: string | |s| == UUID_STRING_LEN && forall i :: 0 <= i < |s| ==> UuidChar(s[i])
    witness "00000000-0000-0000-0000-000000000000"

  /** A C string. */
  type Name = s: string | NUL !in s

  datatype Sensor = Sensor(name: Name, uuid: Uuid)

  /** `["name", "uuid"]` */
  function Entry(s: Sensor): (t: string)
    ensures |t| == |s.name| + UUID_STRING_LEN + 8
  {
    "[\"" + s.name + "\", \"" + s.uuid + "\"]"
  }

  /** The entries behind the first, and the closing bracket. */
  function Tail(sensors: seq<Sensor>): string {
    if sensors == [] then "]" else ", " + Entry(sensors[0]) + Tail(sensors[1..])
  }

  /** The entries from number k on, and the closing bracket. */
  function From(sensors: seq<Sensor>, k: nat): string
    requires k <= |sensors|
  {
    if k == 0 && sensors != [] then Entry(sensors[0]) + Tail(sensors[1..]) else Tail(sensors[k..])
  }

  /** The whole array. */
  function Text(sensors: seq<Sensor>): string {
    "[" + From(sensors, 0)
  }

  /** What `remaining` is before entry k. */
  function Remaining(cursor: nat, k: nat): int {
    if k == 0 then CONNECTION_MAX_REPLY - 2 else CONNECTION_MAX_REPLY - 2 - cursor
  }

  /** Each entry, with the quotes, spaces and brackets allowed for it, fits into what remains. */
  predicate Fits(sensors: seq<Sensor>, k: nat, cursor: nat)
    requires k <= |sensors|
    decreases |sensors| - k
  {
    k == |sensors| ||
    (Remaining(cursor, k) - 1 > |sensors[k].name| + UUID_STRING_LEN + 11
     && Fits(sensors, k + 1, Behind(sensors, k, cursor)))
  }

  /** The cursor behind entry k, and behind the comma before it. */
  function Behind(sensors: seq<Sensor>, k: nat, cursor: nat): nat
    requires k < |sensors|
  {
    cursor + (if k == 0 then 0 else 2) + |sensors[k].name| + UUID_STRING_LEN + 8
  }

  lemma FitsStep(sensors: seq<Sensor>, k: nat, cursor: nat)
    requires k < |sensors| && Remaining(cursor, k) - 1 > |sensors[k].name| + UUID_STRING_LEN + 11
    ensures Fits(sensors, k, cursor) == Fits(sensors, k + 1, Behind(sensors, k, cursor))
  {
  }

  /** Writes the characters of `s` at `at`. */
  method Put(buf: array<char>, at: nat, s: string) returns (cursor: nat)
    requires at + |s| <= buf.Length
    modifies buf
    ensures cursor == at + |s|
    ensures buf[..cursor] == old(buf[..at]) + s
  {
    for i := 0 to |s|
      invariant buf[..at + i] == old(buf[..at]) + s[..i]
    {
      buf[at + i] := s[i];
    }
    assert s[..|s|] == s;
    cursor := at + |s|;
  }

  /** Copies at most `n` characters of `s`, and fills up with NULs. */
  method StrNCpy(buf: array<char>, at: nat, s: string, n: nat)
    requires at + n <= buf.Length && |s| <= n
    modifies buf
    ensures buf[..at + |s|] == old(buf[..at]) + s
    ensures forall j :: at + |s| <= j < at + n ==> buf[j] == NUL
  {
    var i := Put(buf, at, s);
    ghost var front := buf[..i];
    while i < at + n
      invariant at + |s| <= i <= at + n && buf[..at + |s|] == front
      invariant forall j :: at + |s| <= j < i ==> buf[j] == NUL
    {
      buf[i] := NUL;
      i := i + 1;
    }
  }

  /** Writes one entry behind `cursor`; every write, the padding included, stays in the buffer. */
  method PutEntry(buf: array<char>, at: nat, sensor: Sensor, remaining: int, more: bool) returns (cursor: nat)
    requires buf.Length == CONNECTION_MAX_REPLY
    requires at + remaining <= CONNECTION_MAX_REPLY - (if more then 2 else 1)
    requires remaining - 1 > |sensor.name| + UUID_STRING_LEN + 11
    modifies buf
    ensures cursor == at + (if more then 2 else 0) + |Entry(sensor)| < buf.Length
    ensures buf[..cursor] == old(buf[..at]) + (if more then ", " else "") + Entry(sensor)
  {
    cursor := at;
    if more {
      cursor := Put(buf, cursor, ", ");
    }
    ghost var start := buf[..cursor];
    assert start == old(buf[..at]) + (if more then ", " else "");
    cursor := PutName(buf, cursor, sensor.name, remaining - 3);
    cursor := PutId(buf, cursor, sensor.uuid);
    EntryParts(start, sensor);
  }

  lemma EntryParts(start: string, s: Sensor)
    ensures start + ("[\"" + s.name) + ("\", \"" + s.uuid + "\"]") == start + Entry(s)
  {
  }

  method PutName(buf: array<char>, at: nat, name: string, n: nat) returns (cursor: nat)
    requires at + 2 + n <= buf.Length && |name| <= n
    modifies buf
    ensures cursor == at + 2 + |name|
    ensures buf[..cursor] == old(buf[..at]) + ("[\"" + name)
  {
    cursor := Put(buf, at, "[\"");
    StrNCpy(buf, cursor, name, n);
    cursor := cursor + |name|;
  }

  /** `snprintf` terminates the id; the terminator is overwritten by what follows. */
  method PutId(buf: array<char>, at: nat, uuid: Uuid) returns (cursor: nat)
    requires at + UUID_STRING_LEN + 6 <= buf.Length
    modifies buf
    ensures cursor == at + UUID_STRING_LEN + 6
    ensures buf[..cursor] == old(buf[..at]) + ("\", \"" + uuid + "\"]")
  {
    cursor := Put(buf, at, "\", \"");
    cursor := Put(buf, cursor, uuid);
    buf[cursor] := NUL;
    cursor := Put(buf, cursor, "\"]");
  }

  /** The loop invariant of the printer: what is written, and what is left to write. */
  ghost predicate Written(sensors: seq<Sensor>, k: nat, out: string)
    requires k <= |sensors|
  {
    out + From(sensors, k) == Text(sensors)
  }

  lemma Regroup(a: string, b: string, c: string, d: string)
    ensures a + b + c + d == a + (b + c + d)
  {
  }

  lemma FromStep(sensors: seq<Sensor>, k: nat)
    requires k < |sensors|
    ensures From(sensors, k) == (if k > 0 then ", " else "") + Entry(sensors[k]) + From(sensors, k + 1)
  {
    if k == 0 {
      assert "" + Entry(sensors[0]) + Tail(sensors[1..]) == From(sensors, 0);
    } else {
      assert sensors[k..][1..] == sensors[k + 1..];
    }
  }

  lemma WrittenStep(sensors: seq<Sensor>, k: nat, out: string, entry: string)
    requires k < |sensors| && Written(sensors, k, out) && entry == Entry(sensors[k])
    ensures Written(sensors, k + 1, out + (if k > 0 then ", " else "") + entry)
  {
    FromStep(sensors, k);
    Regroup(out, if k > 0 then ", " else "", entry, From(sensors, k + 1));
  }

  lemma WrittenNone(sensors: seq<Sensor>)
    ensures Written(sensors, 0, "[")
  {
  }

  lemma WrittenAll(sensors: seq<Sensor>, out: string)
    requires Written(sensors, |sensors|, out)
    ensures out + "]" == Text(sensors) && |Text(sensors)| == |out| + 1
  {
    assert sensors[|sensors|..] == [];
  }

  /** The state of the printer before entry k, when `out` is written. */
  ghost predicate Printing(sensors: seq<Sensor>, k: nat, out: string, remaining: int, lastEntry: int) {
    && k <= |sensors| && 1 <= |out| < CONNECTION_MAX_REPLY && (k == 0 ==> |out| == 1)
    && remaining == Remaining(|out|, k) && remaining > 2 && lastEntry == (if k == 0 then 0 else |out|)
    && Written(sensors, k, out)
    && Fits(sensors, 0, 1) == Fits(sensors, k, |out|)
  }

  lemma PrintingStep(sensors: seq<Sensor>, k: nat, out: string, remaining: int, lastEntry: int, next: string)
    requires Printing(sensors, k, out, remaining, lastEntry) && k < |sensors|
    requires remaining - 1 > |sensors[k].name| + UUID_STRING_LEN + 11
    requires next == out + (if k > 0 then ", " else "") + Entry(sensors[k])
    ensures Printing(sensors, k + 1, next, remaining - (|next| - lastEntry), |next|)
  {
    WrittenStep(sensors, k, out, Entry(sensors[k]));
    FitsStep(sensors, k, |out|);
  }

  /** Either some entry does not fit and nothing is returned, or the buffer holds exactly the array
      and a NUL, in no more bytes than its reported length. */
  method BuildDiscoveryBuffer(sensors: seq<Sensor>, poolAvailable: bool) returns (ccode: int, buf: array?<char>, len: int)
    ensures ccode == if poolAvailable && Fits(sensors, 0, 1) then 0 else -ENOMEM
    ensures ccode < 0 ==> buf == null && len == if poolAvailable then -ENOMEM else 0
    ensures ccode == 0 ==>
      && buf != null && fresh(buf) && buf.Length == len && |Text(sensors)| < len <= CONNECTION_MAX_REPLY
      && buf[..|Text(sensors)|] == Text(sensors) && buf[|Text(sensors)|] == NUL
  {
    if !poolAvailable {
      return -ENOMEM, null, 0;
    }
    var full := new char[CONNECTION_MAX_REPLY](_ => NUL);
    len := CONNECTION_MAX_REPLY;
    var remaining: int := len - 2;
    var lastEntry := 0;
    full[0] := '[';
    var cursor := 1;
    assert full[..1] == "[";
    WrittenNone(sensors);
    for k := 0 to |sensors|
      invariant cursor <= full.Length && Printing(sensors, k, full[..cursor], remaining, lastEntry)
    {
      ghost var out := full[..cursor];
      var idLen := |sensors[k].name| + UUID_STRING_LEN + 1 + 10;
      if remaining - 1 > idLen {
        cursor := PutEntry(full, cursor, sensors[k], remaining, k > 0);
        PrintingStep(sensors, k, out, remaining, lastEntry, full[..cursor]);
        remaining := remaining - (cursor - lastEntry);
        lastEntry := cursor;
      } else {
        return -ENOMEM, null, -ENOMEM;
      }
    }
    buf, len := Finish(full, sensors, cursor, remaining);
    ccode := 0;
  }

  /** The end of the printer: closing bracket, NUL, and a smaller buffer. */
  method Finish(full: array<char>, sensors: seq<Sensor>, at: nat, room: int) returns (buf: array<char>, len: int)
    requires full.Length == CONNECTION_MAX_REPLY && room > 2 && at + room <= full.Length - 1
    requires Written(sensors, |sensors|, full[..at])
    modifies full
    ensures buf == full || fresh(buf)
    ensures buf.Length == len && |Text(sensors)| < len <= CONNECTION_MAX_REPLY
    ensures buf[..|Text(sensors)|] == Text(sensors) && buf[|Text(sensors)|] == NUL
  {
    WrittenAll(sensors, full[..at]);
    var cursor, remaining := Close(full, at, room);
    buf, len := Shrink(full, cursor, remaining);
  }

  /** There is always room for the closing bracket and a NUL. */
  method Close(full: array<char>, at: nat, room: int) returns (cursor: nat, remaining: int)
    requires room > 2 && at + room <= full.Length
    modifies full
    ensures cursor == at + 1 < full.Length && remaining == room - 2
    ensures full[..cursor] == old(full[..at]) + "]" && full[cursor] == NUL
  {
    cursor, remaining := at, room;
    if remaining > 2 {
      cursor := Put(full, cursor, "]");
      remaining := remaining - 1;
      full[cursor] := NUL;
      remaining := remaining - 1;
    }
  }

  /** Gives back all but two of the remaining bytes, if there are many. */
  method Shrink(full: array<char>, cursor: nat, remaining: int) returns (buf: array<char>, len: int)
    requires full.Length == CONNECTION_MAX_REPLY && cursor < full.Length && full[cursor] == NUL
    requires cursor + 1 + remaining <= CONNECTION_MAX_REPLY
    ensures buf == full || fresh(buf)
    ensures buf.Length == len && cursor < len <= CONNECTION_MAX_REPLY
    ensures buf[..cursor] == full[..cursor] && buf[cursor] == NUL
  {
    buf, len := full, CONNECTION_MAX_REPLY;
    if remaining > 0x100 {
      var copy := full[..];
      len := len - (remaining - 2);
      buf := new char[len](i requires 0 <= i < |copy| => copy[i]);
      assert buf[..cursor] == full[..cursor];
    }
  }

  // ----- What the client decodes -----

  function Pair(s: Sensor): Value {
    Arr([Str(s.name), Str(s.uuid)])
  }

  function Pairs(sensors: seq<Sensor>): (r: seq<Value>)
    ensures |r| == |sensors| && forall k :: 0 <= k < |r| ==> r[k] == Pair(sensors[k])
  {
    if sensors == [] then [] else [Pair(sensors[0])] + Pairs(sensors[1..])
  }

  predicate AllClean(sensors: seq<Sensor>) {
    forall k :: 0 <= k < |sensors| ==> Clean(sensors[k].name)
  }

  /** The parser at the end of the last element of an array. */
  lemma LastElement(s: string, v: Value, rest: string)
    requires ParseValue(s) == Some((v, "]" + rest))
    ensures ParseElements(s) == Some(([v], rest))
  {
    assert ("]" + rest)[1..] == rest;
  }

  /** The parser at the end of an element that is followed by others. */
  lemma NextElement(s: string, v: Value, rest: string)
    requires ParseValue(s) == Some((v, "," + rest))
    ensures ParseElements(s) ==
      match ParseElements(rest)
      case None => None
      case Some((vs, more)) => Some(([v] + vs, more))
  {
    assert ("," + rest)[1..] == rest;
  }

  lemma ParseStr(text: string, rest: string)
    requires Clean(text)
    ensures ParseValue("\"" + text + "\"" + rest) == Some((Str(text), rest))
  {
    var s := "\"" + text + "\"" + rest;
    assert SkipSpace(s) == s && s[1..] == text + "\"" + rest;
    ParseClean(text, rest);
  }

  lemma SpaceFirst(s: string)
    ensures ParseElements(" " + s) == ParseElements(s)
  {
    assert (" " + s)[1..] == s;
    assert ParseValue(" " + s) == ParseValue(s);
  }

  /** What follows the name, up to the bracket that closes the pair, and behind it. */
  function IdPart(uuid: Uuid, rest: string): string {
    "\"" + uuid + "\"" + ("]" + rest)
  }

  /** An entry is a bracket and this. */
  function Inner(s: Sensor, rest: string): string {
    "\"" + s.name + "\"" + ("," + (" " + IdPart(s.uuid, rest)))
  }

  lemma EntryIs(s: Sensor, rest: string)
    ensures Entry(s) + rest == "[" + Inner(s, rest)
  {
    assert "\", \"" == "\"" + "," + " " + "\"";
  }

  lemma ParseIdPart(uuid: Uuid, rest: string)
    ensures ParseElements(" " + IdPart(uuid, rest)) == Some(([Str(uuid)], rest))
  {
    ParseStr(uuid, "]" + rest);
    LastElement(IdPart(uuid, rest), Str(uuid), rest);
    SpaceFirst(IdPart(uuid, rest));
  }

  lemma ParseInner(s: Sensor, rest: string)
    requires Clean(s.name)
    ensures ParseElements(Inner(s, rest)) == Some(([Str(s.name), Str(s.uuid)], rest))
  {
    var more := " " + IdPart(s.uuid, rest);
    ParseStr(s.name, "," + more);
    NextElement(Inner(s, rest), Str(s.name), more);
    ParseIdPart(s.uuid, rest);
    assert [Str(s.name)] + [Str(s.uuid)] == [Str(s.name), Str(s.uuid)];
  }

  /** An array whose first element is a string. */
  lemma ParseBracket(inner: string)
    requires inner != "" && inner[0] == '"'
    ensures ParseValue("[" + inner) ==
      match ParseElements(inner)
      case None => None
      case Some((elements, rest)) => Some((Arr(elements), rest))
  {
    var text := "[" + inner;
    assert text[1..] == inner && SkipSpace(text) == text && SkipSpace(inner) == inner;
  }

  /** How the parser takes an entry: it reads the name, and the rest of the pair only if that worked. */
  lemma ParseEntry(s: Sensor, rest: string)
    ensures Clean(s.name) ==> ParseValue(Entry(s) + rest) == Some((Pair(s), rest))
    ensures !Clean(s.name) ==> ParseValue(Entry(s) + rest).None? || ParseValue(Entry(s) + rest).value.0 != Pair(s)
  {
    EntryIs(s, rest);
    ParseBracket(Inner(s, rest));
    if Clean(s.name) {
      ParseInner(s, rest);
    } else {
      var after := "," + (" " + IdPart(s.uuid, rest));
      ParseNameIff(s.name, after);
      assert Inner(s, rest)[1..] == s.name + "\"" + after;
      Misread(Inner(s, rest), s);
    }
  }

  lemma Misread(inner: string, s: Sensor)
    requires inner != "" && inner[0] == '"'
    requires !exists r :: ParseString(inner[1..]) == Some((s.name, r))
    ensures ParseElements(inner).Some? ==> ParseElements(inner).value.0[..1] != [Str(s.name)]
    ensures ParseElements(inner).Some? ==> Arr(ParseElements(inner).value.0) != Pair(s)
  {
    assert SkipSpace(inner) == inner;
    match ParseString(inner[1..])
    case None =>
    case Some((t, r)) =>
      assert t != s.name;
      assert ParseElements(inner).Some? ==> ParseElements(inner).value.0[0] == Str(t);
  }

  lemma {:induction false} ParseEntries(sensors: seq<Sensor>, rest: string)
    requires sensors != []
    ensures var r := ParseElements(Entry(sensors[0]) + (Tail(sensors[1..]) + rest));
      if AllClean(sensors) then r == Some((Pairs(sensors), rest)) else r.None? || r.value.0 != Pairs(sensors)
    decreases |sensors|
  {
    var first, others := sensors[0], sensors[1..];
    var after := Tail(others) + rest;
    var text := Entry(first) + after;
    ParseEntry(first, after);
    if !Clean(first.name) {
      FirstMisread(text, sensors);
    } else if others == [] {
      assert after == "]" + rest;
      LastElement(text, Pair(first), rest);
      assert Pairs(sensors) == [Pair(first)];
    } else {
      var more := Entry(others[0]) + (Tail(others[1..]) + rest);
      assert after == "," + (" " + more);
      NextElement(text, Pair(first), " " + more);
      SpaceFirst(more);
      ParseEntries(others, rest);
      PairsSplit(sensors, ParseElements(more));
    }
  }

  lemma FirstMisread(text: string, sensors: seq<Sensor>)
    requires sensors != [] && !Clean(sensors[0].name)
    requires ParseValue(text).None? || ParseValue(text).value.0 != Pair(sensors[0])
    ensures !AllClean(sensors) && (ParseElements(text).None? || ParseElements(text).value.0 != Pairs(sensors))
  {
    assert Pairs(sensors)[0] == Pair(sensors[0]);
    assert ParseElements(text).Some? ==> ParseElements(text).value.0[0] == ParseValue(text).value.0;
  }

  lemma PairsSplit(sensors: seq<Sensor>, parsed: Option<(seq<Value>, string)>)
    requires sensors != []
    ensures parsed.Some? ==>
      ([Pair(sensors[0])] + parsed.value.0 == Pairs(sensors) <==> parsed.value.0 == Pairs(sensors[1..]))
    ensures AllClean(sensors) <==> Clean(sensors[0].name) && AllClean(sensors[1..])
  {
    if parsed.Some? {
      assert ([Pair(sensors[0])] + parsed.value.0)[1..] == parsed.value.0;
      assert Pairs(sensors)[1..] == Pairs(sensors[1..]);
    }
    assert forall k :: 1 <= k < |sensors| ==> sensors[k] == sensors[1..][k - 1];
  }

  /** Decoding the printed array gives back the list of names and ids if and only if no name contains
      a quotation mark, a backslash or a control character. */
  lemma DecodeIff(sensors: seq<Sensor>)
    ensures Decode(Text(sensors)) == Some(Arr(Pairs(sensors))) <==> AllClean(sensors)
  {
    var text := Text(sensors);
    assert SkipSpace(text) == text && text[1..] == From(sensors, 0);
    if sensors == [] {
      assert text[1..] == "]" && text[1..][1..] == "";
    } else {
      ParseEntries(sensors, "");
      assert Tail(sensors[1..]) + "" == Tail(sensors[1..]);
      assert SkipSpace(text[1..]) == text[1..];
      DecodeArray(text, Pairs(sensors));
    }
  }

  lemma DecodeArray(text: string, values: seq<Value>)
    requires |text| > 1 && text[0] == '[' && text[1] == '[' && SkipSpace(text) == text && SkipSpace(text[1..]) == text[1..]
    ensures ParseElements(text[1..]) == Some((values, "")) ==> Decode(text) == Some(Arr(values))
    ensures Decode(text) == Some(Arr(values)) ==>
      ParseElements(text[1..]).Some? && ParseElements(text[1..]).value.0 == values
  {
  }

  /** Parsing the printed array when something follows it. */
  lemma ParseText(sensors: seq<Sensor>, rest: string)
    requires AllClean(sensors)
    ensures ParseValue(Text(sensors) + rest) == Some((Arr(Pairs(sensors)), rest))
  {
    if sensors == [] {
      ParseEmpty(rest);
      assert Text(sensors) + rest == "[" + ("]" + rest);
    } else {
      var body := Entry(sensors[0]) + (Tail(sensors[1..]) + rest);
      ParseEntries(sensors, rest);
      assert Text(sensors) + rest == "[" + body;
      ParseNested(body);
    }
  }

  lemma ParseEmpty(rest: string)
    ensures ParseValue("[" + ("]" + rest)) == Some((Arr([]), rest))
  {
    var text := "[" + ("]" + rest);
    assert text[1..] == "]" + rest && text[1..][1..] == rest;
  }

  /** An array whose first element is an array. */
  lemma ParseNested(inner: string)
    requires inner != "" && inner[0] == '['
    ensures ParseValue("[" + inner) ==
      match ParseElements(inner)
      case None => None
      case Some((elements, rest)) => Some((Arr(elements), rest))
  {
    var text := "[" + inner;
    assert text[1..] == inner && SkipSpace(text) == text && SkipSpace(inner) == inner;
  }

  // ----- The limits of the printer, in terms of the text -----

  lemma {:induction false} TailSnoc(sensors: seq<Sensor>, x: Sensor)
    ensures |Tail(sensors + [x])| == |Tail(sensors)| + 2 + |Entry(x)|
  {
    if sensors == [] {
      assert (sensors + [x])[1..] == [];
    } else {
      assert (sensors + [x])[1..] == sensors[1..] + [x];
      TailSnoc(sensors[1..], x);
    }
  }

  lemma TextSnoc(sensors: seq<Sensor>, x: Sensor)
    ensures |Text(sensors + [x])| == |Text(sensors)| + |Entry(x)| + (if sensors == [] then 0 else 2)
  {
    if sensors != [] {
      assert (sensors + [x])[1..] == sensors[1..] + [x];
      TailSnoc(sensors[1..], x);
    } else {
      assert (sensors + [x])[1..] == [];
    }
  }

  /** Entry k fits: its name and 48 more characters go into what the text before it leaves of 4094. */
  predicate EntryFits(sensors: seq<Sensor>, k: nat)
    requires k < |sensors|
  {
    |sensors[k].name| + 48 < if k == 0 then 4094 else 4094 - (|Text(sensors[..k])| - 1)
  }

  lemma {:induction false} FitsFrom(sensors: seq<Sensor>, k: nat, cursor: nat)
    requires k <= |sensors| && cursor == if k == 0 then 1 else |Text(sensors[..k])| - 1
    ensures Fits(sensors, k, cursor) <==> forall j :: k <= j < |sensors| ==> EntryFits(sensors, j)
    decreases |sensors| - k
  {
    if k < |sensors| {
      var behind := Behind(sensors, k, cursor);
      assert sensors[..k + 1] == sensors[..k] + [sensors[k]];
      TextSnoc(sensors[..k], sensors[k]);
      assert k == 0 ==> sensors[..k] == [] && |Text([])| == 2;
      assert behind == |Text(sensors[..k + 1])| - 1;
      FitsFrom(sensors, k + 1, behind);
      assert Fits(sensors, k, cursor) <==> EntryFits(sensors, k) && Fits(sensors, k + 1, behind);
    }
  }

  /** The printer succeeds if and only if every entry fits. */
  lemma FitsIff(sensors: seq<Sensor>)
    ensures Fits(sensors, 0, 1) <==> forall j :: 0 <= j < |sensors| ==> EntryFits(sensors, j)
  {
    FitsFrom(sensors, 0, 1);
  }

  /** The text for no sensor, and for two. */
  lemma TextIs(a: Sensor, b: Sensor)
    ensures Text([]) == "[]"
    ensures Text([a, b]) ==
      "[[\"" + a.name + "\", \"" + a.uuid + "\"], [\"" + b.name + "\", \"" + b.uuid + "\"]]"
  {
    var t := [a, b];
    assert t[1..] == [b] && [b][1..] == [];
    assert Tail([b]) == ", " + Entry(b) + "]";
    assert Text(t) == "[" + (Entry(a) + (", " + Entry(b) + "]"));
    TextPieces(a.name, a.uuid, b.name, b.uuid);
  }

  lemma TextPieces(n: string, u: string, m: string, v: string)
    ensures "[" + (("[\"" + n + "\", \"" + u + "\"]") + (", " + ("[\"" + m + "\", \"" + v + "\"]") + "]"))
         == "[[\"" + n + "\", \"" + u + "\"], [\"" + m + "\", \"" + v + "\"]]"
  {
    assert "[" + "[\"" == "[[\"" && "\"]" + ", " + "[\"" == "\"], [\"" && "\"]" + "]" == "\"]]";
  }
}
