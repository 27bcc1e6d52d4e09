/**
A decoder for JSON: objects, arrays, numbers and strings, sections 3 to 7 of RFC 8259, with white space
as in section 2. Escapes that denote surrogates are refused. The value of a number, and of the words
true, false and null of section 3, is its text.
*/
module Json {
  import opened Wrappers

  datatype Value = Str(text: string) | Num(text: string) | Word(text: string) | Arr(elements: seq<Value>) | Obj(members: seq<Member>)

  datatype Member = Member(key: string, value: Value)

  predicate IsSpace(c: char) {
    c == ' ' || c == '\t' || c == '\n' || c == '\r'
  }

  function SkipSpace(s: string): (r: string)
    ensures |r| <= |s| && (r != "" ==> !IsSpace(r[0]))
  {
    if s == "" || !IsSpace(s[0]) then s else SkipSpace(s[1..])
  }

  /** The character that a backslash and `c` denote. */
  function Unescaped(c: char): Option<char> {
    match c
    case '"' => Some('"')
    case '\\' => Some('\\')
    case '/' => Some('/')
    case 'b' => Some('\U{8}')
    case 'f' => Some('\U{C}')
    case 'n' => Some('\n')
    case 'r' => Some('\r')
    case 't' => Some('\t')
    case _ => None
  }

  function HexDigit(c: char): Option<int> {
    if '0' <= c <= '9' then Some(c as int - '0' as int)
    else if 'a' <= c <= 'f' then Some(10 + c as int - 'a' as int)
    else if 'A' <= c <= 'F' then Some(10 + c as int - 'A' as int)
    else None
  }

  /** The character denoted by four hexadecimal digits. */
  function HexChar(s: string): Option<char>
    requires |s| == 4
  {
    match (HexDigit(s[0]), HexDigit(s[1]), HexDigit(s[2]), HexDigit(s[3]))
    case (Some(a), Some(b), Some(c), Some(d)) =>
      var code := ((a * 16 + b) * 16 + c) * 16 + d;
      if 0 <= code < 0xD800 || 0xE000 <= code < 0x1_0000 then Some(code as char) else None
    case _ => None
  }

  /** One character of a string and the number of characters it was written with. */
  function StringChar(s: string): (r: Option<(char, nat)>)
    requires s != ""
    ensures r.Some? ==> 1 <= r.value.1 <= |s|
  {
    if s[0] == '"' || s[0] < ' ' then None
    else if s[0] != '\\' then Some((s[0], 1))
    else if |s| < 2 then None
    else if s[1] == 'u' then
      if |s| >= 6 && HexChar(s[2..6]).Some? then Some((HexChar(s[2..6]).value, 6)) else None
    else if Unescaped(s[1]).Some? then Some((Unescaped(s[1]).value, 2))
    else None
  }

  /** The rest of a string behind its opening quotation mark. */
  function ParseString(s: string): (r: Option<(string, string)>)
    ensures r.Some? ==> |r.value.1| < |s|
    decreases |s|
  {
    if s == "" then None
    else if s[0] == '"' then Some(("", s[1..]))
    else
      match StringChar(s)
      case None => None
      case Some((c, width)) =>
        match ParseString(s[width..])
        case None => None
        case Some((t, rest)) => Some(([c] + t, rest))
  }

  // ----- Numbers -----

  predicate IsDigit(c: char) {
    '0' <= c <= '9'
  }

  /** How many digits a text begins with. */
  function Digits(s: string): (n: nat)
    ensures n <= |s|
  {
    if s == "" || !IsDigit(s[0]) then 0 else 1 + Digits(s[1..])
  }

  /** No zeroes lead an integer. */
  function IntWidth(s: string): (n: nat)
    ensures n <= |s|
  {
    if s != "" && s[0] == '0' then 1 else Digits(s)
  }

  function FractionWidth(s: string): (n: nat)
    ensures n <= |s|
  {
    if s != "" && s[0] == '.' && Digits(s[1..]) > 0 then 1 + Digits(s[1..]) else 0
  }

  function ExponentWidth(s: string): (n: nat)
    ensures n <= |s|
  {
    if s == "" || (s[0] != 'e' && s[0] != 'E') then 0
    else
      var signed := if |s| > 1 && (s[1] == '+' || s[1] == '-') then 2 else 1;
      var digits := Digits(s[signed..]);
      if digits > 0 then signed + digits else 0
  }

  /** The width of the number that a text begins with; 0 if none. */
  function NumberWidth(s: string): (n: nat)
    ensures n <= |s|
  {
    var minus := if s != "" && s[0] == '-' then 1 else 0;
    var whole := IntWidth(s[minus..]);
    if whole == 0 then 0
    else
      var fraction := FractionWidth(s[minus + whole..]);
      minus + whole + fraction + ExponentWidth(s[minus + whole + fraction..])
  }

  /** The width of the word that a text begins with; 0 if none. */
  function WordWidth(s: string): (n: nat)
    ensures n <= |s|
  {
    if "true" <= s then 4 else if "false" <= s then 5 else if "null" <= s then 4 else 0
  }

  // ----- Values -----

  function ParseValue(s: string): (r: Option<(Value, string)>)
    ensures r.Some? ==> |r.value.1| < |s|
    decreases |s|, 0
  {
    var t := SkipSpace(s);
    if t == "" then None
    else if t[0] == '"' then
      match ParseString(t[1..])
      case None => None
      case Some((text, rest)) => Some((Str(text), rest))
    else if t[0] == '[' then
      var u := SkipSpace(t[1..]);
      if u != "" && u[0] == ']' then Some((Arr([]), u[1..]))
      else
        match ParseElements(t[1..])
        case None => None
        case Some((elements, rest)) => Some((Arr(elements), rest))
    else if t[0] == '{' then
      var u := SkipSpace(t[1..]);
      if u != "" && u[0] == '}' then Some((Obj([]), u[1..]))
      else
        match ParseMembers(t[1..])
        case None => None
        case Some((members, rest)) => Some((Obj(members), rest))
    else
      var width := NumberWidth(t);
      if width > 0 then Some((Num(t[..width]), t[width..]))
      else
        var letters := WordWidth(t);
        if letters > 0 then Some((Word(t[..letters]), t[letters..])) else None
  }

  /** At least one member, up to the closing brace. */
  function ParseMembers(s: string): (r: Option<(seq<Member>, string)>)
    ensures r.Some? ==> |r.value.1| < |s|
    decreases |s|, 1
  {
    var t := SkipSpace(s);
    if t == "" || t[0] != '"' then None
    else
      match ParseString(t[1..])
      case None => None
      case Some((key, rest)) =>
        var u := SkipSpace(rest);
        if u == "" || u[0] != ':' then None
        else
          match ParseValue(u[1..])
          case None => None
          case Some((v, behind)) =>
            var w := SkipSpace(behind);
            if w == "" then None
            else if w[0] == '}' then Some(([Member(key, v)], w[1..]))
            else if w[0] == ',' then
              match ParseMembers(w[1..])
              case None => None
              case Some((members, more)) => Some(([Member(key, v)] + members, more))
            else None
  }

  /** At least one element, up to the closing bracket. */
  function ParseElements(s: string): (r: Option<(seq<Value>, string)>)
    ensures r.Some? ==> |r.value.1| < |s|
    decreases |s|, 1
  {
    match ParseValue(s)
    case None => None
    case Some((v, rest)) =>
      var t := SkipSpace(rest);
      if t == "" then None
      else if t[0] == ']' then Some(([v], t[1..]))
      else if t[0] == ',' then
        match ParseElements(t[1..])
        case None => None
        case Some((vs, more)) => Some(([v] + vs, more))
      else None
  }

  /** A text is one value with nothing but white space around it. */
  function Decode(s: string): Option<Value> {
    match ParseValue(s)
    case None => None
    case Some((v, rest)) => if SkipSpace(rest) == "" then Some(v) else None
  }

  /** A character that a string may contain as it is. */
  predicate Plain(c: char) {
    c != '"' && c != '\\' && c >= ' '
  }

  predicate Clean(s: string) {
    forall i :: 0 <= i < |s| ==> Plain(s[i])
  }

  lemma {:induction false} ParseClean(s: string, rest: string)
    requires Clean(s)
    ensures ParseString(s + "\"" + rest) == Some((s, rest))
  {
    var whole := s + "\"" + rest;
    if s == "" {
      assert whole[1..] == rest;
    } else {
      assert whole[1..] == s[1..] + "\"" + rest;
      ParseClean(s[1..], rest);
      assert Plain(s[0]) && StringChar(whole) == Some((s[0], 1)) && [s[0]] + s[1..] == s;
    }
  }

  /** Reading past text without a quotation mark: what comes out has a quotation mark where the text
      has none, or is shorter than the text, or is the text itself, which then was clean. */
  lemma {:induction false} ParseUnquoted(u: string, rest: string)
    requires '"' !in u
    ensures match ParseString(u + "\"" + rest)
            case None => true
            case Some((t, _)) =>
              (exists d :: 0 <= d < |u| && d < |t| && t[d] == '"') || |t| < |u| || (t == u && Clean(u))
    decreases |u|
  {
    var whole := u + "\"" + rest;
    var parsed := ParseString(whole);
    if u != "" && parsed.Some? {
      var t := parsed.value.0;
      var (c, width) := StringChar(whole).value;
      NoHexQuote(whole, u);
      if width > |u| {
        assert width == 2 && |u| == 1 && whole[1] == '"' && t[0] == '"';
      } else {
        assert whole[width..] == u[width..] + "\"" + rest;
        ParseUnquoted(u[width..], rest);
        var t' := ParseString(whole[width..]).value.0;
        assert t == [c] + t';
        if d :| 0 <= d < |u[width..]| && d < |t'| && t'[d] == '"' {
          assert t[d + 1] == '"';
        }
      }
    }
  }

  /** A quotation mark is no hexadecimal digit, so no escape of six characters runs over it. */
  lemma NoHexQuote(whole: string, u: string)
    requires u < whole && whole[|u|] == '"' && u != "" && StringChar(whole).Some?
    ensures StringChar(whole).value.1 <= |u| || (StringChar(whole).value.1 == 2 && |u| == 1)
  {
    if StringChar(whole).value.1 == 6 {
      var digits := whole[2..6];
      assert whole[1] == 'u' && forall j :: 2 <= j < 6 ==> whole[j] == digits[j - 2];
    }
  }

  function FirstQuote(s: string): (n: nat)
    ensures n <= |s| && '"' !in s[..n] && (n < |s| ==> s[n] == '"')
  {
    if s == "" || s[0] == '"' then 0 else 1 + FirstQuote(s[1..])
  }

  lemma UncleanMisread(name: string, rest: string)
    requires !Clean(name)
    ensures var r := ParseString(name + "\"" + rest); r.None? || r.value.0 != name
  {
    var whole := name + "\"" + rest;
    var n := FirstQuote(name);
    var u := name[..n];
    var more := whole[n + 1..];
    assert whole == u + "\"" + more;
    assert forall d :: 0 <= d < |u| ==> name[d] == u[d] != '"';
    ParseUnquoted(u, more);
    assert u == name ==> !Clean(u);
  }

  /** A name between quotation marks is read back as itself if and only if it is clean. */
  lemma ParseNameIff(name: string, rest: string)
    ensures (exists r :: ParseString(name + "\"" + rest) == Some((name, r))) <==> Clean(name)
  {
    if Clean(name) {
      ParseClean(name, rest);
    } else {
      UncleanMisread(name, rest);
    }
  }

  /** The escapes of two characters, and one of six. */
  lemma EscapesAre(rest: string)
    ensures StringChar("\\n" + rest) == Some(('\n', 2)) && StringChar("\\r" + rest) == Some(('\r', 2))
    ensures StringChar("\\t" + rest) == Some(('\t', 2)) && StringChar("\\/" + rest) == Some(('/', 2))
    ensures StringChar("\\b" + rest) == Some(('\U{8}', 2)) && StringChar("\\f" + rest) == Some(('\U{C}', 2))
    ensures StringChar("\\\"" + rest) == Some(('"', 2)) && StringChar("\\\\" + rest) == Some(('\\', 2))
    ensures StringChar("\\u0041" + rest) == Some(('A', 6))
  {
    var s := "\\u0041" + rest;
    assert s[2..6] == "0041";
  }
}
