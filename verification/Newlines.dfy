/**
The in-place newline rewriting of the message parser, on NUL-terminated buffers.

`Unescape` and `Escape` say what is wanted: delete the backslash directly before each CR or LF, and
insert one. The method for unescaping computes exactly `Unescape`; the one for escaping overwrites
the byte behind each newline, so it is modelled as written, with the exact condition under which it
can be undone. Contents are compared before the final reallocation.
*/
module Newlines {
  import opened Wrappers

  const NUL: Byte := 0
  const LF: Byte := 10
  const CR: Byte := 13
  const BACKSLASH: Byte := 0x5c

  type Text = seq<Byte>

  predicate IsNewline(b: Byte) {
    b == LF || b == CR
  }

  predicate NoNul(s: Text) {
    forall i :: 0 <= i < |s| ==> s[i] != NUL
  }

  lemma NoNulIff(s: Text)
    ensures NoNul(s) <==> 0 !in s
  {
  }

  /** An escaped newline begins at the first byte. */
  predicate EscapedAtHead(s: Text) {
    |s| > 1 && s[0] == BACKSLASH && IsNewline(s[1])
  }

  /** Deletes each backslash directly before CR or LF. */
  function Unescape(s: Text): Text {
    if s == [] then [] else (if EscapedAtHead(s) then [] else [s[0]]) + Unescape(s[1..])
  }

  /** Inserts a backslash before each CR or LF. */
  function Escape(s: Text): Text {
    if s == [] then [] else (if IsNewline(s[0]) then [BACKSLASH, s[0]] else [s[0]]) + Escape(s[1..])
  }

  function Newlines(s: Text): nat {
    if s == [] then 0 else (if IsNewline(s[0]) then 1 else 0) + Newlines(s[1..])
  }

  /** A byte is deleted if and only if it is a backslash directly before CR or LF. */
  lemma UnescapeCons(x: Byte, s: Text)
    ensures Unescape([x] + s) ==
      (if x == 0x5c && s != [] && (s[0] == 0x0a || s[0] == 0x0d) then [] else [x]) + Unescape(s)
    ensures Unescape([]) == []
  {
    assert ([x] + s)[1..] == s;
  }

  /** A backslash is inserted before each CR and LF, and nowhere else. */
  lemma EscapeCons(x: Byte, s: Text)
    ensures Escape([x] + s) == (if x == 0x0a || x == 0x0d then [0x5c, x] else [x]) + Escape(s)
    ensures Escape([]) == []
  {
    assert ([x] + s)[1..] == s;
  }

  /** Unescaping undoes escaping, on every string. */
  lemma {:induction false} UnescapeEscape(s: Text)
    ensures Unescape(Escape(s)) == s
  {
    if s != [] {
      var rest := Escape(s[1..]);
      UnescapeEscape(s[1..]);
      UnescapeCons(s[0], rest);
      if IsNewline(s[0]) {
        assert Escape(s) == [BACKSLASH] + ([s[0]] + rest);
        UnescapeCons(BACKSLASH, [s[0]] + rest);
        assert Unescape(Escape(s)) == [s[0]] + s[1..];
      } else {
        assert rest != [] ==> !IsNewline(rest[0]);
        assert Escape(s) == [s[0]] + rest;
      }
    }
  }

  lemma {:induction false} UnescapePlain(s: Text, k: nat)
    requires k <= |s| && BACKSLASH !in s[..k]
    ensures Unescape(s) == s[..k] + Unescape(s[k..])
  {
    if k > 0 {
      assert s[1..][..k - 1] == s[..k][1..] && s[0] == s[..k][0];
      UnescapePlain(s[1..], k - 1);
      assert s[1..][k - 1..] == s[k..];
    } else {
      assert s[0..] == s;
    }
  }

  // ----- Unescaping in place -----

  /** Finds the first backslash from `i` on; the length if there is none. */
  method FindBackslash(b: array<Byte>, i: nat, len: nat) returns (k: nat)
    requires i <= len < b.Length && NoNul(b[..len]) && b[len] == NUL
    ensures i <= k <= len && BACKSLASH !in b[..len][i..k] && (k < len ==> b[k] == BACKSLASH)
  {
    k := i;
    while b[k] != NUL && b[k] != BACKSLASH
      invariant i <= k <= len && BACKSLASH !in b[i..k]
      decreases len - k
    {
      k := k + 1;
    }
    assert k < len ==> b[k] == b[..len][k];
    assert b[..len][i..k] == b[i..k];
  }

  /** Shifts the rest of the string, with its NUL, one to the left, over the byte at `k`. */
  method ShiftLeft(b: array<Byte>, k: nat, len: nat)
    requires k < len < b.Length && NoNul(b[..len]) && b[len] == NUL
    modifies b
    ensures b[..len - 1] == old(b[..len])[..k] + old(b[..len])[k + 1..] && b[len - 1] == NUL
    ensures NoNul(b[..len - 1])
  {
    ghost var was := b[..len];
    var p, s := k + 1, k;
    assert forall j :: 0 <= j < len ==> b[j] == was[j] && was[j] != NUL;
    while b[p] != NUL
      invariant s == p - 1 && k < p <= len
      invariant forall j :: 0 <= j < k ==> b[j] == was[j]
      invariant forall j :: k <= j < s ==> b[j] == was[j + 1]
      invariant forall j :: p <= j < len ==> b[j] == was[j]
      invariant b[len] == NUL
      decreases len - p
    {
      b[s] := b[p];
      p := p + 1;
      s := s + 1;
    }
    assert p == len;
    b[s] := b[p];
    ghost var t := was[..k] + was[k + 1..];
    assert forall j :: 0 <= j < len - 1 ==> b[j] == t[j] && t[j] != NUL;
    assert b[..len - 1] == t;
  }

  /** The state of the search: `s` is the buffer's text, rewritten up to `i`. */
  ghost predicate RewrittenTo(text: Text, s: Text, i: nat) {
    i <= |s| && text == s[..i] + Unescape(s[i..])
  }

  lemma SkipPlain(text: Text, s: Text, i: nat, k: nat)
    requires RewrittenTo(text, s, i) && i <= k <= |s| && BACKSLASH !in s[i..k]
    ensures RewrittenTo(text, s, k)
  {
    assert s[i..][..k - i] == s[i..k] && s[i..][k - i..] == s[k..] && s[..i] + s[i..k] == s[..k];
    UnescapePlain(s[i..], k - i);
  }

  lemma KeepBackslash(text: Text, s: Text, k: nat)
    requires RewrittenTo(text, s, k) && k < |s| && !EscapedAtHead(s[k..])
    ensures RewrittenTo(text, s, k + 1)
  {
    assert s[k..][1..] == s[k + 1..] && s[..k] + [s[k]] == s[..k + 1];
  }

  lemma DropBackslash(text: Text, s: Text, k: nat)
    requires RewrittenTo(text, s, k) && k < |s| && EscapedAtHead(s[k..])
    ensures RewrittenTo(text, s[..k] + s[k + 1..], k + 1)
  {
    var t := s[..k] + s[k + 1..];
    assert s[k..][1..] == s[k + 1..] && s[k + 1..][1..] == s[k + 2..];
    assert t[..k + 1] == s[..k] + [s[k + 1]] && t[k + 1..] == s[k + 2..];
    assert Unescape(s[k..]) == Unescape(s[k + 1..]) by {
      assert [] + Unescape(s[k + 1..]) == Unescape(s[k + 1..]);
    }
    assert !EscapedAtHead(s[k + 1..]) && s[k + 1..][0] == s[k + 1];
    assert s[..k] + ([s[k + 1]] + Unescape(s[k + 2..])) == t[..k + 1] + Unescape(s[k + 2..]);
  }

  /** One round of the search: the next backslash is passed, or dropped if it escapes a newline. */
  method UnescapeOne(b: array<Byte>, i: nat, len: nat, ghost text: Text) returns (next: nat, left: nat, more: bool)
    requires len < b.Length && NoNul(b[..len]) && b[len] == NUL && RewrittenTo(text, b[..len], i)
    modifies b
    ensures left <= len && NoNul(b[..left]) && b[left] == NUL && RewrittenTo(text, b[..left], next)
    ensures if more then left - next < len - i else next == left
  {
    ghost var s := b[..len];
    var k := FindBackslash(b, i, len);
    SkipPlain(text, s, i, k);
    next, left, more := k, len, k < len;
    if more {
      assert b[k + 1] == NUL || b[k + 1] == s[k + 1];
      if b[k + 1] == LF || b[k + 1] == CR {
        ShiftLeft(b, k, len);
        DropBackslash(text, s, k);
        left := len - 1;
      } else {
        KeepBackslash(text, s, k);
      }
      next := k + 1;
    }
  }

  /** Afterwards the buffer holds the unescaped text; `count` backslashes are gone. */
  method UnescapeNewlines(b: array<Byte>, len: nat) returns (count: nat)
    requires len < b.Length && NoNul(b[..len]) && b[len] == NUL
    modifies b
    ensures var text := Unescape(old(b[..len]));
      count + |text| == len && b[..|text|] == text && b[|text|] == NUL
  {
    ghost var text := Unescape(b[..len]);
    var left: nat, i: nat, more := len, 0, true;
    assert b[..len][0..] == b[..len];
    while more
      invariant left <= len && NoNul(b[..left]) && b[left] == NUL
      invariant RewrittenTo(text, b[..left], i)
      invariant !more ==> i == left
      decreases more, left - i
    {
      i, left, more := UnescapeOne(b, i, left, text);
    }
    assert b[..left] == text;
    count := len - left;
  }

  // ----- Escaping, as written -----

  /** The rewriting loop on the enlarged buffer: at a newline it writes a backslash there and the
      newline over the next byte, then skips both. It ends at a NUL or after `count` newlines. None: it
      reads or writes behind the end of the buffer. */
  function Rewrite(b: Text, p: nat, count: nat): (r: Option<Text>)
    ensures r.Some? ==> |r.value| == |b|
    decreases |b| - p
  {
    if p >= |b| then None
    else if b[p] == NUL || count == 0 then Some(b)
    else if !IsNewline(b[p]) then Rewrite(b, p + 1, count)
    else if p + 1 >= |b| then None
    else Rewrite(b[p := BACKSLASH][p + 1 := b[p]], p + 2, count - 1)
  }

  /** The text of a buffer: what precedes the first NUL. */
  function CString(b: Text): Text {
    if b == [] || b[0] == NUL then [] else [b[0]] + CString(b[1..])
  }

  /** The enlarged buffer before the loop; `spare` is what the reallocation left between the old NUL
      and the new one. */
  function Enlarged(s: Text, spare: Text): Text {
    s + [NUL] + spare + [NUL]
  }

  function EscapeAsWritten(s: Text, spare: Text): Option<Text> {
    if Newlines(s) == 0 then Some(s)
    else
      var r := Rewrite(Enlarged(s, spare), 0, Newlines(s));
      if r.Some? then Some(CString(r.value)) else None
  }

  /** Escaping stays inside its buffer, and unescaping gives the text back. */
  predicate Undone(s: Text, spare: Text) {
    var e := EscapeAsWritten(s, spare);
    e.Some? && Unescape(e.value) == s
  }

  /** Every CR or LF is the last byte. */
  predicate OnlyLastNewline(s: Text) {
    forall i :: 0 <= i < |s| - 1 ==> !IsNewline(s[i])
  }

  lemma {:induction false} NoNewlines(s: Text)
    requires forall i :: 0 <= i < |s| ==> !IsNewline(s[i])
    ensures Newlines(s) == 0 && Unescape(s) == s
  {
    if s != [] {
      NoNewlines(s[1..]);
    }
  }

  lemma {:induction false} NewlinesSplit(s: Text, k: nat)
    requires k <= |s|
    ensures Newlines(s) == Newlines(s[..k]) + Newlines(s[k..])
  {
    if k > 0 {
      NewlinesSplit(s[1..], k - 1);
      assert s[..k][1..] == s[1..][..k - 1] && s[1..][k - 1..] == s[k..];
    } else {
      assert s[0..] == s;
    }
  }

  /** The loop passes over bytes that are neither NUL nor newline. */
  lemma {:induction false} RewritePasses(b: Text, p: nat, m: nat, count: nat)
    requires p <= m < |b| && count > 0
    requires forall j :: p <= j < m ==> b[j] != NUL && !IsNewline(b[j])
    ensures Rewrite(b, p, count) == Rewrite(b, m, count)
    decreases m - p
  {
    if p < m {
      RewritePasses(b, p + 1, m, count);
    }
  }

  /** A buffer that is zero behind its text, which ends at `len`, or with a newline written there. */
  predicate ZeroBehind(b: Text, p: nat, len: nat) {
    p <= len + 1 < |b| && (forall j :: len < j < |b| ==> b[j] == NUL) && (p <= len ==> b[len] == NUL)
  }

  /** On a buffer that is zero behind the text, the loop changes nothing before its start, and the
      text grows by at most one byte. */
  lemma {:induction false} RewriteBounds(b: Text, p: nat, count: nat, len: nat)
    requires ZeroBehind(b, p, len)
    ensures Rewrite(b, p, count).Some?
    ensures forall j :: 0 <= j < p ==> Rewrite(b, p, count).value[j] == b[j]
    ensures forall j :: len < j < |b| ==> Rewrite(b, p, count).value[j] == NUL
    decreases |b| - p
  {
    if b[p] != NUL && count > 0 {
      assert p < len || p == len + 1;
      if !IsNewline(b[p]) {
        RewriteBounds(b, p + 1, count, len);
      } else {
        var b2 := b[p := BACKSLASH][p + 1 := b[p]];
        assert p < len;
        assert ZeroBehind(b2, p + 2, len);
        RewriteBounds(b2, p + 2, count - 1, len);
        assert Rewrite(b, p, count) == Rewrite(b2, p + 2, count - 1);
        assert forall j :: 0 <= j < p ==> b2[j] == b[j];
      }
    }
  }

  /** Without a further newline the loop changes nothing. */
  lemma {:induction false} RewriteIdle(b: Text, p: nat, count: nat, len: nat)
    requires ZeroBehind(b, p, len) && forall j :: p <= j < len ==> !IsNewline(b[j])
    ensures Rewrite(b, p, count) == Some(b)
    decreases |b| - p
  {
    if b[p] != NUL && count > 0 {
      RewriteIdle(b, p + 1, count, len);
    }
  }

  lemma {:induction false} CStringIs(b: Text, n: nat)
    requires n < |b| && b[n] == NUL && forall j :: 0 <= j < n ==> b[j] != NUL
    ensures CString(b) == b[..n]
  {
    if n > 0 {
      CStringIs(b[1..], n - 1);
      assert b[..n] == [b[0]] + b[1..][..n - 1];
    }
  }

  lemma {:induction false} CStringBound(b: Text, k: nat, n: nat)
    requires k <= n < |b| && b[n] == NUL && forall j :: 0 <= j < k ==> b[j] != NUL
    ensures k <= |CString(b)| <= n && forall j :: 0 <= j < |CString(b)| ==> CString(b)[j] == b[j]
  {
    if b[0] != NUL {
      CStringBound(b[1..], if k == 0 then 0 else k - 1, n - 1);
    }
  }

  /** Unescaping shortens a text by at least one byte per escaped newline in it. */
  lemma {:induction false} UnescapeShortens(s: Text, i: nat, m: nat)
    requires i <= m && m + 1 < |s| && EscapedAtHead(s[i..]) && EscapedAtHead(s[m..])
    ensures |Unescape(s)| <= |s| - (if i < m then 2 else 1)
  {
    UnescapeNoLonger(s[1..]);
    if i > 0 {
      assert s[1..][i - 1..] == s[i..] && s[1..][m - 1..] == s[m..];
      UnescapeShortens(s[1..], i - 1, m - 1);
    } else if m > 0 {
      assert s[0..] == s && s[1..][m - 1..] == s[m..];
      UnescapeShortens(s[1..], m - 1, m - 1);
    } else {
      assert s[0..] == s;
    }
  }

  lemma {:induction false} UnescapeNoLonger(s: Text)
    ensures |Unescape(s)| <= |s|
  {
    if s != [] {
      UnescapeNoLonger(s[1..]);
    }
  }

  lemma OneNewline(s: Text)
    requires OnlyLastNewline(s) && Newlines(s) > 0
    ensures s != [] && Newlines(s) == 1 && IsNewline(s[|s| - 1])
  {
    var n := |s| - 1;
    NewlinesSplit(s, n);
    NoNewlines(s[..n]);
    assert s[n..] == [s[n]] && [s[n]][1..] == [];
  }

  /** A newline at the last byte is escaped correctly, whatever the reallocated bytes hold. */
  lemma EscapeLast(s: Text, spare: Text)
    requires NoNul(s) && OnlyLastNewline(s) && |spare| + 1 == Newlines(s)
    ensures Undone(s, spare)
  {
    OneNewline(s);
    var n := |s| - 1;
    var b := Enlarged(s, spare);
    RewritePasses(b, 0, n, 1);
    var r := b[n := BACKSLASH][n + 1 := s[n]];
    assert Rewrite(b, n, 1) == Rewrite(r, n + 2, 0) == Some(r);
    CStringIs(r, n + 2);
    assert r[..n + 2] == s[..n] + [BACKSLASH, s[n]];
    PlainThenEscaped(s[..n], s[n]);
    assert s == s[..n] + [s[n]];
  }

  lemma {:induction false} PlainThenEscaped(t: Text, nl: Byte)
    requires IsNewline(nl) && forall i :: 0 <= i < |t| ==> !IsNewline(t[i])
    ensures Unescape(t + [BACKSLASH, nl]) == t + [nl]
  {
    var u := t + [BACKSLASH, nl];
    if t == [] {
      assert u[1..] == [nl] && [nl][1..] == [];
      assert Unescape([nl]) == [nl] + Unescape([]);
    } else {
      assert u[1..] == t[1..] + [BACKSLASH, nl] && u[1] == if |t| > 1 then t[1] else BACKSLASH;
      PlainThenEscaped(t[1..], nl);
    }
  }

  function Zeros(n: nat): Text {
    seq(n, _ => NUL)
  }

  /** The first newline at or behind k, or the length. */
  function NextNewline(s: Text, k: nat): (n: nat)
    requires k <= |s|
    ensures k <= n <= |s| && (n < |s| ==> IsNewline(s[n])) && forall j :: k <= j < n ==> !IsNewline(s[j])
    decreases |s| - k
  {
    if k == |s| || IsNewline(s[k]) then k else NextNewline(s, k + 1)
  }

  /** The buffer after the first newline, at `i`, was rewritten. */
  function AfterFirst(s: Text, i: nat, count: nat): Text
    requires i < |s| && count > 0
  {
    Enlarged(s, Zeros(count - 1))[i := BACKSLASH][i + 1 := s[i]]
  }

  lemma InteriorAlone(s: Text, i: nat, count: nat)
    requires NoNul(s) && i + 1 < |s| && count > 0 && IsNewline(s[i])
    requires forall j :: i + 2 <= j < |s| ==> !IsNewline(s[j])
    ensures var r := Rewrite(AfterFirst(s, i, count), i + 2, count - 1); r.Some? && |Unescape(CString(r.value))| < |s|
  {
    var b := AfterFirst(s, i, count);
    RewriteIdle(b, i + 2, count - 1, |s|);
    CStringBound(b, i + 2, |s|);
    EscapedIn(CString(b), i);
    UnescapeShortens(CString(b), i, i);
  }

  lemma InteriorAndAnother(s: Text, i: nat, m: nat, count: nat)
    requires NoNul(s) && i + 1 < m < |s| && count > 1 && IsNewline(s[i]) && IsNewline(s[m])
    requires forall j :: i + 2 <= j < m ==> !IsNewline(s[j])
    ensures var r := Rewrite(AfterFirst(s, i, count), i + 2, count - 1); r.Some? && |Unescape(CString(r.value))| < |s|
  {
    var b := AfterFirst(s, i, count);
    assert forall j :: 0 <= j < |s| ==> b[j] != NUL;
    RewritePasses(b, i + 2, m, count - 1);
    TwoEscaped(b, i, m, count - 1, |s|);
  }

  /** A buffer with one escaped newline, at `i`, in which the loop meets another at `m`. */
  lemma TwoEscaped(b: Text, i: nat, m: nat, count: nat, len: nat)
    requires i + 1 < m < len && len + 1 < |b| && count > 0
    requires b[i] == BACKSLASH && IsNewline(b[i + 1]) && IsNewline(b[m])
    requires (forall j :: 0 <= j < len ==> b[j] != NUL) && forall j :: len <= j < |b| ==> b[j] == NUL
    ensures Rewrite(b, m, count).Some? && |Unescape(CString(Rewrite(b, m, count).value))| < len
  {
    var b2 := b[m := BACKSLASH][m + 1 := b[m]];
    RewriteBounds(b2, m + 2, count - 1, len);
    assert Rewrite(b, m, count) == Rewrite(b2, m + 2, count - 1);
    var r := Rewrite(b, m, count).value;
    assert forall j :: 0 <= j < m + 2 ==> b2[j] != NUL;
    CStringBound(r, m + 2, len + 1);
    var t := CString(r);
    assert t[i] == BACKSLASH && t[i + 1] == b[i + 1] && t[m] == BACKSLASH && t[m + 1] == b[m];
    EscapedIn(t, i);
    EscapedIn(t, m);
    UnescapeShortens(t, i, m);
  }

  /** An interior newline costs the byte behind it: if the reallocated bytes are zero, the text comes
      back too short. */
  lemma EscapeInterior(s: Text)
    requires NoNul(s) && !OnlyLastNewline(s)
    ensures Newlines(s) > 0
    ensures var e := EscapeAsWritten(s, Zeros(Newlines(s) - 1)); e.Some? && |Unescape(e.value)| < |s|
  {
    var i, count := NextNewline(s, 0), Newlines(s);
    NewlinesSplit(s, i);
    assert s[i..][0] == s[i] && count > 0;
    RewritePasses(Enlarged(s, Zeros(count - 1)), 0, i, count);
    var m := NextNewline(s, i + 2);
    if m == |s| {
      InteriorAlone(s, i, count);
    } else {
      InteriorCount(s, i, m);
      InteriorAndAnother(s, i, m, count);
    }
  }

  lemma EscapedIn(t: Text, i: nat)
    requires i + 1 < |t| && t[i] == BACKSLASH && IsNewline(t[i + 1])
    ensures EscapedAtHead(t[i..])
  {
  }

  lemma InteriorCount(s: Text, i: nat, m: nat)
    requires i < m < |s| && IsNewline(s[i]) && IsNewline(s[m])
    ensures Newlines(s) >= 2
  {
    NewlinesSplit(s, m);
    NewlinesSplit(s[..m], i);
    assert s[m..][0] == s[m] && s[..m][i..][0] == s[i];
  }

  /** Escaping as written can be undone, for every content of the reallocated bytes, exactly on the
      texts whose only CR or LF is their last byte. */
  lemma EscapeUndoneIff(s: Text)
    requires NoNul(s)
    ensures (forall spare: Text :: |spare| == (if Newlines(s) == 0 then 0 else Newlines(s) - 1) ==> Undone(s, spare))
            <==> OnlyLastNewline(s)
  {
    if OnlyLastNewline(s) {
      forall spare: Text | |spare| == (if Newlines(s) == 0 then 0 else Newlines(s) - 1)
        ensures Undone(s, spare)
      {
        if Newlines(s) == 0 {
          WithoutNewlines(s);
        } else {
          EscapeLast(s, spare);
        }
      }
    } else {
      EscapeInterior(s);
      var i := NextNewline(s, 0);
      NewlinesSplit(s, i);
      assert s[i..][0] == s[i];
      var zeros := Zeros(Newlines(s) - 1);
      assert |zeros| == Newlines(s) - 1 && !Undone(s, zeros);
    }
  }

  lemma {:induction false} WithoutNewlines(s: Text)
    requires Newlines(s) == 0
    ensures (forall i :: 0 <= i < |s| ==> !IsNewline(s[i])) && Unescape(s) == s
  {
    if s != [] {
      WithoutNewlines(s[1..]);
      assert forall i :: 0 < i < |s| ==> s[i] == s[1..][i - 1];
    }
  }

  method CountNewlines(b: array<Byte>, len: nat) returns (count: nat)
    requires len <= b.Length
    ensures count == Newlines(b[..len])
  {
    ghost var s := b[..len];
    count := 0;
    var c := 0;
    while c < len
      invariant c <= len && count == Newlines(s[..c])
    {
      NewlinesSplit(s[..c + 1], c);
      assert s[..c + 1][..c] == s[..c] && s[..c + 1][c..] == [b[c]];
      if b[c] == LF || b[c] == CR {
        count := count + 1;
      }
      c := c + 1;
    }
    assert s[..len] == s;
  }

  /** On a line whose only CR or LF is its last byte, what the loop writes is that line with one backslash. */
  lemma EscapeLastIs(t: Text, nl: Byte)
    requires NoNul(t) && (nl == 0x0a || nl == 0x0d) && forall i :: 0 <= i < |t| ==> t[i] != 0x0a && t[i] != 0x0d
    ensures EscapeAsWritten(t + [nl], []) == Some(t + [0x5c, nl])
  {
    var s := t + [nl];
    var n := |t|;
    NewlinesSplit(s, n);
    assert s[..n] == t && s[n..] == [nl] && [nl][1..] == [];
    NoNewlines(t);
    var b := Enlarged(s, []);
    RewritePasses(b, 0, n, 1);
    var r := b[n := BACKSLASH][n + 1 := nl];
    assert Rewrite(b, n, 1) == Rewrite(r, n + 2, 0) == Some(r);
    CStringIs(r, n + 2);
    assert r[..n + 2] == t + [BACKSLASH, nl];
  }

  // ----- Where the rewriting loop ends -----

  /** The newlines that the loop meets in a text; it skips the byte behind each. */
  function Met(s: Text): nat {
    if s == [] then 0
    else if !IsNewline(s[0]) then Met(s[1..])
    else if |s| == 1 then 1
    else 1 + Met(s[2..])
  }

  /** The loop meets a newline at the last byte, and so skips the NUL behind it. */
  predicate PastEnd(s: Text) {
    if s == [] then false
    else if !IsNewline(s[0]) then PastEnd(s[1..])
    else |s| == 1 || PastEnd(s[2..])
  }

  ghost predicate Adjacent(s: Text) {
    exists i :: 0 <= i < |s| - 1 && IsNewline(s[i]) && IsNewline(s[i + 1])
  }

  /** How many newlines the text ends with. */
  function TrailingRun(s: Text): (n: nat)
    ensures n <= |s|
  {
    if s == [] || !IsNewline(s[|s| - 1]) then 0 else 1 + TrailingRun(s[..|s| - 1])
  }

  lemma {:induction false} TrailingRunTail(s: Text)
    requires s != []
    ensures TrailingRun(s) == TrailingRun(s[1..]) + (if TrailingRun(s[1..]) == |s| - 1 && IsNewline(s[0]) then 1 else 0)
  {
    if |s| > 1 && IsNewline(s[|s| - 1]) {
      var front := s[..|s| - 1];
      TrailingRunTail(front);
      assert s[1..][..|s| - 2] == front[1..];
    }
  }

  /** The loop passes the end of the text exactly if the text ends with an odd run of newlines. */
  lemma {:induction false} PastEndIff(s: Text)
    ensures PastEnd(s) <==> TrailingRun(s) % 2 == 1
    decreases |s|
  {
    if s != [] {
      TrailingRunTail(s);
      if !IsNewline(s[0]) {
        PastEndIff(s[1..]);
      } else if |s| > 1 {
        PastEndIff(s[2..]);
        TrailingRunTail(s[1..]);
        assert s[1..][1..] == s[2..];
      }
    }
  }

  /** The loop meets every newline exactly if no two are adjacent. */
  lemma {:induction false} MetIff(s: Text)
    ensures Met(s) <= Newlines(s)
    ensures Met(s) == Newlines(s) <==> !Adjacent(s)
    decreases |s|
  {
    if s != [] {
      var t := s[1..];
      assert forall i :: 0 <= i < |t| ==> t[i] == s[i + 1];
      if !IsNewline(s[0]) {
        MetIff(t);
        AdjacentTail(s);
      } else if |s| > 1 {
        MetIff(s[2..]);
        assert t[1..] == s[2..];
        if IsNewline(s[1]) {
          assert Adjacent(s);
        } else {
          AdjacentTail(s);
          AdjacentTail(t);
        }
      }
    }
  }

  lemma AdjacentTail(s: Text)
    requires s != []
    ensures Adjacent(s) <==> Adjacent(s[1..]) || (|s| > 1 && IsNewline(s[0]) && IsNewline(s[1]))
  {
    var t := s[1..];
    if Adjacent(t) {
      var i :| 0 <= i < |t| - 1 && IsNewline(t[i]) && IsNewline(t[i + 1]);
      assert IsNewline(s[i + 1]) && IsNewline(s[i + 1 + 1]);
    }
    if Adjacent(s) {
      var i :| 0 <= i < |s| - 1 && IsNewline(s[i]) && IsNewline(s[i + 1]);
      if i > 0 {
        assert IsNewline(t[i - 1]) && IsNewline(t[i - 1 + 1]);
      }
    }
  }

  lemma WalkNewline(b: Text, p: nat, s: Text, count: nat)
    requires p + |s| < |b| && b[p..p + |s|] == s && |s| >= 2 && IsNewline(s[0]) && count >= Newlines(s)
    ensures b[p := BACKSLASH][p + 1 := b[p]][p + 2..p + |s|] == s[2..]
    ensures count > 0 && Newlines(s[2..]) <= count - 1
  {
    NewlinesSplit(s, 2);
    assert s[..2][0] == s[0];
  }

  lemma RewritePair(b: Text, p: nat, count: nat)
    requires p + 1 < |b| && IsNewline(b[p]) && count > 0
    ensures Rewrite(b, p, count) == Rewrite(b[p := BACKSLASH][p + 1 := b[p]], p + 2, count - 1)
  {
  }

  /** The loop on the text itself: it stops at the NUL behind the text, or goes on behind that NUL with
      the count that is left; it changes nothing further on. */
  lemma {:induction false} Walk(b: Text, p: nat, s: Text, count: nat) returns (after: Text)
    requires p + |s| < |b| && b[p..p + |s|] == s && NoNul(s) && b[p + |s|] == NUL && count >= Newlines(s)
    ensures |after| == |b| && forall j :: p + |s| < j < |b| ==> after[j] == b[j]
    ensures !PastEnd(s) ==> Rewrite(b, p, count) == Some(after)
    ensures PastEnd(s) ==>
      0 < Met(s) <= count && Rewrite(b, p, count) == Rewrite(after, p + |s| + 1, count - Met(s))
    decreases |s|
  {
    MetIff(s);
    if s == [] || count == 0 {
      after := b;
      if s != [] {
        WithoutNewlines(s);
        NeverPast(s);
      }
    } else {
      assert b[p] == s[0] != NUL;
      if !IsNewline(s[0]) {
        assert b[p + 1..p + |s|] == s[1..];
        after := Walk(b, p + 1, s[1..], count);
      } else {
        var b2 := b[p := BACKSLASH][p + 1 := b[p]];
        RewritePair(b, p, count);
        if |s| == 1 {
          after := b2;
        } else {
          WalkNewline(b, p, s, count);
          after := Walk(b2, p + 2, s[2..], count - 1);
        }
      }
    }
  }

  lemma {:induction false} NeverPast(s: Text)
    requires forall i :: 0 <= i < |s| ==> !IsNewline(s[i])
    ensures !PastEnd(s)
  {
    if s != [] {
      NeverPast(s[1..]);
    }
  }

  /** The loop stays inside the enlarged buffer and leaves the NUL at its end. */
  predicate StaysInside(s: Text, spare: Text) {
    var r := Rewrite(Enlarged(s, spare), 0, Newlines(s));
    r.Some? && |r.value| > 0 && r.value[|r.value| - 1] == NUL
  }

  /** Reallocated bytes that lead the loop out of the buffer, once it is behind the old NUL with
      newlines left to count. */
  lemma LedOutside(after: Text, len: nat, count: nat, spare: Text)
    requires count > 0 && spare != [] && |after| == len + |spare| + 2
    requires forall j :: 0 <= j < |spare| - 1 ==> spare[j] == 1
    requires spare[|spare| - 1] == LF && forall j :: 0 <= j < |spare| ==> after[len + 1 + j] == spare[j]
    ensures Rewrite(after, len + 1, count).None?
  {
    var m := len + |spare|;
    assert forall j :: len + 1 <= j < m ==> after[j] == spare[j - len - 1] == 1;
    assert after[m] == spare[|spare| - 1];
    RewritePasses(after, len + 1, m, count);
  }

  lemma OddEndLeaves(s: Text) returns (spare: Text)
    requires NoNul(s) && Adjacent(s) && PastEnd(s)
    ensures |spare| == Newlines(s) - 1 && !StaysInside(s, spare)
  {
    var count := Newlines(s);
    var i :| 0 <= i < |s| - 1 && IsNewline(s[i]) && IsNewline(s[i + 1]);
    InteriorCount(s, i, i + 1);
    MetIff(s);
    spare := seq(count - 2, _ => 1) + [LF];
    var b := Enlarged(s, spare);
    assert b[0..|s|] == s;
    var after := Walk(b, 0, s, count);
    LedOutside(after, |s|, count - Met(s), spare);
  }

  lemma EvenEndStays(s: Text, spare: Text)
    requires NoNul(s) && Newlines(s) > 0 && |spare| == Newlines(s) - 1
    requires !Adjacent(s) || !PastEnd(s)
    ensures StaysInside(s, spare)
  {
    MetIff(s);
    var b := Enlarged(s, spare);
    assert b[0..|s|] == s;
    var after := Walk(b, 0, s, Newlines(s));
    assert after[|b| - 1] == b[|b| - 1];
  }

  /** Whatever the reallocated bytes are, the loop stays inside the buffer, if and only if no two
      newlines of the text are adjacent or the text ends with an even run of newlines. */
  lemma EscapeInsideIff(s: Text)
    requires NoNul(s) && Newlines(s) > 0
    ensures (forall spare: Text :: |spare| == Newlines(s) - 1 ==> StaysInside(s, spare))
            <==> !(Adjacent(s) && TrailingRun(s) % 2 == 1)
  {
    PastEndIff(s);
    if Adjacent(s) && PastEnd(s) {
      var spare := OddEndLeaves(s);
    } else {
      forall spare: Text | |spare| == Newlines(s) - 1 ensures StaysInside(s, spare) {
        EvenEndStays(s, spare);
      }
    }
  }

  /** Three newlines and reallocated bytes 1 and LF. */
  lemma EscapeOutside()
    ensures EscapeAsWritten([LF, LF, LF], [1, LF]).None?
  {
    var s, spare: Text := [LF, LF, LF], [1, LF];
    var two, one: Text := [LF, LF], [LF];
    assert s[1..] == two && two[1..] == one && one[1..] == [];
    assert Newlines(one) == 1 && Newlines(two) == 2 && Newlines(s) == 3;
    var b := Enlarged(s, spare);
    assert b == [LF, LF, LF, NUL, 1, LF, NUL];
    var b2: Text := [BACKSLASH, LF, BACKSLASH, LF, 1, LF, NUL];
    var b1: Text := [BACKSLASH, LF, LF, NUL, 1, LF, NUL];
    assert b[0 := BACKSLASH][1 := b[0]] == b1 && b1[2 := BACKSLASH][3 := b1[2]] == b2;
    assert Rewrite(b, 0, 3) == Rewrite(b1, 2, 2) == Rewrite(b2, 4, 1);
    LedOutside(b2, 3, 1, spare);
  }

  /** Three newlines and reallocated bytes LF and 1: by chance, nothing is lost. */
  lemma EscapeByChance()
    ensures Undone([LF, LF, LF], [LF, 1])
  {
    var s, spare: Text := [LF, LF, LF], [LF, 1];
    var two, one: Text := [LF, LF], [LF];
    assert s[1..] == two && two[1..] == one && one[1..] == [];
    assert Newlines(one) == 1 && Newlines(two) == 2 && Newlines(s) == 3;
    var b := Enlarged(s, spare);
    assert b == [LF, LF, LF, NUL, LF, 1, NUL];
    var b1: Text := [BACKSLASH, LF, LF, NUL, LF, 1, NUL];
    var b2: Text := [BACKSLASH, LF, BACKSLASH, LF, LF, 1, NUL];
    var b3: Text := [BACKSLASH, LF, BACKSLASH, LF, BACKSLASH, LF, NUL];
    assert b[0 := BACKSLASH][1 := b[0]] == b1 && b1[2 := BACKSLASH][3 := b1[2]] == b2;
    assert b2[4 := BACKSLASH][5 := b2[4]] == b3;
    assert Rewrite(b, 0, 3) == Rewrite(b1, 2, 2) == Rewrite(b2, 4, 1) == Rewrite(b3, 6, 0) == Some(b3);
    CStringIs(b3, 6);
    assert Escape(one) == [BACKSLASH, LF] && Escape(two) == [BACKSLASH, LF, BACKSLASH, LF];
    assert Escape(s) == b3[..6];
    UnescapeEscape(s);
  }

  /** The method as written: it returns the buffer itself if there is nothing to escape, and a
      reallocated one otherwise. `inside` is false where the loop of the source leaves the buffer. */
  method EscapeNewlines(b: array<Byte>, len: nat, spare: Text) returns (r: array<Byte>, inside: bool)
    requires len < b.Length && NoNul(b[..len]) && b[len] == NUL
    requires |spare| == if Newlines(b[..len]) == 0 then 0 else Newlines(b[..len]) - 1
    ensures EscapeAsWritten(b[..len], spare) == if inside then Some(CString(r[..])) else None
    ensures Newlines(b[..len]) == 0 ==> r == b
  {
    ghost var s := b[..len];
    var count := CountNewlines(b, len);
    inside := true;
    if count == 0 {
      CStringIs(b[..], len);
      assert b[..][..len] == s;
      return b, inside;
    }
    var wide := Enlarged(b[..len], spare);
    r := new Byte[len + count + 1](i requires 0 <= i < |wide| => wide[i]);
    assert r[..] == Enlarged(s, spare);
    var p := 0;
    while inside && p < r.Length && r[p] != NUL && count != 0
      invariant Rewrite(r[..], p, count) == Rewrite(Enlarged(s, spare), 0, Newlines(s))
      invariant !inside ==> Rewrite(r[..], p, count).None?
      decreases inside, r.Length - p
    {
      if r[p] != LF && r[p] != CR {
        p := p + 1;
      } else if p + 1 < r.Length {
        ghost var before := r[..];
        r[p + 1] := r[p];
        r[p] := BACKSLASH;
        assert r[..] == before[p := BACKSLASH][p + 1 := before[p]];
        p := p + 2;
        count := count - 1;
      } else {
        inside := false;
      }
    }
    inside := inside && p < r.Length;
  }
}
