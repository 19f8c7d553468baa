// The check that a string is UTF-8: a state table, and what section 4 of
// RFC 3629 says.
module ProtoUtf8 {
  import opened ProtoWire

  // ----- The grammar of RFC 3629

  predicate Tail(c: Byte) {
    0x80 <= c <= 0xBF
  }

  // How many bytes a character has that begins so; 0 if none does
  function LengthOf(first: Byte): nat {
    if first <= 0x7F then 1
    else if 0xC2 <= first <= 0xDF then 2
    else if 0xE0 <= first <= 0xEF then 3
    else if 0xF0 <= first <= 0xF4 then 4
    else 0
  }

  // No longer form than needed, no surrogates, nothing past 0x10FFFF
  predicate Second(first: Byte, c: Byte) {
    && Tail(c)
    && (first == 0xE0 ==> 0xA0 <= c) && (first == 0xED ==> c <= 0x9F)
    && (first == 0xF0 ==> 0x90 <= c) && (first == 0xF4 ==> c <= 0x8F)
  }

  // The beginning of a character, or all of it
  predicate Begins(w: seq<Byte>) {
    && w != [] && |w| <= LengthOf(w[0]) && (|w| > 1 ==> Second(w[0], w[1]))
    && forall k :: 2 <= k < |w| ==> Tail(w[k])
  }

  predicate IsChar(w: seq<Byte>) {
    Begins(w) && |w| == LengthOf(w[0])
  }

  // A sequence of characters
  predicate IsUtf8(b: seq<Byte>) {
    b == [] || var n := LengthOf(b[0]); 0 < n <= |b| && IsChar(b[..n]) && IsUtf8(b[n..])
  }

  // The length of the characters that `b` begins with
  function Span(b: seq<Byte>): (n: nat)
    ensures n <= |b|
  {
    if b == [] then 0
    else
      var n := LengthOf(b[0]);
      if 0 < n <= |b| && IsChar(b[..n]) then n + Span(b[n..]) else 0
  }

  lemma {:induction false} SpanIsAll(b: seq<Byte>)
    ensures Span(b) == |b| <==> IsUtf8(b)
  {
    hide IsChar, LengthOf;
    if b != [] {
      var n := LengthOf(b[0]);
      if 0 < n <= |b| && IsChar(b[..n]) {
        SpanIsAll(b[n..]);
      }
    }
  }

  // ----- The state table

  // From here on, reasons to stop: an illegal byte, or a surrogate
  const ILLEGAL: nat := 240
  const REJECT: nat := 242

  // Row by row: the next state, where 0 is the one between characters
  function Table(state: nat, c: Byte): nat {
    if state == 0 then
      if c < 0x80 then 0
      else if c < 0xC2 then ILLEGAL
      else if c < 0xE0 then 1
      else if c == 0xE0 then 2
      else if c == 0xED then 7
      else if c < 0xF0 then 3
      else if c == 0xF0 then 4
      else if c < 0xF4 then 5
      else if c == 0xF4 then 6
      else ILLEGAL
    else if state == 1 then if 0x80 <= c < 0xC0 then 0 else ILLEGAL
    else if state == 2 then if 0xA0 <= c < 0xC0 then 1 else ILLEGAL
    else if state == 3 then if 0x80 <= c < 0xC0 then 1 else ILLEGAL
    else if state == 4 then if 0x90 <= c < 0xC0 then 3 else ILLEGAL
    else if state == 5 then if 0x80 <= c < 0xC0 then 3 else ILLEGAL
    else if state == 6 then if 0x80 <= c < 0x90 then 3 else ILLEGAL
    else if state == 7 then if 0x80 <= c < 0xA0 then 1 else if 0xA0 <= c < 0xC0 then 8 else ILLEGAL
    else if state == 8 then if 0x80 <= c < 0xC0 then REJECT else ILLEGAL
    else ILLEGAL
  }

  // The state in the middle of a character, of which `w` has been read
  function StateAt(w: seq<Byte>): nat
    requires w != []
  {
    var missing := LengthOf(w[0]) - |w|;
    if missing == 1 then if |w| > 1 || w[0] < 0xE0 then 1 else 0
    else if missing == 2 then
      if |w| > 1 then 3 else if w[0] == 0xE0 then 2 else if w[0] == 0xED then 7 else 3
    else if w[0] == 0xF0 then 4
    else if w[0] == 0xF4 then 6
    else 5
  }

  predicate HalfSurrogate(w: seq<Byte>) {
    |w| == 2 && w[0] == 0xED && 0xA0 <= w[1] < 0xC0
  }

  // What the state says of the bytes `w` since the last character
  predicate Knows(state: nat, w: seq<Byte>) {
    if w == [] then state == 0
    else if HalfSurrogate(w) then state == 8
    else Begins(w) && |w| < LengthOf(w[0]) && state == StateAt(w)
  }

  // One byte more: a character ends, goes on, or cannot be one.
  lemma TableStep(state: nat, w: seq<Byte>, c: Byte)
    requires Knows(state, w)
    ensures var next := Table(state, c);
            if next >= ILLEGAL then NoChar(w + [c])
            else if next == 0 then IsChar(w + [c])
            else Knows(next, w + [c])
  {
    var v := w + [c];
    if |w| > 1 && Begins(v) {
      assert Tail(v[|w|]);
    }
  }

  lemma BeginsBefore(w: seq<Byte>, more: seq<Byte>)
    requires Begins(w + more) && w != []
    ensures Begins(w)
  {
    var v := w + more;
    assert forall k :: 0 <= k < |w| ==> w[k] == v[k];
  }

  lemma SpanOfChar(w: seq<Byte>, rest: seq<Byte>)
    requires IsChar(w)
    ensures Span(w + rest) == |w| + Span(rest)
  {
    hide IsChar;
    assert (w + rest)[..|w|] == w && (w + rest)[|w|..] == rest;
    assert |w| == LengthOf(w[0]) && w != [] by { CharLength(w); }
  }

  lemma CharLength(w: seq<Byte>)
    requires IsChar(w)
    ensures w != [] && |w| == LengthOf(w[0])
  {
  }

  // Not the beginning of a character, nor anything longer
  predicate NoChar(w: seq<Byte>) {
    w != [] && !Begins(w) && (|w| <= LengthOf(w[0]) || LengthOf(w[0]) == 0)
  }

  predicate PartOfChar(w: seq<Byte>) {
    w != [] && |w| < LengthOf(w[0])
  }

  lemma NoSpan(w: seq<Byte>, rest: seq<Byte>)
    requires NoChar(w) || (PartOfChar(w) && rest == [])
    ensures Span(w + rest) == 0
  {
    hide Begins;
    var b := w + rest;
    var n := LengthOf(b[0]);
    if 0 < n <= |b| && IsChar(b[..n]) {
      assert b[..n] == w + b[..n][|w|..];
      BeginsBefore(w, b[..n][|w|..]);
    }
  }

  // ----- UTF8GenericScan

  // Back to the first byte of the character that is broken off
  method BackUp(b: seq<Byte>, p: nat, ghost start: nat) returns (q: nat)
    requires start < p <= |b| && LengthOf(b[start]) > 1 && forall k :: start < k < p ==> Tail(b[k])
    ensures q == start
  {
    q := p - 1;
    while q > 0 && Tail(b[q])
      invariant start <= q < p
    {
      q := q - 1;
    }
  }

  // Where the state table stops: behind the last whole character
  method GenericScan(b: seq<Byte>) returns (consumed: nat)
    ensures consumed == Span(b)
  {
    hide Span, LengthOf, Begins, StateAt, Table, IsChar;
    var src: nat, state: nat, e: nat := 0, 0, 0;
    ghost var start := 0;
    while src < |b| && e < ILLEGAL
      invariant 0 <= start <= src <= |b| && Span(b) == start + Span(b[start..])
      invariant if e >= ILLEGAL then start < src && Knows(state, b[start..src - 1]) && NoChar(b[start..src])
                else Knows(state, b[start..src])
    {
      ghost var w := b[start..src];
      TableStep(state, w, b[src]);
      assert b[start..src + 1] == w + [b[src]];
      e := Table(state, b[src]);
      src := src + 1;
      if e < ILLEGAL {
        state := e;
        if e == 0 {
          assert b[start..] == b[start..src] + b[src..];
          SpanOfChar(b[start..src], b[src..]);
          start := src;
        }
      }
    }
    if e >= ILLEGAL {
      src := src - 1;
      assert b[start..] == b[start..src + 1] + b[src + 1..];
      NoSpan(b[start..src + 1], b[src + 1..]);
    } else {
      assert b[start..] == b[start..src];
      NothingWhole(state, b[start..]);
    }
    if state == 0 {
      ZeroIsBetween(b[start..src]);
    } else {
      TailsFollow(state, b[start..src]);
      assert forall k :: start < k < src ==> b[k] == b[start..src][k - start];
      src := BackUp(b, src, start);
    }
    return src;
  }

  lemma NothingWhole(state: nat, w: seq<Byte>)
    requires Knows(state, w)
    ensures Span(w) == 0
  {
    hide StateAt, Begins;
    if w != [] {
      assert w + [] == w;
      NoSpan(w, []);
    }
  }

  lemma ZeroIsBetween(w: seq<Byte>)
    requires Knows(0, w)
    ensures w == []
  {
  }

  lemma TailsFollow(state: nat, w: seq<Byte>)
    requires Knows(state, w) && state != 0
    ensures w != [] && LengthOf(w[0]) > 1 && forall k :: 0 < k < |w| ==> Tail(w[k])
  {
  }
  // UTF8GenericScanFastAscii, which skips what is ASCII in front
  method ScanFastAscii(b: seq<Byte>) returns (consumed: nat)
    ensures consumed == Span(b)
  {
    hide Span;
    consumed := 0;
    while consumed < |b| && b[consumed] < 0x80
      invariant 0 <= consumed <= |b| && Span(b) == consumed + Span(b[consumed..])
    {
      assert b[consumed..] == [b[consumed]] + b[consumed + 1..];
      SpanOfChar([b[consumed]], b[consumed + 1..]);
      consumed := consumed + 1;
    }
    var n := GenericScan(b[consumed..]);
    consumed := consumed + n;
  }

  // IsStructurallyValidUTF8
  method IsStructurallyValid(b: seq<Byte>) returns (ok: bool)
    ensures ok == IsUtf8(b)
  {
    SpanIsAll(b);
    var consumed := ScanFastAscii(b);
    ok := consumed == |b|;
  }
}
