// Stack rotation by three reversals, as in lapi.c.
module LuaStack {
  // ----- Rotation

  // `s` turned by `n` places towards its end, what falls off coming back in front
  function Rotated<T>(s: seq<T>, n: int): (r: seq<T>)
    ensures |r| == |s|
  {
    seq(|s|, i requires 0 <= i < |s| => s[(i - n) % |s|])
  }

  lemma RemainderIs(x: int, k: nat, q: int, r: int)
    requires x == k * q + r && 0 <= r < k
    ensures x % k == r
  {
    var q', r' := x / k, x % k;
    assert x == k * q' + r';
    if q > q' {
      Apart(k, q, q');
    } else if q < q' {
      Apart(k, q', q);
    }
  }

  lemma Apart(k: nat, a: int, b: int)
    requires a > b
    ensures k * a - k * b >= k
  {
    var d := a - b;
    assert a == b + d;
    assert k * (b + d) == k * b + k * d;
    AtLeast(k, d);
  }

  lemma AtLeast(k: nat, d: int)
    requires d >= 1
    ensures k * d >= k
  {
    assert k * d == k + k * (d - 1);
  }

  lemma Periodic(i: int, q: int, k: nat)
    requires k > 0
    ensures (i + k * q) % k == i % k
  {
    assert i + k * q == k * (i / k + q) + i % k;
    RemainderIs(i + k * q, k, i / k + q, i % k);
  }

  // A remainder may be taken early.
  lemma Early(i: int, j: int, k: nat)
    requires k > 0
    ensures (i % k + j) % k == (i + j) % k
  {
    assert i % k + j == i + j + k * -(i / k);
    Periodic(i + j, -(i / k), k);
  }

  // Position i goes to position (i + n) modulo the length.
  lemma RotatedAt<T>(s: seq<T>, n: int, i: nat)
    requires i < |s|
    ensures Rotated(s, n)[(i + n) % |s|] == s[i]
  {
    Early(i + n, -n, |s|);
    RemainderIs(i, |s|, 0, i);
  }

  lemma RotatedTwiceAt<T>(s: seq<T>, n: int, m: int, i: nat)
    requires i < |s|
    ensures Rotated(Rotated(s, n), m)[i] == Rotated(s, n + m)[i]
  {
    hide Rotated;
    Early(i - m, -n, |s|);
    RotatedFrom(Rotated(s, n), m, i);
    RotatedFrom(s, n, (i - m) % |s|);
    RotatedFrom(s, n + m, i);
  }

  lemma RotatedTwice<T>(s: seq<T>, n: int, m: int)
    ensures Rotated(Rotated(s, n), m) == Rotated(s, n + m)
  {
    hide Rotated;
    forall i | 0 <= i < |s| ensures Rotated(Rotated(s, n), m)[i] == Rotated(s, n + m)[i] {
      RotatedTwiceAt(s, n, m, i);
    }
  }

  lemma RotatedFrom<T>(s: seq<T>, n: int, i: nat)
    requires i < |s|
    ensures Rotated(s, n)[i] == s[(i - n) % |s|]
  {
  }

  lemma RotatedByNothing<T>(s: seq<T>)
    ensures Rotated(s, 0) == s
  {
    forall i | 0 <= i < |s| ensures Rotated(s, 0)[i] == s[i] {
      RemainderIs(i, |s|, 0, i);
    }
  }

  // Rotating back undoes a rotation.
  lemma RotatedBack<T>(s: seq<T>, n: int)
    ensures Rotated(Rotated(s, n), -n) == s
  {
    hide Rotated;
    RotatedTwice(s, n, -n);
    RotatedByNothing(s);
  }

  lemma RotatedElement<T>(s: seq<T>, n: nat, i: nat)
    requires n <= |s| && i < |s|
    ensures Rotated(s, n)[i] == Rotated(s, n - |s|)[i] == s[if i < n then |s| - n + i else i - n]
  {
    RemainderIs(i - n, |s|, if i < n then -1 else 0, if i < n then i - n + |s| else i - n);
    Periodic(i - n, 1, |s|);
  }

  lemma RotatedIsCut<T>(s: seq<T>, n: nat)
    requires n <= |s|
    ensures Rotated(s, n) == s[|s| - n..] + s[..|s| - n] && Rotated(s, n - |s|) == Rotated(s, n)
  {
    hide Rotated;
    var cut := s[|s| - n..] + s[..|s| - n];
    forall i | 0 <= i < |s| ensures Rotated(s, n)[i] == Rotated(s, n - |s|)[i] == cut[i] {
      RotatedElement(s, n, i);
    }
  }

  // A rotation cuts the segment in two and exchanges the parts.
  lemma RotatedParts<T>(s: seq<T>, n: nat)
    requires n <= |s|
    ensures Rotated(s, n) == s[|s| - n..] + s[..|s| - n]
    ensures Rotated(s, n - |s|) == Rotated(s, n)
    ensures multiset(Rotated(s, n)) == multiset(s)
  {
    hide Rotated;
    RotatedIsCut(s, n);
    assert s == s[..|s| - n] + s[|s| - n..];
  }

  // ----- In place

  function Reversed<T>(s: seq<T>): (r: seq<T>)
    ensures |r| == |s|
  {
    seq(|s|, i requires 0 <= i < |s| => s[|s| - 1 - i])
  }

  // The three reversals: (A^r . B^r)^r == BA.
  lemma ThreeReversals<T>(a: seq<T>, b: seq<T>)
    ensures Reversed(Reversed(a) + Reversed(b)) == b + a
  {
  }

  // A sequence with the elements from `from` to `to` reversed
  function ReversedIn<T>(s: seq<T>, from: int, to: int): (r: seq<T>)
    requires 0 <= from <= to + 1 <= |s|
    ensures |r| == |s|
  {
    s[..from] + Reversed(s[from..to + 1]) + s[to + 1..]
  }

  lemma ReversedElements<T>(s: seq<T>, from: int, to: int)
    requires 0 <= from <= to + 1 <= |s|
    ensures var r := ReversedIn(s, from, to);
            forall k :: 0 <= k < |s| ==> r[k] == s[if from <= k <= to then from + to - k else k]
  {
  }

  method Reverse<T>(stack: array<T>, from: int, to: int)
    requires 0 <= from <= to + 1 <= stack.Length
    modifies stack
    ensures stack[..] == ReversedIn(old(stack[..]), from, to)
  {
    hide ReversedIn;
    ghost var was := stack[..];
    var i, j := from, to;
    while i < j
      invariant from <= i <= j + 1 <= to + 1 && i + j == from + to
      invariant forall k :: 0 <= k < stack.Length ==>
                  stack[k] == was[if from <= k < i || j < k <= to then from + to - k else k]
    {
      stack[i], stack[j] := stack[j], stack[i];
      i, j := i + 1, j - 1;
    }
    ReversedElements(was, from, to);
    assert |stack[..]| == |ReversedIn(was, from, to)|;
  }

  lemma ReversedTwiceThenWhole<T>(s: seq<T>, p: nat, m: int, top: nat)
    requires p <= m + 1 <= top <= |s|
    ensures ReversedIn(ReversedIn(ReversedIn(s, p, m), m + 1, top - 1), p, top - 1) ==
            s[..p] + (s[m + 1..top] + s[p..m + 1]) + s[top..]
  {
    hide Reversed;
    var below, a, b, above := s[..p], s[p..m + 1], s[m + 1..top], s[top..];
    var one := ReversedIn(s, p, m);
    assert one == below + Reversed(a) + b + above;
    var two := ReversedIn(one, m + 1, top - 1);
    assert one[m + 1..top] == b;
    assert two == below + Reversed(a) + Reversed(b) + above;
    assert two[p..top] == Reversed(a) + Reversed(b);
    ThreeReversals(a, b);
  }

  // A stack with the segment from `p` to `top` rotated, and the rest left alone
  function RotatedIn<T>(s: seq<T>, p: nat, top: nat, n: int): seq<T>
    requires p <= top <= |s|
  {
    s[..p] + Rotated(s[p..top], n) + s[top..]
  }

  // lua_rotate, on the segment from `p` to the top of the stack
  method Rotate<T>(stack: array<T>, top: nat, p: nat, n: int)
    requires p < top <= stack.Length && -(top - p) <= n <= top - p
    modifies stack
    ensures stack[..] == RotatedIn(old(stack[..]), p, top, n)
    ensures multiset(stack[..]) == multiset(old(stack[..]))
  {
    hide ReversedIn, RotatedIn;
    ghost var was := stack[..];
    var t := top - 1;
    var m := if n >= 0 then t - n else p - n - 1;
    ReversalsRotate(was, p, m, top, n);
    RotationKeeps(was, p, top, n);
    Reverse(stack, p, m);
    Reverse(stack, m + 1, t);
    Reverse(stack, p, t);
  }

  lemma PartsExchanged<T>(s: seq<T>, p: nat, m: int, top: nat, n: int)
    requires p < top <= |s| && -(top - p) <= n <= top - p
    requires m == if n >= 0 then top - 1 - n else p - n - 1
    ensures s[..p] + (s[m + 1..top] + s[p..m + 1]) + s[top..] == RotatedIn(s, p, top, n)
  {
    hide Rotated;
    var segment := s[p..top];
    RotatedIsCut(segment, if n >= 0 then n else n + |segment|);
    assert s[m + 1..top] == segment[m + 1 - p..] && s[p..m + 1] == segment[..m + 1 - p];
  }

  lemma ReversalsRotate<T>(s: seq<T>, p: nat, m: int, top: nat, n: int)
    requires p < top <= |s| && -(top - p) <= n <= top - p
    requires m == if n >= 0 then top - 1 - n else p - n - 1
    ensures ReversedIn(ReversedIn(ReversedIn(s, p, m), m + 1, top - 1), p, top - 1) == RotatedIn(s, p, top, n)
  {
    hide ReversedIn, RotatedIn;
    ReversedTwiceThenWhole(s, p, m, top);
    PartsExchanged(s, p, m, top, n);
  }

  lemma RotationKeeps<T>(s: seq<T>, p: nat, top: nat, n: int)
    requires p < top <= |s| && -(top - p) <= n <= top - p
    ensures multiset(RotatedIn(s, p, top, n)) == multiset(s)
  {
    hide Rotated;
    var segment := s[p..top];
    RotatedParts(segment, if n >= 0 then n else n + |segment|);
    assert s == s[..p] + segment + s[top..];
    SameElements(s[..p], segment, Rotated(segment, n), s[top..]);
  }

  lemma SameElements<T>(a: seq<T>, b: seq<T>, c: seq<T>, d: seq<T>)
    requires multiset(b) == multiset(c)
    ensures multiset(a + b + d) == multiset(a + c + d)
  {
  }
}
