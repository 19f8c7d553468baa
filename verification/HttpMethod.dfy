// The method recogniser: guess from the first letter, correct on a mismatch.
module HttpMethod {
  import opened HttpChars
  import opened HttpTypes
  import opened HttpMachine
  import opened HttpBulk
  import opened HttpInvariant

  // The guess while `i` characters of the name of `m` have been read.
  function GuessOnTheWay(m: Method, i: nat): Method {
    match m
    case PUT | PATCH | PROPFIND => if i <= 1 then POST else m
    case PROPPATCH => if i <= 1 then POST else if i <= 4 then PROPFIND else m
    case PURGE => if i <= 1 then POST else if i <= 2 then PUT else m
    case CHECKOUT => if i <= 1 then CONNECT else m
    case COPY => if i <= 2 then CONNECT else m
    case MOVE | MERGE | MSEARCH => if i <= 1 then MKCOL else m
    case MKACTIVITY => if i <= 2 then MKCOL else m
    case MKCALENDAR => if i <= 3 then MKCOL else m
    case SEARCH => if i <= 1 then SUBSCRIBE else m
    case REBIND => if i <= 2 then REPORT else m
    case LINK => if i <= 1 then LOCK else m
    case UNSUBSCRIBE | UNBIND => if i <= 2 then UNLOCK else m
    case UNLINK => if i <= 3 then UNLOCK else m
    case _ => m
  }

  // The next guess: what the switch does with a character of a name.
  function NextGuess(m: Method, index: nat, ch: Octet): Guess {
    if ch == CharAt(MethodName(m), index) then Known(m) else MethodSwitch(m, index, ch)
  }

  predicate IsLetterOrDash(ch: char) {
    'A' <= ch <= 'Z' || ch == '-'
  }

  // The methods whose names begin with a letter up to M
  predicate InFirstHalf(m: Method) {
    match m
    case ACL | BIND | CHECKOUT | CONNECT | COPY | DELETE | GET | HEAD | LINK | LOCK => true
    case MERGE | MKACTIVITY | MKCALENDAR | MKCOL | MOVE | MSEARCH => true
    case _ => false
  }

  lemma NameChars(m: Method)
    ensures forall i :: 0 <= i < |MethodName(m)| ==> IsLetterOrDash(MethodName(m)[i])
  {
    hide MethodName;
    if InFirstHalf(m) {
      FirstNameChars(m);
    } else {
      SecondNameChars(m);
    }
  }

  lemma FirstNameChars(m: Method)
    requires InFirstHalf(m)
    ensures forall i :: 0 <= i < |MethodName(m)| ==> IsLetterOrDash(MethodName(m)[i])
  {
  }

  lemma SecondNameChars(m: Method)
    requires !InFirstHalf(m)
    ensures forall i :: 0 <= i < |MethodName(m)| ==> IsLetterOrDash(MethodName(m)[i])
  {
  }

  lemma FirstGuess(m: Method)
    ensures MethodName(m) != [] && MethodGuess(MethodName(m)[0]) == Known(GuessOnTheWay(m, 1))
  {
    hide MethodName, MethodGuess, GuessOnTheWay;
    if InFirstHalf(m) {
      GuessOfFirst(m);
    } else {
      GuessOfSecond(m);
    }
  }

  lemma GuessOfFirst(m: Method)
    requires InFirstHalf(m)
    ensures MethodName(m) != [] && MethodGuess(MethodName(m)[0]) == Known(GuessOnTheWay(m, 1))
  {
  }

  lemma GuessOfSecond(m: Method)
    requires !InFirstHalf(m)
    ensures MethodName(m) != [] && MethodGuess(MethodName(m)[0]) == Known(GuessOnTheWay(m, 1))
  {
  }

  // On the way through a name the guess never goes astray.
  lemma NextGuessOnTheWay(m: Method, i: nat)
    requires 1 <= i < |MethodName(m)|
    ensures NextGuess(GuessOnTheWay(m, i), i, MethodName(m)[i]) == Known(GuessOnTheWay(m, i + 1))
  {
    hide MethodName, MethodSwitch, GuessOnTheWay;
    if GuessOnTheWay(m, i) == m {
      GuessStays(m, i);
    } else if InFirstHalf(m) {
      FirstOnTheWay(m, i);
    } else {
      SecondOnTheWay(m, i);
    }
  }

  lemma GuessStays(m: Method, i: nat)
    requires GuessOnTheWay(m, i) == m
    ensures GuessOnTheWay(m, i + 1) == m
  {
  }

  lemma FirstOnTheWay(m: Method, i: nat)
    requires 1 <= i < |MethodName(m)| && GuessOnTheWay(m, i) != m && InFirstHalf(m)
    ensures NextGuess(GuessOnTheWay(m, i), i, MethodName(m)[i]) == Known(GuessOnTheWay(m, i + 1))
  {
  }

  lemma SecondOnTheWay(m: Method, i: nat)
    requires 1 <= i < |MethodName(m)| && GuessOnTheWay(m, i) != m && !InFirstHalf(m)
    ensures NextGuess(GuessOnTheWay(m, i), i, MethodName(m)[i]) == Known(GuessOnTheWay(m, i + 1))
  {
  }

  // A corrected guess agrees with the bytes read so far and with the new one.
  lemma SwitchKeepsPrefix(m: Method, i: nat, ch: Octet)
    requires i <= |MethodName(m)| && MethodSwitch(m, i, ch).Known?
    ensures var m' := MethodSwitch(m, i, ch).meth;
            i < |MethodName(m')| && MethodName(m')[i] == ch && MethodName(m')[..i] == MethodName(m)[..i]
  {
    hide MethodName, MethodSwitch;
    SwitchKeepsEach(m, i, ch);
  }

  lemma SwitchKeepsEach(m: Method, i: nat, ch: Octet)
    requires i <= |MethodName(m)| && MethodSwitch(m, i, ch).Known?
    ensures var m' := MethodSwitch(m, i, ch).meth;
            i < |MethodName(m')| && MethodName(m')[i] == ch && forall j :: 0 <= j < i ==> MethodName(m')[j] == MethodName(m)[j]
  {
    hide MethodName, MethodSwitch;
    if m.MKCOL? {
      SwitchFromMkcol(m, i, ch);
    } else if m.UNLOCK? {
      SwitchFromUnlock(m, i, ch);
    } else if m.POST? || m.PROPFIND? || m.PUT? {
      SwitchFromPost(m, i, ch);
    } else {
      SwitchFromOther(m, i, ch);
    }
  }

  lemma SwitchFromMkcol(m: Method, i: nat, ch: Octet)
    requires m.MKCOL?
    requires MethodSwitch(m, i, ch).Known? && i <= |MethodName(m)|
    ensures var m' := MethodSwitch(m, i, ch).meth;
            i < |MethodName(m')| && MethodName(m')[i] == ch && forall j :: 0 <= j < i ==> MethodName(m')[j] == MethodName(m)[j]
  {
  }

  lemma SwitchFromUnlock(m: Method, i: nat, ch: Octet)
    requires m.UNLOCK?
    requires MethodSwitch(m, i, ch).Known? && i <= |MethodName(m)|
    ensures var m' := MethodSwitch(m, i, ch).meth;
            i < |MethodName(m')| && MethodName(m')[i] == ch && forall j :: 0 <= j < i ==> MethodName(m')[j] == MethodName(m)[j]
  {
  }

  lemma SwitchFromPost(m: Method, i: nat, ch: Octet)
    requires m.POST? || m.PROPFIND? || m.PUT?
    requires MethodSwitch(m, i, ch).Known? && i <= |MethodName(m)|
    ensures var m' := MethodSwitch(m, i, ch).meth;
            i < |MethodName(m')| && MethodName(m')[i] == ch && forall j :: 0 <= j < i ==> MethodName(m')[j] == MethodName(m)[j]
  {
  }

  lemma SwitchFromOther(m: Method, i: nat, ch: Octet)
    requires !m.MKCOL? && !m.UNLOCK? && !m.POST? && !m.PROPFIND? && !m.PUT?
    requires MethodSwitch(m, i, ch).Known? && i <= |MethodName(m)|
    ensures var m' := MethodSwitch(m, i, ch).meth;
            i < |MethodName(m')| && MethodName(m')[i] == ch && forall j :: 0 <= j < i ==> MethodName(m')[j] == MethodName(m)[j]
  {
  }

  // ----- Runs

  // Every byte of `u` leaves the parser reading a method.
  predicate ReadingMethod(c: Config, u: seq<Octet>) {
    forall k :: 1 <= k <= |u| ==> Run(c, u[..k]).Go? && Run(c, u[..k]).ps.state.ReqMethod?
  }

  // A parser at the start of a request, with room for `n` more header bytes.
  predicate AtRequest(c: Config, n: nat) {
    c.Go? && c.ps.state == Starting(StartReq) && c.ps.nread + n <= MAX_HEADER_SIZE
  }

  // The configuration after `n` bytes of a method, with the guess `m`.
  function MethodConfig(c: Config, m: Method, n: nat, s: State): Config
    requires c.Go?
  {
    Go(c.ps.(flags := NO_FLAGS, contentLength := ULLONG_MAX, line := c.ps.line.(meth := m), index := n, state := s,
             nread := c.ps.nread + n),
       Emit(c.tr, MessageBegin), Outer, c.pos + n)
  }

  lemma StepFirstLetter(c: Config, ch: Octet)
    requires AtRequest(c, 1) && ch != CR && ch != LF
    ensures Step(c, ch) ==
            match MethodGuess(ch) case Known(m) => MethodConfig(c, m, 1, ReqMethod) case Unknown => Bad(InvalidMethod, c.pos)
  {
    hide Emit, Dispatch, MethodGuess;
    StepNext(c.ps, c.tr, c.lane, c.pos, ch);
    DispatchOnce(c.ps.(nread := c.ps.nread + 1), c.tr, c.lane, ch, c.pos);
  }

  lemma StepMethod(c: Config, m: Method, n: nat, ch: Octet)
    requires AtRequest(c, n + 1) && ch != NUL
    ensures var r := Step(MethodConfig(c, m, n, ReqMethod), ch);
            if ch == ' ' && CharAt(MethodName(m), n) == NUL then
              r == MethodConfig(c, m, n + 1, ReqSpacesBeforeUrl)
            else
              match NextGuess(m, n, ch)
              case Known(m') => r == MethodConfig(c, m', n + 1, ReqMethod)
              case Unknown => r == Bad(InvalidMethod, c.pos + n)
  {
    hide Emit, Dispatch, MethodName, MethodSwitch;
    var s := MethodConfig(c, m, n, ReqMethod);
    StepNext(s.ps, s.tr, s.lane, s.pos, ch);
    DispatchOnce(s.ps.(nread := s.ps.nread + 1), s.tr, s.lane, ch, s.pos);
  }

  // Reading the first `n` characters of a name.
  lemma {:induction false} RunName(c: Config, m: Method, n: nat)
    requires 1 <= n <= |MethodName(m)| && AtRequest(c, n)
    ensures Run(c, MethodName(m)[..n]) == MethodConfig(c, GuessOnTheWay(m, n), n, ReqMethod)
  {
    hide Step, Emit, MethodName, MethodGuess, GuessOnTheWay, MethodConfig, NextGuess;
    var w := MethodName(m);
    NameChars(m);
    assert IsLetterOrDash(w[n - 1]);
    if n == 1 {
      FirstGuess(m);
      assert w[..1] == [w[0]];
      RunOne(c, w[0]);
      StepFirstLetter(c, w[0]);
    } else {
      RunName(c, m, n - 1);
      NextGuessOnTheWay(m, n - 1);
      assert w[..n] == w[..n - 1] + [w[n - 1]];
      RunSnoc(c, w[..n - 1], w[n - 1]);
      StepMethod(c, GuessOnTheWay(m, n - 1), n - 1, w[n - 1]);
    }
  }

  // Bytes that start or continue no method
  lemma StepNoMethod(c: Config, m: Method, n: nat, ch: Octet)
    requires AtRequest(c, n + 1)
    ensures ch == CR || ch == LF ==> Step(c, ch).Go? && Step(c, ch).ps.state == Starting(StartReq)
    ensures ch == NUL ==> Step(MethodConfig(c, m, n, ReqMethod), ch).Bad?
  {
    hide Emit, Dispatch, MethodName, MethodSwitch, MethodGuess;
    var s := MethodConfig(c, m, n, ReqMethod);
    StepNext(c.ps, c.tr, c.lane, c.pos, ch);
    DispatchOnce(c.ps.(nread := c.ps.nread + 1), c.tr, c.lane, ch, c.pos);
    StepNext(s.ps, s.tr, s.lane, s.pos, ch);
    DispatchOnce(s.ps.(nread := s.ps.nread + 1), s.tr, s.lane, ch, s.pos);
  }

  lemma FirstLetterFits(ch: Octet)
    requires MethodGuess(ch).Known?
    ensures MethodName(MethodGuess(ch).meth) != [] && MethodName(MethodGuess(ch).meth)[0] == ch
  {
  }

  lemma NextFits(m: Method, n: nat, ch: Octet)
    requires n <= |MethodName(m)| && ch != NUL
    ensures var g := NextGuess(m, n, ch);
            g.Known? ==> n < |MethodName(g.meth)| && MethodName(g.meth)[..n] == MethodName(m)[..n] && MethodName(g.meth)[n] == ch
  {
    hide MethodName, MethodSwitch;
    if ch != CharAt(MethodName(m), n) && MethodSwitch(m, n, ch).Known? {
      SwitchKeepsPrefix(m, n, ch);
    }
  }

  // While a method is being read, its bytes are a prefix of the guessed name.
  lemma {:induction false} GuessHasPrefix(c: Config, u: seq<Octet>) returns (m: Method)
    requires u != [] && AtRequest(c, |u|) && ReadingMethod(c, u)
    ensures Run(c, u) == MethodConfig(c, m, |u|, ReqMethod)
    ensures |u| <= |MethodName(m)| && u == MethodName(m)[..|u|]
  {
    hide Step, Emit, MethodName, MethodGuess, MethodSwitch, NextGuess, Run;
    var n, init, ch := |u| - 1, u[..|u| - 1], u[|u| - 1];
    assert u == init + [ch] && u[..|u|] == u;
    if n == 0 {
      assert u == [ch];
      RunOne(c, ch);
      StepNoMethod(c, GET, 0, ch);
      StepFirstLetter(c, ch);
      FirstLetterFits(ch);
      m := MethodGuess(ch).meth;
    } else {
      forall k | 1 <= k <= n ensures Run(c, init[..k]).Go? && Run(c, init[..k]).ps.state.ReqMethod? {
        assert init[..k] == u[..k];
      }
      var g := GuessHasPrefix(c, init);
      RunSnoc(c, init, ch);
      StepNoMethod(c, g, n, ch);
      StepMethod(c, g, n, ch);
      NextFits(g, n, ch);
      m := NextGuess(g, n, ch).meth;
      assert MethodName(m)[..n + 1] == MethodName(m)[..n] + [MethodName(m)[n]];
    }
  }

  // The parser takes `u` and a space for the method `m`, and goes on to the URL.
  predicate Recognises(c: Config, u: seq<Octet>, m: Method) {
    && ReadingMethod(c, u)
    && Run(c, u + [' ']).Go?
    && Run(c, u + [' ']).ps.state.ReqSpacesBeforeUrl?
    && Run(c, u + [' ']).ps.line.meth == m
  }

  lemma NameIsRecognised(c: Config, m: Method)
    requires MethodName(m) != [] && AtRequest(c, |MethodName(m)| + 1)
    ensures Recognises(c, MethodName(m), m)
  {
    hide Step, Emit, MethodName, MethodGuess, GuessOnTheWay, NextGuess, Run;
    var u := MethodName(m);
    RunSnoc(c, u, ' ');
    forall k | 1 <= k <= |u| ensures Run(c, u[..k]).Go? && Run(c, u[..k]).ps.state.ReqMethod? {
      RunName(c, m, k);
    }
    assert u[..|u|] == u;
    RunName(c, m, |u|);
    GuessAtEnd(m);
    StepMethod(c, m, |u|, ' ');
  }

  lemma RecognisedIsName(c: Config, u: seq<Octet>, m: Method)
    requires u != [] && AtRequest(c, |u| + 1) && Recognises(c, u, m)
    ensures u == MethodName(m)
  {
    hide Step, Emit, MethodName, MethodGuess, NextGuess, Run, ReadingMethod;
    RunSnoc(c, u, ' ');
    var g := GuessHasPrefix(c, u);
    StepMethod(c, g, |u|, ' ');
    if CharAt(MethodName(g), |u|) == NUL {
      NameIsOver(g, |u|);
      assert MethodName(g)[..|u|] == MethodName(g);
    }
  }

  // A word is taken for a method exactly when it is that method's full name.
  lemma MethodRecogniser(c: Config, u: seq<Octet>, m: Method)
    requires u != [] && AtRequest(c, |u| + 1)
    ensures Recognises(c, u, m) <==> u == MethodName(m)
  {
    hide MethodName, Recognises;
    if u == MethodName(m) {
      NameIsRecognised(c, m);
    }
    if Recognises(c, u, m) {
      RecognisedIsName(c, u, m);
    }
  }

  lemma NameIsOver(m: Method, n: nat)
    requires n <= |MethodName(m)| && CharAt(MethodName(m), n) == NUL
    ensures n == |MethodName(m)|
  {
    hide MethodName;
    NameChars(m);
  }

  lemma GuessAtEnd(m: Method)
    ensures GuessOnTheWay(m, |MethodName(m)|) == m
  {
  }
}
