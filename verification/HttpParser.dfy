// http_parser_execute: the parser as the source has it, with its fields
// updated in place, marks into the caller's buffer, the inner loops over header
// names and values, the fast skip, and bodies read in bulk.
module HttpParser {
  import opened HttpChars
  import opened HttpTypes
  import opened HttpMachine
  import opened HttpInvariant
  import opened HttpBulk

  // How one pass through the switch ends.
  datatype Exit = Break | Reexecute | Return | Error

  // A null mark.
  const NULL: int := -1

  // The bytes from a mark up to `end`.
  function Marked(data: seq<Octet>, mark: int, end: int): seq<Octet> {
    if 0 <= mark <= end <= |data| then data[mark..end] else []
  }

  // A trace with the data since a mark, if the mark is set.
  function Flush(tr: seq<Event>, kind: DataKind, data: seq<Octet>, mark: int, end: int): seq<Event> {
    if mark == NULL then tr else Emit(tr, Data(kind, Marked(data, mark, end)))
  }

  class HttpParser {
    var kind: ParserType
    var flags: Flags
    var state: State
    var headerState: HeaderState
    var index: nat
    var nread: nat
    var contentLength: nat
    var line: StartLine
    var upgrade: bool
    var errno: Errno
    const settings: Settings

    // Marks of the current call.
    var fieldMark: int
    var valueMark: int
    var urlMark: int
    var bodyMark: int
    var statusMark: int

    // Every callback made so far.
    ghost var calls: seq<Event>

    // The fields as a value.
    ghost function Fields(): Parser
      reads this
    {
      Parser(kind, flags, state, headerState, index, nread, contentLength, line, upgrade, settings)
    }

    ghost predicate NoMarks()
      reads `fieldMark, `valueMark, `urlMark, `bodyMark, `statusMark
    {
      fieldMark == NULL && valueMark == NULL && urlMark == NULL && bodyMark == NULL && statusMark == NULL
    }

    // A mark is set exactly where the state is in the middle of its data; a
    // body mark only inside a body.
    ghost predicate MarksOk(p: int)
      reads `state, `fieldMark, `valueMark, `urlMark, `bodyMark, `statusMark
    {
      && NULL <= fieldMark <= p && NULL <= valueMark <= p && NULL <= urlMark <= p && NULL <= bodyMark <= p
      && NULL <= statusMark <= p
      && (fieldMark != NULL <==> ShownIn(state) == Some(Field))
      && (valueMark != NULL <==> ShownIn(state) == Some(Value))
      && (urlMark != NULL <==> ShownIn(state) == Some(UrlData))
      && (statusMark != NULL <==> ShownIn(state) == Some(Status))
      && (bodyMark != NULL ==>
            state == InPayload(ChunkData) || state == InPayload(ChunkDataAlmostDone) ||
            state == InPayload(BodyIdentity) || state == InPayload(BodyIdentityEof))
    }

    // The joined trace if the leftover marks were flushed at `p`.
    ghost function Trace(data: seq<Octet>, p: int): seq<Event>
      reads `calls, `fieldMark, `valueMark, `urlMark, `bodyMark, `statusMark
    {
      var t := Join(calls);
      var t := Flush(t, Field, data, fieldMark, p);
      var t := Flush(t, Value, data, valueMark, p);
      var t := Flush(t, UrlData, data, urlMark, p);
      var t := Flush(t, Body, data, bodyMark, p);
      Flush(t, Status, data, statusMark, p)
    }

    // Between calls.
    ghost predicate Valid()
      reads this
    {
      errno.NoError? ==> Resting(Fields()) && TraceOk(state, Join(calls))
    }

    // http_parser_init
    constructor (kind: ParserType, settings: Settings)
      ensures Valid() && errno.NoError? && calls == []
      ensures Fields() == Init(kind, settings)
    {
      this.kind, this.settings := kind, settings;
      flags, headerState, index, nread, contentLength := NO_FLAGS, General, 0, 0, 0;
      line, upgrade, errno := StartLine(0, 0, 0, DELETE), false, NoError;
      state := if kind.Request? then Starting(StartReq)
               else if kind.Response? then Starting(StartRes) else Starting(StartReqOrRes);
      fieldMark, valueMark, urlMark, bodyMark, statusMark := NULL, NULL, NULL, NULL, NULL;
      calls := [];
      new;
      InitIsResting(kind, settings);
    }

    // CALLBACK_NOTIFY
    ghost method Notify(e: Event)
      requires errno.NoError?
      modifies `calls
      ensures Join(calls) == Emit(Join(old(calls)), e)
    {
      JoinAppend(calls, e);
      calls := calls + [e];
    }

    // CALLBACK_DATA: reports the bytes from the mark up to `end`, if it is set.
    ghost method Report(k: DataKind, data: seq<Octet>, mark: int, end: nat)
      requires errno.NoError?
      modifies `calls
      ensures Join(calls) == Flush(Join(old(calls)), k, data, mark, end)
    {
      if mark != NULL {
        Notify(Data(k, Marked(data, mark, end)));
      }
    }

    ghost function MarkOf(k: DataKind): int
      reads `fieldMark, `valueMark, `urlMark, `bodyMark, `statusMark
    {
      match k
      case Field => fieldMark
      case Value => valueMark
      case UrlData => urlMark
      case Body => bodyMark
      case Status => statusMark
    }

    // ----- The switch, one group of cases at a time

    // Only marks of kind `k` may be set, and they are just where the state is
    // in the middle of such data.
    ghost predicate OnlyMark(k: DataKind, p: int)
      reads `state, `fieldMark, `valueMark, `urlMark, `bodyMark, `statusMark
    {
      && (k != Field ==> fieldMark == NULL) && (k != Value ==> valueMark == NULL) && (k != UrlData ==> urlMark == NULL)
      && (k != Body ==> bodyMark == NULL) && (k != Status ==> statusMark == NULL)
      && NULL <= MarkOf(k) <= p
      && ShownIn(state) == (if MarkOf(k) == NULL then Nothing else Some(k))
    }

    // A case that collects no data did with its byte what the reference does.
    ghost predicate Agrees(exit: Exit, act: Act)
      reads this
    {
      match act
      case Next(ps, tr) => exit.Break? && errno.NoError? && Fields() == ps && Join(calls) == tr && ShownIn(state).Nothing?
      case Again(ps, tr) =>
        exit.Reexecute? && errno.NoError? && Fields() == ps && Join(calls) == tr && ShownIn(state).Nothing?
      case Leave(ps, tr) => exit.Return? && errno.NoError? && Fields() == ps && Join(calls) == tr
      case Err(e) => exit.Error? && errno == e
    }

    // A case that collects data of kind `k` did with byte `p` what the reference does.
    ghost predicate AgreesOn(k: DataKind, exit: Exit, act: Act, data: seq<Octet>, p: nat)
      reads this
    {
      match act
      case Next(ps, tr) =>
        && exit.Break? && errno.NoError? && Fields() == ps
        && Flush(Join(calls), k, data, MarkOf(k), p + 1) == tr
        && OnlyMark(k, p)
      case Again(ps, tr) =>
        && exit.Reexecute? && errno.NoError? && Fields() == ps
        && Join(calls) == tr
        && NoMarks() && ShownIn(state).Nothing?
      case Leave(ps, tr) => false
      case Err(e) => exit.Error? && errno == e
    }

    method StartResCase(ch: Octet, ghost tr: seq<Event>) returns (exit: Exit)
      requires state == Starting(StartRes) && errno.NoError? && Join(calls) == tr
      modifies `flags, `state, `contentLength, `errno, `calls
      ensures Agrees(exit, StartStep(old(Fields()), tr, ch))
    {
      hide Emit;
      flags := NO_FLAGS;
      contentLength := ULLONG_MAX;
      if ch == 'H' {
        state := ResponseLine(ResH);
      } else if ch != CR && ch != LF {
        errno := InvalidConstant;
        return Error;
      }
      Notify(MessageBegin);
      return Break;
    }

    method StartReqCase(ch: Octet, ghost tr: seq<Event>) returns (exit: Exit)
      requires state == Starting(StartReq) && errno.NoError? && Join(calls) == tr
      modifies `flags, `state, `index, `contentLength, `line, `errno, `calls
      ensures Agrees(exit, StartStep(old(Fields()), tr, ch))
    {
      hide Emit, MethodGuess;
      if ch == CR || ch == LF { return Break; }
      flags := NO_FLAGS;
      contentLength := ULLONG_MAX;
      match MethodGuess(ch) {
        case Known(m) =>
          line := line.(meth := m);
          index := 1;
        case Unknown =>
          errno := InvalidMethod;
          return Error;
      }
      state := ReqMethod;
      Notify(MessageBegin);
      return Break;
    }

    method StartCase(ch: Octet, ghost tr: seq<Event>) returns (exit: Exit)
      requires state.Starting? && errno.NoError? && Join(calls) == tr
      modifies `kind, `flags, `state, `index, `contentLength, `line, `errno, `calls
      ensures Agrees(exit, StartStep(old(Fields()), tr, ch))
    {
      hide Emit, MethodGuess;
      exit := Break;
      match state.start {
        case Dead =>
          if ch != CR && ch != LF {
            errno := ClosedConnection;
            return Error;
          }
        case StartReqOrRes =>
          if ch == CR || ch == LF { return; }
          flags := NO_FLAGS;
          contentLength := ULLONG_MAX;
          if ch == 'H' {
            state := Starting(ResOrRespH);
            Notify(MessageBegin);
          } else {
            kind := Request;
            state := Starting(StartReq);
            exit := Reexecute;
          }
        case ResOrRespH =>
          if ch == 'T' {
            kind := Response;
            state := ResponseLine(ResHT);
          } else {
            if ch != 'E' {
              errno := InvalidConstant;
              return Error;
            }
            kind := Request;
            line := line.(meth := HEAD);
            index := 2;
            state := ReqMethod;
          }
        case StartRes => exit := StartResCase(ch, tr);
        case StartReq => exit := StartReqCase(ch, tr);
      }
    }

    // "HTTP/major.minor " of a response
    method ResponseVersionCase(ch: Octet, ghost tr: seq<Event>) returns (exit: Exit)
      requires state.ResponseLine? && errno.NoError? && Join(calls) == tr
      requires state.response.ResH? || state.response.ResHT? || state.response.ResHTT? || state.response.ResHTTP? ||
               state.response.ResFirstMajor? || state.response.ResMajor? || state.response.ResFirstMinor? ||
               state.response.ResMinor?
      modifies `state, `line, `errno
      ensures Agrees(exit, ResponseLineStep(old(Fields()), tr, ch))
    {
      hide FirstMajorStep, MajorStep, FirstMinorStep, MinorStep;
      var s := state.response;
      if s == ResH {
        exit := Strict(ch == 'T', ResponseLine(ResHT));
      } else if s == ResHT {
        exit := Strict(ch == 'T', ResponseLine(ResHTT));
      } else if s == ResHTT {
        exit := Strict(ch == 'P', ResponseLine(ResHTTP));
      } else if s == ResHTTP {
        exit := Strict(ch == '/', ResponseLine(ResFirstMajor));
      } else if s == ResFirstMajor {
        exit := FirstMajorDigit(ch, ResponseLine(ResMajor), tr);
      } else if s == ResMajor {
        exit := MajorCase(ch, ResponseLine(ResFirstMinor), tr);
      } else if s == ResFirstMinor {
        exit := FirstMinorDigit(ch, ResponseLine(ResMinor), tr);
      } else if ch == ' ' {
        state := ResponseLine(ResFirstStatusCode);
        exit := Break;
      } else {
        exit := MinorDigit(ch, tr);
      }
    }

    // STRICT_CHECK and the state after it
    method Strict(ok: bool, next: State) returns (exit: Exit)
      modifies `state, `errno
      ensures if ok then exit == Break && state == next && errno == old(errno)
              else exit == Error && state == old(state) && errno == StrictCheck
    {
      if !ok {
        errno := StrictCheck;
        return Error;
      }
      state := next;
      return Break;
    }

    // The first digit of the major version
    method FirstMajorDigit(ch: Octet, next: State, ghost tr: seq<Event>) returns (exit: Exit)
      requires errno.NoError? && Join(calls) == tr && ShownIn(next).Nothing?
      modifies `state, `line, `errno
      ensures Agrees(exit, FirstMajorStep(old(Fields()), tr, ch, next))
    {
      if ch < '0' || ch > '9' {
        errno := InvalidVersion;
        return Error;
      }
      line := line.(major := ch as nat - '0' as nat);
      state := next;
      return Break;
    }

    // A further digit of the major version, or the dot after it
    method MajorCase(ch: Octet, next: State, ghost tr: seq<Event>) returns (exit: Exit)
      requires errno.NoError? && Join(calls) == tr && ShownIn(next).Nothing? && ShownIn(state).Nothing?
      modifies `state, `line, `errno
      ensures Agrees(exit, MajorStep(old(Fields()), tr, ch, next))
    {
      if ch == '.' {
        state := next;
        return Break;
      }
      if !IsNum(ch) {
        errno := InvalidVersion;
        return Error;
      }
      line := line.(major := line.major * 10);
      line := line.(major := line.major + (ch as nat - '0' as nat));
      if line.major > 999 {
        errno := InvalidVersion;
        return Error;
      }
      return Break;
    }

    // The first digit of the minor version
    method FirstMinorDigit(ch: Octet, next: State, ghost tr: seq<Event>) returns (exit: Exit)
      requires errno.NoError? && Join(calls) == tr && ShownIn(next).Nothing?
      modifies `state, `line, `errno
      ensures Agrees(exit, FirstMinorStep(old(Fields()), tr, ch, next))
    {
      if !IsNum(ch) {
        errno := InvalidVersion;
        return Error;
      }
      line := line.(minor := ch as nat - '0' as nat);
      state := next;
      return Break;
    }

    // A further digit of the minor version
    method MinorDigit(ch: Octet, ghost tr: seq<Event>) returns (exit: Exit)
      requires errno.NoError? && Join(calls) == tr && ShownIn(state).Nothing?
      modifies `line, `errno
      ensures Agrees(exit, MinorStep(old(Fields()), tr, ch))
    {
      if !IsNum(ch) {
        errno := InvalidVersion;
        return Error;
      }
      line := line.(minor := line.minor * 10);
      line := line.(minor := line.minor + (ch as nat - '0' as nat));
      if line.minor > 999 {
        errno := InvalidVersion;
        return Error;
      }
      return Break;
    }

    method StatusCodeCase(ch: Octet, ghost tr: seq<Event>) returns (exit: Exit)
      requires state.ResponseLine? && errno.NoError? && Join(calls) == tr
      requires state.response.ResFirstStatusCode? || state.response.ResStatusCode? || state.response.ResLineAlmostDone?
      modifies `state, `line, `errno
      ensures Agrees(exit, ResponseLineStep(old(Fields()), tr, ch))
    {
      exit := Break;
      if state.response == ResFirstStatusCode {
        if !IsNum(ch) {
          if ch == ' ' { return; }
          errno := InvalidStatus;
          return Error;
        }
        line := line.(status := ch as nat - '0' as nat);
        state := ResponseLine(ResStatusCode);
      } else if state.response == ResStatusCode {
        if !IsNum(ch) {
          if ch == ' ' {
            state := ResponseLine(ResStatusStart);
          } else if ch == CR {
            state := ResponseLine(ResLineAlmostDone);
          } else if ch == LF {
            state := InHeader(FieldStart);
          } else {
            errno := InvalidStatus;
            return Error;
          }
          return;
        }
        line := line.(status := line.status * 10);
        line := line.(status := line.status + (ch as nat - '0' as nat));
        if line.status > 999 {
          errno := InvalidStatus;
          return Error;
        }
      } else {
        exit := Strict(ch == LF, InHeader(FieldStart));
      }
    }

    // s_res_status_start
    method StatusStartCase(data: seq<Octet>, p: nat, ghost tr: seq<Event>) returns (exit: Exit)
      requires p < |data| && errno.NoError? && state == ResponseLine(ResStatusStart)
      requires NoMarks() && Join(calls) == tr
      modifies `state, `index, `statusMark
      ensures AgreesOn(Status, exit, ResponseLineStep(old(Fields()), tr, data[p]), data, p)
    {
      hide Emit, Flush;
      FlushOneMore(tr, Status, data, NULL, p);
      if data[p] == CR {
        state := ResponseLine(ResLineAlmostDone);
        return Break;
      }
      if data[p] == LF {
        state := InHeader(FieldStart);
        return Break;
      }
      if statusMark == NULL { statusMark := p; }
      state := ResponseLine(ResStatus);
      index := 0;
      return Break;
    }

    // s_res_status
    method StatusTextCase(data: seq<Octet>, p: nat, ghost tr: seq<Event>) returns (exit: Exit)
      requires p < |data| && errno.NoError? && state == ResponseLine(ResStatus)
      requires OnlyMark(Status, p) && Flush(Join(calls), Status, data, statusMark, p) == tr
      modifies `state, `calls, `statusMark
      ensures AgreesOn(Status, exit, ResponseLineStep(old(Fields()), tr, data[p]), data, p)
    {
      hide Emit, Flush;
      FlushOneMore(Join(calls), Status, data, statusMark, p);
      FlushOneMore(tr, Status, data, NULL, p);
      if data[p] == CR {
        state := ResponseLine(ResLineAlmostDone);
        Report(Status, data, statusMark, p);
        statusMark := NULL;
      } else if data[p] == LF {
        state := InHeader(FieldStart);
        Report(Status, data, statusMark, p);
        statusMark := NULL;
      }
      return Break;
    }

    method MethodCase(ch: Octet, ghost tr: seq<Event>) returns (exit: Exit)
      requires state.ReqMethod? && errno.NoError? && Join(calls) == tr
      modifies `state, `line, `index, `errno
      ensures Agrees(exit, MethodStep(old(Fields()), tr, ch))
    {
      hide MethodName;
      if ch == NUL {
        errno := InvalidMethod;
        return Error;
      }
      var matcher := MethodName(line.meth);
      if ch == ' ' && CharAt(matcher, index) == NUL {
        state := ReqSpacesBeforeUrl;
      } else if ch == CharAt(matcher, index) {
      } else {
        match MethodSwitch(line.meth, index, ch) {
          case Known(m) => line := line.(meth := m);
          case Unknown =>
            errno := InvalidMethod;
            return Error;
        }
      }
      index := index + 1;
      return Break;
    }

    // s_req_spaces_before_url
    method UrlStartCase(data: seq<Octet>, p: nat, ghost tr: seq<Event>) returns (exit: Exit)
      requires p < |data| && errno.NoError? && state == ReqSpacesBeforeUrl
      requires NoMarks() && Join(calls) == tr
      modifies `state, `errno, `urlMark
      ensures AgreesOn(UrlData, exit, UrlStartStep(old(Fields()), tr, data[p]), data, p)
    {
      hide UrlChar, FirstUrlChar, Emit, Flush;
      FlushOneMore(tr, UrlData, data, NULL, p);
      var ch := data[p];
      if ch == ' ' { return Break; }
      if urlMark == NULL { urlMark := p; }
      var r := if line.meth.CONNECT? then UrlChar(ReqServerStart, ch) else FirstUrlChar(ch);
      if r.UrlDead? {
        errno := InvalidUrl;
        return Error;
      }
      state := InUrl(r.state);
      return Break;
    }

    // The end of a URL
    method UrlEndCase(data: seq<Octet>, p: nat, ghost tr: seq<Event>) returns (exit: Exit)
      requires p < |data| && errno.NoError? && state.InUrl? && (data[p] == ' ' || data[p] == CR || data[p] == LF)
      requires OnlyMark(UrlData, p) && Flush(Join(calls), UrlData, data, urlMark, p) == tr
      modifies `state, `line, `errno, `calls, `urlMark
      ensures AgreesOn(UrlData, exit, UrlStep(old(Fields()), tr, data[p]), data, p)
    {
      hide UrlByte, Emit, Flush;
      FlushOneMore(tr, UrlData, data, NULL, p);
      if BeforeHost(state.url) {
        errno := InvalidUrl;
        return Error;
      }
      if data[p] == ' ' {
        state := RequestVersion(ReqHttpStart);
      } else {
        line := line.(major := 0, minor := 9);
        state := if data[p] == CR then RequestVersion(ReqLineAlmostDone) else InHeader(FieldStart);
      }
      Report(UrlData, data, urlMark, p);
      urlMark := NULL;
      return Break;
    }

    // The states of parse_url_char
    method UrlCase(data: seq<Octet>, p: nat, ghost tr: seq<Event>) returns (exit: Exit)
      requires p < |data| && errno.NoError? && state.InUrl?
      requires OnlyMark(UrlData, p) && Flush(Join(calls), UrlData, data, urlMark, p) == tr
      modifies `state, `line, `errno, `calls, `urlMark
      ensures AgreesOn(UrlData, exit, UrlStep(old(Fields()), tr, data[p]), data, p)
    {
      hide UrlChar, Emit, Flush;
      var ch := data[p];
      if ch == ' ' || ch == CR || ch == LF {
        exit := UrlEndCase(data, p, tr);
        return;
      }
      FlushOneMore(Join(calls), UrlData, data, urlMark, p);
      var r := UrlChar(state.url, ch);
      if r.UrlDead? {
        errno := InvalidUrl;
        return Error;
      }
      state := InUrl(r.state);
      return Break;
    }

    // "HTTP/" of a request
    method RequestHttpCase(ch: Octet, ghost tr: seq<Event>) returns (exit: Exit)
      requires state.RequestVersion? && errno.NoError? && Join(calls) == tr
      requires state.version.ReqHttpStart? || state.version.ReqH? || state.version.ReqHT? || state.version.ReqHTT? ||
               state.version.ReqHTTP?
      modifies `state, `errno
      ensures Agrees(exit, RequestVersionStep(old(Fields()), tr, ch))
    {
      if state.version.ReqHttpStart? {
        if ch == 'H' {
          state := RequestVersion(ReqH);
        } else if ch != ' ' {
          errno := InvalidConstant;
          return Error;
        }
        return Break;
      }
      if state.version.ReqH? {
        exit := Strict(ch == 'T', RequestVersion(ReqHT));
      } else if state.version.ReqHT? {
        exit := Strict(ch == 'T', RequestVersion(ReqHTT));
      } else if state.version.ReqHTT? {
        exit := Strict(ch == 'P', RequestVersion(ReqHTTP));
      } else {
        exit := Strict(ch == '/', RequestVersion(ReqFirstMajor));
      }
    }

    // The version of a request, and the end of its line
    method RequestVersionCase(ch: Octet, ghost tr: seq<Event>) returns (exit: Exit)
      requires state.RequestVersion? && errno.NoError? && Join(calls) == tr
      requires state.version.ReqFirstMajor? || state.version.ReqMajor? || state.version.ReqFirstMinor? ||
               state.version.ReqMinor? || state.version.ReqLineAlmostDone?
      modifies `state, `line, `errno
      ensures Agrees(exit, RequestVersionStep(old(Fields()), tr, ch))
    {
      hide FirstMajorStep, MajorStep, FirstMinorStep, MinorStep;
      if state.version.ReqFirstMajor? {
        if ch == '0' {
          errno := InvalidVersion;
          return Error;
        }
        exit := FirstMajorDigit(ch, RequestVersion(ReqMajor), tr);
      } else if state.version.ReqMajor? {
        exit := MajorCase(ch, RequestVersion(ReqFirstMinor), tr);
      } else if state.version.ReqFirstMinor? {
        exit := FirstMinorDigit(ch, RequestVersion(ReqMinor), tr);
      } else if state.version.ReqMinor? {
        if ch == CR {
          state := RequestVersion(ReqLineAlmostDone);
          return Break;
        }
        if ch == LF {
          state := InHeader(FieldStart);
          return Break;
        }
        exit := MinorDigit(ch, tr);
      } else {
        if ch != LF {
          errno := LfExpected;
          return Error;
        }
        state := InHeader(FieldStart);
        return Break;
      }
    }

    // The names that a first letter leaves possible
    method PickNames(c: Octet)
      modifies `headerState
      ensures headerState == FieldInitial(c)
    {
      match c {
        case 'c' => headerState := C;
        case 'p' => headerState := MatchingProxyConnection;
        case 't' => headerState := MatchingTransferEncoding;
        case 'u' => headerState := MatchingUpgrade;
        case _ => headerState := General;
      }
    }

    method FieldStartCase(data: seq<Octet>, p: nat, ghost tr: seq<Event>) returns (exit: Exit)
      requires p < |data| && errno.NoError?
      requires state == InHeader(FieldStart)
      requires NoMarks() && Join(calls) == tr
      modifies `state, `headerState, `index, `errno, `fieldMark
      ensures AgreesOn(Field, exit, FieldStartStep(old(Fields()), tr, data[p]), data, p)
    {
      hide Token, Emit, Flush, FieldInitial;
      FlushOneMore(tr, Field, data, NULL, p);
      var ch := data[p];
      if ch == CR {
        state := InHeader(HeadersAlmostDone);
        return Break;
      }
      if ch == LF {
        state := InHeader(HeadersAlmostDone);
        return Reexecute;
      }
      var c := Token(ch);
      if c == NUL {
        errno := InvalidHeaderToken;
        return Error;
      }
      if fieldMark == NULL { fieldMark := p; }
      index := 0;
      state := InHeader(FieldName);
      PickNames(c);
      return Break;
    }

    // s_header_value_start
    method ValueStartCase(data: seq<Octet>, p: nat, ghost tr: seq<Event>) returns (exit: Exit)
      requires p < |data| && errno.NoError?
      requires state == InHeader(ValueStart) || state == InHeader(ValueDiscardWs)
      requires NoMarks() && Join(calls) == tr
      modifies `state, `flags, `headerState, `index, `contentLength, `errno, `valueMark
      ensures AgreesOn(Value, exit, ValueStartStep(old(Fields()), tr, data[p]), data, p)
    {
      hide Emit, Flush, Lower, ValueStartStep, ShownIn;
      if valueMark == NULL { valueMark := p; }
      state := InHeader(ValueText);
      index := 0;
      ValueTextShows();
      ValueStartIgnoresState(old(Fields()), state, index, tr, data[p]);
      FlushOneMore(tr, Value, data, NULL, p);
      exit := PickMatcher(data[p], tr);
      if exit.Error? { return; }
    }

    // The matcher for the rest of a value that is no Content-Length or Upgrade
    method PickWords(c: Octet)
      modifies `headerState
      ensures headerState == ValueInitial(old(headerState), c)
    {
      match headerState {
        case TransferEncoding => headerState := if c == 'c' then MatchingChunked else General;
        case Connection =>
          if c == 'k' {
            headerState := MatchingKeepAlive;
          } else if c == 'c' {
            headerState := MatchingClose;
          } else if c == 'u' {
            headerState := MatchingConnectionUpgrade;
          } else {
            headerState := ConnectionToken;
          }
        case TokenStart =>
        case _ => headerState := General;
      }
    }

    // The matcher for the rest of the value, from its first byte.
    method PickMatcher(ch: Octet, ghost tr: seq<Event>) returns (exit: Exit)
      requires errno.NoError? && state == InHeader(ValueText) && index == 0
      modifies `flags, `headerState, `contentLength, `errno
      ensures match ValueStartStep(old(Fields()), tr, ch)
              case Next(ps, shown) =>
                exit.Break? && errno.NoError? && Fields() == ps && shown == Emit(tr, Data(Value, [ch]))
              case Err(e) => exit.Error? && errno == e
              case _ => false
    {
      hide Emit, Lower, ValueInitial;
      if headerState.Upgrade? {
        flags := flags.(upgrade := true);
        headerState := General;
      } else if headerState.ContentLength? {
        if !IsNum(ch) {
          errno := InvalidContentLength;
          return Error;
        }
        if flags.contentLength {
          errno := UnexpectedContentLength;
          return Error;
        }
        flags := flags.(contentLength := true);
        contentLength := ch as nat - '0' as nat;
      } else {
        PickWords(Lower(ch));
      }
      return Break;
    }

    // s_header_value_discard_ws
    method ValueDiscardCase(data: seq<Octet>, p: nat, ghost tr: seq<Event>) returns (exit: Exit)
      requires p < |data| && errno.NoError?
      requires state == InHeader(ValueDiscardWs)
      requires NoMarks() && Join(calls) == tr
      modifies `state, `flags, `headerState, `index, `contentLength, `errno, `valueMark
      ensures AgreesOn(Value, exit, ValueDiscardStep(old(Fields()), tr, data[p]), data, p)
    {
      hide ValueStartStep;
      var ch := data[p];
      if ch == ' ' || ch == TAB { return Break; }
      if ch == CR {
        state := InHeader(ValueDiscardWsAlmostDone);
        return Break;
      }
      if ch == LF {
        state := InHeader(ValueDiscardLws);
        return Break;
      }
      exit := ValueStartCase(data, p, tr);
    }

    // The option named by a value that has just ended.
    method NoteValue()
      modifies `flags
      ensures flags == NoteOption(old(flags), headerState)
    {
      match headerState {
        case ConnectionKeepAlive => flags := flags.(keepAlive := true);
        case ConnectionClose => flags := flags.(close := true);
        case Chunked => flags := flags.(chunked := true);
        case ConnectionUpgrade => flags := flags.(connectionUpgrade := true);
        case _ =>
      }
    }

    // s_header_value_discard_lws
    method ValueDiscardLwsCase(data: seq<Octet>, p: nat, ghost tr: seq<Event>) returns (exit: Exit)
      requires p < |data| && errno.NoError?
      requires state == InHeader(ValueDiscardLws)
      requires NoMarks() && Join(calls) == tr
      modifies `state, `flags, `calls, `valueMark
      ensures AgreesOn(Value, exit, ValueDiscardLwsStep(old(Fields()), tr, data[p]), data, p)
    {
      hide Emit, NoteOption;
      var ch := data[p];
      if ch == ' ' || ch == TAB {
        state := InHeader(ValueDiscardWs);
        return Break;
      }
      NoteValue();
      // The value was empty.
      assert Marked(data, p, p) == [];
      if valueMark == NULL { valueMark := p; }
      state := InHeader(FieldStart);
      Report(Value, data, valueMark, p);
      valueMark := NULL;
      return Reexecute;
    }

    // s_header_almost_done, s_header_value_lws and s_header_value_discard_ws_almost_done
    method LineEndCase(ch: Octet, ghost tr: seq<Event>) returns (exit: Exit)
      requires errno.NoError? && Join(calls) == tr
      requires state == InHeader(HeaderAlmostDone) || state == InHeader(ValueLws) || state == InHeader(ValueDiscardWsAlmostDone)
      modifies `state, `flags, `errno
      ensures Agrees(exit, HeaderStep(old(Fields()), tr, false, ch))
    {
      hide Emit, NoteOption, FieldStartStep, FieldStep, ValueDiscardStep, ValueDiscardLwsStep, ValueStartStep, ValueStep,
           HeadersAlmostDoneStep, HeadersDoneStep;
      if state.header == HeaderAlmostDone {
        if ch != LF {
          errno := LfExpected;
          return Error;
        }
        state := InHeader(ValueLws);
        return Break;
      } else if state.header == ValueLws {
        if ch == ' ' || ch == TAB {
          state := InHeader(ValueStart);
          return Reexecute;
        }
        NoteValue();
        state := InHeader(FieldStart);
        return Reexecute;
      } else {
        exit := Strict(ch == LF, InHeader(ValueDiscardLws));
      }
    }

    // What the answer of the on_headers_complete callback changes
    method TakeReply(ghost tr: seq<Event>) returns (exit: Exit)
      requires errno.NoError? && Join(calls) == tr && ShownIn(state).Nothing?
      modifies `flags, `upgrade, `errno
      ensures Agrees(exit, ReplyStep(old(Fields()), tr))
    {
      match settings.reply {
        case 0 =>
        case 1 => flags := flags.(skipBody := true);
        case 2 =>
          upgrade := true;
          flags := flags.(skipBody := true);
        case _ =>
          errno := CbHeadersComplete;
          return Error;
      }
      return Reexecute;
    }

    // s_headers_almost_done
    method HeadersAlmostDoneCase(ch: Octet, ghost tr: seq<Event>) returns (exit: Exit)
      requires errno.NoError? && Join(calls) == tr
      requires state == InHeader(HeadersAlmostDone)
      modifies `state, `flags, `upgrade, `errno, `calls
      ensures Agrees(exit, HeadersAlmostDoneStep(old(Fields()), tr, ch))
    {
      hide Emit, ReplyStep;
      if ch != LF {
        errno := StrictCheck;
        return Error;
      }
      if flags.trailing {
        state := InPayload(MessageDone);
        Notify(ChunkComplete);
        return Reexecute;
      }
      if flags.chunked && flags.contentLength {
        errno := UnexpectedContentLength;
        return Error;
      }
      state := InHeader(HeadersDone);
      upgrade := (flags.upgrade && flags.connectionUpgrade) || line.meth == CONNECT;
      Notify(HeadersComplete(line, upgrade, contentLength));
      exit := TakeReply(Join(calls));
    }

    // The state after a message, and its on_message_complete callback.
    method CompleteMessage()
      requires errno.NoError?
      modifies `state, `calls
      ensures Fields() == CompletedParser(old(Fields()))
      ensures Join(calls) == CompletedTrace(old(Fields()), old(Join(calls)))
    {
      hide Emit;
      var keepAlive := KeepAlive();
      state := if keepAlive then if kind.Request? then Starting(StartReq) else Starting(StartRes) else Starting(Dead);
      Notify(MessageComplete(keepAlive));
    }

    // http_message_needs_eof
    method NeedsEof() returns (eof: bool)
      ensures eof == MessageNeedsEof(Fields())
    {
      if kind == Request { return false; }
      if line.status / 100 == 1 || line.status == 204 || line.status == 304 || flags.skipBody { return false; }
      if flags.chunked || contentLength != ULLONG_MAX { return false; }
      return true;
    }

    // http_should_keep_alive
    method KeepAlive() returns (keep: bool)
      ensures keep == ShouldKeepAlive(Fields())
    {
      if line.major > 0 && line.minor > 0 {
        if flags.close { return false; }
      } else {
        if !flags.keepAlive { return false; }
      }
      var eof := NeedsEof();
      return !eof;
    }

    // s_headers_done
    method HeadersDoneCase(ch: Octet, ghost tr: seq<Event>) returns (exit: Exit)
      requires errno.NoError? && Join(calls) == tr
      requires state == InHeader(HeadersDone)
      modifies `state, `nread, `errno, `calls
      ensures Agrees(exit, HeadersDoneStep(old(Fields()), tr, ch))
    {
      hide Emit, MessageNeedsEof, CompletedParser, CompletedTrace;
      CompletedShowsNothing(Fields().(nread := 0));
      if ch != LF {
        errno := StrictCheck;
        return Error;
      }
      nread := 0;
      var hasBody := flags.chunked || (contentLength > 0 && contentLength != ULLONG_MAX);
      if upgrade && (line.meth == CONNECT || flags.skipBody || !hasBody) {
        CompleteMessage();
        return Return;
      }
      if flags.skipBody {
        CompleteMessage();
      } else if flags.chunked {
        state := InChunkSize(ChunkSizeStart);
      } else if contentLength == 0 {
        CompleteMessage();
      } else if contentLength != ULLONG_MAX {
        state := InPayload(BodyIdentity);
      } else {
        var eof := NeedsEof();
        if !eof {
          CompleteMessage();
        } else {
          state := InPayload(BodyIdentityEof);
        }
      }
      return Break;
    }

    // A further digit of a chunk size, or what ends it
    method ChunkSizeDigit(ch: Octet, ghost tr: seq<Event>) returns (exit: Exit)
      requires errno.NoError? && Join(calls) == tr && state == InChunkSize(ChunkSize) && ch != CR
      modifies `state, `contentLength, `errno
      ensures Agrees(exit, ChunkSizeStep(old(Fields()), tr, ch))
    {
      hide Emit, Unhex;
      var unhexVal := Unhex(ch);
      if unhexVal == -1 {
        if ch == ';' || ch == ' ' {
          state := InChunkSize(ChunkParameters);
          return Break;
        }
        errno := InvalidChunkSize;
        return Error;
      }
      var t := contentLength;
      t := t * 16 % TWO_TO_THE_64;
      t := (t + unhexVal) % TWO_TO_THE_64;
      if (ULLONG_MAX - 16) / 16 < contentLength {
        errno := InvalidContentLength;
        return Error;
      }
      contentLength := t;
      return Break;
    }

    method ChunkSizeCase(ch: Octet, ghost tr: seq<Event>) returns (exit: Exit)
      requires errno.NoError? && Join(calls) == tr
      requires state.InChunkSize? && Looking(Fields())
      modifies `state, `flags, `nread, `contentLength, `errno, `calls
      ensures Agrees(exit, ChunkSizeStep(old(Fields()), tr, ch))
    {
      hide Emit, Unhex;
      match state.chunk {
        case ChunkSizeStart =>
          assert nread == 1;
          assert flags.chunked;
          var unhexVal := Unhex(ch);
          if unhexVal == -1 {
            errno := InvalidChunkSize;
            return Error;
          }
          contentLength := unhexVal;
          state := InChunkSize(ChunkSize);
          return Break;
        case ChunkSize =>
          assert flags.chunked;
          if ch == CR {
            state := InChunkSize(ChunkSizeAlmostDone);
            return Break;
          }
          exit := ChunkSizeDigit(ch, tr);
          return;
        case ChunkParameters =>
          assert flags.chunked;
          if ch == CR {
            state := InChunkSize(ChunkSizeAlmostDone);
          }
          return Break;
        case ChunkSizeAlmostDone =>
          assert flags.chunked;
          if ch != LF {
            errno := StrictCheck;
            return Error;
          }
          nread := 0;
          if contentLength == 0 {
            flags := flags.(trailing := true);
            state := InHeader(FieldStart);
          } else {
            state := InPayload(ChunkData);
          }
          Notify(ChunkHeader(contentLength));
          return Break;
      }
    }

    // s_chunk_data_almost_done
    method ChunkEndCase(data: seq<Octet>, p: nat, ghost tr: seq<Event>) returns (exit: Exit)
      requires p < |data| && errno.NoError? && state == InPayload(ChunkDataAlmostDone) && Looking(Fields())
      requires fieldMark == valueMark == urlMark == statusMark == NULL
      requires Flush(Join(calls), Body, data, bodyMark, p) == tr
      modifies `state, `errno, `calls, `bodyMark
      ensures Agrees(exit, PayloadStep(old(Fields()), tr, data[p])) && (!exit.Error? ==> NoMarks())
    {
      hide Emit, Looking, Flush, ShownIn;
      ChunkedOk(Fields());
      ShowsNothing(InPayload(ChunkDataDone));
      assert flags.chunked;
      assert contentLength == 0;
      exit := Strict(data[p] == CR, InPayload(ChunkDataDone));
      if exit.Break? {
        Report(Body, data, bodyMark, p);
        bodyMark := NULL;
      }
    }

    // s_chunk_data_done
    method ChunkDoneCase(ch: Octet, ghost tr: seq<Event>) returns (exit: Exit)
      requires errno.NoError? && Join(calls) == tr && state == InPayload(ChunkDataDone) && Looking(Fields())
      modifies `state, `nread, `errno, `calls
      ensures Agrees(exit, PayloadStep(old(Fields()), tr, ch))
    {
      hide Emit, Looking, ShownIn;
      ChunkedOk(Fields());
      ShowsNothing(InChunkSize(ChunkSizeStart));
      assert flags.chunked;
      exit := Strict(ch == LF, InChunkSize(ChunkSizeStart));
      if exit.Break? {
        nread := 0;
        Notify(ChunkComplete);
      }
    }

    // s_message_done
    method MessageDoneCase(ghost tr: seq<Event>) returns (exit: Exit)
      requires errno.NoError? && Join(calls) == tr
      requires state == InPayload(MessageDone)
      modifies `state, `calls
      ensures forall ch :: Agrees(exit, PayloadStep(old(Fields()), tr, ch))
    {
      hide Emit, ShouldKeepAlive;
      CompleteMessage();
      return if upgrade then Return else Break;
    }

    // ----- The whole switch, but for the states with loops of their own

    // A pass through the switch did with byte `p` what the reference does.
    ghost predicate Did(exit: Exit, act: Act, data: seq<Octet>, p: nat)
      reads this
    {
      match act
      case Next(ps, tr) => exit.Break? && errno.NoError? && Fields() == ps && Trace(data, p + 1) == tr && MarksOk(p + 1)
      case Again(ps, tr) => exit.Reexecute? && errno.NoError? && Fields() == ps && Trace(data, p) == tr && MarksOk(p)
      case Leave(ps, tr) => exit.Return? && errno.NoError? && Fields() == ps && Join(calls) == tr && NoMarks()
      case Err(e) => exit.Error? && errno == e
    }

    // What a pass through the switch can rely on.
    ghost predicate Ready(data: seq<Octet>, p: nat)
      reads this
    {
      p < |data| && errno.NoError? && Looking(Fields()) && MarksOk(p)
    }

    lemma DidQuietly(exit: Exit, act: Act, data: seq<Octet>, p: nat)
      requires Agrees(exit, act) && NoMarks()
      ensures Did(exit, act, data, p)
    {
      hide Emit;
    }

    lemma DidOn(k: DataKind, exit: Exit, act: Act, data: seq<Octet>, p: nat)
      requires AgreesOn(k, exit, act, data, p) && !k.Body?
      ensures Did(exit, act, data, p)
    {
      hide Emit;
    }

    // The start line of a message
    method SwitchLine(data: seq<Octet>, p: nat) returns (exit: Exit)
      requires Ready(data, p)
      requires state.Starting? || state.ResponseLine? || state.ReqMethod? || state.ReqSpacesBeforeUrl? || state.InUrl? ||
               state.RequestVersion?
      modifies this
      ensures Did(exit, Look(old(Fields()), old(Trace(data, p)), false, data[p]), data, p)
    {
      hide Emit, StartStep, ResponseLineStep, MethodStep, UrlStartStep, UrlStep, RequestVersionStep, Looking;
      ghost var tr := Trace(data, p);
      ghost var act := Look(Fields(), tr, false, data[p]);
      if state.Starting? {
        exit := StartCase(data[p], tr);
        DidQuietly(exit, act, data, p);
      } else if state == ResponseLine(ResStatusStart) {
        exit := StatusStartCase(data, p, tr);
        DidOn(Status, exit, act, data, p);
      } else if state == ResponseLine(ResStatus) {
        exit := StatusTextCase(data, p, tr);
        DidOn(Status, exit, act, data, p);
      } else if state.ResponseLine? {
        if state.response.ResFirstStatusCode? || state.response.ResStatusCode? || state.response.ResLineAlmostDone? {
          exit := StatusCodeCase(data[p], tr);
        } else {
          exit := ResponseVersionCase(data[p], tr);
        }
        DidQuietly(exit, act, data, p);
      } else if state.ReqMethod? {
        exit := MethodCase(data[p], tr);
        DidQuietly(exit, act, data, p);
      } else if state.RequestVersion? {
        if state.version.ReqHttpStart? || state.version.ReqH? || state.version.ReqHT? || state.version.ReqHTT? ||
           state.version.ReqHTTP? {
          exit := RequestHttpCase(data[p], tr);
        } else {
          exit := RequestVersionCase(data[p], tr);
        }
        DidQuietly(exit, act, data, p);
      } else if state.ReqSpacesBeforeUrl? {
        exit := UrlStartCase(data, p, tr);
        DidOn(UrlData, exit, act, data, p);
      } else {
        exit := UrlCase(data, p, tr);
        DidOn(UrlData, exit, act, data, p);
      }
    }

    // The header section
    method SwitchHeader(data: seq<Octet>, p: nat) returns (exit: Exit)
      requires Ready(data, p)
      requires state.InHeader? && !OwnLoop(state)
      modifies this
      ensures Did(exit, Look(old(Fields()), old(Trace(data, p)), false, data[p]), data, p)
    {
      hide Emit, FieldStartStep, ValueDiscardStep, ValueDiscardLwsStep, ValueStartStep, ValueLwsStep,
           HeadersAlmostDoneStep, HeadersDoneStep, Looking;
      ghost var tr := Trace(data, p);
      ghost var act := Look(Fields(), tr, false, data[p]);
      var h := state.header;
      if h.FieldStart? {
        exit := FieldStartCase(data, p, tr);
        DidOn(Field, exit, act, data, p);
      } else if h.ValueDiscardWs? {
        exit := ValueDiscardCase(data, p, tr);
        DidOn(Value, exit, act, data, p);
      } else if h.ValueStart? {
        exit := ValueStartCase(data, p, tr);
        DidOn(Value, exit, act, data, p);
      } else if h.ValueDiscardLws? {
        exit := ValueDiscardLwsCase(data, p, tr);
        DidOn(Value, exit, act, data, p);
      } else if h.HeadersAlmostDone? {
        exit := HeadersAlmostDoneCase(data[p], tr);
        DidQuietly(exit, act, data, p);
      } else if h.HeadersDone? {
        exit := HeadersDoneCase(data[p], tr);
        DidQuietly(exit, act, data, p);
      } else {
        exit := LineEndCase(data[p], tr);
        DidQuietly(exit, act, data, p);
      }
    }

    // Chunk sizes, and the ends of chunks and messages
    method SwitchBody(data: seq<Octet>, p: nat) returns (exit: Exit)
      requires Ready(data, p)
      requires state.InChunkSize? || (state.InPayload? && !OwnLoop(state))
      modifies this
      ensures Did(exit, Look(old(Fields()), old(Trace(data, p)), false, data[p]), data, p)
    {
      hide Emit, ChunkSizeStep, PayloadStep, Looking;
      ghost var tr := Trace(data, p);
      ghost var act := Look(Fields(), tr, false, data[p]);
      if state.InChunkSize? {
        exit := ChunkSizeCase(data[p], tr);
      } else if state.payload.MessageDone? {
        exit := MessageDoneCase(tr);
      } else if state.payload.ChunkDataDone? {
        exit := ChunkDoneCase(data[p], tr);
      } else {
        exit := ChunkEndCase(data, p, tr);
      }
      if !exit.Error? {
        DidQuietly(exit, act, data, p);
      }
    }

    // One pass through the switch, with the configuration it leads to.
    method Switch(data: seq<Octet>, p: nat, ghost c: Config) returns (exit: Exit)
      requires Ready(data, p) && !OwnLoop(state) && TraceOk(state, Trace(data, p))
      requires c == Dispatch(Fields(), Trace(data, p), Outer, data[p], p)
      modifies this
      ensures exit.Break? ==> errno.NoError? && MarksOk(p + 1) && c == Go(Fields(), Trace(data, p + 1), Outer, p + 1)
      ensures exit.Reexecute? ==>
                && Ready(data, p) && !OwnLoop(state) && TraceOk(state, Trace(data, p))
                && c == Dispatch(Fields(), Trace(data, p), Outer, data[p], p)
                && Looks(state) < old(Looks(state))
      ensures exit.Return? ==> errno.NoError? && NoMarks() && c == Left(Fields(), Join(calls), p + 1)
      ensures exit.Error? ==> !errno.NoError? && c == Bad(errno, p)
    {
      hide Look, Looking, Looks;
      ghost var ps, tr := Fields(), Trace(data, p);
      LookKeepsInvariant(ps, tr, false, data[p]);
      LookKeepsTrace(ps, tr, false, data[p]);
      if Look(ps, tr, false, data[p]).Again? {
        LookingAgainTerminates(ps, tr, false, data[p]);
      }
      match state {
        case InHeader(_) => exit := SwitchHeader(data, p);
        case InChunkSize(_) => exit := SwitchBody(data, p);
        case InPayload(_) => exit := SwitchBody(data, p);
        case _ => exit := SwitchLine(data, p);
      }
    }

    // ----- The states with loops of their own

    // The reference is at `r` when the loop over the buffer comes to position `q`.
    ghost predicate AtTop(r: Config, data: seq<Octet>, q: nat)
      reads this
    {
      && errno.NoError? && MarksOk(q) && q <= |data|
      && (q < |data| ==> r == Go(Fields(), Trace(data, q), Outer, q))
      && (q == |data| ==> Finish(r) == Go(Fields(), Trace(data, q), Outer, q))
    }

    // The reference fails on the rest of the buffer too: with the same error at
    // the same byte, unless it has run out of header bytes before that.
    ghost predicate Failed(v: Config, data: seq<Octet>, p0: nat, p: nat)
      requires p0 <= |data|
      reads this
    {
      var r := Finish(Run(v, data[p0..]));
      && !errno.NoError?
      && r.Bad?
      && (r.e.HeaderOverflow? || r == Bad(errno, p))
    }

    // COUNT_HEADER_SIZE
    method CountHeaderSize(v: nat) returns (ok: bool)
      modifies `nread, `errno
      ensures nread == (old(nread) + v) % TWO_TO_THE_32
      ensures old(nread) + v < TWO_TO_THE_32 ==> nread == old(nread) + v
      ensures ok == (nread <= MAX_HEADER_SIZE)
      ensures errno == if ok then old(errno) else HeaderOverflow
    {
      nread := (nread + v) % TWO_TO_THE_32;
      if nread > MAX_HEADER_SIZE {
        errno := HeaderOverflow;
        return false;
      }
      return true;
    }

    // With one kind of mark at most, only its data is pending.
    lemma TraceOfOne(k: DataKind, data: seq<Octet>, p: nat, q: nat)
      requires MarksOk(p) && p <= q && (ShownIn(state) == Some(k) || (k.Body? && ShownIn(state).Nothing?))
      ensures Trace(data, q) == Flush(Join(calls), k, data, MarkOf(k), q)
      ensures MarksOk(q)
    {
      hide Emit;
    }

    lemma TraceOfNone(data: seq<Octet>, p: nat)
      requires NoMarks() && ShownIn(state).Nothing?
      ensures Trace(data, p) == Join(calls)
      ensures MarksOk(p)
    {
      hide Emit;
    }

    // The reference after the bytes of a header name up to `p`, `n` of its bytes
    // and of those before it counted.
    ghost predicate FieldProgress(r: Config, data: seq<Octet>, p: nat, n: nat, lane: Lane)
      reads this
    {
      if n > MAX_HEADER_SIZE then r.Bad? && r.e.HeaderOverflow?
      else r == Go(Fields().(nread := n), Flush(Join(calls), Field, data, fieldMark, p), lane, p)
    }

    // The inner loop of s_header_field, up to a byte that is no token character.
    method FieldScan(data: seq<Octet>, p0: nat, ghost v: Config, ghost n0: nat) returns (p: nat)
      requires p0 < |data| && state == InHeader(FieldName) && 0 <= fieldMark <= p0
      requires FieldProgress(v, data, p0, n0, Outer) && NameMatcherOk(headerState, index)
      modifies `headerState, `index
      ensures p0 <= p <= |data| && (p < |data| ==> Token(data[p]) == NUL)
      ensures FieldProgress(Run(v, data[p0..p]), data, p, n0 + (p - p0), if p == p0 then Outer else Inner)
    {
      hide Emit, Step, Token, FieldMatch, Run, Flush, NameMatcherOk, HasNameCase;
      p := p0;
      RunNothing(v, data, p0);
      while p < |data| && Token(data[p]) != NUL
        invariant p0 <= p <= |data| && NameMatcherOk(headerState, index)
        invariant FieldProgress(Run(v, data[p0..p]), data, p, n0 + (p - p0), if p == p0 then Outer else Inner)
      {
        RunSlice(v, data, p0, p);
        StepFieldCounted(Run(v, data[p0..p]), Fields(), Flush(Join(calls), Field, data, fieldMark, p),
                         if p == p0 then Outer else Inner, n0 + (p - p0), p, data[p]);
        FlushOneMore(Join(calls), Field, data, fieldMark, p);
        NameCase(headerState, index);
        assert HasNameCase(headerState);
        FieldMatchOk(headerState, index, Token(data[p]), data[p]);
        var matched := FieldMatch(headerState, index, Token(data[p]), data[p]);
        headerState, index := matched.0, matched.1;
        p := p + 1;
      }
    }

    // The byte after a header name
    method FieldEnd(data: seq<Octet>, p: nat, ghost r: Config, ghost lane: Lane) returns (exit: Exit)
      requires p < |data| && errno.NoError? && state == InHeader(FieldName) && MarksOk(p)
      requires Token(data[p]) == NUL && 1 <= nread <= MAX_HEADER_SIZE
      requires r == Go(Fields().(nread := nread - 1), Flush(Join(calls), Field, data, fieldMark, p), lane, p)
      modifies `state, `errno, `calls, `fieldMark
      ensures exit.Break? || exit.Error?
      ensures exit.Break? ==> AtTop(Step(r, data[p]), data, p + 1)
      ensures exit.Error? ==> !errno.NoError? && Step(r, data[p]) == Bad(errno, p)
    {
      hide Emit, Step, Token, Flush, Trace;
      StepFieldEnd(Fields().(nread := nread - 1), r.tr, lane, p, data[p]);
      if data[p] == ':' {
        state := InHeader(ValueDiscardWs);
        Report(Field, data, fieldMark, p);
        fieldMark := NULL;
        TraceOfNone(data, p + 1);
        return Break;
      }
      errno := InvalidHeaderToken;
      return Error;
    }

    // The buffer ends inside an inner loop: its first byte has been counted twice.
    lemma AtEnd(k: DataKind, data: seq<Octet>, p0: nat, r: Config)
      requires errno.NoError? && MarksOk(p0) && p0 <= |data| && ShownIn(state) == Some(k)
      requires 1 <= nread <= MAX_HEADER_SIZE
      requires r.Go? && !r.lane.Outer?
      requires r == Go(Fields().(nread := nread - 1), Flush(Join(calls), k, data, MarkOf(k), |data|), r.lane, |data|)
      ensures AtTop(r, data, |data|)
    {
      hide Flush, Trace;
      TraceOfOne(k, data, p0, |data|);
    }

    // The reference fails at byte `p`, with the error that is set.
    lemma FailedAt(v: Config, data: seq<Octet>, p0: nat, p: nat)
      requires p0 <= p < |data| && !errno.NoError? && Step(Run(v, data[p0..p]), data[p]) == Bad(errno, p)
      ensures Failed(v, data, p0, p)
    {
      hide Run, Step;
      FailsAt(v, data, p0, p);
    }

    // The reference has counted `n` bytes up to `p`, as many as it can or more.
    lemma FailedByCount(v: Config, data: seq<Octet>, p0: nat, p: nat, ps: Parser, tr: seq<Event>, lane: Lane, n: nat)
      requires p0 <= p <= |data| && n >= MAX_HEADER_SIZE && ParsingHeader(ps.state) && errno.HeaderOverflow?
      requires n > MAX_HEADER_SIZE ==> Run(v, data[p0..p]).Bad? && Run(v, data[p0..p]).e.HeaderOverflow?
      requires n == MAX_HEADER_SIZE ==> Run(v, data[p0..p]) == Go(ps.(nread := n), tr, lane, p)
      requires p == |data| ==> !lane.Outer?
      ensures Failed(v, data, p0, p)
    {
      hide Run, Step;
      OverflowsAt(v, data, p0, p, ps, tr, lane, n);
    }

    // The end of a header name, or of the buffer
    method FieldStop(data: seq<Octet>, p0: nat, p: nat, ghost v: Config, ghost lane: Lane) returns (exit: Exit)
      requires p0 <= p <= |data| < 0x8000_0000 && p0 < |data| && errno.NoError? && state == InHeader(FieldName)
      requires MarksOk(p) && 1 <= nread <= MAX_HEADER_SIZE
      requires (p < |data| ==> Token(data[p]) == NUL) && (p == |data| ==> lane.Inner?)
      requires FieldProgress(Run(v, data[p0..p]), data, p, nread + (p - p0) - 1, lane)
      modifies `state, `nread, `errno, `calls, `fieldMark
      ensures exit.Break? || exit.Error?
      ensures exit.Break? && p < |data| ==> AtTop(Run(v, data[p0..p + 1]), data, p + 1)
      ensures exit.Break? && p == |data| ==> AtTop(Run(v, data[p0..p]), data, p)
      ensures exit.Error? ==> Failed(v, data, p0, p)
    {
      hide Emit, Step, Token, Run, Flush, Trace, AtTop, Failed;
      ghost var ps, tr, n := Fields(), Flush(Join(calls), Field, data, fieldMark, p), nread + (p - p0) - 1;
      var ok := CountHeaderSize(p - p0);
      if !ok {
        FailedByCount(v, data, p0, p, ps, tr, lane, n);
        return Error;
      }
      if p == |data| {
        AtEnd(Field, data, p, Run(v, data[p0..p]));
        return Break;
      }
      RunSlice(v, data, p0, p);
      exit := FieldEnd(data, p, Run(v, data[p0..p]), lane);
      if exit.Error? {
        FailedAt(v, data, p0, p);
      }
    }

    // s_header_field; `ps` is the parser before its first byte was counted.
    method FieldLoop(data: seq<Octet>, p0: nat, ghost ps: Parser, ghost tr: seq<Event>) returns (exit: Exit, p: nat)
      requires p0 < |data| < 0x8000_0000 && errno.NoError? && MarksOk(p0)
      requires state == InHeader(FieldName) && NameMatcherOk(headerState, index)
      requires ps.nread < MAX_HEADER_SIZE && Fields() == ps.(nread := ps.nread + 1) && Trace(data, p0) == tr
      modifies `state, `headerState, `index, `nread, `errno, `calls, `fieldMark
      ensures p0 <= p <= |data| && (exit.Break? || exit.Error?)
      ensures exit.Break? ==> p < |data| && AtTop(Run(Go(ps, tr, Outer, p0), data[p0..p + 1]), data, p + 1)
      ensures exit.Error? ==> Failed(Go(ps, tr, Outer, p0), data, p0, p)
    {
      hide Emit, Step, Token, Run, Flush, Trace, AtTop, Failed;
      ghost var v := Go(ps, tr, Outer, p0);
      TraceOfOne(Field, data, p0, p0);
      p := FieldScan(data, p0, v, ps.nread);
      exit := FieldStop(data, p0, p, v, if p == p0 then Outer else Inner);
      if exit.Break? && p == |data| {
        p := p - 1;
      }
    }

    // The two memchr searches of the fast skip: the first line end within
    // MAX_HEADER_SIZE bytes, or else the end of the buffer.
    static method FindLineEnd(data: seq<Octet>, p: nat) returns (q: nat)
      requires p < |data|
      ensures p <= q <= |data|
      ensures q < |data| ==> (data[q] == CR || data[q] == LF) && NoLineEnd(data[p..q])
      ensures q == |data| ==>
                NoLineEnd(data[p..]) || (|data| - p > MAX_HEADER_SIZE && NoLineEnd(data[p..][..MAX_HEADER_SIZE]))
    {
      var limit := if |data| - p < MAX_HEADER_SIZE then |data| - p else MAX_HEADER_SIZE;
      var cr := Memchr(data, p, CR, limit);
      var lf := Memchr(data, p, LF, limit);
      if cr != NULL {
        if lf != NULL && cr >= lf { return lf; } else { return cr; }
      } else if lf != NULL {
        return lf;
      } else {
        return |data|;
      }
    }

    static method Memchr(data: seq<Octet>, p: nat, c: Octet, limit: nat) returns (q: int)
      requires p + limit <= |data|
      ensures q == NULL || p <= q < p + limit
      ensures q == NULL ==> forall k :: p <= k < p + limit ==> data[k] != c
      ensures q != NULL ==> data[q] == c && forall k :: p <= k < q ==> data[k] != c
    {
      q := p;
      while q < p + limit
        invariant p <= q <= p + limit
        invariant forall k :: p <= k < q ==> data[k] != c
      {
        if data[q] == c { return; }
        q := q + 1;
      }
      return NULL;
    }

    // The reference after the bytes of a header value up to `p`, `n` bytes counted.
    ghost predicate ValueProgress(r: Config, data: seq<Octet>, p: nat, hs: HeaderState, n: nat, lane: Lane)
      reads this
    {
      if n > MAX_HEADER_SIZE then r.Bad? && r.e.HeaderOverflow?
      else r == Go(Fields().(headerState := hs, nread := n), Flush(Join(calls), Value, data, valueMark, p), lane, p)
    }

    // What one byte of a value must do to the matcher and the fields.
    twostate predicate DidValueChar(ok: bool, hs: HeaderState, next: HeaderState, n: nat, tr: seq<Event>, ch: Octet)
      reads this
    {
      match ValueStep(old(Fields()).(headerState := hs, nread := n), tr, ch, false)
      case Next(ps, shown) =>
        ok && errno.NoError? && Fields().(headerState := next, nread := n) == ps && shown == Emit(tr, Data(Value, [ch]))
      case Err(e) => !ok && errno == e && !e.NoError?
      case _ => false
    }

    // A byte of a Content-Length
    method ContentLengthChar(ch: Octet, ghost n: nat, ghost tr: seq<Event>) returns (ok: bool)
      requires errno.NoError? && state == InHeader(ValueText)
      requires ch != CR && ch != LF && (settings.lenient || IsHeaderChar(ch))
      modifies `headerState, `contentLength, `errno
      ensures DidValueChar(ok, ContentLength, ContentLength, n, tr, ch)
    {
      hide Emit, IsHeaderChar;
      if ch == ' ' { return true; }
      if !IsNum(ch) {
        errno := InvalidContentLength;
        headerState := ContentLength;
        return false;
      }
      var t := contentLength;
      t := t * 10 % TWO_TO_THE_64;
      t := (t + (ch as nat - '0' as nat)) % TWO_TO_THE_64;
      if (ULLONG_MAX - 10) / 10 < contentLength {
        errno := InvalidContentLength;
        headerState := ContentLength;
        return false;
      }
      contentLength := t;
      return true;
    }

    // A byte of a value that a matcher is looking at
    method MatcherChar(ch: Octet, hs: HeaderState, ghost n: nat, ghost tr: seq<Event>) returns (next: HeaderState)
      requires errno.NoError? && state == InHeader(ValueText)
      requires ch != CR && ch != LF && (settings.lenient || IsHeaderChar(ch))
      requires !hs.ContentLength? && ValueMatcherOk(hs, index)
      modifies `flags, `index
      ensures DidValueChar(true, hs, next, n, tr, ch)
      ensures ValueMatcherOk(next, index)
    {
      hide Emit, Lower, IsHeaderChar, ValueMatch, NoteOption, ValueMatcherOk;
      ValueMatcherHasStarted(hs, index);
      assert !hs.Connection? && !hs.TransferEncoding?;
      ValueMatchOk(hs, index, Lower(ch), ch);
      var matched := ValueMatch(hs, index, Lower(ch), ch);
      if matched.0.TokenStart? {
        NoteItem(hs);
      }
      next, index := matched.0, matched.1;
    }

    // The option named by an item of a list of connection options.
    method NoteItem(hs: HeaderState)
      requires !hs.Chunked?
      modifies `flags
      ensures flags == NoteOption(old(flags), hs)
    {
      if hs == ConnectionKeepAlive {
        flags := flags.(keepAlive := true);
      } else if hs == ConnectionClose {
        flags := flags.(close := true);
      } else if hs == ConnectionUpgrade {
        flags := flags.(connectionUpgrade := true);
      }
    }

    lemma FailedInValue(v: Config, data: seq<Octet>, p0: nat, p: nat, n: nat)
      requires p0 <= p < |data| && !errno.NoError?
      requires var r := Step(Run(v, data[p0..p]), data[p]);
               if n + 1 > MAX_HEADER_SIZE then r.Bad? && r.e.HeaderOverflow? else r == Bad(errno, p)
      ensures Failed(v, data, p0, p)
    {
      hide Run, Step;
      FailsAt(v, data, p0, p);
    }

    // One byte of a value that a matcher is looking at, with its effect on the reference
    method MatchedChar(data: seq<Octet>, p0: nat, p: nat, hs: HeaderState, ghost v: Config, ghost n: nat, ghost lane: Lane)
      returns (ok: bool, next: HeaderState)
      requires p0 <= p < |data| && errno.NoError? && state == InHeader(ValueText) && 0 <= valueMark <= p0
      requires data[p] != CR && data[p] != LF && (settings.lenient || IsHeaderChar(data[p]))
      requires !hs.General? && !lane.Skipping? && ValueMatcherOk(hs, index)
      requires ValueProgress(Run(v, data[p0..p]), data, p, hs, n, lane)
      modifies `flags, `headerState, `index, `contentLength, `errno
      ensures ok ==>
                && errno.NoError? && ValueMatcherOk(next, index)
                && ValueProgress(Run(v, data[p0..p + 1]), data, p + 1, next, n + 1, Inner)
      ensures !ok ==> Failed(v, data, p0, p)
    {
      hide Emit, Step, Run, Flush, ValueMatcherOk, ValueStep, IsHeaderChar, Failed;
      ghost var tr := Flush(Join(calls), Value, data, valueMark, p);
      ok, next := true, hs;
      RunSlice(v, data, p0, p);
      StepValueCounted(Run(v, data[p0..p]), Fields().(headerState := hs), tr, lane, n, p, data[p]);
      FlushOneMore(Join(calls), Value, data, valueMark, p);
      if hs.ContentLength? {
        ok := ContentLengthChar(data[p], n + 1, tr);
      } else {
        next := MatcherChar(data[p], hs, n + 1, tr);
      }
      if !ok {
        FailedInValue(v, data, p0, p, n);
      }
    }

    // The fast skip over a value that no matcher is looking at
    method SkipValue(data: seq<Octet>, p0: nat, p: nat, ghost v: Config, ghost n: nat, ghost lane: Lane) returns (q: nat)
      requires p0 <= p < |data| && state == InHeader(ValueText) && 0 <= valueMark <= p0
      requires data[p] != CR && data[p] != LF && (lane.Skipping? || settings.lenient || IsHeaderChar(data[p]))
      requires ValueProgress(Run(v, data[p0..p]), data, p, General, n, lane)
      ensures p < q <= |data| && (q < |data| ==> data[q] == CR || data[q] == LF)
      ensures ValueProgress(Run(v, data[p0..q]), data, q, General, n + (q - p), Skipping)
    {
      hide Emit, Step, Run, Flush, NoLineEnd, IsHeaderChar;
      q := FindLineEnd(data, p);
      SkipAdvances(v, data, p0, p, q, Fields().(headerState := General), Join(calls), valueMark, lane, n);
    }

    // A byte that no value may contain
    method RefuseChar(data: seq<Octet>, p0: nat, p: nat, hs: HeaderState, ghost v: Config, ghost n: nat, ghost lane: Lane)
      requires p0 <= p < |data| && state == InHeader(ValueText)
      requires data[p] != CR && data[p] != LF && !lane.Skipping? && !settings.lenient && !IsHeaderChar(data[p])
      requires ValueProgress(Run(v, data[p0..p]), data, p, hs, n, lane)
      modifies `errno
      ensures Failed(v, data, p0, p)
    {
      hide Emit, Step, Run, Flush, IsHeaderChar, Failed;
      StepValueInvalid(Run(v, data[p0..p]), Fields().(headerState := hs), Flush(Join(calls), Value, data, valueMark, p), lane, n, p,
                       data[p]);
      errno := InvalidHeaderToken;
      FailedInValue(v, data, p0, p, n);
    }

    // The inner loop of s_header_value, up to a line end.
    method ValueScan(data: seq<Octet>, p0: nat, ghost v: Config, ghost n0: nat)
      returns (ok: bool, p: nat, hs: HeaderState, ghost lane: Lane)
      requires p0 < |data| && errno.NoError? && state == InHeader(ValueText) && 0 <= valueMark <= p0
      requires ValueMatcherOk(headerState, index)
      requires ValueProgress(v, data, p0, headerState, n0, Outer)
      modifies `flags, `headerState, `index, `contentLength, `errno
      ensures p0 <= p <= |data|
      ensures ok ==>
                && errno.NoError? && (p < |data| ==> data[p] == CR || data[p] == LF) && (lane.Outer? <==> p == p0)
                && ValueProgress(Run(v, data[p0..p]), data, p, hs, n0 + (p - p0), lane)
      ensures !ok ==> Failed(v, data, p0, p)
    {
      hide Run, ValueProgress, ValueMatcherOk, IsHeaderChar, Failed;
      ok, p, hs, lane := true, p0, headerState, Outer;
      RunNothing(v, data, p0);
      while p < |data| && data[p] != CR && data[p] != LF
        invariant p0 <= p <= |data| && errno.NoError? && ValueMatcherOk(hs, index)
        invariant lane.Outer? <==> p == p0
        invariant lane.Skipping? ==> p == |data| || data[p] == CR || data[p] == LF
        invariant ValueProgress(Run(v, data[p0..p]), data, p, hs, n0 + (p - p0), lane)
      {
        ghost var n := n0 + (p - p0);
        if !settings.lenient && !IsHeaderChar(data[p]) {
          RefuseChar(data, p0, p, hs, v, n, lane);
          return false, p, hs, lane;
        }
        if hs.General? {
          p := SkipValue(data, p0, p, v, n, lane);
          lane := Skipping;
        } else {
          ok, hs := MatchedChar(data, p0, p, hs, v, n, lane);
          if !ok { return; }
          p := p + 1;
          lane := Inner;
        }
      }
    }

    // The reference has one more look to take at byte `p`.
    ghost predicate AtReexecute(r: Config, data: seq<Octet>, p: nat)
      reads this
    {
      && Ready(data, p) && !OwnLoop(state) && TraceOk(state, Trace(data, p))
      && r == Dispatch(Fields(), Trace(data, p), Outer, data[p], p)
    }

    lemma AtTopAt(r: Config, data: seq<Octet>, q: nat)
      requires q <= |data| && errno.NoError? && MarksOk(q) && r == Go(Fields(), Trace(data, q), Outer, q)
      ensures AtTop(r, data, q)
    {
      hide MarksOk, Trace;
    }

    lemma AtTopQuietly(r: Config, data: seq<Octet>, q: nat)
      requires q <= |data| && errno.NoError? && NoMarks() && ShownIn(state).Nothing?
      requires r == Go(Fields(), Join(calls), Outer, q)
      ensures AtTop(r, data, q)
    {
      hide Trace;
      TraceOfNone(data, q);
    }

    lemma AtTopOn(k: DataKind, r: Config, data: seq<Octet>, q: nat)
      requires q <= |data| && errno.NoError? && MarksOk(q)
      requires ShownIn(state) == Some(k) || (k.Body? && ShownIn(state).Nothing?)
      requires r == Go(Fields(), Flush(Join(calls), k, data, MarkOf(k), q), Outer, q)
      ensures AtTop(r, data, q)
    {
      hide Trace, Flush;
      TraceOfOne(k, data, q, q);
    }

    lemma AtReexecuteQuietly(r: Config, data: seq<Octet>, p: nat)
      requires p < |data| && errno.NoError? && NoMarks() && ShownIn(state).Nothing?
      requires !OwnLoop(state) && Looking(Fields()) && r == Dispatch(Fields(), Join(calls), Outer, data[p], p)
      ensures AtReexecute(r, data, p)
    {
      hide Trace, Dispatch;
      TraceOfNone(data, p);
    }

    // CALLBACK_DATA(header_value)
    method ReportValue(data: seq<Octet>, p: nat)
      requires errno.NoError? && fieldMark == urlMark == bodyMark == statusMark == NULL
      modifies `calls, `valueMark
      ensures NoMarks() && Join(calls) == Flush(Join(old(calls)), Value, data, old(valueMark), p)
    {
      hide Flush, Join;
      Report(Value, data, valueMark, p);
      valueMark := NULL;
    }

    // The CR after a header value; the reference has counted `n` bytes before it.
    method ValueEndCr(data: seq<Octet>, p0: nat, p: nat, hs: HeaderState, ghost r: Config, ghost ended: Parser)
      returns (ok: bool)
      requires p0 <= p < |data| < 0x8000_0000 && errno.NoError?
      requires fieldMark == urlMark == bodyMark == statusMark == NULL && 0 <= valueMark <= p
      requires 1 <= nread <= MAX_HEADER_SIZE
      requires ended == Fields().(state := InHeader(HeaderAlmostDone), headerState := hs, nread := nread + (p - p0))
      requires ended.nread <= MAX_HEADER_SIZE ==>
                 r == Go(ended, Flush(Join(calls), Value, data, valueMark, p), Outer, p + 1)
      modifies `state, `headerState, `nread, `errno, `calls, `valueMark
      ensures ok ==> AtTop(r, data, p + 1)
      ensures !ok ==> errno.HeaderOverflow? && ended.nread > MAX_HEADER_SIZE
    {
      hide Emit, Flush, AtTop, Trace, MarksOk, NoMarks, ShownIn;
      ShowsNothing(InHeader(HeaderAlmostDone));
      state := InHeader(HeaderAlmostDone);
      headerState := hs;
      ReportValue(data, p);
      ok := CountHeaderSize(p - p0);
      if ok {
        AtTopQuietly(r, data, p + 1);
      }
    }

    // The LF after a header value
    method ValueEndLf(data: seq<Octet>, p0: nat, p: nat, hs: HeaderState, ghost r: Config, ghost ended: Parser)
      returns (ok: bool)
      requires p0 <= p < |data| < 0x8000_0000 && errno.NoError?
      requires fieldMark == urlMark == bodyMark == statusMark == NULL && 0 <= valueMark <= p
      requires 1 <= nread <= MAX_HEADER_SIZE
      requires ended == Fields().(state := InHeader(HeaderAlmostDone), headerState := hs, nread := nread + (p - p0))
      requires ended.nread <= MAX_HEADER_SIZE ==>
                 && Looking(ended)
                 && r == Dispatch(ended, Flush(Join(calls), Value, data, valueMark, p), Outer, data[p], p)
      modifies `state, `headerState, `nread, `errno, `calls, `valueMark
      ensures ok ==> AtReexecute(r, data, p)
      ensures !ok ==> errno.HeaderOverflow? && ended.nread > MAX_HEADER_SIZE
    {
      hide Emit, Flush, Dispatch, AtReexecute, Looking, Trace, MarksOk, NoMarks, ShownIn, Ready;
      ShowsNothing(InHeader(HeaderAlmostDone));
      state := InHeader(HeaderAlmostDone);
      ok := CountHeaderSize(p - p0);
      if ok {
        headerState := hs;
        ReportValue(data, p);
        AtReexecuteQuietly(r, data, p);
      }
    }

    // A header value that the buffer ends in
    method ValueBreaksOff(data: seq<Octet>, p0: nat, hs: HeaderState, ghost v: Config, ghost lane: Lane) returns (exit: Exit)
      requires p0 < |data| < 0x8000_0000 && errno.NoError? && state == InHeader(ValueText)
      requires MarksOk(p0) && 1 <= nread <= MAX_HEADER_SIZE && !lane.Outer?
      requires ValueProgress(Run(v, data[p0..|data|]), data, |data|, hs, nread + (|data| - p0) - 1, lane)
      modifies `headerState, `nread, `errno
      ensures exit.Break? || exit.Error?
      ensures exit.Break? ==> AtTop(Run(v, data[p0..|data|]), data, |data|)
      ensures exit.Error? ==> Failed(v, data, p0, |data|)
    {
      hide Emit, Step, Run, Flush, Trace, AtTop, Failed;
      ghost var n := nread + (|data| - p0) - 1;
      ghost var ps, tr := Fields().(headerState := hs), Flush(Join(calls), Value, data, valueMark, |data|);
      headerState := hs;
      var ok := CountHeaderSize(|data| - p0);
      if !ok {
        FailedByCount(v, data, p0, |data|, ps, tr, lane, n);
        return Error;
      }
      AtEnd(Value, data, p0, Run(v, data[p0..|data|]));
      return Break;
    }

    // The line end behind a header value
    method ValueStop(data: seq<Octet>, p0: nat, p: nat, hs: HeaderState, ghost v: Config, ghost lane: Lane)
      returns (exit: Exit)
      requires p0 <= p < |data| < 0x8000_0000 && errno.NoError? && state == InHeader(ValueText)
      requires MarksOk(p0) && 1 <= nread <= MAX_HEADER_SIZE && (data[p] == CR || data[p] == LF)
      requires ValueProgress(Run(v, data[p0..p]), data, p, hs, nread + (p - p0) - 1, lane)
      requires ConfigOk(Run(v, data[p0..p]))
      modifies `state, `headerState, `nread, `errno, `calls, `valueMark
      ensures exit.Break? || exit.Reexecute? || exit.Error?
      ensures exit.Break? ==> AtTop(Run(v, data[p0..p + 1]), data, p + 1)
      ensures exit.Reexecute? ==> AtReexecute(Run(v, data[p0..p + 1]), data, p)
      ensures exit.Error? ==> Failed(v, data, p0, p)
    {
      hide Emit, Step, Run, Flush, Trace, AtTop, AtReexecute, Failed, ConfigOk, Dispatch, Looking;
      ghost var r, n := Run(v, data[p0..p]), nread + (p - p0) - 1;
      ghost var ps, tr := Fields().(headerState := hs), Flush(Join(calls), Value, data, valueMark, p);
      ghost var ended := ps.(state := InHeader(HeaderAlmostDone), nread := n + 1);
      RunSlice(v, data, p0, p);
      LineEndIsLooking(r);
      if n < MAX_HEADER_SIZE {
        StepValueEnd(ps.(nread := n), tr, lane, p, data[p]);
      }
      var ok;
      if data[p] == CR {
        ok := ValueEndCr(data, p0, p, hs, Step(r, data[p]), ended);
        exit := Break;
      } else {
        ok := ValueEndLf(data, p0, p, hs, Step(r, data[p]), ended);
        exit := Reexecute;
      }
      if !ok {
        FailedByCount(v, data, p0, p, ps, tr, lane, n);
        exit := Error;
      }
    }

    // s_header_value; `ps` is the parser before its first byte was counted.
    method ValueLoop(data: seq<Octet>, p0: nat, ghost ps: Parser, ghost tr: seq<Event>) returns (exit: Exit, p: nat)
      requires p0 < |data| < 0x8000_0000 && errno.NoError? && MarksOk(p0)
      requires state == InHeader(ValueText) && ValueMatcherOk(headerState, index) && Resting(ps)
      requires ps.nread < MAX_HEADER_SIZE && Fields() == ps.(nread := ps.nread + 1) && Trace(data, p0) == tr
      modifies `state, `flags, `headerState, `index, `nread, `contentLength, `errno, `calls, `valueMark
      ensures p0 <= p <= |data| && (exit.Break? || exit.Reexecute? || exit.Error?)
      ensures exit.Break? ==> p < |data| && AtTop(Run(Go(ps, tr, Outer, p0), data[p0..p + 1]), data, p + 1)
      ensures exit.Reexecute? ==> p < |data| && AtReexecute(Run(Go(ps, tr, Outer, p0), data[p0..p + 1]), data, p)
      ensures exit.Error? ==> Failed(Go(ps, tr, Outer, p0), data, p0, p)
    {
      hide Emit, Step, Run, Flush, Trace, AtTop, AtReexecute, Failed, ValueMatcherOk, Resting;
      ghost var v := Go(ps, tr, Outer, p0);
      TraceOfOne(Value, data, p0, p0);
      var ok, end, hs, lane := ValueScan(data, p0, v, ps.nread);
      p := end;
      if !ok { return Error, p; }
      if p == |data| {
        exit := ValueBreaksOff(data, p0, hs, v, lane);
        if exit.Break? {
          p := p - 1;
        }
      } else {
        RunKeepsInvariant(v, data[p0..p]);
        exit := ValueStop(data, p0, p, hs, v, lane);
      }
    }

    // The last byte read of a body, which may end it.
    method BodyStop(data: seq<Octet>, p: nat, ghost r: Config) returns (exit: Exit)
      requires p < |data| && errno.NoError? && MarksOk(p) && bodyMark != NULL
      requires state == InPayload(BodyIdentity) || state == InPayload(ChunkData)
      requires contentLength == 0 && state == InPayload(BodyIdentity) ==> Looking(Fields().(state := InPayload(MessageDone)))
      requires r == BodyEnd(Fields(), contentLength, Flush(Join(calls), Body, data, bodyMark, p + 1), data[p], p)
      modifies `state, `calls, `bodyMark
      ensures exit.Break? || exit.Reexecute?
      ensures exit.Break? ==> AtTop(r, data, p + 1)
      ensures exit.Reexecute? ==> AtReexecute(r, data, p)
    {
      hide Emit, Flush, Trace, Dispatch, AtReexecute, AtTop, Looking;
      if contentLength == 0 {
        if state.payload.ChunkData? {
          state := InPayload(ChunkDataAlmostDone);
        } else {
          state := InPayload(MessageDone);
          Report(Body, data, bodyMark, p + 1);
          bodyMark := NULL;
          AtReexecuteQuietly(r, data, p);
          return Reexecute;
        }
      }
      AtTopOn(Body, r, data, p + 1);
      return Break;
    }

    // s_body_identity and s_chunk_data: as much of the body as the buffer holds.
    method BodyLoop(data: seq<Octet>, p0: nat, ghost ps: Parser, ghost tr: seq<Event>) returns (exit: Exit, p: nat)
      requires p0 < |data| && errno.NoError? && MarksOk(p0) && Looking(ps)
      requires state == InPayload(BodyIdentity) || state == InPayload(ChunkData)
      requires Fields() == ps && Trace(data, p0) == tr
      modifies `state, `contentLength, `calls, `bodyMark
      ensures p0 <= p < |data| && (exit.Break? || exit.Reexecute?)
      ensures exit.Break? ==> AtTop(Run(Go(ps, tr, Outer, p0), data[p0..p + 1]), data, p + 1)
      ensures exit.Reexecute? ==> p < |data| && AtReexecute(Run(Go(ps, tr, Outer, p0), data[p0..p + 1]), data, p)
    {
      hide Emit, Step, Run, Flush, Trace, Looking, Dispatch, AtReexecute, AtTop, BodyEnd;
      BodyLengthOk(ps);
      assert contentLength != 0 && contentLength != ULLONG_MAX && (state == InPayload(ChunkData) ==> flags.chunked);
      TraceOfOne(Body, data, p0, p0);
      var toRead := if contentLength < |data| - p0 then contentLength else |data| - p0;
      ghost var mark := bodyMark;
      if bodyMark == NULL { bodyMark := p0; }
      contentLength := contentLength - toRead;
      p := p0 + toRead - 1;
      RunWholeBody(ps, tr, data, p0, p);
      FlushMore(Join(calls), Body, data, mark, p0, p + 1);
      exit := BodyStop(data, p, Run(Go(ps, tr, Outer, p0), data[p0..p + 1]));
    }

    // s_body_identity_eof: all that the buffer holds.
    method EofLoop(data: seq<Octet>, p0: nat, ghost ps: Parser, ghost tr: seq<Event>) returns (p: nat)
      requires p0 < |data| && errno.NoError? && MarksOk(p0)
      requires state == InPayload(BodyIdentityEof)
      requires Fields() == ps && Trace(data, p0) == tr
      modifies `bodyMark
      ensures p0 <= p < |data| && AtTop(Run(Go(ps, tr, Outer, p0), data[p0..p + 1]), data, p + 1)
    {
      hide Emit, Step, Run, Flush, Trace, AtTop;
      TraceOfOne(Body, data, p0, p0);
      ghost var mark := bodyMark;
      if bodyMark == NULL { bodyMark := p0; }
      p := |data| - 1;
      RunBody(ps, tr, p0, data[p0..p + 1]);
      FlushMore(Join(calls), Body, data, mark, p0, p + 1);
      AtTopOn(Body, Run(Go(ps, tr, Outer, p0), data[p0..p + 1]), data, p + 1);
    }

    // ----- One turn of the loop over the buffer, and the whole call

    // The first pass through the switch, for a state with no loop of its own
    method SwitchFirst(data: seq<Octet>, p: nat, ghost ps: Parser, ghost tr: seq<Event>) returns (exit: Exit)
      requires Ready(data, p) && !OwnLoop(state) && Trace(data, p) == tr && TraceOk(state, tr)
      requires ParsingHeader(ps.state) ==> ps.nread < MAX_HEADER_SIZE
      requires Fields() == if ParsingHeader(ps.state) then ps.(nread := ps.nread + 1) else ps
      modifies this
      ensures exit.Break? ==> AtTop(Run(Go(ps, tr, Outer, p), data[p..p + 1]), data, p + 1)
      ensures exit.Reexecute? ==> AtReexecute(Run(Go(ps, tr, Outer, p), data[p..p + 1]), data, p)
      ensures exit.Return? ==>
                errno.NoError? && NoMarks() && Run(Go(ps, tr, Outer, p), data[p..p + 1]) == Left(Fields(), Join(calls), p + 1)
      ensures exit.Error? ==> Failed(Go(ps, tr, Outer, p), data, p, p)
    {
      hide Emit, Step, Run, Trace, Looking, MarksOk, Dispatch, Failed, Looks, TraceOk;
      ghost var v := Go(ps, tr, Outer, p);
      StepNext(ps, tr, Outer, p, data[p]);
      RunSlice(v, data, p, p);
      RunNothing(v, data, p);
      exit := Switch(data, p, Step(v, data[p]));
      if exit.Error? {
        FailedAt(v, data, p, p);
      }
    }

    // The first look at a byte that has been counted
    method FirstLook(data: seq<Octet>, p0: nat, ghost ps: Parser, ghost tr: seq<Event>) returns (exit: Exit, p: nat)
      requires p0 < |data| < 0x8000_0000 && Ready(data, p0) && Trace(data, p0) == tr && TraceOk(state, tr)
      requires Resting(ps) && (ParsingHeader(ps.state) ==> ps.nread < MAX_HEADER_SIZE)
      requires Fields() == if ParsingHeader(ps.state) then ps.(nread := ps.nread + 1) else ps
      modifies this
      ensures p0 <= p <= |data| && (!exit.Error? ==> p < |data|)
      ensures exit.Break? ==> AtTop(Run(Go(ps, tr, Outer, p0), data[p0..p + 1]), data, p + 1)
      ensures exit.Reexecute? ==> AtReexecute(Run(Go(ps, tr, Outer, p0), data[p0..p + 1]), data, p)
      ensures exit.Return? ==>
                errno.NoError? && NoMarks() && Run(Go(ps, tr, Outer, p0), data[p0..p + 1]) == Left(Fields(), Join(calls), p + 1)
      ensures exit.Error? ==> Failed(Go(ps, tr, Outer, p0), data, p0, p)
    {
      hide Emit, Step, Run, Trace, AtTop, Failed, Resting, Valid, StateOk, ValueMatcherOk, MarksOk, Dispatch, TraceOk, Looks;
      if state == InHeader(FieldName) {
        CountedIsLooking(ps);
        exit, p := FieldLoop(data, p0, ps, tr);
      } else if state == InHeader(ValueText) {
        CountedIsLooking(ps);
        exit, p := ValueLoop(data, p0, ps, tr);
      } else if state == InPayload(ChunkData) || state == InPayload(BodyIdentity) {
        exit, p := BodyLoop(data, p0, ps, tr);
      } else if state == InPayload(BodyIdentityEof) {
        p := EofLoop(data, p0, ps, tr);
        exit := Break;
      } else {
        p := p0;
        exit := SwitchFirst(data, p0, ps, tr);
      }
    }

    // One turn of the loop over the buffer: counts byte `p0` if it is in a header
    // section, and looks at it until it is consumed.
    method Turn(data: seq<Octet>, p0: nat, ghost ps: Parser, ghost tr: seq<Event>) returns (exit: Exit, p: nat)
      requires p0 < |data| < 0x8000_0000 && errno.NoError? && MarksOk(p0)
      requires Fields() == ps && Trace(data, p0) == tr && Resting(ps) && TraceOk(state, tr)
      modifies this
      ensures p0 <= p <= |data| && !exit.Reexecute?
      ensures exit.Break? ==> p < |data| && AtTop(Run(Go(ps, tr, Outer, p0), data[p0..p + 1]), data, p + 1)
      ensures exit.Return? ==>
                && p < |data| && errno.NoError? && NoMarks()
                && Run(Go(ps, tr, Outer, p0), data[p0..p + 1]) == Left(Fields(), Join(calls), p + 1)
      ensures exit.Error? ==> Failed(Go(ps, tr, Outer, p0), data, p0, p)
    {
      hide Emit, Step, Run, Trace, AtTop, Failed, Resting, Looking, MarksOk, Dispatch, TraceOk, Looks;
      ghost var v := Go(ps, tr, Outer, p0);
      CountOfResting(ps);
      p := p0;
      if ParsingHeader(state) {
        var ok := CountHeaderSize(1);
        if !ok {
          RunNothing(v, data, p0);
          FailedByCount(v, data, p0, p0, ps, tr, Outer, ps.nread);
          return Error, p;
        }
      }
      CountedIsLooking(ps);
      exit, p := FirstLook(data, p0, ps, tr);
      ghost var r := if p < |data| then Run(v, data[p0..p + 1]) else v;
      while exit.Reexecute?
        invariant p0 <= p <= |data|
        invariant exit.Break? ==> p < |data| && AtTop(r, data, p + 1)
        invariant exit.Reexecute? ==> p < |data| && AtReexecute(r, data, p)
        invariant exit.Return? ==>
                    p < |data| && errno.NoError? && NoMarks() && r == Left(Fields(), Join(calls), p + 1)
        invariant exit.Error? ==> Failed(v, data, p0, p)
        decreases exit.Reexecute?, Looks(state)
      {
        exit := Switch(data, p, r);
        if exit.Break? {
          AtTopAt(r, data, p + 1);
        }
        if exit.Error? {
          RunSlice(v, data, p0, p);
          FailedAt(v, data, p0, p);
        }
      }
    }

    // The marks a call starts with
    method StartMarks(data: seq<Octet>)
      requires errno.NoError? && TraceOk(state, Join(calls))
      modifies `fieldMark, `valueMark, `urlMark, `bodyMark, `statusMark
      ensures MarksOk(0)
      ensures Trace(data, 0) == Join(calls)
    {
      hide Emit, EndsWithData, Join, Trace, Flush;
      fieldMark, valueMark, urlMark, bodyMark, statusMark := NULL, NULL, NULL, NULL, NULL;
      if state == InHeader(FieldName) { fieldMark := 0; }
      if state == InHeader(ValueText) { valueMark := 0; }
      match state {
        case InUrl(_) => urlMark := 0;
        case ResponseLine(ResStatus) => statusMark := 0;
        case _ =>
      }
      if ShownIn(state).Some? {
        ghost var k := ShownIn(state).kind;
        TraceOfOne(k, data, 0, 0);
        EmitEmpty(Join(calls), k);
        FlushEmpty(Join(calls), k, data);
      } else {
        TraceOfNone(data, 0);
      }
    }

    // The callbacks for the marks left over at the end of a call
    method FlushMarks(data: seq<Octet>)
      requires errno.NoError? && MarksOk(|data|)
      modifies `calls, `fieldMark, `valueMark, `urlMark, `bodyMark, `statusMark
      ensures Join(calls) == old(Trace(data, |data|))
    {
      hide Emit, Flush, Join;
      assert (if fieldMark != NULL then 1 else 0) + (if valueMark != NULL then 1 else 0) + (if urlMark != NULL then 1 else 0)
             + (if bodyMark != NULL then 1 else 0) + (if statusMark != NULL then 1 else 0) <= 1;
      Report(Field, data, fieldMark, |data|);
      fieldMark := NULL;
      Report(Value, data, valueMark, |data|);
      valueMark := NULL;
      Report(UrlData, data, urlMark, |data|);
      urlMark := NULL;
      Report(Body, data, bodyMark, |data|);
      bodyMark := NULL;
      Report(Status, data, statusMark, |data|);
      statusMark := NULL;
    }

    // A call with no bytes: the end of the stream.
    method ExecuteEof() returns (nparsed: nat)
      requires Valid() && errno.NoError?
      modifies this
      ensures Valid() && Fields() == old(Fields())
      ensures match EofIn(state)
              case Completes =>
                nparsed == 0 && errno.NoError? && Join(calls) == Emit(Join(old(calls)), MessageComplete(ShouldKeepAlive(Fields())))
              case Expected => nparsed == 0 && errno.NoError? && calls == old(calls)
              case Unexpected => nparsed == 1 && errno.InvalidEofState? && calls == old(calls)
    {
      hide Emit, ShouldKeepAlive;
      if state == InPayload(BodyIdentityEof) {
        var keepAlive := KeepAlive();
        Notify(MessageComplete(keepAlive));
        return 0;
      } else if state.Starting? && !state.start.ResOrRespH? {
        return 0;
      } else {
        errno := InvalidEofState;
        return 1;
      }
    }

    // http_parser_execute
    method Execute(data: seq<Octet>) returns (nparsed: nat)
      requires Valid() && |data| < 0x8000_0000
      modifies this
      ensures Valid() && (nparsed <= |data| || (data == [] && nparsed == 1))
      ensures !old(errno).NoError? ==>
                nparsed == 0 && calls == old(calls) && Fields() == old(Fields()) && errno == old(errno)
      ensures old(errno).NoError? && data == [] ==>
                match EofIn(old(state))
                case Completes =>
                  && nparsed == 0 && errno.NoError? && Fields() == old(Fields())
                  && Join(calls) == Emit(Join(old(calls)), MessageComplete(ShouldKeepAlive(Fields())))
                case Expected => nparsed == 0 && errno.NoError? && Fields() == old(Fields()) && calls == old(calls)
                case Unexpected => nparsed == 1 && errno.InvalidEofState? && calls == old(calls)
      ensures old(errno).NoError? && data != [] ==> DidCall(data, nparsed)
    {
      if errno != NoError { return 0; }
      if |data| == 0 {
        nparsed := ExecuteEof();
        return;
      }
      nparsed := ExecuteData(data);
    }

    // The loop over a non-empty buffer
    method ExecuteData(data: seq<Octet>) returns (nparsed: nat)
      requires Valid() && errno.NoError? && 0 < |data| < 0x8000_0000
      modifies this
      ensures Valid() && nparsed <= |data| && DidCall(data, nparsed)
    {
      hide Emit, Run, Trace, Resting, TraceOk, MarksOk, Join;
      CallKeepsInvariant(Fields(), Join(calls), data);
      CallKeepsTrace(Fields(), Join(calls), data);
      ghost var c := Begin(Fields(), Join(calls));
      StartMarks(data);
      RunNothing(c, data, 0);
      var p := 0;
      while p != |data|
        invariant 0 <= p <= |data| && AtTop(Run(c, data[..p]), data, p)
      {
        RunKeepsInvariant(c, data[..p]);
        RunKeepsTrace(c, data[..p]);
        RunFrom(c, data, p);
        assert data[p..] == data[p..|data|];
        var exit, q := Turn(data, p, Fields(), Trace(data, p));
        if exit == Return {
          RunLeft(c, data, q + 1);
          return q + 1;
        } else if exit == Error {
          return q;
        }
        p := q + 1;
      }
      assert data[..p] == data;
      FlushMarks(data);
      return |data|;
    }

    // The whole effect of a call on a non-empty buffer.
    twostate predicate DidCall(data: seq<Octet>, nparsed: nat)
      reads this
    {
      match Call(old(Fields()), Join(old(calls)), data)
      case Go(ps, tr, _, _) => errno.NoError? && Fields() == ps && Join(calls) == tr && nparsed == |data|
      case Left(ps, tr, pos) => errno.NoError? && Fields() == ps && Join(calls) == tr && nparsed == pos
      case Bad(e, pos) => !errno.NoError? && (e.HeaderOverflow? || (errno == e && nparsed == pos))
    }
  }

  lemma CompletedShowsNothing(ps: Parser)
    ensures ShownIn(CompletedParser(ps).state).Nothing?
  {
    hide ShouldKeepAlive;
  }

  // What the end of the stream means in a state.
  datatype Eof = Completes | Expected | Unexpected

  function EofIn(s: State): Eof {
    match s
    case InPayload(BodyIdentityEof) => Completes
    case Starting(Dead) => Expected
    case Starting(StartReqOrRes) => Expected
    case Starting(StartRes) => Expected
    case Starting(StartReq) => Expected
    case _ => Unexpected
  }

  lemma FlushEmpty(tr: seq<Event>, k: DataKind, data: seq<Octet>)
    ensures Flush(tr, k, data, 0, 0) == Emit(tr, Data(k, []))
  {
    hide Emit;
  }

  // A mark set at `p`, or before it, covers the bytes up to a later position `q`.
  lemma FlushMore(tr: seq<Event>, k: DataKind, data: seq<Octet>, mark: int, p: nat, q: nat)
    requires NULL <= mark <= p <= q <= |data|
    ensures Flush(tr, k, data, if mark == NULL then p else mark, q) == Emit(Flush(tr, k, data, mark, p), Data(k, data[p..q]))
  {
    hide Emit;
    if mark != NULL {
      assert data[mark..q] == data[mark..p] + data[p..q];
      EmitTwice(tr, k, data[mark..p], data[p..q]);
    }
  }

  lemma CountOfResting(ps: Parser)
    requires Resting(ps)
    ensures ps.nread <= MAX_HEADER_SIZE
  {
  }

  lemma LineEndIsLooking(r: Config)
    requires ConfigOk(r)
    ensures r.Go? && r.ps.state == InHeader(ValueText) && r.ps.nread < MAX_HEADER_SIZE ==>
              Looking(r.ps.(state := InHeader(HeaderAlmostDone), nread := r.ps.nread + 1))
  {
  }

  lemma SkipAdvances(v: Config, data: seq<Octet>, p0: nat, p: nat, q: nat, ps: Parser, tr: seq<Event>, mark: int,
                     lane: Lane, n: nat)
    requires p0 <= p < q <= |data| && ps.state == InHeader(ValueText) && ps.headerState.General?
    requires 0 <= mark <= p
    requires if n > MAX_HEADER_SIZE then Run(v, data[p0..p]).Bad? && Run(v, data[p0..p]).e.HeaderOverflow?
             else Run(v, data[p0..p]) == Go(ps.(nread := n), Flush(tr, Value, data, mark, p), lane, p)
    requires lane.Skipping? || ps.settings.lenient || IsHeaderChar(data[p])
    requires q < |data| ==> NoLineEnd(data[p..q])
    requires q == |data| ==>
               NoLineEnd(data[p..]) || (|data| - p > MAX_HEADER_SIZE && NoLineEnd(data[p..][..MAX_HEADER_SIZE]))
    ensures if n + (q - p) > MAX_HEADER_SIZE then Run(v, data[p0..q]).Bad? && Run(v, data[p0..q]).e.HeaderOverflow?
            else Run(v, data[p0..q]) == Go(ps.(nread := n + (q - p)), Flush(tr, Value, data, mark, q), Skipping, q)
  {
    hide Run, Emit, IsHeaderChar, NoLineEnd;
    if q == |data| {
      assert data[p..] == data[p..q];
    }
    RunFastSkip(v, data, p0, p, q, ps, Flush(tr, Value, data, mark, p), lane, n);
    EmitTwice(tr, Value, data[mark..p], data[p..q]);
    assert data[mark..p] + data[p..q] == data[mark..q];
  }

  lemma ValueTextShows()
    ensures ShownIn(InHeader(ValueText)) == Some(Value)
  {
  }

  lemma ValueStartIgnoresState(ps: Parser, s: State, index: nat, tr: seq<Event>, ch: Octet)
    ensures ValueStartStep(ps.(state := s, index := index), tr, ch) == ValueStartStep(ps, tr, ch)
  {
    hide Emit, Lower;
  }

  // A mark set at `p`, or before it, covers one byte more at the next position.
  lemma FlushOneMore(tr: seq<Event>, k: DataKind, data: seq<Octet>, mark: int, p: nat)
    requires NULL <= mark <= p < |data|
    ensures Flush(tr, k, data, if mark == NULL then p else mark, p + 1) == Emit(Flush(tr, k, data, mark, p), Data(k, [data[p]]))
    ensures Flush(tr, k, data, NULL, p) == Flush(tr, k, data, NULL, p + 1) == tr
  {
    hide Emit;
    if mark == NULL {
      assert data[p..p + 1] == [data[p]];
    } else {
      assert data[mark..p + 1] == data[mark..p] + [data[p]];
      EmitTwice(tr, k, data[mark..p], [data[p]]);
    }
  }
}
