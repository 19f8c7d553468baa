// Exactly which byte strings are accepted as URLs: a grammar, and the two
// automata of http_parser_parse_url proved to accept its words and no others.
module HttpUrlGrammar {
  import opened HttpChars
  import opened HttpMachine
  import opened HttpTypes
  import opened HttpLengths
  import opened HttpUrl
  import opened HttpUrlTrip

  // ----- The first pass: scheme, server, path, query and fragment

  // The query with its '?', the fragment with its '#'
  datatype Parts = Parts(scheme: seq<Octet>, server: seq<Octet>, path: seq<Octet>, query: seq<Octet>, fragment: seq<Octet>)

  const NO_PARTS := Parts([], [], [], [], [])

  predicate SchemeOk(w: seq<Octet>) {
    forall k :: 0 <= k < |w| ==> IsAlpha(w[k])
  }

  // No two '@' next to each other
  predicate ServerOk(w: seq<Octet>) {
    && (forall k :: 0 <= k < |w| ==> ServerByte(w[k]) || w[k] == '@')
    && (forall k :: 0 < k < |w| ==> !(w[k - 1] == '@' && w[k] == '@'))
  }

  predicate PathOk(w: seq<Octet>, star: bool) {
    w != [] ==> (w[0] == '/' || (star && w[0] == '*')) && forall k :: 0 <= k < |w| ==> IsUrlChar(w[k])
  }

  predicate QueryOk(w: seq<Octet>) {
    w != [] ==> w[0] == '?' && forall k :: 0 < k < |w| ==> IsUrlChar(w[k]) || w[k] == '?'
  }

  predicate FragmentOk(w: seq<Octet>) {
    w != [] ==> w[0] == '#' && forall k :: 0 <= k < |w| ==> IsUrlChar(w[k]) || w[k] == '?' || w[k] == '#'
  }

  // How the parts are spelled, and which may stand without which: a server only
  // behind a scheme, a '*' only at the beginning, a query not at the beginning,
  // and a fragment only behind a path or a query.
  predicate Spelled(p: Parts) {
    && SchemeOk(p.scheme) && ServerOk(p.server) && PathOk(p.path, p.scheme == []) && QueryOk(p.query) && FragmentOk(p.fragment)
    && (p.scheme == [] ==> p.server == [] && (p.path == [] ==> p.query == []))
    && (p.path == [] && p.query == [] ==> p.fragment == [])
  }

  function Rest(p: Parts): seq<Octet> {
    p.server + p.path + p.query + p.fragment
  }

  // The scheme and as much of "://" as has been read in the state
  function Front(scheme: seq<Octet>, s: Scanned): seq<Octet> {
    if scheme == [] then []
    else
      scheme + (match s
                case At(ReqSchema) => []
                case At(ReqSchemaSlash) => [':']
                case At(ReqSchemaSlashSlash) => [':', '/']
                case _ => [':', '/', '/'])
  }

  predicate AllHashes(w: seq<Octet>) {
    forall k :: 0 <= k < |w| ==> w[k] == '#'
  }

  predicate EndsWithAt(w: seq<Octet>) {
    w != [] && w[|w| - 1] == '@'
  }

  // Which parts have been begun in a state
  predicate Begun(p: Parts, s: Scanned) {
    match s
    case BeforeUrl => p == NO_PARTS
    case Dead => false
    case At(ReqPath) => p.path != [] && p.query == [] && p.fragment == []
    case At(ReqQueryStart) => p.query == ['?'] && p.fragment == []
    case At(ReqQuery) => |p.query| >= 2 && p.fragment == []
    case At(ReqFragmentStart) => p.fragment != [] && AllHashes(p.fragment)
    case At(ReqFragment) => !AllHashes(p.fragment)
    case At(ReqServer) => p.scheme != [] && p.server != [] && !EndsWithAt(p.server) && p.path + p.query + p.fragment == []
    case At(ReqServerWithAt) => p.scheme != [] && EndsWithAt(p.server) && p.path + p.query + p.fragment == []
    case _ => p.scheme != [] && Rest(p) == []
  }

  predicate Shape(p: Parts, s: Scanned, b: seq<Octet>) {
    Spelled(p) && Begun(p, s) && b == Front(p.scheme, s) + Rest(p)
  }

  // The parts with one more byte, which led to the state
  function Put(p: Parts, s: Scanned, ch: Octet): Parts {
    match s
    case At(ReqSchema) => p.(scheme := p.scheme + [ch])
    case At(ReqServer) => p.(server := p.server + [ch])
    case At(ReqServerWithAt) => p.(server := p.server + [ch])
    case At(ReqPath) => p.(path := p.path + [ch])
    case At(ReqQueryStart) => p.(query := p.query + [ch])
    case At(ReqQuery) => p.(query := p.query + [ch])
    case At(ReqFragmentStart) => p.(fragment := p.fragment + [ch])
    case At(ReqFragment) => p.(fragment := p.fragment + [ch])
    case _ => p
  }

  // What a byte must be to lead from state to state
  predicate Leads(s: Scanned, ch: Octet, next: Scanned) {
    match next
    case BeforeUrl => false
    case Dead => false
    case At(ReqSchema) => (s == BeforeUrl || s == At(ReqSchema)) && IsAlpha(ch)
    case At(ReqSchemaSlash) => s == At(ReqSchema) && ch == ':'
    case At(ReqSchemaSlashSlash) => s == At(ReqSchemaSlash) && ch == '/'
    case At(ReqServerStart) => s == At(ReqSchemaSlashSlash) && ch == '/'
    case At(ReqServer) => (s == At(ReqServerStart) || s == At(ReqServer) || s == At(ReqServerWithAt)) && ServerByte(ch)
    case At(ReqServerWithAt) => (s == At(ReqServerStart) || s == At(ReqServer)) && ch == '@'
    case At(ReqPath) =>
      || (s == BeforeUrl && (ch == '/' || ch == '*')) || (s == At(ReqPath) && IsUrlChar(ch))
      || ((s == At(ReqServerStart) || s == At(ReqServer) || s == At(ReqServerWithAt)) && ch == '/')
    case At(ReqQueryStart) =>
      (s == At(ReqServerStart) || s == At(ReqServer) || s == At(ReqServerWithAt) || s == At(ReqPath)) && ch == '?'
    case At(ReqQuery) => (s == At(ReqQueryStart) || s == At(ReqQuery)) && (IsUrlChar(ch) || ch == '?')
    case At(ReqFragmentStart) =>
      (s == At(ReqPath) || s == At(ReqQueryStart) || s == At(ReqQuery) || s == At(ReqFragmentStart)) && ch == '#'
    case At(ReqFragment) =>
      || (s == At(ReqFragmentStart) && (IsUrlChar(ch) || ch == '?'))
      || (s == At(ReqFragment) && (IsUrlChar(ch) || ch == '?' || ch == '#'))
  }

  // The automaton moves exactly so.
  lemma ScanLeads(s: Scanned, ch: Octet, next: Scanned)
    ensures !next.Dead? ==> (ScanNext(s, ch) == next <==> Leads(s, ch, next))
  {
    hide ScanNext, Leads;
    if next.Dead? {
    } else if Rank(next) <= 3 {
      ScanLeadsToServer(s, ch, next);
    } else if Rank(next) == 4 {
      ScanLeadsInServer(s, ch, next);
    } else if Rank(next) <= 6 {
      ScanLeadsToPath(s, ch, next);
    } else {
      ScanLeadsOn(s, ch, next);
    }
  }

  lemma ScanLeadsToServer(s: Scanned, ch: Octet, next: Scanned)
    requires Rank(next) <= 3
    ensures ScanNext(s, ch) == next <==> Leads(s, ch, next)
  {
  }

  lemma ScanLeadsInServer(s: Scanned, ch: Octet, next: Scanned)
    requires Rank(next) == 4
    ensures ScanNext(s, ch) == next <==> Leads(s, ch, next)
  {
  }

  lemma ScanLeadsToPath(s: Scanned, ch: Octet, next: Scanned)
    requires 5 <= Rank(next) <= 6
    ensures ScanNext(s, ch) == next <==> Leads(s, ch, next)
  {
  }

  lemma ScanLeadsOn(s: Scanned, ch: Octet, next: Scanned)
    requires 7 <= Rank(next) < 10
    ensures ScanNext(s, ch) == next <==> Leads(s, ch, next)
  {
  }

  lemma FrontGrows(p: Parts, s: Scanned, b: seq<Octet>, ch: Octet, next: Scanned)
    requires Shape(p, s, b) && Leads(s, ch, next)
    requires next == At(ReqSchema) || next == At(ReqSchemaSlash) || next == At(ReqSchemaSlashSlash) || next == At(ReqServerStart)
    ensures Shape(Put(p, next, ch), next, b + [ch])
  {
    hide ServerOk, PathOk, QueryOk, FragmentOk, IsAlpha;
    var q := Put(p, next, ch);
    assert Rest(p) == [];
    NothingYet(p);
    assert Rest(q) == [] && SchemeOk(q.scheme);
    NothingIsOk();
    FrontMore(p.scheme, s, ch, next);
    assert b == Front(p.scheme, s);
  }

  lemma FrontMore(scheme: seq<Octet>, s: Scanned, ch: Octet, next: Scanned)
    requires Leads(s, ch, next) && (s == BeforeUrl <==> scheme == [])
    requires next == At(ReqSchema) || next == At(ReqSchemaSlash) || next == At(ReqSchemaSlashSlash) || next == At(ReqServerStart)
    ensures Front(if next == At(ReqSchema) then scheme + [ch] else scheme, next) == Front(scheme, s) + [ch]
  {
    hide IsAlpha;
  }

  lemma NothingYet(p: Parts)
    requires Rest(p) == []
    ensures p.server == [] && p.path == [] && p.query == [] && p.fragment == []
  {
    assert |Rest(p)| == |p.server| + |p.path| + |p.query| + |p.fragment|;
  }

  // Up to "://", the front is complete.
  lemma FrontIsWhole(scheme: seq<Octet>, s: Scanned, next: Scanned)
    requires s == BeforeUrl ==> scheme == []
    requires s != At(ReqSchema) && s != At(ReqSchemaSlash) && s != At(ReqSchemaSlashSlash)
    requires next != At(ReqSchema) && next != At(ReqSchemaSlash) && next != At(ReqSchemaSlashSlash)
    ensures Front(scheme, s) == Front(scheme, next)
  {
  }

  lemma ServerGrows(p: Parts, s: Scanned, b: seq<Octet>, ch: Octet, next: Scanned)
    requires Shape(p, s, b) && Leads(s, ch, next) && (next == At(ReqServer) || next == At(ReqServerWithAt))
    ensures Shape(Put(p, next, ch), next, b + [ch])
  {
    hide SchemeOk, ServerOk, PathOk, QueryOk, FragmentOk, Front, ServerByte, Rest, EndsWithAt;
    FrontIsWhole(p.scheme, s, next);
    assert p.path == [] && p.query == [] && p.fragment == [] && (s == At(ReqServerStart) ==> p.server == []) by { NoTail(p); }
    var q := Put(p, next, ch);
    NothingIsOk();
    ServerMore(p.server, ch);
    ServerOnly(p);
    ServerOnly(q);
    assert Front(p.scheme, s) + p.server + [ch] == Front(p.scheme, s) + (p.server + [ch]);
  }

  lemma ServerOnly(p: Parts)
    requires p.path == [] && p.query == [] && p.fragment == []
    ensures Rest(p) == p.server && p.path + p.query + p.fragment == []
  {
  }

  lemma ServerMore(w: seq<Octet>, ch: Octet)
    requires ServerOk(w) && (ServerByte(ch) || (ch == '@' && !EndsWithAt(w)))
    ensures ServerOk(w + [ch]) && (EndsWithAt(w + [ch]) <==> ch == '@') && !ServerByte('@')
  {
    hide ServerByte;
    AtIsNoServerByte();
  }

  lemma NothingIsOk()
    ensures ServerOk([]) && PathOk([], true) && PathOk([], false) && QueryOk([]) && FragmentOk([]) && !EndsWithAt([])
  {
  }

  lemma AtIsNoServerByte()
    ensures !ServerByte('@') && !ServerByte('/') && !ServerByte('?') && !ServerByte('#')
  {
  }

  lemma NoTail(p: Parts)
    requires p.path + p.query + p.fragment == [] || Rest(p) == []
    ensures p.path == [] && p.query == [] && p.fragment == [] && (Rest(p) == [] ==> p.server == [])
  {
    assert |p.path + p.query + p.fragment| == |p.path| + |p.query| + |p.fragment|;
    assert |Rest(p)| == |p.server| + |p.path| + |p.query| + |p.fragment|;
  }

  lemma PathGrows(p: Parts, s: Scanned, b: seq<Octet>, ch: Octet)
    requires Shape(p, s, b) && Leads(s, ch, At(ReqPath))
    ensures Shape(Put(p, At(ReqPath), ch), At(ReqPath), b + [ch])
  {
    hide SchemeOk, ServerOk, QueryOk, FragmentOk, Front, IsUrlChar, Rest;
    FrontIsWhole(p.scheme, s, At(ReqPath));
    UrlChars();
    assert p.query == [] && p.fragment == [] by {
      if s != At(ReqPath) {
        NoTail(p);
      }
    }
    assert s != At(ReqPath) ==> p.path == [] by {
      if s != At(ReqPath) {
        NoTail(p);
      }
    }
    var q := Put(p, At(ReqPath), ch);
    RestMore(p, ch);
    assert Front(p.scheme, s) + Rest(p) + [ch] == Front(p.scheme, s) + (Rest(p) + [ch]);
  }

  lemma RestMore(p: Parts, ch: Octet)
    requires p.fragment == []
    ensures p.query == [] ==> Rest(p.(path := p.path + [ch])) == Rest(p) + [ch]
    ensures Rest(p.(query := p.query + [ch])) == Rest(p) + [ch]
  {
  }

  lemma UrlChars()
    ensures IsUrlChar('/') && IsUrlChar('*') && !IsUrlChar('?') && !IsUrlChar('#')
  {
  }

  lemma QueryGrows(p: Parts, s: Scanned, b: seq<Octet>, ch: Octet, next: Scanned)
    requires Shape(p, s, b) && Leads(s, ch, next) && (next == At(ReqQueryStart) || next == At(ReqQuery))
    ensures Shape(Put(p, next, ch), next, b + [ch])
  {
    hide SchemeOk, ServerOk, PathOk, FragmentOk, Front, IsUrlChar, Rest;
    FrontIsWhole(p.scheme, s, next);
    assert p.fragment == [] by {
      if s != At(ReqPath) && s != At(ReqQueryStart) && s != At(ReqQuery) {
        NoTail(p);
      }
    }
    assert next == At(ReqQueryStart) ==> p.query == [] by {
      if s != At(ReqPath) && next == At(ReqQueryStart) {
        NoTail(p);
      }
    }
    var q := Put(p, next, ch);
    RestMore(p, ch);
    assert Front(p.scheme, s) + Rest(p) + [ch] == Front(p.scheme, s) + (Rest(p) + [ch]);
  }

  lemma FragmentGrows(p: Parts, s: Scanned, b: seq<Octet>, ch: Octet, next: Scanned)
    requires Shape(p, s, b) && Leads(s, ch, next) && (next == At(ReqFragmentStart) || next == At(ReqFragment))
    ensures Shape(Put(p, next, ch), next, b + [ch])
  {
    hide SchemeOk, ServerOk, PathOk, QueryOk, Front, IsUrlChar;
    FrontIsWhole(p.scheme, s, next);
    UrlChars();
    var q := Put(p, next, ch);
    assert q.fragment[|p.fragment|] == ch;
    assert forall k :: 0 <= k < |p.fragment| ==> q.fragment[k] == p.fragment[k];
    assert Rest(q) == Rest(p) + [ch];
    assert Front(p.scheme, s) + Rest(p) + [ch] == Front(p.scheme, s) + (Rest(p) + [ch]);
  }

  lemma ShapeGrows(p: Parts, s: Scanned, b: seq<Octet>, ch: Octet)
    requires Shape(p, s, b) && !ScanNext(s, ch).Dead?
    ensures Shape(Put(p, ScanNext(s, ch), ch), ScanNext(s, ch), b + [ch])
  {
    hide Shape, ScanNext, Put, Leads;
    var next := ScanNext(s, ch);
    ScanLeads(s, ch, next);
    match next {
      case BeforeUrl => NeverBack(s, ch);
      case At(ReqServer) => ServerGrows(p, s, b, ch, next);
      case At(ReqServerWithAt) => ServerGrows(p, s, b, ch, next);
      case At(ReqPath) => PathGrows(p, s, b, ch);
      case At(ReqQueryStart) => QueryGrows(p, s, b, ch, next);
      case At(ReqQuery) => QueryGrows(p, s, b, ch, next);
      case At(ReqFragmentStart) => FragmentGrows(p, s, b, ch, next);
      case At(ReqFragment) => FragmentGrows(p, s, b, ch, next);
      case _ => FrontGrows(p, s, b, ch, next);
    }
  }

  lemma NeverBack(s: Scanned, ch: Octet)
    ensures !Leads(s, ch, BeforeUrl)
  {
  }

  // The parts of a byte string, as the automaton passes them
  function PartsOf(b: seq<Octet>): Parts {
    if b == [] then NO_PARTS else Put(PartsOf(b[..|b| - 1]), Scan(b, false), b[|b| - 1])
  }

  lemma StaysDead(s: Scanned, ch: Octet)
    ensures s.Dead? ==> ScanNext(s, ch).Dead?
  {
  }

  lemma {:induction false} ScannedHasShape(b: seq<Octet>)
    requires !Scan(b, false).Dead?
    ensures Shape(PartsOf(b), Scan(b, false), b)
  {
    hide Shape, ScanNext, Put;
    if b == [] {
      assert Shape(NO_PARTS, BeforeUrl, []) by { EmptyShape(); }
    } else {
      var init, ch := b[..|b| - 1], b[|b| - 1];
      StaysDead(Scan(init, false), ch);
      ScannedHasShape(init);
      ShapeGrows(PartsOf(init), Scan(init, false), init, ch);
      assert init + [ch] == b;
    }
  }

  lemma EmptyShape()
    ensures Shape(NO_PARTS, BeforeUrl, [])
  {
  }

  // ----- From the parts to the state

  // The state in front of the path, the query, or the fragment
  function BeforePath(p: Parts): Scanned {
    if p.scheme == [] then BeforeUrl
    else if p.server == [] then At(ReqServerStart)
    else if EndsWithAt(p.server) then At(ReqServerWithAt)
    else At(ReqServer)
  }

  function BeforeQuery(p: Parts): Scanned {
    if p.path == [] then BeforePath(p) else At(ReqPath)
  }

  function BeforeFragment(p: Parts): Scanned {
    if p.query == [] then BeforeQuery(p) else if |p.query| == 1 then At(ReqQueryStart) else At(ReqQuery)
  }

  function StateOf(p: Parts): Scanned {
    if p.fragment == [] then BeforeFragment(p) else if AllHashes(p.fragment) then At(ReqFragmentStart) else At(ReqFragment)
  }

  function Written(p: Parts): seq<Octet> {
    (if p.scheme == [] then [] else p.scheme + COLON_SLASHES) + Rest(p)
  }

  lemma ScanSnoc(b: seq<Octet>, ch: Octet)
    ensures Scan(b + [ch], false) == ScanNext(Scan(b, false), ch)
    ensures PartsOf(b + [ch]) == Put(PartsOf(b), Scan(b + [ch], false), ch)
  {
    assert (b + [ch])[..|b|] == b;
  }

  // What is put to the last part is written last.
  lemma FragmentMore(p: Parts, ch: Octet)
    ensures Written(p.(fragment := p.fragment + [ch])) == Written(p) + [ch]
  {
  }

  lemma QueryMore(p: Parts, ch: Octet)
    requires p.fragment == []
    ensures Written(p.(query := p.query + [ch])) == Written(p) + [ch]
  {
  }

  lemma PathMore(p: Parts, ch: Octet)
    requires p.query == [] && p.fragment == []
    ensures Written(p.(path := p.path + [ch])) == Written(p) + [ch]
  {
  }

  lemma WrittenMore(p: Parts, ch: Octet)
    requires p.path == [] && p.query == [] && p.fragment == []
    ensures Written(p.(server := p.server + [ch])) == Written(p) + [ch]
  {
  }

  lemma {:induction false} FragmentReads(p: Parts)
    requires Spelled(p) && p.fragment != []
    requires Scan(Written(p.(fragment := [])), false) == BeforeFragment(p) && PartsOf(Written(p.(fragment := []))) == p.(fragment := [])
    ensures Scan(Written(p), false) == StateOf(p) && PartsOf(Written(p)) == p
    decreases |p.fragment|
  {
    hide SchemeOk, ServerOk, PathOk, QueryOk, Scan, ScanNext, IsUrlChar, PartsOf, Written;
    var f := p.fragment;
    var init, ch := f[..|f| - 1], f[|f| - 1];
    assert f == init + [ch];
    var q := p.(fragment := init);
    FragmentMore(q, ch);
    UrlChars();
    ScanSnoc(Written(q), ch);
    ScanLeads(StateOf(q), ch, StateOf(p));
    if init != [] {
      assert p.(fragment := []) == q.(fragment := []);
      FragmentReads(q);
    }
  }

  lemma {:induction false} QueryReads(p: Parts)
    requires Spelled(p) && p.query != [] && p.fragment == []
    requires Scan(Written(p.(query := [])), false) == BeforeQuery(p) && PartsOf(Written(p.(query := []))) == p.(query := [])
    ensures Scan(Written(p), false) == StateOf(p) && PartsOf(Written(p)) == p
    decreases |p.query|
  {
    hide SchemeOk, ServerOk, PathOk, FragmentOk, Scan, ScanNext, IsUrlChar, PartsOf, Written;
    var f := p.query;
    var init, ch := f[..|f| - 1], f[|f| - 1];
    assert f == init + [ch];
    var q := p.(query := init);
    QueryMore(q, ch);
    ScanSnoc(Written(q), ch);
    ScanLeads(StateOf(q), ch, StateOf(p));
    if init != [] {
      assert p.(query := []) == q.(query := []);
      QueryReads(q);
    }
  }

  lemma {:induction false} PathReads(p: Parts)
    requires Spelled(p) && p.path != [] && p.query == [] && p.fragment == []
    requires Scan(Written(p.(path := [])), false) == BeforePath(p) && PartsOf(Written(p.(path := []))) == p.(path := [])
    ensures Scan(Written(p), false) == StateOf(p) && PartsOf(Written(p)) == p
    decreases |p.path|
  {
    hide SchemeOk, ServerOk, QueryOk, FragmentOk, Scan, ScanNext, IsUrlChar, PartsOf, Written;
    var f := p.path;
    var init, ch := f[..|f| - 1], f[|f| - 1];
    assert f == init + [ch];
    var q := p.(path := init);
    PathMore(q, ch);
    ScanSnoc(Written(q), ch);
    ScanLeads(StateOf(q), ch, StateOf(p));
    if init != [] {
      assert p.(path := []) == q.(path := []);
      PathReads(q);
    }
  }

  lemma {:induction false} ServerReads(p: Parts)
    requires Spelled(p) && p.server != [] && p.path == [] && p.query == [] && p.fragment == []
    requires Scan(Written(p.(server := [])), false) == At(ReqServerStart) && PartsOf(Written(p.(server := []))) == p.(server := [])
    ensures Scan(Written(p), false) == StateOf(p) && PartsOf(Written(p)) == p
    decreases |p.server|
  {
    hide SchemeOk, PathOk, QueryOk, FragmentOk, Scan, ScanNext, ServerByte, PartsOf, Written;
    var f := p.server;
    var init, ch := f[..|f| - 1], f[|f| - 1];
    assert f == init + [ch];
    var q := p.(server := init);
    WrittenMore(q, ch);
    AtIsNoServerByte();
    ScanSnoc(Written(q), ch);
    ScanLeads(StateOf(q), ch, StateOf(p));
    if init != [] {
      assert p.(server := []) == q.(server := []);
      ServerReads(q);
    }
  }

  // The automaton passes every spelled word, into the state that its parts
  // say, and takes it apart into these parts.
  lemma SpelledIsScanned(p: Parts)
    requires Spelled(p)
    ensures Scan(Written(p), false) == StateOf(p) && PartsOf(Written(p)) == p
  {
    hide Scan, SchemeOk, ServerOk, PathOk, QueryOk, FragmentOk, PartsOf;
    NothingIsOk();
    var p1 := Parts(p.scheme, [], [], [], []);
    var p2 := p1.(server := p.server);
    var p3 := p2.(path := p.path);
    var p4 := p3.(query := p.query);
    SchemeReads(p.scheme);
    if p.server != [] {
      assert p2.(server := []) == p1;
      ServerReads(p2);
    }
    if p.path != [] {
      assert p3.(path := []) == p2;
      PathReads(p3);
    }
    if p.query != [] {
      assert p4.(query := []) == p3;
      QueryReads(p4);
    }
    if p.fragment != [] {
      assert p.(fragment := []) == p4;
      FragmentReads(p);
    }
  }

  lemma {:induction false} LettersRead(scheme: seq<Octet>)
    requires SchemeOk(scheme)
    ensures Scan(scheme, false) == if scheme == [] then BeforeUrl else At(ReqSchema)
    ensures PartsOf(scheme) == Parts(scheme, [], [], [], [])
  {
    hide IsAlpha, ScanNext, Scan, PartsOf;
    if scheme == [] {
      NothingScanned();
    } else {
      var init, ch := scheme[..|scheme| - 1], scheme[|scheme| - 1];
      assert init + [ch] == scheme;
      LettersRead(init);
      LetterLeads(Scan(init, false), ch);
      ScanSnoc(init, ch);
    }
  }

  lemma NothingScanned()
    ensures Scan([], false) == BeforeUrl && PartsOf([]) == NO_PARTS
  {
  }

  lemma LetterLeads(s: Scanned, ch: Octet)
    requires IsAlpha(ch) && (s == BeforeUrl || s == At(ReqSchema))
    ensures ScanNext(s, ch) == At(ReqSchema)
  {
  }

  lemma SchemeReads(scheme: seq<Octet>)
    requires SchemeOk(scheme)
    ensures var p := Parts(scheme, [], [], [], []); Scan(Written(p), false) == StateOf(p) && PartsOf(Written(p)) == p
  {
    hide Scan, ScanNext, PartsOf, SchemeOk;
    var p := Parts(scheme, [], [], [], []);
    LettersRead(scheme);
    if scheme == [] {
      assert Written(p) == scheme;
    } else {
      var a, b := scheme + [':'], scheme + [':'] + ['/'];
      ScanSnoc(scheme, ':');
      ScanSnoc(a, '/');
      ScanSnoc(b, '/');
      ScanLeads(At(ReqSchema), ':', At(ReqSchemaSlash));
      ScanLeads(At(ReqSchemaSlash), '/', At(ReqSchemaSlashSlash));
      ScanLeads(At(ReqSchemaSlashSlash), '/', At(ReqServerStart));
      assert Written(p) == b + ['/'];
    }
  }

  // ----- Where the parts stand

  // The '#'s that a fragment begins with
  function Hashes(w: seq<Octet>): (n: nat)
    ensures n <= |w|
  {
    if w == [] then 0 else if AllHashes(w) then |w| else Hashes(w[..|w| - 1])
  }

  // How many bytes come before those of rank `r`, from the parts
  function Before(p: Parts, s: Scanned, r: int): nat {
    var front := |Front(p.scheme, s)|;
    if r <= 0 then 0
    else if r == 1 then |p.scheme|
    else if r <= 4 then front
    else if r == 5 then front + |p.server|
    else if r == 6 then front + |p.server| + |p.path|
    else if r == 7 then front + |p.server| + |p.path| + if p.query == [] then 0 else 1
    else if r == 8 then front + |p.server| + |p.path| + |p.query|
    else if r == 9 then front + |p.server| + |p.path| + |p.query| + Hashes(p.fragment)
    else front + |Rest(p)|
  }

  predicate Counted(r: int) {
    0 <= r <= 1 || 4 <= r <= 10
  }

  // Ranks that have not been reached count the whole.
  lemma AllBefore(p: Parts, s: Scanned, b: seq<Octet>, r: int)
    requires Shape(p, s, b) && Counted(r) && Rank(s) < r
    ensures Before(p, s, r) == |b|
  {
    hide SchemeOk, ServerOk, PathOk, QueryOk, FragmentOk;
    if Rest(p) == [] {
      NothingYet(p);
    }
    if p.path + p.query + p.fragment == [] {
      NoTail(p);
    }
  }

  // Ranks that were reached before are not touched by one more byte.
  lemma SameBefore(p: Parts, s: Scanned, b: seq<Octet>, ch: Octet, r: int)
    requires Shape(p, s, b) && Leads(s, ch, ScanNext(s, ch)) && Counted(r) && r <= Rank(ScanNext(s, ch))
    requires Shape(Put(p, ScanNext(s, ch), ch), ScanNext(s, ch), b + [ch])
    ensures Before(Put(p, ScanNext(s, ch), ch), ScanNext(s, ch), r) == Before(p, s, r)
  {
    hide Spelled, ScanNext, Leads, Front, EndsWithAt, AllHashes, Rest;
    var next := ScanNext(s, ch);
    if r >= 4 {
      FrontKept(p.scheme, s, ch, next);
    }
    if Rank(next) >= 8 {
      HashesMore(p.fragment, ch);
    }
    if next == At(ReqQuery) {
      QueryWasBegun(s, ch);
    }
  }

  lemma QueryWasBegun(s: Scanned, ch: Octet)
    ensures Leads(s, ch, At(ReqQuery)) ==> s == At(ReqQueryStart) || s == At(ReqQuery)
  {
  }

  lemma FrontKept(scheme: seq<Octet>, s: Scanned, ch: Octet, next: Scanned)
    requires Leads(s, ch, next) && Rank(next) >= 4 && (s == BeforeUrl ==> scheme == [])
    ensures Front(scheme, s) == Front(scheme, next)
  {
    hide IsAlpha, IsUrlChar, ServerByte;
  }

  lemma HashesMore(w: seq<Octet>, ch: Octet)
    ensures Hashes(w + [ch]) == if AllHashes(w + [ch]) then |w| + 1 else Hashes(w)
    ensures AllHashes(w) ==> Hashes(w) == |w|
  {
    assert (w + [ch])[..|w|] == w;
  }

  lemma {:induction false} PartsAreCounted(b: seq<Octet>, r: int)
    requires !Scan(b, false).Dead? && Counted(r)
    ensures Below(b, false, r) == Before(PartsOf(b), Scan(b, false), r)
  {
    hide Shape, ScanNext, Put, Before, Rank, Leads;
    ScannedHasShape(b);
    if b == [] {
      assert Before(NO_PARTS, BeforeUrl, r) == 0 by { NothingBefore(r); }
    } else {
      var init, ch := b[..|b| - 1], b[|b| - 1];
      assert init + [ch] == b;
      StaysDead(Scan(init, false), ch);
      if Rank(Scan(b, false)) < r {
        AllBefore(PartsOf(b), Scan(b, false), b, r);
      } else {
        PartsAreCounted(init, r);
        ScannedHasShape(init);
        ScanLeads(Scan(init, false), ch, Scan(b, false));
        SameBefore(PartsOf(init), Scan(init, false), init, ch, r);
      }
    }
  }

  lemma NothingBefore(r: int)
    ensures Before(NO_PARTS, BeforeUrl, r) == 0
  {
    assert Rest(NO_PARTS) == [];
  }

  lemma {:induction false} AtIsInServer(b: seq<Octet>)
    requires !Scan(b, false).Dead?
    ensures FoundAt(b, false) <==> '@' in PartsOf(b).server
  {
    hide ScanNext, Leads;
    if b != [] {
      var init, ch := b[..|b| - 1], b[|b| - 1];
      StaysDead(Scan(init, false), ch);
      AtIsInServer(init);
      ScanLeads(Scan(init, false), ch, Scan(b, false));
      LedByAt(Scan(init, false), ch);
    }
  }

  lemma LedByAt(s: Scanned, ch: Octet)
    ensures Leads(s, ch, At(ReqServerWithAt)) ==> ch == '@'
    ensures Leads(s, ch, At(ReqServer)) ==> ch != '@'
  {
    hide ServerByte;
    AtIsNoServerByte();
  }

  // The fields that the first pass finds are the parts, without '?' and '#'.
  lemma FieldsAreParts(p: Parts)
    requires Spelled(p)
    ensures var b := Written(p);
            && Text(b, false, Schema) == p.scheme && Text(b, false, Path) == p.path && Authority(b, false) == p.server
            && Text(b, false, Query) == (if p.query == [] then [] else p.query[1..])
            && Text(b, false, Fragment) == p.fragment[Hashes(p.fragment)..]
            && (OuterHas(b, false, Schema) <==> p.scheme != []) && (OuterHas(b, false, Host) <==> p.server != [])
            && (FoundAt(b, false) <==> '@' in p.server)
  {
    hide Scan, Below, FoundAt, Text, Spelled, StateOf, PartsOf, Written, Hashes, Front, Before, Rest;
    var b := Written(p);
    SpelledIsScanned(p);
    StateIsAlive(p);
    AtIsInServer(b);
    forall r | Counted(r) ensures Below(b, false, r) == Before(p, StateOf(p), r) {
      PartsAreCounted(b, r);
    }
    Cuts(p);
    OuterText(b, Schema);
    OuterText(b, Path);
    OuterText(b, Query);
    OuterText(b, Fragment);
  }

  lemma StateIsAlive(p: Parts)
    ensures !StateOf(p).Dead?
  {
  }

  // The cuts through a written word
  lemma Cuts(p: Parts)
    ensures var b, s := Written(p), StateOf(p);
            && Before(p, s, 0) == 0 && Before(p, s, 1) == |p.scheme| <= |b| && b[0..|p.scheme|] == p.scheme
            && Before(p, s, 4) <= Before(p, s, 5) <= |b| && b[Before(p, s, 4)..Before(p, s, 5)] == p.server
            && Before(p, s, 5) - Before(p, s, 4) == |p.server|
            && Before(p, s, 5) <= Before(p, s, 6) <= |b| && b[Before(p, s, 5)..Before(p, s, 6)] == p.path
            && Before(p, s, 7) <= Before(p, s, 8) <= |b|
            && b[Before(p, s, 7)..Before(p, s, 8)] == (if p.query == [] then [] else p.query[1..])
            && Before(p, s, 9) <= Before(p, s, 10) <= |b| && b[Before(p, s, 9)..Before(p, s, 10)] == p.fragment[Hashes(p.fragment)..]
  {
    hide Hashes, Front, StateOf, Before, Written;
    Places(p);
    CutText(p);
  }

  // The length of the scheme and "://"
  function FrontLength(p: Parts): nat {
    if p.scheme == [] then 0 else |p.scheme| + 3
  }

  lemma Places(p: Parts)
    ensures var s, i := StateOf(p), FrontLength(p);
            var k := i + |p.server| + |p.path|;
            && Before(p, s, 0) == 0 && Before(p, s, 1) == |p.scheme| && Before(p, s, 4) == i
            && Before(p, s, 5) == i + |p.server| && Before(p, s, 6) == k
            && Before(p, s, 7) == k + (if p.query == [] then 0 else 1) && Before(p, s, 8) == k + |p.query|
            && Before(p, s, 9) == k + |p.query| + Hashes(p.fragment) && Before(p, s, 10) == k + |p.query| + |p.fragment|
  {
    hide Hashes, Front, StateOf;
    FrontOf(p);
    assert |Rest(p)| == |p.server| + |p.path| + |p.query| + |p.fragment|;
  }

  lemma CutText(p: Parts)
    ensures var b, i, n, h := Written(p), FrontLength(p), if p.query == [] then 0 else 1, Hashes(p.fragment);
            var k := i + |p.server| + |p.path|;
            && |b| == k + |p.query| + |p.fragment| && b[0..|p.scheme|] == p.scheme && b[i..i + |p.server|] == p.server
            && b[i + |p.server|..k] == p.path && b[k + n..k + |p.query|] == p.query[n..]
            && b[k + |p.query| + h..|b|] == p.fragment[h..]
  {
    hide Hashes, Written;
    WrittenIs(p);
    var front := p.scheme + if p.scheme == [] then [] else COLON_SLASHES;
    var n, h := if p.query == [] then 0 else 1, Hashes(p.fragment);
    assert front[0..|p.scheme|] == p.scheme;
    FrontCuts(front, p.server, p.path, p.query + p.fragment, |p.scheme|);
    BackCuts(front, p.server + p.path, p.query, p.fragment, n, h);
    Grouped(front, p.server, p.path, p.query, p.fragment);
  }

  lemma FrontCuts(front: seq<Octet>, server: seq<Octet>, path: seq<Octet>, behind: seq<Octet>, n: nat)
    requires n <= |front|
    ensures var b, i := front + (server + path) + behind, |front|;
            && b[0..n] == front[0..n] && b[i..i + |server|] == server
            && b[i + |server|..i + |server| + |path|] == path
  {
  }

  lemma BackCuts(front: seq<Octet>, before: seq<Octet>, query: seq<Octet>, fragment: seq<Octet>, n: nat, h: nat)
    requires n <= |query| && h <= |fragment|
    ensures var b, k := front + before + (query + fragment), |front| + |before|;
            b[k + n..k + |query|] == query[n..] && b[k + |query| + h..|b|] == fragment[h..]
  {
  }

  lemma Grouped(front: seq<Octet>, server: seq<Octet>, path: seq<Octet>, query: seq<Octet>, fragment: seq<Octet>)
    ensures front + (server + path + query + fragment) == front + (server + path) + (query + fragment)
  {
    assert server + path + query + fragment == (server + path) + (query + fragment);
  }

  lemma WrittenIs(p: Parts)
    ensures Written(p) == p.scheme + (if p.scheme == [] then [] else COLON_SLASHES) + (p.server + p.path + p.query + p.fragment)
    ensures FrontLength(p) == |p.scheme + if p.scheme == [] then [] else COLON_SLASHES|
  {
  }

  lemma FrontOf(p: Parts)
    ensures Front(p.scheme, StateOf(p)) == if p.scheme == [] then [] else p.scheme + COLON_SLASHES
  {
    hide AllHashes, EndsWithAt;
  }
}
