// The header-name recogniser: which names the parser gives a meaning to.
module HttpNames {
  import opened HttpChars
  import opened HttpTypes
  import opened HttpMachine

  const CONNECTION: seq<Octet> := "connection"
  const PROXY_CONNECTION: seq<Octet> := "proxy-connection"
  const CONTENT_LENGTH: seq<Octet> := "content-length"
  const TRANSFER_ENCODING: seq<Octet> := "transfer-encoding"
  const UPGRADE: seq<Octet> := "upgrade"

  // A name in lower case, byte by byte.
  function Lowered(w: seq<Octet>): (l: seq<Octet>)
    ensures |l| == |w|
  {
    if w == [] then [] else Lowered(w[..|w| - 1]) + [Token(w[|w| - 1])]
  }

  predicate IsName(w: seq<Octet>) {
    w != [] && forall k :: 0 <= k < |w| ==> Token(w[k]) != NUL
  }

  // The name matcher after the whole of `w`.
  function NameState(w: seq<Octet>): (HeaderState, nat)
    requires w != []
  {
    if |w| == 1 then (FieldInitial(Token(w[0])), 0)
    else
      var (hs, index) := NameState(w[..|w| - 1]);
      FieldMatch(hs, index, Token(w[|w| - 1]), w[|w| - 1])
  }

  predicate PrefixOfSpecial(l: seq<Octet>) {
    l <= CONNECTION || l <= PROXY_CONNECTION || l <= CONTENT_LENGTH || l <= TRANSFER_ENCODING || l <= UPGRADE
  }

  // What a state of the matcher knows about the name so far, in lower case.
  predicate Knows(hs: HeaderState, index: nat, l: seq<Octet>) {
    match hs
    case General => !PrefixOfSpecial(l)
    case C => l == "c" && index == 0
    case CO => l == "co" && index == 1
    case CON => l == "con" && index == 2
    case MatchingConnection => 4 <= |l| < 10 && index == |l| - 1 && l <= CONNECTION
    case MatchingProxyConnection => 1 <= |l| < 16 && index == |l| - 1 && l <= PROXY_CONNECTION
    case MatchingContentLength => 4 <= |l| < 14 && index == |l| - 1 && l <= CONTENT_LENGTH
    case MatchingTransferEncoding => 1 <= |l| < 17 && index == |l| - 1 && l <= TRANSFER_ENCODING
    case MatchingUpgrade => 1 <= |l| < 7 && index == |l| - 1 && l <= UPGRADE
    case Connection => l == CONNECTION || l == PROXY_CONNECTION
    case ContentLength => l == CONTENT_LENGTH
    case TransferEncoding => l == TRANSFER_ENCODING
    case Upgrade => l == UPGRADE
    case _ => false
  }

  lemma PrefixExtends(w: seq<Octet>, l: seq<Octet>, c: Octet)
    ensures l + [c] <= w <==> l <= w && |l| < |w| && w[|l|] == c
  {
  }

  // A name that goes along with one special name goes along with no other.
  lemma PrefixLetters(l: seq<Octet>)
    requires l != []
    ensures l <= CONNECTION ==> l[0] == 'c' && (|l| > 3 ==> l[3] == 'n')
    ensures l <= CONTENT_LENGTH ==> l[0] == 'c' && (|l| > 3 ==> l[3] == 't')
    ensures l <= PROXY_CONNECTION ==> l[0] == 'p'
    ensures l <= TRANSFER_ENCODING ==> l[0] == 't'
    ensures l <= UPGRADE ==> l[0] == 'u'
  {
  }

  lemma KnowsFirst(c: Octet)
    requires c != NUL
    ensures Knows(FieldInitial(c), 0, [c])
  {
    PrefixLetters([c]);
  }

  // One more character of the word `w` that `hs` is matching
  lemma KnowsMatch(hs: HeaderState, w: seq<Octet>, index: nat, l: seq<Octet>, c: Octet, matched: HeaderState)
    requires Word(hs) == w && |w| > 1 && l != [] && index == |l| - 1 && |l| < |w| && l <= w && c != NUL
    ensures var next := MatchChar(hs, index + 1, c, matched, General);
            next == if l + [c] == w then matched else if l + [c] <= w then hs else General
  {
    hide Word;
    PrefixExtends(w, l, c);
  }

  predicate Matching(hs: HeaderState) {
    hs.MatchingConnection? || hs.MatchingProxyConnection? || hs.MatchingContentLength? || hs.MatchingTransferEncoding? ||
    hs.MatchingUpgrade?
  }

  lemma WordsAre()
    ensures Word(MatchingConnection) == CONNECTION && |CONNECTION| == 10
    ensures Word(MatchingProxyConnection) == PROXY_CONNECTION && |PROXY_CONNECTION| == 16
    ensures Word(MatchingContentLength) == CONTENT_LENGTH && |CONTENT_LENGTH| == 14
    ensures Word(MatchingTransferEncoding) == TRANSFER_ENCODING && |TRANSFER_ENCODING| == 17
    ensures Word(MatchingUpgrade) == UPGRADE && |UPGRADE| == 7
  {
  }

  // Once a state matches a word, no other name comes into question.
  lemma OneWordLeft(hs: HeaderState, index: nat, l: seq<Octet>, c: Octet)
    requires Matching(hs) && l != [] && Knows(hs, index, l)
    ensures PrefixOfSpecial(l + [c]) <==> l + [c] <= Word(hs)
  {
    hide Word, CONNECTION, PROXY_CONNECTION, CONTENT_LENGTH, TRANSFER_ENCODING, UPGRADE;
    WordsAre();
    PrefixLetters(l);
    PrefixExtends(CONNECTION, l, c);
    PrefixExtends(PROXY_CONNECTION, l, c);
    PrefixExtends(CONTENT_LENGTH, l, c);
    PrefixExtends(TRANSFER_ENCODING, l, c);
    PrefixExtends(UPGRADE, l, c);
  }

  lemma KnowsNextMatching(hs: HeaderState, index: nat, l: seq<Octet>, c: Octet, ch: Octet)
    requires Matching(hs) && l != [] && Knows(hs, index, l) && c != NUL
    ensures Knows(FieldMatch(hs, index, c, ch).0, FieldMatch(hs, index, c, ch).1, l + [c])
  {
    hide MatchChar, Word, PrefixOfSpecial, CONNECTION, PROXY_CONNECTION, CONTENT_LENGTH, TRANSFER_ENCODING, UPGRADE;
    WordsAre();
    OneWordLeft(hs, index, l, c);
    match hs {
      case MatchingConnection => KnowsMatch(hs, CONNECTION, index, l, c, Connection);
      case MatchingProxyConnection => KnowsMatch(hs, PROXY_CONNECTION, index, l, c, Connection);
      case MatchingContentLength => KnowsMatch(hs, CONTENT_LENGTH, index, l, c, ContentLength);
      case MatchingTransferEncoding => KnowsMatch(hs, TRANSFER_ENCODING, index, l, c, TransferEncoding);
      case _ => KnowsMatch(hs, UPGRADE, index, l, c, Upgrade);
    }
  }

  // The letters that two names share
  lemma KnowsNextShared(hs: HeaderState, index: nat, l: seq<Octet>, c: Octet, ch: Octet)
    requires (hs.C? || hs.CO? || hs.CON?) && Knows(hs, index, l) && c != NUL
    ensures Knows(FieldMatch(hs, index, c, ch).0, FieldMatch(hs, index, c, ch).1, l + [c])
  {
    hide MatchChar, Word;
    PrefixLetters(l + [c]);
    PrefixExtends(CONNECTION, l, c);
    PrefixExtends(CONTENT_LENGTH, l, c);
  }

  // A name that is over, or that is no special one
  lemma KnowsNextBeyond(hs: HeaderState, index: nat, l: seq<Octet>, c: Octet, ch: Octet)
    requires !Matching(hs) && !hs.C? && !hs.CO? && !hs.CON? && l != [] && Knows(hs, index, l) && ch != ' '
    ensures Knows(FieldMatch(hs, index, c, ch).0, FieldMatch(hs, index, c, ch).1, l + [c])
  {
    hide MatchChar, Word, CONNECTION, PROXY_CONNECTION, CONTENT_LENGTH, TRANSFER_ENCODING, UPGRADE;
    NoLonger(l, c);
  }

  // With one more character, a whole special name is no prefix of any.
  lemma NoLonger(l: seq<Octet>, c: Octet)
    requires l != [] && (!PrefixOfSpecial(l) || l == CONNECTION || l == PROXY_CONNECTION || l == CONTENT_LENGTH ||
                         l == TRANSFER_ENCODING || l == UPGRADE)
    ensures !PrefixOfSpecial(l + [c])
  {
    PrefixLetters(l);
    PrefixExtends(CONNECTION, l, c);
    PrefixExtends(PROXY_CONNECTION, l, c);
    PrefixExtends(CONTENT_LENGTH, l, c);
    PrefixExtends(TRANSFER_ENCODING, l, c);
    PrefixExtends(UPGRADE, l, c);
  }

  lemma KnowsNext(hs: HeaderState, index: nat, l: seq<Octet>, c: Octet, ch: Octet)
    requires l != [] && Knows(hs, index, l) && c != NUL && ch != ' '
    ensures Knows(FieldMatch(hs, index, c, ch).0, FieldMatch(hs, index, c, ch).1, l + [c])
  {
    hide Knows, FieldMatch;
    if Matching(hs) {
      KnowsNextMatching(hs, index, l, c, ch);
    } else if hs.C? || hs.CO? || hs.CON? {
      KnowsNextShared(hs, index, l, c, ch);
    } else {
      KnowsNextBeyond(hs, index, l, c, ch);
    }
  }

  lemma {:induction false} NameStateKnows(w: seq<Octet>)
    requires IsName(w)
    ensures Knows(NameState(w).0, NameState(w).1, Lowered(w))
  {
    hide Knows, FieldMatch, FieldInitial, Token;
    var init, ch := w[..|w| - 1], w[|w| - 1];
    assert Token(w[|w| - 1]) != NUL;
    if |w| == 1 {
      KnowsFirst(Token(ch));
      assert Lowered(init) == [] && Lowered(w) == [Token(ch)];
    } else {
      NameStateKnows(init);
      SpaceIsNoToken(ch);
      KnowsNext(NameState(init).0, NameState(init).1, Lowered(init), Token(ch), ch);
    }
  }

  lemma SpaceIsNoToken(ch: Octet)
    requires Token(ch) != NUL
    ensures ch != ' ' && ch != CR && ch != LF && ch != TAB && ch != ':'
  {
  }

  // The parser gives a meaning to exactly these names, in any case.
  lemma NameRecogniser(w: seq<Octet>)
    requires IsName(w)
    ensures NameState(w).0.Connection? <==> Lowered(w) == CONNECTION || Lowered(w) == PROXY_CONNECTION
    ensures NameState(w).0.ContentLength? <==> Lowered(w) == CONTENT_LENGTH
    ensures NameState(w).0.TransferEncoding? <==> Lowered(w) == TRANSFER_ENCODING
    ensures NameState(w).0.Upgrade? <==> Lowered(w) == UPGRADE
  {
    NameStateKnows(w);
    KnowsWhole(NameState(w).0, NameState(w).1, Lowered(w));
  }

  lemma KnowsWhole(hs: HeaderState, index: nat, l: seq<Octet>)
    requires Knows(hs, index, l) && l != []
    ensures hs.Connection? <==> l == CONNECTION || l == PROXY_CONNECTION
    ensures hs.ContentLength? <==> l == CONTENT_LENGTH
    ensures hs.TransferEncoding? <==> l == TRANSFER_ENCODING
    ensures hs.Upgrade? <==> l == UPGRADE
  {
    PrefixLetters(l);
    assert |CONNECTION| == 10 && |PROXY_CONNECTION| == 16 && |CONTENT_LENGTH| == 14 && |TRANSFER_ENCODING| == 17
           && |UPGRADE| == 7;
  }
}
