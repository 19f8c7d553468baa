// The character tables and limits, in the words of the standards.
module HttpClasses {
  import opened HttpChars
  import opened HttpTypes
  import opened HttpMachine
  import opened HttpUrl

  predicate IsLetter(c: Octet) {
    'A' <= c <= 'Z' || 'a' <= c <= 'z'
  }

  predicate IsVisible(c: Octet) {
    0x21 <= c as int <= 0x7E
  }

  // Section 2.3 of RFC 3986
  predicate IsUnreserved(c: Octet) {
    IsLetter(c) || IsNum(c) || c in "-._~"
  }

  // Section 3.3 of RFC 3986; a '%' stands for a percent-encoded byte.
  predicate IsPathChar(c: Octet) {
    IsUnreserved(c) || c in "!$&'()*+,;=" || c in ":@" || c == '%'
  }

  lemma LettersAndDigits(c: Octet)
    ensures IsAlpha(c) <==> IsLetter(c)
    ensures IsHex(c) <==> IsNum(c) || c in "abcdefABCDEF"
    ensures IsLetter(c) ==> Lower(c) == if 'A' <= c <= 'Z' then ('a' as int + (c as int - 'A' as int)) as char else c
  {
  }

  // A token is made of what is visible and no delimiter (section 3.2.6 of RFC 7230).
  lemma TokenIsNoDelimiter(c: Octet)
    ensures Token(c) != NUL <==> IsVisible(c) && c !in "(),/:;<=>?@[\\]{}\""
    ensures Token(c) != NUL ==> Token(c) == if 'A' <= c <= 'Z' then Lower(c) else c
  {
  }

  // Userinfo is what section 3.2.1 of RFC 3986 says it is.
  lemma UserinfoIsStandard(c: Octet)
    ensures IsUserinfoChar(c) <==> IsPathChar(c) && c != '@'
  {
  }

  // A path, query or fragment has the standard's characters and, beyond them,
  // '/' and the visible ones that the standard excludes.
  lemma UrlCharIsLax(c: Octet)
    ensures IsUrlChar(c) <==> IsPathChar(c) || c in "/" || c in "\"<>[\\]^`{|}"
  {
  }

  // A registered name is more restricted: letters, digits, '-' and '.'.
  lemma HostCharIsStrict(c: Octet)
    ensures IsHostChar(c) <==> IsUnreserved(c) && c != '_' && c != '~'
  {
  }

  // Section 2 of RFC 6874
  lemma ZoneCharIsStandard(c: Octet)
    ensures IsZoneChar(c) <==> IsUnreserved(c) || c == '%'
  {
  }

  // A value has visible characters, blanks, line ends, and bytes from 128 up.
  lemma HeaderCharIsNoControl(c: Octet)
    ensures IsHeaderChar(c) <==> IsVisible(c) || c as int >= 0x80 || c in " \t\r\n"
  {
  }

  // Eighty kilobytes of headers, and 64-bit lengths
  lemma Limits()
    ensures MAX_HEADER_SIZE == 81920 && MAX_PORT == 65535
    ensures ULLONG_MAX == 18446744073709551615 && TWO_TO_THE_64 == ULLONG_MAX + 1
  {
  }
}
