// Character classes of the HTTP parser, strict build.
module HttpChars {

  // A C `char` read as an unsigned 8-bit value.
  type Octet = c: char | c as int < 256 witness 'a'

  const CR: Octet := '\r'
  const LF: Octet := '\n'
  const TAB: Octet := '\t'
  const FORM_FEED: Octet := 12 as char
  const NUL: Octet := '\0'
  const CRLF: seq<Octet> := [CR, LF]

  // `c | 0x20` on eight bits: sets bit 5.
  function Lower(c: Octet): Octet {
    if c as int / 32 % 2 == 1 then c else (c as int + 32) as char
  }

  predicate IsAlpha(c: Octet) {
    'a' <= Lower(c) <= 'z'
  }

  predicate IsNum(c: Octet) {
    '0' <= c <= '9'
  }

  predicate IsAlphaNum(c: Octet) {
    IsAlpha(c) || IsNum(c)
  }

  predicate IsHex(c: Octet) {
    IsNum(c) || 'a' <= Lower(c) <= 'f'
  }

  predicate IsMark(c: Octet) {
    c == '-' || c == '_' || c == '.' || c == '!' || c == '~' || c == '*' || c == '\'' || c == '(' || c == ')'
  }

  predicate IsUserinfoChar(c: Octet) {
    IsAlphaNum(c) || IsMark(c) || c == '%' || c == ';' || c == ':' || c == '&' || c == '=' || c == '+' || c == '$'
    || c == ','
  }

  predicate IsHostChar(c: Octet) {
    IsAlphaNum(c) || c == '.' || c == '-'
  }

  // The bitmap of characters allowed in a path, query or fragment.
  predicate IsUrlChar(c: Octet) {
    '!' <= c <= '~' && c != '#' && c != '?'
  }

  // Visible US-ASCII, space, tab, line ends and obs-text.
  predicate IsHeaderChar(c: Octet) {
    c == CR || c == LF || c == TAB || (c as int > 31 && c as int != 127)
  }

  // The `tokens` table: a token character in lower case, NUL for any other byte.
  function Token(c: Octet): Octet {
    if 'A' <= c <= 'Z' then (c as int + 32) as char
    else if 'a' <= c <= 'z' || IsNum(c) then c
    else if c == '!' || c == '#' || c == '$' || c == '%' || c == '&' || c == '\'' || c == '*' || c == '+' || c == '-'
            || c == '.' || c == '^' || c == '_' || c == '`' || c == '|' || c == '~' then c
    else NUL
  }

  // The `unhex` table.  Only its first 128 entries are written out in the
  // source, so the others are zero: a byte from 128 up reads as the digit 0.
  function Unhex(c: Octet): (v: int)
    ensures -1 <= v < 16
  {
    if IsNum(c) then c as int - '0' as int
    else if 'a' <= c <= 'f' then c as int - 'a' as int + 10
    else if 'A' <= c <= 'F' then c as int - 'A' as int + 10
    else if c as int >= 128 then 0
    else -1
  }

  function DigitValue(c: Octet): (v: nat)
    requires IsNum(c)
    ensures v < 10
  {
    c as int - '0' as int
  }

  // A C string indexed up to and including its terminator.
  function CharAt(s: seq<Octet>, i: nat): Octet {
    if i < |s| then s[i] else NUL
  }
}
