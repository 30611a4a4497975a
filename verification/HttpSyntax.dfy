/** Octets and the strict-mode character classes of the HTTP parser.

    The lookup tables of the C code are given here as predicates over the same
    ranges. `unhex` has only 128 initialisers for its 256 slots, so every octet
    from 128 up reads as hexadecimal digit zero; `Unhex` keeps that. */
module HttpSyntax {
  import opened Basics

  const CR: byte := '\r'
  const LF: byte := '\n'

  predicate IsNum(c: byte) {
    '0' <= c <= '9'
  }

  /** `c | 0x20`. */
  function Lower(c: byte): byte {
    if (c as int / 32) % 2 == 0 then (c as int + 32) as char else c
  }

  predicate IsAlpha(c: byte) {
    'a' <= Lower(c) <= 'z'
  }

  predicate IsAlphaNum(c: byte) {
    IsAlpha(c) || IsNum(c)
  }

  predicate IsHex(c: byte) {
    IsNum(c) || 'a' <= Lower(c) <= 'f'
  }

  predicate IsMark(c: byte) {
    c == '-' || c == '_' || c == '.' || c == '!' || c == '~' || c == '*' || c == '\'' || c == '(' || c == ')'
  }

  predicate IsUserinfoChar(c: byte) {
    || IsAlphaNum(c) || IsMark(c)
    || c == '%' || c == ';' || c == ':' || c == '&' || c == '=' || c == '+' || c == '$' || c == ','
  }

  predicate IsHostChar(c: byte) {
    IsAlphaNum(c) || c == '.' || c == '-'
  }

  predicate IsUrlChar(c: byte) {
    '!' <= c <= '~' && c != '#' && c != '?'
  }

  /** A token octet of section 2.2 of RFC 2616. */
  predicate IsToken(c: byte) {
    || IsAlphaNum(c)
    || c == '!' || c == '#' || c == '$' || c == '%' || c == '&' || c == '\'' || c == '*' || c == '+'
    || c == '-' || c == '.' || c == '^' || c == '_' || c == '`' || c == '|' || c == '~'
  }

  /** The `tokens` table: the lower-cased octet, or NUL for a non-token. */
  function Token(c: byte): byte {
    if !IsToken(c) then '\0' else if 'A' <= c <= 'Z' then Lower(c) else c
  }

  function DigitValue(c: byte): (v: nat)
    requires IsNum(c)
    ensures v < 10
  {
    c as int - '0' as int
  }

  /** The `unhex` table, with -1 for octets that are no digit. */
  function Unhex(c: byte): (v: int)
    ensures -1 <= v < 16
  {
    if c as int >= 128 then 0
    else if IsNum(c) then c as int - '0' as int
    else if 'a' <= c <= 'f' then c as int - 'a' as int + 10
    else if 'A' <= c <= 'F' then c as int - 'A' as int + 10
    else -1
  }

  /** A chunk-size octet is accepted exactly when it is a hexadecimal digit or
      lies outside ASCII; the second family comes from the short table. */
  lemma UnhexAccepts(c: byte)
    ensures Unhex(c) != -1 <==> IsHex(c) || c as int >= 128
  {
  }

  predicate AllDigits(s: seq<byte>) {
    forall c <- s :: IsNum(c)
  }

  /** The decimal number `n` continued by the digits `ds`. */
  function DecimalFrom(n: nat, ds: seq<byte>): (v: nat)
    requires AllDigits(ds)
    ensures n <= v
    decreases |ds|
  {
    if ds == [] then n else DecimalFrom(n * 10 + DigitValue(ds[0]), ds[1..])
  }

  function Decimal(ds: seq<byte>): nat
    requires AllDigits(ds)
  {
    DecimalFrom(0, ds)
  }
}
