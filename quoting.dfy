/**
 * The admin site's `quote` / `unquote` for primary keys and choice codes placed in
 * URLs: each reserved character becomes '_' and its two upper-case hex digits, and
 * `unquote` replaces exactly those escapes, left to right.
 */
module Quoting {

  import opened Wrappers
  import opened Strings

  /** The escape of a reserved character, without its leading '_'. */
  function Code(c: char): Option<string>
  {
    match c
    case '"' => Some("22")
    case ':' => Some("3A")
    case '/' => Some("2F")
    case '_' => Some("5F")
    case '#' => Some("23")
    case '?' => Some("3F")
    case ';' => Some("3B")
    case '@' => Some("40")
    case '&' => Some("26")
    case '=' => Some("3D")
    case '+' => Some("2B")
    case '$' => Some("24")
    case ',' => Some("2C")
    case '[' => Some("5B")
    case ']' => Some("5D")
    case '<' => Some("3C")
    case '>' => Some("3E")
    case '%' => Some("25")
    case '\n' => Some("0A")
    case '\\' => Some("5C")
    case _ => None
  }

  /** The reserved character the two hex digits after a '_' stand for. */
  function Decode(hi: char, lo: char): Option<char>
  {
    match (hi, lo)
    case ('2', '2') => Some('"')
    case ('3', 'A') => Some(':')
    case ('2', 'F') => Some('/')
    case ('5', 'F') => Some('_')
    case ('2', '3') => Some('#')
    case ('3', 'F') => Some('?')
    case ('3', 'B') => Some(';')
    case ('4', '0') => Some('@')
    case ('2', '6') => Some('&')
    case ('3', 'D') => Some('=')
    case ('2', 'B') => Some('+')
    case ('2', '4') => Some('$')
    case ('2', 'C') => Some(',')
    case ('5', 'B') => Some('[')
    case ('5', 'D') => Some(']')
    case ('3', 'C') => Some('<')
    case ('3', 'E') => Some('>')
    case ('2', '5') => Some('%')
    case ('0', 'A') => Some('\n')
    case ('5', 'C') => Some('\\')
    case _ => None
  }

  lemma DecodeCode(c: char)
    ensures Code(c).Some? ==> |Code(c).value| == 2 && Decode(Code(c).value[0], Code(c).value[1]) == Some(c)
    ensures c == '_' ==> Code(c).Some?
  {
  }

  function QuoteChar(c: char): string
  {
    match Code(c)
    case Some(h) => "_" + h
    case None => [c]
  }

  /** `quote(s)`. */
  function Quote(s: string): string
  {
    if s == [] then [] else QuoteChar(s[0]) + Quote(s[1..])
  }

  /** `unquote(s)`. */
  function Unquote(s: string): string
  {
    if s == [] then []
    else if |s| >= 3 && s[0] == '_' && Decode(s[1], s[2]).Some? then [Decode(s[1], s[2]).value] + Unquote(s[3..])
    else [s[0]] + Unquote(s[1..])
  }

  lemma UnquoteAfterQuoteChar(c: char, t: string)
    ensures Unquote(QuoteChar(c) + t) == [c] + Unquote(t)
  {
    DecodeCode(c);
    var s := QuoteChar(c) + t;
    if Code(c).Some? {
      assert s[1] == Code(c).value[0] && s[2] == Code(c).value[1];
      assert s[3..] == t;
    } else {
      assert s[1..] == t;
    }
  }

  /** Quoting loses nothing: `unquote(quote(s)) == s`. */
  lemma {:induction false} UnquoteQuote(s: string)
    ensures Unquote(Quote(s)) == s
  {
    if s != [] {
      UnquoteAfterQuoteChar(s[0], Quote(s[1..]));
      UnquoteQuote(s[1..]);
    }
  }

  /** A run of digits, such as a primary key, is its own quotation. */
  lemma {:induction false} QuoteDigits(s: string)
    requires forall i :: 0 <= i < |s| ==> IsDigit(s[i])
    ensures Quote(s) == s
  {
    if s != [] {
      QuoteDigits(s[1..]);
    }
  }
}
