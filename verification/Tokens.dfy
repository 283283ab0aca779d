/** Result types shared by the other modules. */
module Options {
  datatype Option<+T> = None | Some(value: T)
}

/** The character classes of the lexer, over arbitrary Unicode letter and number tables. */
module Characters {
  datatype Tables = Tables(letter: char -> bool, number: char -> bool)

  predicate IsAsciiLetter(c: char) {
    'a' <= c <= 'z' || 'A' <= c <= 'Z'
  }

  predicate IsAsciiDigit(c: char) {
    '0' <= c <= '9'
  }

  /** All that is known about the tables: which ASCII characters are letters and numbers. */
  ghost predicate Sane(t: Tables) {
    forall c :: c < 128 as char ==> (t.letter(c) <==> IsAsciiLetter(c)) && (t.number(c) <==> IsAsciiDigit(c))
  }

  type Alphabet = t: Tables | Sane(t)
    witness Tables(c => IsAsciiLetter(c), c => IsAsciiDigit(c))

  const UNICODE: Alphabet

  predicate IsLetter(c: char) {
    UNICODE.letter(c)
  }

  predicate IsIdent(c: char) {
    UNICODE.letter(c) || UNICODE.number(c) || c == '_' || c == '-'
  }

  predicate IsLiteral(c: char) {
    IsIdent(c) || c == '.'
  }

  predicate IsPath(c: char) {
    || IsLiteral(c)
    || c == '~' || c == '!' || c == '$' || c == '&' || c == '\'' || c == '(' || c == ')'
    || c == '*' || c == '+' || c == ',' || c == ';' || c == '=' || c == '@'
  }

  predicate AllChars(p: char -> bool, s: string) {
    forall i :: 0 <= i < |s| ==> p(s[i])
  }

  /* ---- ASCII ---- */

  const LOWER := "abcdefghijklmnopqrstuvwxyz"
  const UPPER := "ABCDEFGHIJKLMNOPQRSTUVWXYZ"
  const DIGITS := "0123456789"

  predicate InOrder(chars: string, first: char) {
    forall k :: 0 <= k < |chars| ==> chars[k] as int == first as int + k
  }

  lemma {:induction false} LettersInOrder()
    ensures |LOWER| == |UPPER| == 26 && |DIGITS| == 10
    ensures InOrder(LOWER, 'a') && InOrder(UPPER, 'A') && InOrder(DIGITS, '0')
  {
  }

  lemma {:induction false} InRange(chars: string, first: char, c: char)
    requires InOrder(chars, first)
    ensures c in chars <==> first as int <= c as int < first as int + |chars|
  {
    var k := c as int - first as int;
    if 0 <= k < |chars| {
      assert chars[k] == c;
    }
  }

  lemma {:induction false} AsciiAlphabet(c: char)
    ensures IsAsciiLetter(c) <==> c in LOWER || c in UPPER
    ensures IsAsciiDigit(c) <==> c in DIGITS
  {
    LettersInOrder();
    hide InOrder;
    InRange(LOWER, 'a', c);
    InRange(UPPER, 'A', c);
    InRange(DIGITS, '0', c);
  }

  /** The ASCII characters of names, literals and paths. Those of paths are the ones of RFC 3986,
      section 3.3, without the colon and the percent sign. */
  lemma {:induction false} AsciiClasses(c: char)
    requires c < 128 as char
    ensures IsLetter(c) <==> c in LOWER || c in UPPER
    ensures IsIdent(c) <==> c in LOWER || c in UPPER || c in DIGITS || c in "-_"
    ensures IsLiteral(c) <==> c in LOWER || c in UPPER || c in DIGITS || c in "-_."
    ensures IsPath(c) <==> c in LOWER || c in UPPER || c in DIGITS || c in "-._~" || c in "!$&'()*+,;=" || c == '@'
  {
    AsciiAlphabet(c);
    hide IsAsciiLetter, IsAsciiDigit;
  }
}

/** Tokens of templates and paths. */
module Tokens {
  datatype Kind =
    | Error | Slash | Star | StarStar | VariableStart | VariableEnd | Equal
    | Ident | Literal | Dot | Verb | Path | EOF

  datatype Token = Token(kind: Kind, val: string)

  /** The zero value of a token, which fills the unused slots of the token array. */
  const ZERO := Token(Error, "")

  const SLASH := Token(Slash, "/")
  const COLON := Token(Verb, ":")
  const OPEN := Token(VariableStart, "{")
  const CLOSE := Token(VariableEnd, "}")
  const EQUAL := Token(Equal, "=")
  const END := Token(EOF, "")

  /** The text of a token list. */
  function Render(toks: seq<Token>): string {
    if toks == [] then "" else toks[0].val + Render(toks[1..])
  }

  lemma {:induction false} RenderConcat(a: seq<Token>, b: seq<Token>)
    ensures Render(a + b) == Render(a) + Render(b)
  {
    if a == [] {
      assert a + b == b;
    } else {
      RenderConcat(a[1..], b);
      assert (a + b)[1..] == a[1..] + b;
    }
  }
}
