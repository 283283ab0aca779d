/** The hand-written lexer, refining the reference parser of `Grammar` and, for request
    paths, the flat grammar of `Route`. */
module Lexers {
  import opened Options
  import opened Characters
  import opened Tokens
  import opened Grammar
  import opened Route

  const MAX_TOKENS: nat := 64

  datatype Outcome = Ok | TokenLimit | Unexpected | Short

  class Lexer {
    const input: string
    const toks: array<Token>
    var len: nat
    var start: nat
    var pos: nat
    var width: nat
    ghost var emitted: seq<Token>

    /** The emitted values tile the input up to `start`; unused slots hold the zero token. */
    ghost predicate Valid()
      reads this, toks
    {
      && toks.Length == MAX_TOKENS
      && len == |emitted| <= MAX_TOKENS
      && start <= pos <= |input|
      && Render(emitted) == input[..start]
      && (forall i :: 0 <= i < len ==> toks[i] == emitted[i])
      && (forall i :: len <= i < MAX_TOKENS ==> toks[i] == ZERO)
    }

    ghost function Rest(): string
      reads this
      requires pos <= |input|
    {
      input[pos..]
    }

    constructor (input: string)
      ensures Valid() && fresh(toks) && this.input == input
      ensures emitted == [] && pos == 0 && start == 0
    {
      this.input := input;
      toks := new Token[MAX_TOKENS](_ => ZERO);
      len, start, pos, width := 0, 0, 0, 0;
      emitted := [];
    }

    method Next() returns (r: Option<char>)
      requires Valid()
      modifies `pos, `width
      ensures Valid()
      ensures old(pos) == |input| ==>
        r == None && width == 0 && pos == old(pos) && Rest() == old(Rest()) == ""
      ensures old(pos) < |input| ==>
        && r == Some(input[old(pos)]) && width == 1 && pos == old(pos) + 1
        && old(Rest()) != "" && r.value == old(Rest())[0] && Rest() == old(Rest())[1..]
    {
      if pos >= |input| {
        width := 0;
        return None;
      }
      width := 1;
      r := Some(input[pos]);
      pos := pos + width;
    }

    method Backup()
      requires Valid() && start + width <= pos
      modifies `pos
      ensures Valid() && pos == old(pos) - width && Rest() == input[pos..]
    {
      pos := pos - width;
    }

    method AcceptRun(isValid: char -> bool) returns (i: nat)
      requires Valid()
      modifies `pos, `width
      ensures Valid()
      ensures i == Span(isValid, old(Rest())) && pos == old(pos) + i
    {
      i := 0;
      var r := Next();
      while r.Some? && isValid(r.value)
        invariant Valid()
        invariant old(pos) + i + width == pos
        invariant r.Some? ==> width == 1 && r.value == input[pos - 1]
        invariant r.None? ==> width == 0 && pos == |input|
        invariant forall k :: old(pos) <= k < old(pos) + i ==> isValid(input[k])
        decreases |input| - pos + width
      {
        i := i + 1;
        r := Next();
      }
      SpanIs(isValid, old(Rest()), i);
      Backup();
    }

    method Emit(kind: Kind) returns (err: Outcome)
      requires Valid()
      modifies `len, `start, `emitted, toks
      ensures Valid()
      ensures |old(emitted)| < MAX_TOKENS ==>
        && err == Ok && start == pos
        && emitted == old(emitted) + [Token(kind, input[old(start)..pos])]
      ensures |old(emitted)| == MAX_TOKENS ==>
        err == TokenLimit && emitted == old(emitted) && start == old(start)
    {
      if len >= toks.Length {
        return TokenLimit;
      }
      var tok := Token(kind, input[start..pos]);
      toks[len] := tok;
      len := len + 1;
      RenderConcat(emitted, [tok]);
      assert Render([tok]) == tok.val;
      assert input[..start] + input[start..pos] == input[..pos];
      start := pos;
      emitted := emitted + [tok];
      err := Ok;
    }

    method ErrUnexpected() returns (err: Outcome)
      requires Valid()
      modifies `len, `start, `emitted, toks
      ensures Valid() && err != Ok
    {
      err := Emit(Error);
      if err == Ok {
        err := Unexpected;
      }
    }

    method ErrShort() returns (err: Outcome)
      requires Valid()
      modifies `len, `start, `emitted, toks
      ensures Valid() && err != Ok
    {
      err := Emit(Error);
      if err == Ok {
        err := Short;
      }
    }

    method LexIdent() returns (err: Outcome)
      requires Valid() && start == pos
      modifies this, toks
      ensures Valid() && pos >= old(pos)
      ensures err == Ok <==> Span(IsIdent, old(Rest())) > 0 && |old(emitted)| < MAX_TOKENS
      ensures err == Ok ==>
        && var n := Span(IsIdent, old(Rest()));
        && start == pos == old(pos) + n
        && Rest() == old(Rest())[n..]
        && emitted == old(emitted) + [Token(Ident, old(Rest())[..n])]
    {
      var i := AcceptRun(IsIdent);
      if i == 0 {
        err := ErrShort();
        return;
      }
      assert input[old(start)..pos] == old(Rest())[..i];
      err := Emit(Ident);
    }

    method LexLiteral() returns (err: Outcome)
      requires Valid()
      modifies this, toks
      ensures Valid() && pos >= old(pos)
      ensures err == Ok <==> Span(IsLiteral, old(Rest())) > 0 && |old(emitted)| < MAX_TOKENS
      ensures err == Ok ==>
        && var n := Span(IsLiteral, old(Rest()));
        && start == pos == old(pos) + n
        && Rest() == old(Rest())[n..]
        && emitted == old(emitted) + [Token(Literal, input[old(start)..old(pos) + n])]
    {
      var i := AcceptRun(IsLiteral);
      if i == 0 {
        err := ErrShort();
        return;
      }
      err := Emit(Literal);
    }

    /** The body of the loop of `LexFieldPath`, after the dot is read. */
    method LexDotIdent() returns (err: Outcome)
      requires Valid() && start + 1 == pos && input[start] == '.'
      modifies this, toks
      ensures Valid() && pos >= old(pos)
      ensures err == Ok <==> Span(IsIdent, old(Rest())) > 0 && |old(emitted)| + 2 <= MAX_TOKENS
      ensures err == Ok ==>
        && var n := Span(IsIdent, old(Rest()));
        && start == pos
        && Rest() == old(Rest())[n..]
        && emitted == old(emitted) + [Token(Dot, "."), Token(Ident, old(Rest())[..n])]
    {
      assert input[start..pos] == ".";
      err := Emit(Dot);
      if err != Ok {
        return;
      }
      err := LexIdent();
    }

    method LexFieldPath() returns (err: Outcome)
      requires Valid() && start == pos
      modifies this, toks
      ensures Valid() && pos >= old(pos)
      ensures err == Ok ==> start == pos && PathDone(old(Rest()), old(emitted), emitted, Rest())
      ensures err != Ok ==> !PathFits(old(Rest()), |old(emitted)|)
    {
      hide ParsePath, PathTokens, Span;
      ghost var s, before := Rest(), emitted;
      PathStart(s, before);
      err := LexIdent();
      if err != Ok {
        return;
      }
      while true
        invariant Valid() && start == pos && pos >= old(pos)
        invariant PathPending(s, before, emitted, Rest())
        decreases |input| - pos
      {
        PathStep(s, before, emitted, Rest());
        var r := Next();
        if r != Some('.') {
          Backup();
          return Ok;
        }
        err := LexDotIdent();
        if err != Ok {
          return;
        }
      }
    }

    method LexVerb() returns (err: Outcome)
      requires Valid() && start == pos
      modifies this, toks
      ensures Valid() && pos >= old(pos)
      ensures err == Ok <==> ParseVerb(old(Rest())).Some? && |old(emitted)| + 2 <= MAX_TOKENS
      ensures err == Ok ==> emitted == old(emitted) + [Token(Literal, old(Rest())), END]
    {
      ghost var s := Rest();
      err := LexLiteral();
      if err != Ok {
        return;
      }
      var r := Next();
      ghost var n := Span(IsLiteral, s);
      assert input[old(pos)..old(pos) + n] == s[..n];
      if r == None {
        assert n == |s| && s[..n] == s;
        assert input[start..pos] == "";
        err := Emit(EOF);
        return;
      }
      err := ErrUnexpected();
    }

    method LexVariable() returns (err: Outcome)
      requires Valid() && start == pos
      modifies this, toks
      ensures Valid() && pos >= old(pos)
      ensures err == Ok ==> start == pos && SegmentDone(ParseVariable(old(Rest())), old(emitted), emitted, Rest())
      ensures err != Ok ==> !SegmentFits(ParseVariable(old(Rest())), |old(emitted)|)
      decreases |input| - pos, 0
    {
      ghost var s, before := Rest(), emitted;
      VariableFits(s, |before|);
      var r := Next();
      if r != Some('{') {
        err := ErrUnexpected();
        return;
      }
      assert input[start..pos] == "{";
      err := Emit(VariableStart);
      if err != Ok {
        return;
      }
      err := LexFieldPath();
      if err != Ok {
        return;
      }
      err := LexVariableTail(s, before);
    }

    /** The rest of `LexVariable`, after the field path. */
    method LexVariableTail(ghost s: string, ghost before: seq<Token>) returns (err: Outcome)
      requires Valid() && start == pos
      requires StartsWith(s, '{') && PathDone(s[1..], before + [OPEN], emitted, Rest())
      modifies this, toks
      ensures Valid() && pos >= old(pos)
      ensures err == Ok ==> start == pos && SegmentDone(ParseVariable(s), before, emitted, Rest())
      ensures err != Ok ==> !SegmentFits(ParseVariable(s), |before|)
      decreases |input| - pos, 3
    {
      hide ParsePath, ParseList, ParseVariable, PathTokens, ListTokens, SegmentTokens, Render;
      VariableOpened(s, before, emitted, Rest());
      ghost var now, rest := emitted, Rest();
      var r := Next();
      if r == Some('=') {
        assert input[start..pos] == "=";
        err := Emit(Equal);
        if err != Ok {
          return;
        }
        err := LexSegments();
        if err != Ok {
          return;
        }
        VariableBound(s, before, now, rest, emitted, Rest());
        now, rest := emitted, Rest();
        r := Next();
      }
      if r != Some('}') {
        err := ErrUnexpected();
        return;
      }
      assert input[start..pos] == "}";
      err := Emit(VariableEnd);
    }

    /** The letter branch of `LexSegment`, after the letter is read. */
    method LexWord(ghost s: string) returns (err: Outcome)
      requires Valid() && start + 1 == pos
      requires s != "" && IsLetter(s[0]) && input[start..] == s
      modifies this, toks
      ensures Valid() && pos >= old(pos)
      ensures err == Ok ==> start == pos && SegmentDone(ParseSegment(s), old(emitted), emitted, Rest())
      ensures err != Ok ==> !SegmentFits(ParseSegment(s), |old(emitted)|)
    {
      WordTokens(s, emitted);
      ghost var n := Span(IsLiteral, s[1..]);
      assert Rest() == s[1..] && s[1..][n..] == s[n + 1..];
      assert input[start..pos + n] == s[..n + 1];
      err := LexLiteral();
    }

    /** The star branch of `LexSegment`, after the first star is read. */
    method LexStar(ghost s: string) returns (err: Outcome)
      requires Valid() && start + 1 == pos
      requires StartsWith(s, '*') && input[start..] == s
      modifies this, toks
      ensures Valid() && pos >= old(pos)
      ensures err == Ok ==> start == pos && SegmentDone(ParseSegment(s), old(emitted), emitted, Rest())
      ensures err != Ok ==> !SegmentFits(ParseSegment(s), |old(emitted)|)
    {
      StarTokens(s, emitted);
      assert Rest() == s[1..] && s[0] == input[start];
      var rn := Next();
      if rn == Some('*') {
        assert input[start..pos] == "**" && s[1..][1..] == s[2..];
        err := Emit(StarStar);
        return;
      }
      Backup();
      assert input[start..pos] == "*";
      err := Emit(Star);
    }

    method LexSegment() returns (err: Outcome)
      requires Valid() && start == pos
      modifies this, toks
      ensures Valid() && pos >= old(pos)
      ensures err == Ok ==> start == pos && SegmentDone(ParseSegment(old(Rest())), old(emitted), emitted, Rest())
      ensures err != Ok ==> !SegmentFits(ParseSegment(old(Rest())), |old(emitted)|)
      decreases |input| - pos, 1
    {
      ghost var s := Rest();
      var r := Next();
      if r.Some? && IsLetter(r.value) {
        err := LexWord(s);
      } else if r == Some('*') {
        err := LexStar(s);
      } else if r == Some('{') {
        Backup();
        assert ParseSegment(s) == ParseVariable(s);
        err := LexVariable();
      } else {
        err := ErrUnexpected();
      }
    }

    method LexSegments() returns (err: Outcome)
      requires Valid() && start == pos
      modifies this, toks
      ensures Valid() && pos >= old(pos)
      ensures err == Ok ==> start == pos && ListDone(old(Rest()), old(emitted), emitted, Rest())
      ensures err != Ok ==> !ListFits(old(Rest()), |old(emitted)|)
      decreases |input| - pos, 2
    {
      hide ParseList, ParseSegment, ListTokens, SegmentTokens, Render;
      ghost var s, before := Rest(), emitted;
      while true
        invariant Valid() && start == pos && pos >= old(pos)
        invariant ListPending(s, before, emitted, Rest())
        decreases |input| - pos
      {
        ghost var cur, now := Rest(), emitted;
        ListFail(s, before, now, cur);
        err := LexSegment();
        if err != Ok {
          return;
        }
        ListStep(s, before, now, cur, emitted, Rest());
        var r := Next();
        if r != Some('/') {
          Backup();
          return Ok;
        }
        assert input[start..pos] == "/";
        err := Emit(Slash);
        if err != Ok {
          return;
        }
      }
    }

    method LexTemplate() returns (err: Outcome)
      requires Valid() && emitted == [] && start == pos == 0
      modifies this, toks
      ensures Valid()
      ensures err == Ok <==> TemplateFits(input)
      ensures err == Ok ==> emitted == TemplateTokens(ParseTemplate(input).value)
    {
      ghost var s := Rest();
      assert s == input;
      TemplateParts(s);
      var r := Next();
      if r != Some('/') {
        err := ErrUnexpected();
        return;
      }
      assert input[start..pos] == "/";
      err := Emit(Slash);
      if err != Ok {
        return;
      }
      err := LexSegments();
      if err != Ok {
        return;
      }
      err := LexTemplateTail();
    }

    /** The rest of `LexTemplate`, after the segments. */
    method LexTemplateTail() returns (err: Outcome)
      requires Valid() && start == pos
      requires StartsWith(input, '/') && ListDone(input[1..], [SLASH], emitted, Rest())
      modifies this, toks
      ensures Valid()
      ensures err == Ok <==> TemplateFits(input)
      ensures err == Ok ==> emitted == TemplateTokens(ParseTemplate(input).value)
    {
      TemplateParts(input);
      var r := Next();
      if r == Some(':') {
        assert input[start..pos] == ":";
        err := Emit(Verb);
        if err != Ok {
          return;
        }
        err := LexVerb();
      } else if r == None {
        assert input[start..pos] == "";
        err := Emit(EOF);
      } else {
        err := ErrUnexpected();
      }
    }

    method LexPathSegment() returns (err: Outcome)
      requires Valid() && start == pos
      modifies this, toks
      ensures Valid() && pos >= old(pos)
      ensures err == Ok <==> Span(IsPath, old(Rest())) > 0 && |old(emitted)| < MAX_TOKENS
      ensures err == Ok ==>
        && var n := Span(IsPath, old(Rest()));
        && start == pos
        && Rest() == old(Rest())[n..]
        && emitted == old(emitted) + [Token(Path, old(Rest())[..n])]
    {
      var i := AcceptRun(IsPath);
      if i == 0 {
        err := ErrShort();
        return;
      }
      assert input[old(start)..pos] == old(Rest())[..i];
      err := Emit(Path);
    }

    /** A separator that has been read, then its segment. */
    method LexPart(kind: Kind) returns (err: Outcome)
      requires Valid() && start + 1 == pos
      modifies this, toks
      ensures Valid() && pos >= old(pos)
      ensures err == Ok <==> Span(IsPath, old(Rest())) > 0 && |old(emitted)| + 2 <= MAX_TOKENS
      ensures err == Ok ==>
        && var n := Span(IsPath, old(Rest()));
        && start == pos
        && Rest() == old(Rest())[n..]
        && emitted == old(emitted) + [Token(kind, [input[old(start)]]), Token(Path, old(Rest())[..n])]
    {
      assert input[start..pos] == [input[start]];
      err := Emit(kind);
      if err != Ok {
        return;
      }
      err := LexPathSegment();
    }

    method LexPath() returns (err: Outcome)
      requires Valid() && emitted == [] && start == pos == 0
      modifies this, toks
      ensures Valid()
      ensures err == Ok <==> RouteFits(input)
      ensures err == Ok ==> emitted == RouteTokens(ParseRoute(input).value)
    {
      assert Rest() == input;
      while true
        invariant Valid() && start == pos
        invariant RoutePending(input, emitted, Rest())
        decreases |input| - pos
      {
        ghost var cur := Rest();
        RouteStep(input, emitted, cur);
        var r := Next();
        if r == Some('/') {
          err := LexPart(Slash);
          if err != Ok {
            return;
          }
        } else if r == Some(':') {
          err := LexPart(Verb);
          if err != Ok {
            return;
          }
        } else if r == None {
          assert input[start..pos] == "";
          err := Emit(EOF);
          return;
        } else {
          err := ErrUnexpected();
          return;
        }
      }
    }
  }

  /* ---- What a loop of the lexer has done so far ---- */

  ghost predicate PathFits(s: string, n: nat) {
    ParsePath(s).Parsed? && n + |PathTokens(ParsePath(s).value, [])| <= MAX_TOKENS
  }

  ghost predicate PathDone(s: string, before: seq<Token>, now: seq<Token>, rest: string) {
    var p := ParsePath(s);
    p.Parsed? && rest == p.rest && now == before + PathTokens(p.value, [])
  }

  /** After an identifier: `now` holds the tokens of the path at `s` up to the text `cur`. */
  ghost predicate PathPending(s: string, before: seq<Token>, now: seq<Token>, cur: string) {
    if !StartsWith(cur, '.') then PathDone(s, before, now, cur)
    else
      var p, q := ParsePath(s), ParsePath(cur[1..]);
      && (p.Parsed? <==> q.Parsed?)
      && (p.Parsed? ==>
            && p.rest == q.rest
            && before + PathTokens(p.value, []) == now + ([Token(Dot, ".")] + PathTokens(q.value, [])))
  }

  lemma {:induction false} PathUnfold(s: string)
    requires Span(IsIdent, s) > 0 && StartsWith(s[Span(IsIdent, s)..], '.')
    ensures var n := Span(IsIdent, s);
      var p, q := ParsePath(s), ParsePath(s[n..][1..]);
      && (p.Parsed? <==> q.Parsed?)
      && (p.Parsed? ==>
            && p.rest == q.rest
            && PathTokens(p.value, []) == [Token(Ident, s[..n])] + ([Token(Dot, ".")] + PathTokens(q.value, [])))
  {
    var n := Span(IsIdent, s);
    assert s[n..][1..] == s[n + 1..];
    var q := ParsePath(s[n + 1..]);
    if q.Parsed? {
      assert ([s[..n]] + q.value)[1..] == q.value;
    }
  }

  lemma {:induction false} PathStart(s: string, before: seq<Token>)
    ensures var n := Span(IsIdent, s);
      if n > 0 then PathPending(s, before, before + [Token(Ident, s[..n])], s[n..])
      else !ParsePath(s).Parsed?
    ensures |before| >= MAX_TOKENS ==> !PathFits(s, |before|)
  {
    PathNone(s, |before|);
    hide Span, ParsePath, PathTokens, PathFits, PathDone;
    var n := Span(IsIdent, s);
    if n > 0 {
      if StartsWith(s[n..], '.') {
        PathUnfold(s);
        var q := ParsePath(s[n..][1..]);
        if q.Parsed? {
          var tail := [Token(Dot, ".")] + PathTokens(q.value, []);
          assert before + ([Token(Ident, s[..n])] + tail) == before + [Token(Ident, s[..n])] + tail;
        }
      } else {
        PathOne(s, before);
      }
    }
  }

  lemma {:induction false} PathNone(s: string, n: nat)
    ensures Span(IsIdent, s) == 0 ==> !ParsePath(s).Parsed?
    ensures n >= MAX_TOKENS ==> !PathFits(s, n)
  {
  }

  /** A path of one identifier. */
  lemma {:induction false} PathOne(s: string, before: seq<Token>)
    requires Span(IsIdent, s) > 0 && !StartsWith(s[Span(IsIdent, s)..], '.')
    ensures PathDone(s, before, before + [Token(Ident, s[..Span(IsIdent, s)])], s[Span(IsIdent, s)..])
  {
    var n := Span(IsIdent, s);
    assert [Token(Ident, s[..n])] + [] == [Token(Ident, s[..n])];
  }

  lemma {:induction false} PathStep(s: string, before: seq<Token>, now: seq<Token>, cur: string)
    requires PathPending(s, before, now, cur)
    ensures !StartsWith(cur, '.') ==> PathDone(s, before, now, cur)
    ensures StartsWith(cur, '.') ==>
      var n := Span(IsIdent, cur[1..]);
      if n > 0 then PathPending(s, before, now + [Token(Dot, "."), Token(Ident, cur[1..][..n])], cur[1..][n..])
      else !ParsePath(s).Parsed?
    ensures StartsWith(cur, '.') && |now| + 2 > MAX_TOKENS ==> !PathFits(s, |before|)
  {
    if StartsWith(cur, '.') {
      var n := Span(IsIdent, cur[1..]);
      var dot := [Token(Dot, ".")];
      PathStart(cur[1..], now + dot);
      if n > 0 {
        PathTrans(s, before, now, cur, now + dot + [Token(Ident, cur[1..][..n])], cur[1..][n..]);
        assert now + [Token(Dot, "."), Token(Ident, cur[1..][..n])] == now + dot + [Token(Ident, cur[1..][..n])];
      }
    }
  }

  lemma {:induction false} PathTrans(s: string, before: seq<Token>, now: seq<Token>, cur: string, next: seq<Token>,
                                     rest: string)
    requires PathPending(s, before, now, cur) && StartsWith(cur, '.')
    requires PathPending(cur[1..], now + [Token(Dot, ".")], next, rest)
    ensures PathPending(s, before, next, rest)
  {
    var q := ParsePath(cur[1..]);
    if q.Parsed? {
      assert now + ([Token(Dot, ".")] + PathTokens(q.value, [])) == now + [Token(Dot, ".")] + PathTokens(q.value, []);
    }
  }

  /* ---- Segments ---- */

  ghost predicate SegmentFits(p: Parsed<Segment>, n: nat)
    requires p.Parsed? ==> GoodSegment(p.value)
  {
    p.Parsed? && n + |SegmentTokens(p.value, [])| <= MAX_TOKENS
  }

  ghost predicate SegmentDone(p: Parsed<Segment>, before: seq<Token>, now: seq<Token>, rest: string)
    requires p.Parsed? ==> GoodSegment(p.value)
  {
    p.Parsed? && rest == p.rest && now == before + SegmentTokens(p.value, [])
  }

  ghost predicate ListFits(s: string, n: nat) {
    ParseList(s).Parsed? && n + |ListTokens(ParseList(s).value, [])| <= MAX_TOKENS
  }

  ghost predicate ListDone(s: string, before: seq<Token>, now: seq<Token>, rest: string) {
    var p := ParseList(s);
    p.Parsed? && rest == p.rest && now == before + ListTokens(p.value, [])
  }

  lemma {:induction false} WordTokens(s: string, now: seq<Token>)
    requires s != "" && IsLetter(s[0])
    ensures var p, n := ParseSegment(s), Span(IsLiteral, s[1..]);
      && (p.Parsed? <==> n > 0)
      && (n > 0 ==> SegmentDone(p, now, now + [Token(Literal, s[..n + 1])], s[n + 1..]))
      && (SegmentFits(p, |now|) ==> |now| < MAX_TOKENS)
  {
  }

  lemma {:induction false} StarTokens(s: string, now: seq<Token>)
    requires StartsWith(s, '*')
    ensures var p := ParseSegment(s);
      && (if StartsWith(s[1..], '*') then SegmentDone(p, now, now + [Token(StarStar, "**")], s[2..])
          else SegmentDone(p, now, now + [Token(Star, "*")], s[1..]))
      && (SegmentFits(p, |now|) ==> |now| < MAX_TOKENS)
  {
  }

  /** The tokens of the two forms of variable, left to right. */
  lemma {:induction false} VariableSplit(p: seq<string>, ss: seq<Segment>)
    requires GoodPath(p)
    ensures SegmentTokens(Field(p), []) == [OPEN] + PathTokens(p, []) + [CLOSE]
    ensures GoodList(ss) ==>
      SegmentTokens(Bind(p, ss), []) == [OPEN] + PathTokens(p, []) + [EQUAL] + ListTokens(ss, []) + [CLOSE]
  {
    FieldSplit(p);
    if GoodList(ss) {
      hide GoodList, GoodSegment, ListTokens, PathTokens;
      BindTokens(p, ss);
      ListAppend(ss, [CLOSE]);
      PathText(p, [EQUAL] + ListTokens(ss, [CLOSE]));
      var a, b, c := PathTokens(p, []), ListTokens(ss, []), [OPEN];
      assert c + (a + ([EQUAL] + (b + [CLOSE]))) == c + a + [EQUAL] + b + [CLOSE];
    }
  }

  lemma {:induction false} FieldSplit(p: seq<string>)
    requires GoodPath(p)
    ensures SegmentTokens(Field(p), []) == [OPEN] + PathTokens(p, []) + [CLOSE]
  {
    assert [CLOSE] + [] == [CLOSE];
    PathText(p, [CLOSE]);
    assert [OPEN] + (PathTokens(p, []) + [CLOSE]) == [OPEN] + PathTokens(p, []) + [CLOSE];
  }

  lemma {:induction false} BindTokens(p: seq<string>, ss: seq<Segment>)
    requires GoodPath(p) && GoodList(ss)
    ensures SegmentTokens(Bind(p, ss), []) == [OPEN] + PathTokens(p, [EQUAL] + ListTokens(ss, [CLOSE]))
  {
    assert [CLOSE] + [] == [CLOSE];
  }

  lemma {:induction false} VariableFits(s: string, n: nat)
    ensures SegmentFits(ParseVariable(s), n) ==>
      StartsWith(s, '{') && n < MAX_TOKENS && PathFits(s[1..], n + 1)
  {
    if SegmentFits(ParseVariable(s), n) {
      var p := ParsePath(s[1..]).value;
      var x := ParseVariable(s).value;
      VariableSplit(p, if x.Bind? then x.pattern else []);
    }
  }

  /** Only the closing brace of the variable at `s` is missing, or nothing can complete it. */
  ghost predicate ClosePending(s: string, before: seq<Token>, now: seq<Token>, rest: string) {
    if !StartsWith(rest, '}') then ParseVariable(s).NoParse?
    else
      && SegmentDone(ParseVariable(s), before, now + [CLOSE], rest[1..])
      && (|now| >= MAX_TOKENS ==> !SegmentFits(ParseVariable(s), |before|))
  }

  lemma {:induction false} VariableOpenedField(s: string, before: seq<Token>, now: seq<Token>, rest: string)
    requires StartsWith(s, '{') && PathDone(s[1..], before + [OPEN], now, rest)
    requires !StartsWith(rest, '=')
    ensures ClosePending(s, before, now, rest)
  {
    VariableSplit(ParsePath(s[1..]).value, []);
  }

  lemma {:induction false} VariableOpened(s: string, before: seq<Token>, now: seq<Token>, rest: string)
    requires StartsWith(s, '{') && PathDone(s[1..], before + [OPEN], now, rest)
    ensures !StartsWith(rest, '=') ==> ClosePending(s, before, now, rest)
    ensures StartsWith(rest, '=') && SegmentFits(ParseVariable(s), |before|) ==>
      |now| < MAX_TOKENS && ListFits(rest[1..], |now| + 1)
  {
    if !StartsWith(rest, '=') {
      VariableOpenedField(s, before, now, rest);
    } else if SegmentFits(ParseVariable(s), |before|) {
      VariableSplit(ParsePath(s[1..]).value, ParseList(rest[1..]).value);
    }
  }

  lemma {:induction false} VariableBound(s: string, before: seq<Token>, now: seq<Token>, rest: string, now': seq<Token>,
                                         rest': string)
    requires StartsWith(s, '{') && PathDone(s[1..], before + [OPEN], now, rest)
    requires StartsWith(rest, '=') && ListDone(rest[1..], now + [EQUAL], now', rest')
    ensures ClosePending(s, before, now', rest')
  {
    var p, ss := ParsePath(s[1..]).value, ParseList(rest[1..]).value;
    VariableSplit(p, ss);
    BoundParsed(s, rest, rest');
    hide ParsePath, ParseList, ParseVariable, PathTokens, ListTokens, SegmentTokens, GoodSegment, GoodList, GoodPath;
    Regroup(before, [OPEN], PathTokens(p, []), [EQUAL], ListTokens(ss, []), [CLOSE]);
  }

  lemma {:induction false} Regroup<T>(x: seq<T>, a: seq<T>, b: seq<T>, c: seq<T>, d: seq<T>, e: seq<T>)
    ensures x + (a + b + c + d + e) == x + a + b + c + d + e
    ensures |x + a + b + c + d + e| == |x| + |a + b + c + d + e|
  {
  }

  lemma {:induction false} BoundParsed(s: string, rest: string, rest': string)
    requires StartsWith(s, '{') && ParsePath(s[1..]).Parsed? && ParsePath(s[1..]).rest == rest
    requires StartsWith(rest, '=') && ParseList(rest[1..]).Parsed? && ParseList(rest[1..]).rest == rest'
    ensures ParseVariable(s) ==
      if !StartsWith(rest', '}') then NoParse
      else Parsed(Bind(ParsePath(s[1..]).value, ParseList(rest[1..]).value), rest'[1..])
  {
  }

  /** Before a segment: what is left at `cur` completes the list at `s`. */
  ghost predicate ListPending(s: string, before: seq<Token>, now: seq<Token>, cur: string) {
    var p, q := ParseList(s), ParseList(cur);
    && (p.Parsed? <==> q.Parsed?)
    && (p.Parsed? ==>
          && p.rest == q.rest
          && before + ListTokens(p.value, []) == now + ListTokens(q.value, []))
  }

  /** What one segment leaves of a list. */
  lemma {:induction false} ListUnfold(cur: string)
    requires ParseSegment(cur).Parsed?
    ensures var x, q := ParseSegment(cur), ParseList(cur);
      if !StartsWith(x.rest, '/') then
        q == Parsed([x.value], x.rest) && ListTokens([x.value], []) == SegmentTokens(x.value, [])
      else
        var q' := ParseList(x.rest[1..]);
        && (q.Parsed? <==> q'.Parsed?)
        && (q.Parsed? ==>
              && q.rest == q'.rest
              && ListTokens(q.value, []) == SegmentTokens(x.value, []) + [SLASH] + ListTokens(q'.value, []))
  {
    var x := ParseSegment(cur);
    if StartsWith(x.rest, '/') && ParseList(x.rest[1..]).Parsed? {
      var xs := ParseList(x.rest[1..]).value;
      assert ([x.value] + xs)[1..] == xs;
      SegmentAppend(x.value, [SLASH] + ListTokens(xs, []));
    }
  }

  lemma {:induction false} ListFail(s: string, before: seq<Token>, now: seq<Token>, cur: string)
    requires ListPending(s, before, now, cur)
    ensures ListFits(s, |before|) ==> SegmentFits(ParseSegment(cur), |now|)
  {
    if ParseSegment(cur).Parsed? {
      ListUnfold(cur);
    }
  }

  lemma {:induction false} ListStep(s: string, before: seq<Token>, now: seq<Token>, cur: string, now': seq<Token>,
                                    rest: string)
    requires ListPending(s, before, now, cur) && SegmentDone(ParseSegment(cur), now, now', rest)
    ensures !StartsWith(rest, '/') ==> ListDone(s, before, now', rest)
    ensures StartsWith(rest, '/') ==>
      && ListPending(s, before, now' + [SLASH], rest[1..])
      && (|now'| >= MAX_TOKENS ==> !ListFits(s, |before|))
  {
    ListUnfold(cur);
    if StartsWith(rest, '/') && ParseList(rest[1..]).Parsed? {
      var x, xs := ParseSegment(cur).value, ParseList(rest[1..]).value;
      assert now + (SegmentTokens(x, []) + [SLASH] + ListTokens(xs, [])) ==
             now + SegmentTokens(x, []) + [SLASH] + ListTokens(xs, []);
    }
  }

  /* ---- Whole templates and paths ---- */

  /** `input` is a template and its tokens fit in the token array. */
  predicate TemplateFits(input: string) {
    ParseTemplate(input).Some? && |TemplateTokens(ParseTemplate(input).value)| <= MAX_TOKENS
  }

  lemma {:induction false} TemplateParts(s: string)
    ensures TemplateFits(s) ==> StartsWith(s, '/') && ListFits(s[1..], 1)
    ensures StartsWith(s, '/') && ParseList(s[1..]).Parsed? ==>
      var Parsed(ss, rest) := ParseList(s[1..]);
      var now := [SLASH] + ListTokens(ss, []);
      && (rest == "" ==>
            && ParseTemplate(s).Some? && TemplateTokens(ParseTemplate(s).value) == now + [END]
            && (TemplateFits(s) <==> |now| < MAX_TOKENS))
      && (rest != "" && rest[0] != ':' ==> ParseTemplate(s).None?)
      && (rest != "" && rest[0] == ':' ==>
            var v := ParseVerb(rest[1..]);
            && (ParseTemplate(s).Some? <==> v.Some?)
            && (v.Some? ==>
                  && TemplateTokens(ParseTemplate(s).value) == now + [COLON] + [Token(Literal, rest[1..]), END]
                  && (TemplateFits(s) <==> |now| + 3 <= MAX_TOKENS)))
  {
    if StartsWith(s, '/') && ParseList(s[1..]).Parsed? {
      var Parsed(ss, rest) := ParseList(s[1..]);
      ListAppend(ss, [END]);
      if rest != "" && rest[0] == ':' && ParseVerb(rest[1..]).Some? {
        ListAppend(ss, [COLON, Token(Literal, rest[1..]), END]);
      }
    }
  }

  /** `input` is a path and its tokens fit in the token array. */
  predicate RouteFits(input: string) {
    ParseRoute(input).Some? && |RouteTokens(ParseRoute(input).value)| <= MAX_TOKENS
  }

  /** Paths of at most 31 parts fit. */
  lemma {:induction false} RouteFitsIff(ps: seq<Part>)
    requires GoodRoute(ps)
    ensures RouteFits(PrintRoute(ps)) <==> |ps| <= 31
  {
    RouteIffPrinted(PrintRoute(ps), ps);
  }

  ghost predicate RoutePending(s: string, now: seq<Token>, cur: string) {
    && (ParseRoute(s).Some? <==> ParseRoute(cur).Some?)
    && (ParseRoute(s).Some? ==>
          RouteTokens(ParseRoute(s).value) == now + RouteTokens(ParseRoute(cur).value))
  }

  lemma {:induction false} RouteStep(s: string, now: seq<Token>, cur: string)
    requires RoutePending(s, now, cur)
    ensures cur == "" && ParseRoute(s).Some? ==> RouteTokens(ParseRoute(s).value) == now + [END]
    ensures cur != "" && cur[0] != '/' && cur[0] != ':' ==> ParseRoute(s).None?
    ensures cur != "" && (cur[0] == '/' || cur[0] == ':') ==>
      var n := Span(IsPath, cur[1..]);
      && (RouteFits(s) ==> n > 0 && |now| + 2 <= MAX_TOKENS)
      && (n > 0 ==> RoutePending(s, now + PartTokens(Part(cur[0], cur[1..][..n])), cur[1..][n..]))
  {
    if ParsePart(cur).Parsed? {
      var Parsed(p, rest) := ParsePart(cur);
      if ParseRoute(rest).Some? {
        var ps := ParseRoute(rest).value;
        assert ([p] + ps)[1..] == ps;
        assert now + (PartTokens(p) + RouteTokens(ps)) == now + PartTokens(p) + RouteTokens(ps);
      }
    }
  }
}
