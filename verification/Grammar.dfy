/** The path template language, its token form, and a reference parser over strings.
    The main theorem makes the parser the inverse of printing. */
module Grammar {
  import opened Options
  import opened Characters
  import opened Tokens

  datatype Segment =
    | Wild                                                  // *
    | DeepWild                                              // **
    | Word(text: string)                                    // literal
    | Field(path: seq<string>)                              // {a.b}
    | Bind(path: seq<string>, pattern: seq<Segment>)        // {a.b=segments}

  datatype Template = Template(segments: seq<Segment>, verb: Option<string>)

  datatype Parsed<+T> = NoParse | Parsed(value: T, rest: string)

  /* ---- Tokens and text of a template, each followed by a given continuation ---- */

  function PathTokens(path: seq<string>, k: seq<Token>): seq<Token>
    requires path != []
  {
    if |path| == 1 then [Token(Ident, path[0])] + k
    else [Token(Ident, path[0])] + ([Token(Dot, ".")] + PathTokens(path[1..], k))
  }

  function SegmentTokens(s: Segment, k: seq<Token>): seq<Token>
    requires GoodSegment(s)
    decreases s, 1
  {
    match s
    case Wild => [Token(Star, "*")] + k
    case DeepWild => [Token(StarStar, "**")] + k
    case Word(t) => [Token(Literal, t)] + k
    case Field(p) => [OPEN] + PathTokens(p, [CLOSE] + k)
    case Bind(p, ss) => [OPEN] + PathTokens(p, [EQUAL] + ListTokens(ss, [CLOSE] + k))
  }

  function ListTokens(ss: seq<Segment>, k: seq<Token>): seq<Token>
    requires GoodList(ss)
    decreases ss, 0
  {
    if |ss| == 1 then SegmentTokens(ss[0], k)
    else SegmentTokens(ss[0], [SLASH] + ListTokens(ss[1..], k))
  }

  function VerbTokens(verb: Option<string>): seq<Token> {
    if verb.None? then [END] else [COLON, Token(Literal, verb.value), END]
  }

  function TemplateTokens(t: Template): seq<Token>
    requires GoodTemplate(t)
  {
    [SLASH] + ListTokens(t.segments, VerbTokens(t.verb))
  }

  function PrintPath(path: seq<string>, rest: string): string
    requires path != []
  {
    if |path| == 1 then path[0] + rest
    else path[0] + ("." + PrintPath(path[1..], rest))
  }

  function PrintSegment(s: Segment, rest: string): string
    requires GoodSegment(s)
    decreases s, 1
  {
    match s
    case Wild => "*" + rest
    case DeepWild => "**" + rest
    case Word(t) => t + rest
    case Field(p) => "{" + PrintPath(p, "}" + rest)
    case Bind(p, ss) => "{" + PrintPath(p, "=" + PrintList(ss, "}" + rest))
  }

  function PrintList(ss: seq<Segment>, rest: string): string
    requires GoodList(ss)
    decreases ss, 0
  {
    if |ss| == 1 then PrintSegment(ss[0], rest)
    else PrintSegment(ss[0], "/" + PrintList(ss[1..], rest))
  }

  function PrintVerb(verb: Option<string>): string {
    if verb.None? then "" else ":" + verb.value
  }

  function PrintTemplate(t: Template): string
    requires GoodTemplate(t)
  {
    "/" + PrintList(t.segments, PrintVerb(t.verb))
  }

  /* ---- The implemented grammar ---- */

  predicate GoodIdent(s: string) {
    s != "" && AllChars(IsIdent, s)
  }

  predicate GoodPath(path: seq<string>) {
    path != [] && forall i :: 0 <= i < |path| ==> GoodIdent(path[i])
  }

  /** A literal segment starts with a letter and has at least one more literal character. */
  predicate GoodWord(s: string) {
    |s| >= 2 && IsLetter(s[0]) && AllChars(IsLiteral, s[1..])
  }

  predicate GoodVerb(s: string) {
    s != "" && AllChars(IsLiteral, s)
  }

  predicate GoodSegment(s: Segment)
    decreases s, 1
  {
    match s
    case Wild => true
    case DeepWild => true
    case Word(t) => GoodWord(t)
    case Field(p) => GoodPath(p)
    case Bind(p, ss) => GoodPath(p) && GoodList(ss)
  }

  predicate GoodList(ss: seq<Segment>)
    decreases ss, 0
  {
    ss != [] && GoodSegment(ss[0]) && (|ss| > 1 ==> GoodList(ss[1..]))
  }

  predicate GoodTemplate(t: Template) {
    GoodList(t.segments) && (t.verb.Some? ==> GoodVerb(t.verb.value))
  }

  /* ---- Reference parser ---- */

  /** Length of the longest prefix made of characters that satisfy `p`. */
  function Span(p: char -> bool, s: string): (n: nat)
    ensures n <= |s|
    ensures AllChars(p, s[..n])
    ensures n < |s| ==> !p(s[n])
  {
    if s == "" || !p(s[0]) then 0
    else
      var n := Span(p, s[1..]);
      assert s[..n + 1] == [s[0]] + s[1..][..n];
      n + 1
  }

  predicate StartsWith(s: string, c: char) {
    s != "" && s[0] == c
  }

  function ParsePath(s: string): (r: Parsed<seq<string>>)
    ensures r.Parsed? ==> |r.rest| < |s| && GoodPath(r.value)
    decreases |s|
  {
    var n := Span(IsIdent, s);
    if n == 0 then NoParse
    else if !StartsWith(s[n..], '.') then Parsed([s[..n]], s[n..])
    else
      match ParsePath(s[n + 1..])
      case NoParse => NoParse
      case Parsed(path, rest) => Parsed([s[..n]] + path, rest)
  }

  function ParseVariable(s: string): (r: Parsed<Segment>)
    ensures r.Parsed? ==> |r.rest| < |s| && GoodSegment(r.value)
    decreases |s|, 0
  {
    if !StartsWith(s, '{') then NoParse
    else
      match ParsePath(s[1..])
      case NoParse => NoParse
      case Parsed(path, rest) =>
        if StartsWith(rest, '}') then Parsed(Field(path), rest[1..])
        else if !StartsWith(rest, '=') then NoParse
        else
          match ParseList(rest[1..])
          case NoParse => NoParse
          case Parsed(ss, rest') =>
            if StartsWith(rest', '}') then Parsed(Bind(path, ss), rest'[1..]) else NoParse
  }

  function ParseSegment(s: string): (r: Parsed<Segment>)
    ensures r.Parsed? ==> |r.rest| < |s| && GoodSegment(r.value)
    decreases |s|, 1
  {
    if s == "" then NoParse
    else if IsLetter(s[0]) then
      var n := Span(IsLiteral, s[1..]);
      if n == 0 then NoParse
      else
        assert s[..n + 1][1..] == s[1..][..n];
        Parsed(Word(s[..n + 1]), s[n + 1..])
    else if s[0] == '*' then
      if StartsWith(s[1..], '*') then Parsed(DeepWild, s[2..]) else Parsed(Wild, s[1..])
    else ParseVariable(s)
  }

  function ParseList(s: string): (r: Parsed<seq<Segment>>)
    ensures r.Parsed? ==> |r.rest| < |s| && GoodList(r.value)
    decreases |s|, 2
  {
    match ParseSegment(s)
    case NoParse => NoParse
    case Parsed(x, rest) =>
      if !StartsWith(rest, '/') then Parsed([x], rest)
      else
        match ParseList(rest[1..])
        case NoParse => NoParse
        case Parsed(xs, rest') =>
          assert ([x] + xs)[1..] == xs;
          Parsed([x] + xs, rest')
  }

  function ParseVerb(s: string): (r: Option<string>)
    ensures r.Some? ==> GoodVerb(r.value)
  {
    var n := Span(IsLiteral, s);
    if n == 0 || n < |s| then None else Some(s)
  }

  function ParseTemplate(s: string): (r: Option<Template>)
    ensures r.Some? ==> GoodTemplate(r.value)
  {
    if !StartsWith(s, '/') then None
    else
      match ParseList(s[1..])
      case NoParse => None
      case Parsed(ss, rest) =>
        if rest == "" then Some(Template(ss, None))
        else if rest[0] != ':' then None
        else
          match ParseVerb(rest[1..])
          case None => None
          case Some(v) => Some(Template(ss, Some(v)))
  }

  /* ---- Soundness: what is parsed prints back to the input ---- */

  lemma {:induction false} PathSound(s: string)
    requires ParsePath(s).Parsed?
    ensures s == PrintPath(ParsePath(s).value, ParsePath(s).rest)
    decreases |s|
  {
    var n := Span(IsIdent, s);
    var head, tail := s[..n], s[n..];
    assert s == head + tail;
    if StartsWith(tail, '.') {
      var s' := s[n + 1..];
      assert tail == "." + s';
      PathSound(s');
      var p := ParsePath(s').value;
      assert ([head] + p)[1..] == p;
    }
  }

  lemma {:induction false} SegmentSound(s: string)
    requires ParseSegment(s).Parsed?
    ensures s == PrintSegment(ParseSegment(s).value, ParseSegment(s).rest)
    decreases |s|, 1
  {
    if IsLetter(s[0]) {
      var n := Span(IsLiteral, s[1..]);
      assert s[..n + 1][1..] == s[1..][..n];
      assert s == s[..n + 1] + s[n + 1..];
    } else if s[0] == '*' {
    } else {
      VariableSound(s);
    }
  }

  lemma {:induction false} VariableSound(s: string)
    requires ParseVariable(s).Parsed?
    ensures s == PrintSegment(ParseVariable(s).value, ParseVariable(s).rest)
    decreases |s|, 0
  {
    hide ParsePath, ParseList, PrintPath, PrintList;
    var body := s[1..];
    assert s == "{" + body;
    PathSound(body);
    var rest := ParsePath(body).rest;
    if StartsWith(rest, '}') {
      assert rest == "}" + rest[1..];
    } else {
      var inner := rest[1..];
      assert rest == "=" + inner;
      ListSound(inner);
      var rest' := ParseList(inner).rest;
      assert rest' == "}" + rest'[1..];
    }
  }

  lemma {:induction false} ListSound(s: string)
    requires ParseList(s).Parsed?
    ensures s == PrintList(ParseList(s).value, ParseList(s).rest)
    decreases |s|, 2
  {
    SegmentSound(s);
    var Parsed(x, rest) := ParseSegment(s);
    if StartsWith(rest, '/') {
      var s' := rest[1..];
      assert rest == "/" + s';
      ListSound(s');
      var xs := ParseList(s').value;
      assert ([x] + xs)[1..] == xs;
    }
  }

  /* ---- Completeness: what is printed parses back ---- */

  /** `rest` cannot extend the list printed before it. */
  predicate Closed(rest: string) {
    rest == "" || rest[0] == ':' || rest[0] == '}'
  }

  lemma {:induction false} SpanAll(p: char -> bool, s: string, rest: string)
    requires AllChars(p, s)
    requires rest == "" || !p(rest[0])
    ensures Span(p, s + rest) == |s|
    ensures (s + rest)[..|s|] == s && (s + rest)[|s|..] == rest
  {
    if s == "" {
      assert s + rest == rest;
    } else {
      assert (s + rest)[1..] == s[1..] + rest;
      SpanAll(p, s[1..], rest);
    }
  }

  lemma {:induction false} SpanIs(p: char -> bool, s: string, n: nat)
    requires n <= |s| && (forall i :: 0 <= i < n ==> p(s[i]))
    requires n < |s| ==> !p(s[n])
    ensures Span(p, s) == n
  {
    SpanAll(p, s[..n], s[n..]);
    assert s == s[..n] + s[n..];
  }

  lemma {:induction false} PathComplete(p: seq<string>, rest: string)
    requires GoodPath(p)
    requires rest == "" || rest[0] == '=' || rest[0] == '}'
    ensures ParsePath(PrintPath(p, rest)) == Parsed(p, rest)
  {
    if |p| == 1 {
      SpanAll(IsIdent, p[0], rest);
      assert [p[0]] == p;
    } else {
      PathComplete(p[1..], rest);
      PathCons(p[0], p[1..], PrintPath(p[1..], rest), rest);
      assert [p[0]] + p[1..] == p;
    }
  }

  lemma {:induction false} PathCons(name: string, p: seq<string>, tail: string, rest: string)
    requires GoodIdent(name) && ParsePath(tail) == Parsed(p, rest)
    ensures ParsePath(name + ("." + tail)) == Parsed([name] + p, rest)
  {
    hide Span;
    SpanAll(IsIdent, name, "." + tail);
    assert (name + ("." + tail))[|name| + 1..] == tail;
  }

  lemma {:induction false} SegmentComplete(x: Segment, rest: string)
    requires GoodSegment(x)
    requires Closed(rest) || rest[0] == '/'
    ensures ParseSegment(PrintSegment(x, rest)) == Parsed(x, rest)
    decreases x, 1
  {
    var s := PrintSegment(x, rest);
    match x {
      case Wild =>
        assert s[1..] == rest;
      case DeepWild =>
        assert s[1..] == "*" + rest && s[2..] == rest;
      case Word(t) =>
        WordComplete(t, rest);
      case Field(p) =>
        assert s[1..] == PrintPath(p, "}" + rest);
        PathComplete(p, "}" + rest);
        assert ("}" + rest)[1..] == rest;
      case Bind(p, ss) =>
        BindComplete(p, ss, rest);
    }
  }

  lemma {:induction false} WordComplete(t: string, rest: string)
    requires GoodWord(t)
    requires Closed(rest) || rest[0] == '/'
    ensures ParseSegment(t + rest) == Parsed(Word(t), rest)
  {
    hide Span;
    var s := t + rest;
    assert s[1..] == t[1..] + rest;
    SpanAll(IsLiteral, t[1..], rest);
    assert s[..|t|] == t && s[|t|..] == rest;
  }

  lemma {:induction false} BindComplete(p: seq<string>, ss: seq<Segment>, rest: string)
    requires GoodPath(p) && GoodList(ss)
    ensures ParseVariable(PrintSegment(Bind(p, ss), rest)) == Parsed(Bind(p, ss), rest)
    decreases ss, 1
  {
    hide ParsePath, ParseList, PrintPath, PrintList, GoodList;
    var close := "}" + rest;
    var equal := "=" + PrintList(ss, close);
    assert PrintSegment(Bind(p, ss), rest)[1..] == PrintPath(p, equal);
    PathComplete(p, equal);
    assert !StartsWith(equal, '}') && StartsWith(equal, '=') && equal[1..] == PrintList(ss, close);
    ListComplete(ss, close);
    assert StartsWith(close, '}') && close[1..] == rest;
  }

  lemma {:induction false} ListComplete(ss: seq<Segment>, rest: string)
    requires GoodList(ss)
    requires Closed(rest)
    ensures ParseList(PrintList(ss, rest)) == Parsed(ss, rest)
    decreases ss, 0
  {
    if |ss| == 1 {
      SegmentComplete(ss[0], rest);
      assert [ss[0]] == ss;
    } else {
      var tail := PrintList(ss[1..], rest);
      SegmentComplete(ss[0], "/" + tail);
      assert ("/" + tail)[1..] == tail;
      ListComplete(ss[1..], rest);
      assert [ss[0]] + ss[1..] == ss;
    }
  }

  /* ---- The parser is the inverse of printing ---- */

  lemma {:induction false} TemplateSound(s: string)
    requires ParseTemplate(s).Some?
    ensures PrintTemplate(ParseTemplate(s).value) == s
  {
    var body := s[1..];
    assert s == "/" + body;
    ListSound(body);
    var rest := ParseList(body).rest;
    if rest != "" {
      assert rest == ":" + rest[1..];
    }
  }

  lemma {:induction false} TemplateComplete(t: Template)
    requires GoodTemplate(t)
    ensures ParseTemplate(PrintTemplate(t)) == Some(t)
  {
    var suffix := PrintVerb(t.verb);
    assert PrintTemplate(t)[1..] == PrintList(t.segments, suffix);
    ListComplete(t.segments, suffix);
    if t.verb.Some? {
      assert suffix[1..] == t.verb.value;
      SpanAll(IsLiteral, t.verb.value, "");
      assert t.verb.value + "" == t.verb.value;
    }
  }

  /** The accepted inputs are exactly the printed forms of the grammar's templates,
      and each input is the print of one template only. */
  lemma {:induction false} TemplateIffPrinted(s: string, t: Template)
    ensures ParseTemplate(s) == Some(t) <==> GoodTemplate(t) && PrintTemplate(t) == s
  {
    if ParseTemplate(s) == Some(t) {
      TemplateSound(s);
    }
    if GoodTemplate(t) && PrintTemplate(t) == s {
      TemplateComplete(t);
    }
  }

  /* ---- Tokens against text, and tokens against their continuation ---- */

  lemma {:induction false} PathText(p: seq<string>, k: seq<Token>)
    requires p != []
    ensures Render(PathTokens(p, k)) == PrintPath(p, Render(k))
    ensures PathTokens(p, k) == PathTokens(p, []) + k
  {
    if |p| > 1 {
      PathText(p[1..], k);
    }
  }

  lemma {:induction false} SegmentText(s: Segment, k: seq<Token>)
    requires GoodSegment(s)
    ensures Render(SegmentTokens(s, k)) == PrintSegment(s, Render(k))
    decreases s, 1
  {
    match s {
      case Wild =>
      case DeepWild =>
      case Word(_) =>
      case Field(p) => PathText(p, [CLOSE] + k);
      case Bind(p, ss) =>
        PathText(p, [EQUAL] + ListTokens(ss, [CLOSE] + k));
        ListText(ss, [CLOSE] + k);
    }
  }

  lemma {:induction false} ListText(ss: seq<Segment>, k: seq<Token>)
    requires GoodList(ss)
    ensures Render(ListTokens(ss, k)) == PrintList(ss, Render(k))
    decreases ss, 0
  {
    if |ss| == 1 {
      SegmentText(ss[0], k);
    } else {
      ListText(ss[1..], k);
      SegmentText(ss[0], [SLASH] + ListTokens(ss[1..], k));
    }
  }

  lemma {:induction false} SegmentAppend(s: Segment, k: seq<Token>)
    requires GoodSegment(s)
    ensures SegmentTokens(s, k) == SegmentTokens(s, []) + k
    decreases s, 1
  {
    match s {
      case Wild =>
      case DeepWild =>
      case Word(_) =>
      case Field(p) =>
        PathText(p, [CLOSE] + k);
        PathText(p, [CLOSE] + []);
      case Bind(p, ss) =>
        BindAppend(p, ss, k);
    }
  }

  lemma {:induction false} BindAppend(p: seq<string>, ss: seq<Segment>, k: seq<Token>)
    requires GoodPath(p) && GoodList(ss)
    ensures SegmentTokens(Bind(p, ss), k) == SegmentTokens(Bind(p, ss), []) + k
    decreases ss, 1
  {
    hide PathTokens, ListTokens, GoodList;
    var list := ListTokens(ss, []);
    ListAppend(ss, [CLOSE] + k);
    ListAppend(ss, [CLOSE] + []);
    PathText(p, [EQUAL] + (list + ([CLOSE] + k)));
    PathText(p, [EQUAL] + (list + ([CLOSE] + [])));
    assert [EQUAL] + (list + ([CLOSE] + k)) == [EQUAL] + (list + ([CLOSE] + [])) + k;
    Regroup([OPEN], PathTokens(p, []), [EQUAL] + (list + ([CLOSE] + [])), k);
  }

  lemma {:induction false} Regroup<T>(a: seq<T>, b: seq<T>, c: seq<T>, d: seq<T>)
    ensures a + (b + (c + d)) == a + (b + c) + d
  {
  }

  lemma {:induction false} ListAppend(ss: seq<Segment>, k: seq<Token>)
    requires GoodList(ss)
    ensures ListTokens(ss, k) == ListTokens(ss, []) + k
    decreases ss, 0
  {
    if |ss| == 1 {
      SegmentAppend(ss[0], k);
    } else {
      ListAppend(ss[1..], k);
      SegmentAppend(ss[0], [SLASH] + ListTokens(ss[1..], k));
      SegmentAppend(ss[0], [SLASH] + ListTokens(ss[1..], []));
    }
  }

  /** The token list of a template spells the template. */
  lemma {:induction false} TemplateText(t: Template)
    requires GoodTemplate(t)
    ensures Render(TemplateTokens(t)) == PrintTemplate(t)
  {
    ListText(t.segments, VerbTokens(t.verb));
    assert Render([END]) == "";
    if t.verb.Some? {
      var v := Token(Literal, t.verb.value);
      assert [COLON, v, END][1..] == [v, END] && [v, END][1..] == [END];
      assert Render([v, END]) == t.verb.value;
    }
  }
}
