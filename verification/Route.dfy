/** Request paths: a list of separator and text pairs, their tokens, and a reference parser. */
module Route {
  import opened Options
  import opened Characters
  import opened Tokens
  import opened Grammar

  datatype Part = Part(sep: char, text: string)

  predicate GoodPart(p: Part) {
    (p.sep == '/' || p.sep == ':') && p.text != "" && AllChars(IsPath, p.text)
  }

  predicate GoodRoute(ps: seq<Part>) {
    forall i :: 0 <= i < |ps| ==> GoodPart(ps[i])
  }

  function PartTokens(p: Part): seq<Token> {
    [if p.sep == '/' then SLASH else COLON, Token(Path, p.text)]
  }

  function RouteTokens(ps: seq<Part>): (toks: seq<Token>)
    ensures |toks| == 2 * |ps| + 1
  {
    if ps == [] then [END] else PartTokens(ps[0]) + RouteTokens(ps[1..])
  }

  function PrintRoute(ps: seq<Part>): string {
    if ps == [] then "" else [ps[0].sep] + (ps[0].text + PrintRoute(ps[1..]))
  }

  /** The longest part at the front of `s`. */
  function ParsePart(s: string): (r: Parsed<Part>)
    ensures r.Parsed? ==> |r.rest| < |s| && GoodPart(r.value)
  {
    if s == "" || (s[0] != '/' && s[0] != ':') then NoParse
    else
      var n := Span(IsPath, s[1..]);
      if n == 0 then NoParse else Parsed(Part(s[0], s[1..][..n]), s[1..][n..])
  }

  function ParseRoute(s: string): (r: Option<seq<Part>>)
    ensures r.Some? ==> GoodRoute(r.value)
    decreases |s|
  {
    if s == "" then Some([])
    else
      match ParsePart(s)
      case NoParse => None
      case Parsed(p, rest) =>
        match ParseRoute(rest)
        case None => None
        case Some(ps) => Some([p] + ps)
  }

  lemma {:induction false} RouteSound(s: string)
    requires ParseRoute(s).Some?
    ensures PrintRoute(ParseRoute(s).value) == s
    decreases |s|
  {
    if s != "" {
      var Parsed(p, rest) := ParsePart(s);
      RouteSound(rest);
      var ps := ParseRoute(rest).value;
      assert ([p] + ps)[1..] == ps;
      assert s[1..] == p.text + rest;
    }
  }

  lemma {:induction false} PartComplete(p: Part, rest: string)
    requires GoodPart(p)
    requires rest == "" || !IsPath(rest[0])
    ensures ParsePart([p.sep] + (p.text + rest)) == Parsed(p, rest)
  {
    SpanAll(IsPath, p.text, rest);
    assert ([p.sep] + (p.text + rest))[1..] == p.text + rest;
  }

  lemma {:induction false} RouteCons(p: Part, ps: seq<Part>, rest: string)
    requires GoodPart(p) && (rest == "" || !IsPath(rest[0]))
    requires ParseRoute(rest) == Some(ps)
    ensures ParseRoute([p.sep] + (p.text + rest)) == Some([p] + ps)
  {
    PartComplete(p, rest);
  }

  lemma {:induction false} NothingLeft()
    ensures ParseRoute("") == Some([])
  {
  }

  /** The text of a part ends where the next part begins. */
  lemma {:induction false} SeparatorEnds(ps: seq<Part>)
    requires GoodRoute(ps)
    ensures ps == [] ==> PrintRoute(ps) == ""
    ensures ps != [] ==> PrintRoute(ps) != "" && !IsPath(PrintRoute(ps)[0])
  {
    if ps != [] {
      assert GoodPart(ps[0]);
    }
  }

  lemma {:induction false} RouteComplete(ps: seq<Part>)
    requires GoodRoute(ps)
    ensures ParseRoute(PrintRoute(ps)) == Some(ps)
  {
    hide ParseRoute, IsPath;
    NothingLeft();
    if ps != [] {
      var tail := ps[1..];
      RouteComplete(tail);
      assert tail != [] ==> GoodPart(tail[0]);
      assert GoodPart(ps[0]);
      SeparatorEnds(tail);
      RouteCons(ps[0], tail, PrintRoute(tail));
      assert [ps[0]] + tail == ps;
    }
  }

  /** The accepted paths are exactly the printed part lists, each of one list only. */
  lemma {:induction false} RouteIffPrinted(s: string, ps: seq<Part>)
    ensures ParseRoute(s) == Some(ps) <==> GoodRoute(ps) && PrintRoute(ps) == s
  {
    if ParseRoute(s) == Some(ps) {
      RouteSound(s);
    }
    if GoodRoute(ps) && PrintRoute(ps) == s {
      RouteComplete(ps);
    }
  }

  lemma {:induction false} RouteText(ps: seq<Part>)
    requires GoodRoute(ps)
    ensures Render(RouteTokens(ps)) == PrintRoute(ps)
  {
    if ps == [] {
      assert Render([END]) == "";
    } else {
      RouteText(ps[1..]);
      RenderConcat(PartTokens(ps[0]), RouteTokens(ps[1..]));
      PartText(ps[0]);
      assert [ps[0].sep] + ps[0].text + PrintRoute(ps[1..]) == PrintRoute(ps);
    }
  }

  lemma {:induction false} PartText(p: Part)
    requires GoodPart(p)
    ensures Render(PartTokens(p)) == [p.sep] + p.text
  {
    assert PartTokens(p)[1..] == [Token(Path, p.text)];
    assert Render([Token(Path, p.text)]) == p.text;
  }
}
