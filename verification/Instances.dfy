/** Concrete rules, routes and templates: where the source's measure of a variable is wrong, a
    specific and a wildcard method of one node, and the syntax of templates. */
module Instances {
  import opened Options
  import opened Characters
  import opened Tokens
  import opened Grammar
  import opened Route
  import opened Tries
  import opened Matching
  import opened Running
  import opened Rules
  import opened Lexers
  import opened Compile
  import opened RoundTrip

  function RuleFor(tmpl: string): HttpRule {
    HttpRule(Get(tmpl), "", "", [])
  }

  /** A message with three fields. */
  const FIELDS := Desc("", map[["name"] := ["name"], ["aa"] := ["aa"], ["bb"] := ["bb"]])

  /** A rule whose template has no verb and only known field paths, without a body, is added to
      the empty tree. */
  lemma {:induction false} RuleAdded(rule: HttpRule, ss: seq<Segment>, desc: Desc, name: string)
    requires !rule.pattern.Unset? && rule.body == rule.responseBody == ""
    requires GoodList(ss) && Flat(ss) && AllKnown(Looks(ss), desc)
    requires PrintTemplate(Template(ss, None)) == rule.pattern.tmpl
    requires |TemplateTokens(Template(ss, None))| <= MAX_TOKENS
    ensures Alone(rule, desc, name).1.Added? && TemplateFits(rule.pattern.tmpl)
    ensures SegmentsOf(rule) == ss && VerbPartOf(rule) == None
    ensures Way(rule, desc) == Edges(StepsFor(ss, None, desc))
    ensures Target(rule, desc) == Some((Dest(Root, StepsFor(ss, None, desc)), VerbOf(rule.pattern)))
    ensures MethodFor(rule, desc, name).Built?
    ensures MethodFor(rule, desc, name).m.vars == FieldsOf(StepsFor(ss, None, desc))
  {
    hide Wf, NoStar, AddOne, Walk, ParseTemplate, TemplateTokens, Slots, Looks, PrintTemplate, GoodList, Flat, VerbOf;
    TemplateIffPrinted(rule.pattern.tmpl, Template(ss, None));
    BareGood();
    Registry.RuleEnds(rule, desc);
    Registry.AddOneIff(BARE, Registry.Entry(rule, desc, name));
    AddedSteps(BARE, rule, desc, name);
  }

  /* ---- One variable ---- */

  /** The template of one variable, and its text. */
  function Single(p: string, pat: seq<Segment>): Template {
    Template([Bind([p], pat)], None)
  }

  predicate Usable(p: string, pat: seq<Segment>) {
    && FieldPathOf(FIELDS, [p]) != [] && GoodList(pat) && Plain(pat) && GoodTemplate(Single(p, pat))
    && |TemplateTokens(Single(p, pat))| <= MAX_TOKENS
  }

  function SingleText(p: string, pat: seq<Segment>): string
    requires GoodList(pat)
  {
    "/" + ("{" + (p + ("=" + PrintList(pat, "}"))))
  }

  lemma {:induction false} SinglePrinted(p: string, pat: seq<Segment>)
    requires Usable(p, pat)
    ensures PrintTemplate(Single(p, pat)) == SingleText(p, pat)
  {
    var x, rest := Bind([p], pat), "=" + PrintList(pat, "}");
    assert GoodSegment(x);
    assert "}" + "" == "}";
    assert PrintSegment(x, "") == "{" + PrintPath([p], rest);
    assert PrintPath([p], rest) == p + rest;
    assert PrintVerb(None) == "";
  }

  lemma {:induction false} OneVariable(p: string, pat: seq<Segment>, name: string)
    requires Usable(p, pat)
    ensures var rule := RuleFor(SingleText(p, pat));
      && Alone(rule, FIELDS, name).1.Added?
      && SegmentsOf(rule) == Single(p, pat).segments && VerbPartOf(rule) == None
      && MethodFor(rule, FIELDS, name).Built? && MethodFor(rule, FIELDS, name).m.vars == [FieldPathOf(FIELDS, [p])]
  {
    var ss: seq<Segment>, none: seq<Segment> := [Bind([p], pat)], [];
    SinglePrinted(p, pat);
    OneLook(p, pat);
    assert Flat(ss) && GoodList(ss);
    hide Alone, TemplateTokens, SegmentsOf, MethodFor, PrintTemplate, PrintList, GoodList, GoodSegment, Looks, Flat;
    RuleAdded(RuleFor(SingleText(p, pat)), ss, FIELDS, name);
    OneStep(p, pat);
  }

  lemma {:induction false} OneStep(p: string, pat: seq<Segment>)
    requires GoodSegment(Bind([p], pat))
    ensures var ss: seq<Segment> := [Bind([p], pat)];
      FieldsOf(StepsFor(ss, None, FIELDS)) == [FieldPathOf(FIELDS, [p])]
  {
    var ss: seq<Segment>, none: seq<Segment> := [Bind([p], pat)], [];
    assert ss[1..] == none;
    var step := StepFor(ss[0], FIELDS);
    assert StepsFor(ss, None, FIELDS) == [step] + StepsFor(none, None, FIELDS);
    assert StepsFor(none, None, FIELDS) == [];
    assert [step] + [] == [step] && [step][1..] == [];
    assert FieldsOf([step]) == [step.fds] + FieldsOf([step][1..]);
  }

  lemma {:induction false} OneLook(p: string, pat: seq<Segment>)
    requires Usable(p, pat)
    ensures GoodList([Bind([p], pat)]) && GoodSegment(Bind([p], pat)) && Looks([Bind([p], pat)]) == [[p]]
  {
    var ss: seq<Segment>, none: seq<Segment> := [Bind([p], pat)], [];
    assert GoodSegment(ss[0]) && ss[1..] == none;
    assert Looks(none) == [];
    assert [[p]] + [] == [[p]];
  }

  /** What one variable captures. */
  lemma {:induction false} OneCapture(p: string, pat: seq<Segment>, texts: seq<string>, more: string)
    requires texts != []
    ensures var ss: seq<Segment> := [Bind([p], pat)];
      Captured(ss, [texts], more) == [JoinSlash(texts) + more]
  {
    var ss: seq<Segment> := [Bind([p], pat)];
    assert ss[1..] == [] && [texts][1..] == [];
    assert Captured(ss[1..], [texts][1..], more) == [];
    assert Captured(ss, [texts], more) == [JoinSlash(texts) + more] + Captured(ss[1..], [texts][1..], more);
    assert [JoinSlash(texts) + more] + [] == [JoinSlash(texts) + more];
  }

  /** A route that fills in the only variable, which ends in `**`, and goes on with a colon: with
      no segment before the `**` it is not found, with one segment the variable takes what comes
      after the colon too, and with more the search panics. */
  lemma {:induction false} OneRoute(p: string, pat: seq<Segment>, texts: seq<string>, extra: string, name: string,
                                    parse: Parser)
    requires Usable(p, pat) && Deep(pat) && FitsPattern(pat, texts) && GoodTexts(texts)
    requires extra != "" && AllChars(IsPath, extra) && 2 * |texts| + 3 <= MAX_TOKENS
    ensures texts != [] && Alone(RuleFor(SingleText(p, pat)), FIELDS, name).1.Added?
    ensures var text := JoinSlash(texts) + (":" + extra);
      var r := PathSearch.MatchIn(Alone(RuleFor(SingleText(p, pat)), FIELDS, name).0, "/" + text, "GET", parse);
      && (|pat| == 1 ==> r.Missing?)
      && (|pat| == 2 ==>
            && (r.Found? <==> parse(FieldPathOf(FIELDS, [p]), text).Some?)
            && (r.Found? ==> r.ps == [Param(FieldPathOf(FIELDS, [p]), parse(FieldPathOf(FIELDS, [p]), text))]))
      && (|pat| > 2 ==> r.Crashed?)
  {
    var rule := RuleFor(SingleText(p, pat));
    var ss: seq<Segment>, chunks, rest := [Bind([p], pat)], [texts], [Part(':', extra)];
    NotEmptyTexts(pat, texts);
    OneLook(p, pat);
    OneVariable(p, pat, name);
    OneRest(ss, chunks, rest);
    OneText(texts, extra);
    if |pat| <= 2 {
      OneCapture(p, pat, texts, PrintRoute(rest[..Overshoot(ss, rest)]));
    }
    OneParam(FieldPathOf(FIELDS, [p]), JoinSlash(texts) + (":" + extra), parse);
    hide Wf, Search, Alone, TemplateFits, TemplateTokens, SegmentsOf, VerbPartOf, MethodFor, FitsPattern, PrintList,
      Fits, Slashes, JoinSlash, Captured, GoodRoute, RouteTokens, Decoded, ParamsOf, SingleText, Usable, Overshoot;
    SearchRoundTrip(rule, FIELDS, name, chunks, rest, "GET", parse);
    RouteIffPrinted(PrintRoute(Slashes(texts, rest)), Slashes(texts, rest));
  }

  lemma {:induction false} OneParam(fds: FieldPath, text: string, parse: Parser)
    requires fds != []
    ensures Decoded([fds], [text], parse) <==> parse(fds, text).Some?
    ensures ParamsOf([fds], [text], parse) == [Param(fds, parse(fds, text))]
  {
    var vars, texts := [fds], [text];
    assert vars[1..] == [] && texts[1..] == [];
    assert ParamsOf(vars[1..], texts[1..], parse) == [];
    assert ParamsOf(vars, texts, parse) == [] + [ParamOf(vars[0], texts[0], parse)];
    assert Decoded(vars, texts, parse) ==> parse(vars[0], texts[0]).Some?;
  }

  lemma {:induction false} OneText(texts: seq<string>, extra: string)
    requires texts != []
    ensures var rest := [Part(':', extra)];
      && PrintRoute(Slashes(texts, rest)) == "/" + (JoinSlash(texts) + (":" + extra))
      && |Slashes(texts, rest)| == |texts| + 1
      && PrintRoute(rest[..1]) == ":" + extra
  {
    var rest := [Part(':', extra)];
    assert rest[1..] == [] && extra + "" == extra && rest[..1] == rest;
    StepText(texts, rest, 1);
    var ps := Slashes(texts, rest);
    assert ps[..|texts| + 1] == ps && ps[0].sep == '/';
    assert PrintRoute(ps) == "/" + Text(ps);
  }

  lemma {:induction false} OneRest(ss: seq<Segment>, chunks: seq<seq<string>>, rest: seq<Part>)
    requires |ss| == |chunks| == 1 && GoodSegment(ss[0])
    requires FitsPattern(PatternFor(ss[0]), chunks[0]) && GoodTexts(chunks[0]) && Deep(PatternFor(ss[0]))
    requires |rest| == 1 && rest[0].sep == ':' && rest[0].text != "" && AllChars(IsPath, rest[0].text)
    ensures Fits(ss, chunks) && Follows(ss, rest) && GoodRoute(rest)
    ensures Fill(chunks, rest) == Slashes(chunks[0], rest)
    ensures var o := |PatternFor(ss[0])| - 1;
      && Overshoot(ss, rest) == o
      && Finish(ss, None, rest) == if o == 0 then Miss else if o == 1 then Take(0) else Crash
  {
    assert chunks[1..] == [];
    assert rest[1..] == [] && rest[0..] == rest;
  }

  /* ---- The two routes ---- */

  lemma {:induction false} Letters()
    ensures GoodPath(["name"]) && GoodPath(["aa"]) && GoodPath(["bb"])
    ensures GoodWord("aa") && GoodWord("bb")
    ensures GoodTexts(["aa", "bb"]) && GoodTexts(["aa", "bb", "cc"]) && AllChars(IsPath, "cc") && AllChars(IsPath, "dd")
  {
    assert "aa"[1..] == "a" && "bb"[1..] == "b";
  }

  const SHORT := [Word("aa"), DeepWild]
  const LONG := [Word("aa"), Word("bb"), DeepWild]

  lemma {:induction false} ShortGood()
    ensures GoodList(SHORT) && Plain(SHORT) && Deep(SHORT) && FitsPattern(SHORT, ["aa", "bb"])
    ensures PrintList(SHORT, "}") == "aa/**}"
  {
    Letters();
    assert SHORT[1..] == [DeepWild] && ["aa", "bb"][1..] == ["bb"];
    assert GoodSegment(SHORT[0]) && GoodSegment(SHORT[1]) && GoodList(SHORT[1..]);
    assert PrintList(SHORT[1..], "}") == "**" + "}";
    assert "aa" + ("/" + ("**" + "}")) == "aa/**}";
  }

  lemma {:induction false} LongGood()
    ensures GoodList(LONG) && Plain(LONG) && Deep(LONG) && FitsPattern(LONG, ["aa", "bb", "cc"])
    ensures PrintList(LONG, "}") == "aa/bb/**}"
  {
    Letters();
    var rest := [Word("bb"), DeepWild];
    assert LONG[1..] == rest && rest[1..] == [DeepWild];
    assert ["aa", "bb", "cc"][1..] == ["bb", "cc"] && ["bb", "cc"][1..] == ["cc"];
    assert GoodSegment(LONG[0]) && GoodSegment(rest[0]) && GoodSegment(rest[1]);
    assert GoodList(rest[1..]) && GoodList(rest);
    assert PrintList(rest[1..], "}") == "**" + "}";
    assert PrintList(rest, "}") == "bb" + ("/" + ("**" + "}"));
    assert FitsPattern(rest, ["bb", "cc"]);
    assert "aa" + ("/" + ("bb" + ("/" + ("**" + "}")))) == "aa/bb/**}";
  }

  /** A pattern of few segments is usable. */
  lemma {:induction false} SingleGood(pat: seq<Segment>)
    requires GoodList(pat) && Plain(pat) && GoodPath(["name"]) && |pat| <= 3
    ensures Usable("name", pat)
  {
    var ss: seq<Segment> := [Bind(["name"], pat)];
    assert GoodSegment(ss[0]) && GoodList(ss);
    PlainTokenCount(pat);
    BindTokens(["name"], pat);
    PathText(["name"], [EQUAL] + ListTokens(pat, [CLOSE]));
    ListAppend(pat, [CLOSE]);
    assert |PathTokens(["name"], [])| == 1;
    SegmentAppend(ss[0], VerbTokens(None));
    assert TemplateTokens(Single("name", pat)) == [SLASH] + SegmentTokens(ss[0], VerbTokens(None));
    assert FIELDS.fields[["name"]] == ["name"];
  }

  lemma {:induction false} PlainTokenCount(pat: seq<Segment>)
    requires GoodList(pat) && Plain(pat)
    ensures |ListTokens(pat, [])| == 2 * |pat| - 1
  {
    PatternTokens(pat);
    if |pat| > 1 {
      PlainTokenCount(pat[1..]);
    }
  }

  lemma {:induction false} Texts()
    ensures JoinSlash(["aa", "bb"]) + (":" + "cc") == "aa/bb:cc" && "/" + "aa/bb:cc" == "/aa/bb:cc"
    ensures JoinSlash(["aa", "bb", "cc"]) + (":" + "dd") == "aa/bb/cc:dd" && "/" + "aa/bb/cc:dd" == "/aa/bb/cc:dd"
  {
    var bc := ["bb", "cc"];
    assert ["aa", "bb"][1..] == ["bb"] && ["aa", "bb", "cc"][1..] == bc && bc[1..] == ["cc"];
    assert JoinSlash(bc) == "bb" + ("/" + "cc");
    assert "aa" + ("/" + "bb") + (":" + "cc") == "aa/bb:cc";
    assert "aa" + ("/" + ("bb" + ("/" + "cc"))) + (":" + "dd") == "aa/bb/cc:dd";
  }

  lemma {:induction false} TemplateTexts()
    ensures SingleText("name", SHORT) == "/{name=aa/**}" && SingleText("name", LONG) == "/{name=aa/bb/**}"
  {
    hide PrintList, FitsPattern, GoodList, Plain;
    ShortGood();
    LongGood();
    assert "/" + ("{" + ("name" + ("=" + "aa/**}"))) == "/{name=aa/**}";
    assert "/" + ("{" + ("name" + ("=" + "aa/bb/**}"))) == "/{name=aa/bb/**}";
  }

  lemma {:induction false} NameField()
    ensures FieldPathOf(FIELDS, ["name"]) == ["name"]
  {
    assert FIELDS.fields[["name"]] == ["name"];
  }

  // The rule "/{name=aa/**}" answers "/aa/bb:cc", and its variable takes what comes after the
  // colon too.
  lemma {:induction false} SwallowsVerb(name: string, parse: Parser)
    ensures Alone(RuleFor("/{name=aa/**}"), FIELDS, name).1.Added?
    ensures var r := PathSearch.MatchIn(Alone(RuleFor("/{name=aa/**}"), FIELDS, name).0, "/aa/bb:cc", "GET", parse);
      && (r.Found? <==> parse(["name"], "aa/bb:cc").Some?)
      && (r.Found? ==> r.ps == [Param(["name"], parse(["name"], "aa/bb:cc"))])
  {
    hide Alone, RuleFor, PathSearch.MatchIn, Usable, SingleText, FitsPattern, GoodTexts, Deep, GoodList, Plain,
      JoinSlash, PrintList, FieldPathOf, AllChars, GoodPath, GoodWord;
    ShortGood();
    Letters();
    SingleGood(SHORT);
    TemplateTexts();
    Texts();
    NameField();
    OneRoute("name", SHORT, ["aa", "bb"], "cc", name, parse);
  }

  // The rule "/{name=aa/bb/**}" makes the search panic on "/aa/bb/cc:dd".
  lemma {:induction false} PanicsOnVerb(name: string, parse: Parser)
    ensures Alone(RuleFor("/{name=aa/bb/**}"), FIELDS, name).1.Added?
    ensures var t := Alone(RuleFor("/{name=aa/bb/**}"), FIELDS, name).0;
      PathSearch.MatchIn(t, "/aa/bb/cc:dd", "GET", parse).Crashed?
  {
    hide Alone, RuleFor, PathSearch.MatchIn, Usable, SingleText, FitsPattern, GoodTexts, Deep, GoodList, Plain,
      JoinSlash, PrintList, FieldPathOf, AllChars, GoodPath, GoodWord;
    LongGood();
    Letters();
    SingleGood(LONG);
    TemplateTexts();
    Texts();
    OneRoute("name", LONG, ["aa", "bb", "cc"], "dd", name, parse);
  }

  /* ---- A `**` before the end ---- */

  const PAIR := [Bind(["aa"], [DeepWild]), Bind(["bb"], [Wild])]

  lemma {:induction false} PairTrace()
    ensures var ps := [Part('/', "x"), Part('/', "y"), Part(':', "z")];
      Trace([Var("**"), Var("*")], ps) == Take(0) && Caught([Var("**"), Var("*")], ps) == ["x/y", "z"]
  {
    var ps := [Part('/', "x"), Part('/', "y"), Part(':', "z")];
    var es := [Var("**"), Var("*")];
    var none: seq<Edge> := [];
    Routing.Patterns();
    assert es[1..] == [Var("*")] && [Var("*")][1..] == none;
    assert ps[1..] == [Part('/', "y"), Part(':', "z")] && ps[1..][1..] == [Part(':', "z")];
    assert SlashRun(ps[1..]) == 1;
    assert Stride(es[0], ps) == Take(2);
    assert ps[2..] == [Part(':', "z")] && ps[2..][1..] == [];
    assert Stride(Var("*"), ps[2..]) == Take(1);
    assert ps[..2] == [Part('/', "x"), Part('/', "y")] && ps[..2][1..] == [Part('/', "y")] && ps[..2][1..][1..] == [];
    assert PrintRoute(ps[..2][1..]) == "/y";
    assert Text(ps[..2]) == "x/y";
    assert ps[2..][..1] == [Part(':', "z")] && Text([Part(':', "z")]) == "z";
    assert Caught([Var("*")], ps[2..]) == ["z"];
  }

  lemma {:induction false} PairGood()
    ensures GoodList(PAIR) && Flat(PAIR) && Looks(PAIR) == [["aa"], ["bb"]]
    ensures PrintTemplate(Template(PAIR, None)) == "/{aa=**}/{bb=*}"
    ensures |TemplateTokens(Template(PAIR, None))| <= MAX_TOKENS
    ensures AllKnown(Looks(PAIR), FIELDS) && DeepEarly(PAIR)
  {
    var rest, none: seq<Segment> := [Bind(["bb"], [Wild])], [];
    PairKnown();
    Letters();
    assert GoodList([DeepWild]) && GoodList([Wild]);
    assert PAIR[1..] == rest && rest[1..] == none;
    assert GoodSegment(PAIR[0]) && GoodSegment(rest[0]) && GoodList(rest);
    PairText();
    PairTokens();
  }

  lemma {:induction false} PairKnown()
    ensures Looks(PAIR) == [["aa"], ["bb"]] && AllKnown(Looks(PAIR), FIELDS) && DeepEarly(PAIR)
  {
    var rest, none: seq<Segment> := [Bind(["bb"], [Wild])], [];
    assert PAIR[1..] == rest && rest[1..] == none && EarlyAt(PAIR, 0);
    assert Looks(none) == [] && Looks(rest) == [["bb"]] + [] && Looks(PAIR) == [["aa"]] + Looks(rest);
    assert FIELDS.fields[["aa"]] == ["aa"] && FIELDS.fields[["bb"]] == ["bb"];
  }

  lemma {:induction false} PairText()
    requires GoodList(PAIR)
    ensures PrintTemplate(Template(PAIR, None)) == "/{aa=**}/{bb=*}"
  {
    var rest := [Bind(["bb"], [Wild])];
    assert PAIR[1..] == rest;
    assert GoodSegment(PAIR[0]) && GoodList(rest) && GoodSegment(rest[0]) && GoodList([DeepWild]) && GoodList([Wild]);
    assert "}" + "" == "}" && PrintVerb(None) == "";
    assert PrintList([Wild], "}") == "*" + "}";
    assert PrintList(rest, "") == PrintSegment(rest[0], "");
    assert PrintSegment(rest[0], "") == "{" + ("bb" + ("=" + ("*" + "}")));
    var second := "{" + ("bb" + ("=" + ("*" + "}")));
    assert PrintList([DeepWild], "}" + ("/" + second)) == "**" + ("}" + ("/" + second));
    assert PrintSegment(PAIR[0], "/" + second) == "{" + ("aa" + ("=" + ("**" + ("}" + ("/" + second)))));
    assert PrintList(PAIR, "") == PrintSegment(PAIR[0], "/" + second);
    PairLiteral();
  }

  lemma {:induction false} PairLiteral()
    ensures "/" + ("{" + ("aa" + ("=" + ("**" + ("}" + ("/" + ("{" + ("bb" + ("=" + ("*" + "}")))))))))) ==
      "/{aa=**}/{bb=*}"
  {
    assert "{" + ("bb" + ("=" + ("*" + "}"))) == "{bb=*}";
    assert "{" + ("aa" + ("=" + ("**" + ("}" + ("/" + "{bb=*}"))))) == "{aa=**}/{bb=*}";
  }

  lemma {:induction false} PairTokens()
    requires GoodList(PAIR)
    ensures |TemplateTokens(Template(PAIR, None))| <= MAX_TOKENS
  {
    var rest := [Bind(["bb"], [Wild])];
    assert PAIR[1..] == rest && GoodList(rest) && GoodSegment(PAIR[0]) && GoodSegment(rest[0]);
    assert GoodList([DeepWild]) && GoodList([Wild]);
    var k := VerbTokens(None);
    assert |ListTokens(rest, k)| == |k| + 5;
    assert |SegmentTokens(PAIR[0], [SLASH] + ListTokens(rest, k))| == |k| + 11;
  }

  lemma {:induction false} PairSteps()
    requires forall i :: 0 <= i < |PAIR| ==> GoodSegment(PAIR[i])
    ensures Edges(StepsFor(PAIR, None, FIELDS)) == [Var("**"), Var("*")]
    ensures FieldsOf(StepsFor(PAIR, None, FIELDS)) == [["aa"], ["bb"]]
  {
    var rest, none: seq<Segment> := [Bind(["bb"], [Wild])], [];
    assert PAIR[1..] == rest && rest[1..] == none && FIELDS.fields[["aa"]] == ["aa"] && FIELDS.fields[["bb"]] == ["bb"];
    var deep, star := [Token(StarStar, "**")], [Token(Star, "*")];
    assert deep + [] == deep && star + [] == star && deep[1..] == [] && star[1..] == [];
    assert Render(deep) == "**" + Render([]) == "**" && Render(star) == "*" + Render([]) == "*";
    var a, b := VarStep(deep, ["aa"]), VarStep(star, ["bb"]);
    assert StepFor(PAIR[0], FIELDS) == a && StepFor(rest[0], FIELDS) == b;
    assert StepsFor(rest, None, FIELDS) == [b] + [] == [b];
    assert StepsFor(PAIR, None, FIELDS) == [a] + [b] == [a, b];
    assert [a, b][1..] == [b] && [b][1..] == [];
    assert Edges([b]) == [Var("*")] + Edges([]) && FieldsOf([b]) == [["bb"]] + FieldsOf([]);
  }

  lemma {:induction false} PairAdded(name: string)
    ensures Alone(RuleFor("/{aa=**}/{bb=*}"), FIELDS, name).1.Added?
    ensures DeepEarly(SegmentsOf(RuleFor("/{aa=**}/{bb=*}")))
    ensures Way(RuleFor("/{aa=**}/{bb=*}"), FIELDS) == [Var("**"), Var("*")]
    ensures Target(RuleFor("/{aa=**}/{bb=*}"), FIELDS).Some?
    ensures MethodFor(RuleFor("/{aa=**}/{bb=*}"), FIELDS, name).Built?
    ensures MethodFor(RuleFor("/{aa=**}/{bb=*}"), FIELDS, name).m.vars == [["aa"], ["bb"]]
  {
    hide Alone, VerbPartOf, MethodFor, TemplateFits, PrintTemplate, TemplateTokens, StepsFor, Looks, Flat;
    hide Way, Target, Edges, FieldsOf, AllKnown, DeepEarly;
    PairGood();
    RuleAdded(RuleFor("/{aa=**}/{bb=*}"), PAIR, FIELDS, name);
    PairSteps();
  }

  lemma {:induction false} PairParams(parse: Parser)
    ensures var vars, texts := [["aa"], ["bb"]], ["x/y", "z"];
      && (Decoded(vars, texts, parse) <==> parse(["aa"], "x/y").Some? && parse(["bb"], "z").Some?)
      && ParamsOf(vars, texts, parse) == [Param(["bb"], parse(["bb"], "z")), Param(["aa"], parse(["aa"], "x/y"))]
  {
    var vars, texts := [["aa"], ["bb"]], ["x/y", "z"];
    assert vars[1..] == [["bb"]] && texts[1..] == ["z"] && [["bb"]][1..] == [] && ["z"][1..] == [];
    assert Decoded(vars, texts, parse) ==> parse(vars[0], texts[0]).Some? && parse(vars[1], texts[1]).Some?;
    assert ParamsOf([["bb"]], ["z"], parse) == [Param(["bb"], parse(["bb"], "z"))];
  }

  lemma {:induction false} PairRoute()
    ensures var ps := [Part('/', "x"), Part('/', "y"), Part(':', "z")];
      GoodRoute(ps) && PrintRoute(ps) == "/x/y:z"
  {
    var ps := [Part('/', "x"), Part('/', "y"), Part(':', "z")];
    var qs := [Part('/', "y"), Part(':', "z")];
    assert ps[1..] == qs && qs[1..] == [Part(':', "z")] && [Part(':', "z")][1..] == [];
    assert PrintRoute([Part(':', "z")]) == ":" + ("z" + "");
    assert PrintRoute(qs) == "/" + ("y" + ":z");
    assert PrintRoute(ps) == "/" + ("x" + "/y:z");
  }

  // A `**` before the end answers no route without a colon, but with one it may: a variable does
  // not look at the separator in front of it, so the rule "/{aa=**}/{bb=*}" answers "/x/y:z".
  lemma {:induction false} EarlyAnswered(name: string, parse: Parser)
    ensures var rule := RuleFor("/{aa=**}/{bb=*}");
      var r := PathSearch.MatchIn(Alone(rule, FIELDS, name).0, "/x/y:z", "GET", parse);
      && Alone(rule, FIELDS, name).1.Added? && DeepEarly(SegmentsOf(rule))
      && (r.Found? <==> parse(["aa"], "x/y").Some? && parse(["bb"], "z").Some?)
      && (r.Found? ==> r.ps == [Param(["bb"], parse(["bb"], "z")), Param(["aa"], parse(["aa"], "x/y"))])
  {
    hide Alone, SegmentsOf, VerbPartOf, MethodFor, TemplateFits, Way, Trace, Caught, Decoded, ParamsOf,
      Search, GoodRoute, RouteTokens, DeepEarly, ParseRoute, PrintRoute;
    var rule, ps := RuleFor("/{aa=**}/{bb=*}"), [Part('/', "x"), Part('/', "y"), Part(':', "z")];
    PairAdded(name);
    PairTrace();
    PairRoute();
    PairParams(parse);
    OnlyRule(rule, FIELDS, name, ps, "GET", parse);
    RouteIffPrinted("/x/y:z", ps);
  }

  /* ---- A specific and a wildcard binding of one node ---- */

  const BOOKS := [Word("books")]

  /** `get: "/books"` and `custom: {kind: "*", path: "/books"}`. */
  const LIST := Registry.Entry(RuleFor("/books"), FIELDS, "List")
  const ANY := Registry.Entry(HttpRule(Custom("*", "/books"), "", "", []), FIELDS, "Any")

  lemma {:induction false} BooksGood()
    ensures GoodList(BOOKS) && Flat(BOOKS) && Looks(BOOKS) == []
    ensures PrintTemplate(Template(BOOKS, None)) == "/books"
    ensures |TemplateTokens(Template(BOOKS, None))| <= MAX_TOKENS
    ensures Dest(Root, StepsFor(BOOKS, None, FIELDS)) == At(Root, Lit("/books"))
  {
    var none: seq<Segment> := [];
    Letters();
    assert "books"[1..] == "ooks";
    assert GoodWord("books");
    assert BOOKS[1..] == none && GoodSegment(BOOKS[0]) && GoodSegment(Word("books"));
    assert Looks(none) == [];
    assert PrintList(BOOKS, "") == "books" + "" == "books" && PrintVerb(None) == "";
    assert |ListTokens(BOOKS, VerbTokens(None))| == 2;
    var step := LitStep("/" + "books");
    assert "/" + "books" == "/books";
    assert StepsFor(none, None, FIELDS) == [] && StepsFor(BOOKS, None, FIELDS) == [step] + [] == [step];
    assert [step][1..] == [] && Dest(At(Root, Lit("/books")), []) == At(Root, Lit("/books"));
  }

  lemma {:induction false} BooksAdded()
    ensures Registry.Addable(BARE, LIST) && Registry.Addable(BARE, ANY) && Registry.OneNode(ANY, LIST)
    ensures Registry.TargetOf(LIST) == Some((At(Root, Lit("/books")), "GET"))
    ensures Registry.TargetOf(ANY) == Some((At(Root, Lit("/books")), "*"))
  {
    BooksGood();
    hide Target, MethodFor, Looks, StepsFor, Flat, GoodList, PrintTemplate, TemplateTokens, AddOne, Dest, TemplateFits;
    RuleAdded(LIST.rule, BOOKS, FIELDS, "List");
    RuleAdded(ANY.rule, BOOKS, FIELDS, "Any");
    assert Upper("*") == "*" by {
      assert "*"[1..] == "";
    }
    BareGood();
    Registry.AddOneIff(BARE, LIST);
    Registry.AddOneIff(BARE, ANY);
  }

  /** What a leaf below the root answers. */
  lemma {:induction false} LeafSearch(u: Trie, q: string, parse: Parser)
    requires Wf(u) && At(Root, Lit("/books")) in u
    ensures var info, r := u[At(Root, Lit("/books"))], Search(u, Root, RouteTokens([Part('/', "books")]), q, parse);
      && (q in info.methods ==> r == Found(info.methods[q], []))
      && (q !in info.methods && info.methodAll.Some? ==> r == Found(info.methodAll.value, []))
  {
    var p, none: seq<Part> := Part('/', "books"), [];
    assert [p][1..] == none && RouteTokens(none) == [END];
    assert RouteTokens([p]) == [SLASH, Token(Path, "books")] + [END] == [SLASH, Token(Path, "books"), END];
    assert RouteTokens([p])[2..] == [END] && "/" + "books" == "/books";
  }

  /** With both rules, GET gets the specific method and every other verb the wildcard one. */
  lemma {:induction false} SpecificOverWildcard(q: string, parse: Parser)
    ensures Registry.AddAll(BARE, [LIST, ANY]).Some? && Wf(Registry.AddAll(BARE, [LIST, ANY]).value)
    ensures var r := PathSearch.MatchIn(Registry.AddAll(BARE, [LIST, ANY]).value, "/books", q, parse);
      r.Found? && r.ps == [] && r.m.name == if q == "GET" then "List" else "Any"
  {
    hide Target, AddOne, Wf, ParseRoute, Search, RouteTokens, RouteFits, PrintRoute, NoStar, Registry.AddAll;
    BareGood();
    BooksRoute();
    BooksBound();
    AllWf(BARE, [LIST, ANY]);
    LeafSearch(Registry.AddAll(BARE, [LIST, ANY]).value, q, parse);
  }

  lemma {:induction false} BooksBound()
    requires Wf(BARE) && NoStar(BARE)
    ensures Registry.AddAll(BARE, [LIST, ANY]).Some?
    ensures var u, x := Registry.AddAll(BARE, [LIST, ANY]).value, At(Root, Lit("/books"));
      && x in u && u[x].methods.Keys == {"GET"} && u[x].methods["GET"].name == "List"
      && u[x].methodAll.Some? && u[x].methodAll.value.name == "Any"
  {
    BooksAdded();
    hide Target, AddOne, Wf, Registry.AddAll;
    var x := At(Root, Lit("/books"));
    Registry.WildcardLast(BARE, ANY, LIST);
    BothBound(BARE, ANY, LIST);
    var u := Registry.AddAll(BARE, [LIST, ANY]).value;
    assert Bound(u, x, "GET").Some? && Bound(u, x, "*").Some?;
    forall v ensures v in u[x].methods <==> v == "GET" {
      assert Bound(u, x, v) == if v == "*" || v == "GET" then Bound(u, x, v) else Bound(BARE, x, v);
    }
  }

  lemma {:induction false} AllWf(t: Trie, es: seq<Registry.Entry>)
    requires Wf(t) && NoStar(t) && Registry.AddAll(t, es).Some?
    ensures Wf(Registry.AddAll(t, es).value) && NoStar(Registry.AddAll(t, es).value)
    decreases |es|
  {
    hide Wf, NoStar, AddOne;
    if es != [] {
      AddOneExact(t, es[0].rule, es[0].desc, es[0].name);
      AllWf(AddOne(t, es[0].rule, es[0].desc, es[0].name).0, es[1..]);
    }
  }

  lemma {:induction false} BooksRoute()
    ensures RouteFits("/books") && ParseRoute("/books") == Some([Part('/', "books")])
  {
    var ps, none: seq<Part> := [Part('/', "books")], [];
    assert ps[1..] == none && PrintRoute(none) == "";
    assert PrintRoute(ps) == "/" + ("books" + "") == "/books";
    assert AllChars(IsPath, "books");
    hide IsPath, PrintRoute, ParseRoute;
    RouteIffPrinted("/books", ps);
  }

  /* ---- The syntax of templates ---- */

  const DEEP := [DeepWild]
  const NAMED := [Field(["c", "_"]), DeepWild]
  const BOUND := [Bind(["a"], [Word("bb"), Wild]), Field(["c", "_"]), DeepWild]
  const ALL := [Word("v1"), Bind(["a"], [Word("bb"), Wild]), Field(["c", "_"]), DeepWild]

  /** A template with all kinds of segments and a verb. */
  lemma {:induction false} TemplateExample()
    ensures ParseTemplate("/v1/{a=bb/*}/{c._}/**:e.f") == Some(Template(ALL, Some("e.f")))
  {
    ExampleGood();
    ExamplePrinted();
    ExampleVerb();
    hide ParseTemplate, PrintList, GoodList, PrintVerb, GoodVerb;
    TemplateIffPrinted("/v1/{a=bb/*}/{c._}/**:e.f", Template(ALL, Some("e.f")));
    SlashText();
  }

  lemma {:induction false} ExampleNames()
    ensures GoodWord("v1") && GoodWord("bb") && GoodIdent("a") && GoodIdent("c") && GoodIdent("_")
  {
    assert "v1"[1..] == "1" && "bb"[1..] == "b";
  }

  lemma {:induction false} ExampleGood()
    ensures GoodList(ALL) && GoodList(BOUND) && GoodList(NAMED) && GoodList(DEEP)
    ensures GoodList([Word("bb"), Wild])
  {
    ExampleNames();
    hide GoodWord, GoodIdent;
    assert [Word("bb"), Wild][1..] == [Wild] && GoodSegment(Word("bb")) && GoodSegment(Wild) && GoodList([Wild]);
    assert ALL[1..] == BOUND && BOUND[1..] == NAMED && NAMED[1..] == DEEP;
    assert GoodPath(["a"]) && GoodPath(["c", "_"]);
    assert GoodSegment(BOUND[0]) && GoodSegment(NAMED[0]) && GoodSegment(ALL[0]);
    assert GoodList(DEEP) && GoodList(NAMED) && GoodList(BOUND);
  }

  lemma {:induction false} ExampleVerb()
    ensures GoodVerb("e.f") && PrintVerb(Some("e.f")) == ":e.f"
  {
    assert ":" + "e.f" == ":e.f";
  }

  lemma {:induction false} ExamplePrinted()
    requires GoodList(ALL) && GoodList(BOUND) && GoodList(NAMED) && GoodList(DEEP)
    requires GoodList([Word("bb"), Wild])
    ensures PrintList(ALL, ":e.f") == "v1/{a=bb/*}/{c._}/**:e.f"
  {
    hide GoodPath, GoodWord, PrintSegment;
    assert ALL[1..] == BOUND && BOUND[1..] == NAMED;
    assert GoodSegment(BOUND[0]) && GoodSegment(ALL[0]);
    NamedPrinted();
    var named: string, bound: string := "{c._}/**:e.f", "{a=bb/*}" + ("/" + "{c._}/**:e.f");
    BindPrinted("/" + named);
    assert PrintList(BOUND, ":e.f") == PrintSegment(BOUND[0], "/" + named) == bound;
    WordPrinted("v1", "/" + bound);
    assert PrintList(ALL, ":e.f") == PrintSegment(ALL[0], "/" + bound);
    ExampleText();
  }

  lemma {:induction false} ExampleText()
    ensures "v1" + ("/" + ("{a=bb/*}" + ("/" + "{c._}/**:e.f"))) == "v1/{a=bb/*}/{c._}/**:e.f"
  {
    TailText();
    assert "v1" + "/{a=bb/*}/{c._}/**:e.f" == "v1/{a=bb/*}/{c._}/**:e.f";
  }

  lemma {:induction false} SlashText()
    ensures "/" + "v1/{a=bb/*}/{c._}/**:e.f" == "/v1/{a=bb/*}/{c._}/**:e.f"
  {
  }

  lemma {:induction false} TailText()
    ensures "/" + ("{a=bb/*}" + ("/" + "{c._}/**:e.f")) == "/{a=bb/*}/{c._}/**:e.f"
  {
    assert "{a=bb/*}" + ("/" + "{c._}/**:e.f") == "{a=bb/*}/{c._}/**:e.f";
  }

  lemma {:induction false} WordPrinted(w: string, rest: string)
    requires GoodSegment(Word(w))
    ensures PrintSegment(Word(w), rest) == w + rest
  {
  }

  lemma {:induction false} NamedPrinted()
    requires GoodList(NAMED) && GoodList(DEEP)
    ensures PrintList(NAMED, ":e.f") == "{c._}/**:e.f"
  {
    hide GoodPath;
    assert NAMED[1..] == DEEP;
    assert PrintList(DEEP, ":e.f") == "**" + ":e.f" == "**:e.f";
    assert "/" + "**:e.f" == "/**:e.f";
    assert GoodSegment(NAMED[0]);
    PathPrinted();
  }

  lemma {:induction false} PathPrinted()
    requires GoodSegment(Field(["c", "_"]))
    ensures PrintSegment(Field(["c", "_"]), "/**:e.f") == "{c._}/**:e.f"
  {
    var rest := "}" + "/**:e.f";
    assert ["c", "_"][1..] == ["_"];
    assert PrintPath(["_"], rest) == "_" + rest;
    assert PrintPath(["c", "_"], rest) == "c" + ("." + ("_" + rest));
    assert "{" + ("c" + ("." + ("_" + rest))) == "{c._}/**:e.f";
  }

  lemma {:induction false} BindPrinted(rest: string)
    requires GoodList([Word("bb"), Wild]) && GoodSegment(Bind(["a"], [Word("bb"), Wild]))
    ensures PrintSegment(Bind(["a"], [Word("bb"), Wild]), rest) == "{a=bb/*}" + rest
  {
    var pat := [Word("bb"), Wild];
    assert pat[1..] == [Wild] && GoodList([Wild]);
    assert PrintList([Wild], "}" + rest) == "*" + ("}" + rest);
    assert PrintList(pat, "}" + rest) == "bb" + ("/" + ("*" + ("}" + rest)));
    assert PrintPath(["a"], "=" + PrintList(pat, "}" + rest)) == "a" + ("=" + PrintList(pat, "}" + rest));
    assert "{" + ("a" + ("=" + ("bb" + ("/" + ("*" + ("}" + rest)))))) == "{a=bb/*}" + rest;
  }

  /** A path with other characters than letters and a verb. */
  lemma {:induction false} RouteExample()
    ensures ParseRoute("/a~/(b@:c") == Some([Part('/', "a~"), Part('/', "(b@"), Part(':', "c")])
  {
    var ps := [Part('/', "a~"), Part('/', "(b@"), Part(':', "c")];
    hide GoodPart, PrintRoute, ParseRoute;
    PartsGood();
    PartsPrinted();
    RouteIffPrinted("/a~/(b@:c", ps);
  }

  lemma {:induction false} PartsGood()
    ensures GoodPart(Part('/', "a~")) && GoodPart(Part('/', "(b@")) && GoodPart(Part(':', "c"))
  {
  }

  lemma {:induction false} PartsPrinted()
    ensures PrintRoute([Part('/', "a~"), Part('/', "(b@"), Part(':', "c")]) == "/a~/(b@:c"
  {
    var ps, none: seq<Part> := [Part('/', "a~"), Part('/', "(b@"), Part(':', "c")], [];
    var more, last := [Part('/', "(b@"), Part(':', "c")], [Part(':', "c")];
    assert ps[1..] == more && more[1..] == last && last[1..] == none;
    assert PrintRoute(last) == ":" + ("c" + "");
    assert PrintRoute(more) == "/" + ("(b@" + PrintRoute(last));
    assert PrintRoute(ps) == "/" + ("a~" + PrintRoute(more));
    hide PrintRoute;
    assert "/" + ("(b@" + (":" + ("c" + ""))) == "/(b@:c";
    assert "/" + ("a~" + "/(b@:c") == "/a~/(b@:c";
  }
}
