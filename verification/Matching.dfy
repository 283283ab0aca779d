/** The backtracking search over a trie, and the declarative matcher it refines. */
module Matching {
  import opened Options
  import opened Tokens
  import opened Grammar
  import opened Route
  import opened Tries

  /* ---- The capture length of a variable ---- */

  datatype Taken = Take(n: nat) | Miss | Crash

  predicate IsColon(k: Kind) {
    k == Verb
  }

  predicate IsSeparator(k: Kind) {
    k == Slash || k == Verb
  }

  /** Index of the first token whose kind is in the mask, or the length when there is none. */
  function FirstOf(toks: seq<Token>, mask: Kind -> bool): (n: nat)
    ensures n <= |toks|
    ensures forall i :: 0 <= i < n ==> !mask(toks[i].kind)
    ensures n < |toks| ==> mask(toks[n].kind)
  {
    if toks == [] || mask(toks[0].kind) then 0 else 1 + FirstOf(toks[1..], mask)
  }

  /** `variable.index` from the pattern tokens `pat` on, with `i` tokens taken so far.
      The search for a separator starts at the front of `toks`, not at `i`, as in the
      source; `Crash` stands for a run-time panic. */
  function IndexFrom(pat: seq<Token>, toks: seq<Token>, i: nat): Taken {
    if pat == [] then Take(i)
    else if i == |toks| then Miss
    else
      match pat[0].kind
      case Slash =>
        if i > |toks| then Crash
        else if toks[i].kind != Slash then Miss
        else IndexFrom(pat[1..], toks, i + 1)
      case Star =>
        var j := FirstOf(toks, IsSeparator);
        IndexFrom(pat[1..], toks, if j < |toks| then i + j else |toks|)
      case StarStar =>
        var j := FirstOf(toks, IsColon);
        IndexFrom(pat[1..], toks, if j < |toks| then i + j else |toks|)
      case Literal =>
        if i > |toks| then Crash
        else if toks[i].kind != Path || pat[0].val != toks[i].val then Miss
        else IndexFrom(pat[1..], toks, i + 1)
      case _ => Crash
  }

  /* ---- Search ---- */

  type Value(==,!new)

  /** Decoding of a captured text into the value of a field; None is a decoding error. */
  type Parser = (FieldPath, string) -> Option<Value>

  datatype Param = Param(fds: FieldPath, val: Option<Value>)

  datatype SearchError = ErrNotFound | ErrMethod | ErrParam

  datatype Result =
    | Found(m: Method, ps: seq<Param>)
    | Missing(err: SearchError)
    | Crashed

  /** `path.search` at address `a`. */
  function Search(t: Trie, a: Addr, toks: seq<Token>, verb: string, parse: Parser): (r: Result)
    requires Wf(t) && a in t
    ensures r.Found? ==> |r.m.vars| == |r.ps| + VarCount(a)
    decreases |toks|, 1, 0
  {
    if |toks| <= 1 then
      match MethodAt(t[a], verb)
      case Some(m) => Found(m, [])
      case None => Missing(ErrMethod)
    else
      var child := At(a, Lit(toks[0].val + toks[1].val));
      var first := if child in t then Search(t, child, toks[2..], verb, parse) else Missing(ErrNotFound);
      if first.Missing? then SearchVars(t, a, toks, verb, parse, 0) else first
  }

  /** The loop of `search` over the variables of `a`, from the i-th on. */
  function SearchVars(t: Trie, a: Addr, toks: seq<Token>, verb: string, parse: Parser, i: nat): (r: Result)
    requires Wf(t) && a in t && i <= |t[a].vars| && |toks| > 1
    ensures r.Found? ==> |r.m.vars| == |r.ps| + VarCount(a)
    decreases |toks|, 0, |t[a].vars| - i
  {
    if i == |t[a].vars| then Missing(ErrNotFound)
    else
      match IndexFrom(t[a].vars[i].toks, toks[1..], 0)
      case Crash => Crashed
      case Miss => SearchVars(t, a, toks, verb, parse, i + 1)
      case Take(n) =>
        if n + 1 > |toks| then Crashed
        else
          assert HasVar(t[a].vars, t[a].vars[i].name);
          match Search(t, At(a, Var(t[a].vars[i].name)), toks[n + 1..], verb, parse)
          case Crashed => Crashed
          case Missing(_) => SearchVars(t, a, toks, verb, parse, i + 1)
          case Found(m, ps) => Capture(m, ps, toks[1..n + 1], parse)
  }

  /** Appending the parameter of the edge that is being unwound. */
  function Capture(m: Method, ps: seq<Param>, taken: seq<Token>, parse: Parser): Result
    requires |ps| < |m.vars|
  {
    var fds := m.vars[|m.vars| - |ps| - 1];
    if fds == [] then Found(m, ps + [Param([], None)])
    else
      match parse(fds, Render(taken))
      case None => Missing(ErrParam)
      case Some(v) => Found(m, ps + [Param(fds, Some(v))])
  }

  /* ---- The declarative matcher ---- */

  /** Parts up to the first one that a colon introduces. */
  function SlashRun(ps: seq<Part>): (n: nat)
    ensures n <= |ps|
    ensures forall i :: 0 <= i < n ==> ps[i].sep == '/'
    ensures n < |ps| ==> ps[n].sep != '/'
  {
    if ps == [] || ps[0].sep != '/' then 0 else 1 + SlashRun(ps[1..])
  }

  predicate Plain(pat: seq<Segment>) {
    pat != [] && forall i :: 0 <= i < |pat| ==> PlainSegment(pat[i])
  }

  predicate PlainSegment(s: Segment) {
    s.Wild? || s.DeepWild? || (s.Word? && GoodWord(s.text))
  }

  /** How many parts a pattern matches at the front of `ps`: one for each literal and `*`,
      and for a final `**` all parts before the next colon. The separator of the first
      part is not looked at; the others are slashes. */
  function Extent(pat: seq<Segment>, ps: seq<Part>): (c: Option<nat>)
    requires Plain(pat)
    ensures c.Some? ==> 1 <= c.value <= |ps|
  {
    if ps == [] then None
    else if pat[0].DeepWild? then
      if |pat| == 1 then Some(1 + SlashRun(ps[1..])) else None
    else if pat[0].Word? && pat[0].text != ps[0].text then None
    else if |pat| == 1 then Some(1)
    else if |ps| == 1 || ps[1].sep != '/' then None
    else
      match Extent(pat[1..], ps[1..])
      case None => None
      case Some(c) => Some(c + 1)
  }

  /** The pattern ends in `**`. */
  predicate Deep(pat: seq<Segment>) {
    pat != [] && pat[|pat| - 1].DeepWild?
  }

  /** Where the source's index gets to when the pattern stands at part `p`, in parts. A `**`
      counts from the front of the route, not from where it stands, so what is before it
      counts twice when a colon follows; and what comes after it is compared there. */
  function Reach(pat: seq<Segment>, ps: seq<Part>, p: nat): (c: Taken)
    requires Plain(pat) && p < |ps|
    ensures c.Take? ==> c.n > p
    decreases |pat|
  {
    if pat[0].DeepWild? then
      var run := 1 + SlashRun(ps[1..]);
      var c := if run == |ps| then run else p + run;
      if |pat| == 1 then Take(c)
      else if c > |ps| then Crash
      else if c == |ps| || ps[c].sep != '/' then Miss
      else Reach(pat[1..], ps, c)
    else if pat[0].Word? && pat[0].text != ps[p].text then Miss
    else if |pat| == 1 then Take(p + 1)
    else if p + 1 == |ps| || ps[p + 1].sep != '/' then Miss
    else Reach(pat[1..], ps, p + 1)
  }

  predicate IsPattern(name: string) {
    ParseList(name).Parsed? && ParseList(name).rest == "" && Plain(ParseList(name).value)
  }

  function PatternOf(name: string): seq<Segment>
    requires IsPattern(name)
  {
    ParseList(name).value
  }

  /** How many parts an edge takes from the front of `ps`. */
  function Consumed(e: Edge, ps: seq<Part>): (c: Option<nat>)
    ensures c.Some? ==> 1 <= c.value <= |ps|
  {
    match e
    case Lit(k) => if ps != [] && k == [ps[0].sep] + ps[0].text then Some(1) else None
    case Var(n) => if IsPattern(n) then Extent(PatternOf(n), ps) else None
  }

  /** `edges` lead from `a` to a node that answers `verb` with `m`, and take exactly `ps`. */
  ghost predicate Accepts(t: Trie, a: Addr, ps: seq<Part>, verb: string, edges: seq<Edge>, m: Method)
    decreases |edges|
  {
    && a in t
    && if edges == [] then ps == [] && MethodAt(t[a], verb) == Some(m)
       else
         var c := Consumed(edges[0], ps);
         c.Some? && Accepts(t, At(a, edges[0]), ps[c.value..], verb, edges[1..], m)
  }

  /** Literal edges come first, variables in the order of their names. */
  predicate EdgeLess(e: Edge, f: Edge) {
    (e.Lit? && f.Var?) || (e.Var? && f.Var? && Less(e.name, f.name))
  }

  predicate Precedes(es: seq<Edge>, fs: seq<Edge>) {
    es == fs ||
    (es != [] && fs != [] &&
     (EdgeLess(es[0], fs[0]) || (es[0] == fs[0] && Precedes(es[1..], fs[1..]))))
  }

  /** At the first difference, `es` has a literal and `fs` a variable, or both have a variable and
      that of `es` has the lesser name. */
  predicate EarlierAt(es: seq<Edge>, fs: seq<Edge>, i: nat) {
    && i < |es| && i < |fs| && es[..i] == fs[..i] && fs[i].Var?
    && (es[i].Lit? || Less(es[i].name, fs[i].name))
  }

  /** Literals precede variables, and variables come in the order of their names. */
  lemma {:induction false} PrecedesIff(es: seq<Edge>, fs: seq<Edge>)
    ensures Precedes(es, fs) <==> es == fs || exists i: nat :: EarlierAt(es, fs, i)
    decreases |es|
  {
    hide Less;
    if es != [] && fs != [] {
      assert es == [es[0]] + es[1..] && fs == [fs[0]] + fs[1..];
      PrecedesIff(es[1..], fs[1..]);
      if EdgeLess(es[0], fs[0]) {
        assert EarlierAt(es, fs, 0);
      }
      if es[0] == fs[0] && exists i: nat :: EarlierAt(es[1..], fs[1..], i) {
        var i: nat :| EarlierAt(es[1..], fs[1..], i);
        assert es[..i + 1] == [es[0]] + es[1..][..i] && fs[..i + 1] == [fs[0]] + fs[1..][..i];
        assert EarlierAt(es, fs, i + 1);
      }
      if exists i: nat :: EarlierAt(es, fs, i) {
        var i: nat :| EarlierAt(es, fs, i);
        if i > 0 {
          assert es[..i][0] == fs[..i][0];
          assert es[1..][..i - 1] == es[..i][1..] && fs[1..][..i - 1] == fs[..i][1..];
          assert EarlierAt(es[1..], fs[1..], i - 1);
        }
      }
    }
  }


  /** The order on derivations has at most one least element. */
  lemma {:induction false} PrecedesAntisymmetric(es: seq<Edge>, fs: seq<Edge>)
    requires Precedes(es, fs) && Precedes(fs, es)
    ensures es == fs
  {
    if es != [] && fs != [] {
      if es[0].Var? && fs[0].Var? {
        LessTotal(es[0].name, fs[0].name);
      }
      if es[0] == fs[0] {
        PrecedesAntisymmetric(es[1..], fs[1..]);
        assert es == [es[0]] + es[1..] && fs == [fs[0]] + fs[1..];
      }
    }
  }

  /** The text of parts without the leading separator. */
  function Text(ps: seq<Part>): string
    requires ps != []
  {
    ps[0].text + PrintRoute(ps[1..])
  }

  /** The texts that the variable edges take, from the root down. */
  function Captures(edges: seq<Edge>, ps: seq<Part>): seq<string> {
    if edges == [] || Consumed(edges[0], ps).None? then []
    else
      var c := Consumed(edges[0], ps).value;
      var rest := Captures(edges[1..], ps[c..]);
      if edges[0].Lit? then rest else [Text(ps[..c])] + rest
  }

  function ParamOf(fds: FieldPath, text: string, parse: Parser): Param {
    if fds == [] then Param([], None) else Param(fds, parse(fds, text))
  }

  /** The parameters of the captures, the deepest first. */
  function ParamsOf(vars: seq<FieldPath>, texts: seq<string>, parse: Parser): seq<Param>
    requires |vars| == |texts|
  {
    if vars == [] then [] else ParamsOf(vars[1..], texts[1..], parse) + [ParamOf(vars[0], texts[0], parse)]
  }

  /* ---- When the source's index agrees with the declarative extent ---- */

  /** `**` occurs at most as the first segment. */
  predicate Shallow(pat: seq<Segment>) {
    forall i :: 1 <= i < |pat| ==> !pat[i].DeepWild?
  }

  predicate NoColon(ps: seq<Part>) {
    forall i :: 1 <= i < |ps| ==> ps[i].sep == '/'
  }

  predicate PlainToken(t: Token) {
    t == Token(Star, "*") || t == Token(StarStar, "**") || (t.kind == Literal && GoodWord(t.val))
  }

  /** The tokens of a plain pattern. */
  predicate PlainTokens(toks: seq<Token>) {
    && toks != []
    && PlainToken(toks[0])
    && (|toks| > 1 ==> |toks| > 2 && toks[1] == SLASH && PlainTokens(toks[2..]))
  }

  /** `**` occurs at most as the first token. */
  predicate ShallowTokens(toks: seq<Token>) {
    forall i :: 1 <= i < |toks| ==> toks[i].kind != StarStar
  }

  /** All variables come from plain patterns. */
  ghost predicate PlainTrie(t: Trie) {
    forall x, i :: x in t && 0 <= i < |t[x].vars| ==> PlainTokens(t[x].vars[i].toks)
  }

  /** On this route the source's index cannot overshoot. */
  ghost predicate Tame(t: Trie, ps: seq<Part>) {
    NoColon(ps) || forall x, i :: x in t && 0 <= i < |t[x].vars| ==> ShallowTokens(t[x].vars[i].toks)
  }

  function SegmentOf(t: Token): Segment
    requires PlainToken(t)
  {
    match t.kind
    case Star => Wild
    case StarStar => DeepWild
    case _ => Word(t.val)
  }

  /** The pattern of plain tokens. */
  function Unlex(toks: seq<Token>): (pat: seq<Segment>)
    requires PlainTokens(toks)
    ensures pat != []
  {
    if |toks| == 1 then [SegmentOf(toks[0])] else [SegmentOf(toks[0])] + Unlex(toks[2..])
  }

  lemma {:induction false} UnlexLexes(toks: seq<Token>)
    requires PlainTokens(toks)
    ensures Plain(Unlex(toks)) && GoodList(Unlex(toks)) && ListTokens(Unlex(toks), []) == toks
    ensures ShallowTokens(toks) <==> Shallow(Unlex(toks))
  {
    var pat := Unlex(toks);
    if |toks| == 1 {
      assert toks == [toks[0]];
    } else {
      var rest := Unlex(toks[2..]);
      UnlexLexes(toks[2..]);
      assert pat[1..] == rest;
      assert toks == [toks[0]] + ([SLASH] + toks[2..]);
      UnlexShallow(toks, rest);
    }
  }

  lemma {:induction false} UnlexShallow(toks: seq<Token>, rest: seq<Segment>)
    requires PlainTokens(toks) && |toks| > 2 && rest == Unlex(toks[2..])
    requires ShallowTokens(toks[2..]) <==> Shallow(rest)
    ensures ShallowTokens(toks) <==> Shallow([SegmentOf(toks[0])] + rest)
  {
    var pat := [SegmentOf(toks[0])] + rest;
    assert rest[0] == SegmentOf(toks[2]);
    assert toks[1].kind != StarStar;
    if ShallowTokens(toks) {
      forall i | 1 <= i < |toks[2..]| ensures toks[2..][i].kind != StarStar {
        assert toks[2..][i] == toks[i + 2];
      }
      forall i | 1 <= i < |pat| ensures !pat[i].DeepWild? {
        assert pat[i] == rest[i - 1];
      }
    }
    if Shallow(pat) {
      forall i | 1 <= i < |rest| ensures !rest[i].DeepWild? {
        assert rest[i] == pat[i + 1];
      }
      assert rest[0] == pat[1];
      forall i | 1 <= i < |toks| ensures toks[i].kind != StarStar {
        if i > 2 {
          assert toks[i] == toks[2..][i - 2];
        }
      }
    }
  }

  /** The name of a variable determines its tokens. */
  lemma {:induction false} PlainMeans(v: Variable)
    requires v.name == Render(v.toks) && PlainTokens(v.toks)
    ensures IsPattern(v.name) && PatternOf(v.name) == Unlex(v.toks)
    ensures ListTokens(PatternOf(v.name), []) == v.toks
    ensures ShallowTokens(v.toks) <==> Shallow(PatternOf(v.name))
  {
    var pat := Unlex(v.toks);
    UnlexLexes(v.toks);
    ListText(pat, []);
    ListComplete(pat, "");
  }

  /** The tokens of a plain pattern are plain. */
  lemma {:induction false} PatternIsPlain(pat: seq<Segment>)
    requires Plain(pat) && GoodList(pat)
    ensures PlainTokens(ListTokens(pat, [])) && Unlex(ListTokens(pat, [])) == pat
  {
    PatternTokens(pat);
    var toks := ListTokens(pat, []);
    if |pat| > 1 {
      PatternIsPlain(pat[1..]);
      var rest := ListTokens(pat[1..], []);
      assert toks[1] == SLASH && toks[2..] == rest;
      assert pat == [pat[0]] + pat[1..];
    } else {
      assert pat == [pat[0]];
    }
  }

  lemma {:induction false} RouteAt(ps: seq<Part>, q: nat)
    requires q <= |ps| && GoodRoute(ps)
    ensures RouteTokens(ps)[2 * q..] == RouteTokens(ps[q..])
    ensures RouteTokens(ps)[2 * q] == if q == |ps| then END else if ps[q].sep == '/' then SLASH else COLON
    ensures q < |ps| ==> RouteTokens(ps)[2 * q + 1] == Token(Path, ps[q].text)
  {
    if q > 0 {
      RouteAt(ps[1..], q - 1);
      assert RouteTokens(ps)[2 * q..] == RouteTokens(ps[1..])[2 * (q - 1)..];
      assert ps[1..][q - 1..] == ps[q..];
    } else {
      assert ps[0..] == ps;
    }
  }

  /** The route without its first separator, as `index` gets it. */
  function Tail(ps: seq<Part>): (toks: seq<Token>)
    requires ps != []
    ensures |toks| == 2 * |ps|
  {
    RouteTokens(ps)[1..]
  }

  lemma {:induction false} TailAt(ps: seq<Part>, q: nat)
    requires ps != [] && GoodRoute(ps) && q < |ps|
    ensures Tail(ps)[2 * q] == Token(Path, ps[q].text)
    ensures Tail(ps)[2 * q + 1].kind ==
      if q + 1 == |ps| then EOF else if ps[q + 1].sep == '/' then Slash else Verb
  {
    RouteAt(ps, q);
    RouteAt(ps, q + 1);
  }

  lemma {:induction false} TailFirstSep(ps: seq<Part>)
    requires ps != [] && GoodRoute(ps)
    ensures FirstOf(Tail(ps), IsSeparator) == if |ps| == 1 then 2 else 1
  {
    TailAt(ps, 0);
  }

  lemma {:induction false} FirstColon(ps: seq<Part>)
    requires GoodRoute(ps)
    ensures FirstOf(RouteTokens(ps), IsColon) == if SlashRun(ps) == |ps| then 2 * |ps| + 1 else 2 * SlashRun(ps)
  {
    if ps != [] {
      FirstColon(ps[1..]);
      assert GoodPart(ps[0]);
      FirstAfter(ps[0], RouteTokens(ps[1..]));
    }
  }

  lemma {:induction false} FirstAfter(p: Part, k: seq<Token>)
    requires GoodPart(p)
    ensures FirstOf(PartTokens(p) + k, IsColon) == if p.sep == '/' then 2 + FirstOf(k, IsColon) else 0
  {
    var toks := PartTokens(p) + k;
    assert toks[1..] == [Token(Path, p.text)] + k && toks[1..][1..] == k;
  }

  lemma {:induction false} TailFirstColon(ps: seq<Part>)
    requires ps != [] && GoodRoute(ps)
    ensures var q := 1 + SlashRun(ps[1..]);
      FirstOf(Tail(ps), IsColon) == if q == |ps| then 2 * |ps| else 2 * q - 1
  {
    FirstColon(ps[1..]);
    assert Tail(ps)[1..] == RouteTokens(ps[1..]);
  }

  /** `n` tokens of `Tail(ps)` are what the first `c` parts take. */
  predicate Takes(n: nat, c: nat, ps: seq<Part>) {
    n == 2 * c - 1 || (c == |ps| && n == 2 * c)
  }

  /** The same capture length, in tokens and in parts. */
  predicate SameReach(r: Taken, c: Taken, ps: seq<Part>) {
    match c
    case Take(k) => r.Take? && Takes(r.n, k, ps)
    case _ => r == c
  }

  function PatternToken(s: Segment): Token
    requires PlainSegment(s)
  {
    match s
    case Wild => Token(Star, "*")
    case DeepWild => Token(StarStar, "**")
    case Word(t) => Token(Literal, t)
  }

  lemma {:induction false} PatternTokens(pat: seq<Segment>)
    requires Plain(pat) && GoodList(pat)
    ensures ListTokens(pat, []) ==
      if |pat| == 1 then [PatternToken(pat[0])]
      else [PatternToken(pat[0])] + ([SLASH] + ListTokens(pat[1..], []))
  {
  }

  /** The position after the first segment of a pattern that is not `**`. */
  function AfterFirst(s: Segment, ps: seq<Part>, p: nat): nat {
    if s.Wild? && |ps| == 1 then 2 * p + 2 else 2 * p + 1
  }

  lemma {:induction false} FirstAt(s: Segment, k: seq<Token>, ps: seq<Part>, p: nat)
    requires PlainSegment(s) && GoodRoute(ps) && p < |ps| && !s.DeepWild?
    ensures IndexFrom([PatternToken(s)] + k, Tail(ps), 2 * p) ==
      if s.Word? && s.text != ps[p].text then Miss else IndexFrom(k, Tail(ps), AfterFirst(s, ps, p))
  {
    hide Tail, GoodRoute, FirstOf;
    TailAt(ps, p);
    TailFirstSep(ps);
    assert ([PatternToken(s)] + k)[1..] == k;
  }

  lemma {:induction false} SlashAt(s: Segment, k: seq<Token>, ps: seq<Part>, p: nat)
    requires GoodRoute(ps) && p < |ps|
    ensures IndexFrom([SLASH] + k, Tail(ps), AfterFirst(s, ps, p)) ==
      if p + 1 == |ps| || ps[p + 1].sep != '/' then Miss else IndexFrom(k, Tail(ps), 2 * (p + 1))
  {
    TailAt(ps, p);
    assert ([SLASH] + k)[1..] == k;
  }

  lemma {:induction false} StepAt(pat: seq<Segment>, ps: seq<Part>, p: nat)
    requires Plain(pat) && GoodList(pat) && GoodRoute(ps) && p < |ps| && !pat[0].DeepWild?
    ensures var r := IndexFrom(ListTokens(pat, []), Tail(ps), 2 * p);
      if pat[0].Word? && pat[0].text != ps[p].text then r == Miss
      else if |pat| == 1 then r == Take(AfterFirst(pat[0], ps, p))
      else if p + 1 == |ps| || ps[p + 1].sep != '/' then r == Miss
      else r == IndexFrom(ListTokens(pat[1..], []), Tail(ps), 2 * (p + 1))
  {
    PatternTokens(pat);
    if |pat| > 1 {
      var k := ListTokens(pat[1..], []);
      FirstAt(pat[0], [SLASH] + k, ps, p);
      SlashAt(pat[0], k, ps, p);
    } else {
      FirstAt(pat[0], [], ps, p);
      assert [PatternToken(pat[0])] + [] == [PatternToken(pat[0])];
    }
  }

  /** Where the source puts the end of a `**` at position `2 * p`. */
  lemma {:induction false} DeepAt(k: seq<Token>, ps: seq<Part>, p: nat)
    requires GoodRoute(ps) && p < |ps|
    ensures var q := 1 + SlashRun(ps[1..]);
      IndexFrom([Token(StarStar, "**")] + k, Tail(ps), 2 * p) ==
        IndexFrom(k, Tail(ps), if q == |ps| then 2 * |ps| else 2 * p + (2 * q - 1))
  {
    hide IndexFrom, Tail, FirstOf, SlashRun;
    TailFirstColon(ps);
    DeepStep(k, Tail(ps), 2 * p);
  }

  lemma {:induction false} DeepStep(k: seq<Token>, toks: seq<Token>, i: nat)
    requires i < |toks|
    ensures var j := FirstOf(toks, IsColon);
      IndexFrom([Token(StarStar, "**")] + k, toks, i) == IndexFrom(k, toks, if j < |toks| then i + j else |toks|)
  {
    assert ([Token(StarStar, "**")] + k)[1..] == k;
  }

  /** After a `**`: a slash has to come next. */
  lemma {:induction false} SlashAfter(k: seq<Token>, ps: seq<Part>, c: nat, n: nat)
    requires GoodRoute(ps) && ps != [] && c > 0 && Takes(n, c, ps)
    ensures IndexFrom([SLASH] + k, Tail(ps), n) ==
      if c > |ps| then Crash
      else if c == |ps| || ps[c].sep != '/' then Miss
      else IndexFrom(k, Tail(ps), 2 * c)
  {
    if c <= |ps| {
      TailAt(ps, c - 1);
    }
    assert ([SLASH] + k)[1..] == k;
  }

  /** The source's index, on every pattern and every route, in terms of parts. */
  lemma {:induction false} IndexReach(pat: seq<Segment>, ps: seq<Part>, p: nat)
    requires Plain(pat) && GoodList(pat) && GoodRoute(ps) && p < |ps|
    ensures SameReach(IndexFrom(ListTokens(pat, []), Tail(ps), 2 * p), Reach(pat, ps, p), ps)
    decreases |pat|
  {
    hide Tail, GoodRoute, IndexFrom, ListTokens;
    if pat[0].DeepWild? {
      var run := 1 + SlashRun(ps[1..]);
      var c, n := if run == |ps| then run else p + run, if run == |ps| then 2 * |ps| else 2 * p + (2 * run - 1);
      PatternTokens(pat);
      if |pat| == 1 {
        DeepAt([], ps, p);
        IndexEnd(Tail(ps), n);
        assert [PatternToken(pat[0])] + [] == [PatternToken(pat[0])];
      } else {
        var k := ListTokens(pat[1..], []);
        DeepAt([SLASH] + k, ps, p);
        SlashAfter(k, ps, c, n);
        if c < |ps| && ps[c].sep == '/' {
          IndexReach(pat[1..], ps, c);
        }
      }
    } else {
      StepAt(pat, ps, p);
      if |pat| > 1 && p + 1 < |ps| && ps[p + 1].sep == '/' {
        IndexReach(pat[1..], ps, p + 1);
      }
    }
  }

  lemma {:induction false} IndexEnd(toks: seq<Token>, n: nat)
    ensures IndexFrom([], toks, n) == Take(n)
  {
  }

  /* ---- Where the index is right ---- */

  lemma {:induction false} AllSlashes(ps: seq<Part>)
    ensures SlashRun(ps) == |ps| <==> forall i :: 0 <= i < |ps| ==> ps[i].sep == '/'
  {
    if ps != [] && ps[0].sep == '/' {
      AllSlashes(ps[1..]);
      assert forall i :: 0 < i < |ps| ==> ps[i] == ps[1..][i - 1];
      assert forall i :: 0 <= i < |ps[1..]| ==> ps[1..][i] == ps[i + 1];
    }
  }

  lemma {:induction false} ColonRun(ps: seq<Part>)
    requires ps != []
    ensures 1 + SlashRun(ps[1..]) == |ps| <==> NoColon(ps)
  {
    AllSlashes(ps[1..]);
    assert forall i :: 1 <= i < |ps| ==> ps[i] == ps[1..][i - 1];
    assert forall i :: 0 <= i < |ps[1..]| ==> ps[1..][i] == ps[i + 1];
  }

  /** The run of slashes from the front, when it is known to reach `p`. */
  lemma {:induction false} RunFrom(ps: seq<Part>, p: nat)
    requires p < |ps| && forall i :: 1 <= i <= p ==> ps[i].sep == '/'
    ensures SlashRun(ps[1..]) == p + SlashRun(ps[p + 1..])
    decreases p
  {
    if p > 0 {
      var rest := ps[1..];
      assert rest[0] == ps[1] && rest[1..] == ps[2..];
      forall i | 1 <= i <= p - 1 ensures rest[i].sep == '/' {
        assert rest[i] == ps[i + 1];
      }
      RunFrom(rest, p - 1);
      assert rest[p..] == ps[p + 1..];
    }
  }

  predicate Agrees(r: Taken, c: Option<nat>) {
    if c.None? then r == Miss else r == Take(c.value)
  }

  /** A segment that is not `**`, for the index and for the declarative extent. */
  lemma {:induction false} ReachStep(pat: seq<Segment>, ps: seq<Part>, p: nat)
    requires Plain(pat) && p < |ps| && !pat[0].DeepWild?
    ensures var r, c := Reach(pat, ps, p), Extent(pat, ps[p..]);
      if pat[0].Word? && pat[0].text != ps[p].text then r == Miss && c == None
      else if |pat| == 1 then r == Take(p + 1) && c == Some(1)
      else if p + 1 == |ps| || ps[p + 1].sep != '/' then r == Miss && c == None
      else
        && Plain(pat[1..]) && r == Reach(pat[1..], ps, p + 1)
        && var d := Extent(pat[1..], ps[p + 1..]);
        c == if d.None? then None else Some(d.value + 1)
  {
    assert ps[p..][0] == ps[p] && (p + 1 < |ps| ==> ps[p..][1] == ps[p + 1]);
    assert p + 1 < |ps| ==> ps[p..][1..] == ps[p + 1..];
  }

  lemma {:induction false} ReachDeep(pat: seq<Segment>, ps: seq<Part>, p: nat)
    requires Plain(pat) && |pat| == 1 && p < |ps| && pat[0].DeepWild?
    requires forall i :: 1 <= i <= p ==> ps[i].sep == '/'
    ensures var r, c := Reach(pat, ps, p), Extent(pat, ps[p..]);
      c.Some? && r == Take(if NoColon(ps) then p + c.value else 2 * p + c.value)
  {
    ColonRun(ps);
    RunFrom(ps, p);
    assert ps[p..][1..] == ps[p + 1..];
  }

  /** A `**` before the end, on a route without a colon. */
  lemma {:induction false} ReachInner(pat: seq<Segment>, ps: seq<Part>, p: nat)
    requires Plain(pat) && |pat| > 1 && p < |ps| && pat[0].DeepWild? && NoColon(ps)
    ensures Reach(pat, ps, p) == Miss && Extent(pat, ps[p..]) == None
  {
    ColonRun(ps);
  }

  /** On a route without a colon the index is the declarative extent, for every pattern. */
  lemma {:induction false} ReachNoColon(pat: seq<Segment>, ps: seq<Part>, p: nat)
    requires Plain(pat) && p < |ps| && NoColon(ps)
    ensures var c := Extent(pat, ps[p..]);
      Reach(pat, ps, p) == if c.None? then Miss else Take(p + c.value)
    decreases |pat|
  {
    hide Reach, Extent;
    if !pat[0].DeepWild? {
      ReachStep(pat, ps, p);
      if |pat| > 1 && p + 1 < |ps| && ps[p + 1].sep == '/' {
        ReachNoColon(pat[1..], ps, p + 1);
      }
    } else if |pat| == 1 {
      ReachDeep(pat, ps, p);
    } else {
      ReachInner(pat, ps, p);
    }
  }

  /** `**` occurs at most as the last segment. */
  predicate DeepLast(pat: seq<Segment>) {
    forall i :: 0 <= i < |pat| - 1 ==> !pat[i].DeepWild?
  }

  /** With a colon, a final `**` behind other segments counts these twice. */
  lemma {:induction false} ReachColon(pat: seq<Segment>, ps: seq<Part>, p: nat)
    requires Plain(pat) && p < |ps| && !NoColon(ps) && DeepLast(pat)
    requires forall i :: 1 <= i <= p ==> ps[i].sep == '/'
    ensures var c := Extent(pat, ps[p..]);
      Reach(pat, ps, p) ==
        if c.None? then Miss
        else if Deep(pat) then Take(2 * p + (|pat| - 1) + c.value)
        else Take(p + c.value)
    decreases |pat|
  {
    hide Reach, Extent, NoColon;
    if pat[0].DeepWild? {
      ReachDeep(pat, ps, p);
    } else {
      ReachStep(pat, ps, p);
      if |pat| > 1 && p + 1 < |ps| && ps[p + 1].sep == '/' {
        assert forall i :: 0 <= i < |pat[1..]| ==> pat[1..][i] == pat[i + 1];
        ReachColon(pat[1..], ps, p + 1);
      }
    }
  }

  /** The exact index of every pattern whose only `**` is at its end, on every route: it misses
      exactly when the pattern does not match; otherwise it takes as many parts as the pattern
      matches, and those before the `**` once more if the route has a colon. */
  lemma {:induction false} IndexExact(pat: seq<Segment>, ps: seq<Part>)
    requires Plain(pat) && GoodList(pat) && GoodRoute(ps) && ps != [] && DeepLast(pat)
    ensures var r, c := IndexFrom(ListTokens(pat, []), Tail(ps), 0), Extent(pat, ps);
      && (r.Miss? <==> c.None?)
      && (c.Some? && (NoColon(ps) || !Deep(pat)) ==> r.Take? && Takes(r.n, c.value, ps))
      && (c.Some? && !NoColon(ps) && Deep(pat) ==> r.Take? && Takes(r.n, |pat| - 1 + c.value, ps))
  {
    IndexReach(pat, ps, 0);
    assert ps[0..] == ps;
    if NoColon(ps) {
      ReachNoColon(pat, ps, 0);
    } else {
      ReachColon(pat, ps, 0);
    }
  }

  /** It is right if and only if the route has no colon, or the pattern has no `**` behind other
      segments, or it does not match. */
  lemma {:induction false} AgreesIff(pat: seq<Segment>, ps: seq<Part>)
    requires Plain(pat) && ps != [] && DeepLast(pat)
    ensures Agrees(Reach(pat, ps, 0), Extent(pat, ps)) <==>
      NoColon(ps) || Shallow(pat) || Extent(pat, ps).None?
  {
    assert ps[0..] == ps;
    if NoColon(ps) {
      ReachNoColon(pat, ps, 0);
    } else {
      ReachColon(pat, ps, 0);
      assert Shallow(pat) || (Deep(pat) && |pat| > 1);
    }
  }

  /* ---- A `**` before the end of a pattern ---- */

  /** The first `k` segments match the parts from `p` on, and a slash comes after each of them. */
  predicate Fronts(pat: seq<Segment>, ps: seq<Part>, p: nat, k: nat)
    requires k <= |pat|
  {
    forall i :: 0 <= i < k ==> FrontAt(pat[i], ps, p + i)
  }

  predicate FrontAt(x: Segment, ps: seq<Part>, q: nat) {
    q + 1 < |ps| && ps[q + 1].sep == '/' && (x.Word? ==> x.text == ps[q].text)
  }

  predicate NoDeep(pat: seq<Segment>, k: nat)
    requires k <= |pat|
  {
    forall i :: 0 <= i < k ==> !pat[i].DeepWild?
  }

  /** The segments before the first `**`. */
  lemma {:induction false} ReachFronts(pat: seq<Segment>, ps: seq<Part>, p: nat, k: nat)
    requires Plain(pat) && p < |ps| && k < |pat| && NoDeep(pat, k)
    ensures !Fronts(pat, ps, p, k) ==> Reach(pat, ps, p) == Miss
    ensures Fronts(pat, ps, p, k) ==> p + k < |ps| && Reach(pat, ps, p) == Reach(pat[k..], ps, p + k)
    decreases k
  {
    if k == 0 {
      assert pat[0..] == pat;
    } else {
      ReachStep(pat, ps, p);
      if FrontAt(pat[0], ps, p) {
        assert forall i :: 0 <= i < k - 1 ==> pat[1..][i] == pat[i + 1];
        ReachFronts(pat[1..], ps, p + 1, k - 1);
        FrontsStep(pat, ps, p, k);
        assert pat[1..][k - 1..] == pat[k..];
      } else {
        assert pat[0] == pat[0 + 0] && !FrontAt(pat[0], ps, p + 0);
      }
    }
  }

  lemma {:induction false} FrontsStep(pat: seq<Segment>, ps: seq<Part>, p: nat, k: nat)
    requires 0 < k <= |pat| && FrontAt(pat[0], ps, p)
    ensures Fronts(pat, ps, p, k) <==> Fronts(pat[1..], ps, p + 1, k - 1)
  {
    hide FrontAt;
    if Fronts(pat, ps, p, k) {
      forall i | 0 <= i < k - 1 ensures FrontAt(pat[1..][i], ps, p + 1 + i) {
        assert pat[1..][i] == pat[i + 1] && FrontAt(pat[i + 1], ps, p + (i + 1));
      }
    }
    if Fronts(pat[1..], ps, p + 1, k - 1) {
      forall i | 0 <= i < k ensures FrontAt(pat[i], ps, p + i) {
        if i > 0 {
          assert pat[1..][i - 1] == pat[i] && FrontAt(pat[1..][i - 1], ps, p + 1 + (i - 1));
        }
      }
    }
  }

  /** Where the tail of a pattern is compared whose first `**` is its k-th segment and stands at
      part `p + k` of a route with a colon. */
  function TailAfter(ps: seq<Part>, p: nat, k: nat): nat
    requires ps != []
  {
    p + k + 1 + SlashRun(ps[1..])
  }

  /** The exact index of a pattern whose first `**` is its k-th segment and not the last: on a
      route with a colon the segments after it are compared as many parts behind the colon as
      there are parts before the `**`, or it panics beyond the end of the route. */
  lemma {:induction false} InnerExact(pat: seq<Segment>, ps: seq<Part>, p: nat, k: nat)
    requires Plain(pat) && p < |ps| && k < |pat| - 1 && NoDeep(pat, k) && pat[k].DeepWild?
    ensures var c := TailAfter(ps, p, k);
      Reach(pat, ps, p) ==
        if !Fronts(pat, ps, p, k) || NoColon(ps) then Miss
        else if c > |ps| then Crash
        else if c == |ps| || ps[c].sep != '/' then Miss
        else Reach(pat[k + 1..], ps, c)
  {
    ReachFronts(pat, ps, p, k);
    ColonRun(ps);
    assert pat[k..][1..] == pat[k + 1..];
  }

  /** The exact index of a pattern with a `**` at most at its end. */
  lemma {:induction false} LastExact(pat: seq<Segment>, ps: seq<Part>, p: nat)
    requires Plain(pat) && p < |ps| && DeepLast(pat)
    ensures var k := |pat| - 1;
      Reach(pat, ps, p) ==
        if !Fronts(pat, ps, p, k) then Miss
        else if Deep(pat) then Take(if NoColon(ps) then |ps| else TailAfter(ps, p, k))
        else if pat[k].Word? && (p + k >= |ps| || pat[k].text != ps[p + k].text) then Miss
        else Take(p + k + 1)
  {
    ReachFronts(pat, ps, p, |pat| - 1);
    ColonRun(ps);
  }

  /** A pattern with a `**` before its end matches nothing, so its index is right if and only if
      it misses. */
  lemma {:induction false} InnerAgreesIff(pat: seq<Segment>, ps: seq<Part>, k: nat)
    requires Plain(pat) && ps != [] && k < |pat| - 1 && NoDeep(pat, k) && pat[k].DeepWild?
    ensures Agrees(Reach(pat, ps, 0), Extent(pat, ps)) <==>
      var c := TailAfter(ps, 0, k);
      || !Fronts(pat, ps, 0, k) || NoColon(ps) || c == |ps|
      || (c < |ps| && (ps[c].sep == '/' ==> Reach(pat[k + 1..], ps, c).Miss?))
  {
    assert !DeepLast(pat);
    InnerDeep(pat, ps);
    InnerExact(pat, ps, 0, k);
  }

  /** A `**` in front and no other one. */
  lemma {:induction false} ReachFront(pat: seq<Segment>, ps: seq<Part>)
    requires Plain(pat) && ps != [] && Shallow(pat)
    ensures Agrees(Reach(pat, ps, 0), Extent(pat, ps))
  {
    if pat[0].DeepWild? && |pat| > 1 {
      var run := 1 + SlashRun(ps[1..]);
      assert run < |ps| ==> ps[run] == ps[1..][run - 1];
    } else {
      assert DeepLast(pat);
      AgreesIff(pat, ps);
    }
  }

  /** A `**` before the end of a pattern matches nothing, but with a colon the index of the
      source may take something: "aa/**/bb" on "/aa/x:y/bb". */
  lemma {:induction false} InnerDeep(pat: seq<Segment>, ps: seq<Part>)
    requires Plain(pat) && ps != [] && !DeepLast(pat)
    ensures Extent(pat, ps).None?
    decreases |pat|
  {
    if !pat[0].DeepWild? && |ps| > 1 {
      var i :| 0 <= i < |pat| - 1 && pat[i].DeepWild?;
      assert pat[i] == pat[1..][i - 1];
      InnerDeep(pat[1..], ps[1..]);
    }
  }

  lemma {:induction false} InnerDeepTakes()
    ensures var pat := [Word("aa"), DeepWild, Word("bb")];
      var ps := [Part('/', "aa"), Part('/', "x"), Part(':', "y"), Part('/', "bb")];
      Plain(pat) && Extent(pat, ps).None? && Reach(pat, ps, 0) == Take(4)
  {
    var pat := [Word("aa"), DeepWild, Word("bb")];
    var ps := [Part('/', "aa"), Part('/', "x"), Part(':', "y"), Part('/', "bb")];
    assert pat[1..] == [DeepWild, Word("bb")] && pat[1..][1..] == [Word("bb")];
    assert ps[1..] == [Part('/', "x"), Part(':', "y"), Part('/', "bb")];
    assert SlashRun(ps[1..]) == 1;
    assert Reach(pat[1..][1..], ps, 3) == Take(4);
    assert Reach(pat[1..], ps, 1) == Take(4);
    assert pat[1].DeepWild?;
    InnerDeep(pat, ps);
  }

  /* ---- What is left of a route ---- */

  /** `toks` is what is left of the route when `ps` is left: a variable at the end of the
      route may or may not take the EOF token. */
  predicate Ready(toks: seq<Token>, ps: seq<Part>) {
    toks == RouteTokens(ps) || (ps == [] && toks == [])
  }

  lemma {:induction false} RenderPrefix(ps: seq<Part>, c: nat)
    requires GoodRoute(ps) && c <= |ps|
    ensures Render(RouteTokens(ps)[..2 * c]) == PrintRoute(ps[..c])
  {
    if c > 0 {
      var k := RouteTokens(ps[1..])[..2 * (c - 1)];
      assert RouteTokens(ps)[..2 * c] == PartTokens(ps[0]) + k;
      RenderPrefix(ps[1..], c - 1);
      RenderConcat(PartTokens(ps[0]), k);
      PartText(ps[0]);
      assert ps[..c][1..] == ps[1..][..c - 1];
      assert [ps[0].sep] + ps[0].text + PrintRoute(ps[1..][..c - 1]) ==
             [ps[0].sep] + (ps[0].text + PrintRoute(ps[1..][..c - 1]));
    }
  }

  lemma {:induction false} SliceCons<T>(x: T, y: T, r: seq<T>, k: nat)
    requires k <= |r|
    ensures ([x, y] + r)[1..k + 2] == [y] + r[..k]
  {
  }

  lemma {:induction false} RenderCons(tok: Token, rest: seq<Token>)
    ensures Render([tok] + rest) == tok.val + Render(rest)
  {
    assert ([tok] + rest)[1..] == rest;
  }

  lemma {:induction false} TakenText(ps: seq<Part>, c: nat)
    requires GoodRoute(ps) && 1 <= c <= |ps|
    ensures Render(RouteTokens(ps)[1..2 * c]) == Text(ps[..c])
  {
    var rest, k := RouteTokens(ps[1..]), 2 * (c - 1);
    SliceCons(PartTokens(ps[0])[0], Token(Path, ps[0].text), rest, k);
    RenderCons(Token(Path, ps[0].text), rest[..k]);
    RenderPrefix(ps[1..], c - 1);
    assert ps[..c][1..] == ps[1..][..c - 1];
  }

  /** The EOF token adds nothing to the text. */
  lemma {:induction false} TakenAll(ps: seq<Part>)
    requires GoodRoute(ps) && ps != []
    ensures Render(RouteTokens(ps)[1..2 * |ps| + 1]) == Text(ps)
  {
    var rest := RouteTokens(ps[1..]);
    SliceCons(PartTokens(ps[0])[0], Token(Path, ps[0].text), rest, |rest|);
    assert rest[..|rest|] == rest;
    RouteText(ps[1..]);
    RenderCons(Token(Path, ps[0].text), rest);
  }

  lemma {:induction false} TakesRest(n: nat, c: nat, ps: seq<Part>)
    requires GoodRoute(ps) && 1 <= c <= |ps| && Takes(n, c, ps)
    ensures n + 1 <= 2 * |ps| + 1
    ensures Ready(RouteTokens(ps)[n + 1..], ps[c..])
  {
    if n == 2 * c - 1 {
      RouteAt(ps, c);
    }
  }

  lemma {:induction false} TakesMeans(n: nat, c: nat, ps: seq<Part>)
    requires GoodRoute(ps) && 1 <= c <= |ps| && Takes(n, c, ps)
    ensures n + 1 <= 2 * |ps| + 1
    ensures Ready(RouteTokens(ps)[n + 1..], ps[c..])
    ensures Render(RouteTokens(ps)[1..n + 1]) == Text(ps[..c])
  {
    TakesRest(n, c, ps);
    if n == 2 * c - 1 {
      TakenText(ps, c);
    } else {
      TakenAll(ps);
      assert ps[..c] == ps;
    }
  }

  /** What one variable takes from the route. */
  lemma {:induction false} VariableTakes(v: Variable, ps: seq<Part>)
    requires v.name == Render(v.toks) && PlainTokens(v.toks) && GoodRoute(ps) && ps != []
    ensures IsPattern(v.name)
    ensures SameReach(IndexFrom(v.toks, RouteTokens(ps)[1..], 0), Reach(PatternOf(v.name), ps, 0), ps)
  {
    PlainMeans(v);
    UnlexLexes(v.toks);
    IndexReach(PatternOf(v.name), ps, 0);
  }
}
