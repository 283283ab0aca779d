/** `variable.index`, `path.search` and `path.match` on the mutable tree. */
module PathSearch {
  import opened Options
  import opened Tokens
  import opened Route
  import opened Tries
  import opened Matching
  import opened Running
  import opened Lexers
  import opened PathTree
  import Routing

  /** The first token whose kind is in the mask, or -1. */
  method IndexAny(toks: seq<Token>, mask: Kind -> bool) returns (j: int)
    ensures j == -1 ==> FirstOf(toks, mask) == |toks|
    ensures j != -1 ==> j == FirstOf(toks, mask) < |toks|
  {
    j := 0;
    while j < |toks| && !mask(toks[j].kind)
      invariant 0 <= j <= |toks|
      invariant FirstOf(toks, mask) == j + FirstOf(toks[j..], mask)
    {
      j := j + 1;
    }
    if j == |toks| {
      j := -1;
    }
  }

  /** The capture length of a variable with the tokens `pat`. */
  method Index(pat: seq<Token>, toks: seq<Token>) returns (r: Taken)
    ensures r == IndexFrom(pat, toks, 0)
  {
    var n, i, k := |toks|, 0, 0;
    while k < |pat|
      invariant 0 <= k <= |pat| && 0 <= i
      invariant IndexFrom(pat, toks, 0) == IndexFrom(pat[k..], toks, i)
    {
      if i == n {
        return Miss;
      }
      match pat[k].kind {
        case Slash =>
          if i > n {
            return Crash;
          }
          if toks[i].kind != Slash {
            return Miss;
          }
          i := i + 1;
        case Star =>
          var j := IndexAny(toks, IsSeparator);
          i := if j != -1 then i + j else n;
        case StarStar =>
          var j := IndexAny(toks, IsColon);
          i := if j != -1 then i + j else n;
        case Literal =>
          if i > n {
            return Crash;
          }
          if toks[i].kind != Path || pat[k].val != toks[i].val {
            return Miss;
          }
          i := i + 1;
        case _ =>
          return Crash;
      }
      assert pat[k..][1..] == pat[k + 1..];
      k := k + 1;
    }
    return Take(i);
  }

  /** Searching at the leaf of the tokens. */
  lemma {:induction false} SearchLeaf(t: Trie, a: Addr, toks: seq<Token>, verb: string, parse: Parser)
    requires Wf(t) && a in t && |toks| <= 1
    ensures Matching.Search(t, a, toks, verb, parse) ==
      match MethodAt(t[a], verb)
      case Some(m) => Found(m, [])
      case None => Missing(ErrMethod)
  {
  }

  lemma {:induction false} SearchSplit(t: Trie, a: Addr, toks: seq<Token>, verb: string, parse: Parser)
    requires Wf(t) && a in t && |toks| > 1
    ensures var child := At(a, Lit(toks[0].val + toks[1].val));
      Matching.Search(t, a, toks, verb, parse) ==
        if child in t && !Matching.Search(t, child, toks[2..], verb, parse).Missing?
        then Matching.Search(t, child, toks[2..], verb, parse)
        else SearchVars(t, a, toks, verb, parse, 0)
  {
  }

  lemma {:induction false} LookupAt(bs: seq<Branch>, i: nat)
    requires i < |bs| && Sorted(Vars(bs))
    ensures Lookup(bs, bs[i].name) == Some(bs[i].next)
  {
    if i > 0 {
      assert Vars(bs)[0].name == bs[0].name && Vars(bs)[i].name == bs[i].name;
      LessTotal(bs[0].name, bs[i].name);
      assert forall j :: 0 <= j < |bs| - 1 ==> Vars(bs[1..])[j] == Vars(bs)[j + 1];
      LookupAt(bs[1..], i - 1);
    }
  }

  /** The node behind the i-th variable. */
  lemma {:induction false} Branches(s: Shape, p: PathTree.Path, i: nat)
    requires Tree(s) && p.In(s) && Wf(Content(s)) && i < |p.variables|
    ensures p.at in Content(s) && |Content(s)[p.at].vars| == |p.variables|
    ensures Content(s)[p.at].vars[i] == Variable(p.variables[i].name, p.variables[i].toks)
    ensures p.variables[i].next.In(s) && p.variables[i].next.at == At(p.at, Var(p.variables[i].name))
  {
    HeldAt(s, p);
    assert GoodVars(Content(s), p.at);
    LookupAt(p.variables, i);
    Child(s, p, Var(p.variables[i].name));
  }

  lemma {:induction false} SearchVarsAt(t: Trie, a: Addr, toks: seq<Token>, verb: string, parse: Parser, i: nat)
    requires Wf(t) && a in t && |toks| > 1 && i < |t[a].vars|
    ensures var v := t[a].vars[i];
      && At(a, Var(v.name)) in t
      && SearchVars(t, a, toks, verb, parse, i) ==
           match IndexFrom(v.toks, toks[1..], 0)
           case Crash => Crashed
           case Miss => SearchVars(t, a, toks, verb, parse, i + 1)
           case Take(n) =>
             if n + 1 > |toks| then Crashed
             else AfterVar(t, a, toks, verb, parse, i, n,
               Matching.Search(t, At(a, Var(v.name)), toks[n + 1..], verb, parse))
  {
    assert HasVar(t[a].vars, t[a].vars[i].name);
  }

  /** What the search at a variable's node means for the loop. */
  function AfterVar(t: Trie, a: Addr, toks: seq<Token>, verb: string, parse: Parser, i: nat, n: nat, r: Result): Result
    requires Wf(t) && a in t && |toks| > 1 && i < |t[a].vars| && n + 1 <= |toks|
  {
    match r
    case Crashed => Crashed
    case Missing(_) => SearchVars(t, a, toks, verb, parse, i + 1)
    case Found(m, ps) => if |ps| < |m.vars| then Capture(m, ps, toks[1..n + 1], parse) else Crashed
  }

  /** `path.search`: exactly the search over the trie that the tree stands for. */
  method Search(ghost s: Shape, p: PathTree.Path, toks: seq<Token>, verb: string, parse: Parser) returns (r: Result)
    requires Tree(s) && p.In(s) && Wf(Content(s))
    ensures r == Matching.Search(Content(s), p.at, toks, verb, parse)
    decreases |toks|
  {
    hide Tree, Content, Wf, Matching.Search, SearchVars, IndexFrom;
    ghost var t := Content(s);
    HeldAt(s, p);
    if |toks| <= 1 {
      SearchLeaf(t, p.at, toks, verb, parse);
      if verb in p.methods {
        return Found(p.methods[verb], []);
      }
      if p.methodAll.Some? {
        return Found(p.methodAll.value, []);
      }
      return Missing(ErrMethod);
    }
    SearchSplit(t, p.at, toks, verb, parse);
    var segment := toks[0].val + toks[1].val;
    Child(s, p, Lit(segment));
    if segment in p.segments {
      r := Search(s, p.segments[segment], toks[2..], verb, parse);
      if !r.Missing? {
        return;
      }
    }
    var i := 0;
    while i < |p.variables|
      invariant i <= |p.variables| == |t[p.at].vars|
      invariant Matching.Search(t, p.at, toks, verb, parse) == SearchVars(t, p.at, toks, verb, parse, i)
    {
      var v := p.variables[i];
      Branches(s, p, i);
      SearchVarsAt(t, p.at, toks, verb, parse, i);
      var taken := Index(v.toks, toks[1..]);
      if taken.Crash? || (taken.Take? && taken.n + 1 > |toks|) {
        return Crashed;
      }
      if taken.Take? {
        r := Search(s, v.next, toks[taken.n + 1..], verb, parse);
        if r.Crashed? {
          return;
        }
        if r.Found? {
          return Capture(r.m, r.ps, toks[1..taken.n + 1], parse);
        }
      }
      i := i + 1;
    }
    SearchVarsEnd(t, p.at, toks, verb, parse);
    return Missing(ErrNotFound);
  }

  lemma {:induction false} SearchVarsEnd(t: Trie, a: Addr, toks: seq<Token>, verb: string, parse: Parser)
    requires Wf(t) && a in t && |toks| > 1
    ensures SearchVars(t, a, toks, verb, parse, |t[a].vars|) == Missing(ErrNotFound)
  {
  }

  /** What matching a route in a trie gives. */
  function MatchIn(t: Trie, route: string, verb: string, parse: Parser): Result
    requires Wf(t)
  {
    if !RouteFits(route) then Missing(ErrNotFound)
    else Matching.Search(t, Root, RouteTokens(ParseRoute(route).value), verb, parse)
  }

  /** The tokens of a lexed path, without the unused slots. */
  lemma {:induction false} PathSlots(l: Lexer)
    requires l.Valid()
    ensures l.toks[..l.len] == l.emitted
  {
  }

  method Match(ghost s: Shape, p: PathTree.Path, route: string, verb: string, parse: Parser) returns (r: Result)
    requires Tree(s) && p.In(s) && p.at == Root && Wf(Content(s))
    ensures r == MatchIn(Content(s), route, verb, parse)
  {
    hide Tree, Content, Wf, Matching.Search, RouteTokens, ParseRoute;
    var l := new Lexer(route);
    var err := l.LexPath();
    if err != Ok {
      return Missing(ErrNotFound);
    }
    PathSlots(l);
    r := Search(s, p, l.toks[..l.len], verb, parse);
  }

  /** The parts of a route that fits in the token array. */
  function PartsOf(route: string): seq<Part>
    requires RouteFits(route)
  {
    ParseRoute(route).value
  }

  /** Matching, from the text of the route, for every route and every decoder: a method is found,
      or the source panics, exactly when the route is a path of at most 64 tokens whose least
      clear run ends that way; the edges, separators and captures of that run spell the route. */
  lemma {:induction false} MatchIsLeast(t: Trie, route: string, verb: string, parse: Parser)
    requires Wf(t) && PlainTrie(t)
    ensures var r := MatchIn(t, route, verb, parse);
      && (forall m :: r.Found? && r.m == m <==> RouteFits(route) && Routing.Hits(t, PartsOf(route), verb, parse, m))
      && (r.Crashed? <==> RouteFits(route) && Routing.Breaks(t, PartsOf(route), verb, parse))
      && (r.Found? ==> exists edges :: IsAnswer(t, route, verb, parse, r, edges))
  {
    if RouteFits(route) {
      hide Matching.Search, Wf, PlainTrie, RouteTokens, Routing.Hits, Routing.Breaks, Routing.LeastClear;
      var ps := PartsOf(route);
      Routing.SearchIsLeastRun(t, ps, verb, parse);
      RouteSound(route);
      var r := MatchIn(t, route, verb, parse);
      if r.Found? {
        var edges :|
          && Routing.LeastClear(t, ps, verb, parse, edges, Some(r.m))
          && Routing.Yields(t, ps, verb, parse, r.m, r.ps, edges);
        Routing.Reconstruction(t, Root, ps, verb, edges, r.m);
        assert IsAnswer(t, route, verb, parse, r, edges);
      }
    }
  }

  /** The error of a route that is not matched: a route that is no path of at most 64 tokens is not
      found; otherwise the method is wrong for the empty route, and else a parameter is if a
      capture at the root did not decode. */
  lemma {:induction false} MatchError(t: Trie, route: string, verb: string, parse: Parser)
    requires Wf(t) && PlainTrie(t)
    ensures var r := MatchIn(t, route, verb, parse);
      r.Missing? ==>
        r.err ==
          if !RouteFits(route) then ErrNotFound
          else if route == "" then ErrMethod
          else if CutShort(t, Root, PartsOf(route), verb, parse) then ErrParam
          else ErrNotFound
  {
    if RouteFits(route) {
      hide Matching.Search, Wf, PlainTrie, RouteTokens, CutShort;
      RouteSound(route);
      Routing.HasRoot(t);
      MissingError(t, Root, PartsOf(route), verb, parse);
      assert PartsOf(route) == [] <==> route == "";
    }
  }

  ghost predicate IsAnswer(t: Trie, route: string, verb: string, parse: Parser, r: Result, edges: seq<Edge>)
    requires r.Found?
  {
    && RouteFits(route)
    && var ps := PartsOf(route);
    && Routing.LeastClear(t, ps, verb, parse, edges, Some(r.m))
    && Routing.Yields(t, ps, verb, parse, r.m, r.ps, edges)
    && Routing.Join(edges, Routing.Separators(edges, ps), Caught(edges, ps)) == route
  }

  /** Where the index is right: a route is matched exactly when some derivation takes all of
      it, the result is the least one, and nothing panics. */
  lemma {:induction false} MatchIsDerivation(t: Trie, route: string, verb: string, parse: Parser)
    requires Wf(t) && PlainTrie(t)
    requires RouteFits(route) ==> Tame(t, PartsOf(route)) && Routing.Decodable(t, PartsOf(route), verb, parse)
    ensures var r := MatchIn(t, route, verb, parse);
      && !r.Crashed?
      && (r.Found? <==> RouteFits(route) && Routing.Derivable(t, PartsOf(route), verb))
      && (r.Found? ==> exists edges ::
            Routing.Answers(t, PartsOf(route), verb, parse, r, edges) && Routing.Least(t, PartsOf(route), verb, edges))
  {
    hide Matching.Search, Wf, PlainTrie, Tame, RouteTokens, Routing.Decodable, Routing.Derivable, Routing.Answers,
      Routing.Least;
    if RouteFits(route) {
      Routing.SearchIsLeast(t, PartsOf(route), verb, parse);
    }
  }
}
