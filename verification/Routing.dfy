/** What searching promises about whole tries and whole routes. */
module Routing {
  import opened Options
  import opened Tokens
  import opened Grammar
  import opened Route
  import opened Tries
  import opened Matching
  import opened Running
  import Rules

  /* ---- What a node answers ---- */

  /** The node that edges lead to. */
  function End(a: Addr, edges: seq<Edge>): Addr
    decreases |edges|
  {
    if edges == [] then a else End(At(a, edges[0]), edges[1..])
  }

  /** A node answers a verb with its binding for the verb if there is one, and with its wildcard
      binding otherwise. */
  ghost predicate Replies(t: Trie, x: Addr, verb: string, m: Method) {
    if Rules.Bound(t, x, verb).Some? then Rules.Bound(t, x, verb) == Some(m) else Rules.Bound(t, x, "*") == Some(m)
  }

  /** The edges take the whole route down the tree. */
  ghost predicate Covers(t: Trie, a: Addr, ps: seq<Part>, edges: seq<Edge>)
    decreases |edges|
  {
    && a in t
    && if edges == [] then ps == []
       else Stride(edges[0], ps).Take? && Covers(t, At(a, edges[0]), ps[Stride(edges[0], ps).n..], edges[1..])
  }

  /** A run ends in a method exactly when its edges take the whole route to a node that answers
      the verb with it: a specific binding goes before the wildcard one. */
  lemma {:induction false} RunIffReplies(t: Trie, a: Addr, ps: seq<Part>, verb: string, edges: seq<Edge>, m: Method)
    requires Rules.NoStar(t)
    ensures Runs(t, a, ps, verb, edges, Some(m)) <==>
      Covers(t, a, ps, edges) && Replies(t, End(a, edges), verb, m)
    decreases |edges|
  {
    if edges != [] && Stride(edges[0], ps).Take? {
      RunIffReplies(t, At(a, edges[0]), ps[Stride(edges[0], ps).n..], verb, edges[1..], m);
      CoversFrom(t, At(a, edges[0]), ps[Stride(edges[0], ps).n..], edges[1..]);
    }
  }

  lemma {:induction false} CoversFrom(t: Trie, a: Addr, ps: seq<Part>, edges: seq<Edge>)
    ensures Covers(t, a, ps, edges) ==> a in t
  {
  }

  /** The same for derivations. */
  lemma {:induction false} AcceptsReplies(t: Trie, a: Addr, ps: seq<Part>, verb: string, edges: seq<Edge>, m: Method)
    requires Rules.NoStar(t) && Accepts(t, a, ps, verb, edges, m)
    ensures Replies(t, End(a, edges), verb, m)
    decreases |edges|
  {
    if edges != [] {
      AcceptsReplies(t, At(a, edges[0]), ps[Consumed(edges[0], ps).value..], verb, edges[1..], m);
    }
  }

  /* ---- Every route ---- */

  /** `edges` is the least clear run from the root, and `end` is how it ends. */
  ghost predicate LeastClear(t: Trie, ps: seq<Part>, verb: string, parse: Parser, edges: seq<Edge>,
                             end: Option<Method>) {
    && Clear(t, Root, ps, verb, parse, edges, end)
    && forall fs, e :: Clear(t, Root, ps, verb, parse, fs, e) ==> Precedes(edges, fs)
  }

  ghost predicate Hits(t: Trie, ps: seq<Part>, verb: string, parse: Parser, m: Method) {
    exists edges :: LeastClear(t, ps, verb, parse, edges, Some(m))
  }

  ghost predicate Breaks(t: Trie, ps: seq<Part>, verb: string, parse: Parser) {
    exists edges :: LeastClear(t, ps, verb, parse, edges, None)
  }

  /** `m` is what the node at the end of a run answers, and the parameters are the decoded
      captures of the run. */
  ghost predicate Yields(t: Trie, ps: seq<Part>, verb: string, parse: Parser, m: Method, params: seq<Param>,
                         edges: seq<Edge>) {
    && Runs(t, Root, ps, verb, edges, Some(m))
    && (Rules.NoStar(t) ==> Replies(t, End(Root, edges), verb, m))
    && Decoded(m.vars, Caught(edges, ps), parse)
    && params == ParamsOf(m.vars, Caught(edges, ps), parse)
  }

  /** There is at most one least clear run. */
  lemma {:induction false} OneLeast(t: Trie, ps: seq<Part>, verb: string, parse: Parser, es: seq<Edge>,
                                    e: Option<Method>, fs: seq<Edge>, f: Option<Method>)
    requires LeastClear(t, ps, verb, parse, es, e) && LeastClear(t, ps, verb, parse, fs, f)
    ensures es == fs && e == f
  {
    PrecedesAntisymmetric(es, fs);
    ClearRuns(t, Root, ps, verb, parse, es, e);
    ClearRuns(t, Root, ps, verb, parse, fs, f);
    RunEnds(t, Root, ps, verb, es, e, f);
  }

  lemma {:induction false} HasRoot(t: Trie)
    requires Wf(t)
    ensures Root in t
  {
  }

  /** On every route and with every decoder, also where the index overshoots: the search finds a
      method, panics or finds nothing exactly when the least clear run ends in the method, ends
      in a panic or does not exist. */
  lemma {:induction false} SearchIsLeastRun(t: Trie, ps: seq<Part>, verb: string, parse: Parser)
    requires Wf(t) && PlainTrie(t) && GoodRoute(ps)
    ensures var r := Search(t, Root, RouteTokens(ps), verb, parse);
      && (forall m :: r.Found? && r.m == m <==> Hits(t, ps, verb, parse, m))
      && (r.Crashed? <==> Breaks(t, ps, verb, parse))
      && (r.Missing? <==> forall edges, end :: !Clear(t, Root, ps, verb, parse, edges, end))
      && (r.Found? ==> exists edges ::
        LeastClear(t, ps, verb, parse, edges, Some(r.m)) && Yields(t, ps, verb, parse, r.m, r.ps, edges))
  {
    hide Wf, PlainTrie, Search, Runs, Decoded, GoodRoute, Clear, Replies, Rules.NoStar;
    HasRoot(t);
    var edges := SearchFrom(t, Root, ps, RouteTokens(ps), verb, parse);
    var r := Search(t, Root, RouteTokens(ps), verb, parse);
    assert LeastOf(t, Root, ps, verb, parse, r, edges);
    match r {
      case Found(m, params) =>
        assert m.vars[0..] == m.vars;
        ClearRuns(t, Root, ps, verb, parse, edges, Some(m));
        if Rules.NoStar(t) {
          RunIffReplies(t, Root, ps, verb, edges, m);
        }
        assert LeastClear(t, ps, verb, parse, edges, Some(m)) && Yields(t, ps, verb, parse, m, params, edges);
      case Crashed =>
        assert LeastClear(t, ps, verb, parse, edges, None);
      case _ =>
    }
    if r.Missing? {
      NoneClear(t, Root, ps, verb, parse, r, edges);
    } else {
      assert Clear(t, Root, ps, verb, parse, edges, if r.Found? then Some(r.m) else None);
    }
    forall m | Hits(t, ps, verb, parse, m) ensures r.Found? && r.m == m {
      var fs :| LeastClear(t, ps, verb, parse, fs, Some(m));
      OneLeast(t, ps, verb, parse, edges, if r.Found? then Some(r.m) else None, fs, Some(m));
    }
    if Breaks(t, ps, verb, parse) {
      var fs :| LeastClear(t, ps, verb, parse, fs, None);
      OneLeast(t, ps, verb, parse, edges, if r.Found? then Some(r.m) else None, fs, None);
    }
  }

  /** When the captures of all runs of a route decode, its clear runs are its runs. */
  lemma {:induction false} ClearIffRun(t: Trie, ps: seq<Part>, verb: string, parse: Parser, edges: seq<Edge>,
                                       end: Option<Method>)
    requires AllDecode(t, Root, ps, verb, parse)
    ensures Clear(t, Root, ps, verb, parse, edges, end) <==> Runs(t, Root, ps, verb, edges, end)
  {
    hide AllDecode, Clear, Runs;
    if Clear(t, Root, ps, verb, parse, edges, end) {
      ClearRuns(t, Root, ps, verb, parse, edges, end);
    }
    if Runs(t, Root, ps, verb, edges, end) {
      RunsClear(t, Root, ps, verb, parse, edges, end);
    }
  }

  /** Whatever the decoder: what is found is at the end of a run whose captures decode, and the
      search panics only where a run does. */
  lemma {:induction false} SearchIsRun(t: Trie, ps: seq<Part>, verb: string, parse: Parser)
    requires Wf(t) && PlainTrie(t) && GoodRoute(ps)
    ensures var r := Search(t, Root, RouteTokens(ps), verb, parse);
      && (r.Found? ==> exists edges :: Yields(t, ps, verb, parse, r.m, r.ps, edges))
      && (r.Crashed? ==> exists edges :: Runs(t, Root, ps, verb, edges, None))
  {
    hide Wf, PlainTrie, Search, GoodRoute, Clear, Yields, Replies, Rules.NoStar;
    HasRoot(t);
    SearchIsLeastRun(t, ps, verb, parse);
    var r := Search(t, Root, RouteTokens(ps), verb, parse);
    if r.Crashed? {
      var edges :| LeastClear(t, ps, verb, parse, edges, None);
      ClearRuns(t, Root, ps, verb, parse, edges, None);
    }
  }

  /* ---- Routes on which the index is right ---- */

  /** `r` is what the node at the end of `edges` answers, with the captures of `edges` as
      parameters. */
  ghost predicate Answers(t: Trie, ps: seq<Part>, verb: string, parse: Parser, r: Result, edges: seq<Edge>) {
    && r.Found?
    && Accepts(t, Root, ps, verb, edges, r.m)
    && (Rules.NoStar(t) ==> Replies(t, End(Root, edges), verb, r.m))
    && Decodes(r.m, edges, ps, parse)
    && r.ps == ParamsOf(r.m.vars, Captures(edges, ps), parse)
  }

  ghost predicate Least(t: Trie, ps: seq<Part>, verb: string, edges: seq<Edge>) {
    forall fs, m :: Accepts(t, Root, ps, verb, fs, m) ==> Precedes(edges, fs)
  }

  ghost predicate Derivable(t: Trie, ps: seq<Part>, verb: string) {
    exists fs, m :: Accepts(t, Root, ps, verb, fs, m)
  }

  /** Every capture of the derivation decodes. */
  ghost predicate Decodes(m: Method, edges: seq<Edge>, ps: seq<Part>, parse: Parser) {
    Decoded(m.vars, Captures(edges, ps), parse)
  }

  /** Every derivation of this route decodes. */
  ghost predicate Decodable(t: Trie, ps: seq<Part>, verb: string, parse: Parser) {
    forall fs, m :: Accepts(t, Root, ps, verb, fs, m) ==> Decodes(m, fs, ps, parse)
  }

  lemma {:induction false} DecodableRuns(t: Trie, ps: seq<Part>, verb: string, parse: Parser)
    requires Wf(t) && PlainTrie(t) && Tame(t, ps) && Decodable(t, ps, verb, parse)
    ensures AllDecode(t, Root, ps, verb, parse)
  {
    hide Wf, PlainTrie, Tame, Runs, Accepts, Decoded;
    forall fs, m ensures RunDecodes(t, Root, ps, verb, parse, fs, m) {
      if Runs(t, Root, ps, verb, fs, Some(m)) {
        RunsAreDerivations(t, Root, ps, verb, fs);
        assert Accepts(t, Root, ps, verb, fs, m) && Decodes(m, fs, ps, parse);
        assert m.vars[0..] == m.vars;
      }
    }
  }

  /** A route is found exactly when some derivation takes all of it; the method and the
      parameters are those of the least derivation. For this, the captures of the derivations
      of this route have to decode. */
  lemma {:induction false} SearchIsLeast(t: Trie, ps: seq<Part>, verb: string, parse: Parser)
    requires Wf(t) && PlainTrie(t) && Tame(t, ps) && GoodRoute(ps) && Decodable(t, ps, verb, parse)
    ensures var r := Search(t, Root, RouteTokens(ps), verb, parse);
      && !r.Crashed?
      && (r.Found? <==> Derivable(t, ps, verb))
      && (r.Found? ==> exists edges :: Answers(t, ps, verb, parse, r, edges) && Least(t, ps, verb, edges))
  {
    hide Wf, PlainTrie, Tame, Search, AllDecode, Decoded, GoodRoute, Accepts, Decodable, Clear, Replies, Rules.NoStar;
    HasRoot(t);
    DecodableRuns(t, ps, verb, parse);
    SearchIsLeastRun(t, ps, verb, parse);
    var r := Search(t, Root, RouteTokens(ps), verb, parse);
    if r.Crashed? {
      var edges :| LeastClear(t, ps, verb, parse, edges, None);
      ClearIffRun(t, ps, verb, parse, edges, None);
      RunsAreDerivations(t, Root, ps, verb, edges);
    }
    if r.Found? {
      var edges :| LeastClear(t, ps, verb, parse, edges, Some(r.m)) && Yields(t, ps, verb, parse, r.m, r.ps, edges);
      RunsAreDerivations(t, Root, ps, verb, edges);
      assert Accepts(t, Root, ps, verb, edges, r.m);
      forall fs, m | Accepts(t, Root, ps, verb, fs, m) ensures Precedes(edges, fs) {
        RunsAreDerivations(t, Root, ps, verb, fs);
        ClearIffRun(t, ps, verb, parse, fs, Some(m));
      }
      assert Answers(t, ps, verb, parse, r, edges) && Least(t, ps, verb, edges);
    } else if Derivable(t, ps, verb) {
      var fs, m :| Accepts(t, Root, ps, verb, fs, m);
      RunsAreDerivations(t, Root, ps, verb, fs);
      ClearIffRun(t, ps, verb, parse, fs, Some(m));
    }
  }

  /** Whatever the decoder, what is found is a derivation. */
  lemma {:induction false} SearchIsSound(t: Trie, ps: seq<Part>, verb: string, parse: Parser)
    requires Wf(t) && PlainTrie(t) && Tame(t, ps) && GoodRoute(ps)
    ensures var r := Search(t, Root, RouteTokens(ps), verb, parse);
      && !r.Crashed?
      && (r.Found? ==> exists edges :: Answers(t, ps, verb, parse, r, edges))
  {
    SearchIsRun(t, ps, verb, parse);
    var r := Search(t, Root, RouteTokens(ps), verb, parse);
    if r.Crashed? {
      var edges :| Runs(t, Root, ps, verb, edges, None);
      RunsAreDerivations(t, Root, ps, verb, edges);
    }
    if r.Found? {
      var edges :| Yields(t, ps, verb, parse, r.m, r.ps, edges);
      RunsAreDerivations(t, Root, ps, verb, edges);
      assert Answers(t, ps, verb, parse, r, edges);
    }
  }

  /* ---- Reconstruction ---- */

  /** The separators in front of what each edge takes. */
  function Separators(edges: seq<Edge>, ps: seq<Part>): seq<char> {
    if edges == [] || ps == [] || !Stride(edges[0], ps).Take? then []
    else [ps[0].sep] + Separators(edges[1..], ps[Stride(edges[0], ps).n..])
  }

  /** Literal keys, separators and captured texts, joined in the order of the edges. */
  function Join(edges: seq<Edge>, seps: seq<char>, texts: seq<string>): string {
    if edges == [] || seps == [] then ""
    else
      match edges[0]
      case Lit(k) => k + Join(edges[1..], seps[1..], texts)
      case Var(_) => if texts == [] then "" else [seps[0]] + texts[0] + Join(edges[1..], seps[1..], texts[1..])
  }

  lemma {:induction false} PrintSplit(ps: seq<Part>, c: nat)
    requires c <= |ps|
    ensures PrintRoute(ps) == PrintRoute(ps[..c]) + PrintRoute(ps[c..])
  {
    if c == 0 {
      assert ps[..0] == [] && ps[0..] == ps;
    } else {
      PrintSplit(ps[1..], c - 1);
      assert ps[..c][1..] == ps[1..][..c - 1] && ps[1..][c - 1..] == ps[c..];
      var a, b := PrintRoute(ps[1..][..c - 1]), PrintRoute(ps[c..]);
      assert [ps[0].sep] + (ps[0].text + (a + b)) == [ps[0].sep] + (ps[0].text + a) + b;
    }
  }

  /** The edges of a run to a method spell the whole route, each capture at its own position. */
  lemma {:induction false} Reconstruction(t: Trie, a: Addr, ps: seq<Part>, verb: string, edges: seq<Edge>, m: Method)
    requires Runs(t, a, ps, verb, edges, Some(m))
    ensures Join(edges, Separators(edges, ps), Caught(edges, ps)) == PrintRoute(ps)
    decreases |edges|
  {
    if edges != [] {
      var c := Stride(edges[0], ps).n;
      var rest := ps[c..];
      Reconstruction(t, At(a, edges[0]), rest, verb, edges[1..], m);
      var seps, texts := Separators(edges[1..], rest), Caught(edges[1..], rest);
      assert ([ps[0].sep] + seps)[1..] == seps;
      PrintSplit(ps, c);
      assert PrintRoute(ps[..c]) == [ps[0].sep] + Text(ps[..c]);
      if edges[0].Var? {
        assert ([Text(ps[..c])] + texts)[1..] == texts;
      } else {
        assert ps[..c][1..] == [];
        assert Text(ps[..c]) == ps[0].text + "";
        assert ps[0].text + "" == ps[0].text;
      }
    }
  }

  /* ---- Decoders that fail ---- */

  /** Search finds every route that has a decodable derivation. */
  ghost predicate Complete(parse: Parser) {
    forall t, ps, verb, fs, m ::
      && Wf(t) && PlainTrie(t) && Tame(t, ps) && GoodRoute(ps)
      && Accepts(t, Root, ps, verb, fs, m) && Decodes(m, fs, ps, parse) ==>
        Search(t, Root, RouteTokens(ps), verb, parse).Found?
  }

  /** A root with two variables, each leading to a node with one method for "GET". */
  function Fork(p: string, q: string, m: Method, n: Method): Trie
    requires IsPattern(p) && IsPattern(q)
  {
    map[
      Root := Info([Variable(p, ListTokens(PatternOf(p), [])), Variable(q, ListTokens(PatternOf(q), []))], map[], None),
      At(Root, Var(p)) := Info([], map["GET" := m], None),
      At(Root, Var(q)) := Info([], map["GET" := n], None)
    ]
  }

  lemma {:induction false} PatternVariable(name: string)
    requires IsPattern(name)
    ensures Render(ListTokens(PatternOf(name), [])) == name
    ensures PlainTokens(ListTokens(PatternOf(name), []))
  {
    PatternIsPlain(PatternOf(name));
    ListSound(name);
    ListText(PatternOf(name), []);
  }

  lemma {:induction false} ForkGood(p: string, q: string, m: Method, n: Method)
    requires IsPattern(p) && IsPattern(q) && Less(p, q)
    requires |m.vars| == |n.vars| == 1
    ensures Wf(Fork(p, q, m, n)) && PlainTrie(Fork(p, q, m, n))
  {
    hide IsPattern, PatternOf, ListTokens, Render, PlainTokens, Less;
    LessTotal(p, q);
    PatternVariable(p);
    PatternVariable(q);
    var t, vs := Fork(p, q, m, n), Fork(p, q, m, n)[Root].vars;
    assert vs[0].name == p && vs[1].name == q;
    forall x | x in t ensures GoodVars(t, x) && Aligned(t, x) {
      if x != Root {
        assert t[x].vars == [] && VarCount(x) == 1;
      }
    }
  }

  lemma {:induction false} ForkAccepts(p: string, q: string, m: Method, n: Method, ps: seq<Part>, parse: Parser)
    requires IsPattern(p) && IsPattern(q)
    requires Consumed(Var(q), ps) == Some(|ps|) && n.vars == [[]]
    ensures Accepts(Fork(p, q, m, n), Root, ps, "GET", [Var(q)], n)
    ensures Decodes(n, [Var(q)], ps, parse)
  {
    var t, fs := Fork(p, q, m, n), [Var(q)];
    var none: seq<Edge> := [];
    assert fs[1..] == none && ps[|ps|..] == [];
    assert Accepts(t, At(Root, Var(q)), [], "GET", none, n);
    assert Captures(fs, ps) == [Text(ps[..|ps|])] + Captures(none, []);
  }

  lemma {:induction false} CutSearch(p: string, q: string, m: Method, n: Method, ps: seq<Part>, parse: Parser)
    requires IsPattern(p) && IsPattern(q) && Less(p, q) && |m.vars| == 1 && n.vars == [[]]
    requires Wf(Fork(p, q, m, n)) && PlainTrie(Fork(p, q, m, n))
    requires GoodRoute(ps) && NoColon(ps) && ps != []
    requires Consumed(Var(p), ps) == Some(|ps|)
    requires m.vars[0] != [] && parse(m.vars[0], Text(ps)).None?
    ensures !Search(Fork(p, q, m, n), Root, RouteTokens(ps), "GET", parse).Found?
  {
    hide Wf, PlainTrie, Search, SearchVars, RouteTokens, Tame, IsPattern, GoodRoute, Ready, Left, Consumed, Text;
    var t := Fork(p, q, m, n);
    ForkNode(p, q, m, n, Lit([ps[0].sep] + ps[0].text));
    StrideAgrees(Var(p), ps);
    SearchUnfold(t, Root, ps, "GET", parse);
    var taken := VariableStep(t, Root, ps, "GET", parse, 0);
    assert ps[..|ps|] == ps && ps[|ps|..] == [];
    LeafHit(t, At(Root, Var(p)), Left(t, Root, ps, 0), "GET", parse);
  }

  lemma {:induction false} ForkNode(p: string, q: string, m: Method, n: Method, e: Edge)
    requires IsPattern(p) && IsPattern(q) && Less(p, q)
    ensures var t := Fork(p, q, m, n);
      && Root in t && At(Root, Var(p)) in t && MethodAt(t[At(Root, Var(p))], "GET") == Some(m)
      && |t[Root].vars| == 2 && t[Root].vars[0].name == p
      && (e.Lit? ==> At(Root, e) !in t)
  {
    LessTotal(p, q);
  }

  lemma {:induction false} LeafHit(t: Trie, a: Addr, toks: seq<Token>, verb: string, parse: Parser)
    requires Wf(t) && a in t && Ready(toks, []) && MethodAt(t[a], verb).Some?
    ensures Search(t, a, toks, verb, parse) == Found(MethodAt(t[a], verb).value, [])
  {
  }

  /** When the first variable takes the whole route but its capture does not decode, the
      second one is never tried. */
  lemma {:induction false} CutAt(p: string, q: string, m: Method, n: Method, ps: seq<Part>, parse: Parser)
    requires IsPattern(p) && IsPattern(q) && Less(p, q) && |m.vars| == 1 && n.vars == [[]]
    requires GoodRoute(ps) && NoColon(ps) && ps != []
    requires Consumed(Var(p), ps) == Some(|ps|) && Consumed(Var(q), ps) == Some(|ps|)
    requires m.vars[0] != [] && parse(m.vars[0], Text(ps)).None?
    ensures !Complete(parse)
  {
    hide Wf, PlainTrie, Accepts, Decodes, Fork, Search;
    ForkGood(p, q, m, n);
    ForkAccepts(p, q, m, n, ps, parse);
    CutSearch(p, q, m, n, ps, parse);
  }

  lemma {:induction false} Patterns()
    ensures IsPattern("*") && PatternOf("*") == [Wild]
    ensures IsPattern("**") && PatternOf("**") == [DeepWild]
    ensures IsPattern("*/**") && PatternOf("*/**") == [Wild, DeepWild]
    ensures Less("*", "**") && Less("**", "*/**")
  {
    assert PrintList([Wild], "") == "*" && PrintList([DeepWild], "") == "**";
    ListComplete([Wild], "");
    ListComplete([DeepWild], "");
    var two := [Wild, DeepWild];
    assert two[1..] == [DeepWild];
    assert PrintList(two, "") == "*" + ("/" + "**");
    assert "*" + ("/" + "**") == "*/**";
    ListComplete(two, "");
    assert "*"[1..] == "" && "**"[1..] == "*" && "*/**"[1..] == "/**";
  }

  /** Search is complete on every trie and route exactly when no text that a variable can
      capture fails to decode. */
  lemma {:induction false} CompleteIffTotal(parse: Parser)
    ensures Complete(parse) <==> Total(parse)
  {
    if Total(parse) {
      forall t: Trie, ps: seq<Part>, verb: string, fs: seq<Edge>, m: Method |
        Wf(t) && PlainTrie(t) && Tame(t, ps) && GoodRoute(ps) && Accepts(t, Root, ps, verb, fs, m)
        ensures Search(t, Root, RouteTokens(ps), verb, parse).Found?
      {
        forall es, n | Accepts(t, Root, ps, verb, es, n) ensures Decodes(n, es, ps, parse) {
          TotalDecodes(t, Root, ps, verb, es, n, parse);
          RunsAreDerivations(t, Root, ps, verb, es);
          Counted(t, Root, ps, verb, es, n);
        }
        SearchIsLeast(t, ps, verb, parse);
        assert Derivable(t, ps, verb);
      }
    } else {
      var fds: FieldPath, ps: seq<Part> :|
        fds != [] && ps != [] && GoodRoute(ps) && NoColon(ps) && parse(fds, Text(ps)).None?;
      UndecodableCuts(fds, ps, parse);
    }
  }

  lemma {:induction false} UndecodableCuts(fds: FieldPath, ps: seq<Part>, parse: Parser)
    requires fds != [] && ps != [] && GoodRoute(ps) && NoColon(ps) && parse(fds, Text(ps)).None?
    ensures !Complete(parse)
  {
    var desc := Desc("", map[]);
    var m := Method(desc, "m", [fds], [], [], false);
    var n := Method(desc, "n", [[]], [], [], false);
    Patterns();
    DeepTakesAll(ps);
    if |ps| == 1 {
      CutAt("*", "**", m, n, ps, parse);
    } else {
      var two: seq<Segment>, rest: seq<Part> := [Wild, DeepWild], ps[1..];
      assert two[1..] == [DeepWild];
      DeepTakesAll(rest);
      assert Extent(two, ps) == Some(|ps|);
      CutAt("**", "*/**", m, n, ps, parse);
    }
  }

  lemma {:induction false} DeepTakesAll(ps: seq<Part>)
    requires ps != [] && NoColon(ps)
    ensures Extent([DeepWild], ps) == Some(|ps|)
  {
    AllSlashes(ps[1..]);
  }
}
