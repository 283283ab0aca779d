/** The search on every route, also where the source's index overshoots: its outcome is that of
    the least run down the trie. */
module Running {
  import opened Options
  import opened Tokens
  import opened Grammar
  import opened Route
  import opened Tries
  import opened Matching

  /** How many parts the search takes along an edge; `Crash` when it panics there. */
  function Stride(e: Edge, ps: seq<Part>): (c: Taken)
    ensures c.Take? ==> 1 <= c.n <= |ps|
  {
    if ps == [] then Miss
    else
      match e
      case Lit(k) => if k == [ps[0].sep] + ps[0].text then Take(1) else Miss
      case Var(n) =>
        if !IsPattern(n) then Miss
        else
          var c := Reach(PatternOf(n), ps, 0);
          if c.Take? && c.n > |ps| then Crash else c
  }

  /** `edges` lead from `a` down to a node that answers `verb`, taking exactly `ps` on the way,
      or to a panic, which `None` stands for. */
  ghost predicate Runs(t: Trie, a: Addr, ps: seq<Part>, verb: string, edges: seq<Edge>, end: Option<Method>)
    decreases |edges|
  {
    && a in t
    && if edges == [] then ps == [] && end.Some? && MethodAt(t[a], verb) == end
       else
         && At(a, edges[0]) in t
         && match Stride(edges[0], ps)
            case Take(c) => Runs(t, At(a, edges[0]), ps[c..], verb, edges[1..], end)
            case Crash => |edges| == 1 && end == None
            case Miss => false
  }

  /** The texts that the variable edges take, from the root down. */
  function Caught(edges: seq<Edge>, ps: seq<Part>): seq<string> {
    if edges == [] || !Stride(edges[0], ps).Take? then []
    else
      var c := Stride(edges[0], ps).n;
      var rest := Caught(edges[1..], ps[c..]);
      if edges[0].Lit? then rest else [Text(ps[..c])] + rest
  }

  /** The edges of a run determine how it ends. */
  lemma {:induction false} RunEnds(t: Trie, a: Addr, ps: seq<Part>, verb: string, edges: seq<Edge>, e: Option<Method>,
                                   f: Option<Method>)
    requires Runs(t, a, ps, verb, edges, e) && Runs(t, a, ps, verb, edges, f)
    ensures e == f
    decreases |edges|
  {
    if edges != [] && Stride(edges[0], ps).Take? {
      RunEnds(t, At(a, edges[0]), ps[Stride(edges[0], ps).n..], verb, edges[1..], e, f);
    }
  }

  /** Every text decodes into the field of its variable. */
  ghost predicate Decoded(vars: seq<FieldPath>, texts: seq<string>, parse: Parser) {
    |vars| == |texts| && forall i :: 0 <= i < |vars| && vars[i] != [] ==> parse(vars[i], texts[i]).Some?
  }

  /** If `edges` are a run to `m`, its captures decode. */
  ghost predicate RunDecodes(t: Trie, a: Addr, ps: seq<Part>, verb: string, parse: Parser, edges: seq<Edge>,
                             m: Method) {
    Runs(t, a, ps, verb, edges, Some(m)) ==>
      |m.vars| >= VarCount(a) && Decoded(m.vars[VarCount(a)..], Caught(edges, ps), parse)
  }

  /** The captures of all runs from `a` decode. */
  ghost predicate AllDecode(t: Trie, a: Addr, ps: seq<Part>, verb: string, parse: Parser) {
    forall edges, m :: RunDecodes(t, a, ps, verb, parse, edges, m)
  }

  /** The capture of an edge out of `a` decodes into the field of `m`; a literal edge captures
      nothing, and a panic happens before anything is decoded. */
  predicate HeadDecodes(a: Addr, e: Edge, end: Option<Method>, text: string, parse: Parser) {
    || e.Lit? || end.None?
    || (|end.value.vars| > VarCount(a)
        && (end.value.vars[VarCount(a)] == [] || parse(end.value.vars[VarCount(a)], text).Some?))
  }

  /** A clear run: its captures decode, and no run before it is cut short at one of its nodes. */
  ghost predicate Clear(t: Trie, a: Addr, ps: seq<Part>, verb: string, parse: Parser, edges: seq<Edge>,
                        end: Option<Method>)
    decreases |ps|, 1
  {
    && a in t
    && if edges == [] then ps == [] && end.Some? && MethodAt(t[a], verb) == end
       else
         && At(a, edges[0]) in t
         && (match Stride(edges[0], ps)
             case Take(c) =>
               && Clear(t, At(a, edges[0]), ps[c..], verb, parse, edges[1..], end)
               && HeadDecodes(a, edges[0], end, Text(ps[..c]), parse)
             case Crash => |edges| == 1 && end == None
             case Miss => false)
         && forall gs, n :: Cuts(t, a, ps, verb, parse, gs, n) ==> !Precedes(gs, edges)
  }

  /** A run that is clear below `a`, but its capture at `a` does not decode: this ends the search
      at `a`. */
  ghost predicate Cuts(t: Trie, a: Addr, ps: seq<Part>, verb: string, parse: Parser, gs: seq<Edge>, n: Method)
    decreases |ps|, 0
  {
    && gs != [] && gs[0].Var? && At(a, gs[0]) in t && Stride(gs[0], ps).Take?
    && var c := Stride(gs[0], ps).n;
    && Clear(t, At(a, gs[0]), ps[c..], verb, parse, gs[1..], Some(n))
    && !HeadDecodes(a, gs[0], Some(n), Text(ps[..c]), parse)
  }

  /** What a clear run gives as the result of the search. */
  ghost predicate Ends(t: Trie, a: Addr, ps: seq<Part>, verb: string, parse: Parser, r: Result, edges: seq<Edge>) {
    match r
    case Missing(_) => true
    case Crashed => Clear(t, a, ps, verb, parse, edges, None)
    case Found(m, params) =>
      && Clear(t, a, ps, verb, parse, edges, Some(m))
      && |m.vars| == VarCount(a) + |Caught(edges, ps)|
      && Decoded(m.vars[VarCount(a)..], Caught(edges, ps), parse)
      && params == ParamsOf(m.vars[VarCount(a)..], Caught(edges, ps), parse)
  }

  ghost predicate LeastOf(t: Trie, a: Addr, ps: seq<Part>, verb: string, parse: Parser, r: Result, edges: seq<Edge>) {
    forall fs, e :: Clear(t, a, ps, verb, parse, fs, e) ==> !r.Missing? && Precedes(edges, fs)
  }

  /** The same among clear runs through the i-th and later variables of `a`. */
  ghost predicate LeastFrom(t: Trie, a: Addr, ps: seq<Part>, verb: string, parse: Parser, i: nat, r: Result,
                            edges: seq<Edge>)
    requires a in t
  {
    forall fs, e, j ::
      i <= j < |t[a].vars| && Clear(t, a, ps, verb, parse, fs, e) && fs != [] && fs[0] == Var(t[a].vars[j].name) ==>
      !r.Missing? && Precedes(edges, fs)
  }

  /** No run through the first `i` variables of `a` cuts the search. */
  ghost predicate Passed(t: Trie, a: Addr, ps: seq<Part>, verb: string, parse: Parser, i: nat)
    requires a in t
  {
    forall gs, n, j ::
      0 <= j < i && j < |t[a].vars| && Cuts(t, a, ps, verb, parse, gs, n) ==> gs[0] != Var(t[a].vars[j].name)
  }

  /* ---- One step ---- */

  lemma {:induction false} RunCons(t: Trie, a: Addr, e: Edge, ps: seq<Part>, verb: string, edges: seq<Edge>,
                                   end: Option<Method>)
    requires a in t && Stride(e, ps).Take?
    requires Runs(t, At(a, e), ps[Stride(e, ps).n..], verb, edges, end)
    ensures Runs(t, a, ps, verb, [e] + edges, end)
    ensures Caught([e] + edges, ps) ==
      (if e.Lit? then [] else [Text(ps[..Stride(e, ps).n])]) + Caught(edges, ps[Stride(e, ps).n..])
  {
    assert ([e] + edges)[1..] == edges;
  }

  /** Captures that decode at `a` decode below. */
  lemma {:induction false} DecodeBelow(t: Trie, a: Addr, e: Edge, ps: seq<Part>, verb: string, parse: Parser)
    requires a in t && Stride(e, ps).Take? && AllDecode(t, a, ps, verb, parse)
    ensures AllDecode(t, At(a, e), ps[Stride(e, ps).n..], verb, parse)
  {
    hide Stride, Text, Decoded, Runs, Caught;
    var b, rest := At(a, e), ps[Stride(e, ps).n..];
    forall fs, m ensures RunDecodes(t, b, rest, verb, parse, fs, m) {
      if Runs(t, b, rest, verb, fs, Some(m)) {
        RunCons(t, a, e, ps, verb, fs, Some(m));
        assert RunDecodes(t, a, ps, verb, parse, [e] + fs, m);
        if e.Var? {
          DecodedTail(m.vars[VarCount(a)..], Text(ps[..Stride(e, ps).n]), Caught(fs, rest), parse);
          assert m.vars[VarCount(a)..][1..] == m.vars[VarCount(b)..];
        } else {
          assert [] + Caught(fs, rest) == Caught(fs, rest);
        }
      }
    }
  }

  lemma {:induction false} DecodedTail(vars: seq<FieldPath>, text: string, texts: seq<string>, parse: Parser)
    requires Decoded(vars, [text] + texts, parse)
    ensures vars != [] && Decoded(vars[1..], texts, parse)
    ensures vars[0] != [] ==> parse(vars[0], text).Some?
  {
    forall i | 0 <= i < |vars[1..]| && vars[1..][i] != [] ensures parse(vars[1..][i], texts[i]).Some? {
      assert vars[1..][i] == vars[i + 1] && ([text] + texts)[i + 1] == texts[i];
    }
    assert ([text] + texts)[0] == text;
  }

  lemma {:induction false} DecodedCons(vars: seq<FieldPath>, text: string, texts: seq<string>, parse: Parser)
    requires vars != [] && Decoded(vars[1..], texts, parse)
    requires vars[0] != [] ==> parse(vars[0], text).Some?
    ensures Decoded(vars, [text] + texts, parse)
  {
    forall i | 0 <= i < |vars| && vars[i] != [] ensures parse(vars[i], ([text] + texts)[i]).Some? {
      if i > 0 {
        assert vars[1..][i - 1] == vars[i];
      }
    }
  }

  /** Clear runs are runs. */
  lemma {:induction false} ClearRuns(t: Trie, a: Addr, ps: seq<Part>, verb: string, parse: Parser, edges: seq<Edge>,
                                     end: Option<Method>)
    requires Clear(t, a, ps, verb, parse, edges, end)
    ensures Runs(t, a, ps, verb, edges, end)
    decreases |edges|
  {
    if edges != [] && Stride(edges[0], ps).Take? {
      ClearRuns(t, At(a, edges[0]), ps[Stride(edges[0], ps).n..], verb, parse, edges[1..], end);
    }
  }

  /** A cut before a run starts at a variable that is not after the first edge of the run. */
  lemma {:induction false} CutBefore(gs: seq<Edge>, e: Edge, edges: seq<Edge>)
    requires gs != [] && gs[0].Var? && Precedes(gs, [e] + edges)
    ensures e.Var? && (gs[0] == e || Less(gs[0].name, e.name))
    ensures gs[0] == e ==> Precedes(gs[1..], edges)
  {
    assert ([e] + edges)[1..] == edges;
    if e.Var? {
      LessTotal(e.name, e.name);
    }
  }

  /** A clear run below, whose capture decodes and which nothing cuts, is clear from `a`. */
  lemma {:induction false} ClearCons(t: Trie, a: Addr, e: Edge, ps: seq<Part>, verb: string, parse: Parser,
                                     edges: seq<Edge>, end: Option<Method>)
    requires a in t && Stride(e, ps).Take?
    requires var c := Stride(e, ps).n;
      && Clear(t, At(a, e), ps[c..], verb, parse, edges, end)
      && HeadDecodes(a, e, end, Text(ps[..c]), parse)
    requires forall gs, n :: Cuts(t, a, ps, verb, parse, gs, n) ==> !Precedes(gs, [e] + edges)
    ensures Clear(t, a, ps, verb, parse, [e] + edges, end)
  {
    hide Cuts, HeadDecodes, Stride, Text;
    assert ([e] + edges)[1..] == edges;
  }

  /** The clear runs through an edge are clear below it. */
  lemma {:induction false} ClearTail(t: Trie, a: Addr, ps: seq<Part>, verb: string, parse: Parser, fs: seq<Edge>,
                                     end: Option<Method>)
    requires Clear(t, a, ps, verb, parse, fs, end) && fs != []
    ensures a in t && At(a, fs[0]) in t && !Stride(fs[0], ps).Miss?
    ensures Stride(fs[0], ps).Take? ==>
      Clear(t, At(a, fs[0]), ps[Stride(fs[0], ps).n..], verb, parse, fs[1..], end)
    ensures Stride(fs[0], ps).Crash? ==> fs == [fs[0]] && end == None
    ensures forall gs, n :: Cuts(t, a, ps, verb, parse, gs, n) ==> !Precedes(gs, fs)
  {
    hide Cuts, HeadDecodes, Stride, Text;
  }

  lemma {:induction false} CutsBelow(t: Trie, a: Addr, ps: seq<Part>, verb: string, parse: Parser, gs: seq<Edge>,
                                     n: Method)
    requires Cuts(t, a, ps, verb, parse, gs, n)
    ensures gs != [] && gs[0].Var? && At(a, gs[0]) in t && Stride(gs[0], ps).Take?
    ensures var c := Stride(gs[0], ps).n;
      && Clear(t, At(a, gs[0]), ps[c..], verb, parse, gs[1..], Some(n))
      && !HeadDecodes(a, gs[0], Some(n), Text(ps[..c]), parse)
  {
    hide Clear, HeadDecodes, Stride, Text;
  }

  lemma {:induction false} ClearStart(t: Trie, a: Addr, ps: seq<Part>, verb: string, parse: Parser, end: Option<Method>)
    requires ps != []
    ensures !Clear(t, a, ps, verb, parse, [], end)
  {
  }

  /** Below a literal edge: nothing cuts a run through it. */
  lemma {:induction false} EndsLit(t: Trie, a: Addr, ps: seq<Part>, verb: string, parse: Parser, r: Result,
                                   edges: seq<Edge>)
    requires a in t && ps != []
    requires var e := Lit([ps[0].sep] + ps[0].text);
      !r.Missing? && Ends(t, At(a, e), ps[1..], verb, parse, r, edges)
    ensures Ends(t, a, ps, verb, parse, r, [Lit([ps[0].sep] + ps[0].text)] + edges)
  {
    hide Text, Caught, Decoded, ParamsOf, Clear;
    var e, end := Lit([ps[0].sep] + ps[0].text), if r.Found? then Some(r.m) else None;
    forall gs: seq<Edge>, n: Method | Cuts(t, a, ps, verb, parse, gs, n) ensures !Precedes(gs, [e] + edges) {
      if Precedes(gs, [e] + edges) {
        CutBefore(gs, e, edges);
      }
    }
    ClearCons(t, a, e, ps, verb, parse, edges, end);
    LitCaught(e, ps, edges);
  }

  lemma {:induction false} LitCaught(e: Edge, ps: seq<Part>, edges: seq<Edge>)
    requires e.Lit? && Stride(e, ps).Take?
    ensures Caught([e] + edges, ps) == Caught(edges, ps[Stride(e, ps).n..])
  {
    assert ([e] + edges)[1..] == edges;
  }

  /** What was found below a variable edge, with its capture in front. */
  lemma {:induction false} VarCaught(a: Addr, e: Edge, ps: seq<Part>, parse: Parser, sub: Result, taken: seq<Token>,
                                     edges: seq<Edge>)
    requires e.Var? && Stride(e, ps).Take? && sub.Found?
    requires var c := Stride(e, ps).n;
      var vars, texts := sub.m.vars, Caught(edges, ps[c..]);
      && |vars| == VarCount(a) + 1 + |texts| && |sub.ps| == |texts|
      && Decoded(vars[VarCount(a) + 1..], texts, parse)
      && sub.ps == ParamsOf(vars[VarCount(a) + 1..], texts, parse)
      && Render(taken) == Text(ps[..c])
    ensures var r, all := Capture(sub.m, sub.ps, taken, parse), Caught([e] + edges, ps);
      && (r.Found? <==> HeadDecodes(a, e, Some(sub.m), Text(ps[..Stride(e, ps).n]), parse))
      && !r.Crashed?
      && (r.Found? ==>
            && r.m == sub.m && |r.m.vars| == VarCount(a) + |all|
            && Decoded(r.m.vars[VarCount(a)..], all, parse) && r.ps == ParamsOf(r.m.vars[VarCount(a)..], all, parse))
  {
    hide Text, Stride, Render, Decoded;
    var c := Stride(e, ps).n;
    var vars, texts := sub.m.vars[VarCount(a)..], Caught(edges, ps[c..]);
    assert ([e] + edges)[1..] == edges;
    assert vars[1..] == sub.m.vars[VarCount(a) + 1..];
    assert ([Text(ps[..c])] + texts)[1..] == texts;
    assert vars[0] == sub.m.vars[|sub.m.vars| - |sub.ps| - 1];
    if vars[0] == [] || parse(vars[0], Text(ps[..c])).Some? {
      DecodedCons(vars, Text(ps[..c]), texts, parse);
    }
  }

  lemma {:induction false} EndsBelow(t: Trie, a: Addr, ps: seq<Part>, verb: string, parse: Parser, r: Result,
                                     edges: seq<Edge>)
    requires r.Found? && Ends(t, a, ps, verb, parse, r, edges)
    ensures var vars, texts := r.m.vars, Caught(edges, ps);
      && Clear(t, a, ps, verb, parse, edges, Some(r.m))
      && |vars| == VarCount(a) + |texts| && |r.ps| == |texts|
      && Decoded(vars[VarCount(a)..], texts, parse) && r.ps == ParamsOf(vars[VarCount(a)..], texts, parse)
  {
    hide Clear, Caught, Decoded;
    ParamsLength(r.m.vars[VarCount(a)..], Caught(edges, ps), parse);
  }

  lemma {:induction false} ParamsLength(vars: seq<FieldPath>, texts: seq<string>, parse: Parser)
    requires |vars| == |texts|
    ensures |ParamsOf(vars, texts, parse)| == |vars|
  {
    if vars != [] {
      ParamsLength(vars[1..], texts[1..], parse);
    }
  }

  /** What cuts the search starts at the i-th variable or a later one. */
  lemma {:induction false} PassedCuts(t: Trie, a: Addr, ps: seq<Part>, verb: string, parse: Parser, i: nat,
                                      gs: seq<Edge>, n: Method)
    requires Wf(t) && a in t && i < |t[a].vars| && Passed(t, a, ps, verb, parse, i)
    requires Cuts(t, a, ps, verb, parse, gs, n)
    ensures gs != [] && gs[0].Var? && !Less(gs[0].name, t[a].vars[i].name)
  {
    hide Cuts, Clear, Stride, Text, HeadDecodes;
    CutsBelow(t, a, ps, verb, parse, gs, n);
    assert GoodVars(t, a) && HasVar(t[a].vars, gs[0].name);
    var j :| 0 <= j < |t[a].vars| && t[a].vars[j].name == gs[0].name;
    assert j >= i;
    LessTotal(t[a].vars[i].name, gs[0].name);
  }

  /** Nothing cuts the least clear run through the i-th variable, unless its own capture does
      not decode. */
  lemma {:induction false} NothingCuts(t: Trie, a: Addr, ps: seq<Part>, verb: string, parse: Parser, i: nat, r: Result,
                                       edges: seq<Edge>, end: Option<Method>)
    requires Wf(t) && a in t && i < |t[a].vars| && Passed(t, a, ps, verb, parse, i)
    requires var e := Var(t[a].vars[i].name);
      && Stride(e, ps).Take?
      && var c := Stride(e, ps).n;
      && Clear(t, At(a, e), ps[c..], verb, parse, edges, end)
      && LeastOf(t, At(a, e), ps[c..], verb, parse, r, edges)
      && HeadDecodes(a, e, end, Text(ps[..c]), parse)
    ensures forall gs, n :: Cuts(t, a, ps, verb, parse, gs, n) ==> !Precedes(gs, [Var(t[a].vars[i].name)] + edges)
  {
    hide Clear, Cuts, Stride, Text, HeadDecodes;
    var e := Var(t[a].vars[i].name);
    assert GoodVars(t, a);
    forall gs: seq<Edge>, n: Method | Cuts(t, a, ps, verb, parse, gs, n) ensures !Precedes(gs, [e] + edges) {
      if Precedes(gs, [e] + edges) {
        CutsBelow(t, a, ps, verb, parse, gs, n);
        CutBefore(gs, e, edges);
        PassedCuts(t, a, ps, verb, parse, i, gs, n);
        var c := Stride(e, ps).n;
        PrecedesAntisymmetric(edges, gs[1..]);
        ClearRuns(t, At(a, e), ps[c..], verb, parse, edges, end);
        ClearRuns(t, At(a, e), ps[c..], verb, parse, gs[1..], Some(n));
        RunEnds(t, At(a, e), ps[c..], verb, edges, end, Some(n));
      }
    }
  }

  /** A hit on the i-th variable precedes whatever the later ones give. */
  lemma {:induction false} LeastHit(t: Trie, a: Addr, ps: seq<Part>, verb: string, parse: Parser, i: nat, sub: Result,
                                    edges: seq<Edge>, r: Result)
    requires Wf(t) && a in t && i < |t[a].vars|
    requires var e := Var(t[a].vars[i].name);
      Stride(e, ps).Take? && LeastOf(t, At(a, e), ps[Stride(e, ps).n..], verb, parse, sub, edges)
    requires !r.Missing?
    ensures LeastFrom(t, a, ps, verb, parse, i, r, [Var(t[a].vars[i].name)] + edges)
  {
    hide Clear, Stride;
    var e := Var(t[a].vars[i].name);
    assert GoodVars(t, a);
    forall fs, end, j |
      i <= j < |t[a].vars| && Clear(t, a, ps, verb, parse, fs, end) && fs != [] && fs[0] == Var(t[a].vars[j].name)
      ensures Precedes([e] + edges, fs)
    {
      assert ([e] + edges)[1..] == edges;
      ClearTail(t, a, ps, verb, parse, fs, end);
    }
  }

  /** When its capture does not decode, neither the i-th nor a later variable gives anything. */
  lemma {:induction false} LeastCut(t: Trie, a: Addr, ps: seq<Part>, verb: string, parse: Parser, i: nat, sub: Result,
                                    edges: seq<Edge>, r: Result)
    requires Wf(t) && a in t && i < |t[a].vars|
    requires var e := Var(t[a].vars[i].name);
      && Stride(e, ps).Take? && LeastOf(t, At(a, e), ps[Stride(e, ps).n..], verb, parse, sub, edges)
      && sub.Found? && Cuts(t, a, ps, verb, parse, [e] + edges, sub.m)
    ensures LeastFrom(t, a, ps, verb, parse, i, r, [Var(t[a].vars[i].name)] + edges)
  {
    hide Clear, Stride, Cuts;
    var e := Var(t[a].vars[i].name);
    assert GoodVars(t, a);
    forall fs, end, j |
      i <= j < |t[a].vars| && Clear(t, a, ps, verb, parse, fs, end) && fs != [] && fs[0] == Var(t[a].vars[j].name)
      ensures false
    {
      assert ([e] + edges)[1..] == edges;
      ClearTail(t, a, ps, verb, parse, fs, end);
      assert Precedes([e] + edges, fs);
    }
  }

  /** So does a panic at the i-th variable. */
  lemma {:induction false} LeastCrash(t: Trie, a: Addr, ps: seq<Part>, verb: string, parse: Parser, i: nat)
    requires Wf(t) && a in t && i < |t[a].vars| && Stride(Var(t[a].vars[i].name), ps) == Crash
    requires Passed(t, a, ps, verb, parse, i)
    ensures Clear(t, a, ps, verb, parse, [Var(t[a].vars[i].name)], None)
    ensures LeastFrom(t, a, ps, verb, parse, i, Crashed, [Var(t[a].vars[i].name)])
  {
    hide Cuts, Stride, Text, HeadDecodes, Passed;
    var e, none: seq<Edge> := Var(t[a].vars[i].name), [];
    assert GoodVars(t, a) && HasVar(t[a].vars, e.name);
    assert [e] == [e] + none;
    forall gs: seq<Edge>, n: Method | Cuts(t, a, ps, verb, parse, gs, n) ensures !Precedes(gs, [e]) {
      CutsBelow(t, a, ps, verb, parse, gs, n);
      PassedCuts(t, a, ps, verb, parse, i, gs, n);
      if Precedes(gs, [e]) {
        CutBefore(gs, e, none);
      }
    }
    forall fs, end, j |
      i <= j < |t[a].vars| && Clear(t, a, ps, verb, parse, fs, end) && fs != [] && fs[0] == Var(t[a].vars[j].name)
      ensures Precedes([e], fs)
    {
      ClearTail(t, a, ps, verb, parse, fs, end);
    }
  }

  /** A variable below which there is no clear run. */
  lemma {:induction false} LeastSkip(t: Trie, a: Addr, ps: seq<Part>, verb: string, parse: Parser, i: nat, r: Result,
                                     edges: seq<Edge>)
    requires a in t && i < |t[a].vars|
    requires LeastFrom(t, a, ps, verb, parse, i + 1, r, edges)
    requires var c := Stride(Var(t[a].vars[i].name), ps);
      && !c.Crash?
      && (c.Take? ==> forall fs, e :: !Clear(t, At(a, Var(t[a].vars[i].name)), ps[c.n..], verb, parse, fs, e))
    ensures LeastFrom(t, a, ps, verb, parse, i, r, edges)
  {
    hide Clear, Stride;
    var e := Var(t[a].vars[i].name);
    forall fs: seq<Edge>, end: Option<Method> | fs != [] && fs[0] == e
      ensures !Clear(t, a, ps, verb, parse, fs, end)
    {
      if Clear(t, a, ps, verb, parse, fs, end) {
        ClearTail(t, a, ps, verb, parse, fs, end);
      }
    }
  }

  lemma {:induction false} PassedNext(t: Trie, a: Addr, ps: seq<Part>, verb: string, parse: Parser, i: nat)
    requires a in t && i < |t[a].vars| && Passed(t, a, ps, verb, parse, i)
    requires var c := Stride(Var(t[a].vars[i].name), ps);
      c.Take? ==> forall fs, e :: !Clear(t, At(a, Var(t[a].vars[i].name)), ps[c.n..], verb, parse, fs, e)
    ensures Passed(t, a, ps, verb, parse, i + 1)
  {
    hide Clear, Cuts, Stride, Text, HeadDecodes;
    forall gs: seq<Edge>, n: Method, j: nat | j <= i && Cuts(t, a, ps, verb, parse, gs, n)
      ensures gs != [] && gs[0] != Var(t[a].vars[j].name)
    {
      CutsBelow(t, a, ps, verb, parse, gs, n);
    }
  }

  /** Nothing is left: the node itself answers. */
  lemma {:induction false} SearchEnd(t: Trie, a: Addr, toks: seq<Token>, verb: string, parse: Parser)
    requires Wf(t) && a in t && Ready(toks, [])
    ensures Ends(t, a, [], verb, parse, Search(t, a, toks, verb, parse), [])
    ensures LeastOf(t, a, [], verb, parse, Search(t, a, toks, verb, parse), [])
  {
    var r := Search(t, a, toks, verb, parse);
    if r.Found? {
      assert Aligned(t, a);
      assert r.m.vars[VarCount(a)..] == [];
    }
  }

  /** The literal child answers. */
  lemma {:induction false} LeastLit(t: Trie, a: Addr, ps: seq<Part>, verb: string, parse: Parser, r: Result,
                                    edges: seq<Edge>)
    requires Wf(t) && a in t && ps != []
    requires var e := Lit([ps[0].sep] + ps[0].text);
      !r.Missing? && LeastOf(t, At(a, e), ps[1..], verb, parse, r, edges)
    ensures LeastOf(t, a, ps, verb, parse, r, [Lit([ps[0].sep] + ps[0].text)] + edges)
  {
    hide Clear, Wf;
    var e := Lit([ps[0].sep] + ps[0].text);
    assert ([e] + edges)[1..] == edges;
    forall fs, end | Clear(t, a, ps, verb, parse, fs, end) ensures Precedes([e] + edges, fs) {
      if fs == [] {
        ClearStart(t, a, ps, verb, parse, end);
      } else {
        ClearTail(t, a, ps, verb, parse, fs, end);
      }
    }
  }

  /** The literal child does not answer, so the variables decide. */
  lemma {:induction false} LeastAll(t: Trie, a: Addr, ps: seq<Part>, verb: string, parse: Parser, r: Result,
                                    edges: seq<Edge>)
    requires Wf(t) && a in t && ps != []
    requires forall fs, e :: !Clear(t, At(a, Lit([ps[0].sep] + ps[0].text)), ps[1..], verb, parse, fs, e)
    requires LeastFrom(t, a, ps, verb, parse, 0, r, edges)
    ensures LeastOf(t, a, ps, verb, parse, r, edges)
  {
    hide Clear;
    assert GoodVars(t, a);
    forall fs: seq<Edge>, end: Option<Method> | Clear(t, a, ps, verb, parse, fs, end)
      ensures !r.Missing? && Precedes(edges, fs)
    {
      if fs == [] {
        ClearStart(t, a, ps, verb, parse, end);
      } else {
        ClearTail(t, a, ps, verb, parse, fs, end);
        assert fs[0].Var?;
        assert HasVar(t[a].vars, fs[0].name);
        var j :| 0 <= j < |t[a].vars| && t[a].vars[j].name == fs[0].name;
        assert fs[0] == Var(t[a].vars[j].name);
      }
    }
  }

  lemma {:induction false} SearchUnfold(t: Trie, a: Addr, ps: seq<Part>, verb: string, parse: Parser)
    requires Wf(t) && a in t && GoodRoute(ps) && ps != []
    ensures Search(t, a, RouteTokens(ps), verb, parse) ==
      var child := At(a, Lit([ps[0].sep] + ps[0].text));
      var first := if child in t then Search(t, child, RouteTokens(ps[1..]), verb, parse) else Missing(ErrNotFound);
      if first.Missing? then SearchVars(t, a, RouteTokens(ps), verb, parse, 0) else first
  {
    RouteAt(ps, 0);
    RouteAt(ps, 1);
    assert GoodPart(ps[0]);
  }

  /** The i-th variable takes `n` tokens, or none, or panics. */
  lemma {:induction false} SearchVarsUnfold(t: Trie, a: Addr, toks: seq<Token>, verb: string, parse: Parser, i: nat)
    requires Wf(t) && a in t && i < |t[a].vars| && |toks| > 1
    ensures At(a, Var(t[a].vars[i].name)) in t
    ensures var taken := IndexFrom(t[a].vars[i].toks, toks[1..], 0);
      && (taken.Miss? ==> SearchVars(t, a, toks, verb, parse, i) == SearchVars(t, a, toks, verb, parse, i + 1))
      && (taken.Crash? || (taken.Take? && taken.n + 1 > |toks|) ==> SearchVars(t, a, toks, verb, parse, i) == Crashed)
      && (taken.Take? && taken.n + 1 <= |toks| ==>
            var r := Search(t, At(a, Var(t[a].vars[i].name)), toks[taken.n + 1..], verb, parse);
            && (r.Crashed? ==> SearchVars(t, a, toks, verb, parse, i) == Crashed)
            && (r.Missing? ==> SearchVars(t, a, toks, verb, parse, i) == SearchVars(t, a, toks, verb, parse, i + 1))
            && (r.Found? ==> SearchVars(t, a, toks, verb, parse, i) == Capture(r.m, r.ps, toks[1..taken.n + 1], parse)))
  {
    assert GoodVars(t, a) && HasVar(t[a].vars, t[a].vars[i].name);
  }

  /** The tokens that are left after the i-th variable. */
  function Left(t: Trie, a: Addr, ps: seq<Part>, i: nat): seq<Token>
    requires a in t && i < |t[a].vars| && ps != []
  {
    var taken := IndexFrom(t[a].vars[i].toks, RouteTokens(ps)[1..], 0);
    if taken.Take? && taken.n + 1 <= |RouteTokens(ps)| then RouteTokens(ps)[taken.n + 1..] else []
  }

  /** The i-th variable, in terms of parts. */
  lemma {:induction false} VariableStep(t: Trie, a: Addr, ps: seq<Part>, verb: string, parse: Parser, i: nat)
    returns (taken: seq<Token>)
    requires Wf(t) && PlainTrie(t) && a in t && GoodRoute(ps) && ps != [] && i < |t[a].vars|
    ensures var e, next := Var(t[a].vars[i].name), SearchVars(t, a, RouteTokens(ps), verb, parse, i + 1);
      var c, here := Stride(e, ps), SearchVars(t, a, RouteTokens(ps), verb, parse, i);
      && At(a, e) in t
      && (c.Miss? ==> here == next)
      && (c.Crash? ==> here == Crashed)
      && (c.Take? ==>
            var sub := Search(t, At(a, e), Left(t, a, ps, i), verb, parse);
            && Ready(Left(t, a, ps, i), ps[c.n..])
            && Render(taken) == Text(ps[..c.n])
            && (sub.Crashed? ==> here == Crashed)
            && (sub.Missing? ==> here == next)
            && (sub.Found? ==> here == Capture(sub.m, sub.ps, taken, parse)))
  {
    hide IsPattern, PatternOf, Reach, GoodRoute, PlainTokens, RouteTokens, Search, SearchVars, Text, Render, IndexFrom,
      Ready, Capture;
    var v, toks := t[a].vars[i], RouteTokens(ps);
    SearchVarsUnfold(t, a, toks, verb, parse, i);
    assert GoodVars(t, a);
    VariableTakes(v, ps);
    var c := Stride(Var(v.name), ps);
    taken := [];
    if c.Take? {
      var n := IndexFrom(v.toks, toks[1..], 0).n;
      TakesMeans(n, c.n, ps);
      taken := toks[1..n + 1];
    }
  }

  /* ---- The search ---- */

  /** On every route and with every decoder: what is found, or panics, is the least clear run,
      with its decoded captures as parameters. */
  lemma {:induction false} SearchFrom(t: Trie, a: Addr, ps: seq<Part>, toks: seq<Token>, verb: string, parse: Parser)
    returns (edges: seq<Edge>)
    requires Wf(t) && PlainTrie(t) && a in t && GoodRoute(ps) && Ready(toks, ps)
    ensures Ends(t, a, ps, verb, parse, Search(t, a, toks, verb, parse), edges)
    ensures LeastOf(t, a, ps, verb, parse, Search(t, a, toks, verb, parse), edges)
    decreases |ps|, 1, 0
  {
    if ps == [] {
      SearchEnd(t, a, toks, verb, parse);
      return [];
    }
    hide Wf, PlainTrie, Search, SearchVars, Ends, LeastOf, LeastFrom, Clear, Passed;
    SearchUnfold(t, a, ps, verb, parse);
    var e := Lit([ps[0].sep] + ps[0].text);
    if At(a, e) in t {
      edges := SearchFrom(t, At(a, e), ps[1..], RouteTokens(ps[1..]), verb, parse);
      var r := Search(t, At(a, e), RouteTokens(ps[1..]), verb, parse);
      if !r.Missing? {
        EndsLit(t, a, ps, verb, parse, r, edges);
        LeastLit(t, a, ps, verb, parse, r, edges);
        edges := [e] + edges;
        return;
      }
      NoneClear(t, At(a, e), ps[1..], verb, parse, r, edges);
    } else {
      NoNode(t, At(a, e), ps[1..], verb, parse);
    }
    PassedNone(t, a, ps, verb, parse);
    edges := SearchVarsFrom(t, a, ps, verb, parse, 0);
    LeastAll(t, a, ps, verb, parse, SearchVars(t, a, RouteTokens(ps), verb, parse, 0), edges);
  }

  lemma {:induction false} NoNode(t: Trie, a: Addr, ps: seq<Part>, verb: string, parse: Parser)
    requires a !in t
    ensures forall fs, e :: !Clear(t, a, ps, verb, parse, fs, e)
  {
  }

  lemma {:induction false} NoneClear(t: Trie, a: Addr, ps: seq<Part>, verb: string, parse: Parser, r: Result,
                                     edges: seq<Edge>)
    requires LeastOf(t, a, ps, verb, parse, r, edges) && r.Missing?
    ensures forall fs, e :: !Clear(t, a, ps, verb, parse, fs, e)
  {
  }

  lemma {:induction false} PassedNone(t: Trie, a: Addr, ps: seq<Part>, verb: string, parse: Parser)
    requires a in t
    ensures Passed(t, a, ps, verb, parse, 0)
  {
  }

  lemma {:induction false} MissingEnds(t: Trie, a: Addr, ps: seq<Part>, verb: string, parse: Parser, r: Result,
                                       edges: seq<Edge>)
    requires r.Missing?
    ensures Ends(t, a, ps, verb, parse, r, edges)
  {
  }

  lemma {:induction false} CrashEnds(t: Trie, a: Addr, ps: seq<Part>, verb: string, parse: Parser, edges: seq<Edge>)
    ensures Ends(t, a, ps, verb, parse, Crashed, edges) <==> Clear(t, a, ps, verb, parse, edges, None)
  {
  }

  lemma {:induction false} NoVariable(t: Trie, a: Addr, ps: seq<Part>, verb: string, parse: Parser)
    requires Wf(t) && a in t && ps != []
    ensures SearchVars(t, a, RouteTokens(ps), verb, parse, |t[a].vars|) == Missing(ErrNotFound)
    ensures LeastFrom(t, a, ps, verb, parse, |t[a].vars|, Missing(ErrNotFound), [])
  {
  }

  lemma {:induction false} SearchVarsFrom(t: Trie, a: Addr, ps: seq<Part>, verb: string, parse: Parser, i: nat)
    returns (edges: seq<Edge>)
    requires Wf(t) && PlainTrie(t) && a in t && GoodRoute(ps) && ps != []
    requires i <= |t[a].vars| && Passed(t, a, ps, verb, parse, i)
    ensures Ends(t, a, ps, verb, parse, SearchVars(t, a, RouteTokens(ps), verb, parse, i), edges)
    ensures LeastFrom(t, a, ps, verb, parse, i, SearchVars(t, a, RouteTokens(ps), verb, parse, i), edges)
    decreases |ps|, 0, |t[a].vars| - i
  {
    hide Wf, PlainTrie, Search, SearchVars, Ends, LeastOf, LeastFrom, Clear, Passed, Stride, Left;
    if i == |t[a].vars| {
      NoVariable(t, a, ps, verb, parse);
      MissingEnds(t, a, ps, verb, parse, Missing(ErrNotFound), []);
      return [];
    }
    var e := Var(t[a].vars[i].name);
    var c, left := Stride(e, ps), Left(t, a, ps, i);
    var taken := VariableStep(t, a, ps, verb, parse, i);
    if c.Crash? {
      LeastCrash(t, a, ps, verb, parse, i);
      CrashEnds(t, a, ps, verb, parse, [e]);
      return [e];
    }
    if c.Take? {
      edges := SearchFrom(t, At(a, e), ps[c.n..], left, verb, parse);
      var r := Search(t, At(a, e), left, verb, parse);
      if !r.Missing? {
        if r.Found? {
          VariableHit(t, a, ps, verb, parse, i, r, taken, edges);
        } else {
          VariableCrash(t, a, ps, verb, parse, i, r, edges);
        }
        edges := [e] + edges;
        return;
      }
      NoneClear(t, At(a, e), ps[c.n..], verb, parse, r, edges);
    }
    PassedNext(t, a, ps, verb, parse, i);
    edges := SearchVarsFrom(t, a, ps, verb, parse, i + 1);
    LeastSkip(t, a, ps, verb, parse, i, SearchVars(t, a, RouteTokens(ps), verb, parse, i + 1), edges);
  }

  /** The search below the i-th variable panicked. */
  lemma {:induction false} VariableCrash(t: Trie, a: Addr, ps: seq<Part>, verb: string, parse: Parser, i: nat,
                                         sub: Result, edges: seq<Edge>)
    requires Wf(t) && a in t && i < |t[a].vars| && Passed(t, a, ps, verb, parse, i)
    requires var e := Var(t[a].vars[i].name);
      && Stride(e, ps).Take? && sub.Crashed?
      && Ends(t, At(a, e), ps[Stride(e, ps).n..], verb, parse, sub, edges)
      && LeastOf(t, At(a, e), ps[Stride(e, ps).n..], verb, parse, sub, edges)
    ensures var e := Var(t[a].vars[i].name);
      && Ends(t, a, ps, verb, parse, Crashed, [e] + edges)
      && LeastFrom(t, a, ps, verb, parse, i, Crashed, [e] + edges)
  {
    hide Wf, LeastOf, LeastFrom, Clear, Stride, Ends, Passed, Cuts, Text;
    var e := Var(t[a].vars[i].name);
    CrashEnds(t, At(a, e), ps[Stride(e, ps).n..], verb, parse, edges);
    NothingCuts(t, a, ps, verb, parse, i, sub, edges, None);
    ClearCons(t, a, e, ps, verb, parse, edges, None);
    CrashEnds(t, a, ps, verb, parse, [e] + edges);
    LeastHit(t, a, ps, verb, parse, i, sub, edges, Crashed);
  }

  /** The search below the i-th variable found a method: its capture decodes, or ends the search
      at `a`. */
  lemma {:induction false} VariableHit(t: Trie, a: Addr, ps: seq<Part>, verb: string, parse: Parser, i: nat,
                                       sub: Result, taken: seq<Token>, edges: seq<Edge>)
    requires Wf(t) && a in t && i < |t[a].vars| && Passed(t, a, ps, verb, parse, i)
    requires var e := Var(t[a].vars[i].name);
      && Stride(e, ps).Take?
      && var rest := ps[Stride(e, ps).n..];
      && sub.Found? && |sub.m.vars| == |sub.ps| + VarCount(a) + 1
      && Ends(t, At(a, e), rest, verb, parse, sub, edges)
      && LeastOf(t, At(a, e), rest, verb, parse, sub, edges)
      && Render(taken) == Text(ps[..Stride(e, ps).n])
    requires At(a, Var(t[a].vars[i].name)) in t
    ensures var e, r := Var(t[a].vars[i].name), Capture(sub.m, sub.ps, taken, parse);
      && Ends(t, a, ps, verb, parse, r, [e] + edges)
      && LeastFrom(t, a, ps, verb, parse, i, r, [e] + edges)
  {
    hide Wf, LeastOf, LeastFrom, Clear, Stride, Passed, Capture, Text, HeadDecodes, Caught, Decoded, Render, ParamsOf;
    var e, r := Var(t[a].vars[i].name), Capture(sub.m, sub.ps, taken, parse);
    var c := Stride(e, ps).n;
    EndsBelow(t, At(a, e), ps[c..], verb, parse, sub, edges);
    VarCaught(a, e, ps, parse, sub, taken, edges);
    if r.Found? {
      NothingCuts(t, a, ps, verb, parse, i, sub, edges, Some(sub.m));
      ClearCons(t, a, e, ps, verb, parse, edges, Some(sub.m));
      LeastHit(t, a, ps, verb, parse, i, sub, edges, r);
    } else {
      assert ([e] + edges)[1..] == edges;
      assert Cuts(t, a, ps, verb, parse, [e] + edges, sub.m);
      LeastCut(t, a, ps, verb, parse, i, sub, edges, r);
    }
  }

  /* ---- Errors ---- */

  ghost predicate CutShort(t: Trie, a: Addr, ps: seq<Part>, verb: string, parse: Parser) {
    exists gs, n :: Cuts(t, a, ps, verb, parse, gs, n)
  }

  /** A capture that does not decode. */
  lemma {:induction false} CaptureError(m: Method, ps: seq<Param>, taken: seq<Token>, parse: Parser)
    requires |ps| < |m.vars|
    ensures Capture(m, ps, taken, parse).Missing? ==> Capture(m, ps, taken, parse).err == ErrParam
  {
  }

  /** The error of the loop over the variables says whether a capture did not decode. */
  lemma {:induction false} VarsError(t: Trie, a: Addr, ps: seq<Part>, verb: string, parse: Parser, i: nat)
    requires Wf(t) && PlainTrie(t) && a in t && GoodRoute(ps) && ps != []
    requires i <= |t[a].vars| && Passed(t, a, ps, verb, parse, i)
    requires SearchVars(t, a, RouteTokens(ps), verb, parse, i).Missing?
    ensures SearchVars(t, a, RouteTokens(ps), verb, parse, i).err ==
      if Passed(t, a, ps, verb, parse, |t[a].vars|) then ErrNotFound else ErrParam
    decreases |t[a].vars| - i
  {
    hide Wf, PlainTrie, Search, SearchVars, Ends, LeastOf, Clear, Cuts, Stride, Left, Capture, Text, HeadDecodes,
      Caught, Decoded, Render, ParamsOf;
    if i == |t[a].vars| {
      NoVariable(t, a, ps, verb, parse);
      return;
    }
    var e := Var(t[a].vars[i].name);
    var c, left := Stride(e, ps), Left(t, a, ps, i);
    var taken := VariableStep(t, a, ps, verb, parse, i);
    if c.Take? {
      var edges := SearchFrom(t, At(a, e), ps[c.n..], left, verb, parse);
      var r := Search(t, At(a, e), left, verb, parse);
      if r.Found? {
        CaptureError(r.m, r.ps, taken, parse);
        HitCuts(t, a, e, ps, verb, parse, r, taken, edges);
        assert !Passed(t, a, ps, verb, parse, |t[a].vars|);
        return;
      }
      NoneClear(t, At(a, e), ps[c.n..], verb, parse, r, edges);
    }
    PassedNext(t, a, ps, verb, parse, i);
    VarsError(t, a, ps, verb, parse, i + 1);
  }

  /** What was found below a variable whose capture does not decode is cut off. */
  lemma {:induction false} HitCuts(t: Trie, a: Addr, e: Edge, ps: seq<Part>, verb: string, parse: Parser, sub: Result,
                                   taken: seq<Token>, edges: seq<Edge>)
    requires e.Var? && At(a, e) in t && Stride(e, ps).Take? && sub.Found?
    requires Ends(t, At(a, e), ps[Stride(e, ps).n..], verb, parse, sub, edges)
    requires Render(taken) == Text(ps[..Stride(e, ps).n])
    requires |sub.m.vars| == |sub.ps| + VarCount(a) + 1 && Capture(sub.m, sub.ps, taken, parse).Missing?
    ensures Cuts(t, a, ps, verb, parse, [e] + edges, sub.m)
  {
    hide Clear, Stride, Capture, Text, HeadDecodes, Caught, Decoded, Render, ParamsOf;
    EndsBelow(t, At(a, e), ps[Stride(e, ps).n..], verb, parse, sub, edges);
    VarCaught(a, e, ps, parse, sub, taken, edges);
    assert ([e] + edges)[1..] == edges;
  }

  /** The error of a search that finds nothing: the method is wrong exactly when no part of the
      route is left, and a parameter exactly when a capture at this node did not decode. */
  lemma {:induction false} MissingError(t: Trie, a: Addr, ps: seq<Part>, verb: string, parse: Parser)
    requires Wf(t) && PlainTrie(t) && a in t && GoodRoute(ps)
    ensures var r := Search(t, a, RouteTokens(ps), verb, parse);
      r.Missing? ==>
        r.err == if ps == [] then ErrMethod else if CutShort(t, a, ps, verb, parse) then ErrParam else ErrNotFound
  {
    if ps != [] {
      hide PlainTrie, Search, SearchVars, Cuts;
      SearchUnfold(t, a, ps, verb, parse);
      PassedNone(t, a, ps, verb, parse);
      if Search(t, a, RouteTokens(ps), verb, parse).Missing? {
        VarsError(t, a, ps, verb, parse, 0);
        CutIffPassed(t, a, ps, verb, parse);
      }
    }
  }

  lemma {:induction false} CutIffPassed(t: Trie, a: Addr, ps: seq<Part>, verb: string, parse: Parser)
    requires Wf(t) && a in t
    ensures CutShort(t, a, ps, verb, parse) <==> !Passed(t, a, ps, verb, parse, |t[a].vars|)
  {
    hide Clear, Stride, Text, HeadDecodes;
    assert GoodVars(t, a);
    if CutShort(t, a, ps, verb, parse) {
      var gs: seq<Edge>, n: Method :| Cuts(t, a, ps, verb, parse, gs, n);
      assert gs[0] == Var(gs[0].name) && At(a, Var(gs[0].name)) in t;
      var j :| 0 <= j < |t[a].vars| && t[a].vars[j].name == gs[0].name;
      assert gs[0] == Var(t[a].vars[j].name);
    }
  }

  /* ---- Clear runs ---- */

  /** When the captures of all runs decode, every run is clear. */
  lemma {:induction false} RunsClear(t: Trie, a: Addr, ps: seq<Part>, verb: string, parse: Parser, edges: seq<Edge>,
                                     end: Option<Method>)
    requires Runs(t, a, ps, verb, edges, end) && AllDecode(t, a, ps, verb, parse)
    ensures Clear(t, a, ps, verb, parse, edges, end)
    decreases |edges|
  {
    if edges != [] {
      hide AllDecode, Text, HeadDecodes, Stride;
      forall gs, n ensures !Cuts(t, a, ps, verb, parse, gs, n) {
        NoCuts(t, a, ps, verb, parse, gs, n);
      }
      var e := edges[0];
      if Stride(e, ps).Take? {
        DecodeBelow(t, a, e, ps, verb, parse);
        RunsClear(t, At(a, e), ps[Stride(e, ps).n..], verb, parse, edges[1..], end);
        if end.Some? {
          RunHead(t, a, ps, verb, parse, e, edges[1..], end.value);
        } else {
          CrashHead(a, e, Text(ps[..Stride(e, ps).n]), parse);
        }
      }
    }
  }

  lemma {:induction false} CrashHead(a: Addr, e: Edge, text: string, parse: Parser)
    ensures HeadDecodes(a, e, None, text, parse)
  {
  }

  lemma {:induction false} RunHead(t: Trie, a: Addr, ps: seq<Part>, verb: string, parse: Parser, e: Edge,
                                   edges: seq<Edge>, m: Method)
    requires a in t && Stride(e, ps).Take? && AllDecode(t, a, ps, verb, parse)
    requires Runs(t, At(a, e), ps[Stride(e, ps).n..], verb, edges, Some(m))
    ensures HeadDecodes(a, e, Some(m), Text(ps[..Stride(e, ps).n]), parse)
  {
    hide Runs, Stride, Text, Decoded, Caught;
    RunCons(t, a, e, ps, verb, edges, Some(m));
    assert RunDecodes(t, a, ps, verb, parse, [e] + edges, m);
    if e.Var? {
      DecodedTail(m.vars[VarCount(a)..], Text(ps[..Stride(e, ps).n]), Caught(edges, ps[Stride(e, ps).n..]), parse);
    }
  }

  lemma {:induction false} NoCuts(t: Trie, a: Addr, ps: seq<Part>, verb: string, parse: Parser, gs: seq<Edge>,
                                  n: Method)
    requires a in t && AllDecode(t, a, ps, verb, parse)
    ensures !Cuts(t, a, ps, verb, parse, gs, n)
  {
    hide AllDecode, Clear, Cuts, Text, HeadDecodes, Stride;
    if Cuts(t, a, ps, verb, parse, gs, n) {
      CutsBelow(t, a, ps, verb, parse, gs, n);
      var c := Stride(gs[0], ps).n;
      ClearRuns(t, At(a, gs[0]), ps[c..], verb, parse, gs[1..], Some(n));
      RunHead(t, a, ps, verb, parse, gs[0], gs[1..], n);
    }
  }

  /* ---- Runs and derivations ---- */

  /** Where the index cannot overshoot, the search takes what the edge declares. */
  lemma {:induction false} StrideAgrees(e: Edge, ps: seq<Part>)
    requires e.Var? && IsPattern(e.name) ==> NoColon(ps) || Shallow(PatternOf(e.name))
    ensures Agrees(Stride(e, ps), Consumed(e, ps))
  {
    if e.Var? && IsPattern(e.name) && ps != [] {
      assert ps[0..] == ps;
      if NoColon(ps) {
        ReachNoColon(PatternOf(e.name), ps, 0);
      } else {
        ReachFront(PatternOf(e.name), ps);
      }
    }
  }

  lemma {:induction false} TameEdge(t: Trie, a: Addr, e: Edge, ps: seq<Part>)
    requires Wf(t) && PlainTrie(t) && Tame(t, ps) && a in t && At(a, e) in t
    ensures Agrees(Stride(e, ps), Consumed(e, ps))
  {
    if e.Var? && !NoColon(ps) {
      assert GoodVars(t, a) && HasVar(t[a].vars, e.name);
      var i :| 0 <= i < |t[a].vars| && t[a].vars[i].name == e.name;
      PlainMeans(t[a].vars[i]);
    }
    StrideAgrees(e, ps);
  }

  lemma {:induction false} TameRest(t: Trie, ps: seq<Part>, c: nat)
    requires Tame(t, ps) && c <= |ps|
    ensures Tame(t, ps[c..])
  {
  }

  /** There, the runs are the derivations, with the same captures, and none panics. */
  lemma {:induction false} RunsAreDerivations(t: Trie, a: Addr, ps: seq<Part>, verb: string, edges: seq<Edge>)
    requires Wf(t) && PlainTrie(t) && Tame(t, ps)
    ensures !Runs(t, a, ps, verb, edges, None)
    ensures forall m :: Runs(t, a, ps, verb, edges, Some(m)) <==> Accepts(t, a, ps, verb, edges, m)
    ensures forall m :: Runs(t, a, ps, verb, edges, Some(m)) ==> Caught(edges, ps) == Captures(edges, ps)
    decreases |edges|
  {
    hide Wf, PlainTrie, Tame, Stride, Consumed, Text;
    if a in t && edges != [] && At(a, edges[0]) in t {
      TameEdge(t, a, edges[0], ps);
      if Consumed(edges[0], ps).Some? {
        var c := Consumed(edges[0], ps).value;
        TameRest(t, ps, c);
        RunsAreDerivations(t, At(a, edges[0]), ps[c..], verb, edges[1..]);
      }
    } else if a in t && edges != [] {
      DeadEnd(t, At(a, edges[0]), verb);
    }
  }

  lemma {:induction false} DeadEnd(t: Trie, a: Addr, verb: string)
    requires a !in t
    ensures forall ps, fs, m :: !Accepts(t, a, ps, verb, fs, m)
  {
  }

  /** The decoder accepts every text that a derivation can capture. */
  ghost predicate Total(parse: Parser) {
    forall fds: FieldPath, ps :: fds != [] && ps != [] && GoodRoute(ps) && NoColon(ps) ==> parse(fds, Text(ps)).Some?
  }

  lemma {:induction false} ExtentSlashes(pat: seq<Segment>, ps: seq<Part>)
    requires Plain(pat) && Extent(pat, ps).Some?
    ensures NoColon(ps[..Extent(pat, ps).value])
  {
    var c := Extent(pat, ps).value;
    if |pat| > 1 {
      ExtentSlashes(pat[1..], ps[1..]);
      forall i | 1 <= i < c ensures ps[..c][i].sep == '/' {
        if i > 1 {
          assert ps[1..][..c - 1][i - 1] == ps[i];
        }
      }
    } else {
      forall i | 1 <= i < c ensures ps[..c][i].sep == '/' {
        assert ps[1..][i - 1] == ps[i];
      }
    }
  }

  /** A method has one field path for each variable of a run to it. */
  lemma {:induction false} Counted(t: Trie, a: Addr, ps: seq<Part>, verb: string, edges: seq<Edge>, m: Method)
    requires Wf(t) && Runs(t, a, ps, verb, edges, Some(m))
    ensures |m.vars| == VarCount(a) + |Caught(edges, ps)|
    decreases |edges|
  {
    if edges == [] {
      assert Aligned(t, a);
    } else {
      Counted(t, At(a, edges[0]), ps[Stride(edges[0], ps).n..], verb, edges[1..], m);
    }
  }

  /** A total decoder decodes the captures of every derivation. */
  lemma {:induction false} TotalDecodes(t: Trie, a: Addr, ps: seq<Part>, verb: string, edges: seq<Edge>, m: Method,
                                        parse: Parser)
    requires Accepts(t, a, ps, verb, edges, m) && GoodRoute(ps) && Total(parse)
    ensures forall vars: seq<FieldPath> :: |vars| == |Captures(edges, ps)| ==> Decoded(vars, Captures(edges, ps), parse)
    decreases |edges|
  {
    if edges != [] {
      var c := Consumed(edges[0], ps).value;
      TotalDecodes(t, At(a, edges[0]), ps[c..], verb, edges[1..], m, parse);
      if edges[0].Var? {
        TotalEdge(edges[0].name, ps, Captures(edges[1..], ps[c..]), parse);
      }
    }
  }

  lemma {:induction false} TotalEdge(name: string, ps: seq<Part>, texts: seq<string>, parse: Parser)
    requires Consumed(Var(name), ps).Some? && GoodRoute(ps) && Total(parse)
    requires forall vars: seq<FieldPath> :: |vars| == |texts| ==> Decoded(vars, texts, parse)
    ensures var c := Consumed(Var(name), ps).value;
      forall vars: seq<FieldPath> :: |vars| == |texts| + 1 ==> Decoded(vars, [Text(ps[..c])] + texts, parse)
  {
    hide Text, Decoded, Extent;
    var c := Consumed(Var(name), ps).value;
    ExtentSlashes(PatternOf(name), ps);
    forall vars: seq<FieldPath> | |vars| == |texts| + 1 ensures Decoded(vars, [Text(ps[..c])] + texts, parse) {
      DecodedCons(vars, Text(ps[..c]), texts, parse);
    }
  }
}
