/** From a template to a tree to a match: the only rule of a tree answers every path that
    fills in its template, with the texts that were filled in. */
module RoundTrip {
  import opened Options
  import opened Characters
  import opened Tokens
  import opened Grammar
  import opened Route
  import opened Tries
  import opened Matching
  import opened Running
  import opened Rules
  import opened Lexers
  import opened Compile
  import Registry
  import PathSearch
  import Routing

  const BARE: Trie := map[Root := EMPTY]

  /* ---- Filling in a template ---- */

  predicate GoodTexts(texts: seq<string>) {
    forall i :: 0 <= i < |texts| ==> texts[i] != "" && AllChars(IsPath, texts[i])
  }

  predicate FitsOne(x: Segment, text: string) {
    x.Word? ==> x.text == text
  }

  /** One text for each segment of a pattern, and at least one for a final `**`. */
  predicate FitsPattern(pat: seq<Segment>, texts: seq<string>)
    requires pat != []
  {
    && texts != [] && FitsOne(pat[0], texts[0])
    && if |pat| == 1 then pat[0].DeepWild? || |texts| == 1
       else !pat[0].DeepWild? && FitsPattern(pat[1..], texts[1..])
  }

  /** The pattern of a segment. */
  function PatternFor(x: Segment): (pat: seq<Segment>)
    requires GoodSegment(x)
    ensures pat != []
  {
    match x
    case Field(_) => [Wild]
    case Bind(_, pat) => assert GoodList(pat); pat
    case _ => [x]
  }

  /** Every segment is filled in; `**` stands only at the very end. */
  predicate Fits(ss: seq<Segment>, chunks: seq<seq<string>>)
    requires forall i :: 0 <= i < |ss| ==> GoodSegment(ss[i])
  {
    |ss| == |chunks| && forall i :: 0 <= i < |ss| ==>
      && FitsPattern(PatternFor(ss[i]), chunks[i]) && GoodTexts(chunks[i])
      && (i < |ss| - 1 ==> !Deep(PatternFor(ss[i])))
  }

  function Slashes(texts: seq<string>, rest: seq<Part>): seq<Part> {
    if texts == [] then rest else [Part('/', texts[0])] + Slashes(texts[1..], rest)
  }

  function VerbParts(verb: Option<string>): seq<Part> {
    if verb.None? then [] else [Part(':', verb.value)]
  }

  /** The parts of a path that fills in the segments of a template and goes on with `rest`. */
  function Fill(chunks: seq<seq<string>>, rest: seq<Part>): seq<Part> {
    if chunks == [] then rest else Slashes(chunks[0], Fill(chunks[1..], rest))
  }

  function JoinSlash(texts: seq<string>): string
    requires texts != []
  {
    if |texts| == 1 then texts[0] else texts[0] + ("/" + JoinSlash(texts[1..]))
  }

  /** What the variables of a template capture; the last one also takes the text `more`. */
  function Captured(ss: seq<Segment>, chunks: seq<seq<string>>, more: string): seq<string>
    requires |ss| == |chunks| && forall i :: 0 <= i < |chunks| ==> chunks[i] != []
  {
    if ss == [] then []
    else
      var text := JoinSlash(chunks[0]) + if |ss| == 1 then more else "";
      (if ss[0].Word? then [] else [text]) + Captured(ss[1..], chunks[1..], more)
  }

  /* ---- Extents ---- */

  lemma {:induction false} SlashesLength(texts: seq<string>, rest: seq<Part>)
    ensures |Slashes(texts, rest)| == |texts| + |rest|
    ensures Slashes(texts, rest)[|texts|..] == rest
    ensures forall i :: 0 <= i < |texts| ==> Slashes(texts, rest)[i] == Part('/', texts[i])
  {
    if texts != [] {
      SlashesLength(texts[1..], rest);
    }
  }

  lemma {:induction false} SlashesText(texts: seq<string>)
    requires texts != []
    ensures Slashes(texts, []) != [] && Text(Slashes(texts, [])) == JoinSlash(texts)
    ensures PrintRoute(Slashes(texts, [])) == "/" + JoinSlash(texts)
  {
    var ps := Slashes(texts, []);
    if |texts| == 1 {
      assert texts[0] + "" == texts[0];
    } else {
      SlashesText(texts[1..]);
    }
    assert ps[1..] == Slashes(texts[1..], []);
  }

  lemma {:induction false} SlashesPrefix(texts: seq<string>, rest: seq<Part>)
    ensures |Slashes(texts, rest)| >= |texts| && Slashes(texts, rest)[..|texts|] == Slashes(texts, [])
  {
    if texts != [] {
      SlashesPrefix(texts[1..], rest);
      assert Slashes(texts, rest)[..|texts|] == [Part('/', texts[0])] + Slashes(texts[1..], rest)[..|texts| - 1];
    }
  }

  predicate Stops(rest: seq<Part>) {
    rest == [] || rest[0].sep == ':'
  }

  lemma {:induction false} RunOfSlashes(texts: seq<string>, rest: seq<Part>)
    requires Stops(rest)
    ensures SlashRun(Slashes(texts, rest)) == |texts|
  {
    if texts != [] {
      RunOfSlashes(texts[1..], rest);
    }
  }

  /** The texts that fill in a pattern are what the pattern matches. */
  lemma {:induction false} FitsExtent(pat: seq<Segment>, texts: seq<string>, rest: seq<Part>)
    requires Plain(pat) && FitsPattern(pat, texts)
    requires Deep(pat) ==> Stops(rest)
    ensures Extent(pat, Slashes(texts, rest)) == Some(|texts|)
    ensures forall i :: 0 <= i < |pat| - 1 ==> !pat[i].DeepWild?
    decreases |pat|
  {
    var ps := Slashes(texts, rest);
    assert ps[1..] == Slashes(texts[1..], rest);
    if |pat| == 1 {
      if pat[0].DeepWild? {
        RunOfSlashes(texts[1..], rest);
      }
    } else {
      FitsExtent(pat[1..], texts[1..], rest);
      assert forall i :: 0 < i < |pat| - 1 ==> pat[i] == pat[1..][i - 1];
    }
  }

  /* ---- One step ---- */

  /** The step that a flat segment compiles to. */
  function StepFor(x: Segment, desc: Desc): Step
    requires GoodSegment(x)
  {
    match x
    case Word(w) => LitStep("/" + w)
    case Field(p) => VarStep([Token(Star, "*")], FieldPathOf(desc, p))
    case Bind(p, pat) => VarStep(ListTokens(pat, []), FieldPathOf(desc, p))
    case _ => VarStep(SegmentTokens(x, []), [])
  }

  lemma {:induction false} StepTokens(x: Segment, desc: Desc)
    requires GoodSegment(x) && (x.Bind? ==> Plain(x.pattern)) && !x.Word?
    ensures Plain(PatternFor(x)) && GoodList(PatternFor(x))
    ensures StepFor(x, desc).VarStep? && StepFor(x, desc).toks == ListTokens(PatternFor(x), [])
  {
  }

  lemma {:induction false} EdgePattern(pat: seq<Segment>)
    requires Plain(pat) && GoodList(pat)
    ensures var name := Render(ListTokens(pat, []));
      IsPattern(name) && PatternOf(name) == pat
  {
    ListText(pat, []);
    ListComplete(pat, "");
  }

  /** How many parts of `rest` the variable of a segment takes too many: one for each segment
      before its `**`. */
  function Over(x: Segment, rest: seq<Part>): nat
    requires GoodSegment(x)
  {
    if Deep(PatternFor(x)) && rest != [] then |PatternFor(x)| - 1 else 0
  }

  /** What the step of a segment takes from the texts that fill it in and what follows them. */
  lemma {:induction false} StepStride(x: Segment, desc: Desc, texts: seq<string>, rest: seq<Part>)
    requires GoodSegment(x) && (x.Bind? ==> Plain(x.pattern))
    requires FitsPattern(PatternFor(x), texts) && (Deep(PatternFor(x)) ==> Stops(rest))
    ensures Stride(EdgeOf(StepFor(x, desc)), Slashes(texts, rest)) ==
      if Over(x, rest) > |rest| then Crash else Take(|texts| + Over(x, rest))
  {
    hide GoodSegment, IsPattern, PatternOf, Render, FitsPattern, Reach, Slashes, ListTokens, Plain, Stops;
    NotEmptyTexts(PatternFor(x), texts);
    SlashesLength(texts, rest);
    if x.Word? {
      WordStride(x, desc, texts, rest);
    } else {
      StepTokens(x, desc);
      EdgePattern(PatternFor(x));
      FillReach(PatternFor(x), texts, rest);
    }
  }

  /** How far the index of a pattern gets on the texts that fill it in and what follows them. */
  lemma {:induction false} FillReach(pat: seq<Segment>, texts: seq<string>, rest: seq<Part>)
    requires Plain(pat) && FitsPattern(pat, texts) && texts != [] && (Deep(pat) ==> Stops(rest))
    ensures Slashes(texts, rest) != []
    ensures Reach(pat, Slashes(texts, rest), 0) == Take(|texts| + if Deep(pat) && rest != [] then |pat| - 1 else 0)
  {
    hide FitsPattern, Reach, Extent, Plain, Slashes;
    var ps := Slashes(texts, rest);
    SlashesLength(texts, rest);
    FitsExtent(pat, texts, rest);
    assert ps[0..] == ps;
    if Deep(pat) && rest != [] {
      assert ps[|texts|] == rest[0];
      assert !NoColon(ps);
      ReachColon(pat, ps, 0);
    } else if Deep(pat) {
      ReachNoColon(pat, ps, 0);
    } else {
      ReachFront(pat, ps);
    }
  }

  lemma {:induction false} NotEmptyTexts(pat: seq<Segment>, texts: seq<string>)
    requires pat != [] && FitsPattern(pat, texts)
    ensures texts != []
  {
  }

  lemma {:induction false} WordStride(x: Segment, desc: Desc, texts: seq<string>, rest: seq<Part>)
    requires GoodSegment(x) && x.Word? && FitsPattern(PatternFor(x), texts)
    ensures Stride(EdgeOf(StepFor(x, desc)), Slashes(texts, rest)) == Take(1) && |texts| == 1 && !Deep(PatternFor(x))
  {
  }

  /** The text that the step takes. */
  lemma {:induction false} StepText(texts: seq<string>, rest: seq<Part>, o: nat)
    requires texts != [] && o <= |rest|
    ensures var ps := Slashes(texts, rest);
      && |ps| == |texts| + |rest| && ps[|texts| + o..] == rest[o..]
      && Text(ps[..|texts| + o]) == JoinSlash(texts) + PrintRoute(rest[..o])
  {
    var ps := Slashes(texts, rest);
    SlashesLength(texts, rest);
    SlashesPrefix(texts, rest);
    SlashesText(texts);
    assert ps[|texts| + o..] == ps[|texts|..][o..];
    assert ps[..|texts| + o] == Slashes(texts, []) + rest[..o];
    PrintAppend(Slashes(texts, [])[1..], rest[..o]);
    assert (Slashes(texts, []) + rest[..o])[1..] == Slashes(texts, [])[1..] + rest[..o];
  }

  lemma {:induction false} PrintAppend(a: seq<Part>, b: seq<Part>)
    ensures PrintRoute(a + b) == PrintRoute(a) + PrintRoute(b)
  {
    if a == [] {
      assert a + b == b;
    } else {
      PrintAppend(a[1..], b);
      assert (a + b)[1..] == a[1..] + b;
      assert [a[0].sep] + (a[0].text + (PrintRoute(a[1..]) + PrintRoute(b))) ==
             [a[0].sep] + (a[0].text + PrintRoute(a[1..])) + PrintRoute(b);
    }
  }

  /* ---- The tree of one rule ---- */

  /** From `a` down there is nothing but the way along `steps`. */
  ghost predicate Chain(t: Trie, a: Addr, steps: seq<Step>)
    decreases |steps|
  {
    && a in t
    && (forall e :: At(a, e) in t <==> steps != [] && e == EdgeOf(steps[0]))
    && (steps != [] ==> Chain(t, At(a, EdgeOf(steps[0])), steps[1..]))
  }

  lemma {:induction false} TrackDepth(a: Addr, steps: seq<Step>, x: Addr)
    requires x in Track(a, steps)
    ensures Depth(x) > Depth(a)
    ensures Depth(x) == Depth(a) + 1 ==> x == At(a, EdgeOf(steps[0]))
    decreases |steps|
  {
    var b := At(a, EdgeOf(steps[0]));
    if x != b {
      TrackDepth(b, steps[1..], x);
    }
  }

  /** The nodes deeper than `a` are those that the steps visit. */
  lemma {:induction false} TrackIsChain(t: Trie, a: Addr, steps: seq<Step>)
    requires a in t && forall x :: x in t && Depth(x) > Depth(a) <==> x in Track(a, steps)
    ensures Chain(t, a, steps)
    decreases |steps|
  {
    forall e ensures At(a, e) in t <==> steps != [] && e == EdgeOf(steps[0]) {
      if At(a, e) in t {
        assert At(a, e) in Track(a, steps);
        TrackDepth(a, steps, At(a, e));
      }
      if steps != [] && e == EdgeOf(steps[0]) {
        assert At(a, e) in Track(a, steps);
      }
    }
    if steps != [] {
      var b := At(a, EdgeOf(steps[0]));
      forall x ensures x in t && Depth(x) > Depth(b) <==> x in Track(b, steps[1..]) {
        if x in t && Depth(x) > Depth(b) {
          assert x in Track(a, steps);
        }
        if x in Track(b, steps[1..]) {
          TrackDepth(b, steps[1..], x);
          assert x in Track(a, steps);
        }
      }
      TrackIsChain(t, b, steps[1..]);
    }
  }

  function Edges(steps: seq<Step>): seq<Edge> {
    if steps == [] then [] else [EdgeOf(steps[0])] + Edges(steps[1..])
  }

  /** Only the end of the chain answers the verb, and with `m`. */
  ghost predicate Sole(t: Trie, x: Addr, verb: string, m: Method) {
    forall y :: y in t ==> MethodAt(t[y], verb) == if y == x then Some(m) else None
  }

  lemma {:induction false} DestBelow(a: Addr, steps: seq<Step>)
    ensures Depth(Dest(a, steps)) == Depth(a) + |steps|
    decreases |steps|
  {
    if steps != [] {
      DestBelow(At(a, EdgeOf(steps[0])), steps[1..]);
    }
  }

  /** Where a path ends on its way along `edges`: it is taken whole, or not, or panics. */
  function Trace(edges: seq<Edge>, ps: seq<Part>): (r: Taken)
    ensures r.Take? ==> r.n == 0
  {
    if edges == [] then if ps == [] then Take(0) else Miss
    else
      var c := Stride(edges[0], ps);
      if c.Take? then Trace(edges[1..], ps[c.n..]) else c
  }

  /** On a chain there is one run at most, along its steps, and it ends as the trace does. */
  lemma {:induction false} OneWay(t: Trie, a: Addr, steps: seq<Step>, ps: seq<Part>, verb: string, fs: seq<Edge>,
                                  end: Option<Method>, m: Method)
    requires Chain(t, a, steps) && Sole(t, Dest(a, steps), verb, m)
    requires Runs(t, a, ps, verb, fs, end)
    ensures end == if Trace(Edges(steps), ps).Take? then Some(m) else None
    ensures end.Some? ==> fs == Edges(steps)
    ensures !Trace(Edges(steps), ps).Miss?
    decreases |steps|
  {
    DestBelow(a, steps);
    if steps != [] {
      assert Edges(steps)[1..] == Edges(steps[1..]);
    }
    if steps != [] && fs != [] && Stride(fs[0], ps).Take? {
      var b := At(a, EdgeOf(steps[0]));
      assert fs[0] == EdgeOf(steps[0]);
      OneWay(t, b, steps[1..], ps[Stride(fs[0], ps).n..], verb, fs[1..], end, m);
      assert fs == [fs[0]] + fs[1..];
    }
  }

  /** The trace of a path is a run. */
  lemma {:induction false} TraceRuns(t: Trie, a: Addr, steps: seq<Step>, ps: seq<Part>, verb: string, m: Method)
    returns (fs: seq<Edge>)
    requires Chain(t, a, steps) && Sole(t, Dest(a, steps), verb, m)
    ensures Trace(Edges(steps), ps).Take? ==> fs == Edges(steps) && Runs(t, a, ps, verb, fs, Some(m))
    ensures Trace(Edges(steps), ps).Crash? ==> Runs(t, a, ps, verb, fs, None)
    decreases |steps|
  {
    fs := [];
    if steps != [] {
      var e := EdgeOf(steps[0]);
      var c := Stride(e, ps);
      assert Edges(steps)[1..] == Edges(steps[1..]);
      fs := [e];
      if c.Take? {
        var rest := TraceRuns(t, At(a, e), steps[1..], ps[c.n..], verb, m);
        fs := [e] + rest;
        assert fs[1..] == rest;
      }
    }
  }

  /* ---- The trace of a filled path ---- */

  function VerbSteps(verb: Option<string>): seq<Step> {
    if verb.None? then [] else [LitStep(":" + verb.value)]
  }

  function StepsFor(ss: seq<Segment>, verb: Option<string>, desc: Desc): seq<Step>
    requires forall i :: 0 <= i < |ss| ==> GoodSegment(ss[i])
  {
    if ss == [] then VerbSteps(verb) else [StepFor(ss[0], desc)] + StepsFor(ss[1..], verb, desc)
  }

  lemma {:induction false} CompiledSteps(ss: seq<Segment>, verb: Option<string>, desc: Desc)
    requires forall i :: 0 <= i < |ss| ==> GoodSegment(ss[i])
    requires CompileList(ss, verb, desc).end.Arrived?
    ensures CompileList(ss, verb, desc).steps == StepsFor(ss, verb, desc)
    decreases |ss|
  {
    if ss != [] {
      CompiledSteps(ss[1..], verb, desc);
      assert [Token(Star, "*")] + [] == [Token(Star, "*")] && [Token(StarStar, "**")] + [] == [Token(StarStar, "**")];
    }
  }

  lemma {:induction false} FitsTail(ss: seq<Segment>, chunks: seq<seq<string>>)
    requires forall i :: 0 <= i < |ss| ==> GoodSegment(ss[i])
    requires Fits(ss, chunks) && ss != []
    ensures |chunks| == |ss| && (|ss| > 1 ==> !Deep(PatternFor(ss[0])))
    ensures Fits(ss[1..], chunks[1..]) && FitsPattern(PatternFor(ss[0]), chunks[0]) && GoodTexts(chunks[0])
    ensures forall i :: 0 <= i < |chunks| ==> chunks[i] != []
  {
    forall i | 0 <= i < |ss[1..]|
      ensures FitsPattern(PatternFor(ss[1..][i]), chunks[1..][i]) && GoodTexts(chunks[1..][i])
      ensures i < |ss[1..]| - 1 ==> !Deep(PatternFor(ss[1..][i]))
    {
      assert ss[1..][i] == ss[i + 1] && chunks[1..][i] == chunks[i + 1];
    }
  }

  /** How many parts of `rest` the last variable takes too many. */
  function Overshoot(ss: seq<Segment>, rest: seq<Part>): nat
    requires forall i :: 0 <= i < |ss| ==> GoodSegment(ss[i])
  {
    if ss == [] then 0 else Over(ss[|ss| - 1], rest)
  }

  /** What may follow a path that fills in a template: after a final `**` only a colon. */
  predicate Follows(ss: seq<Segment>, rest: seq<Part>)
    requires forall i :: 0 <= i < |ss| ==> GoodSegment(ss[i])
  {
    ss != [] && Deep(PatternFor(ss[|ss| - 1])) ==> Stops(rest)
  }

  /** Where a path ends that fills in the segments and goes on with `rest`. */
  function Finish(ss: seq<Segment>, verb: Option<string>, rest: seq<Part>): Taken
    requires forall i :: 0 <= i < |ss| ==> GoodSegment(ss[i])
  {
    var o := Overshoot(ss, rest);
    if o > |rest| then Crash
    else if rest[o..] == VerbParts(verb) then Take(0)
    else Miss
  }

  /** The steps of a template on a path that fills in its segments: the last variable takes
      `Overshoot` parts too many, and what is left has to be the verb. */
  lemma {:induction false} FillTrace(ss: seq<Segment>, chunks: seq<seq<string>>, verb: Option<string>, rest: seq<Part>,
                                     desc: Desc)
    requires (forall i :: 0 <= i < |ss| ==> GoodSegment(ss[i])) && Flat(ss) && Fits(ss, chunks)
    requires Follows(ss, rest)
    ensures forall i :: 0 <= i < |chunks| ==> chunks[i] != []
    ensures var es, ps := Edges(StepsFor(ss, verb, desc)), Fill(chunks, rest);
      && Trace(es, ps) == Finish(ss, verb, rest)
      && (Trace(es, ps).Take? ==> Caught(es, ps) == Captured(ss, chunks, PrintRoute(rest[..Overshoot(ss, rest)])))
    decreases |ss|
  {
    if ss == [] {
      NoneTrace(chunks, verb, rest, desc);
    } else {
      FitsTail(ss, chunks);
      FlatHead(ss);
      FinishTail(ss, verb, rest);
      if |ss| == 1 {
        LastTrace(ss[0], chunks[0], verb, rest, desc);
        OneChunk(ss, chunks, rest);
      } else {
        hide Trace, Caught, Captured, Stride, Fits, Flat, GoodSegment, FitsPattern, Overshoot, Follows, Finish,
          StepFor, PatternFor, Edges, Fill, PrintRoute;
        var steps := StepsFor(ss, verb, desc);
        assert steps[1..] == StepsFor(ss[1..], verb, desc);
        FillTrace(ss[1..], chunks[1..], verb, rest, desc);
        MoreStride(ss[0], chunks, rest, desc);
        FillStep(ss, chunks, steps, rest, verb, desc);
      }
    }
  }

  lemma {:induction false} OneChunk(ss: seq<Segment>, chunks: seq<seq<string>>, rest: seq<Part>)
    requires |ss| == |chunks| == 1
    ensures ss == [ss[0]] && chunks == [chunks[0]] && Fill(chunks, rest) == Slashes(chunks[0], rest)
  {
  }

  lemma {:induction false} MoreStride(x: Segment, chunks: seq<seq<string>>, rest: seq<Part>, desc: Desc)
    requires chunks != [] && GoodSegment(x) && (x.Bind? ==> Plain(x.pattern))
    requires FitsPattern(PatternFor(x), chunks[0]) && !Deep(PatternFor(x))
    ensures Stride(EdgeOf(StepFor(x, desc)), Fill(chunks, rest)) == Take(|chunks[0]|)
  {
    StepStride(x, desc, chunks[0], Fill(chunks[1..], rest));
  }

  lemma {:induction false} NoneTrace(chunks: seq<seq<string>>, verb: Option<string>, rest: seq<Part>, desc: Desc)
    requires chunks == []
    ensures var es, ps := Edges(StepsFor([], verb, desc)), Fill(chunks, rest);
      && Trace(es, ps) == Finish([], verb, rest)
      && (Trace(es, ps).Take? ==> Caught(es, ps) == Captured([], chunks, PrintRoute(rest[..0])))
  {
    VerbTrace(verb, rest);
    assert rest[0..] == rest;
  }

  /** The outcome depends on the last segment only. */
  lemma {:induction false} FinishTail(ss: seq<Segment>, verb: Option<string>, rest: seq<Part>)
    requires |ss| > 0 && forall i :: 0 <= i < |ss| ==> GoodSegment(ss[i])
    ensures |ss| > 1 ==>
      Overshoot(ss[1..], rest) == Overshoot(ss, rest) && Finish(ss[1..], verb, rest) == Finish(ss, verb, rest)
    ensures |ss| > 1 ==> (Follows(ss[1..], rest) <==> Follows(ss, rest))
    ensures |ss| == 1 ==> ss == [ss[0]] && Overshoot(ss, rest) == Over(ss[0], rest)
    ensures |ss| == 1 && Follows(ss, rest) && Deep(PatternFor(ss[0])) ==> Stops(rest)
  {
  }

  lemma {:induction false} FlatHead(ss: seq<Segment>)
    requires Flat(ss) && ss != []
    ensures Flat(ss[1..]) && (ss[0].Bind? ==> Plain(ss[0].pattern))
  {
  }

  /** One segment that is not the last. */
  lemma {:induction false} FillStep(ss: seq<Segment>, chunks: seq<seq<string>>, steps: seq<Step>, rest: seq<Part>,
                                    verb: Option<string>, desc: Desc)
    requires |ss| == |chunks| > 1 && GoodSegment(ss[0]) && forall i :: 0 <= i < |chunks| ==> chunks[i] != []
    requires steps != [] && steps[0] == StepFor(ss[0], desc)
    requires Stride(EdgeOf(steps[0]), Fill(chunks, rest)) == Take(|chunks[0]|)
    ensures var es, ps := Edges(steps), Fill(chunks, rest);
      && Trace(es, ps) == Trace(Edges(steps[1..]), Fill(chunks[1..], rest))
      && forall more :: Caught(Edges(steps[1..]), Fill(chunks[1..], rest)) == Captured(ss[1..], chunks[1..], more) ==>
           Caught(es, ps) == Captured(ss, chunks, more)
  {
    hide Stride, Text, Slashes, GoodSegment;
    var after := Fill(chunks[1..], rest);
    StepText(chunks[0], after, 0);
    assert after[0..] == after && PrintRoute(after[..0]) == "";
    assert Edges(steps)[1..] == Edges(steps[1..]);
  }

  /** The last segment and what follows it. */
  lemma {:induction false} LastTrace(x: Segment, texts: seq<string>, verb: Option<string>, rest: seq<Part>, desc: Desc)
    requires GoodSegment(x) && (x.Bind? ==> Plain(x.pattern))
    requires FitsPattern(PatternFor(x), texts) && (Deep(PatternFor(x)) ==> Stops(rest))
    ensures texts != []
    ensures var es, ps := Edges(StepsFor([x], verb, desc)), Slashes(texts, rest);
      && Trace(es, ps) == Finish([x], verb, rest)
      && (Trace(es, ps).Take? ==> Caught(es, ps) == Captured([x], [texts], PrintRoute(rest[..Over(x, rest)])))
  {
    hide Stride, Text, Slashes, GoodSegment, FitsPattern, VerbSteps, PatternFor, Over, PrintRoute, JoinSlash, VerbParts;
    var o, steps := Over(x, rest), StepsFor([x], verb, desc);
    NotEmptyTexts(PatternFor(x), texts);
    StepStride(x, desc, texts, rest);
    assert steps == [StepFor(x, desc)] + VerbSteps(verb) by {
      assert [x][1..] == [];
      assert StepsFor([x][1..], verb, desc) == VerbSteps(verb);
    }
    assert Edges(steps)[1..] == Edges(VerbSteps(verb));
    if o <= |rest| {
      StepText(texts, rest, o);
      VerbTrace(verb, rest[o..]);
      assert [texts][1..] == [];
    }
  }

  lemma {:induction false} VerbTrace(verb: Option<string>, rest: seq<Part>)
    ensures Trace(Edges(VerbSteps(verb)), rest) == if rest == VerbParts(verb) then Take(0) else Miss
    ensures Caught(Edges(VerbSteps(verb)), rest) == []
  {
    if verb.Some? {
      var e, none: seq<Edge> := Lit(":" + verb.value), [];
      assert Edges(VerbSteps(verb)) == [e] && [e][1..] == none;
      if rest != [] {
        assert [rest[0].sep] + rest[0].text == ":" + verb.value <==> rest[0] == Part(':', verb.value) by {
          assert ([rest[0].sep] + rest[0].text)[1..] == rest[0].text && (":" + verb.value)[1..] == verb.value;
          assert ([rest[0].sep] + rest[0].text)[0] == rest[0].sep;
        }
        assert rest == [rest[0]] + rest[1..];
      }
    }
  }

  /* ---- The only rule of a tree ---- */

  predicate Serves(verb: string, q: string) {
    verb == "*" || q == verb
  }

  lemma {:induction false} BareGood()
    ensures Wf(BARE) && NoStar(BARE) && PlainTrie(BARE)
  {
    assert Sorted([]);
    forall x | x in BARE ensures GoodVars(BARE, x) && Aligned(BARE, x) {
    }
  }

  /** The syntax of the rule's template. */
  function SegmentsOf(rule: HttpRule): (ss: seq<Segment>)
    requires !rule.pattern.Unset? && TemplateFits(rule.pattern.tmpl)
    ensures forall i :: 0 <= i < |ss| ==> GoodSegment(ss[i])
  {
    GoodElements(ParseTemplate(rule.pattern.tmpl).value.segments);
    ParseTemplate(rule.pattern.tmpl).value.segments
  }

  function VerbPartOf(rule: HttpRule): Option<string>
    requires !rule.pattern.Unset? && TemplateFits(rule.pattern.tmpl)
  {
    ParseTemplate(rule.pattern.tmpl).value.verb
  }

  /** A rule that was added has a flat template, and its steps are those of its segments. */
  lemma {:induction false} AddedSteps(t: Trie, rule: HttpRule, desc: Desc, name: string)
    requires Wf(t) && NoStar(t) && AddOne(t, rule, desc, name).1.Added?
    ensures !rule.pattern.Unset? && TemplateFits(rule.pattern.tmpl)
    ensures Flat(SegmentsOf(rule))
    ensures WalkOf(rule, desc) == Walked(StepsFor(SegmentsOf(rule), VerbPartOf(rule), desc), Arrived)
  {
    AddOneExact(t, rule, desc, name);
    Registry.ArrivedIsFlat(rule, desc);
    CompiledSteps(SegmentsOf(rule), VerbPartOf(rule), desc);
  }

  /** The tree of one rule is a chain, and only its end answers the rule's verb. */
  lemma {:induction false} OneRule(rule: HttpRule, desc: Desc, name: string, q: string)
    requires Wf(BARE) && NoStar(BARE) && PlainTrie(BARE)
    requires AddOne(BARE, rule, desc, name).1.Added?
    ensures var u := AddOne(BARE, rule, desc, name).0;
      && Target(rule, desc).Some? && MethodFor(rule, desc, name).Built?
      && Wf(u) && NoStar(u) && PlainTrie(u)
      && Chain(u, Root, WalkOf(rule, desc).steps)
      && (Serves(VerbOf(rule.pattern), q) ==>
            Sole(u, Dest(Root, WalkOf(rule, desc).steps), q, MethodFor(rule, desc, name).m))
  {
    var u, steps := AddOne(BARE, rule, desc, name).0, WalkOf(rule, desc).steps;
    AddOneExact(BARE, rule, desc, name);
    Registry.AddOnePlain(BARE, rule, desc, name);
    forall x ensures x in u && Depth(x) > Depth(Root) <==> x in Track(Root, steps) {
      if x in Track(Root, steps) {
        TrackDepth(Root, steps, x);
      }
    }
    TrackIsChain(u, Root, steps);
    if Serves(VerbOf(rule.pattern), q) {
      SoleMethod(u, Dest(Root, steps), VerbOf(rule.pattern), q, MethodFor(rule, desc, name).m);
    }
  }

  lemma {:induction false} SoleMethod(u: Trie, x: Addr, verb: string, q: string, m: Method)
    requires NoStar(u) && Adds(BARE, u, x, verb, m) && Serves(verb, q)
    ensures Sole(u, x, q, m)
  {
    forall y | y in u ensures MethodAt(u[y], q) == if y == x then Some(m) else None {
      assert Bound(u, y, q) == if y == x && q == verb then Some(m) else Bound(BARE, y, q);
      assert Bound(u, y, "*") == if y == x && "*" == verb then Some(m) else Bound(BARE, y, "*");
    }
  }

  lemma {:induction false} SlashesGood(texts: seq<string>, rest: seq<Part>)
    requires GoodTexts(texts) && GoodRoute(rest)
    ensures GoodRoute(Slashes(texts, rest))
  {
    if texts != [] {
      SlashesGood(texts[1..], rest);
    }
  }

  lemma {:induction false} FillGood(ss: seq<Segment>, chunks: seq<seq<string>>, rest: seq<Part>)
    requires forall i :: 0 <= i < |ss| ==> GoodSegment(ss[i])
    requires Fits(ss, chunks) && GoodRoute(rest)
    ensures GoodRoute(Fill(chunks, rest))
    decreases |ss|
  {
    if ss != [] {
      FitsTail(ss, chunks);
      FillGood(ss[1..], chunks[1..], rest);
      SlashesGood(chunks[0], Fill(chunks[1..], rest));
    }
  }

  /** Adding a rule to an empty tree. */
  function Alone(rule: HttpRule, desc: Desc, name: string): (p: (Trie, RuleResult))
    ensures Wf(p.0)
    ensures p.1.Added? ==> !rule.pattern.Unset? && TemplateFits(rule.pattern.tmpl)
  {
    BareGood();
    AddOneExact(BARE, rule, desc, name);
    AddOne(BARE, rule, desc, name)
  }

  lemma {:induction false} VerbGood(rule: HttpRule)
    requires !rule.pattern.Unset? && TemplateFits(rule.pattern.tmpl)
    ensures GoodRoute(VerbParts(VerbPartOf(rule)))
  {
  }

  /** The edges of the only rule. */
  function Way(rule: HttpRule, desc: Desc): seq<Edge>
    requires !rule.pattern.Unset? && TemplateFits(rule.pattern.tmpl)
  {
    Edges(StepsFor(SegmentsOf(rule), VerbPartOf(rule), desc))
  }

  /** The search in a chain, on every route and with every decoder. */
  lemma {:induction false} ChainSearch(t: Trie, steps: seq<Step>, ps: seq<Part>, q: string, m: Method, parse: Parser)
    requires Wf(t) && PlainTrie(t) && GoodRoute(ps)
    requires Chain(t, Root, steps) && Sole(t, Dest(Root, steps), q, m)
    ensures var r, end, texts :=
      Search(t, Root, RouteTokens(ps), q, parse), Trace(Edges(steps), ps), Caught(Edges(steps), ps);
      && (r.Crashed? <==> end.Crash?)
      && (r.Found? <==> end.Take? && Decoded(m.vars, texts, parse))
      && (r.Found? ==> |m.vars| == |texts| && r == Found(m, ParamsOf(m.vars, texts, parse)))
  {
    hide Wf, PlainTrie, GoodRoute, Search, Chain, Sole, Runs, Trace, Caught, Decoded, AllDecode, RouteTokens;
    Routing.HasRoot(t);
    var r, es, texts := Search(t, Root, RouteTokens(ps), q, parse), Edges(steps), Caught(Edges(steps), ps);
    Routing.SearchIsRun(t, ps, q, parse);
    var fs := TraceRuns(t, Root, steps, ps, q, m);
    if r.Crashed? {
      var edges :| Runs(t, Root, ps, q, edges, None);
      OneWay(t, Root, steps, ps, q, edges, None, m);
    }
    if r.Found? {
      var edges :| Routing.Yields(t, ps, q, parse, r.m, r.ps, edges);
      OneWay(t, Root, steps, ps, q, edges, Some(r.m), m);
      DecodedLength(m.vars, texts, parse);
    }
    if Trace(es, ps).Crash? || (Trace(es, ps).Take? && Decoded(m.vars, texts, parse)) {
      ChainDecodes(t, steps, ps, q, m, parse);
      var end := if Trace(es, ps).Take? then Some(m) else None;
      RunsClear(t, Root, ps, q, parse, fs, end);
      Answered(t, ps, q, parse, fs, end);
    }
  }

  /** The search does not miss when there is a clear run. */
  lemma {:induction false} Answered(t: Trie, ps: seq<Part>, q: string, parse: Parser, fs: seq<Edge>,
                                    end: Option<Method>)
    requires Wf(t) && PlainTrie(t) && GoodRoute(ps) && Root in t && Clear(t, Root, ps, q, parse, fs, end)
    ensures !Search(t, Root, RouteTokens(ps), q, parse).Missing?
  {
    hide Wf, PlainTrie, GoodRoute, Search, RouteTokens;
    Routing.SearchIsLeastRun(t, ps, q, parse);
    assert Clear(t, Root, ps, q, parse, fs, end);
  }

  lemma {:induction false} DecodedLength(vars: seq<FieldPath>, texts: seq<string>, parse: Parser)
    requires Decoded(vars, texts, parse)
    ensures |vars| == |texts|
  {
  }

  lemma {:induction false} ChainDecodes(t: Trie, steps: seq<Step>, ps: seq<Part>, q: string, m: Method, parse: Parser)
    requires Chain(t, Root, steps) && Sole(t, Dest(Root, steps), q, m)
    requires Trace(Edges(steps), ps).Take? ==> Decoded(m.vars, Caught(Edges(steps), ps), parse)
    ensures AllDecode(t, Root, ps, q, parse)
  {
    hide Chain, Sole, Trace, Decoded;
    forall fs, n ensures RunDecodes(t, Root, ps, q, parse, fs, n) {
      if Runs(t, Root, ps, q, fs, Some(n)) {
        OneWay(t, Root, steps, ps, q, fs, Some(n), m);
        assert n.vars[0..] == n.vars;
      }
    }
  }

  /** The tree of one rule, on every route and with every decoder: the search panics exactly
      where the way of the rule does, and finds the rule's method exactly when its way takes
      the whole route and the captures decode. */
  lemma {:induction false} OnlyRule(rule: HttpRule, desc: Desc, name: string, ps: seq<Part>, q: string, parse: Parser)
    requires Alone(rule, desc, name).1.Added? && Serves(VerbOf(rule.pattern), q) && GoodRoute(ps)
    ensures MethodFor(rule, desc, name).Built?
    ensures var m, r :=
      MethodFor(rule, desc, name).m, Search(Alone(rule, desc, name).0, Root, RouteTokens(ps), q, parse);
      var end, texts := Trace(Way(rule, desc), ps), Caught(Way(rule, desc), ps);
      && (r.Crashed? <==> end.Crash?)
      && (r.Found? <==> end.Take? && Decoded(m.vars, texts, parse))
      && (r.Found? ==> |m.vars| == |texts| && r == Found(m, ParamsOf(m.vars, texts, parse)))
  {
    hide Wf, NoStar, PlainTrie, Chain, Sole, Search, ParamsOf, AddOne, StepsFor, RouteTokens, ParseTemplate, GoodRoute,
      Trace, Caught, Decoded, Edges;
    BareGood();
    AddedSteps(BARE, rule, desc, name);
    OneRule(rule, desc, name, q);
    AddOneExact(BARE, rule, desc, name);
    var u, m := AddOne(BARE, rule, desc, name).0, MethodFor(rule, desc, name).m;
    ChainSearch(u, StepsFor(SegmentsOf(rule), VerbPartOf(rule), desc), ps, q, m, parse);
  }

  /** The fields that the variables of a template stand for; `[]` for those without a name. */
  function Asked(ss: seq<Segment>, desc: Desc): seq<FieldPath> {
    if ss == [] then []
    else
      var rest := Asked(ss[1..], desc);
      match ss[0]
      case Word(_) => rest
      case Field(p) => [if p in desc.fields then desc.fields[p] else []] + rest
      case Bind(p, _) => [if p in desc.fields then desc.fields[p] else []] + rest
      case _ => [[]] + rest
  }

  /** The i-th capture of a rule is for the field of its i-th variable. */
  lemma {:induction false} VarsAreAsked(rule: HttpRule, desc: Desc, name: string)
    requires Target(rule, desc).Some? && MethodFor(rule, desc, name).Built?
    ensures MethodFor(rule, desc, name).m.vars == Asked(SegmentsOf(rule), desc)
  {
    hide Walk, Slots, ParseTemplate, TemplateFits;
    Registry.ArrivedIsFlat(rule, desc);
    CompiledSteps(SegmentsOf(rule), VerbPartOf(rule), desc);
    FieldsAsked(SegmentsOf(rule), VerbPartOf(rule), desc);
  }

  lemma {:induction false} FieldsAsked(ss: seq<Segment>, verb: Option<string>, desc: Desc)
    requires forall i :: 0 <= i < |ss| ==> GoodSegment(ss[i])
    ensures FieldsOf(StepsFor(ss, verb, desc)) == Asked(ss, desc)
    decreases |ss|
  {
    if ss == [] {
      assert FieldsOf([]) == [];
    } else {
      var step, rest := StepFor(ss[0], desc), StepsFor(ss[1..], verb, desc);
      FieldsAsked(ss[1..], verb, desc);
      assert ([step] + rest)[1..] == rest;
    }
  }

  /** A path that fills in the segments of the only rule and goes on with `rest`, on tokens. */
  lemma {:induction false} SearchRoundTrip(rule: HttpRule, desc: Desc, name: string, chunks: seq<seq<string>>,
                                           rest: seq<Part>, q: string, parse: Parser)
    requires Alone(rule, desc, name).1.Added?
    requires Fits(SegmentsOf(rule), chunks) && Follows(SegmentsOf(rule), rest) && GoodRoute(rest)
    requires Serves(VerbOf(rule.pattern), q)
    ensures forall i :: 0 <= i < |chunks| ==> chunks[i] != []
    ensures MethodFor(rule, desc, name).Built? && GoodRoute(Fill(chunks, rest))
    ensures var ss, m := SegmentsOf(rule), MethodFor(rule, desc, name).m;
      var r := Search(Alone(rule, desc, name).0, Root, RouteTokens(Fill(chunks, rest)), q, parse);
      var end := Finish(ss, VerbPartOf(rule), rest);
      && (r.Crashed? <==> end.Crash?)
      && (end.Take? ==>
            var texts := Captured(ss, chunks, PrintRoute(rest[..Overshoot(ss, rest)]));
            && (r.Found? <==> Decoded(m.vars, texts, parse))
            && (r.Found? ==> |m.vars| == |texts| && r == Found(m, ParamsOf(m.vars, texts, parse))))
      && (end.Miss? ==> r.Missing?)
  {
    hide Wf, Fits, Flat, Fill, Captured, Search, ParamsOf, AddOne, StepsFor, RouteTokens, ParseTemplate, GoodRoute,
      Trace, Caught, Decoded, Edges, Finish, Overshoot;
    BareGood();
    AddedSteps(BARE, rule, desc, name);
    FillGood(SegmentsOf(rule), chunks, rest);
    FillTrace(SegmentsOf(rule), chunks, VerbPartOf(rule), rest, desc);
    OnlyRule(rule, desc, name, Fill(chunks, rest), q, parse);
  }

  /** The path that fills in the rule's template, with its verb. */
  function Filled(rule: HttpRule, chunks: seq<seq<string>>): seq<Part>
    requires !rule.pattern.Unset? && TemplateFits(rule.pattern.tmpl)
  {
    Fill(chunks, VerbParts(VerbPartOf(rule)))
  }

  /** How many segments stand before the `**` of the last variable of a template with a verb;
      zero for other templates. The source counts these twice. */
  function Twice(rule: HttpRule): nat
    requires !rule.pattern.Unset? && TemplateFits(rule.pattern.tmpl)
  {
    Overshoot(SegmentsOf(rule), VerbParts(VerbPartOf(rule)))
  }

  /** The path that fills in the template of the only rule of a tree, from its text. If it fits
      in the token array and nothing is counted twice, the rule answers it with its method,
      each capture being exactly the filled-in text, whenever the captures decode. With one
      segment counted twice nothing is found, with more the search panics. */
  lemma {:induction false} RoundTrip(rule: HttpRule, desc: Desc, name: string, chunks: seq<seq<string>>, q: string,
                                     parse: Parser)
    requires Alone(rule, desc, name).1.Added?
    requires Fits(SegmentsOf(rule), chunks) && Serves(VerbOf(rule.pattern), q)
    ensures forall i :: 0 <= i < |chunks| ==> chunks[i] != []
    ensures MethodFor(rule, desc, name).Built?
    ensures var ps, m, texts :=
      Filled(rule, chunks), MethodFor(rule, desc, name).m, Captured(SegmentsOf(rule), chunks, "");
      var r := PathSearch.MatchIn(Alone(rule, desc, name).0, PrintRoute(ps), q, parse);
      var fits := 2 * |ps| + 1 <= MAX_TOKENS;
      && (r.Found? <==> fits && Twice(rule) == 0 && Decoded(m.vars, texts, parse))
      && (r.Crashed? <==> fits && Twice(rule) >= 2)
      && (r.Found? ==> |m.vars| == |texts| && r == Found(m, ParamsOf(m.vars, texts, parse)))
  {
    hide Wf, Fits, Captured, Search, ParamsOf, Alone, Fill, GoodRoute, TemplateFits, VerbPartOf, SegmentsOf, MethodFor,
      Decoded, Over;
    var verb := VerbParts(VerbPartOf(rule));
    VerbGood(rule);
    SearchRoundTrip(rule, desc, name, chunks, verb, q, parse);
    RouteIffPrinted(PrintRoute(Filled(rule, chunks)), Filled(rule, chunks));
    VerbFinish(SegmentsOf(rule), VerbPartOf(rule));
  }

  /** The outcome when the verb follows. */
  lemma {:induction false} VerbFinish(ss: seq<Segment>, verb: Option<string>)
    requires forall i :: 0 <= i < |ss| ==> GoodSegment(ss[i])
    ensures Follows(ss, VerbParts(verb))
    ensures var o := Overshoot(ss, VerbParts(verb));
      && Finish(ss, verb, VerbParts(verb)) == (if o == 0 then Take(0) else if o == 1 then Miss else Crash)
      && (o == 0 ==> PrintRoute(VerbParts(verb)[..o]) == "")
  {
    assert VerbParts(verb)[0..] == VerbParts(verb);
  }

  /* ---- A `**` before the end ---- */

  /** A `**` stands before the end of the template. */
  predicate DeepEarly(ss: seq<Segment>)
    requires forall i :: 0 <= i < |ss| ==> GoodSegment(ss[i])
  {
    exists i :: 0 <= i < |ss| && EarlyAt(ss, i)
  }

  predicate EarlyAt(ss: seq<Segment>, i: nat)
    requires i < |ss| && GoodSegment(ss[i])
  {
    !DeepLast(PatternFor(ss[i])) || (Deep(PatternFor(ss[i])) && i < |ss| - 1)
  }

  /** A pattern that ends in `**` matches to the end of a route without a colon. */
  lemma {:induction false} DeepTakesRest(pat: seq<Segment>, ps: seq<Part>)
    requires Plain(pat) && Deep(pat) && DeepLast(pat) && NoColon(ps)
    ensures Extent(pat, ps).Some? ==> Extent(pat, ps).value == |ps|
    decreases |pat|
  {
    if ps != [] {
      ColonRun(ps);
      if |pat| > 1 {
        assert forall i :: 0 <= i < |pat[1..]| ==> pat[1..][i] == pat[i + 1];
        assert forall i :: 1 <= i < |ps[1..]| ==> ps[1..][i] == ps[i + 1];
        DeepTakesRest(pat[1..], ps[1..]);
      }
    }
  }

  /** The step of a segment with a `**` before the end, on a route without a colon. */
  lemma {:induction false} EarlyStride(x: Segment, desc: Desc, ps: seq<Part>)
    requires GoodSegment(x) && (x.Bind? ==> Plain(x.pattern)) && NoColon(ps)
    ensures var c := Stride(EdgeOf(StepFor(x, desc)), ps);
      && !c.Crash?
      && (!DeepLast(PatternFor(x)) ==> c.Miss?)
      && (Deep(PatternFor(x)) && c.Take? ==> c.n == |ps|)
  {
    var e := EdgeOf(StepFor(x, desc));
    StrideAgrees(e, ps);
    if !x.Word? && ps != [] {
      StepTokens(x, desc);
      EdgePattern(PatternFor(x));
      if DeepLast(PatternFor(x)) {
        if Deep(PatternFor(x)) {
          DeepTakesRest(PatternFor(x), ps);
        }
      } else {
        InnerDeep(PatternFor(x), ps);
      }
    }
  }

  lemma {:induction false} EarlyTrace(ss: seq<Segment>, verb: Option<string>, desc: Desc, ps: seq<Part>)
    requires (forall i :: 0 <= i < |ss| ==> GoodSegment(ss[i])) && Flat(ss) && DeepEarly(ss) && NoColon(ps)
    ensures Trace(Edges(StepsFor(ss, verb, desc)), ps) == Miss
    decreases |ss|
  {
    hide Stride, GoodSegment, StepFor, PatternFor, DeepLast, NoColon;
    FlatHead(ss);
    EarlyStride(ss[0], desc, ps);
    var steps := StepsFor(ss, verb, desc);
    var es, c := Edges(steps), Stride(EdgeOf(steps[0]), ps);
    assert steps[1..] == StepsFor(ss[1..], verb, desc) && es[1..] == Edges(steps[1..]);
    if c.Take? {
      var i :| 0 <= i < |ss| && EarlyAt(ss, i);
      if i == 0 {
        assert steps[1..] != [] && Edges(steps[1..]) != [];
        NothingTaken(Edges(steps[1..])[0]);
        assert ps[c.n..] == [];
      } else {
        assert ss[1..][i - 1] == ss[i] && EarlyAt(ss[1..], i - 1);
        NoColonRest(ps, c.n);
        EarlyTrace(ss[1..], verb, desc, ps[c.n..]);
      }
    }
  }

  lemma {:induction false} NothingTaken(e: Edge)
    ensures Stride(e, []) == Miss
  {
  }

  lemma {:induction false} NoColonRest(ps: seq<Part>, c: nat)
    requires NoColon(ps) && c <= |ps|
    ensures NoColon(ps[c..])
  {
  }

  /** A template with a `**` before its end answers no route without a colon. */
  lemma {:induction false} EarlyUnanswered(rule: HttpRule, desc: Desc, name: string, ps: seq<Part>, q: string,
                                           parse: Parser)
    requires Alone(rule, desc, name).1.Added? && Serves(VerbOf(rule.pattern), q)
    requires GoodRoute(ps) && NoColon(ps) && DeepEarly(SegmentsOf(rule))
    ensures Search(Alone(rule, desc, name).0, Root, RouteTokens(ps), q, parse).Missing?
  {
    hide Wf, Search, AddOne, StepsFor, RouteTokens, ParseTemplate, GoodRoute, Trace, Caught, Decoded, Edges, DeepEarly;
    BareGood();
    AddedSteps(BARE, rule, desc, name);
    EarlyTrace(SegmentsOf(rule), VerbPartOf(rule), desc, ps);
    OnlyRule(rule, desc, name, ps, q, parse);
  }

  /* ---- A rule among others ---- */

  /** Edges that are in the tree and take the whole route. */
  lemma {:induction false} TraceCovers(t: Trie, a: Addr, steps: seq<Step>, ps: seq<Part>)
    requires Rooted(t) && Dest(a, steps) in t && Trace(Edges(steps), ps).Take?
    ensures Routing.Covers(t, a, ps, Edges(steps)) && Routing.End(a, Edges(steps)) == Dest(a, steps)
    decreases |steps|
  {
    StartIn(t, a, steps);
    if steps != [] {
      var e := EdgeOf(steps[0]);
      assert Edges(steps)[1..] == Edges(steps[1..]);
      TraceCovers(t, At(a, e), steps[1..], ps[Stride(e, ps).n..]);
    }
  }

  lemma {:induction false} StartIn(t: Trie, a: Addr, steps: seq<Step>)
    requires Rooted(t) && Dest(a, steps) in t
    ensures a in t
    decreases |steps|
  {
    if steps != [] {
      StartIn(t, At(a, EdgeOf(steps[0])), steps[1..]);
    }
  }

  /** In any tree with a binding at the place of a rule, a path that fills in the rule's template
      is not missed when the captures of its runs decode: the least run answers it, which is the
      rule's own one or one before it. */
  lemma {:induction false} FilledIsAnswered(t: Trie, rule: HttpRule, desc: Desc, chunks: seq<seq<string>>, q: string,
                                            parse: Parser)
    requires Wf(t) && NoStar(t) && PlainTrie(t) && IsBound(t, rule, desc) && Serves(VerbOf(rule.pattern), q)
    requires Fits(SegmentsOf(rule), chunks) && Twice(rule) == 0 && 2 * |Filled(rule, chunks)| + 1 <= MAX_TOKENS
    requires AllDecode(t, Root, Filled(rule, chunks), q, parse)
    ensures !PathSearch.MatchIn(t, PrintRoute(Filled(rule, chunks)), q, parse).Missing?
  {
    hide Wf, NoStar, PlainTrie, Search, RouteTokens, Trace, Caught, Edges, AllDecode, Walk, Slots, ParseTemplate, Flat,
      TemplateFits, GoodRoute, Fits, PrintRoute, Clear;
    var ps, steps := Filled(rule, chunks), StepsFor(SegmentsOf(rule), VerbPartOf(rule), desc);
    Registry.ArrivedIsFlat(rule, desc);
    CompiledSteps(SegmentsOf(rule), VerbPartOf(rule), desc);
    VerbFinish(SegmentsOf(rule), VerbPartOf(rule));
    FillTrace(SegmentsOf(rule), chunks, VerbPartOf(rule), VerbParts(VerbPartOf(rule)), desc);
    VerbGood(rule);
    FillGood(SegmentsOf(rule), chunks, VerbParts(VerbPartOf(rule)));
    RouteIffPrinted(PrintRoute(ps), ps);
    WfRooted(t);
    TraceCovers(t, Root, steps, ps);
    var m := Answering(t, Dest(Root, steps), VerbOf(rule.pattern), q);
    Routing.RunIffReplies(t, Root, ps, q, Edges(steps), m);
    RunsClear(t, Root, ps, q, parse, Edges(steps), Some(m));
    Routing.HasRoot(t);
    Answered(t, ps, q, parse, Edges(steps), Some(m));
  }

  lemma {:induction false} WfRooted(t: Trie)
    requires Wf(t)
    ensures Rooted(t)
  {
  }

  lemma {:induction false} Answering(t: Trie, x: Addr, verb: string, q: string) returns (m: Method)
    requires Bound(t, x, verb).Some? && Serves(verb, q)
    ensures Routing.Replies(t, x, q, m)
  {
    m := if Bound(t, x, q).Some? then Bound(t, x, q).value else Bound(t, x, "*").value;
  }

  /* ---- Two bindings of one node ---- */

  /** A specific binding and then a wildcard one for the same node: the specific verb gets the
      specific method, verbs bound before keep theirs, and all other verbs get the wildcard
      method. */
  lemma {:induction false} SpecificFirst(t: Trie, e: Registry.Entry, f: Registry.Entry, ps: seq<Part>, q: string,
                                         edges: seq<Edge>, m: Method)
    requires Wf(t) && NoStar(t) && Registry.Addable(t, e) && Registry.Addable(t, f) && Registry.OneNode(e, f)
    requires Registry.TargetOf(e).value.1 == "*" != Registry.TargetOf(f).value.1
    ensures Registry.AddAll(t, [f, e]).Some?
    ensures var u, (x, verb) := Registry.AddAll(t, [f, e]).value, Registry.TargetOf(f).value;
      Runs(u, Root, ps, q, edges, Some(m)) && Routing.End(Root, edges) == x ==>
        m == if q == verb then MethodFor(f.rule, f.desc, f.name).m
             else if Bound(t, x, q).Some? then Bound(t, x, q).value
             else MethodFor(e.rule, e.desc, e.name).m
  {
    hide Runs, Wf, AddOne, Target, MethodFor;
    Registry.WildcardLast(t, e, f);
    var u, x := Registry.AddAll(t, [f, e]).value, Registry.TargetOf(f).value.0;
    BothBound(t, e, f);
    if Runs(u, Root, ps, q, edges, Some(m)) && Routing.End(Root, edges) == x {
      Routing.RunIffReplies(u, Root, ps, q, edges, m);
    }
  }

  lemma {:induction false} BothBound(t: Trie, e: Registry.Entry, f: Registry.Entry)
    requires Wf(t) && NoStar(t) && Registry.AddAll(t, [f, e]).Some?
    ensures Registry.TargetOf(e).Some? && Registry.TargetOf(f).Some?
    ensures MethodFor(e.rule, e.desc, e.name).Built? && MethodFor(f.rule, f.desc, f.name).Built?
    ensures var u := Registry.AddAll(t, [f, e]).value;
      && NoStar(u)
      && forall y, v :: Bound(u, y, v) ==
           if (y, v) == Registry.TargetOf(e).value then Some(MethodFor(e.rule, e.desc, e.name).m)
           else if (y, v) == Registry.TargetOf(f).value then Some(MethodFor(f.rule, f.desc, f.name).m)
           else Bound(t, y, v)
  {
    hide Wf, AddOne, Target, MethodFor, NoStar, Bound;
    AddOneExact(t, f.rule, f.desc, f.name);
    var t1 := AddOne(t, f.rule, f.desc, f.name).0;
    AddOneExact(t1, e.rule, e.desc, e.name);
    var u := AddOne(t1, e.rule, e.desc, e.name).0;
    assert [f, e][1..] == [e] && [e][1..] == [];
    assert Registry.AddAll(t1, [e]) == Registry.AddAll(u, []) == Some(u);
  }
}
