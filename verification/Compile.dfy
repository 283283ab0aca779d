/** The token walk of `addRule` against the syntax of the template. */
module Compile {
  import opened Options
  import opened Tokens
  import opened Grammar
  import opened Tries
  import opened Matching
  import opened Rules

  /** No variable inside a variable. */
  predicate Flat(ss: seq<Segment>) {
    forall i :: 0 <= i < |ss| && ss[i].Bind? ==> Plain(ss[i].pattern)
  }

  function CompileVerb(verb: Option<string>): Walked {
    Walked(if verb.None? then [] else [LitStep(":" + verb.value)], Arrived)
  }

  /** What one segment adds in front of the steps of the rest. */
  function CompileSegment(x: Segment, rest: Walked, desc: Desc): Walked
    requires GoodSegment(x)
  {
    match x
    case Wild => Prepend(VarStep([Token(Star, "*")], []), rest)
    case DeepWild => Prepend(VarStep([Token(StarStar, "**")], []), rest)
    case Word(w) => Prepend(LitStep("/" + w), rest)
    case Field(p) =>
      var fds := FieldPathOf(desc, p);
      if fds == [] then Walked([], NoField) else Prepend(VarStep([Token(Star, "*")], fds), rest)
    case Bind(p, pat) =>
      var fds := FieldPathOf(desc, p);
      if fds == [] then Walked([], NoField) else Prepend(VarStep(ListTokens(pat, []), fds), rest)
  }

  /** What a flat list of segments compiles to. */
  function CompileList(ss: seq<Segment>, verb: Option<string>, desc: Desc): Walked
    requires forall i :: 0 <= i < |ss| ==> GoodSegment(ss[i])
  {
    if ss == [] then CompileVerb(verb)
    else CompileSegment(ss[0], CompileList(ss[1..], verb, desc), desc)
  }

  lemma {:induction false} GoodElements(ss: seq<Segment>)
    requires GoodList(ss)
    ensures forall i :: 0 <= i < |ss| ==> GoodSegment(ss[i])
  {
    if |ss| > 1 {
      GoodElements(ss[1..]);
      forall i | 0 <= i < |ss| ensures GoodSegment(ss[i]) {
        if i > 0 {
          assert ss[i] == ss[1..][i - 1];
        }
      }
    }
  }

  /* ---- The header of a variable ---- */

  lemma {:induction false} KeysWalk(p: seq<string>, k: seq<Token>, keys: seq<string>)
    requires p != []
    ensures PathTokens(p, k)[0] == Token(Ident, p[0])
    ensures WalkKeys(PathTokens(p, k)[1..], keys + [p[0]]) == WalkKeys(k, keys + p)
  {
    var toks := PathTokens(p, k);
    if |p| == 1 {
      assert toks[1..] == k && [p[0]] == p;
    } else {
      var rest := PathTokens(p[1..], k);
      KeysWalk(p[1..], k, keys + [p[0]]);
      assert toks[1..] == [Token(Dot, ".")] + rest;
      assert toks[1..][2..] == rest[1..];
      assert toks[1..][1] == rest[0];
      assert keys + [p[0]] + p[1..] == keys + p;
    }
  }

  predicate NoClose(toks: seq<Token>) {
    forall i :: 0 <= i < |toks| ==> toks[i].kind != VariableEnd
  }

  lemma {:induction false} SkipOpen(a: seq<Token>, k: seq<Token>, keys: seq<string>, vars: seq<Token>)
    requires NoClose(a)
    ensures WalkPattern(a + k, keys, vars) == WalkPattern(k, keys, vars + a)
  {
    if a == [] {
      assert a + k == k && vars + a == vars;
    } else {
      assert (a + k)[1..] == a[1..] + k;
      SkipOpen(a[1..], k, keys, vars + [a[0]]);
      assert vars + [a[0]] + a[1..] == vars + a;
    }
  }

  lemma {:induction false} PlainNoClose(pat: seq<Segment>)
    requires Plain(pat) && GoodList(pat)
    ensures NoClose(ListTokens(pat, []))
  {
    PatternTokens(pat);
    if |pat| > 1 {
      PlainNoClose(pat[1..]);
    }
  }

  lemma {:induction false} PathNoClose(p: seq<string>)
    requires p != []
    ensures NoClose(PathTokens(p, []))
  {
    if |p| > 1 {
      PathNoClose(p[1..]);
    }
  }

  lemma {:induction false} PatternWalk(pat: seq<Segment>, k: seq<Token>, keys: seq<string>)
    requires Plain(pat) && GoodList(pat)
    ensures WalkPattern(ListTokens(pat, [CLOSE] + k), keys, []) == Header(keys, ListTokens(pat, []), k)
  {
    ListAppend(pat, [CLOSE] + k);
    PlainNoClose(pat);
    SkipOpen(ListTokens(pat, []), [CLOSE] + k, keys, []);
    assert [] + ListTokens(pat, []) == ListTokens(pat, []);
    assert ([CLOSE] + k)[1..] == k;
  }

  /* ---- Flat templates ---- */

  /** One iteration of the walk on the tokens of one segment. */
  lemma {:induction false} SegmentWalk(x: Segment, k: seq<Token>, desc: Desc)
    requires GoodSegment(x) && (x.Bind? ==> Plain(x.pattern))
    ensures Walk([SLASH] + SegmentTokens(x, k), desc) == CompileSegment(x, Walk(k, desc), desc)
  {
    match x {
      case Field(p) => FieldWalk(p, k, desc);
      case Bind(p, pat) => BindWalk(p, pat, k, desc);
      case _ =>
        var toks := [SLASH] + SegmentTokens(x, k);
        assert toks[2..] == k;
    }
  }

  /** How the walk goes on after the header of a variable. */
  function Resume(h: Header, desc: Desc): Walked {
    if h.BadHeader? then Walked([], Broken)
    else
      var fds := FieldPathOf(desc, h.keys);
      if fds == [] then Walked([], NoField) else Prepend(VarStep(h.toks, fds), Walk(h.rest, desc))
  }

  /** The walk at an opening brace, in terms of what follows the field path. */
  lemma {:induction false} OpenWalk(p: seq<string>, k: seq<Token>, desc: Desc)
    requires p != []
    ensures Walk([SLASH] + ([OPEN] + PathTokens(p, k)), desc) == Resume(WalkKeys(k, p), desc)
  {
    var path := PathTokens(p, k);
    var toks := [SLASH] + ([OPEN] + path);
    KeysWalk(p, k, []);
    assert toks[1] == OPEN && toks[2] == path[0] && toks[3..] == path[1..];
    assert [] + [p[0]] == [p[0]] && [] + p == p;
  }

  lemma {:induction false} FieldWalk(p: seq<string>, k: seq<Token>, desc: Desc)
    requires GoodPath(p)
    ensures Walk([SLASH] + SegmentTokens(Field(p), k), desc) == CompileSegment(Field(p), Walk(k, desc), desc)
  {
    OpenWalk(p, [CLOSE] + k, desc);
    assert ([CLOSE] + k)[1..] == k;
  }

  lemma {:induction false} BindWalk(p: seq<string>, pat: seq<Segment>, k: seq<Token>, desc: Desc)
    requires GoodPath(p) && GoodList(pat) && Plain(pat)
    ensures Walk([SLASH] + SegmentTokens(Bind(p, pat), k), desc) == CompileSegment(Bind(p, pat), Walk(k, desc), desc)
  {
    var tail := ListTokens(pat, [CLOSE] + k);
    OpenWalk(p, [EQUAL] + tail, desc);
    assert ([EQUAL] + tail)[1..] == tail;
    PatternWalk(pat, k, p);
  }

  lemma {:induction false} VerbWalk(verb: Option<string>, z: seq<Token>, desc: Desc)
    ensures Walk(VerbTokens(verb) + z, desc) == CompileVerb(verb)
  {
  }

  lemma {:induction false} ListWalk(ss: seq<Segment>, verb: Option<string>, z: seq<Token>, desc: Desc)
    requires GoodList(ss) && Flat(ss)
    requires forall i :: 0 <= i < |ss| ==> GoodSegment(ss[i])
    ensures Walk([SLASH] + ListTokens(ss, VerbTokens(verb) + z), desc) == CompileList(ss, verb, desc)
    decreases |ss|
  {
    VerbWalk(verb, z, desc);
    if |ss| == 1 {
      SegmentWalk(ss[0], VerbTokens(verb) + z, desc);
      assert ss[1..] == [];
    } else {
      var tail := ListTokens(ss[1..], VerbTokens(verb) + z);
      SegmentWalk(ss[0], [SLASH] + tail, desc);
      ListWalk(ss[1..], verb, z, desc);
    }
  }

  /** The walk over an accepted template without nested variables never panics, and what it
      does is independent of the slots after the EOF token. */
  lemma {:induction false} FlatWalk(t: Template, z: seq<Token>, desc: Desc)
    requires GoodTemplate(t) && Flat(t.segments)
    ensures forall i :: 0 <= i < |t.segments| ==> GoodSegment(t.segments[i])
    ensures Walk(TemplateTokens(t) + z, desc) == CompileList(t.segments, t.verb, desc)
    ensures CompileList(t.segments, t.verb, desc).end != Broken
  {
    GoodElements(t.segments);
    ListWalk(t.segments, t.verb, z, desc);
    ListAppend(t.segments, VerbTokens(t.verb));
    ListAppend(t.segments, VerbTokens(t.verb) + z);
    var list := ListTokens(t.segments, []);
    assert [SLASH] + (list + VerbTokens(t.verb)) + z == [SLASH] + (list + (VerbTokens(t.verb) + z));
    CompileEnds(t.segments, t.verb, desc);
  }

  lemma {:induction false} CompileEnds(ss: seq<Segment>, verb: Option<string>, desc: Desc)
    requires forall i :: 0 <= i < |ss| ==> GoodSegment(ss[i])
    ensures CompileList(ss, verb, desc).end != Broken
    decreases |ss|
  {
    if ss != [] {
      CompileEnds(ss[1..], verb, desc);
    }
  }

  /* ---- Nested variables ---- */

  function Weight(ss: seq<Segment>): nat
    decreases ss
  {
    if ss == [] then 0 else 1 + (if ss[0].Bind? then Weight(ss[0].pattern) else 0) + Weight(ss[1..])
  }

  lemma {:induction false} PlainTail(pat: seq<Segment>)
    requires GoodList(pat) && !Plain(pat) && PlainSegment(pat[0])
    ensures |pat| > 1 && GoodList(pat[1..]) && !Plain(pat[1..])
  {
    var i :| 0 <= i < |pat| && !PlainSegment(pat[i]);
    assert pat[i] == pat[1..][i - 1];
  }

  /** The segments between the first closing brace inside a pattern and the next one. */
  function Rest(pat: seq<Segment>): (rest: seq<Segment>)
    requires GoodList(pat) && !Plain(pat)
    ensures (rest == [] || GoodList(rest)) && Weight(rest) < Weight(pat)
    decreases pat
  {
    assert GoodSegment(pat[0]);
    match pat[0]
    case Field(_) => pat[1..]
    case Bind(_, inner) => if Plain(inner) then pat[1..] else Rest(inner)
    case _ => PlainTail(pat); Rest(pat[1..])
  }

  /** The field paths that the walk looks up, in order. After the first closing brace inside a
      variable it goes on in the middle of that variable, up to the next closing brace. */
  function Looks(ss: seq<Segment>): seq<seq<string>>
    requires ss == [] || GoodList(ss)
    decreases Weight(ss)
  {
    if ss == [] then []
    else
      assert GoodSegment(ss[0]);
      match ss[0]
      case Field(p) => [p] + Looks(ss[1..])
      case Bind(p, pat) => [p] + if Plain(pat) then Looks(ss[1..]) else Looks(Rest(pat))
      case _ => Looks(ss[1..])
  }

  predicate AllKnown(paths: seq<seq<string>>, desc: Desc) {
    forall p :: p in paths ==> FieldPathOf(desc, p) != []
  }

  /** The tokens of the segments up to the brace that closes the variable around them. */
  function Inside(ss: seq<Segment>, k: seq<Token>): seq<Token>
    requires ss == [] || GoodList(ss)
  {
    if ss == [] then [CLOSE] + k else [SLASH] + ListTokens(ss, [CLOSE] + k)
  }

  lemma {:induction false} InsideList(ss: seq<Segment>, k: seq<Token>)
    requires GoodList(ss)
    ensures ss[1..] == [] || GoodList(ss[1..])
    ensures ListTokens(ss, [CLOSE] + k) == SegmentTokens(ss[0], Inside(ss[1..], k))
  {
  }

  /** From the brace of a variable to its first closing brace. */
  lemma {:induction false} SkipVariable(p: seq<string>, k: seq<Token>, keys: seq<string>, vars: seq<Token>)
    requires p != []
    ensures WalkPattern([OPEN] + PathTokens(p, k), keys, vars) ==
            WalkPattern(k, keys, vars + ([OPEN] + PathTokens(p, [])))
  {
    PathText(p, k);
    PathNoClose(p);
    var a := [OPEN] + PathTokens(p, []);
    assert [OPEN] + (PathTokens(p, []) + k) == a + k;
    SkipOpen(a, k, keys, vars);
  }

  /** The first closing brace after a pattern that is not plain is an inner one. */
  lemma {:induction false} FirstClose(pat: seq<Segment>, k: seq<Token>, keys: seq<string>, vars: seq<Token>)
    returns (k': seq<Token>)
    requires GoodList(pat) && !Plain(pat)
    ensures var h := WalkPattern(ListTokens(pat, [CLOSE] + k), keys, vars);
      h.Header? && h.rest == Inside(Rest(pat), k') && h.keys == keys
    decreases pat
  {
    InsideList(pat, k);
    var x, after := pat[0], Inside(pat[1..], k);
    k' := k;
    match x {
      case Field(p) =>
        SkipVariable(p, [CLOSE] + after, keys, vars);
        assert ([CLOSE] + after)[1..] == after;
      case Bind(p, inner) =>
        var tail := ListTokens(inner, [CLOSE] + after);
        var vars' := vars + ([OPEN] + PathTokens(p, []));
        SkipVariable(p, [EQUAL] + tail, keys, vars);
        assert ([EQUAL] + tail)[1..] == tail;
        if Plain(inner) {
          ListAppend(inner, [CLOSE] + after);
          PlainNoClose(inner);
          SkipOpen(ListTokens(inner, []), [CLOSE] + after, keys, vars' + [EQUAL]);
          assert ([CLOSE] + after)[1..] == after;
        } else {
          k' := FirstClose(inner, after, keys, vars' + [EQUAL]);
        }
      case _ =>
        var tok := SegmentTokens(x, []);
        SegmentAppend(x, after);
        assert |tok| == 1 && tok[0].kind != VariableEnd;
        SkipOpen(tok, after, keys, vars);
        PlainTail(pat);
        var tail := ListTokens(pat[1..], [CLOSE] + k);
        SkipOpen([SLASH], tail, keys, vars + tok);
        k' := FirstClose(pat[1..], k, keys, vars + tok + [SLASH]);
    }
  }

  /** How a walk ends that never comes out of a variable. */
  function Stuck(paths: seq<seq<string>>, desc: Desc): WalkEnd {
    if AllKnown(paths, desc) then Broken else NoField
  }

  lemma {:induction false} KnownCons(p: seq<string>, paths: seq<seq<string>>, desc: Desc)
    ensures AllKnown([p] + paths, desc) <==> FieldPathOf(desc, p) != [] && AllKnown(paths, desc)
  {
    assert p in [p] + paths;
    assert forall q :: q in paths ==> q in [p] + paths;
  }

  /** A variable with another one inside. */
  lemma {:induction false} NestedWalk(p: seq<string>, pat: seq<Segment>, k: seq<Token>, desc: Desc)
    requires GoodPath(p) && GoodList(pat) && !Plain(pat)
    ensures Walk([SLASH] + SegmentTokens(Bind(p, pat), k), desc).end == Stuck([p] + Looks(Rest(pat)), desc)
    decreases Weight(pat), 0
  {
    var tail := ListTokens(pat, [CLOSE] + k);
    OpenWalk(p, [EQUAL] + tail, desc);
    assert ([EQUAL] + tail)[1..] == tail;
    var k' := FirstClose(pat, k, p, []);
    KnownCons(p, Looks(Rest(pat)), desc);
    InsideWalk(Rest(pat), k', desc);
  }

  /** Once inside, the walk ends at the next closing brace at the latest. */
  lemma {:induction false} InsideWalk(ss: seq<Segment>, k: seq<Token>, desc: Desc)
    requires ss == [] || GoodList(ss)
    ensures Walk(Inside(ss, k), desc).end == Stuck(Looks(ss), desc)
    decreases Weight(ss), 1
  {
    if ss != [] {
      InsideList(ss, k);
      var x, after := ss[0], Inside(ss[1..], k);
      if x.Bind? && !Plain(x.pattern) {
        NestedWalk(x.path, x.pattern, after, desc);
      } else {
        SegmentWalk(x, after, desc);
        InsideWalk(ss[1..], k, desc);
        if x.Field? || x.Bind? {
          KnownCons(x.path, Looks(ss[1..]), desc);
        }
      }
    }
  }

  lemma {:induction false} ListEnd(ss: seq<Segment>, verb: Option<string>, z: seq<Token>, desc: Desc)
    requires GoodList(ss)
    ensures Walk([SLASH] + ListTokens(ss, VerbTokens(verb) + z), desc).end ==
      if !AllKnown(Looks(ss), desc) then NoField else if Flat(ss) then Arrived else Broken
    decreases |ss|
  {
    var x := ss[0];
    var k := if |ss| == 1 then VerbTokens(verb) + z else [SLASH] + ListTokens(ss[1..], VerbTokens(verb) + z);
    if x.Bind? && !Plain(x.pattern) {
      NestedWalk(x.path, x.pattern, k, desc);
    } else {
      SegmentWalk(x, k, desc);
      VerbWalk(verb, z, desc);
      if |ss| > 1 {
        ListEnd(ss[1..], verb, z, desc);
      }
      assert Flat(ss) <==> Flat(ss[1..]) by {
        assert forall i :: 0 < i < |ss| ==> ss[i] == ss[1..][i - 1];
        assert forall i :: 0 <= i < |ss[1..]| ==> ss[1..][i] == ss[i + 1];
      }
      if x.Field? || x.Bind? {
        KnownCons(x.path, Looks(ss[1..]), desc);
      }
    }
  }

  /** How the walk over an accepted template ends: with an error when a field path that it looks
      up is unknown, otherwise at the end of the template, or in a panic if a variable has
      another one inside. */
  lemma {:induction false} WalkEnds(t: Template, z: seq<Token>, desc: Desc)
    requires GoodTemplate(t)
    ensures Walk(TemplateTokens(t) + z, desc).end ==
      if !AllKnown(Looks(t.segments), desc) then NoField else if Flat(t.segments) then Arrived else Broken
  {
    ListEnd(t.segments, t.verb, z, desc);
    ListAppend(t.segments, VerbTokens(t.verb));
    ListAppend(t.segments, VerbTokens(t.verb) + z);
    var list := ListTokens(t.segments, []);
    assert [SLASH] + (list + VerbTokens(t.verb)) + z == [SLASH] + (list + (VerbTokens(t.verb) + z));
  }
}
