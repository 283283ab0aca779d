/** Registering many bindings: plain variables, and independence from the order. */
module Registry {
  import opened Options
  import opened Tokens
  import opened Grammar
  import opened Tries
  import opened Matching
  import opened Rules
  import opened Compile
  import opened Lexers

  /* ---- Templates create plain variables only ---- */

  ghost predicate PlainStep(s: Step) {
    s.VarStep? ==> PlainTokens(s.toks)
  }

  ghost predicate PlainSteps(steps: seq<Step>) {
    forall i :: 0 <= i < |steps| ==> PlainStep(steps[i])
  }

  lemma {:induction false} CompilePlain(ss: seq<Segment>, verb: Option<string>, desc: Desc)
    requires Flat(ss) && forall i :: 0 <= i < |ss| ==> GoodSegment(ss[i])
    ensures PlainSteps(CompileList(ss, verb, desc).steps)
  {
    if ss != [] {
      CompilePlain(ss[1..], verb, desc);
      assert GoodSegment(ss[0]);
      if ss[0].Bind? {
        PatternIsPlain(ss[0].pattern);
      }
    }
  }

  lemma {:induction false} TouchPlain(t: Trie, a: Addr, s: Step)
    requires PlainTrie(t) && PlainStep(s) && a in t
    ensures PlainTrie(Touch(t, a, s))
  {
    if s.VarStep? {
      InsertAt(t[a].vars, Variable(Render(s.toks), s.toks));
    }
  }

  lemma {:induction false} GrowPlain(t: Trie, a: Addr, steps: seq<Step>)
    requires Wf(t) && NoStar(t) && PlainTrie(t) && PlainSteps(steps) && a in t
    ensures PlainTrie(Grow(t, a, steps))
    decreases |steps|
  {
    if steps != [] {
      TouchGood(t, a, steps[0]);
      TouchExtends(t, a, steps[0]);
      TouchPlain(t, a, steps[0]);
      GrowPlain(Touch(t, a, steps[0]), At(a, EdgeOf(steps[0])), steps[1..]);
    }
  }

  /** A walk that arrives comes from a flat template and takes plain steps. */
  lemma {:induction false} ArrivedIsFlat(rule: HttpRule, desc: Desc)
    requires Target(rule, desc).Some?
    ensures var t := ParseTemplate(rule.pattern.tmpl).value;
      && Flat(t.segments)
      && (forall i :: 0 <= i < |t.segments| ==> GoodSegment(t.segments[i]))
      && WalkOf(rule, desc) == CompileList(t.segments, t.verb, desc)
    ensures PlainSteps(WalkOf(rule, desc).steps)
  {
    var t := ParseTemplate(rule.pattern.tmpl).value;
    var z := seq(MAX_TOKENS - |TemplateTokens(t)|, i => ZERO);
    assert Slots(rule.pattern.tmpl) == TemplateTokens(t) + z;
    if !Flat(t.segments) {
      WalkEnds(t, z, desc);
    }
    FlatWalk(t, z, desc);
    CompilePlain(t.segments, t.verb, desc);
  }

  /** The segments of a rule's template. */
  function Segments(rule: HttpRule): (ss: seq<Segment>)
    requires !rule.pattern.Unset? && TemplateFits(rule.pattern.tmpl)
    ensures GoodList(ss)
  {
    ParseTemplate(rule.pattern.tmpl).value.segments
  }

  /** How the walk of a rule ends, from the syntax of its template. */
  lemma {:induction false} RuleEnds(rule: HttpRule, desc: Desc)
    requires !rule.pattern.Unset? && TemplateFits(rule.pattern.tmpl)
    ensures WalkOf(rule, desc).end ==
      if !AllKnown(Looks(Segments(rule)), desc) then NoField else if Flat(Segments(rule)) then Arrived else Broken
  {
    var t := ParseTemplate(rule.pattern.tmpl).value;
    var z := seq(MAX_TOKENS - |TemplateTokens(t)|, i => ZERO);
    assert Slots(rule.pattern.tmpl) == TemplateTokens(t) + z;
    WalkEnds(t, z, desc);
  }

  /** One binding panics exactly when all field paths that its walk looks up are known, and
      either a variable of its template has another one inside, or its node has a wildcard
      method and none for its verb. */
  lemma {:induction false} AddPanicsIff(t: Trie, rule: HttpRule, desc: Desc, name: string)
    requires Wf(t) && NoStar(t)
    ensures AddOne(t, rule, desc, name).1.Panics? <==>
      && !rule.pattern.Unset? && TemplateFits(rule.pattern.tmpl)
      && AllKnown(Looks(Segments(rule)), desc)
      && (Flat(Segments(rule)) ==> Guarded(t, Dest(Root, WalkOf(rule, desc).steps), VerbOf(rule.pattern)))
  {
    PanicsIff(t, rule, desc, name);
    if !rule.pattern.Unset? && TemplateFits(rule.pattern.tmpl) {
      RuleEnds(rule, desc);
    }
  }

  /** How one binding ends, from the syntax of its template, the known fields and the bindings of
      its node: the verb "*" is never taken for a binding made before. */
  lemma {:induction false} AddOutcome(t: Trie, rule: HttpRule, desc: Desc, name: string)
    requires Wf(t) && NoStar(t)
    ensures AddOne(t, rule, desc, name).1 ==
      if rule.pattern.Unset? then Fails(Unsupported)
      else if !TemplateFits(rule.pattern.tmpl) then Fails(BadTemplate)
      else if !AllKnown(Looks(Segments(rule)), desc) then Fails(FieldNotFound)
      else if !Flat(Segments(rule)) then Panics
      else AtNode(t, rule, desc, name)
  {
    if !rule.pattern.Unset? && TemplateFits(rule.pattern.tmpl) {
      hide Walk, Slots, Looks, Segments, Flat, AllKnown, TemplateFits, Wf, NoStar;
      RuleEnds(rule, desc);
      if WalkOf(rule, desc).end.Arrived? {
        NodeOutcome(t, rule, desc, name);
      }
    }
  }

  lemma {:induction false} NodeOutcome(t: Trie, rule: HttpRule, desc: Desc, name: string)
    requires Wf(t) && NoStar(t) && Target(rule, desc).Some?
    ensures AddOne(t, rule, desc, name).1 == AtNode(t, rule, desc, name)
  {
    hide Walk, Slots, TemplateFits, VerbOf, Dest, FieldsOf, BuildMethod;
    var w := WalkOf(rule, desc);
    GrowGood(t, Root, w.steps);
    var u, x, verb := Grow(t, Root, w.steps), Dest(Root, w.steps), VerbOf(rule.pattern);
    assert Bound(u, x, verb) == Bound(t, x, verb) && Bound(u, x, "*") == Bound(t, x, "*");
    hide Grow, Wf;
  }

  /** At the node of the binding: bound before with the same or another descriptor, guarded by a
      wildcard method, refused for its body, or added. */
  function AtNode(t: Trie, rule: HttpRule, desc: Desc, name: string): RuleResult {
    match Target(rule, desc)
    case None => Panics
    case Some((x, verb)) =>
      if verb != "*" && Bound(t, x, verb).Some? then
        if Bound(t, x, verb).value.desc.fullName == desc.fullName then Already else Fails(DuplicateRule)
      else if Bound(t, x, "*").Some? then Panics
      else
        match MethodFor(rule, desc, name)
        case Unbuilt(err) => Fails(err)
        case Built(_) => Added
  }

  /** A binding is accepted when it is added or was made before. */
  ghost predicate Accepted(t: Trie, q: HttpRule, desc: Desc, name: string) {
    Target(q, desc).Some? && AtNode(t, q, desc, name) in {Added, Already}
  }

  lemma {:induction false} AcceptedIff(t: Trie, q: HttpRule, desc: Desc, name: string)
    requires Wf(t) && NoStar(t)
    ensures AddOne(t, q, desc, name).1 in {Added, Already} <==> Accepted(t, q, desc, name)
  {
    hide AddOne, Looks, Flat, WalkOf, Bound;
    AddOutcome(t, q, desc, name);
    if !q.pattern.Unset? && TemplateFits(q.pattern.tmpl) {
      RuleEnds(q, desc);
    }
  }

  /** What is known of the k-th additional binding when its turn comes. */
  ghost predicate Due(t: Trie, rules: seq<HttpRule>, k: nat, desc: Desc, name: string)
    requires Wf(t) && NoStar(t) && k < |rules|
  {
    rules[k].additional == [] && Accepted(AddMore(t, rules[..k], desc, name).0, rules[k], desc, name)
  }

  /** Additional bindings are all added exactly when none has additional bindings itself and each
      is accepted in its turn. */
  lemma {:induction false} AddMoreIff(t: Trie, rules: seq<HttpRule>, desc: Desc, name: string)
    requires Wf(t) && NoStar(t)
    ensures AddMore(t, rules, desc, name).1.Added? <==> forall k :: 0 <= k < |rules| ==> Due(t, rules, k, desc, name)
    decreases |rules|
  {
    hide AddOne, Accepted, Wf, NoStar, Due;
    if rules != [] {
      FirstDue(t, rules, desc, name);
      AddOneExact(t, rules[0], desc, name);
      var (u, r) := AddOne(t, rules[0], desc, name);
      AddMoreExact(u, rules[1..], desc, name);
      if rules[0].additional == [] && r in {Added, Already} {
        AddMoreIff(u, rules[1..], desc, name);
        forall k | 0 < k < |rules| ensures Due(t, rules, k, desc, name) <==> Due(u, rules[1..], k - 1, desc, name) {
          NextDue(t, rules, k, desc, name);
        }
        if forall k :: 0 <= k < |rules| ==> Due(t, rules, k, desc, name) {
          forall k | 0 <= k < |rules[1..]| ensures Due(u, rules[1..], k, desc, name) {
            assert Due(t, rules, k + 1, desc, name) <==> Due(u, rules[1..], k, desc, name);
          }
        }
      } else {
        assert !Due(t, rules, 0, desc, name);
      }
    }
  }

  /** A rule is accepted when its own binding was made before, or is added and its additional
      bindings are each accepted in their turn. */
  ghost predicate AcceptedWhole(t: Trie, rule: HttpRule, desc: Desc, name: string)
    requires Wf(t) && NoStar(t)
  {
    AddOneExact(t, rule, desc, name);
    var u := AddOne(t, rule, desc, name).0;
    && Accepted(t, rule, desc, name)
    && (AtNode(t, rule, desc, name).Added? ==>
          forall k :: 0 <= k < |rule.additional| ==> Due(u, rule.additional, k, desc, name))
  }

  lemma {:induction false} AddRuleIff(t: Trie, rule: HttpRule, desc: Desc, name: string)
    requires Wf(t) && NoStar(t)
    ensures AddRule(t, rule, desc, name).1 in {Added, Already} <==> AcceptedWhole(t, rule, desc, name)
  {
    hide AddOne, AddMore, Accepted, AtNode, Due, Wf, NoStar;
    AddOneExact(t, rule, desc, name);
    var (u, r) := AddOne(t, rule, desc, name);
    AcceptedIff(t, rule, desc, name);
    if r.Added? || r.Already? {
      AcceptedOutcome(t, rule, desc, name);
    }
    if r.Added? {
      AddMoreExact(u, rule.additional, desc, name);
      AddMoreIff(u, rule.additional, desc, name);
    }
  }

  lemma {:induction false} AcceptedOutcome(t: Trie, rule: HttpRule, desc: Desc, name: string)
    requires Wf(t) && NoStar(t) && Accepted(t, rule, desc, name)
    ensures AddOne(t, rule, desc, name).1 == AtNode(t, rule, desc, name)
  {
    hide AddOne, AtNode, Wf, NoStar;
    NodeOutcome(t, rule, desc, name);
  }

  lemma {:induction false} FirstDue(t: Trie, rules: seq<HttpRule>, desc: Desc, name: string)
    requires Wf(t) && NoStar(t) && rules != []
    ensures Due(t, rules, 0, desc, name) <==>
      rules[0].additional == [] && AddOne(t, rules[0], desc, name).1 in {Added, Already}
  {
    hide AddOne, Accepted;
    AcceptedIff(t, rules[0], desc, name);
    assert rules[..0] == [];
  }

  lemma {:induction false} NextDue(t: Trie, rules: seq<HttpRule>, k: nat, desc: Desc, name: string)
    requires Wf(t) && NoStar(t) && 0 < k < |rules| && rules[0].additional == []
    requires AddOne(t, rules[0], desc, name).1 in {Added, Already}
    ensures var u := AddOne(t, rules[0], desc, name).0;
      Wf(u) && NoStar(u) && (Due(t, rules, k, desc, name) <==> Due(u, rules[1..], k - 1, desc, name))
  {
    hide AddOne, Accepted, Wf, NoStar, Bound;
    AddOneExact(t, rules[0], desc, name);
    assert rules[..k][0] == rules[0] && rules[..k][1..] == rules[1..][..k - 1];
    assert rules[1..][k - 1] == rules[k];
  }

  lemma {:induction false} RegisterPlain(t: Trie, x: Addr, verb: string, rule: HttpRule, desc: Desc, name: string,
                                         vars: seq<FieldPath>)
    requires PlainTrie(t) && x in t
    ensures PlainTrie(Register(t, x, verb, rule, desc, name, vars).0)
  {
    var u := Register(t, x, verb, rule, desc, name, vars).0;
    assert forall y :: y in u ==> y in t && u[y].vars == t[y].vars;
  }

  lemma {:induction false} AddOnePlain(t: Trie, rule: HttpRule, desc: Desc, name: string)
    requires Wf(t) && NoStar(t) && PlainTrie(t)
    ensures AddOne(t, rule, desc, name).1.Added? || AddOne(t, rule, desc, name).1.Already? ==>
      PlainTrie(AddOne(t, rule, desc, name).0)
  {
    var p := AddOne(t, rule, desc, name);
    if p.1.Added? || p.1.Already? {
      var w := WalkOf(rule, desc);
      ArrivedIsFlat(rule, desc);
      GrowGood(t, Root, w.steps);
      GrowPlain(t, Root, w.steps);
      RegisterPlain(Grow(t, Root, w.steps), Dest(Root, w.steps), VerbOf(rule.pattern), rule, desc, name,
        FieldsOf(w.steps));
      assert p == Register(Grow(t, Root, w.steps), Dest(Root, w.steps), VerbOf(rule.pattern), rule, desc, name,
        FieldsOf(w.steps));
    }
  }

  lemma {:induction false} AddMorePlain(t: Trie, rules: seq<HttpRule>, desc: Desc, name: string)
    requires Wf(t) && NoStar(t) && PlainTrie(t)
    ensures var (u, r) := AddMore(t, rules, desc, name);
      r.Added? ==> PlainTrie(u)
    decreases |rules|
  {
    if rules != [] && rules[0].additional == [] {
      AddOneExact(t, rules[0], desc, name);
      AddOnePlain(t, rules[0], desc, name);
      var (t1, r1) := AddOne(t, rules[0], desc, name);
      if !r1.Fails? && !r1.Panics? {
        AddMorePlain(t1, rules[1..], desc, name);
      }
    }
  }

  lemma {:induction false} FollowPlain(p: (Trie, RuleResult), rules: seq<HttpRule>, desc: Desc, name: string)
    requires Wf(p.0) && NoStar(p.0) && (p.1.Added? || p.1.Already? ==> PlainTrie(p.0))
    ensures var q := Follow(p, rules, desc, name);
      q.1.Added? || q.1.Already? ==> PlainTrie(q.0)
  {
    if p.1.Added? {
      AddMoreExact(p.0, rules, desc, name);
      AddMorePlain(p.0, rules, desc, name);
    }
  }

  /** A rule that is added leaves no variable that the matcher cannot read. */
  lemma {:induction false} AddRulePlain(t: Trie, rule: HttpRule, desc: Desc, name: string)
    requires Wf(t) && NoStar(t) && PlainTrie(t)
    ensures AddRule(t, rule, desc, name).1.Added? || AddRule(t, rule, desc, name).1.Already? ==>
      PlainTrie(AddRule(t, rule, desc, name).0)
  {
    AddOneExact(t, rule, desc, name);
    AddOnePlain(t, rule, desc, name);
    FollowPlain(AddOne(t, rule, desc, name), rule.additional, desc, name);
  }

  /* ---- Independence from the order ---- */

  /** One binding to register. */
  datatype Entry = Entry(rule: HttpRule, desc: Desc, name: string)

  /** Registering a list of bindings; None when one of them is not added. */
  function AddAll(t: Trie, es: seq<Entry>): Option<Trie>
    requires Wf(t) && NoStar(t)
    decreases |es|
  {
    if es == [] then Some(t)
    else
      AddOneExact(t, es[0].rule, es[0].desc, es[0].name);
      var (u, r) := AddOne(t, es[0].rule, es[0].desc, es[0].name);
      if r.Added? then AddAll(u, es[1..]) else None
  }

  function TargetOf(e: Entry): Option<(Addr, string)> {
    Target(e.rule, e.desc)
  }

  /** The nodes on the way to the target. */
  function Visits(e: Entry): set<Addr>
    requires TargetOf(e).Some?
  {
    Track(Root, WalkOf(e.rule, e.desc).steps)
  }

  ghost predicate Installed(u: Trie, e: Entry) {
    && TargetOf(e).Some?
    && MethodFor(e.rule, e.desc, e.name).Built?
    && Bound(u, TargetOf(e).value.0, TargetOf(e).value.1) == Some(MethodFor(e.rule, e.desc, e.name).m)
    && Visits(e) <= u.Keys
  }

  /** `u` is `t` with exactly the entries `es`. */
  ghost predicate Union(t: Trie, u: Trie, es: seq<Entry>) {
    && Wf(u) && NoStar(u) && PlainTrie(u)
    && t.Keys <= u.Keys
    && (forall x, v :: Bound(t, x, v).Some? ==> Bound(u, x, v) == Bound(t, x, v))
    && HasEntries(t, u, es) && NodesFrom(t, u, es) && BindsFrom(t, u, es)
  }

  ghost predicate HasEntries(t: Trie, u: Trie, es: seq<Entry>) {
    forall e :: e in es ==> Installed(u, e) && Bound(t, TargetOf(e).value.0, TargetOf(e).value.1) == None
  }

  ghost predicate NodesFrom(t: Trie, u: Trie, es: seq<Entry>) {
    forall x :: x in u && x !in t ==> exists e :: e in es && TargetOf(e).Some? && x in Visits(e)
  }

  ghost predicate BindsFrom(t: Trie, u: Trie, es: seq<Entry>) {
    forall x, v :: Bound(u, x, v).Some? && Bound(t, x, v).None? ==> exists e :: e in es && TargetOf(e) == Some((x, v))
  }

  lemma {:induction false} UnionOne(t: Trie, e: Entry)
    requires Wf(t) && NoStar(t) && PlainTrie(t) && AddOne(t, e.rule, e.desc, e.name).1.Added?
    ensures Union(t, AddOne(t, e.rule, e.desc, e.name).0, [e])
  {
    AddOneExact(t, e.rule, e.desc, e.name);
    AddOnePlain(t, e.rule, e.desc, e.name);
    SingleUnion(t, AddOne(t, e.rule, e.desc, e.name).0, e);
  }

  lemma {:induction false} SingleUnion(t: Trie, u: Trie, e: Entry)
    requires Wf(u) && NoStar(u) && PlainTrie(u) && TargetOf(e).Some? && MethodFor(e.rule, e.desc, e.name).Built?
    requires u.Keys == t.Keys + Visits(e)
    requires Adds(t, u, TargetOf(e).value.0, TargetOf(e).value.1, MethodFor(e.rule, e.desc, e.name).m)
    ensures Union(t, u, [e])
  {
    assert e in [e];
  }

  lemma {:induction false} NodesTrans(t: Trie, t1: Trie, u: Trie, e: Entry, es: seq<Entry>)
    requires NodesFrom(t, t1, [e]) && NodesFrom(t1, u, es)
    ensures NodesFrom(t, u, [e] + es)
  {
    forall x | x in u && x !in t ensures exists f :: f in [e] + es && TargetOf(f).Some? && x in Visits(f) {
      if x in t1 {
        var f :| f in [e] && TargetOf(f).Some? && x in Visits(f);
        assert f in [e] + es;
      } else {
        var f :| f in es && TargetOf(f).Some? && x in Visits(f);
        assert f in [e] + es;
      }
    }
  }

  lemma {:induction false} BindsTrans(t: Trie, t1: Trie, u: Trie, e: Entry, es: seq<Entry>)
    requires BindsFrom(t, t1, [e]) && BindsFrom(t1, u, es)
    ensures BindsFrom(t, u, [e] + es)
  {
    forall x, v | Bound(u, x, v).Some? && Bound(t, x, v).None?
      ensures exists f :: f in [e] + es && TargetOf(f) == Some((x, v))
    {
      if Bound(t1, x, v).Some? {
        var f :| f in [e] && TargetOf(f) == Some((x, v));
        assert f in [e] + es;
      } else {
        var f :| f in es && TargetOf(f) == Some((x, v));
        assert f in [e] + es;
      }
    }
  }

  lemma {:induction false} EntriesTrans(t: Trie, t1: Trie, u: Trie, e: Entry, es: seq<Entry>)
    requires HasEntries(t, t1, [e]) && HasEntries(t1, u, es) && t1.Keys <= u.Keys
    requires forall x, v :: Bound(t, x, v).Some? ==> Bound(t1, x, v) == Bound(t, x, v)
    requires forall x, v :: Bound(t1, x, v).Some? ==> Bound(u, x, v) == Bound(t1, x, v)
    ensures HasEntries(t, u, [e] + es)
  {
    assert e in [e] && Installed(t1, e);
    assert Installed(u, e);
    forall f | f in [e] + es ensures Installed(u, f) && Bound(t, TargetOf(f).value.0, TargetOf(f).value.1) == None {
      assert f == e || f in es;
    }
  }

  lemma {:induction false} UnionTrans(t: Trie, t1: Trie, u: Trie, e: Entry, es: seq<Entry>)
    requires Union(t, t1, [e]) && Union(t1, u, es)
    ensures Union(t, u, [e] + es)
  {
    NodesTrans(t, t1, u, e, es);
    BindsTrans(t, t1, u, e, es);
    EntriesTrans(t, t1, u, e, es);
  }

  lemma {:induction false} UnionNone(t: Trie)
    requires Wf(t) && NoStar(t) && PlainTrie(t)
    ensures Union(t, t, [])
  {
  }

  lemma {:induction false} AddAllUnion(t: Trie, es: seq<Entry>)
    requires Wf(t) && NoStar(t) && PlainTrie(t) && AddAll(t, es).Some?
    ensures Union(t, AddAll(t, es).value, es)
    decreases |es|
  {
    hide Union, AddOne, PlainTrie;
    if es == [] {
      UnionNone(t);
    } else {
      var e := es[0];
      UnionOne(t, e);
      var t1 := AddOne(t, e.rule, e.desc, e.name).0;
      AddAllUnion(t1, es[1..]);
      UnionTrans(t, t1, AddAll(t, es).value, e, es[1..]);
      assert [e] + es[1..] == es;
    }
  }

  /** A plain trie is determined by its addresses and its bindings. */
  lemma {:induction false} TrieEqual(a: Trie, b: Trie)
    requires Wf(a) && Wf(b) && NoStar(a) && NoStar(b) && PlainTrie(a) && PlainTrie(b)
    requires a.Keys == b.Keys
    requires forall x, v :: Bound(a, x, v) == Bound(b, x, v)
    ensures a == b
  {
    forall x | x in a ensures a[x] == b[x] {
      NodeEqual(a, b, x);
    }
  }

  lemma {:induction false} NodeEqual(a: Trie, b: Trie, x: Addr)
    requires Wf(a) && Wf(b) && NoStar(a) && NoStar(b) && PlainTrie(a) && PlainTrie(b)
    requires a.Keys == b.Keys && x in a
    requires forall v :: Bound(a, x, v) == Bound(b, x, v)
    ensures a[x] == b[x]
  {
    VarsSame(a, b, x);
    VarsSame(b, a, x);
    SortedUnique(a[x].vars, b[x].vars);
    assert Bound(a, x, "*") == Bound(b, x, "*");
    forall v ensures v in a[x].methods <==> v in b[x].methods {
      assert Bound(a, x, v) == Bound(b, x, v);
    }
    forall v | v in a[x].methods ensures a[x].methods[v] == b[x].methods[v] {
      assert Bound(a, x, v) == Bound(b, x, v);
    }
  }

  lemma {:induction false} VarsSame(a: Trie, b: Trie, x: Addr)
    requires Wf(a) && Wf(b) && PlainTrie(a) && PlainTrie(b) && a.Keys == b.Keys && x in a
    ensures Sorted(a[x].vars)
    ensures forall v :: v in a[x].vars ==> v in b[x].vars
  {
    assert GoodVars(a, x) && GoodVars(b, x);
    forall v | v in a[x].vars ensures v in b[x].vars {
      var i :| 0 <= i < |a[x].vars| && a[x].vars[i] == v;
      assert HasVar(a[x].vars, v.name);
      assert At(x, Var(v.name)) in b;
      var j :| 0 <= j < |b[x].vars| && b[x].vars[j].name == v.name;
      PlainMeans(a[x].vars[i]);
      PlainMeans(b[x].vars[j]);
      assert b[x].vars[j] == v;
    }
  }

  /** Adding the same bindings in two orders gives the same trie, hence the same matches. */
  lemma {:induction false} OrderIrrelevant(t: Trie, es: seq<Entry>, fs: seq<Entry>)
    requires Wf(t) && NoStar(t) && PlainTrie(t)
    requires forall e :: e in es <==> e in fs
    requires AddAll(t, es).Some? && AddAll(t, fs).Some?
    ensures AddAll(t, es) == AddAll(t, fs)
  {
    hide AddAll, Bound, Wf, NoStar, PlainTrie, HasEntries, NodesFrom, BindsFrom;
    var a, b := AddAll(t, es).value, AddAll(t, fs).value;
    AddAllUnion(t, es);
    AddAllUnion(t, fs);
    UnionInto(t, a, b, es, fs);
    UnionInto(t, b, a, fs, es);
    forall x, v ensures Bound(a, x, v) == Bound(b, x, v) {
      UnionBound(t, a, b, es, fs, x, v);
      UnionBound(t, b, a, fs, es, x, v);
    }
    TrieEqual(a, b);
  }

  lemma {:induction false} UnionInto(t: Trie, a: Trie, b: Trie, es: seq<Entry>, fs: seq<Entry>)
    requires Union(t, a, es) && Union(t, b, fs) && forall e :: e in es ==> e in fs
    ensures a.Keys <= b.Keys
  {
    forall x | x in a ensures x in b {
      if x !in t {
        var e :| e in es && TargetOf(e).Some? && x in Visits(e);
        assert Installed(b, e);
      }
    }
  }

  lemma {:induction false} UnionBound(t: Trie, a: Trie, b: Trie, es: seq<Entry>, fs: seq<Entry>, x: Addr, v: string)
    requires Union(t, a, es) && Union(t, b, fs) && forall e :: e in es ==> e in fs
    ensures Bound(a, x, v).Some? ==> Bound(b, x, v) == Bound(a, x, v)
  {
    if Bound(a, x, v).Some? && Bound(t, x, v).None? {
      var e :| e in es && TargetOf(e) == Some((x, v));
      assert Installed(a, e) && Installed(b, e);
    }
  }

  /* ---- When a list of bindings is added ---- */

  /** The entry can be added to `t`: its template and its bodies resolve, its target is free,
      and no wildcard method sits on the target node. */
  ghost predicate Addable(t: Trie, e: Entry) {
    && TargetOf(e).Some?
    && MethodFor(e.rule, e.desc, e.name).Built?
    && Bound(t, TargetOf(e).value.0, TargetOf(e).value.1) == None
    && Bound(t, TargetOf(e).value.0, "*") == None
  }

  /** No two entries have the same target, and no entry comes after a wildcard entry for
      its node. */
  ghost predicate Compatible(es: seq<Entry>) {
    forall i, j :: 0 <= i < j < |es| ==> Harmless(es[i], es[j])
  }

  ghost predicate Harmless(e: Entry, f: Entry) {
    TargetOf(e).Some? && TargetOf(f).Some? && TargetOf(e).value.0 == TargetOf(f).value.0 ==>
      TargetOf(e).value.1 != "*" && TargetOf(e).value.1 != TargetOf(f).value.1
  }

  lemma {:induction false} AddOneIff(t: Trie, e: Entry)
    requires Wf(t) && NoStar(t)
    ensures AddOne(t, e.rule, e.desc, e.name).1.Added? <==> Addable(t, e)
  {
    if TargetOf(e).Some? {
      var w := WalkOf(e.rule, e.desc);
      GrowGood(t, Root, w.steps);
      var (x, verb) := TargetOf(e).value;
      var u := Grow(t, Root, w.steps);
      assert Bound(u, x, verb) == Bound(t, x, verb) && Bound(u, x, "*") == Bound(t, x, "*");
    }
  }

  /** The bindings of `es` are all added exactly when each of them can be added to `t` and
      they are compatible with each other. */
  lemma {:induction false} AddAllIff(t: Trie, es: seq<Entry>)
    requires Wf(t) && NoStar(t)
    ensures AddAll(t, es).Some? <==> AllAddable(t, es) && Compatible(es)
    decreases |es|
  {
    hide AddOne, Wf, NoStar;
    if es != [] {
      var e, rest := es[0], es[1..];
      AddOneIff(t, e);
      assert e in es;
      if Addable(t, e) {
        AddOneExact(t, e.rule, e.desc, e.name);
        var t1 := AddOne(t, e.rule, e.desc, e.name).0;
        AddAllIff(t1, rest);
        forall f ensures Addable(t1, f) <==> Addable(t, f) && Harmless(e, f) {
        }
        AddAllStep(t, t1, es);
      }
    }
  }

  ghost predicate AllAddable(t: Trie, es: seq<Entry>) {
    forall e :: e in es ==> Addable(t, e)
  }

  lemma {:induction false} AddAllStep(t: Trie, t1: Trie, es: seq<Entry>)
    requires es != [] && Addable(t, es[0])
    requires forall f :: Addable(t1, f) <==> Addable(t, f) && Harmless(es[0], f)
    ensures AllAddable(t1, es[1..]) && Compatible(es[1..]) <==> AllAddable(t, es) && Compatible(es)
  {
    var rest := es[1..];
    if AllAddable(t1, rest) && Compatible(rest) {
      forall f | f in es ensures Addable(t, f) {
        assert f == es[0] || f in rest;
      }
      CompatibleCons(es);
    }
    if AllAddable(t, es) && Compatible(es) {
      forall f | f in rest ensures Addable(t1, f) {
        var j :| 0 <= j < |rest| && rest[j] == f;
        assert f == es[j + 1] && f in es && Harmless(es[0], es[j + 1]);
      }
      forall i, j | 0 <= i < j < |rest| ensures Harmless(rest[i], rest[j]) {
        assert rest[i] == es[i + 1] && rest[j] == es[j + 1];
      }
    }
  }

  lemma {:induction false} CompatibleCons(es: seq<Entry>)
    requires es != [] && Compatible(es[1..]) && forall f :: f in es[1..] ==> Harmless(es[0], f)
    ensures Compatible(es)
  {
    forall i, j | 0 <= i < j < |es| ensures Harmless(es[i], es[j]) {
      assert es[j] == es[1..][j - 1] && es[j] in es[1..];
      if i > 0 {
        assert es[i] == es[1..][i - 1];
      }
    }
  }

  /** A wildcard binding shares its node with no specific one. */
  ghost predicate Apart(es: seq<Entry>) {
    forall e, f :: e in es && f in es && OneNode(e, f) && TargetOf(e).value.1 == "*" ==> TargetOf(f).value.1 == "*"
  }

  ghost predicate OneNode(e: Entry, f: Entry) {
    TargetOf(e).Some? && TargetOf(f).Some? && TargetOf(e).value.0 == TargetOf(f).value.0
  }

  /** Then any permutation of the bindings is added too, to the same trie. */
  lemma {:induction false} PermutationIrrelevant(t: Trie, es: seq<Entry>, fs: seq<Entry>)
    requires Wf(t) && NoStar(t) && PlainTrie(t)
    requires multiset(es) == multiset(fs)
    requires Apart(es)
    ensures AddAll(t, es) == AddAll(t, fs)
  {
    AddAllIff(t, es);
    AddAllIff(t, fs);
    SameElements(es, fs);
    if AddAll(t, es).Some? {
      CompatiblePermuted(es, fs);
      OrderIrrelevant(t, es, fs);
    } else if AddAll(t, fs).Some? {
      CompatiblePermuted(fs, es);
    }
  }

  lemma {:induction false} SameElements<T>(a: seq<T>, b: seq<T>)
    requires multiset(a) == multiset(b)
    ensures forall x :: x in a <==> x in b
  {
    forall x ensures x in a <==> x in b {
      assert x in a <==> x in multiset(a);
      assert x in b <==> x in multiset(b);
    }
  }

  /** Where they do share a node, the order matters: the specific binding has to come first. */
  lemma {:induction false} WildcardLast(t: Trie, e: Entry, f: Entry)
    requires Wf(t) && NoStar(t) && Addable(t, e) && Addable(t, f) && OneNode(e, f)
    requires TargetOf(e).value.1 == "*" != TargetOf(f).value.1
    ensures AddAll(t, [f, e]).Some? && AddAll(t, [e, f]).None?
  {
    AddAllIff(t, [f, e]);
    AddAllIff(t, [e, f]);
    assert !Harmless([e, f][0], [e, f][1]) && Harmless([f, e][0], [f, e][1]);
  }

  /** Two occurrences of equal elements are two occurrences in every permutation. */
  lemma {:induction false} CompatiblePermuted(es: seq<Entry>, fs: seq<Entry>)
    requires multiset(es) == multiset(fs) && Compatible(es)
    requires Apart(es)
    ensures Compatible(fs)
  {
    SameElements(es, fs);
    forall i, j | 0 <= i < j < |fs| ensures Harmless(fs[i], fs[j]) {
      var a, b := TwoPlaces(es, fs, i, j);
      assert Harmless(es[if a < b then a else b], es[if a < b then b else a]);
      assert OneNode(es[a], es[b]) <==> OneNode(es[b], es[a]);
    }
  }

  lemma {:induction false} TwoPlaces<T>(es: seq<T>, fs: seq<T>, i: nat, j: nat) returns (a: nat, b: nat)
    requires multiset(es) == multiset(fs) && i < j < |fs|
    ensures a < |es| && b < |es| && a != b && es[a] == fs[i] && es[b] == fs[j]
  {
    SameElements(es, fs);
    assert fs[i] in fs && fs[j] in fs;
    a :| 0 <= a < |es| && es[a] == fs[i];
    if fs[i] != fs[j] {
      b :| 0 <= b < |es| && es[b] == fs[j];
    } else {
      CountTwice(fs, i, j);
      b := Another(es, a);
    }
  }

  lemma {:induction false} CountTwice<T>(s: seq<T>, i: nat, j: nat)
    requires i < j < |s| && s[i] == s[j]
    ensures multiset(s)[s[i]] >= 2
  {
    assert s == s[..i] + [s[i]] + s[i + 1..j] + [s[j]] + s[j + 1..];
  }

  lemma {:induction false} Another<T>(s: seq<T>, a: nat) returns (b: nat)
    requires a < |s| && multiset(s)[s[a]] >= 2
    ensures b < |s| && b != a && s[b] == s[a]
  {
    assert s == s[..a] + [s[a]] + s[a + 1..];
    assert s[a] in multiset(s[..a]) || s[a] in multiset(s[a + 1..]);
    if s[a] in s[..a] {
      b :| 0 <= b < a && s[b] == s[a];
    } else {
      var k :| 0 <= k < |s[a + 1..]| && s[a + 1..][k] == s[a];
      b := a + 1 + k;
    }
  }
}
