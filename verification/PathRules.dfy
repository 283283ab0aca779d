/** `path.addRule` on the mutable tree, step by step as in `Rules`. */
module PathRules {
  import opened Options
  import opened Tokens
  import opened Tries
  import opened Rules
  import opened Lexers
  import opened Grammar
  import opened PathTree

  lemma {:induction false} Dropped<T>(s: seq<T>, i: nat, k: nat)
    requires i + k <= |s|
    ensures s[i..][k..] == s[i + k..]
  {
  }

  lemma {:induction false} KeysUnfold(slots: seq<Token>, i: nat, keys: seq<string>)
    requires i < |slots|
    ensures WalkKeys(slots[i..], keys) ==
      match slots[i].kind
      case Dot => if i + 1 < |slots| then WalkKeys(slots[i + 2..], keys + [slots[i + 1].val]) else BadHeader
      case Equal => WalkPattern(slots[i + 1..], keys, [])
      case VariableEnd => Header(keys, [Token(Star, "*")], slots[i + 1..])
      case _ => BadHeader
  {
    Dropped(slots, i, 1);
    if i + 1 < |slots| {
      Dropped(slots, i, 2);
    }
  }

  /** The tokens of a pattern, up to the first closing brace. */
  method ReadPattern(slots: seq<Token>, start: nat, keys: seq<string>) returns (ok: bool, vars: seq<Token>, i: nat)
    requires start <= |slots|
    ensures ok ==> start < i <= |slots| && WalkPattern(slots[start..], keys, []) == Header(keys, vars, slots[i..])
    ensures !ok ==> WalkPattern(slots[start..], keys, []) == BadHeader
  {
    i, vars := start, [];
    while i < |slots| && slots[i].kind != VariableEnd
      invariant start <= i <= |slots|
      invariant WalkPattern(slots[start..], keys, []) == WalkPattern(slots[i..], keys, vars)
    {
      Dropped(slots, i, 1);
      vars := vars + [slots[i]];
      i := i + 1;
    }
    ok := i < |slots|;
    if ok {
      Dropped(slots, i, 1);
      i := i + 1;
    }
  }

  /** The field path and the pattern of a variable, from the token after its first name on. */
  method ReadHeader(slots: seq<Token>, start: nat, name: string)
    returns (ok: bool, keys: seq<string>, vars: seq<Token>, i: nat)
    requires start <= |slots|
    ensures ok ==> start < i <= |slots| && WalkKeys(slots[start..], [name]) == Header(keys, vars, slots[i..])
    ensures !ok ==> WalkKeys(slots[start..], [name]) == BadHeader
  {
    i, keys, vars := start, [name], [];
    while i + 1 < |slots| && slots[i].kind == Dot
      invariant start <= i <= |slots|
      invariant WalkKeys(slots[start..], [name]) == WalkKeys(slots[i..], keys)
    {
      KeysUnfold(slots, i, keys);
      keys := keys + [slots[i + 1].val];
      i := i + 2;
    }
    if i == |slots| {
      return false, keys, [], i;
    }
    KeysUnfold(slots, i, keys);
    match slots[i].kind {
      case Equal => ok, vars, i := ReadPattern(slots, i + 1, keys);
      case VariableEnd => return true, keys, [Token(Star, "*")], i + 1;
      case _ => return false, keys, [], i;
    }
  }

  /** What one iteration of the loop over segments does with the cursor. */
  datatype Move = Go(step: Step) | Stop(end: WalkEnd)

  ghost predicate Moves(m: Move, slots: seq<Token>, i: nat, j: nat, desc: Desc)
    requires i < |slots|
  {
    match m
    case Go(step) => i < j <= |slots| && WalkSegment(slots[i..], desc) == Prepend(step, Walk(slots[j..], desc))
    case Stop(end) => WalkSegment(slots[i..], desc) == Walked([], end) && !end.Arrived?
  }

  method ReadSegment(slots: seq<Token>, i: nat, desc: Desc) returns (m: Move, j: nat)
    requires i < |slots|
    ensures Moves(m, slots, i, j, desc)
  {
    if i + 1 >= |slots| {
      return Stop(Broken), i;
    }
    Dropped(slots, i, 2);
    var val := slots[i + 1];
    match val.kind {
      case Star =>
        return Go(VarStep([val], [])), i + 2;
      case StarStar =>
        return Go(VarStep([val], [])), i + 2;
      case Literal =>
        return Go(LitStep(slots[i].val + val.val)), i + 2;
      case VariableStart =>
        m, j := ReadVariable(slots, i, desc);
      case _ =>
        return Stop(Broken), i;
    }
  }

  method ReadVariable(slots: seq<Token>, i: nat, desc: Desc) returns (m: Move, j: nat)
    requires i + 1 < |slots| && slots[i + 1].kind == VariableStart
    ensures Moves(m, slots, i, j, desc)
  {
    if i + 2 >= |slots| {
      return Stop(Broken), i;
    }
    Dropped(slots, i, 3);
    assert slots[i..][2] == slots[i + 2];
    var ok, keys, vars, k := ReadHeader(slots, i + 3, slots[i + 2].val);
    if !ok {
      return Stop(Broken), i;
    }
    var fds := FieldPathOf(desc, keys);
    if fds == [] {
      return Stop(NoField), i;
    }
    return Go(VarStep(vars, fds)), k;
  }

  /** `addPath` or `addVariable`. */
  method Advance(ghost s: Shape, cursor: Path, step: Step) returns (next: Path, ghost s': Shape)
    requires Tree(s) && cursor.In(s)
    modifies cursor
    ensures Grew(s, s') && Tree(s')
    ensures Content(s') == Touch(old(Content(s)), cursor.at, step)
    ensures next.In(s') && next.at == At(cursor.at, EdgeOf(step))
  {
    match step {
      case LitStep(key) => next, s' := cursor.AddPath(s, key);
      case VarStep(toks, _) => next, s' := cursor.AddVariable(s, toks);
    }
  }

  /** What is ahead of the cursor at `a` completes the whole walk `w` over `t0`. */
  ghost predicate Ahead(w: Walked, t0: Trie, t: Trie, a: Addr, vars: seq<FieldPath>, rest: Walked) {
    && Root in t0 && a in t
    && w.end == rest.end
    && Grow(t, a, rest.steps) == Grow(t0, Root, w.steps)
    && Dest(a, rest.steps) == Dest(Root, w.steps)
    && vars + FieldsOf(rest.steps) == FieldsOf(w.steps)
  }

  function WithStep(vars: seq<FieldPath>, step: Step): seq<FieldPath> {
    if step.VarStep? then vars + [step.fds] else vars
  }

  lemma {:induction false} AheadStep(w: Walked, t0: Trie, t: Trie, a: Addr, vars: seq<FieldPath>, step: Step,
                                     rest: Walked)
    requires Ahead(w, t0, t, a, vars, Prepend(step, rest))
    ensures Ahead(w, t0, Touch(t, a, step), At(a, EdgeOf(step)), WithStep(vars, step), rest)
  {
    var steps := Prepend(step, rest).steps;
    assert steps[0] == step && steps[1..] == rest.steps;
    if step.VarStep? {
      assert vars + ([step.fds] + FieldsOf(rest.steps)) == vars + [step.fds] + FieldsOf(rest.steps);
    }
  }

  /** How a walk has ended at `cursor`. */
  ghost predicate Walks(w: Walked, t0: Trie, t: Trie, end: WalkEnd, x: Addr, vars: seq<FieldPath>) {
    && Root in t0 && t == Grow(t0, Root, w.steps) && end == w.end
    && (end.Arrived? ==> x == Dest(Root, w.steps) && vars == FieldsOf(w.steps))
  }

  lemma {:induction false} AheadDone(w: Walked, t0: Trie, t: Trie, a: Addr, vars: seq<FieldPath>, end: WalkEnd)
    requires Ahead(w, t0, t, a, vars, Walked([], end))
    ensures Walks(w, t0, t, end, a, vars)
  {
  }

  lemma {:induction false} WalkUnfold(slots: seq<Token>, i: nat, desc: Desc)
    requires i <= |slots|
    ensures Walk(slots[i..], desc) ==
      if i == |slots| then Walked([], Broken)
      else
        match slots[i].kind
        case Slash => WalkSegment(slots[i..], desc)
        case Verb =>
          if i + 1 < |slots| then Prepend(LitStep(slots[i].val + slots[i + 1].val), Walked([], Arrived))
          else Walked([], Broken)
        case EOF => Walked([], Arrived)
        case _ => Walked([], Broken)
  {
  }

  lemma {:induction false} Start(w: Walked, t: Trie)
    requires Root in t
    ensures Ahead(w, t, t, Root, [], w)
  {
  }

  /** The loop over segments; the tree grows along the template. */
  method WalkSegments(ghost s: Shape, root: Path, slots: seq<Token>, desc: Desc)
    returns (end: WalkEnd, cursor: Path, vars: seq<FieldPath>, i: nat, ghost s': Shape)
    requires Tree(s) && root.In(s) && root.at == Root
    modifies s.Values
    ensures Grew(s, s') && Tree(s') && cursor.In(s')
    ensures i <= |slots| && (end.Arrived? ==> i == |slots| || slots[i].kind != Slash)
    ensures Ahead(Walk(slots, desc), old(Content(s)), Content(s'), cursor.at, vars,
                  if end.Arrived? then Walk(slots[i..], desc) else Walked([], end))
  {
    hide Ahead, Walks, Walk, Tree, Content;
    ghost var w, t0 := Walk(slots, desc), Content(s);
    cursor, vars, s' := root, [], s;
    i := 0;
    assert slots[0..] == slots;
    Start(w, t0);
    while i < |slots| && slots[i].kind == Slash
      invariant i <= |slots|
      invariant Grew(s, s') && Tree(s') && cursor.In(s')
      invariant Ahead(w, t0, Content(s'), cursor.at, vars, Walk(slots[i..], desc))
    {
      WalkUnfold(slots, i, desc);
      var m, j := ReadSegment(slots, i, desc);
      if m.Stop? {
        return m.end, cursor, vars, i, s';
      }
      AheadStep(w, t0, Content(s'), cursor.at, vars, m.step, Walk(slots[j..], desc));
      cursor, s' := Advance(s', cursor, m.step);
      vars := WithStep(vars, m.step);
      i := j;
    }
    end := Arrived;
  }

  /** The whole walk: the segments, then the verb or the end of the template. */
  method WalkTree(ghost s: Shape, root: Path, slots: seq<Token>, desc: Desc)
    returns (end: WalkEnd, cursor: Path, vars: seq<FieldPath>, ghost s': Shape)
    requires Tree(s) && root.In(s) && root.at == Root
    modifies s.Values
    ensures Grew(s, s') && Tree(s') && cursor.In(s')
    ensures Walks(Walk(slots, desc), old(Content(s)), Content(s'), end, cursor.at, vars)
  {
    hide Ahead, Walks, Walk, Tree, Content;
    ghost var w, t0 := Walk(slots, desc), Content(s);
    var i;
    end, cursor, vars, i, s' := WalkSegments(s, root, slots, desc);
    if end.Arrived? {
      WalkUnfold(slots, i, desc);
      if i + 1 < |slots| && slots[i].kind == Verb {
        var step := LitStep(slots[i].val + slots[i + 1].val);
        AheadStep(w, t0, Content(s'), cursor.at, vars, step, Walked([], Arrived));
        cursor, s' := Advance(s', cursor, step);
      } else if i == |slots| || slots[i].kind != EOF {
        end := Broken;
      }
    }
    AheadDone(w, t0, Content(s'), cursor.at, vars, end);
  }

  /* ---- Registration ---- */

  /** The end of `addRule`, at the node that the walk has reached. */
  method Bind(ghost s: Shape, cursor: Path, verb: string, rule: HttpRule, desc: Desc, name: string,
              vars: seq<FieldPath>)
    returns (r: RuleResult)
    requires Tree(s) && cursor.In(s)
    modifies cursor
    ensures Tree(s)
    ensures (Content(s), r) == Register(old(Content(s)), cursor.at, verb, rule, desc, name, vars)
  {
    hide Tree, Content, BuildMethod;
    HeldAt(s, cursor);
    if verb in cursor.methods {
      return if cursor.methods[verb].desc.fullName != desc.fullName then Fails(DuplicateRule) else Already;
    }
    if cursor.methodAll.Some? {
      return Panics;
    }
    match BuildMethod(rule, desc, name, vars) {
      case Unbuilt(err) =>
        return Fails(err);
      case Built(m) =>
        cursor.Set(s, verb, m);
        return Added;
    }
  }

  /** The token array after a template has been lexed. */
  lemma {:induction false} SlotsOf(l: Lexer, tmpl: string)
    requires l.Valid() && TemplateFits(tmpl) && l.emitted == TemplateTokens(ParseTemplate(tmpl).value)
    ensures l.toks[..] == Slots(tmpl)
  {
  }

  /** The walk's outcome, when it does not arrive. */
  function Stopped(end: WalkEnd): RuleResult
    requires !end.Arrived?
  {
    if end.NoField? then Fails(FieldNotFound) else Panics
  }

  /** One binding, without the additional ones. */
  method AddBinding(ghost s: Shape, root: Path, rule: HttpRule, desc: Desc, name: string)
    returns (r: RuleResult, ghost s': Shape)
    requires Tree(s) && root.In(s) && root.at == Root && Wf(Content(s)) && NoStar(Content(s))
    modifies s.Values
    ensures Grew(s, s') && Tree(s')
    ensures (Content(s'), r) == AddOne(old(Content(s)), rule, desc, name)
  {
    hide Tree, Content, Wf, NoStar, Walk, Grow, Register, ParseTemplate, TemplateTokens, Slots;
    if rule.pattern.Unset? {
      return Fails(Unsupported), s;
    }
    var l := new Lexer(rule.pattern.tmpl);
    var err := l.LexTemplate();
    if err != Ok {
      return Fails(BadTemplate), s;
    }
    SlotsOf(l, rule.pattern.tmpl);
    var end, cursor, vars;
    end, cursor, vars, s' := WalkTree(s, root, l.toks[..], desc);
    if !end.Arrived? {
      return Stopped(end), s';
    }
    r := Bind(s', cursor, VerbOf(rule.pattern), rule, desc, name, vars);
  }

  /** `AddMore` from the k-th rule on, when the rule has no additional bindings of its own. */
  lemma {:induction false} AddMoreUnfold(t: Trie, rules: seq<HttpRule>, k: nat, desc: Desc, name: string)
    requires Wf(t) && NoStar(t) && k < |rules|
    ensures rules[k].additional != [] ==> AddMore(t, rules[k..], desc, name) == (t, Fails(NestedRules))
    ensures rules[k].additional == [] ==>
      var (u, r) := Rules.AddRule(t, rules[k], desc, name);
      && Wf(u) && NoStar(u)
      && AddMore(t, rules[k..], desc, name) ==
           if r.Fails? || r.Panics? then (u, r) else AddMore(u, rules[k + 1..], desc, name)
  {
    assert rules[k..][0] == rules[k];
    Dropped(rules, k, 1);
    AddRuleExact(t, rules[k], desc, name);
    if rules[k].additional == [] {
      AddOneExact(t, rules[k], desc, name);
      var (u, r) := AddOne(t, rules[k], desc, name);
      assert AddMore(u, [], desc, name) == (u, Added);
    }
  }

  lemma {:induction false} AddRuleUnfold(t: Trie, rule: HttpRule, desc: Desc, name: string)
    requires Wf(t) && NoStar(t)
    ensures var (u, r) := AddOne(t, rule, desc, name);
      && Wf(u) && NoStar(u)
      && Rules.AddRule(t, rule, desc, name) ==
           if r.Added? then AddMore(u, rule.additional, desc, name) else (u, r)
  {
    AddOneExact(t, rule, desc, name);
  }

  lemma {:induction false} AddMoreEnd(t: Trie, rules: seq<HttpRule>, desc: Desc, name: string)
    requires Wf(t) && NoStar(t)
    ensures AddMore(t, rules[|rules|..], desc, name) == (t, Added)
  {
  }

  method AddRule(ghost s: Shape, root: Path, rule: HttpRule, desc: Desc, name: string)
    returns (r: RuleResult, ghost s': Shape)
    requires Tree(s) && root.In(s) && root.at == Root && Wf(Content(s)) && NoStar(Content(s))
    modifies s.Values
    ensures Grew(s, s') && Tree(s') && Wf(Content(s')) && NoStar(Content(s'))
    ensures (Content(s'), r) == Rules.AddRule(old(Content(s)), rule, desc, name)
    decreases rule
  {
    hide Tree, Content, Wf, NoStar, AddOne, AddMore, Rules.AddRule;
    AddRuleUnfold(Content(s), rule, desc, name);
    r, s' := AddBinding(s, root, rule, desc, name);
    if !r.Added? {
      return;
    }
    var more, k := rule.additional, 0;
    ghost var t := Content(s');
    assert more[0..] == more;
    while k < |more|
      invariant k <= |more|
      invariant Grew(s, s') && Tree(s') && Wf(Content(s')) && NoStar(Content(s'))
      invariant AddMore(t, more, desc, name) == AddMore(Content(s'), more[k..], desc, name)
    {
      AddMoreUnfold(Content(s'), more, k, desc, name);
      if more[k].additional != [] {
        return Fails(NestedRules), s';
      }
      r, s' := AddRule(s', root, more[k], desc, name);
      if r.Fails? || r.Panics? {
        return;
      }
      k := k + 1;
    }
    AddMoreEnd(Content(s'), more, desc, name);
    r := Added;
  }
}
