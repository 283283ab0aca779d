/** HTTP rules, and adding one to a trie: the walk over the template's tokens, the nodes it
    creates and the binding it registers. */
module Rules {
  import opened Options
  import opened Characters
  import opened Tokens
  import opened Grammar
  import opened Tries
  import opened Lexers

  datatype Pattern =
    | Get(tmpl: string) | Put(tmpl: string) | Post(tmpl: string) | Delete(tmpl: string) | Patch(tmpl: string)
    | Custom(kind: string, tmpl: string)
    | Unset

  datatype HttpRule = HttpRule(pattern: Pattern, body: string, responseBody: string, additional: seq<HttpRule>)

  function Upper(s: string): string {
    if s == "" then ""
    else [if 'a' <= s[0] <= 'z' then s[0] - 'a' + 'A' else s[0]] + Upper(s[1..])
  }

  function VerbOf(p: Pattern): string
    requires !p.Unset?
  {
    match p
    case Get(_) => "GET"
    case Put(_) => "PUT"
    case Post(_) => "POST"
    case Delete(_) => "DELETE"
    case Patch(_) => "PATCH"
    case Custom(kind, _) => Upper(kind)
  }

  /** The pattern of an HTTP verb: its own one if it has one, otherwise a custom one. */
  function PatternOfVerb(verb: string, tmpl: string): Pattern {
    if verb == "GET" then Get(tmpl)
    else if verb == "PUT" then Put(tmpl)
    else if verb == "POST" then Post(tmpl)
    else if verb == "DELETE" then Delete(tmpl)
    else if verb == "PATCH" then Patch(tmpl)
    else Custom(verb, tmpl)
  }

  /** Every verb without lower-case letters, the wildcard included, is that of its pattern; and
      each pattern but a custom one is that of its verb. */
  lemma {:induction false} VerbRoundTrip(verb: string, p: Pattern)
    requires forall i :: 0 <= i < |verb| ==> verb[i] !in LOWER
    ensures forall tmpl :: VerbOf(PatternOfVerb(verb, tmpl)) == verb
    ensures !p.Unset? && !p.Custom? ==> PatternOfVerb(VerbOf(p), p.tmpl) == p
  {
    UpperAt(verb);
    assert Upper(verb) == verb;
  }

  lemma {:induction false} UpperFrom(s: string, lower: string, upper: string)
    requires InOrder(lower, 'a') && InOrder(upper, 'A') && |lower| == |upper| == 26
    ensures |Upper(s)| == |s|
    ensures forall i, k :: 0 <= i < |s| && 0 <= k < 26 && s[i] == lower[k] ==> Upper(s)[i] == upper[k]
    ensures forall i :: 0 <= i < |s| && s[i] !in lower ==> Upper(s)[i] == s[i]
  {
    if s != "" {
      UpperFrom(s[1..], lower, upper);
      if 'a' <= s[0] <= 'z' {
        assert s[0] == lower[(s[0] - 'a') as int];
      }
    }
  }

  /** Upper-casing puts each lower-case letter's capital in its place and keeps everything else. */
  lemma {:induction false} UpperAt(s: string)
    ensures |Upper(s)| == |s|
    ensures forall i, k :: 0 <= i < |s| && 0 <= k < |LOWER| && s[i] == LOWER[k] ==> Upper(s)[i] == UPPER[k]
    ensures forall i :: 0 <= i < |s| && s[i] !in LOWER ==> Upper(s)[i] == s[i]
  {
    LettersInOrder();
    hide InOrder, Upper;
    UpperFrom(s, LOWER, UPPER);
  }

  /** `strings.Split(s, ".")`. */
  function Split(s: string): (parts: seq<string>)
    ensures parts != []
  {
    if s == "" then [""]
    else
      var rest := Split(s[1..]);
      if s[0] == '.' then [""] + rest else [[s[0]] + rest[0]] + rest[1..]
  }

  /** The parts with a dot between each two. */
  function Dotted(parts: seq<string>): string {
    if parts == [] then "" else if |parts| == 1 then parts[0] else parts[0] + "." + Dotted(parts[1..])
  }

  predicate NoDot(s: string) {
    forall i :: 0 <= i < |s| ==> s[i] != '.'
  }

  predicate NoDots(parts: seq<string>) {
    forall i :: 0 <= i < |parts| ==> NoDot(parts[i])
  }

  /** Splitting undoes joining. */
  lemma {:induction false} SplitDotted(parts: seq<string>)
    requires parts != [] && NoDots(parts)
    ensures Split(Dotted(parts)) == parts
    decreases |parts|
  {
    if |parts| == 1 {
      SplitPart(parts[0]);
    } else {
      SplitDotted(parts[1..]);
      SplitAfter(parts[0], Dotted(parts[1..]));
      assert parts == [parts[0]] + parts[1..];
    }
  }

  lemma {:induction false} SplitPart(s: string)
    requires NoDot(s)
    ensures Split(s) == [s]
  {
    if s != "" {
      SplitPart(s[1..]);
      assert s == [s[0]] + s[1..];
    }
  }

  lemma {:induction false} SplitAfter(s: string, rest: string)
    requires NoDot(s)
    ensures Split(s + "." + rest) == [s] + Split(rest)
  {
    if s == "" {
      assert s + "." + rest == "." + rest && ("." + rest)[1..] == rest;
    } else {
      SplitAfter(s[1..], rest);
      assert (s + "." + rest)[1..] == s[1..] + "." + rest;
      assert s == [s[0]] + s[1..];
    }
  }

  /** Joining undoes splitting. */
  lemma {:induction false} DottedSplit(s: string)
    ensures Dotted(Split(s)) == s && NoDots(Split(s))
  {
    if s != "" {
      DottedSplit(s[1..]);
      var rest := Split(s[1..]);
      assert s == [s[0]] + s[1..];
      if s[0] == '.' {
        assert ([""] + rest)[1..] == rest;
      } else {
        var parts := [[s[0]] + rest[0]] + rest[1..];
        assert parts[1..] == rest[1..];
        assert |rest| > 1 ==> Dotted(parts) == [s[0]] + rest[0] + "." + Dotted(rest[1..]);
      }
    }
  }

  /** `fieldPath`: `[]` when a name is not found. */
  function FieldPathOf(desc: Desc, keys: seq<string>): FieldPath {
    if keys in desc.fields then desc.fields[keys] else []
  }

  /* ---- The walk over the tokens of a template ---- */

  /** One iteration of the loop over segments. */
  datatype Step = LitStep(key: string) | VarStep(toks: seq<Token>, fds: FieldPath)

  /** How a walk ends: at the end of the template, at an unknown field, or in a panic. */
  datatype WalkEnd = Arrived | NoField | Broken

  datatype Walked = Walked(steps: seq<Step>, end: WalkEnd)

  function Prepend(s: Step, w: Walked): Walked {
    Walked([s] + w.steps, w.end)
  }

  datatype Header = BadHeader | Header(keys: seq<string>, toks: seq<Token>, rest: seq<Token>)

  /** The dotted names of a variable, from the token after a name on. */
  function WalkKeys(toks: seq<Token>, keys: seq<string>): Header {
    if toks == [] then BadHeader
    else
      match toks[0].kind
      case Dot => if |toks| < 2 then BadHeader else WalkKeys(toks[2..], keys + [toks[1].val])
      case Equal => WalkPattern(toks[1..], keys, [])
      case VariableEnd => Header(keys, [Token(Star, "*")], toks[1..])
      case _ => BadHeader
  }

  /** The tokens up to the first closing brace. */
  function WalkPattern(toks: seq<Token>, keys: seq<string>, vars: seq<Token>): Header {
    if toks == [] then BadHeader
    else if toks[0].kind == VariableEnd then Header(keys, vars, toks[1..])
    else WalkPattern(toks[1..], keys, vars + [toks[0]])
  }

  lemma {:induction false} WalkPatternShrinks(toks: seq<Token>, keys: seq<string>, vars: seq<Token>)
    ensures WalkPattern(toks, keys, vars).Header? ==> |WalkPattern(toks, keys, vars).rest| < |toks|
  {
    if toks != [] && toks[0].kind != VariableEnd {
      WalkPatternShrinks(toks[1..], keys, vars + [toks[0]]);
    }
  }

  lemma {:induction false} WalkKeysShrinks(toks: seq<Token>, keys: seq<string>)
    ensures WalkKeys(toks, keys).Header? ==> |WalkKeys(toks, keys).rest| < |toks|
  {
    if toks != [] {
      if toks[0].kind == Dot && |toks| >= 2 {
        WalkKeysShrinks(toks[2..], keys + [toks[1].val]);
      } else if toks[0].kind == Equal {
        WalkPatternShrinks(toks[1..], keys, []);
      }
    }
  }

  /** The walk from a separator token on. Reading past the last slot is a panic. */
  function Walk(toks: seq<Token>, desc: Desc): Walked
    decreases |toks|, 1
  {
    if |toks| < 1 then Walked([], Broken)
    else
      match toks[0].kind
      case Slash => WalkSegment(toks, desc)
      case Verb =>
        if |toks| < 2 then Walked([], Broken)
        else Walked([LitStep(toks[0].val + toks[1].val)], Arrived)
      case EOF => Walked([], Arrived)
      case _ => Walked([], Broken)
  }

  function WalkSegment(toks: seq<Token>, desc: Desc): Walked
    requires |toks| >= 1
    decreases |toks|, 0
  {
    if |toks| < 2 then Walked([], Broken)
    else
      match toks[1].kind
      case Star => Prepend(VarStep([toks[1]], []), Walk(toks[2..], desc))
      case StarStar => Prepend(VarStep([toks[1]], []), Walk(toks[2..], desc))
      case Literal => Prepend(LitStep(toks[0].val + toks[1].val), Walk(toks[2..], desc))
      case VariableStart =>
        if |toks| < 3 then Walked([], Broken)
        else
          WalkKeysShrinks(toks[3..], [toks[2].val]);
          (match WalkKeys(toks[3..], [toks[2].val])
           case BadHeader => Walked([], Broken)
           case Header(keys, vars, rest) =>
             var fds := FieldPathOf(desc, keys);
             if fds == [] then Walked([], NoField) else Prepend(VarStep(vars, fds), Walk(rest, desc)))
      case _ => Walked([], Broken)
  }

  /* ---- Growing a trie along steps ---- */

  function EdgeOf(s: Step): Edge {
    match s
    case LitStep(k) => Lit(k)
    case VarStep(toks, _) => Var(Render(toks))
  }

  function Dest(a: Addr, steps: seq<Step>): Addr
    decreases |steps|
  {
    if steps == [] then a else Dest(At(a, EdgeOf(steps[0])), steps[1..])
  }

  /** The field paths of the variables on the way. */
  function FieldsOf(steps: seq<Step>): seq<FieldPath> {
    if steps == [] then []
    else if steps[0].LitStep? then FieldsOf(steps[1..])
    else [steps[0].fds] + FieldsOf(steps[1..])
  }

  /** `addPath` and `addVariable`: the child along one step, created if it is missing. */
  function Touch(t: Trie, a: Addr, s: Step): Trie
    requires a in t
  {
    var child := At(a, EdgeOf(s));
    if child in t then t
    else if s.LitStep? then t[child := EMPTY]
    else t[a := t[a].(vars := Insert(t[a].vars, Variable(Render(s.toks), s.toks)))][child := EMPTY]
  }

  function Grow(t: Trie, a: Addr, steps: seq<Step>): Trie
    requires a in t
    decreases |steps|
  {
    if steps == [] then t
    else Grow(Touch(t, a, steps[0]), At(a, EdgeOf(steps[0])), steps[1..])
  }

  /** The addresses that steps visit after `a`. */
  function Track(a: Addr, steps: seq<Step>): set<Addr>
    decreases |steps|
  {
    if steps == [] then {}
    else {At(a, EdgeOf(steps[0]))} + Track(At(a, EdgeOf(steps[0])), steps[1..])
  }

  lemma {:induction false} DestCount(a: Addr, steps: seq<Step>)
    ensures VarCount(Dest(a, steps)) == VarCount(a) + |FieldsOf(steps)|
    decreases |steps|
  {
    if steps != [] {
      DestCount(At(a, EdgeOf(steps[0])), steps[1..]);
    }
  }

  /** The binding of a verb at a node; the verb "*" names the wildcard binding. */
  function Bound(t: Trie, x: Addr, verb: string): Option<Method> {
    if x !in t then None
    else if verb == "*" then t[x].methodAll
    else if verb in t[x].methods then Some(t[x].methods[verb])
    else None
  }

  /** No node keeps a wildcard binding among its verbs. */
  ghost predicate NoStar(t: Trie) {
    forall x :: x in t ==> "*" !in t[x].methods
  }

  /** `u` has the nodes and the bindings of `t`, and possibly more nodes. */
  ghost predicate Extends(u: Trie, t: Trie) {
    && (forall x :: x in t ==> x in u)
    && (forall x, verb :: Bound(u, x, verb) == Bound(t, x, verb))
  }

  lemma {:induction false} NoChild(t: Trie, x: Addr, e: Edge)
    requires Rooted(t) && x !in t
    ensures At(x, e) !in t
  {
  }

  lemma {:induction false} TouchExtends(t: Trie, a: Addr, s: Step)
    requires Wf(t) && NoStar(t) && a in t
    ensures NoStar(Touch(t, a, s)) && Extends(Touch(t, a, s), t) && Rooted(Touch(t, a, s))
    ensures Touch(t, a, s).Keys == t.Keys + {At(a, EdgeOf(s))}
  {
    hide GoodVars, Aligned, Insert, Render;
  }

  lemma {:induction false} TouchGood(t: Trie, a: Addr, s: Step)
    requires Wf(t) && NoStar(t) && a in t
    ensures Wf(Touch(t, a, s))
  {
    TouchExtends(t, a, s);
    var u := Touch(t, a, s);
    if At(a, EdgeOf(s)) !in t {
      forall x | x in u ensures GoodVars(u, x) && Aligned(u, x) {
        TouchNode(t, a, s, x);
      }
    }
  }

  lemma {:induction false} TouchNode(t: Trie, a: Addr, s: Step, x: Addr)
    requires Wf(t) && a in t && At(a, EdgeOf(s)) !in t
    requires x in Touch(t, a, s)
    ensures GoodVars(Touch(t, a, s), x) && Aligned(Touch(t, a, s), x)
  {
    var child, u := At(a, EdgeOf(s)), Touch(t, a, s);
    if x == child {
      forall n ensures At(x, Var(n)) !in u {
        NoChild(t, x, Var(n));
      }
    } else {
      assert GoodVars(t, x) && Aligned(t, x);
      if x == a && s.VarStep? {
        TouchVar(t, a, s);
      }
    }
  }

  lemma {:induction false} TouchVar(t: Trie, a: Addr, s: Step)
    requires Wf(t) && a in t && s.VarStep? && At(a, EdgeOf(s)) !in t
    ensures GoodVars(Touch(t, a, s), a)
  {
    hide Aligned, Insert, Render, Sorted, HasVar, Rank;
    var vs, v := t[a].vars, Variable(Render(s.toks), s.toks);
    assert GoodVars(t, a);
    var u, out := Touch(t, a, s), Insert(vs, v);
    InsertSorts(vs, v);
    InsertNamed(vs, v);
    forall n ensures At(a, Var(n)) in u <==> HasVar(out, n) {
      InsertHas(vs, v, n);
    }
  }

  lemma {:induction false} InsertNamed(vs: seq<Variable>, v: Variable)
    requires v.name == Render(v.toks) && forall i :: 0 <= i < |vs| ==> vs[i].name == Render(vs[i].toks)
    ensures forall i :: 0 <= i < |Insert(vs, v)| ==> Insert(vs, v)[i].name == Render(Insert(vs, v)[i].toks)
  {
    InsertAt(vs, v);
  }

  lemma {:induction false} GrowGood(t: Trie, a: Addr, steps: seq<Step>)
    requires Wf(t) && NoStar(t) && a in t
    ensures Wf(Grow(t, a, steps)) && NoStar(Grow(t, a, steps)) && Extends(Grow(t, a, steps), t)
    ensures Dest(a, steps) in Grow(t, a, steps)
    decreases |steps|
  {
    if steps != [] {
      TouchGood(t, a, steps[0]);
      TouchExtends(t, a, steps[0]);
      GrowGood(Touch(t, a, steps[0]), At(a, EdgeOf(steps[0])), steps[1..]);
    }
  }

  lemma {:induction false} GrowKeys(t: Trie, a: Addr, steps: seq<Step>)
    requires Wf(t) && NoStar(t) && a in t
    ensures Grow(t, a, steps).Keys == t.Keys + Track(a, steps)
    decreases |steps|
  {
    if steps != [] {
      TouchGood(t, a, steps[0]);
      TouchExtends(t, a, steps[0]);
      GrowKeys(Touch(t, a, steps[0]), At(a, EdgeOf(steps[0])), steps[1..]);
    }
  }

  /* ---- Adding a rule ---- */

  datatype RuleError =
    | Unsupported | BadTemplate | FieldNotFound | DuplicateRule | BadBody | BadResponse | NestedRules

  /** `Added` and `Already` are Go's nil error; `Panics` is a run-time panic. */
  datatype RuleResult = Added | Already | Fails(err: RuleError) | Panics

  datatype Built = Built(m: Method) | Unbuilt(err: RuleError)

  /** The method record of a rule. As in the source, the response field path is resolved
      from `body`, not from `responseBody`. */
  function BuildMethod(rule: HttpRule, desc: Desc, name: string, vars: seq<FieldPath>): Built {
    var fds := FieldPathOf(desc, Split(rule.body));
    if rule.body != "*" && rule.body != "" && fds == [] then Unbuilt(BadBody)
    else if rule.responseBody != "" && fds == [] then Unbuilt(BadResponse)
    else
      Built(Method(desc, name, vars,
                   if rule.body == "*" || rule.body == "" then [] else fds,
                   if rule.responseBody == "" then [] else fds,
                   rule.body != ""))
  }

  /** A rule with a response body gets the field that `body` names as its response field, whatever
      the response body says, and is refused when `body` names none. */
  lemma {:induction false} ResponseIsBody(rule: HttpRule, other: string, desc: Desc, name: string, vars: seq<FieldPath>)
    requires rule.responseBody != "" && other != ""
    ensures BuildMethod(rule.(responseBody := other), desc, name, vars) == BuildMethod(rule, desc, name, vars)
    ensures var b, fds := BuildMethod(rule, desc, name, vars), FieldPathOf(desc, Split(rule.body));
      && (b.Built? <==> fds != []) && (b.Built? ==> b.m.resp == fds)
      && (b.Built? ==>
            var meant := FieldPathOf(desc, Split(rule.responseBody));
            b.m.resp == meant <==> fds == meant)
  {
  }

  /** A body that names a field, given by the names on its path: the method gets the field that
      the descriptor has there, and is refused when it has none. */
  lemma {:induction false} BodyField(rule: HttpRule, path: seq<string>, desc: Desc, name: string)
    requires Target(rule, desc).Some?
    requires path != [] && NoDots(path) && rule.body == Dotted(path) && rule.body != "" && rule.body != "*"
    ensures var b := MethodFor(rule, desc, name);
      && (b == Unbuilt(BadBody) <==> path !in desc.fields || desc.fields[path] == [])
      && (b.Built? <==> path in desc.fields && desc.fields[path] != [])
      && (b.Built? ==> b.m.body == desc.fields[path] && b.m.hasBody && b.m.desc == desc && b.m.name == name)
      && (b.Built? ==> b.m.resp == if rule.responseBody == "" then [] else desc.fields[path])
  {
    SplitDotted(path);
  }

  /** The body "*" is the whole message, and without a body there is none. */
  lemma {:induction false} BodyWhole(rule: HttpRule, desc: Desc, name: string)
    requires Target(rule, desc).Some? && (rule.body == "*" || rule.body == "")
    ensures var b := MethodFor(rule, desc, name);
      && (b.Built? <==> rule.responseBody == "" || ([rule.body] in desc.fields && desc.fields[[rule.body]] != []))
      && (b.Unbuilt? ==> b.err == BadResponse)
      && (b.Built? ==> b.m.body == [] && (b.m.hasBody <==> rule.body == "*") && b.m.desc == desc && b.m.name == name)
  {
    SplitPart(rule.body);
  }

  /** The slots of the token array after a template has been lexed. */
  function Slots(tmpl: string): (toks: seq<Token>)
    requires TemplateFits(tmpl)
    ensures |toks| == MAX_TOKENS
  {
    var toks := TemplateTokens(ParseTemplate(tmpl).value);
    toks + seq(MAX_TOKENS - |toks|, i => ZERO)
  }

  function WalkOf(rule: HttpRule, desc: Desc): Walked
    requires !rule.pattern.Unset? && TemplateFits(rule.pattern.tmpl)
  {
    Walk(Slots(rule.pattern.tmpl), desc)
  }

  function SetBinding(t: Trie, x: Addr, verb: string, m: Method): Trie
    requires x in t
  {
    t[x := if verb == "*" then t[x].(methodAll := Some(m)) else t[x].(methods := t[x].methods[verb := m])]
  }

  /** The end of `addRule`: what happens at the node `x` that the walk has reached. */
  function Register(t: Trie, x: Addr, verb: string, rule: HttpRule, desc: Desc, name: string,
                    vars: seq<FieldPath>): (Trie, RuleResult)
    requires x in t
  {
    if verb in t[x].methods then
      (t, if t[x].methods[verb].desc.fullName != desc.fullName then Fails(DuplicateRule) else Already)
    else if t[x].methodAll.Some? then (t, Panics)
    else
      match BuildMethod(rule, desc, name, vars)
      case Unbuilt(err) => (t, Fails(err))
      case Built(m) => (SetBinding(t, x, verb, m), Added)
  }

  /** `addRule` without the additional bindings. */
  function AddOne(t: Trie, rule: HttpRule, desc: Desc, name: string): (Trie, RuleResult)
    requires Wf(t) && NoStar(t)
  {
    if rule.pattern.Unset? then (t, Fails(Unsupported))
    else if !TemplateFits(rule.pattern.tmpl) then (t, Fails(BadTemplate))
    else
      var w := WalkOf(rule, desc);
      var u := Grow(t, Root, w.steps);
      if w.end.NoField? then (u, Fails(FieldNotFound))
      else if w.end.Broken? then (u, Panics)
      else
        GrowGood(t, Root, w.steps);
        Register(u, Dest(Root, w.steps), VerbOf(rule.pattern), rule, desc, name, FieldsOf(w.steps))
  }

  /** The node and the verb that a rule binds, when its template can be walked to the end. */
  function Target(rule: HttpRule, desc: Desc): Option<(Addr, string)> {
    if rule.pattern.Unset? || !TemplateFits(rule.pattern.tmpl) || !WalkOf(rule, desc).end.Arrived? then None
    else Some((Dest(Root, WalkOf(rule, desc).steps), VerbOf(rule.pattern)))
  }

  /** The method that a rule binds. */
  function MethodFor(rule: HttpRule, desc: Desc, name: string): Built
    requires Target(rule, desc).Some?
  {
    BuildMethod(rule, desc, name, FieldsOf(WalkOf(rule, desc).steps))
  }

  lemma {:induction false} SetBindingGood(t: Trie, x: Addr, verb: string, m: Method)
    requires Wf(t) && NoStar(t) && x in t && |m.vars| == VarCount(x)
    ensures Wf(SetBinding(t, x, verb, m)) && NoStar(SetBinding(t, x, verb, m))
  {
    var u := SetBinding(t, x, verb, m);
    forall y | y in u ensures GoodVars(u, y) && Aligned(u, y) {
      assert GoodVars(t, y) && Aligned(t, y);
    }
  }

  /** `u` is `t` with one more binding. */
  ghost predicate Adds(t: Trie, u: Trie, x: Addr, verb: string, m: Method) {
    && Bound(t, x, verb) == None
    && forall y, v :: Bound(u, y, v) == if y == x && v == verb then Some(m) else Bound(t, y, v)
  }

  ghost predicate SameDesc(t: Trie, x: Addr, verb: string, desc: Desc) {
    Bound(t, x, verb).Some? && Bound(t, x, verb).value.desc.fullName == desc.fullName
  }

  lemma {:induction false} SetBindingAdds(t: Trie, x: Addr, verb: string, m: Method)
    requires NoStar(t) && x in t && Bound(t, x, verb) == None
    ensures Adds(t, SetBinding(t, x, verb, m), x, verb, m)
    ensures SetBinding(t, x, verb, m).Keys == t.Keys
  {
    var u := SetBinding(t, x, verb, m);
    forall y, v ensures Bound(u, y, v) == if y == x && v == verb then Some(m) else Bound(t, y, v) {
    }
  }

  lemma {:induction false} RegisterGood(t: Trie, x: Addr, verb: string, rule: HttpRule, desc: Desc, name: string,
                                        vars: seq<FieldPath>)
    requires Wf(t) && NoStar(t) && x in t && |vars| == VarCount(x)
    ensures var (u, r) := Register(t, x, verb, rule, desc, name, vars);
      && Wf(u) && NoStar(u) && u.Keys == t.Keys
      && (!r.Added? ==> u == t)
      && (r.Already? ==> SameDesc(t, x, verb, desc))
      && (r.Added? ==>
            var b := BuildMethod(rule, desc, name, vars);
            b.Built? && Adds(t, u, x, verb, b.m))
  {
    var (u, r) := Register(t, x, verb, rule, desc, name, vars);
    if r.Added? {
      SetBindingGood(t, x, verb, BuildMethod(rule, desc, name, vars).m);
      SetBindingAdds(t, x, verb, BuildMethod(rule, desc, name, vars).m);
    }
  }

  lemma {:induction false} AddsAfter(t: Trie, t1: Trie, u: Trie, x: Addr, verb: string, m: Method)
    requires Extends(t1, t) && Adds(t1, u, x, verb, m)
    ensures Adds(t, u, x, verb, m)
  {
  }

  /** One binding: nothing is removed or replaced, and exactly the target is added. */
  lemma {:induction false} AddOneExact(t: Trie, rule: HttpRule, desc: Desc, name: string)
    requires Wf(t) && NoStar(t)
    ensures var (u, r) := AddOne(t, rule, desc, name);
      && Wf(u) && NoStar(u) && t.Keys <= u.Keys
      && (r.Added? || r.Already? ==> Target(rule, desc).Some?)
      && (!r.Added? ==> Extends(u, t))
      && (r.Already? ==> SameDesc(t, Target(rule, desc).value.0, Target(rule, desc).value.1, desc))
      && (r.Added? ==>
            && u.Keys == t.Keys + Track(Root, WalkOf(rule, desc).steps)
            && MethodFor(rule, desc, name).Built?
            && Adds(t, u, Target(rule, desc).value.0, Target(rule, desc).value.1, MethodFor(rule, desc, name).m))
  {
    if !rule.pattern.Unset? && TemplateFits(rule.pattern.tmpl) {
      var w := WalkOf(rule, desc);
      GrowGood(t, Root, w.steps);
      if w.end.Arrived? {
        var t1, x, verb, vars := Grow(t, Root, w.steps), Dest(Root, w.steps), VerbOf(rule.pattern), FieldsOf(w.steps);
        DestCount(Root, w.steps);
        GrowKeys(t, Root, w.steps);
        RegisterGood(t1, x, verb, rule, desc, name, vars);
        var (u, r) := Register(t1, x, verb, rule, desc, name, vars);
        if r.Added? {
          AddsAfter(t, t1, u, x, verb, BuildMethod(rule, desc, name, vars).m);
        }
      }
    }
  }

  /** The loop over the additional bindings. */
  function AddMore(t: Trie, rules: seq<HttpRule>, desc: Desc, name: string): (Trie, RuleResult)
    requires Wf(t) && NoStar(t)
    decreases |rules|
  {
    if rules == [] then (t, Added)
    else if rules[0].additional != [] then (t, Fails(NestedRules))
    else
      AddOneExact(t, rules[0], desc, name);
      var (u, r) := AddOne(t, rules[0], desc, name);
      if r.Fails? || r.Panics? then (u, r) else AddMore(u, rules[1..], desc, name)
  }

  /** `path.addRule`. */
  function AddRule(t: Trie, rule: HttpRule, desc: Desc, name: string): (Trie, RuleResult)
    requires Wf(t) && NoStar(t)
  {
    AddOneExact(t, rule, desc, name);
    Follow(AddOne(t, rule, desc, name), rule.additional, desc, name)
  }

  /** The additional bindings follow only a binding that was added. */
  function Follow(p: (Trie, RuleResult), rules: seq<HttpRule>, desc: Desc, name: string): (Trie, RuleResult)
    requires Wf(p.0) && NoStar(p.0)
  {
    if p.1.Added? then AddMore(p.0, rules, desc, name) else p
  }

  /** `u` keeps all bindings of `t`; the new ones are those of the rules, under their name. */
  ghost predicate Grown(t: Trie, u: Trie, rules: seq<HttpRule>, desc: Desc, name: string) {
    && Wf(u) && NoStar(u) && t.Keys <= u.Keys
    && (forall x, v :: Bound(t, x, v).Some? ==> Bound(u, x, v) == Bound(t, x, v))
    && (forall x, v :: Bound(t, x, v).None? && Bound(u, x, v).Some? ==>
          exists q :: q in rules && IsNew(u, q, desc, name, x, v))
  }

  ghost predicate IsNew(u: Trie, q: HttpRule, desc: Desc, name: string, x: Addr, v: string) {
    && Target(q, desc) == Some((x, v))
    && MethodFor(q, desc, name).Built?
    && Bound(u, x, v) == Some(MethodFor(q, desc, name).m)
  }

  /** The rule's target answers with a method of the same descriptor. */
  ghost predicate IsBound(u: Trie, q: HttpRule, desc: Desc) {
    Target(q, desc).Some? && SameDesc(u, Target(q, desc).value.0, Target(q, desc).value.1, desc)
  }

  lemma {:induction false} GrownOne(t: Trie, rule: HttpRule, desc: Desc, name: string)
    requires Wf(t) && NoStar(t)
    ensures Grown(t, AddOne(t, rule, desc, name).0, [rule], desc, name)
    ensures AddOne(t, rule, desc, name).1.Added? || AddOne(t, rule, desc, name).1.Already? ==>
      IsBound(AddOne(t, rule, desc, name).0, rule, desc)
  {
    AddOneExact(t, rule, desc, name);
    var (u, r) := AddOne(t, rule, desc, name);
    assert rule in [rule];
    forall x, v | Bound(t, x, v).None? && Bound(u, x, v).Some?
      ensures rule in [rule] && IsNew(u, rule, desc, name, x, v)
    {
    }
  }

  lemma {:induction false} GrownTrans(t: Trie, t1: Trie, u: Trie, rules: seq<HttpRule>, more: seq<HttpRule>, desc: Desc,
                                      name: string)
    requires Grown(t, t1, rules, desc, name) && Grown(t1, u, more, desc, name)
    ensures Grown(t, u, rules + more, desc, name)
    ensures forall q :: IsBound(t1, q, desc) ==> IsBound(u, q, desc)
  {
    forall x, v | Bound(t, x, v).None? && Bound(u, x, v).Some?
      ensures exists q :: q in rules + more && IsNew(u, q, desc, name, x, v)
    {
      if Bound(t1, x, v).Some? {
        var q :| q in rules && IsNew(t1, q, desc, name, x, v);
        assert q in rules + more && IsNew(u, q, desc, name, x, v);
      } else {
        var q :| q in more && IsNew(u, q, desc, name, x, v);
        assert q in rules + more;
      }
    }
  }

  lemma {:induction false} AddMoreExact(t: Trie, rules: seq<HttpRule>, desc: Desc, name: string)
    requires Wf(t) && NoStar(t)
    ensures var (u, r) := AddMore(t, rules, desc, name);
      && Grown(t, u, rules, desc, name) && !r.Already?
      && (r.Added? ==> forall q :: q in rules ==> IsBound(u, q, desc))
    decreases |rules|
  {
    if rules != [] && rules[0].additional == [] {
      GrownOne(t, rules[0], desc, name);
      var (t1, r1) := AddOne(t, rules[0], desc, name);
      assert [rules[0]] + rules[1..] == rules;
      if !r1.Fails? && !r1.Panics? {
        AddMoreExact(t1, rules[1..], desc, name);
        GrownTrans(t, t1, AddMore(t, rules, desc, name).0, [rules[0]], rules[1..], desc, name);
      } else {
        assert Grown(t1, t1, rules[1..], desc, name);
        GrownTrans(t, t1, t1, [rules[0]], rules[1..], desc, name);
      }
    }
  }

  /** `addRule` adds exactly the bindings of the rule and of its additional bindings and never
      removes or replaces one, also when it fails; on success all of them are bound, unless
      the rule itself was bound before, which skips the additional ones. */
  lemma {:induction false} AddRuleExact(t: Trie, rule: HttpRule, desc: Desc, name: string)
    requires Wf(t) && NoStar(t)
    ensures var (u, r) := AddRule(t, rule, desc, name);
      && Grown(t, u, [rule] + rule.additional, desc, name)
      && (r.Added? ==> forall q :: q in [rule] + rule.additional ==> IsBound(u, q, desc))
      && (r.Already? ==> IsBound(t, rule, desc) && Extends(u, t))
  {
    hide AddOne, AddMore, Wf, NoStar, Grown, Target, SameDesc, Extends, IsBound;
    AddOneExact(t, rule, desc, name);
    GrownOne(t, rule, desc, name);
    var (t1, r1) := AddOne(t, rule, desc, name);
    var more := rule.additional;
    if r1.Added? {
      AddMoreExact(t1, more, desc, name);
      var (u, r) := AddMore(t1, more, desc, name);
      GrownTrans(t, t1, u, [rule], more, desc, name);
      if r.Added? {
        forall q | q in [rule] + more ensures IsBound(u, q, desc) {
          assert q == rule || q in more;
        }
      }
    } else {
      GrownSame(t1, more, desc, name);
      GrownTrans(t, t1, t1, [rule], more, desc, name);
      if r1.Already? {
        BoundBefore(t, t1, rule, desc);
      }
    }
  }

  lemma {:induction false} GrownSame(t: Trie, rules: seq<HttpRule>, desc: Desc, name: string)
    requires Wf(t) && NoStar(t)
    ensures Grown(t, t, rules, desc, name)
  {
  }

  lemma {:induction false} BoundBefore(t: Trie, u: Trie, rule: HttpRule, desc: Desc)
    requires Target(rule, desc).Some? && SameDesc(t, Target(rule, desc).value.0, Target(rule, desc).value.1, desc)
    ensures IsBound(t, rule, desc)
  {
  }

  /** A binding panics exactly when its walk does, or when its node has a wildcard method and
      no method for its verb. */
  lemma {:induction false} PanicsIff(t: Trie, rule: HttpRule, desc: Desc, name: string)
    requires Wf(t) && NoStar(t)
    ensures AddOne(t, rule, desc, name).1.Panics? <==>
      && !rule.pattern.Unset? && TemplateFits(rule.pattern.tmpl)
      && var w, verb := WalkOf(rule, desc), VerbOf(rule.pattern);
      && (w.end.Broken? || (w.end.Arrived? && Guarded(t, Dest(Root, w.steps), verb)))
  {
    if !rule.pattern.Unset? && TemplateFits(rule.pattern.tmpl) {
      var w := WalkOf(rule, desc);
      GrowGood(t, Root, w.steps);
      assert forall v :: Bound(Grow(t, Root, w.steps), Dest(Root, w.steps), v) == Bound(t, Dest(Root, w.steps), v);
    }
  }

  /** A wildcard method stands at the node, and no method for the verb. */
  predicate Guarded(t: Trie, x: Addr, verb: string) {
    Bound(t, x, "*").Some? && (verb == "*" || Bound(t, x, verb).None?)
  }
}
