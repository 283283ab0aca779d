/** The published state of the multiplexer: registrations work on a clone and publish it as a
    whole or not at all. */
module MuxState {
  import opened Options
  import opened Tries
  import opened Rules
  import opened Matching
  import opened Registry
  import opened PathTree
  import opened PathSearch
  import opened PathCopy
  import opened PathDelete
  import opened Pruning
  import opened Compile
  import opened Lexers
  import opened Characters
  import opened Grammar
  import Selectors
  import SelectorTree

  /** What registration needs of a method: its descriptor and its annotated rule. */
  datatype MethodDesc = MethodDesc(desc: Desc, annotated: Option<HttpRule>)

  class Handler {
    const name: string   // "/Service/Method"
    const desc: Desc

    constructor (name: string, desc: Desc)
      ensures this.name == name && this.desc == desc
    {
      this.name, this.desc := name, desc;
    }
  }

  datatype ConnList = ConnList(handlers: seq<Handler>, hash: string)

  datatype Registration = Done | Failed | Panicked

  /** The HTTP rules of the service configuration. */
  class Config {
    const root: SelectorTree.RuleSelector
    ghost const nodes: SelectorTree.Nodes
    ghost const entries: seq<Selectors.Entry>

    constructor (root: SelectorTree.RuleSelector, ghost nodes: SelectorTree.Nodes, ghost entries: seq<Selectors.Entry>)
      ensures this.root == root && this.nodes == nodes && this.entries == entries
    {
      this.root, this.nodes, this.entries := root, nodes, entries;
    }

    ghost predicate Valid()
      reads nodes.Values
    {
      && SelectorTree.Tree(nodes) && root.In(nodes) && root.at == []
      && Selectors.Holds(SelectorTree.Content(nodes), entries)
    }

    /** The configured rules of a method are those whose selector is a prefix of its name. */
    method RulesOf(name: string) returns (rules: seq<HttpRule>)
      requires Valid()
      ensures rules == Selectors.Flat(entries, [], Selectors.Components(name))
    {
      rules := SelectorTree.GetRules(nodes, root, name);
      Selectors.CollectIsFlat(SelectorTree.Content(nodes), entries, [], Selectors.Components(name));
    }
  }

  function ImplicitRule(name: string): HttpRule {
    HttpRule(Custom("*", name), "*", "", [])
  }

  type Handlers = map<string, seq<Handler>>

  function HandlersOf(hs: Handlers, name: string): seq<Handler> {
    if name in hs then hs[name] else []
  }

  /** Every bound method has a handler. */
  ghost predicate Served(t: Trie, hs: Handlers) {
    forall x, v :: Bound(t, x, v).Some? ==> HandlersOf(hs, Bound(t, x, v).value.name) != []
  }

  ghost predicate Sound(t: Trie) {
    Wf(t) && NoStar(t)
  }

  lemma {:induction false} SoundParts(t: Trie)
    requires Sound(t)
    ensures Wf(t) && NoStar(t)
  {
  }

  /* ---- Registration on values ---- */

  /** A list of rules of one method, up to the first that is refused. */
  function AddRules(t: Trie, rules: seq<HttpRule>, desc: Desc, name: string): (p: (Trie, RuleResult))
    requires Sound(t)
    ensures Sound(p.0)
    decreases |rules|
  {
    if rules == [] then (t, Added)
    else
      AddRuleExact(t, rules[0], desc, name);
      var (u, r) := Rules.AddRule(t, rules[0], desc, name);
      if r.Fails? || r.Panics? then (u, r) else AddRules(u, rules[1..], desc, name)
  }

  function Verdict(r: RuleResult): Registration {
    match r
    case Fails(_) => Failed
    case Panics => Panicked
    case _ => Done
  }

  function Annotated(md: MethodDesc): seq<HttpRule> {
    if md.annotated.Some? then [md.annotated.value] else []
  }

  /** The rules that a method is registered with, after its implicit rule. */
  function OwnRules(entries: seq<Selectors.Entry>, md: MethodDesc): seq<HttpRule> {
    Selectors.Flat(entries, [], Selectors.Components(md.desc.fullName)) + Annotated(md)
  }

  /** One method; when its implicit rule is refused the source panics. */
  function AddMethod(t: Trie, entries: seq<Selectors.Entry>, md: MethodDesc, name: string): (p: (Trie, Registration))
    requires Sound(t)
    ensures Sound(p.0)
  {
    AddRuleExact(t, ImplicitRule(name), md.desc, name);
    var (u, r) := Rules.AddRule(t, ImplicitRule(name), md.desc, name);
    if r.Fails? || r.Panics? then (u, Panicked)
    else
      var (w, q) := AddRules(u, OwnRules(entries, md), md.desc, name);
      (w, Verdict(q))
  }

  /** A method to register: its name and, if it has one, its descriptor. */
  datatype Item = Item(name: string, md: Option<MethodDesc>)

  function AddItems(t: Trie, entries: seq<Selectors.Entry>, items: seq<Item>): (p: (Trie, Registration))
    requires Sound(t)
    ensures Sound(p.0)
    decreases |items|
  {
    if items == [] then (t, Done)
    else if items[0].md.None? then (t, Failed)
    else
      var (u, o) := AddMethod(t, entries, items[0].md.value, items[0].name);
      if o.Done? then AddItems(u, entries, items[1..]) else (u, o)
  }

  /** The files of a connection; None is a file that cannot be read. */
  function AddFiles(t: Trie, entries: seq<Selectors.Entry>, files: seq<Option<seq<Item>>>): (p: (Trie, Registration))
    requires Sound(t)
    ensures Sound(p.0)
    decreases |files|
  {
    if files == [] then (t, Done)
    else if files[0].None? then (t, Failed)
    else
      var (u, o) := AddItems(t, entries, files[0].value);
      if o.Done? then AddFiles(u, entries, files[1..]) else (u, o)
  }

  /** `u` keeps the bindings of `t`, and its new ones belong to methods of the given names; the
      matcher can read its variables if it could read those of `t`. */
  ghost predicate Enlarged(t: Trie, u: Trie, names: set<string>) {
    && (PlainTrie(t) ==> PlainTrie(u))
    && forall x, v :: Bound(u, x, v) == Bound(t, x, v) ||
         (Bound(t, x, v).None? && Bound(u, x, v).Some? && Bound(u, x, v).value.name in names)
  }

  lemma {:induction false} EnlargedTrans(t: Trie, t1: Trie, u: Trie, a: set<string>, b: set<string>)
    requires Enlarged(t, t1, a) && Enlarged(t1, u, b)
    ensures Enlarged(t, u, a + b)
  {
  }

  lemma {:induction false} EnlargedNone(t: Trie)
    ensures Enlarged(t, t, {})
  {
  }

  lemma {:induction false} RuleEnlarges(t: Trie, rule: HttpRule, desc: Desc, name: string)
    requires Sound(t)
    ensures var (u, r) := Rules.AddRule(t, rule, desc, name);
      r.Added? || r.Already? ==> Enlarged(t, u, {name})
  {
    hide Rules.AddRule;
    var (u, r) := Rules.AddRule(t, rule, desc, name);
    AddRuleExact(t, rule, desc, name);
    if PlainTrie(t) {
      AddRulePlain(t, rule, desc, name);
    }
    forall x, v | Bound(t, x, v).None? && Bound(u, x, v).Some? ensures Bound(u, x, v).value.name == name {
      var q :| q in [rule] + rule.additional && IsNew(u, q, desc, name, x, v);
    }
  }

  lemma {:induction false} RulesEnlarge(t: Trie, rules: seq<HttpRule>, desc: Desc, name: string)
    requires Sound(t)
    ensures var (u, r) := AddRules(t, rules, desc, name);
      !r.Fails? && !r.Panics? ==> Enlarged(t, u, {name})
    decreases |rules|
  {
    hide Enlarged, Sound, Rules.AddRule;
    SoundParts(t);
    if rules == [] {
      EnlargedNone(t);
      EnlargedTrans(t, t, t, {}, {});
      EnlargedWider(t, t, {}, {name});
    } else {
      AddRuleExact(t, rules[0], desc, name);
      RuleEnlarges(t, rules[0], desc, name);
      var (u, r) := Rules.AddRule(t, rules[0], desc, name);
      SoundWhole(u);
      if !r.Fails? && !r.Panics? {
        RulesEnlarge(u, rules[1..], desc, name);
        var (w, q) := AddRules(u, rules[1..], desc, name);
        if !q.Fails? && !q.Panics? {
          EnlargedTrans(t, u, w, {name}, {name});
          assert {name} + {name} == {name};
        }
      }
    }
  }

  lemma {:induction false} SoundWhole(t: Trie)
    requires Wf(t) && NoStar(t)
    ensures Sound(t)
  {
  }

  lemma {:induction false} EnlargedWider(t: Trie, u: Trie, a: set<string>, b: set<string>)
    requires Enlarged(t, u, a) && a <= b
    ensures Enlarged(t, u, b)
  {
  }

  lemma {:induction false} MethodEnlarges(t: Trie, entries: seq<Selectors.Entry>, md: MethodDesc, name: string)
    requires Sound(t)
    ensures var (u, o) := AddMethod(t, entries, md, name);
      o.Done? ==> Enlarged(t, u, {name})
  {
    hide Enlarged, Rules.AddRule, AddRules, OwnRules;
    AddRuleExact(t, ImplicitRule(name), md.desc, name);
    RuleEnlarges(t, ImplicitRule(name), md.desc, name);
    var (u, r) := Rules.AddRule(t, ImplicitRule(name), md.desc, name);
    if !r.Fails? && !r.Panics? {
      RulesEnlarge(u, OwnRules(entries, md), md.desc, name);
      var (w, q) := AddRules(u, OwnRules(entries, md), md.desc, name);
      if !q.Fails? && !q.Panics? {
        EnlargedTrans(t, u, w, {name}, {name});
        assert {name} + {name} == {name};
      }
    }
  }

  function ItemNames(items: seq<Item>): set<string> {
    set x | x in items :: x.name
  }

  /** A list of methods that is registered adds bindings of these methods only. */
  lemma {:induction false} ItemsEnlarge(t: Trie, entries: seq<Selectors.Entry>, items: seq<Item>)
    requires Sound(t)
    ensures var (u, o) := AddItems(t, entries, items);
      o.Done? ==> Enlarged(t, u, ItemNames(items))
    decreases |items|
  {
    hide Enlarged, AddMethod, Sound;
    if items == [] {
      EnlargedNone(t);
      EnlargedWider(t, t, {}, ItemNames(items));
    } else if items[0].md.Some? {
      MethodEnlarges(t, entries, items[0].md.value, items[0].name);
      var (u, o) := AddMethod(t, entries, items[0].md.value, items[0].name);
      if o.Done? {
        ItemsEnlarge(u, entries, items[1..]);
        var (w, q) := AddItems(u, entries, items[1..]);
        if q.Done? {
          EnlargedTrans(t, u, w, {items[0].name}, ItemNames(items[1..]));
          assert items == [items[0]] + items[1..];
          assert {items[0].name} + ItemNames(items[1..]) == ItemNames(items);
        }
      }
    }
  }

  function FileNames(files: seq<Option<seq<Item>>>): set<string> {
    if files == [] then {} else (if files[0].Some? then ItemNames(files[0].value) else {}) + FileNames(files[1..])
  }

  lemma {:induction false} FilesEnlarge(t: Trie, entries: seq<Selectors.Entry>, files: seq<Option<seq<Item>>>)
    requires Sound(t)
    ensures var (u, o) := AddFiles(t, entries, files);
      o.Done? ==> Enlarged(t, u, FileNames(files))
    decreases |files|
  {
    hide Enlarged, AddItems, ItemNames, Sound;
    if files == [] {
      EnlargedNone(t);
    } else if files[0].Some? {
      ItemsEnlarge(t, entries, files[0].value);
      var (u, o) := AddItems(t, entries, files[0].value);
      if o.Done? {
        FilesEnlarge(u, entries, files[1..]);
        var (w, q) := AddFiles(u, entries, files[1..]);
        if q.Done? {
          EnlargedTrans(t, u, w, ItemNames(files[0].value), FileNames(files[1..]));
        }
      }
    }
  }

  /* ---- What registration binds ---- */

  /** Rules of one method. */
  function Tagged(rules: seq<HttpRule>, desc: Desc, name: string): (es: seq<Registry.Entry>)
    ensures |es| == |rules| && forall i :: 0 <= i < |es| ==> es[i] == Registry.Entry(rules[i], desc, name)
  {
    seq(|rules|, i requires 0 <= i < |rules| => Registry.Entry(rules[i], desc, name))
  }

  /** The rules of a method in their order: for its name with every verb, then the configured
      ones, then the annotated one. */
  function RulesFor(entries: seq<Selectors.Entry>, md: MethodDesc, name: string): seq<HttpRule> {
    [HttpRule(Custom("*", name), "*", "", [])]
    + (Selectors.Flat(entries, [], Selectors.Components(md.desc.fullName))
       + if md.annotated.Some? then [md.annotated.value] else [])
  }

  function RulesOfOne(entries: seq<Selectors.Entry>, item: Item): seq<Registry.Entry> {
    match item.md
    case None => []
    case Some(md) => Tagged(RulesFor(entries, md, item.name), md.desc, item.name)
  }

  /** The rules of a list of methods. */
  function RulesOfAll(entries: seq<Selectors.Entry>, items: seq<Item>): seq<Registry.Entry> {
    if items == [] then [] else RulesOfOne(entries, items[0]) + RulesOfAll(entries, items[1..])
  }

  /** Rules of any methods, up to the first that is refused. */
  function AddEach(t: Trie, es: seq<Registry.Entry>): (p: (Trie, RuleResult))
    requires Sound(t)
    ensures Sound(p.0)
    decreases |es|
  {
    if es == [] then (t, Added)
    else
      AddRuleExact(t, es[0].rule, es[0].desc, es[0].name);
      var (u, r) := Rules.AddRule(t, es[0].rule, es[0].desc, es[0].name);
      if r.Fails? || r.Panics? then (u, r) else AddEach(u, es[1..])
  }

  /** A rule and its additional bindings. */
  function Bindings(rule: HttpRule): seq<HttpRule> {
    [rule] + rule.additional
  }

  /** Nothing is bound where the k-th rule is to be when its turn comes. */
  ghost predicate Free(t: Trie, es: seq<Registry.Entry>, k: nat)
    requires Sound(t) && k < |es|
  {
    var target := Target(es[k].rule, es[k].desc);
    target.Some? && Bound(AddEach(t, es[..k]).0, target.value.0, target.value.1).None?
  }

  /** The k-th rule is bound; if its place was free, to its own method, and its additional
      bindings are bound too. */
  ghost predicate Granted(t: Trie, u: Trie, es: seq<Registry.Entry>, k: nat)
    requires Sound(t) && k < |es|
  {
    var e := es[k];
    && IsBound(u, e.rule, e.desc)
    && (Free(t, es, k) ==>
          && IsNew(u, e.rule, e.desc, e.name, Target(e.rule, e.desc).value.0, Target(e.rule, e.desc).value.1)
          && forall q :: q in e.rule.additional ==> IsBound(u, q, e.desc))
  }

  /** All bindings are kept, and the new ones are those of the rules. */
  ghost predicate Augmented(t: Trie, u: Trie, es: seq<Registry.Entry>) {
    && (forall x, v :: Bound(t, x, v).Some? ==> Bound(u, x, v) == Bound(t, x, v))
    && (forall x, v :: Bound(t, x, v).None? && Bound(u, x, v).Some? ==> exists k, q :: Gives(u, es, k, q, x, v))
  }

  ghost predicate Gives(u: Trie, es: seq<Registry.Entry>, k: nat, q: HttpRule, x: Addr, v: string) {
    k < |es| && q in Bindings(es[k].rule) && IsNew(u, q, es[k].desc, es[k].name, x, v)
  }

  /** One rule that is accepted. */
  lemma {:induction false} RuleGranted(t: Trie, e: Registry.Entry)
    requires Sound(t)
    ensures var (u, r) := Rules.AddRule(t, e.rule, e.desc, e.name);
      r.Added? || r.Already? ==> Granted(t, u, [e], 0) && Augmented(t, u, [e])
  {
    hide Rules.AddRule, Target, MethodFor, Bound, Wf, NoStar;
    SoundParts(t);
    AddRuleExact(t, e.rule, e.desc, e.name);
    var (u, r) := Rules.AddRule(t, e.rule, e.desc, e.name);
    if r.Added? || r.Already? {
      forall x, v | Bound(t, x, v).None? && Bound(u, x, v).Some? ensures exists k, q :: Gives(u, [e], k, q, x, v) {
        var q :| q in Bindings(e.rule) && IsNew(u, q, e.desc, e.name, x, v);
        assert Gives(u, [e], 0, q, x, v);
      }
      RuleAtTarget(t, e);
      FirstFree(t, [e]);
      assert e.rule in Bindings(e.rule);
    }
  }

  /** The first rule's place is free when nothing is bound there. */
  lemma {:induction false} FirstFree(t: Trie, es: seq<Registry.Entry>)
    requires Sound(t) && es != []
    ensures var target := Target(es[0].rule, es[0].desc);
      Free(t, es, 0) <==> target.Some? && Bound(t, target.value.0, target.value.1).None?
  {
    hide Target, Bound;
    assert es[..0] == [];
    NoRules(t);
  }

  /** A rule that is added is bound to its own method. */
  lemma {:induction false} RuleAtTarget(t: Trie, e: Registry.Entry)
    requires Sound(t)
    ensures var (u, r) := Rules.AddRule(t, e.rule, e.desc, e.name);
      && (r.Added? ==>
            && Target(e.rule, e.desc).Some?
            && IsNew(u, e.rule, e.desc, e.name, Target(e.rule, e.desc).value.0, Target(e.rule, e.desc).value.1))
      && (r.Already? ==> IsBound(u, e.rule, e.desc))
  {
    hide AddOne, Target, MethodFor, Bound, Wf, NoStar;
    SoundParts(t);
    AddOneExact(t, e.rule, e.desc, e.name);
    var (t1, r1) := AddOne(t, e.rule, e.desc, e.name);
    if r1.Added? {
      AddMoreExact(t1, e.rule.additional, e.desc, e.name);
    } else if r1.Already? {
      AddRuleExact(t, e.rule, e.desc, e.name);
      StillBound(t, t1, e.rule, e.desc);
    }
  }

  lemma {:induction false} StillBound(t: Trie, u: Trie, q: HttpRule, desc: Desc)
    requires IsBound(t, q, desc)
    requires forall x, v :: Bound(t, x, v).Some? ==> Bound(u, x, v) == Bound(t, x, v)
    ensures IsBound(u, q, desc)
  {
    hide Target, Bound;
  }

  /** Rules after others. */
  lemma {:induction false} AugmentedTrans(t: Trie, t1: Trie, u: Trie, a: seq<Registry.Entry>, b: seq<Registry.Entry>)
    requires Augmented(t, t1, a) && Augmented(t1, u, b)
    ensures Augmented(t, u, a + b)
  {
    hide Bindings, MethodFor, Target, Bound;
    forall x, v | Bound(t, x, v).None? && Bound(u, x, v).Some? ensures exists k, q :: Gives(u, a + b, k, q, x, v) {
      if Bound(t1, x, v).Some? {
        var k: nat, q :| Gives(t1, a, k, q, x, v);
        assert Gives(u, a + b, k, q, x, v);
      } else {
        var k: nat, q :| Gives(u, b, k, q, x, v);
        assert Gives(u, a + b, |a| + k, q, x, v);
      }
    }
  }

  /** What was granted first stays so. */
  lemma {:induction false} GrantedFirst(t: Trie, t1: Trie, u: Trie, es: seq<Registry.Entry>)
    requires Sound(t) && es != [] && Granted(t, t1, [es[0]], 0) && Augmented(t1, u, es[1..])
    ensures Granted(t, u, es, 0)
  {
    var e := es[0];
    FirstFree(t, es);
    FirstFree(t, [e]);
    hide MethodFor, Target, Bound, Bindings, Free, Sound;
    StillBound(t1, u, e.rule, e.desc);
    if Free(t, es, 0) {
      forall q | q in e.rule.additional ensures IsBound(u, q, e.desc) {
        StillBound(t1, u, q, e.desc);
      }
    }
  }

  /** A later place is free when it is after the first rule. */
  lemma {:induction false} NextFree(t: Trie, es: seq<Registry.Entry>, k: nat)
    requires Sound(t) && 0 < k < |es|
    ensures var (t1, r1) := Rules.AddRule(t, es[0].rule, es[0].desc, es[0].name);
      Sound(t1) && (!r1.Fails? && !r1.Panics? ==> (Free(t, es, k) <==> Free(t1, es[1..], k - 1)))
  {
    hide Rules.AddRule, Target, Bound, Sound;
    SoundParts(t);
    SoundAfter(t, es[0]);
    assert es[..k][0] == es[0] && es[..k][1..] == es[1..][..k - 1];
    assert es[1..][k - 1] == es[k];
  }

  /** What is granted later. */
  lemma {:induction false} GrantedLater(t: Trie, t1: Trie, u: Trie, es: seq<Registry.Entry>, k: nat)
    requires 0 < k < |es| && Sound(t) && Sound(t1) && Granted(t1, u, es[1..], k - 1)
    requires Free(t, es, k) <==> Free(t1, es[1..], k - 1)
    ensures Granted(t, u, es, k)
  {
    hide MethodFor, Bound, Target, Free, Sound;
    assert es[1..][k - 1] == es[k];
  }

  /** When rules are all accepted, each is bound, those whose place was free with their
      additional bindings, and nothing else is new. */
  lemma {:induction false} EachGranted(t: Trie, es: seq<Registry.Entry>)
    requires Sound(t)
    ensures var (u, r) := AddEach(t, es);
      !r.Fails? && !r.Panics? ==> Augmented(t, u, es) && forall k :: 0 <= k < |es| ==> Granted(t, u, es, k)
    decreases |es|
  {
    hide Rules.AddRule, Granted, Augmented, Sound, Wf, NoStar, Grown, IsBound, Extends, Free;
    if es == [] {
      AugmentedNone(t);
    } else {
      SoundParts(t);
      SoundAfter(t, es[0]);
      RuleGranted(t, es[0]);
      var (t1, r1) := Rules.AddRule(t, es[0].rule, es[0].desc, es[0].name);
      var (u, r) := AddEach(t, es);
      if !r.Fails? && !r.Panics? {
        EachGranted(t1, es[1..]);
        assert [es[0]] + es[1..] == es;
        AugmentedTrans(t, t1, u, [es[0]], es[1..]);
        GrantedFirst(t, t1, u, es);
        forall k | 0 < k < |es| ensures Granted(t, u, es, k) {
          assert Granted(t1, u, es[1..], k - 1);
          NextFree(t, es, k);
          GrantedLater(t, t1, u, es, k);
        }
      }
    }
  }

  /** Nothing is bound where the k-th rule is to be, in `t` or by an earlier rule: this can be seen
      before the registration. */
  ghost predicate Unclaimed(t: Trie, es: seq<Registry.Entry>, k: nat)
    requires k < |es|
  {
    var target := Target(es[k].rule, es[k].desc);
    && target.Some? && Bound(t, target.value.0, target.value.1).None?
    && forall j, q :: 0 <= j < k && q in Bindings(es[j].rule) ==> Target(q, es[j].desc) != target
  }

  lemma {:induction false} UnclaimedIsFree(t: Trie, es: seq<Registry.Entry>, k: nat)
    requires Sound(t) && k < |es| && !AddEach(t, es).1.Fails? && !AddEach(t, es).1.Panics?
    ensures Unclaimed(t, es, k) ==> Free(t, es, k)
  {
    hide AddEach, Target, Bound, Sound, Bindings, MethodFor;
    var front := es[..k];
    assert es == front + es[k..];
    EachConcat(t, front, es[k..]);
    EachGranted(t, front);
    if Unclaimed(t, es, k) {
      var (x, v) := Target(es[k].rule, es[k].desc).value;
      StaysFree(t, AddEach(t, front).0, front, x, v);
    }
  }

  /** Rules take no other places than those of their bindings. */
  lemma {:induction false} StaysFree(t: Trie, u: Trie, es: seq<Registry.Entry>, x: Addr, v: string)
    requires Augmented(t, u, es) && Bound(t, x, v).None?
    requires forall j, q :: 0 <= j < |es| && q in Bindings(es[j].rule) ==> Target(q, es[j].desc) != Some((x, v))
    ensures Bound(u, x, v).None?
  {
    hide MethodFor, Bound, Bindings, Target;
  }

  lemma {:induction false} SoundAfter(t: Trie, e: Registry.Entry)
    requires Sound(t)
    ensures Sound(Rules.AddRule(t, e.rule, e.desc, e.name).0)
  {
    hide Rules.AddRule;
    AddRuleExact(t, e.rule, e.desc, e.name);
  }

  lemma {:induction false} AugmentedNone(t: Trie)
    ensures Augmented(t, t, [])
  {
  }

  lemma {:induction false} EachConcat(t: Trie, a: seq<Registry.Entry>, b: seq<Registry.Entry>)
    requires Sound(t)
    ensures var (u, r) := AddEach(t, a);
      AddEach(t, a + b) == if r.Fails? || r.Panics? then (u, r) else AddEach(u, b)
    decreases |a|
  {
    hide Rules.AddRule, Sound;
    SoundParts(t);
    if a == [] {
      assert a + b == b;
    } else {
      SoundAfter(t, a[0]);
      assert (a + b)[1..] == a[1..] + b;
      EachConcat(Rules.AddRule(t, a[0].rule, a[0].desc, a[0].name).0, a[1..], b);
    }
  }

  lemma {:induction false} RulesAreEach(t: Trie, rules: seq<HttpRule>, desc: Desc, name: string)
    requires Sound(t)
    ensures AddRules(t, rules, desc, name) == AddEach(t, Tagged(rules, desc, name))
    decreases |rules|
  {
    hide Rules.AddRule, Sound;
    SoundParts(t);
    if rules != [] {
      AddRuleExact(t, rules[0], desc, name);
      SoundWhole(Rules.AddRule(t, rules[0], desc, name).0);
      assert Tagged(rules, desc, name)[1..] == Tagged(rules[1..], desc, name);
      RulesAreEach(Rules.AddRule(t, rules[0], desc, name).0, rules[1..], desc, name);
    }
  }

  /** A method that is registered had all its rules accepted, in their order. */
  lemma {:induction false} MethodIsEach(t: Trie, entries: seq<Selectors.Entry>, md: MethodDesc, name: string)
    requires Sound(t) && AddMethod(t, entries, md, name).1.Done?
    ensures var (u, r) := AddEach(t, Tagged(RulesFor(entries, md, name), md.desc, name));
      !r.Fails? && !r.Panics? && u == AddMethod(t, entries, md, name).0
  {
    var own, all := OwnRules(entries, md), RulesFor(entries, md, name);
    assert all[0] == ImplicitRule(name) && all[1..] == own;
    hide Rules.AddRule, OwnRules, RulesFor, ImplicitRule, Sound, AddEach;
    SoundParts(t);
    RulesAreEach(t, all, md.desc, name);
  }

  /** The methods of a list that is registered all have a descriptor. */
  lemma {:induction false} ItemsAreEach(t: Trie, entries: seq<Selectors.Entry>, items: seq<Item>)
    requires Sound(t) && AddItems(t, entries, items).1.Done?
    ensures forall i :: 0 <= i < |items| ==> items[i].md.Some?
    ensures var (u, r) := AddEach(t, RulesOfAll(entries, items));
      !r.Fails? && !r.Panics? && u == AddItems(t, entries, items).0
    decreases |items|
  {
    hide AddMethod, AddEach, RulesFor, Sound;
    if items == [] {
      NoRules(t);
    } else {
      var (u, o) := AddMethod(t, entries, items[0].md.value, items[0].name);
      MethodIsEach(t, entries, items[0].md.value, items[0].name);
      ItemsAreEach(u, entries, items[1..]);
      EachConcat(t, Tagged(RulesFor(entries, items[0].md.value, items[0].name), items[0].md.value.desc, items[0].name),
                 RulesOfAll(entries, items[1..]));
    }
  }

  lemma {:induction false} NoRules(t: Trie)
    requires Sound(t)
    ensures AddEach(t, []) == (t, Added)
  {
  }

  /** The methods of all files. */
  function FileItems(files: seq<Option<seq<Item>>>): seq<Item> {
    if files == [] then [] else (if files[0].Some? then files[0].value else []) + FileItems(files[1..])
  }

  lemma {:induction false} ItemsConcat(t: Trie, entries: seq<Selectors.Entry>, a: seq<Item>, b: seq<Item>)
    requires Sound(t)
    ensures var (u, o) := AddItems(t, entries, a);
      AddItems(t, entries, a + b) == if o.Done? then AddItems(u, entries, b) else (u, o)
    decreases |a|
  {
    hide AddMethod, Sound;
    if a == [] {
      assert a + b == b;
    } else if a[0].md.Some? {
      assert (a + b)[1..] == a[1..] + b;
      ItemsConcat(AddMethod(t, entries, a[0].md.value, a[0].name).0, entries, a[1..], b);
    }
  }

  lemma {:induction false} FilesAreItems(t: Trie, entries: seq<Selectors.Entry>, files: seq<Option<seq<Item>>>)
    requires Sound(t) && AddFiles(t, entries, files).1.Done?
    ensures forall i :: 0 <= i < |files| ==> files[i].Some?
    ensures AddItems(t, entries, FileItems(files)) == AddFiles(t, entries, files)
    decreases |files|
  {
    hide Sound, AddMethod;
    if files != [] {
      var (u, o) := AddItems(t, entries, files[0].value);
      FilesAreItems(u, entries, files[1..]);
      ItemsConcat(t, entries, files[0].value, FileItems(files[1..]));
    }
  }

  /** All rules of a method are bound: the one for its name, the annotated one, and every
      configured one whose selector is for its full name. */
  ghost predicate Registered(u: Trie, entries: seq<Selectors.Entry>, md: MethodDesc, name: string) {
    && IsBound(u, HttpRule(Custom("*", name), "*", "", []), md.desc)
    && (md.annotated.Some? ==> IsBound(u, md.annotated.value, md.desc))
    && forall i :: 0 <= i < |entries| && Selectors.Chosen(entries[i], [], Selectors.Components(md.desc.fullName)) ==>
         IsBound(u, entries[i].rule, md.desc)
  }

  /** Methods were registered: each has a descriptor and all its rules; a rule whose place was free
      is bound to its method, with its additional bindings; nothing else is new. */
  ghost predicate Carries(t: Trie, u: Trie, entries: seq<Selectors.Entry>, items: seq<Item>)
    requires Sound(t)
  {
    && ListRegistered(u, entries, items)
    && var es := RulesOfAll(entries, items);
    Augmented(t, u, es) && forall k :: 0 <= k < |es| ==> Granted(t, u, es, k)
  }

  lemma {:induction false} AllRegistered(t: Trie, u: Trie, entries: seq<Selectors.Entry>, items: seq<Item>, i: nat)
    requires Sound(t) && i < |items| && items[i].md.Some?
    requires var es := RulesOfAll(entries, items); forall k :: 0 <= k < |es| ==> Granted(t, u, es, k)
    ensures Registered(u, entries, items[i].md.value, items[i].name)
  {
    hide RulesOfAll, RulesFor, IsBound, IsNew, Free;
    var md, name := items[i].md.value, items[i].name;
    var es, rules := RulesOfAll(entries, items), RulesFor(entries, md, name);
    forall r: HttpRule | r in rules ensures IsBound(u, r, md.desc) {
      var j :| 0 <= j < |rules| && rules[j] == r;
      var k := RuleAt(entries, items, i, j);
      assert Granted(t, u, es, k);
    }
    RulesListed(entries, md, name);
  }

  /** Where the j-th rule of the i-th method is. */
  lemma {:induction false} RuleAt(entries: seq<Selectors.Entry>, items: seq<Item>, i: nat, j: nat) returns (k: nat)
    requires i < |items| && items[i].md.Some?
    requires j < |RulesFor(entries, items[i].md.value, items[i].name)|
    ensures var md, name := items[i].md.value, items[i].name;
      var es := RulesOfAll(entries, items);
      k < |es| && es[k] == Registry.Entry(RulesFor(entries, md, name)[j], md.desc, name)
  {
    hide RulesOfAll, RulesFor, Tagged;
    var at := BlockOf(entries, items, i);
    var block := RulesOfOne(entries, items[i]);
    k := at + j;
    assert RulesOfAll(entries, items)[at..at + |block|][j] == block[j];
  }

  lemma {:induction false} RulesListed(entries: seq<Selectors.Entry>, md: MethodDesc, name: string)
    ensures var rules := RulesFor(entries, md, name);
      && HttpRule(Custom("*", name), "*", "", []) in rules
      && (md.annotated.Some? ==> md.annotated.value in rules)
      && forall i :: 0 <= i < |entries| && Selectors.Chosen(entries[i], [], Selectors.Components(md.desc.fullName)) ==>
           entries[i].rule in rules
  {
    var comps := Selectors.Components(md.desc.fullName);
    var ps, flat, rules := Selectors.Selected(entries, [], comps), Selectors.Flat(entries, [], comps),
      RulesFor(entries, md, name);
    Selectors.SelectedExact(entries, [], comps);
    assert rules[0] == HttpRule(Custom("*", name), "*", "", []);
    assert md.annotated.Some? ==> rules[|rules| - 1] == md.annotated.value;
    forall i | 0 <= i < |entries| && Selectors.Chosen(entries[i], [], comps) ensures entries[i].rule in rules {
      assert i in ps;
      var j :| 0 <= j < |ps| && ps[j] == i;
      assert flat[j] == entries[i].rule && rules[j + 1] == flat[j];
    }
  }

  /** `block` stands in `s` from `at` on. */
  predicate StandsAt<T(==)>(s: seq<T>, block: seq<T>, at: nat) {
    at + |block| <= |s| && s[at..at + |block|] == block
  }

  lemma {:induction false} StandsBehind<T>(a: seq<T>, b: seq<T>, block: seq<T>, at: nat)
    requires StandsAt(b, block, at)
    ensures StandsAt(a + b, block, |a| + at)
  {
    assert (a + b)[|a| + at..|a| + at + |block|] == b[at..at + |block|];
  }

  lemma {:induction false} RulesOfFirst(entries: seq<Selectors.Entry>, items: seq<Item>)
    requires items != []
    ensures RulesOfAll(entries, items) == RulesOfOne(entries, items[0]) + RulesOfAll(entries, items[1..])
    ensures StandsAt(RulesOfAll(entries, items), RulesOfOne(entries, items[0]), 0)
  {
    hide RulesOfOne;
  }

  /** Where the rules of the i-th method are. */
  lemma {:induction false} BlockOf(entries: seq<Selectors.Entry>, items: seq<Item>, i: nat) returns (at: nat)
    requires i < |items|
    ensures StandsAt(RulesOfAll(entries, items), RulesOfOne(entries, items[i]), at)
    decreases i
  {
    hide RulesOfOne, RulesOfAll, StandsAt;
    RulesOfFirst(entries, items);
    at := 0;
    if i > 0 {
      var block := RulesOfOne(entries, items[i]);
      assert items[1..][i - 1] == items[i];
      at := BlockOf(entries, items[1..], i - 1);
      StandsBehind(RulesOfOne(entries, items[0]), RulesOfAll(entries, items[1..]), block, at);
      at := |RulesOfOne(entries, items[0])| + at;
    }
  }

  /** Registering a list of methods. */
  lemma {:induction false} ItemsCarry(t: Trie, entries: seq<Selectors.Entry>, items: seq<Item>)
    requires Sound(t) && AddItems(t, entries, items).1.Done?
    ensures Carries(t, AddItems(t, entries, items).0, entries, items)
  {
    hide AddItems, AddEach, RulesOfAll, Granted, Augmented, Registered, Sound;
    ItemsAreEach(t, entries, items);
    EachGranted(t, RulesOfAll(entries, items));
    var u := AddItems(t, entries, items).0;
    forall i | 0 <= i < |items| ensures Registered(u, entries, items[i].md.value, items[i].name) {
      AllRegistered(t, u, entries, items, i);
    }
  }

  /** The first method without a descriptor, or the first that is refused, ends the registration
      of a list. */
  lemma {:induction false} FirstRefused(t: Trie, entries: seq<Selectors.Entry>, items: seq<Item>, k: nat)
    requires Sound(t) && k < |items| && AddItems(t, entries, items[..k]).1.Done?
    ensures var u, o := AddItems(t, entries, items[..k]).0, AddItems(t, entries, items).1;
      && (items[k].md.None? ==> o == Failed)
      && (items[k].md.Some? ==>
            var p := AddMethod(u, entries, items[k].md.value, items[k].name).1;
            !p.Done? ==> o == p)
  {
    hide AddMethod, Sound;
    assert items == items[..k] + items[k..];
    ItemsConcat(t, entries, items[..k], items[k..]);
  }

  /** Registering the files of a connection. */
  lemma {:induction false} FilesCarry(t: Trie, entries: seq<Selectors.Entry>, files: seq<Option<seq<Item>>>)
    requires Sound(t) && AddFiles(t, entries, files).1.Done?
    ensures FilesRegistered(t, AddFiles(t, entries, files).0, entries, files)
  {
    hide AddItems, AddFiles, Sound, Augmented, Granted, Registered, RulesOfAll;
    FilesAreItems(t, entries, files);
    ItemsCarry(t, entries, FileItems(files));
    forall i, j | 0 <= i < |files| && 0 <= j < |files[i].value| ensures files[i].value[j] in FileItems(files) {
      InFiles(files, i, files[i].value[j]);
    }
  }

  /** The first file that cannot be read, or the first whose methods are refused, ends the
      registration of the files. */
  lemma {:induction false} FirstFileRefused(t: Trie, entries: seq<Selectors.Entry>, files: seq<Option<seq<Item>>>,
                                            k: nat)
    requires Sound(t) && k < |files| && AddFiles(t, entries, files[..k]).1.Done?
    ensures var u, o := AddFiles(t, entries, files[..k]).0, AddFiles(t, entries, files).1;
      && (files[k].None? ==> o == Failed)
      && (files[k].Some? ==>
            var p := AddItems(u, entries, files[k].value).1;
            !p.Done? ==> o == p)
    decreases k
  {
    hide AddItems, Sound;
    if k > 0 {
      assert files[..k][0] == files[0] && files[..k][1..] == files[1..][..k - 1];
      FirstFileRefused(AddItems(t, entries, files[0].value).0, entries, files[1..], k - 1);
    }
  }

  /** All methods of the files were registered. */
  ghost predicate FilesRegistered(t: Trie, u: Trie, entries: seq<Selectors.Entry>, files: seq<Option<seq<Item>>>)
    requires Sound(t)
  {
    && Carries(t, u, entries, FileItems(files))
    && forall i :: 0 <= i < |files| ==> files[i].Some? && ListRegistered(u, entries, files[i].value)
  }

  ghost predicate ListRegistered(u: Trie, entries: seq<Selectors.Entry>, items: seq<Item>) {
    forall i :: 0 <= i < |items| ==> items[i].md.Some? && Registered(u, entries, items[i].md.value, items[i].name)
  }

  lemma {:induction false} InFiles(files: seq<Option<seq<Item>>>, i: nat, item: Item)
    requires i < |files| && files[i].Some? && item in files[i].value
    ensures item in FileItems(files)
    decreases i
  {
    if i > 0 {
      InFiles(files[1..], i - 1, item);
    }
  }

  /** Every bound method still has a handler when the methods of the new bindings have one. */
  lemma {:induction false} StillServed(t: Trie, u: Trie, names: set<string>, before: Handlers, hs: Handlers)
    requires Enlarged(t, u, names) && Served(t, before)
    requires forall n :: HandlersOf(before, n) <= HandlersOf(hs, n)
    requires forall n :: n in names ==> HandlersOf(hs, n) != []
    ensures Served(u, hs)
  {
    forall x, v | Bound(u, x, v).Some? ensures HandlersOf(hs, Bound(u, x, v).value.name) != [] {
      if Bound(u, x, v) == Bound(t, x, v) {
        assert HandlersOf(before, Bound(t, x, v).value.name) != [];
      }
    }
  }

  /** A snapshot of what is served. Its tree's shape is kept beside it. */
  class State {
    const path: PathTree.Path
    var conns: map<nat, ConnList>
    var handlers: Handlers

    constructor (path: PathTree.Path, conns: map<nat, ConnList>, handlers: Handlers)
      ensures this.path == path && this.conns == conns && this.handlers == handlers
    {
      this.path, this.conns, this.handlers := path, conns, handlers;
    }
  }

  lemma {:induction false} BlankTree(s: Shape, p: PathTree.Path)
    requires s == map[Root := p] && p.at == Root && p.Fields() == BLANK
    ensures Tree(s) && Content(s) == map[Root := EMPTY] && Sound(Content(s)) && PlainTrie(Content(s))
  {
    assert Vars([]) == [];
    forall x | x in Content(s) ensures GoodVars(Content(s), x) && Aligned(Content(s), x) {
    }
  }

  /** The tree of a state. */
  ghost predicate Standing(s: Shape, p: PathTree.Path)
    reads s.Values
  {
    Tree(s) && p.In(s) && p.at == Root && Sound(Content(s))
  }

  /** `state.clone`: everything in the clone is new. */
  method CloneState(ghost s: Shape, st: State) returns (c: State, ghost f: Shape)
    requires Standing(s, st.path)
    ensures fresh(c) && New(f) && Standing(f, c.path) && Content(f) == Content(s)
    ensures c.conns == st.conns && c.handlers == st.handlers
  {
    hide Sound, Tree, Content;
    SoundParts(Content(s));
    var path;
    path, f := CloneTree(s, st.path);
    c := new State(path, st.conns, st.handlers);
  }

  /** The clone of the nil state. */
  method EmptyState() returns (c: State, ghost f: Shape)
    ensures fresh(c) && New(f) && Standing(f, c.path) && Content(f) == map[Root := EMPTY]
    ensures c.conns == map[] && c.handlers == map[]
  {
    hide Sound, Tree, Content;
    var path := new PathTree.Path(Root);
    f := map[Root := path];
    BlankTree(f, path);
    c := new State(path, map[], map[]);
  }

  /* ---- Registering methods ---- */

  lemma {:induction false} StandingSound(s: Shape, p: PathTree.Path)
    requires Standing(s, p)
    ensures Sound(Content(s))
  {
  }

  /** One rule in the tree of a state. */
  method ApplyRule(ghost s: Shape, p: PathTree.Path, rule: HttpRule, desc: Desc, name: string)
    returns (r: RuleResult, ghost s': Shape)
    requires Standing(s, p)
    modifies s.Values
    ensures fresh(s'.Values - s.Values) && Standing(s', p)
    ensures Wf(old(Content(s))) && (Content(s'), r) == Rules.AddRule(old(Content(s)), rule, desc, name)
  {
    hide Tree, Content, Sound, Rules.AddRule;
    SoundParts(Content(s));
    r, s' := PathRules.AddRule(s, p, rule, desc, name);
    SoundWhole(Content(s'));
  }

  /** Some rules of a method, one after the other. */
  method ApplyRules(ghost s: Shape, p: PathTree.Path, rules: seq<HttpRule>, desc: Desc, name: string)
    returns (r: RuleResult, ghost s': Shape)
    requires Standing(s, p)
    modifies s.Values
    ensures fresh(s'.Values - s.Values) && Standing(s', p)
    ensures (Content(s'), r) == AddRules(old(Content(s)), rules, desc, name)
  {
    hide Standing, Content, Sound, Rules.AddRule, AddRules;
    ghost var t := Content(s);
    StandingSound(s, p);
    r, s' := Added, s;
    var k := 0;
    assert rules[0..] == rules;
    while k < |rules| && r.Added?
      invariant k <= |rules| && (r.Added? || r.Fails? || r.Panics?)
      invariant Standing(s', p) && Sound(Content(s')) && fresh(s'.Values - s.Values)
      invariant AddRules(t, rules, desc, name) ==
        if r.Added? then AddRules(Content(s'), rules[k..], desc, name) else (Content(s'), r)
    {
      AddRulesUnfold(Content(s'), rules, k, desc, name);
      r, s' := ApplyRule(s', p, rules[k], desc, name);
      StandingSound(s', p);
      if r.Already? {
        r := Added;
      }
      k := k + 1;
    }
    AddRulesEnd(Content(s'), rules, desc, name);
  }

  lemma {:induction false} AddRulesUnfold(t: Trie, rules: seq<HttpRule>, k: nat, desc: Desc, name: string)
    requires Sound(t) && k < |rules|
    ensures var (u, r) := Rules.AddRule(t, rules[k], desc, name);
      && Sound(u)
      && AddRules(t, rules[k..], desc, name) ==
           if r.Fails? || r.Panics? then (u, r) else AddRules(u, rules[k + 1..], desc, name)
  {
    AddRuleExact(t, rules[k], desc, name);
    assert rules[k..][1..] == rules[k + 1..];
  }

  lemma {:induction false} AddRulesEnd(t: Trie, rules: seq<HttpRule>, desc: Desc, name: string)
    requires Sound(t)
    ensures AddRules(t, rules[|rules|..], desc, name) == (t, Added)
  {
  }

  lemma {:induction false} AddRulesMore(t: Trie, a: seq<HttpRule>, b: seq<HttpRule>, desc: Desc, name: string)
    requires Sound(t)
    ensures var (u, r) := AddRules(t, a, desc, name);
      AddRules(t, a + b, desc, name) == if r.Fails? || r.Panics? then (u, r) else AddRules(u, b, desc, name)
    decreases |a|
  {
    if a == [] {
      assert a + b == b;
    } else {
      AddRuleExact(t, a[0], desc, name);
      assert (a + b)[1..] == a[1..] + b;
      AddRulesMore(Rules.AddRule(t, a[0], desc, name).0, a[1..], b, desc, name);
    }
  }

  /** All rules of a method: the implicit one, those of the configuration, the annotated one. */
  method AddMethodRules(ghost s: Shape, p: PathTree.Path, config: Config, md: MethodDesc, name: string)
    returns (o: Registration, ghost s': Shape)
    requires Standing(s, p) && config.Valid()
    modifies s.Values
    ensures fresh(s'.Values - s.Values) && Standing(s', p)
    ensures (Content(s'), o) == AddMethod(old(Content(s)), config.entries, md, name)
  {
    hide Standing, Content, Sound, Rules.AddRule, AddRules, ImplicitRule, Config.Valid, Selectors.Flat,
      Selectors.Components;
    StandingSound(s, p);
    var rules := config.RulesOf(md.desc.fullName);
    var r;
    r, s' := ApplyRule(s, p, ImplicitRule(name), md.desc, name);
    StandingSound(s', p);
    if r.Fails? || r.Panics? {
      return Panicked, s';
    }
    AddRulesMore(Content(s'), rules, Annotated(md), md.desc, name);
    r, s' := ApplyRules(s', p, rules, md.desc, name);
    if !r.Fails? && !r.Panics? {
      r, s' := ApplyRules(s', p, Annotated(md), md.desc, name);
    }
    o := Verdict(r);
  }

  /** `appendHandler`: the rules of a method and, if they are all added, its handler. */
  method AppendHandler(ghost s: Shape, st: State, config: Config, md: MethodDesc, h: Handler)
    returns (o: Registration, ghost s': Shape)
    requires Standing(s, st.path) && config.Valid()
    modifies st`handlers, s.Values
    ensures fresh(s'.Values - s.Values) && Standing(s', st.path)
    ensures (Content(s'), o) == AddMethod(old(Content(s)), config.entries, md, h.name)
    ensures st.handlers ==
      if o.Done? then old(st.handlers)[h.name := HandlersOf(old(st.handlers), h.name) + [h]] else old(st.handlers)
  {
    hide Standing, Content, AddMethod, Config.Valid;
    o, s' := AddMethodRules(s, st.path, config, md, h.name);
    if o.Done? {
      st.handlers := st.handlers[h.name := HandlersOf(st.handlers, h.name) + [h]];
    }
  }

  /** The implicit rule of a method can be added: its name is a template without a variable
      inside another one, all its field paths are known, and its node has no wildcard method. */
  ghost predicate Open(t: Trie, desc: Desc, name: string) {
    && TemplateFits(name)
    && AllKnown(Looks(Segments(ImplicitRule(name))), desc)
    && Flat(Segments(ImplicitRule(name)))
    && Bound(t, Dest(Root, WalkOf(ImplicitRule(name), desc).steps), "*").None?
  }

  /** The implicit rule has no additional bindings. */
  lemma {:induction false} ImplicitAlone(t: Trie, desc: Desc, name: string)
    requires Sound(t)
    ensures Rules.AddRule(t, ImplicitRule(name), desc, name).1 == AddOne(t, ImplicitRule(name), desc, name).1
  {
    hide AddOne;
    AddOneExact(t, ImplicitRule(name), desc, name);
  }

  lemma {:induction false} ImplicitIff(t: Trie, desc: Desc, name: string)
    requires Sound(t)
    ensures var r := Rules.AddRule(t, ImplicitRule(name), desc, name).1;
      && (r.Added? <==> Open(t, desc, name))
      && !r.Already?
  {
    var rule := ImplicitRule(name);
    ImplicitAlone(t, desc, name);
    assert Upper("*") == "*" by {
      assert "*"[1..] == "";
    }
    hide Walk, Grow, Looks, Slots, Segments, Rules.AddRule, Wf, NoStar, Upper, TemplateFits;
    SoundParts(t);
    AddPanicsIff(t, rule, desc, name);
    AddOneExact(t, rule, desc, name);
    if TemplateFits(name) {
      RuleEnds(rule, desc);
      if WalkOf(rule, desc).end.Arrived? {
        ImplicitBuilt(t, rule, desc, name);
      }
    }
  }

  /** At its node, the implicit rule is refused only by a wildcard method. */
  lemma {:induction false} ImplicitBuilt(t: Trie, rule: HttpRule, desc: Desc, name: string)
    requires Sound(t) && rule == ImplicitRule(name) && TemplateFits(name) && VerbOf(rule.pattern) == "*"
    requires WalkOf(rule, desc).end.Arrived?
    ensures var r := AddOne(t, rule, desc, name).1;
      if Bound(t, Dest(Root, WalkOf(rule, desc).steps), "*").None? then r.Added? else r.Panics?
  {
    hide Walk, Slots, Segments, TemplateFits, VerbOf;
    var w := WalkOf(rule, desc);
    GrowGood(t, Root, w.steps);
    assert Bound(Grow(t, Root, w.steps), Dest(Root, w.steps), "*") == Bound(t, Dest(Root, w.steps), "*");
  }

  /** The name of a method of one letter is no template: a literal segment has at least two
      characters. */
  lemma {:induction false} OneLetterName(service: string, c: char)
    requires GoodWord(service) && IsLetter(c)
    ensures !TemplateFits(FullName(service, [c]))
  {
    hide IsLetter, IsLiteral;
    var name, rest := FullName(service, [c]), "/" + [c];
    assert name[1..] == service + rest by {
      assert "/" + service + "/" + [c] == "/" + (service + rest);
    }
    LetterEnds([c]);
    WordThen(service, rest);
    assert rest[1..] == [c];
  }

  lemma {:induction false} LetterEnds(s: string)
    requires |s| == 1 && IsLetter(s[0])
    ensures ParseSegment(s) == NoParse && ParseList(s) == NoParse
  {
    assert s[1..] == "" && Span(IsLiteral, "") == 0;
  }

  lemma {:induction false} WordThen(w: string, rest: string)
    requires GoodWord(w) && StartsWith(rest, '/')
    ensures ParseSegment(w + rest) == Parsed(Word(w), rest)
  {
    SegmentComplete(Word(w), rest);
  }

  lemma {:induction false} ShortNamePanics(t: Trie, entries: seq<Selectors.Entry>, md: MethodDesc)
    requires Sound(t)
    ensures AddMethod(t, entries, md, "/pkg.Service/M").1 == Panicked
  {
    hide Rules.AddRule, AddRules, OwnRules, AddMethod, TemplateFits, Walk, Looks, Segments, Flat, Slots;
    var service := "pkg.Service";
    assert service[1..] == "kg.Service";
    assert "/" + service + "/" + ['M'] == "/pkg.Service/M";
    OneLetterName(service, 'M');
    MethodPanicsIff(t, entries, md, "/pkg.Service/M");
  }

  /** A method that was registered cannot be registered again. */
  lemma {:induction false} SecondTimePanics(t: Trie, entries: seq<Selectors.Entry>, md: MethodDesc, name: string)
    requires Sound(t) && AddMethod(t, entries, md, name).1.Done?
    ensures AddMethod(AddMethod(t, entries, md, name).0, entries, md, name).1 == Panicked
  {
    var u, w := Implied(t, md.desc, name), AddMethod(t, entries, md, name).0;
    MethodPanicsIff(t, entries, md, name);
    MethodPanicsIff(w, entries, md, name);
    AfterImplied(t, entries, md, name);
    hide Sound, AddRules, AddMethod, OwnRules, Open, Implied, Rules.AddRule;
    RulesEnlarge(u, OwnRules(entries, md), md.desc, name);
    ImpliedBound(t, md.desc, name);
    StaysClosed(u, w, {name}, md.desc, name);
  }

  lemma {:induction false} AfterImplied(t: Trie, entries: seq<Selectors.Entry>, md: MethodDesc, name: string)
    requires Sound(t) && AddMethod(t, entries, md, name).1.Done?
    ensures var u := Implied(t, md.desc, name);
      var (w, q) := AddRules(u, OwnRules(entries, md), md.desc, name);
      AddMethod(t, entries, md, name).0 == w && !q.Fails? && !q.Panics?
  {
    hide AddRules, OwnRules, Rules.AddRule, Sound;
    SoundParts(t);
  }

  /** The implicit rule leaves its wildcard method. */
  lemma {:induction false} ImpliedBound(t: Trie, desc: Desc, name: string)
    requires Sound(t) && Open(t, desc, name)
    ensures !Open(Implied(t, desc, name), desc, name)
  {
    hide Sound, Walk, Looks, Slots, Segments, Flat, Rules.AddRule, Wf, NoStar, Grown, Open, TemplateFits, Upper;
    var rule := ImplicitRule(name);
    ImplicitIff(t, desc, name);
    SoundParts(t);
    AddRuleExact(t, rule, desc, name);
    assert rule in [rule] + rule.additional;
    BoundCloses(Implied(t, desc, name), desc, name);
  }

  lemma {:induction false} BoundCloses(u: Trie, desc: Desc, name: string)
    requires IsBound(u, ImplicitRule(name), desc)
    ensures !Open(u, desc, name)
  {
    assert Upper("*") == "*" by {
      assert "*"[1..] == "";
    }
  }

  lemma {:induction false} StaysClosed(u: Trie, w: Trie, names: set<string>, desc: Desc, name: string)
    requires Enlarged(u, w, names) && !Open(u, desc, name)
    ensures !Open(w, desc, name)
  {
    if Open(w, desc, name) {
      OpenBefore(u, w, names, desc, name);
    }
  }

  /** Registering a method panics if and only if its implicit rule cannot be added, or it can
      and one of its own rules panics. So a method whose name is no template, such as one with
      a name of one letter, panics the first time, and every method panics the second time. */
  lemma {:induction false} MethodPanicsIff(t: Trie, entries: seq<Selectors.Entry>, md: MethodDesc, name: string)
    requires Sound(t)
    ensures AddMethod(t, entries, md, name).1 == Panicked <==>
      var u := Implied(t, md.desc, name);
      !Open(t, md.desc, name) || AddRules(u, OwnRules(entries, md), md.desc, name).1.Panics?
  {
    hide Open, Rules.AddRule, AddRules, OwnRules, Sound;
    SoundParts(t);
    ImplicitIff(t, md.desc, name);
  }

  /** The k-th rule is accepted when its turn comes. */
  ghost predicate InTurn(t: Trie, rules: seq<HttpRule>, k: nat, desc: Desc, name: string)
    requires Sound(t) && k < |rules|
  {
    AcceptedWhole(AddRules(t, rules[..k], desc, name).0, rules[k], desc, name)
  }

  /** A list of rules is added exactly when each of them is accepted when its turn comes. */
  lemma {:induction false} RulesAddedIff(t: Trie, rules: seq<HttpRule>, desc: Desc, name: string)
    requires Sound(t)
    ensures Verdict(AddRules(t, rules, desc, name).1).Done? <==>
      forall k :: 0 <= k < |rules| ==> InTurn(t, rules, k, desc, name)
    decreases |rules|
  {
    hide Rules.AddRule, Sound, InTurn, AcceptedWhole;
    if rules != [] {
      FirstInTurn(t, rules, desc, name);
      SoundParts(t);
      SoundAfter(t, Registry.Entry(rules[0], desc, name));
      var (u, r) := Rules.AddRule(t, rules[0], desc, name);
      if r.Added? || r.Already? {
        RulesAddedIff(u, rules[1..], desc, name);
        forall k | 0 < k < |rules|
          ensures InTurn(t, rules, k, desc, name) <==> InTurn(u, rules[1..], k - 1, desc, name)
        {
          LaterInTurn(t, rules, k, desc, name);
        }
        if forall k :: 0 <= k < |rules| ==> InTurn(t, rules, k, desc, name) {
          forall k | 0 <= k < |rules[1..]| ensures InTurn(u, rules[1..], k, desc, name) {
            assert InTurn(t, rules, k + 1, desc, name) <==> InTurn(u, rules[1..], k, desc, name);
          }
        }
      } else {
        assert !InTurn(t, rules, 0, desc, name);
      }
    }
  }

  lemma {:induction false} FirstInTurn(t: Trie, rules: seq<HttpRule>, desc: Desc, name: string)
    requires Sound(t) && rules != []
    ensures InTurn(t, rules, 0, desc, name) <==> Rules.AddRule(t, rules[0], desc, name).1 in {Added, Already}
  {
    hide Rules.AddRule, AcceptedWhole;
    SoundParts(t);
    AddRuleIff(t, rules[0], desc, name);
    assert rules[..0] == [];
  }

  lemma {:induction false} LaterInTurn(t: Trie, rules: seq<HttpRule>, k: nat, desc: Desc, name: string)
    requires Sound(t) && 0 < k < |rules| && Rules.AddRule(t, rules[0], desc, name).1 in {Added, Already}
    ensures var u := Rules.AddRule(t, rules[0], desc, name).0;
      Sound(u) && (InTurn(t, rules, k, desc, name) <==> InTurn(u, rules[1..], k - 1, desc, name))
  {
    hide Rules.AddRule, AcceptedWhole, Sound;
    SoundParts(t);
    SoundAfter(t, Registry.Entry(rules[0], desc, name));
    assert rules[..k][0] == rules[0] && rules[..k][1..] == rules[1..][..k - 1];
    assert rules[1..][k - 1] == rules[k];
  }

  /** Registering a method succeeds exactly when its implicit rule can be added and each of its own
      rules is accepted when its turn comes. */
  lemma {:induction false} MethodDoneIff(t: Trie, entries: seq<Selectors.Entry>, md: MethodDesc, name: string)
    requires Sound(t)
    ensures AddMethod(t, entries, md, name).1.Done? <==>
      var u, own := Implied(t, md.desc, name), OwnRules(entries, md);
      Open(t, md.desc, name) && forall k :: 0 <= k < |own| ==> InTurn(u, own, k, md.desc, name)
  {
    hide Open, Rules.AddRule, AddRules, OwnRules, Sound, InTurn;
    SoundParts(t);
    ImplicitIff(t, md.desc, name);
    RulesAddedIff(Implied(t, md.desc, name), OwnRules(entries, md), md.desc, name);
  }

  /** The tree after the implicit rule of a method. */
  function Implied(t: Trie, desc: Desc, name: string): (u: Trie)
    requires Sound(t)
    ensures Sound(u)
  {
    AddRuleExact(t, ImplicitRule(name), desc, name);
    Rules.AddRule(t, ImplicitRule(name), desc, name).0
  }

  ghost predicate PanicsAt(t: Trie, rules: seq<HttpRule>, k: nat, desc: Desc, name: string)
    requires Sound(t) && k < |rules|
  {
    var (u, r) := AddRules(t, rules[..k], desc, name);
    r.Added? && Rules.AddRule(u, rules[k], desc, name).1.Panics?
  }

  /** The rules after the first one, when it is accepted. */
  lemma {:induction false} PanicsLater(t: Trie, rules: seq<HttpRule>, k: nat, desc: Desc, name: string)
    requires Sound(t) && 0 < k < |rules|
    ensures var (u, r) := Rules.AddRule(t, rules[0], desc, name);
      && Sound(u)
      && (PanicsAt(t, rules, k, desc, name) <==> !r.Fails? && !r.Panics? && PanicsAt(u, rules[1..], k - 1, desc, name))
  {
    hide Rules.AddRule;
    AddRuleExact(t, rules[0], desc, name);
    assert rules[..k][0] == rules[0] && rules[..k][1..] == rules[1..][..k - 1];
    assert rules[1..][k - 1] == rules[k];
  }

  lemma {:induction false} PanicsFirst(t: Trie, rules: seq<HttpRule>, desc: Desc, name: string)
    requires Sound(t) && rules != []
    ensures PanicsAt(t, rules, 0, desc, name) <==> Rules.AddRule(t, rules[0], desc, name).1.Panics?
  {
    assert rules[..0] == [];
  }

  /** A list of rules panics if and only if one of them does after the ones before it were
      added. */
  lemma {:induction false} RulesPanicIff(t: Trie, rules: seq<HttpRule>, desc: Desc, name: string)
    requires Sound(t)
    ensures AddRules(t, rules, desc, name).1.Panics? <==>
      exists k :: 0 <= k < |rules| && PanicsAt(t, rules, k, desc, name)
    decreases |rules|
  {
    hide Rules.AddRule, PanicsAt, Sound;
    if rules != [] {
      SoundParts(t);
      PanicsFirst(t, rules, desc, name);
      AddRuleExact(t, rules[0], desc, name);
      var (u, r) := Rules.AddRule(t, rules[0], desc, name);
      SoundWhole(u);
      RulesPanicIff(u, rules[1..], desc, name);
      forall k | 0 < k < |rules|
        ensures PanicsAt(t, rules, k, desc, name) <==>
          !r.Fails? && !r.Panics? && PanicsAt(u, rules[1..], k - 1, desc, name)
      {
        PanicsLater(t, rules, k, desc, name);
      }
      if exists k :: 0 <= k < |rules[1..]| && PanicsAt(u, rules[1..], k, desc, name) {
        var k :| 0 <= k < |rules[1..]| && PanicsAt(u, rules[1..], k, desc, name);
        assert PanicsAt(t, rules, k + 1, desc, name) <==> !r.Fails? && !r.Panics?;
      }
    }
  }

  function NamesOf(hs: seq<Handler>): set<string> {
    set h | h in hs :: h.name
  }

  /** Handlers are only added, and only these. */
  ghost predicate Attached(before: Handlers, hs: Handlers, added: seq<Handler>) {
    && (forall n :: HandlersOf(before, n) <= HandlersOf(hs, n))
    && (forall h :: h in added ==> h in HandlersOf(hs, h.name))
    && (forall n, h :: h in HandlersOf(hs, n) ==> h in HandlersOf(before, n) || (h in added && h.name == n))
  }

  lemma {:induction false} AttachedNone(hs: Handlers)
    ensures Attached(hs, hs, [])
  {
  }

  lemma {:induction false} AttachedMore(before: Handlers, hs: Handlers, added: seq<Handler>, h: Handler)
    requires Attached(before, hs, added)
    ensures Attached(before, hs[h.name := HandlersOf(hs, h.name) + [h]], added + [h])
  {
  }

  lemma {:induction false} AttachedTrans(before: Handlers, hs: Handlers, hs': Handlers, a: seq<Handler>,
                                         b: seq<Handler>)
    requires Attached(before, hs, a) && Attached(hs, hs', b)
    ensures Attached(before, hs', a + b)
  {
  }

  /** The handlers are one for each of the methods, with its descriptor. */
  predicate Handle(hs: seq<Handler>, items: seq<Item>) {
    |hs| == |items| && forall i :: 0 <= i < |items| ==>
      hs[i].name == items[i].name && items[i].md.Some? && hs[i].desc == items[i].md.value.desc
  }

  lemma {:induction false} HandleNames(hs: seq<Handler>, items: seq<Item>)
    requires Handle(hs, items)
    ensures NamesOf(hs) == ItemNames(items)
  {
    forall n ensures n in NamesOf(hs) <==> n in ItemNames(items) {
      if n in NamesOf(hs) {
        var i :| 0 <= i < |hs| && hs[i].name == n;
        assert items[i] in items;
      }
      if n in ItemNames(items) {
        var i :| 0 <= i < |items| && items[i].name == n;
        assert hs[i] in hs;
      }
    }
  }

  /** The loops of `registerService` and `processFile`: one handler for each method. */
  method AppendAll(ghost s: Shape, st: State, config: Config, items: seq<Item>)
    returns (o: Registration, added: seq<Handler>, ghost s': Shape)
    requires Standing(s, st.path) && config.Valid()
    modifies st`handlers, s.Values
    ensures fresh(s'.Values - s.Values) && Standing(s', st.path)
    ensures (Content(s'), o) == AddItems(old(Content(s)), config.entries, items)
    ensures Attached(old(st.handlers), st.handlers, added)
    ensures o.Done? ==> Handle(added, items)
  {
    hide Standing, Content, Sound, Config.Valid, AddMethod, AddItems, Attached;
    StandingSound(s, st.path);
    ghost var t := Content(s);
    s', added := s, [];
    AttachedNone(st.handlers);
    var k := 0;
    o := Done;
    assert items[0..] == items;
    while k < |items| && o.Done?
      invariant k <= |items| && (o.Done? ==> Handle(added, items[..k]))
      invariant Standing(s', st.path) && Sound(Content(s')) && fresh(s'.Values - s.Values)
      invariant AddItems(t, config.entries, items) ==
        if o.Done? then AddItems(Content(s'), config.entries, items[k..]) else (Content(s'), o)
      invariant Attached(old(st.handlers), st.handlers, added)
    {
      AddItemsUnfold(Content(s'), config.entries, items, k);
      if items[k].md.None? {
        o := Failed;
      } else {
        var h := new Handler(items[k].name, items[k].md.value.desc);
        AttachedMore(old(st.handlers), st.handlers, added, h);
        o, s' := AppendHandler(s', st, config, items[k].md.value, h);
        StandingSound(s', st.path);
        if o.Done? {
          added := added + [h];
        }
      }
      k := k + 1;
    }
    AddItemsEnd(Content(s'), config.entries, items);
    assert items[..|items|] == items;
  }

  lemma {:induction false} AddItemsUnfold(t: Trie, entries: seq<Selectors.Entry>, items: seq<Item>, k: nat)
    requires Sound(t) && k < |items|
    ensures AddItems(t, entries, items[k..]) ==
      if items[k].md.None? then (t, Failed)
      else
        var (u, o) := AddMethod(t, entries, items[k].md.value, items[k].name);
        if o.Done? then AddItems(u, entries, items[k + 1..]) else (u, o)
  {
    assert items[k..][1..] == items[k + 1..];
  }

  lemma {:induction false} AddItemsEnd(t: Trie, entries: seq<Selectors.Entry>, items: seq<Item>)
    requires Sound(t)
    ensures AddItems(t, entries, items[|items|..]) == (t, Done)
  {
  }

  /** The loop of `addConnHandler` over the files of a connection. */
  method AppendFiles(ghost s: Shape, st: State, config: Config, files: seq<Option<seq<Item>>>)
    returns (o: Registration, added: seq<Handler>, ghost s': Shape)
    requires Standing(s, st.path) && config.Valid()
    modifies st`handlers, s.Values
    ensures fresh(s'.Values - s.Values) && Standing(s', st.path)
    ensures (Content(s'), o) == AddFiles(old(Content(s)), config.entries, files)
    ensures Attached(old(st.handlers), st.handlers, added)
    ensures o.Done? ==> NamesOf(added) == FileNames(files)
  {
    hide Standing, Content, Sound, Config.Valid, AddItems, AddFiles, Attached, FileNames, NamesOf, Handle;
    StandingSound(s, st.path);
    ghost var t := Content(s);
    s', added := s, [];
    AttachedNone(st.handlers);
    var k := 0;
    assert files[0..] == files;
    NoNames(files);
    while k < |files|
      invariant k <= |files| && NamesOf(added) + FileNames(files[k..]) == FileNames(files)
      invariant Standing(s', st.path) && Sound(Content(s')) && fresh(s'.Values - s.Values)
      invariant AddFiles(t, config.entries, files) == AddFiles(Content(s'), config.entries, files[k..])
      invariant Attached(old(st.handlers), st.handlers, added)
    {
      AddFilesUnfold(Content(s'), config.entries, files, k);
      if files[k].None? {
        return Failed, added, s';
      }
      ghost var hs := st.handlers;
      var more;
      o, more, s' := AppendAll(s', st, config, files[k].value);
      StandingSound(s', st.path);
      AttachedTrans(old(st.handlers), hs, st.handlers, added, more);
      NamesConcat(added, more);
      if !o.Done? {
        added := added + more;
        return;
      }
      HandleNames(more, files[k].value);
      added := added + more;
      k := k + 1;
    }
    AddFilesEnd(Content(s'), config.entries, files);
    o := Done;
  }

  lemma {:induction false} NoNames(files: seq<Option<seq<Item>>>)
    ensures NamesOf([]) + FileNames(files) == FileNames(files) && FileNames(files[|files|..]) == {}
  {
  }

  lemma {:induction false} NamesConcat(a: seq<Handler>, b: seq<Handler>)
    ensures NamesOf(a + b) == NamesOf(a) + NamesOf(b)
  {
  }

  lemma {:induction false} AddFilesUnfold(t: Trie, entries: seq<Selectors.Entry>, files: seq<Option<seq<Item>>>, k: nat)
    requires Sound(t) && k < |files|
    ensures FileNames(files[k..]) ==
      (if files[k].Some? then ItemNames(files[k].value) else {}) + FileNames(files[k + 1..])
    ensures AddFiles(t, entries, files[k..]) ==
      if files[k].None? then (t, Failed)
      else
        var (u, o) := AddItems(t, entries, files[k].value);
        if o.Done? then AddFiles(u, entries, files[k + 1..]) else (u, o)
  {
    assert files[k..][1..] == files[k + 1..];
  }

  lemma {:induction false} AddFilesEnd(t: Trie, entries: seq<Selectors.Entry>, files: seq<Option<seq<Item>>>)
    requires Sound(t)
    ensures AddFiles(t, entries, files[|files|..]) == (t, Done)
  {
  }

  /* ---- Removing a connection ---- */

  /** Specific bindings only disappear, and only those of the given names. */
  ghost predicate Reduced(t: Trie, u: Trie, names: set<string>) {
    forall x, v :: v != "*" && Bound(u, x, v) != Bound(t, x, v) ==>
      Bound(u, x, v).None? && Bound(t, x, v).Some? && Bound(t, x, v).value.name in names
  }

  lemma {:induction false} DeletedReduces(t: Trie, u: Trie, name: string, x: Addr, verb: string)
    requires Sound(t) && Deleted(t, u, Root, name, x, verb)
    ensures Sound(u) && Reduced(t, u, {name})
  {
    DeleteExact(t, u, Root, name, x, verb);
    assert verb != "*";
  }

  /** One deletion by name, where it is found first, or none because nothing has the name. */
  ghost predicate DeletedOne(t: Trie, u: Trie, name: string) {
    || (u == t && Nameless(t, Root, name))
    || exists x, verb :: Deleted(t, u, Root, name, x, verb) && FoundFirst(t, Root, name, x)
  }

  /** `delRule` from the root, whatever it answers. */
  method DeleteNamed(ghost s: Shape, p: PathTree.Path, name: string) returns (ghost s': Shape)
    requires Standing(s, p)
    modifies s.Values
    ensures Within(s', s) && Standing(s', p) && Reduced(old(Content(s)), Content(s'), {name})
    ensures DeletedOne(old(Content(s)), Content(s'), name)
  {
    hide Sound, Tree, Deleted, Reduced, Under, Nameless, FoundFirst;
    ghost var t := Content(s);
    SoundParts(t);
    var ok;
    ghost var x, verb;
    ok, s', x, verb := DelRule(s, p, name);
    if ok {
      DeletedReduces(t, Content(s'), name, x, verb);
    } else {
      Unreduced(t, {name});
    }
  }

  lemma {:induction false} Unreduced(t: Trie, names: set<string>)
    ensures Reduced(t, t, names)
  {
  }

  function Minus(hs: seq<Handler>, h: Handler): seq<Handler> {
    if hs == [] then []
    else Minus(hs[..|hs| - 1], h) + if hs[|hs| - 1] != h then [hs[|hs| - 1]] else []
  }

  lemma {:induction false} MinusHas(hs: seq<Handler>, h: Handler)
    ensures forall g :: g in Minus(hs, h) ==> g in hs && g != h
    ensures forall g :: g in hs && g != h ==> g in Minus(hs, h)
  {
    if hs != [] {
      MinusHas(hs[..|hs| - 1], h);
      assert hs == hs[..|hs| - 1] + [hs[|hs| - 1]];
    }
  }

  /** The inner loop of `removeHandler`. */
  method DropOne(hs: seq<Handler>, h: Handler) returns (out: seq<Handler>)
    ensures out == Minus(hs, h)
  {
    out := [];
    var k := 0;
    while k < |hs|
      invariant k <= |hs| && out == Minus(hs[..k], h)
    {
      assert hs[..k + 1][..k] == hs[..k];
      if hs[k] != h {
        out := out + [hs[k]];
      }
      k := k + 1;
    }
    assert hs[..k] == hs;
  }

  /** The handlers after one of them went. */
  function Detach(hs: Handlers, hd: Handler): Handlers {
    var hds := Minus(HandlersOf(hs, hd.name), hd);
    if hds == [] then hs - {hd.name} else hs[hd.name := hds]
  }

  function DetachAll(hs: Handlers, gone: seq<Handler>): Handlers {
    if gone == [] then hs else Detach(DetachAll(hs, gone[..|gone| - 1]), gone[|gone| - 1])
  }

  /** The methods that lose their last handler, in this order. */
  function Emptied(hs: Handlers, gone: seq<Handler>): seq<string> {
    if gone == [] then []
    else
      var init, hd := gone[..|gone| - 1], gone[|gone| - 1];
      Emptied(hs, init) + if Minus(HandlersOf(DetachAll(hs, init), hd.name), hd) == [] then [hd.name] else []
  }

  /** One deletion for each of the names. */
  ghost predicate DeletedAll(t: Trie, u: Trie, names: seq<string>)
    decreases |names|
  {
    if names == [] then u == t
    else
      var init, name := names[..|names| - 1], names[|names| - 1];
      exists w :: DeletedAll(t, w, init) && DeletedOne(w, u, name)
  }

  lemma {:induction false} DeletedNone(t: Trie)
    ensures DeletedAll(t, t, [])
  {
  }

  lemma {:induction false} DeletedMore(t: Trie, w: Trie, u: Trie, names: seq<string>, name: string)
    requires DeletedAll(t, w, names) && DeletedOne(w, u, name)
    ensures DeletedAll(t, u, names + [name])
  {
    assert (names + [name])[..|names|] == names;
  }

  /** A node with nothing but wildcard methods at it and below it. */
  ghost predicate OnlyStars(t: Trie, y: Addr) {
    y in t && forall z :: z in t && Under(y, z) ==> t[z].methods == map[]
  }

  /** It keeps them: a deletion loses a wildcard method only with a specific one below it. */
  lemma {:induction false} StarsStay(t: Trie, u: Trie, name: string, y: Addr)
    requires Sound(t) && DeletedOne(t, u, name) && OnlyStars(t, y)
    ensures Sound(u) && OnlyStars(u, y) && Bound(u, y, "*") == Bound(t, y, "*")
  {
    hide Sound, Deleted, Doomed, OnlyStars, Nameless, Bound;
    if exists x, verb :: Deleted(t, u, Root, name, x, verb) {
      var x, verb :| Deleted(t, u, Root, name, x, verb);
      SoundParts(t);
      DeleteExact(t, u, Root, name, x, verb);
      SoundWhole(u);
      NotDoomed(t, u, name, x, verb, y);
      StarsLeft(t, u, x, verb, y);
    }
  }

  lemma {:induction false} NotDoomed(t: Trie, u: Trie, name: string, x: Addr, verb: string, y: Addr)
    requires Deleted(t, u, Root, name, x, verb) && OnlyStars(t, y)
    ensures y in t && !Doomed(t, Root, x, verb, y)
  {
    hide Prune, Unbind;
    assert verb in t[x].methods;
  }

  lemma {:induction false} StarsLeft(t: Trie, u: Trie, x: Addr, verb: string, y: Addr)
    requires OnlyStars(t, y) && y in u && u.Keys <= t.Keys && NoStar(u)
    requires forall z, v :: v != "*" ==> Bound(u, z, v) == if z == x && v == verb then None else Bound(t, z, v)
    ensures OnlyStars(u, y)
  {
    forall z | z in u && Under(y, z) ensures u[z].methods == map[] {
      forall v ensures v !in u[z].methods {
        assert v != "*" ==> Bound(t, z, v).None? && Bound(u, z, v).None?;
      }
    }
  }

  lemma {:induction false} AllStarsStay(t: Trie, u: Trie, names: seq<string>, y: Addr)
    requires Sound(t) && DeletedAll(t, u, names) && OnlyStars(t, y)
    ensures Sound(u) && OnlyStars(u, y) && Bound(u, y, "*") == Bound(t, y, "*")
    decreases |names|
  {
    hide Sound, DeletedOne, OnlyStars;
    if names != [] {
      var init, name := names[..|names| - 1], names[|names| - 1];
      var w :| DeletedAll(t, w, init) && DeletedOne(w, u, name);
      AllStarsStay(t, w, init, y);
      StarsStay(w, u, name, y);
    }
  }

  lemma {:induction false} DeletedSound(t: Trie, u: Trie, names: seq<string>)
    requires Sound(t) && DeletedAll(t, u, names)
    ensures Sound(u)
    decreases |names|
  {
    hide Sound, Deleted, Nameless;
    if names != [] {
      var init, name := names[..|names| - 1], names[|names| - 1];
      var w :| DeletedAll(t, w, init) && DeletedOne(w, u, name);
      DeletedSound(t, w, init);
      if exists x, verb :: Deleted(w, u, Root, name, x, verb) {
        var x, verb :| Deleted(w, u, Root, name, x, verb);
        DeletedReduces(w, u, name, x, verb);
      }
    }
  }

  /** Deletions add no binding. */
  lemma {:induction false} DeletedOneKeeps(t: Trie, u: Trie, name: string, x: Addr, v: string)
    requires Sound(t) && DeletedOne(t, u, name) && Bound(u, x, v).Some?
    ensures Bound(t, x, v) == Bound(u, x, v)
  {
    hide Sound, Deleted, Doomed, Nameless;
    if exists y, verb :: Deleted(t, u, Root, name, y, verb) {
      var y, verb :| Deleted(t, u, Root, name, y, verb);
      SoundParts(t);
      DeleteExact(t, u, Root, name, y, verb);
      assert v == "*" ==> x in t;
    }
  }

  lemma {:induction false} DeletedAllKeeps(t: Trie, u: Trie, names: seq<string>, x: Addr, v: string)
    requires Sound(t) && DeletedAll(t, u, names) && Bound(u, x, v).Some?
    ensures Bound(t, x, v) == Bound(u, x, v)
    decreases |names|
  {
    hide Sound, DeletedOne, Bound;
    if names != [] {
      var init, name := names[..|names| - 1], names[|names| - 1];
      var w :| DeletedAll(t, w, init) && DeletedOne(w, u, name);
      DeletedSound(t, w, init);
      DeletedOneKeeps(w, u, name, x, v);
      DeletedAllKeeps(t, w, init, x, v);
    }
  }

  /** Deletions keep the variables that the matcher can read. */
  lemma {:induction false} DeletedOnePlain(t: Trie, u: Trie, name: string)
    requires Sound(t) && PlainTrie(t) && DeletedOne(t, u, name)
    ensures PlainTrie(u)
  {
    hide Sound, Deleted, Doomed, Nameless, Bound;
    if exists y, verb :: Deleted(t, u, Root, name, y, verb) {
      var y, verb :| Deleted(t, u, Root, name, y, verb);
      SoundParts(t);
      DeleteExact(t, u, Root, name, y, verb);
      forall x, i | x in u && 0 <= i < |u[x].vars| ensures PlainTokens(u[x].vars[i].toks) {
        assert u[x].vars[i] in t[x].vars;
      }
    }
  }

  lemma {:induction false} DeletedAllPlain(t: Trie, u: Trie, names: seq<string>)
    requires Sound(t) && PlainTrie(t) && DeletedAll(t, u, names)
    ensures PlainTrie(u)
    decreases |names|
  {
    hide Sound, DeletedOne, PlainTrie;
    if names != [] {
      var init, name := names[..|names| - 1], names[|names| - 1];
      var w :| DeletedAll(t, w, init) && DeletedOne(w, u, name);
      DeletedSound(t, w, init);
      DeletedAllPlain(t, w, init);
      DeletedOnePlain(w, u, name);
    }
  }

  /** A method has no handler left exactly when it had none or lost its last one. */
  lemma {:induction false} EmptiedIff(hs: Handlers, gone: seq<Handler>, n: string)
    ensures HandlersOf(DetachAll(hs, gone), n) == [] <==> HandlersOf(hs, n) == [] || n in Emptied(hs, gone)
    decreases |gone|
  {
    if gone != [] {
      hide Minus, DetachAll;
      var init, hd := gone[..|gone| - 1], gone[|gone| - 1];
      EmptiedIff(hs, init, n);
      assert DetachAll(hs, gone) == Detach(DetachAll(hs, init), hd) by {
        DetachLast(hs, gone);
      }
      MinusHas(HandlersOf(DetachAll(hs, init), hd.name), hd);
      DetachHas(DetachAll(hs, init), hd, n);
    }
  }

  lemma {:induction false} DetachLast(hs: Handlers, gone: seq<Handler>)
    requires gone != []
    ensures DetachAll(hs, gone) == Detach(DetachAll(hs, gone[..|gone| - 1]), gone[|gone| - 1])
  {
  }

  lemma {:induction false} DetachHas(hs: Handlers, hd: Handler, n: string)
    ensures HandlersOf(Detach(hs, hd), n) == if n == hd.name then Minus(HandlersOf(hs, n), hd) else HandlersOf(hs, n)
    ensures HandlersOf(hs, hd.name) == [] ==> Minus(HandlersOf(hs, hd.name), hd) == []
  {
  }

  /** A binding that is left in `u` belongs to a method that lost its last handler and is none
      of the new ones. */
  ghost predicate Orphaned(u: Trie, emptied: seq<string>, names: set<string>) {
    exists x, v :: Orphan(u, emptied, names, x, v)
  }

  ghost predicate Orphan(u: Trie, emptied: seq<string>, names: set<string>, x: Addr, v: string) {
    Bound(u, x, v).Some? && Bound(u, x, v).value.name in emptied && Bound(u, x, v).value.name !in names
  }

  /** After the handlers of a connection went and those of its new methods came, every bound
      method has a handler if and only if no binding is orphaned. */
  lemma {:induction false} RejoinServed(t: Trie, u: Trie, w: Trie, names: set<string>, had: Handlers,
                                        gone: seq<Handler>, hs: Handlers, added: seq<Handler>)
    requires Sound(t) && Served(t, had) && DeletedAll(t, u, Emptied(had, gone))
    requires Enlarged(u, w, names) && Attached(DetachAll(had, gone), hs, added) && NamesOf(added) == names
    ensures Served(w, hs) <==> !Orphaned(u, Emptied(had, gone), names)
  {
    hide DeletedAll, Sound, DetachAll, Emptied;
    var emptied := Emptied(had, gone);
    forall x, v | Bound(u, x, v).Some?
      ensures HandlersOf(hs, Bound(u, x, v).value.name) != [] <==> !Orphan(u, emptied, names, x, v)
    {
      DeletedAllKeeps(t, u, emptied, x, v);
      AttachedIff(DetachAll(had, gone), hs, added, Bound(u, x, v).value.name);
      EmptiedIff(had, gone, Bound(u, x, v).value.name);
    }
    if Orphaned(u, emptied, names) {
      var x, v :| Orphan(u, emptied, names, x, v);
      assert Bound(w, x, v) == Bound(u, x, v);
    }
    if !Orphaned(u, emptied, names) {
      forall x, v | Bound(w, x, v).Some? ensures HandlersOf(hs, Bound(w, x, v).value.name) != [] {
        if Bound(w, x, v) == Bound(u, x, v) {
          assert !Orphan(u, emptied, names, x, v);
        } else {
          AttachedIff(DetachAll(had, gone), hs, added, Bound(w, x, v).value.name);
        }
      }
    }
  }

  /** Handlers come for the methods of the new handlers only. */
  lemma {:induction false} AttachedIff(before: Handlers, hs: Handlers, added: seq<Handler>, n: string)
    requires Attached(before, hs, added)
    ensures HandlersOf(hs, n) != [] <==> HandlersOf(before, n) != [] || n in NamesOf(added)
  {
    if n in NamesOf(added) {
      var h :| h in added && h.name == n;
      assert h in HandlersOf(hs, h.name);
    }
    if HandlersOf(hs, n) != [] {
      var h := HandlersOf(hs, n)[0];
      assert h in HandlersOf(hs, n);
      if h !in HandlersOf(before, n) {
        assert h in added && h.name == n && n in NamesOf(added);
      }
    }
    assert HandlersOf(before, n) <= HandlersOf(hs, n);
  }

  /** The wildcard method of a node with nothing but wildcard methods at it and below it loses
      its last handler, and is not registered again. */
  ghost predicate Deserted(t: Trie, emptied: seq<string>, names: set<string>) {
    exists y :: OnlyStars(t, y) && Orphan(t, emptied, names, y, "*")
  }

  /** Its binding stays, without a handler. */
  lemma {:induction false} DesertedOrphans(t: Trie, u: Trie, emptied: seq<string>, names: set<string>)
    requires Sound(t) && DeletedAll(t, u, emptied) && Deserted(t, emptied, names)
    ensures Orphaned(u, emptied, names)
  {
    hide Sound, DeletedAll, OnlyStars;
    var y :| OnlyStars(t, y) && Orphan(t, emptied, names, y, "*");
    AllStarsStay(t, u, emptied, y);
    assert Orphan(u, emptied, names, y, "*");
  }

  /** Methods that are registered had an implicit rule that could be added before. */
  lemma {:induction false} ItemsOpen(t: Trie, entries: seq<Selectors.Entry>, items: seq<Item>, i: nat)
    requires Sound(t) && AddItems(t, entries, items).1.Done? && i < |items|
    ensures items[i].md.Some? && Open(t, items[i].md.value.desc, items[i].name)
    decreases |items|
  {
    hide AddMethod, Sound;
    var item, name := items[0].md.value, items[0].name;
    MethodPanicsIff(t, entries, item, name);
    if i > 0 {
      MethodEnlarges(t, entries, item, name);
      hide Open;
      ItemsOpen(AddMethod(t, entries, item, name).0, entries, items[1..], i - 1);
      OpenBefore(t, AddMethod(t, entries, item, name).0, {name}, items[i].md.value.desc, items[i].name);
    }
  }

  lemma {:induction false} OpenBefore(t: Trie, u: Trie, names: set<string>, desc: Desc, name: string)
    requires Enlarged(t, u, names) && Open(u, desc, name)
    ensures Open(t, desc, name)
  {
    hide Looks, Walk, Segments, Flat, Slots;
  }

  lemma {:induction false} FilesOpen(t: Trie, entries: seq<Selectors.Entry>, files: seq<Option<seq<Item>>>, i: nat,
                                     j: nat)
    requires Sound(t) && AddFiles(t, entries, files).1.Done? && i < |files|
    requires files[i].Some? ==> j < |files[i].value|
    ensures files[i].Some? && files[i].value[j].md.Some?
    ensures Open(t, files[i].value[j].md.value.desc, files[i].value[j].name)
    decreases |files|
  {
    hide AddItems, Sound, Open, Enlarged, ItemNames;
    if i == 0 {
      ItemsOpen(t, entries, files[0].value, j);
    } else {
      ItemsEnlarge(t, entries, files[0].value);
      var u := AddItems(t, entries, files[0].value).0;
      FilesOpen(u, entries, files[1..], i - 1, j);
      OpenBefore(t, u, ItemNames(files[0].value), files[i].value[j].md.value.desc, files[i].value[j].name);
    }
  }

  /** A method of the files has its wildcard method at a node without specific methods at it or
      below it. So it is with a method that has no rule on its own path. */
  ghost predicate Held(t: Trie, files: seq<Option<seq<Item>>>) {
    exists i, j :: 0 <= i < |files| && files[i].Some? && 0 <= j < |files[i].value| && HeldItem(t, files[i].value[j])
  }

  ghost predicate HeldItem(t: Trie, item: Item) {
    && item.md.Some? && TemplateFits(item.name)
    && var y := Dest(Root, WalkOf(ImplicitRule(item.name), item.md.value.desc).steps);
    && OnlyStars(t, y) && Bound(t, y, "*").Some?
  }

  /** Such a method cannot be registered again, also not after handlers were removed. */
  lemma {:induction false} HeldFails(t: Trie, u: Trie, names: seq<string>, entries: seq<Selectors.Entry>,
                                     files: seq<Option<seq<Item>>>)
    requires Sound(t) && DeletedAll(t, u, names) && Held(t, files)
    ensures Sound(u) && !AddFiles(u, entries, files).1.Done?
  {
    hide Sound, AddFiles, OnlyStars, DeletedAll, Walk, Looks, Segments, Slots, Flat;
    DeletedSound(t, u, names);
    var i, j :| 0 <= i < |files| && files[i].Some? && 0 <= j < |files[i].value| && HeldItem(t, files[i].value[j]);
    var item := files[i].value[j];
    AllStarsStay(t, u, names, Dest(Root, WalkOf(ImplicitRule(item.name), item.md.value.desc).steps));
    if AddFiles(u, entries, files).1.Done? {
      FilesOpen(u, entries, files, i, j);
    }
  }

  /** The handlers without those of a connection. */
  ghost predicate Detached(before: Handlers, hs: Handlers, gone: seq<Handler>) {
    && (forall n, h :: h in HandlersOf(hs, n) ==> h in HandlersOf(before, n))
    && (forall n, h :: h in HandlersOf(before, n) ==> (h in HandlersOf(hs, n) <==> !(h in gone && h.name == n)))
  }

  lemma {:induction false} DetachedMore(before: Handlers, hs: Handlers, gone: seq<Handler>, h: Handler)
    requires Detached(before, hs, gone)
    ensures Detached(before, Detach(hs, h), gone + [h])
  {
    MinusHas(HandlersOf(hs, h.name), h);
    var hs' := Detach(hs, h);
    assert HandlersOf(hs', h.name) == Minus(HandlersOf(hs, h.name), h);
    assert forall n :: n != h.name ==> HandlersOf(hs', n) == HandlersOf(hs, n);
  }

  lemma {:induction false} ReducedTrans(t: Trie, u: Trie, w: Trie, names: set<string>, name: string)
    requires Reduced(t, u, names) && Reduced(u, w, {name})
    ensures Reduced(t, w, names + {name})
  {
  }

  /** One handler of a connection goes; with the last handler of a method goes a binding. */
  method RemoveOne(ghost s: Shape, st: State, hd: Handler) returns (ghost s': Shape)
    requires Standing(s, st.path)
    modifies st`handlers, s.Values
    ensures Within(s', s) && Standing(s', st.path)
    ensures st.handlers == Detach(old(st.handlers), hd)
    ensures Reduced(old(Content(s)), Content(s'), {hd.name})
    ensures
      if Minus(HandlersOf(old(st.handlers), hd.name), hd) == [] then DeletedOne(old(Content(s)), Content(s'), hd.name)
            else Content(s') == old(Content(s))
  {
    hide Standing, Content, Reduced, Minus, DeletedOne;
    Unreduced(Content(s), {hd.name});
    s' := s;
    var hds := DropOne(HandlersOf(st.handlers, hd.name), hd);
    if hds == [] {
      st.handlers := st.handlers - {hd.name};
      s' := DeleteNamed(s', st.path, hd.name);
    } else {
      st.handlers := st.handlers[hd.name := hds];
    }
  }

  /** `removeHandler`: the handlers of a connection go one by one; each method that loses its
      last handler loses one specific binding. */
  method RemoveHandler(ghost s: Shape, st: State, cc: nat) returns (ok: bool, ghost s': Shape)
    requires Standing(s, st.path)
    modifies st, s.Values
    ensures ok <==> cc in old(st.conns)
    ensures Within(s', s) && Standing(s', st.path)
    ensures ok ==>
      var gone := old(st.conns)[cc].handlers;
      && st.conns == old(st.conns) - {cc}
      && st.handlers == DetachAll(old(st.handlers), gone) && Detached(old(st.handlers), st.handlers, gone)
      && Reduced(old(Content(s)), Content(s'), NamesOf(gone))
      && DeletedAll(old(Content(s)), Content(s'), Emptied(old(st.handlers), gone))
    ensures !ok ==>
      st.conns == old(st.conns) && st.handlers == old(st.handlers) && s' == s && Content(s) == old(Content(s))
  {
    hide Standing, Content, Reduced, Detached, Minus, DeletedAll, DeletedOne, NamesOf, HandlersOf, Emptied, Detach,
      DetachAll;
    s', ok := s, cc in st.conns;
    if !ok {
      return;
    }
    ghost var t, hs := Content(s), st.handlers;
    var gone := st.conns[cc].handlers;
    NoneGone(t, hs);
    var k := 0;
    while k < |gone|
      invariant k <= |gone| && st.conns == old(st.conns)
      invariant Within(s', s) && Standing(s', st.path)
      invariant st.handlers == DetachAll(hs, gone[..k])
      invariant Detached(hs, st.handlers, gone[..k]) && Reduced(t, Content(s'), NamesOf(gone[..k]))
      invariant DeletedAll(t, Content(s'), Emptied(hs, gone[..k]))
    {
      var hd := gone[k];
      RemovedNext(hs, gone, k);
      DetachedMore(hs, st.handlers, gone[..k], hd);
      ghost var u, empty := Content(s'), Minus(HandlersOf(st.handlers, hd.name), hd) == [];
      s' := RemoveOne(s', st, hd);
      ReducedTrans(t, u, Content(s'), NamesOf(gone[..k]), hd.name);
      if empty {
        DeletedMore(t, u, Content(s'), Emptied(hs, gone[..k]), hd.name);
      } else {
        assert Emptied(hs, gone[..k]) + [] == Emptied(hs, gone[..k]);
      }
      k := k + 1;
    }
    assert gone[..k] == gone;
    st.conns := st.conns - {cc};
  }

  lemma {:induction false} NoneGone(t: Trie, hs: Handlers)
    ensures Reduced(t, t, NamesOf([])) && Detached(hs, hs, [])
    ensures DetachAll(hs, []) == hs && DeletedAll(t, t, Emptied(hs, []))
  {
    Unreduced(t, NamesOf([]));
    DetachedNone(hs);
    DeletedNone(t);
  }

  lemma {:induction false} RemovedNext(hs: Handlers, gone: seq<Handler>, k: nat)
    requires k < |gone|
    ensures gone[..k + 1] == gone[..k] + [gone[k]]
    ensures NamesOf(gone[..k + 1]) == NamesOf(gone[..k]) + {gone[k].name}
    ensures DetachAll(hs, gone[..k + 1]) == Detach(DetachAll(hs, gone[..k]), gone[k])
    ensures Emptied(hs, gone[..k + 1]) ==
      Emptied(hs, gone[..k]) +
      if Minus(HandlersOf(DetachAll(hs, gone[..k]), gone[k].name), gone[k]) == [] then [gone[k].name] else []
  {
    assert gone[..k + 1][..k] == gone[..k];
  }

  lemma {:induction false} DetachedNone(hs: Handlers)
    ensures Detached(hs, hs, [])
  {
  }

  /* ---- Serving ---- */

  /** Some node answers some verb with `m`. */
  ghost predicate IsBoundTo(t: Trie, m: Method) {
    exists x, v :: Bound(t, x, v) == Some(m)
  }

  /** What a search finds is bound. */
  lemma {:induction false} SearchBound(t: Trie, a: Addr, toks: seq<Tokens.Token>, verb: string, parse: Parser)
    requires Sound(t) && a in t && Matching.Search(t, a, toks, verb, parse).Found?
    ensures IsBoundTo(t, Matching.Search(t, a, toks, verb, parse).m)
    decreases |toks|, 1, 0
  {
    if |toks| <= 1 {
      SearchLeaf(t, a, toks, verb, parse);
      var v := if verb in t[a].methods then verb else "*";
      assert Bound(t, a, v) == MethodAt(t[a], verb);
    } else {
      SearchSplit(t, a, toks, verb, parse);
      var child := At(a, Lit(toks[0].val + toks[1].val));
      if child in t && !Matching.Search(t, child, toks[2..], verb, parse).Missing? {
        SearchBound(t, child, toks[2..], verb, parse);
      } else {
        SearchVarsBound(t, a, toks, verb, parse, 0);
      }
    }
  }

  lemma {:induction false} SearchVarsBound(t: Trie, a: Addr, toks: seq<Tokens.Token>, verb: string, parse: Parser,
                                           i: nat)
    requires Sound(t) && a in t && i <= |t[a].vars| && |toks| > 1
    requires SearchVars(t, a, toks, verb, parse, i).Found?
    ensures IsBoundTo(t, SearchVars(t, a, toks, verb, parse, i).m)
    decreases |toks|, 0, |t[a].vars| - i
  {
    hide Matching.Search, SearchVars, Wf, NoStar, IndexFrom, IsBoundTo;
    if i == |t[a].vars| {
      SearchVarsEnd(t, a, toks, verb, parse);
    } else {
      SearchVarsAt(t, a, toks, verb, parse, i);
      var n := IndexFrom(t[a].vars[i].toks, toks[1..], 0);
      if n.Take? && Matching.Search(t, At(a, Var(t[a].vars[i].name)), toks[n.n + 1..], verb, parse).Found? {
        SearchBound(t, At(a, Var(t[a].vars[i].name)), toks[n.n + 1..], verb, parse);
      } else {
        SearchVarsBound(t, a, toks, verb, parse, i + 1);
      }
    }
  }

  /** A match on a snapshot whose bound methods are served can be handled. */
  lemma {:induction false} MatchServed(t: Trie, hs: Handlers, route: string, verb: string, parse: Parser)
    requires Sound(t) && Served(t, hs)
    ensures MatchIn(t, route, verb, parse).Found? ==> HandlersOf(hs, MatchIn(t, route, verb, parse).m.name) != []
  {
    if MatchIn(t, route, verb, parse).Found? {
      var toks := Route.RouteTokens(Route.ParseRoute(route).value);
      SearchBound(t, Root, toks, verb, parse);
      var x, v :| Bound(t, x, v) == Some(MatchIn(t, route, verb, parse).m);
    }
  }

  /** `pickMethodHandler`; `pick` is the random number. */
  method PickMethodHandler(st: State?, name: string, pick: nat) returns (h: Option<Handler>)
    ensures h.Some? <==> st != null && HandlersOf(st.handlers, name) != []
    ensures h.Some? ==> h.value in HandlersOf(st.handlers, name)
  {
    if st != null {
      var hds := HandlersOf(st.handlers, name);
      if |hds| > 0 {
        return Some(hds[pick % |hds|]);
      }
    }
    h := None;
  }

  /* ---- The multiplexer ---- */

  /** What the reflection exchange with a connection gives: a hash of its descriptors and the
      methods of each file, or None for a file that cannot be read. `closes` says whether the
      stream is closed without an error. */
  datatype Exchange = Exchange(hash: string, files: seq<Option<seq<Item>>>, closes: bool)

  /** A connection was added with a handler for each of its methods. */
  ghost predicate Joined(before: map<nat, ConnList>, had: Handlers, conns: map<nat, ConnList>, hs: Handlers, cc: nat,
                         x: Exchange) {
    && cc in conns && conns == before[cc := conns[cc]] && conns[cc].hash == x.hash
    && NamesOf(conns[cc].handlers) == FileNames(x.files)
    && Attached(had, hs, conns[cc].handlers)
  }

  /** A known connection came with other descriptors: in `u` the bindings of the methods that
      lost their last handler are deleted, and the methods of the files are added to it. */
  ghost predicate Rejoins(t: Trie, u: Trie, w: Trie, entries: seq<Selectors.Entry>, before: map<nat, ConnList>,
                          had: Handlers, conns: map<nat, ConnList>, hs: Handlers, cc: nat, x: Exchange,
                          o: Registration) {
    && cc in before && Sound(u)
    && var gone := before[cc].handlers;
    && DeletedAll(t, u, Emptied(had, gone))
    && (w, o) == AddFiles(u, entries, x.files)
    && (o.Done? ==> Joined(before - {cc}, DetachAll(had, gone), conns, hs, cc, x))
  }

  /** A changed connection was published: every bound method has a handler, which `valid` says,
      if and only if no binding is orphaned. */
  ghost predicate Reconnected(t: Trie, w: Trie, entries: seq<Selectors.Entry>, before: map<nat, ConnList>,
                              had: Handlers, conns: map<nat, ConnList>, hs: Handlers, cc: nat, x: Exchange,
                              valid: bool) {
    && cc in before
    && exists u ::
         && Rejoins(t, u, w, entries, before, had, conns, hs, cc, x, Done)
         && FilesRegistered(u, w, entries, x.files)
         && (valid <==> !Orphaned(u, Emptied(had, before[cc].handlers), FileNames(x.files)))
  }

  lemma {:induction false} RejoinValid(t: Trie, w: Trie, entries: seq<Selectors.Entry>, before: map<nat, ConnList>,
                                       had: Handlers, conns: map<nat, ConnList>, hs: Handlers, cc: nat, x: Exchange)
    requires Sound(t) && PlainTrie(t) && Served(t, had)
    requires exists u :: Rejoins(t, u, w, entries, before, had, conns, hs, cc, x, Done)
    ensures PlainTrie(w) && Reconnected(t, w, entries, before, had, conns, hs, cc, x, Served(w, hs))
    ensures Deserted(t, Emptied(had, before[cc].handlers), FileNames(x.files)) ==> !Served(w, hs)
  {
    var u :| Rejoins(t, u, w, entries, before, had, conns, hs, cc, x, Done);
    RejoinParts(t, u, w, entries, before, had, conns, hs, cc, x);
    assert AddFiles(u, entries, x.files) == (w, Done);
    hide AddFiles, FilesRegistered, Sound, PlainTrie, Served, Rejoins, DeletedAll, Orphaned, Emptied, FileNames,
      Deserted,
      DetachAll, Attached, NamesOf, Enlarged;
    var gone, names := before[cc].handlers, FileNames(x.files);
    RejoinServed(t, u, w, names, had, gone, hs, conns[cc].handlers);
    FilesCarry(u, entries, x.files);
    DeletedAllPlain(t, u, Emptied(had, gone));
    EnlargedPlain(u, w, names);
    if Deserted(t, Emptied(had, gone), names) {
      DesertedOrphans(t, u, Emptied(had, gone), names);
    }
  }

  lemma {:induction false} EnlargedPlain(u: Trie, w: Trie, names: set<string>)
    requires PlainTrie(u) && Enlarged(u, w, names)
    ensures PlainTrie(w)
  {
  }

  lemma {:induction false} RejoinParts(t: Trie, u: Trie, w: Trie, entries: seq<Selectors.Entry>,
                                       before: map<nat, ConnList>, had: Handlers, conns: map<nat, ConnList>,
                                       hs: Handlers, cc: nat, x: Exchange)
    requires Rejoins(t, u, w, entries, before, had, conns, hs, cc, x, Done)
    ensures cc in before && cc in conns
    ensures var gone, names := before[cc].handlers, FileNames(x.files);
      && Sound(u) && DeletedAll(t, u, Emptied(had, gone)) && Enlarged(u, w, names)
      && Attached(DetachAll(had, gone), hs, conns[cc].handlers) && NamesOf(conns[cc].handlers) == names
  {
    hide Sound, DeletedAll, Emptied, FileNames, DetachAll, Attached, NamesOf, Enlarged, AddFiles;
    FilesEnlarge(u, entries, x.files);
  }

  lemma {:induction false} RejoinFails(t: Trie, w: Trie, entries: seq<Selectors.Entry>, before: map<nat, ConnList>,
                                       had: Handlers, conns: map<nat, ConnList>, hs: Handlers, cc: nat, x: Exchange,
                                       o: Registration)
    requires Sound(t) && exists u :: Rejoins(t, u, w, entries, before, had, conns, hs, cc, x, o)
    ensures Held(t, x.files) ==> !o.Done?
  {
    hide Sound, DeletedAll, AddFiles, Joined, Held, Emptied;
    var u :| Rejoins(t, u, w, entries, before, had, conns, hs, cc, x, o);
    if Held(t, x.files) {
      HeldFails(t, u, Emptied(had, before[cc].handlers), entries, x.files);
    }
  }

  class Mux {
    const config: Config
    var state: State?
    ghost var shape: Shape

    /** Every bound method of the published state has a handler. */
    ghost predicate Valid()
      reads this, state, shape.Values, config.nodes.Values
    {
      config.Valid() &&
      (state != null ==>
        Standing(shape, state.path) && PlainTrie(Content(shape)) && Served(Content(shape), state.handlers))
    }

    ghost function Published(): Trie
      reads this, state, shape.Values
    {
      if state == null then map[Root := EMPTY] else Content(shape)
    }

    function Conns(): map<nat, ConnList>
      reads this, state
    {
      if state == null then map[] else state.conns
    }

    function Handling(): Handlers
      reads this, state
    {
      if state == null then map[] else state.handlers
    }

    constructor (config: Config)
      requires config.Valid()
      ensures Valid() && state == null && this.config == config
    {
      this.config, state, shape := config, null, map[];
    }

    lemma {:induction false} PublishedSound()
      requires Valid()
      ensures config.Valid() && Sound(Published()) && PlainTrie(Published()) && Served(Published(), Handling())
    {
      if state == null {
        var path: Trie := map[Root := EMPTY];
        EmptySound();
      }
    }

    /** The clone that a registration works on. */
    method Load() returns (st: State, ghost s: Shape)
      requires Valid()
      ensures fresh(st) && New(s) && Standing(s, st.path) && Content(s) == Published()
      ensures st.conns == Conns() && st.handlers == Handling()
    {
      hide Standing, Content, Served, PlainTrie;
      if state == null {
        st, s := EmptyState();
      } else {
        st, s := CloneState(shape, state);
      }
    }

    /** `storeState`, whatever is stored. */
    method Publish(st: State, ghost s: Shape)
      modifies this`state, this`shape
      ensures state == st && shape == s
      ensures Published() == old(Content(s))
      ensures Conns() == old(st.conns) && Handling() == old(st.handlers)
    {
      hide Content;
      state, shape := st, s;
    }

    lemma {:induction false} ValidIff()
      requires config.Valid() && state != null && Standing(shape, state.path) && PlainTrie(Content(shape))
      ensures Valid() <==> Served(Published(), Handling())
    {
      hide Standing, Content, Served, PlainTrie, Config.Valid;
    }

    /** `storeState` of a state whose bound methods are served. */
    method Store(st: State, ghost s: Shape)
      requires config.Valid() && Standing(s, st.path) && PlainTrie(Content(s)) && Served(Content(s), st.handlers)
      modifies this`state, this`shape
      ensures Valid() && state == st && shape == s
      ensures Published() == old(Content(s))
      ensures Conns() == old(st.conns) && Handling() == old(st.handlers)
    {
      hide Standing, Content, Served, PlainTrie, Config.Valid;
      state, shape := st, s;
    }

    /** `registerService`, with what the registry knows of the service. On any error or panic
        the published state is the old one; otherwise it is the old one with all methods of the
        service and one handler more for each. */
    method RegisterService(service: string, methods: seq<string>, streams: seq<string>,
                           mds: Option<map<string, MethodDesc>>)
      returns (o: Registration)
      requires Valid()
      modifies this`state, this`shape
      ensures Valid() && Sound(old(Published()))
      ensures mds.None? ==> o == Failed
      ensures mds.Some? ==>
        o == AddItems(old(Published()), config.entries, Items(service, methods + streams, mds.value)).1
      ensures !o.Done? ==> state == old(state) && shape == old(shape)
      ensures o.Done? ==>
        && fresh(state) && Conns() == old(Conns())
        && Published() == AddItems(old(Published()), config.entries, Items(service, methods + streams, mds.value)).0
        && Enlarged(old(Published()), Published(), FullNames(service, methods + streams))
        && Carries(old(Published()), Published(), config.entries, Items(service, methods + streams, mds.value))
        && (forall n :: n in methods + streams ==>
              n in mds.value && Registered(Published(), config.entries, mds.value[n], "/" + service + "/" + n))
        && exists added ::
             Handle(added, Items(service, methods + streams, mds.value)) && Attached(old(Handling()), Handling(), added)
    {
      hide Standing, Content, Served, Enlarged, Attached, Handle, Sound, PlainTrie, AddItems, Config.Valid, Valid,
        Published, Items, FullNames, Conns, Handling, Carries, Registered;
      PublishedSound();
      if mds.None? {
        return Failed;
      }
      var st, added;
      ghost var s;
      o, st, added, s := WithService(Items(service, methods + streams, mds.value));
      ItemsFull(service, methods + streams, mds.value);
      if o.Done? {
        ItemsCarry(Published(), config.entries, Items(service, methods + streams, mds.value));
        NamesRegistered(Published(), Content(s), config.entries, service, methods + streams, mds.value);
        Store(st, s);
      }
    }

    /** The clone with some methods added. */
    method WithService(items: seq<Item>) returns (o: Registration, st: State, added: seq<Handler>, ghost s: Shape)
      requires Valid() && Sound(Published())
      ensures fresh(st) && config.Valid() && st.conns == old(Conns())
      ensures (Content(s), o) == AddItems(old(Published()), config.entries, items)
      ensures o.Done? ==>
        && Standing(s, st.path) && PlainTrie(Content(s)) && Served(Content(s), st.handlers)
        && Enlarged(old(Published()), Content(s), ItemNames(items))
        && Handle(added, items) && Attached(old(Handling()), st.handlers, added)
    {
      hide Standing, Content, Served, Enlarged, Attached, PlainTrie, Sound, AddItems, Config.Valid, Valid, Published,
        Conns, Handling, ItemNames, Handle;
      PublishedSound();
      ItemsEnlarge(Published(), config.entries, items);
      ghost var t, before := Published(), Handling();
      st, s := Load();
      o, added, s := AppendAll(s, st, config, items);
      if o.Done? {
        NowServed(t, Content(s), items, before, st.handlers, added);
      }
    }

    /** The connection is known with other descriptors. */
    predicate Changed(cc: nat, x: Exchange)
      reads this, state
    {
      cc in Conns() && Conns()[cc].hash != x.hash
    }

    /** The end of `addConnHandler`. */
    method AddConn(ghost s: Shape, st: State, cc: nat, x: Exchange) returns (o: Registration, ghost s': Shape)
      requires Standing(s, st.path) && config.Valid()
      modifies st, s.Values
      ensures Standing(s', st.path)
      ensures (Content(s'), o) == AddFiles(old(Content(s)), config.entries, x.files)
      ensures o.Done? ==> Joined(old(st.conns), old(st.handlers), st.conns, st.handlers, cc, x)
      ensures o.Done? ==> cc in st.conns && st.conns[cc].hash == x.hash
    {
      hide Standing, Content, Sound, Attached, Config.Valid, Valid, Published, NamesOf, FileNames, AddFiles;
      StandingSound(s, st.path);
      var added;
      o, added, s' := AppendFiles(s, st, config, x.files);
      if o.Done? {
        st.conns := st.conns[cc := ConnList(added, x.hash)];
      }
    }

    /** `addConnHandler` on a clone. */
    method WithConn(cc: nat, x: Exchange) returns (o: Registration, st: State, ghost s: Shape)
      requires Valid() && Sound(Published())
      ensures fresh(st)
      ensures o.Done? ==> Standing(s, st.path) && cc in st.conns && st.conns[cc].hash == x.hash
      ensures old(cc in Conns() && !Changed(cc, x)) ==>
        o.Done? && st.conns == old(Conns()) && st.handlers == old(Handling()) && Content(s) == old(Published())
      ensures cc !in old(Conns()) ==>
        && (Content(s), o) == AddFiles(old(Published()), config.entries, x.files)
        && (o.Done? ==> Joined(old(Conns()), old(Handling()), st.conns, st.handlers, cc, x))
      ensures old(Changed(cc, x)) ==>
        exists u ::
          Rejoins(old(Published()), u, Content(s), config.entries, old(Conns()), old(Handling()),
                  st.conns, st.handlers, cc, x, o)
    {
      hide Standing, Content, Sound, Served, PlainTrie, Config.Valid, Valid, Detached, Reduced, Published, Conns,
        Handling, Joined, AddFiles;
      PublishedSound();
      st, s := Load();
      if cc in st.conns {
        if st.conns[cc].hash == x.hash {
          return Done, st, s;
        }
        var removed;
        ghost var t := Content(s);
        removed, s := RemoveHandler(s, st, cc);
        ghost var u := Content(s);
        StandingSound(s, st.path);
        o, s := AddConn(s, st, cc, x);
        assert Rejoins(old(Published()), u, Content(s), config.entries, old(Conns()), old(Handling()),
                       st.conns, st.handlers, cc, x, o);
        return;
      }
      o, s := AddConn(s, st, cc, x);
    }

    /** `RegisterConn`, with what the reflection exchange gave. Nothing is published before all
        methods of a connection are; what is published keeps everything that was. Only a
        connection that comes back with other descriptors is left out of that. */
    method RegisterConn(cc: nat, x: Option<Exchange>) returns (o: Registration, published: bool)
      requires Valid()
      modifies this`state, this`shape
      ensures Sound(old(Published()))
      ensures !published ==> state == old(state) && shape == old(shape) && !o.Done?
      ensures x.None? ==> o == Failed
      ensures x.Some? && cc !in old(Conns()) && !published ==>
        o == AddFiles(old(Published()), config.entries, x.value.files).1
      ensures published ==> x.Some? && fresh(state) && o == if x.value.closes then Done else Failed
      ensures x.Some? && !old(Changed(cc, x.value)) ==>
        && Valid()
        && (published <==> cc in old(Conns()) || AddFiles(old(Published()), config.entries, x.value.files).1.Done?)
      ensures published ==> cc in Conns() && Conns()[cc].hash == x.value.hash
      ensures published && cc in old(Conns()) && old(Conns())[cc].hash == x.value.hash ==>
        Conns() == old(Conns()) && Handling() == old(Handling()) && Published() == old(Published())
      ensures published && cc !in old(Conns()) ==>
        && Published() == AddFiles(old(Published()), config.entries, x.value.files).0
        && Enlarged(old(Published()), Published(), FileNames(x.value.files))
        && FilesRegistered(old(Published()), Published(), config.entries, x.value.files)
        && Joined(old(Conns()), old(Handling()), Conns(), Handling(), cc, x.value)
      ensures published && old(Changed(cc, x.value)) ==>
        && Reconnected(old(Published()), Published(), config.entries, old(Conns()), old(Handling()),
                       Conns(), Handling(), cc, x.value, Valid())
        && var emptied := Emptied(old(Handling()), old(Conns())[cc].handlers);
        Deserted(old(Published()), emptied, FileNames(x.value.files)) ==> !Valid()
      ensures x.Some? && old(Changed(cc, x.value)) && Held(old(Published()), x.value.files) ==> !published
    {
      hide Standing, Content, Served, Enlarged, Attached, PlainTrie, Sound, Config.Valid, Valid, Published, NamesOf,
        FileNames, AddFiles, Handling, Conns, Rejoins, Held, Reconnected, Deserted, Emptied, FilesRegistered;
      PublishedSound();
      published := false;
      if x.None? {
        return Failed, false;
      }
      FilesEnlarge(Published(), config.entries, x.value.files);
      if AddFiles(Published(), config.entries, x.value.files).1.Done? {
        FilesCarry(Published(), config.entries, x.value.files);
      }
      var st;
      ghost var s, t, before := map[], Published(), Handling();
      var changed := Changed(cc, x.value);
      o, st, s := WithConn(cc, x.value);
      if changed {
        RejoinFails(t, Content(s), config.entries, Conns(), before, st.conns, st.handlers, cc, x.value, o);
      }
      if o.Done? {
        published := true;
        if changed {
          RejoinValid(t, Content(s), config.entries, Conns(), before, st.conns, st.handlers, cc, x.value);
          Publish(st, s);
          ValidIff();
        } else {
          if cc !in Conns() {
            FilesServed(t, Content(s), FileNames(x.value.files), before, st.handlers, st.conns[cc].handlers);
          }
          Store(st, s);
        }
        if !x.value.closes {
          o := Failed;
        }
      }
    }

    /** `DropConn`: the handlers are removed from a clone, which is not stored. So the
        connection stays registered and every binding stays served. */
    method DropConn(cc: nat) returns (ok: bool)
      requires Valid()
      ensures Valid() && (ok <==> cc in Conns())
    {
      hide Standing, Content, Served, Detached, Reduced, Config.Valid, Valid, Published;
      var st;
      ghost var s;
      st, s := Load();
      ok, s := RemoveHandler(s, st, cc);
    }

    /** What a request does: a match and the choice of a handler on the same snapshot. A
        successful match always finds one. */
    method Serve(route: string, verb: string, parse: Parser, pick: nat) returns (r: Result, h: Option<Handler>)
      requires Valid()
      ensures state != null ==> Wf(Published()) && r == MatchIn(Published(), route, verb, parse)
      ensures state == null ==> r == Missing(ErrNotFound)
      ensures r.Found? <==> h.Some?
      ensures r.Found? ==> h.value in HandlersOf(Handling(), r.m.name)
    {
      hide Standing, Content, Served, Sound, PlainTrie, MatchIn, Config.Valid, Valid, Published, Handling;
      h := None;
      if state == null {
        return Missing(ErrNotFound), None;
      }
      PublishedSound();
      Snapshot();
      MatchServed(Published(), Handling(), route, verb, parse);
      r := MatchState(shape, state, route, verb, parse);
      if r.Found? {
        h := PickMethodHandler(state, r.m.name, pick);
      }
    }

    /** What is published stands on the objects of the state. */
    lemma {:induction false} Snapshot()
      requires Valid() && state != null
      ensures Standing(shape, state.path) && Content(shape) == Published()
      ensures state.handlers == Handling() && Wf(Published())
    {
      hide Content, Tree, Sound, PlainTrie, Served, Config.Valid;
      SoundParts(Content(shape));
    }
  }

  /** `state.match` on a state that is not nil. */
  method MatchState(ghost s: Shape, st: State, route: string, verb: string, parse: Parser) returns (r: Result)
    requires Standing(s, st.path)
    ensures Wf(Content(s)) && r == MatchIn(Content(s), route, verb, parse)
  {
    hide Tree, Content, Sound, MatchIn;
    SoundParts(Content(s));
    r := Match(s, st.path, route, verb, parse);
  }

  lemma {:induction false} EmptySound()
    ensures Sound(map[Root := EMPTY]) && PlainTrie(map[Root := EMPTY]) && Served(map[Root := EMPTY], map[])
  {
    var t: Trie := map[Root := EMPTY];
    forall x | x in t ensures GoodVars(t, x) && Aligned(t, x) {
    }
  }

  lemma {:induction false} FilesServed(t: Trie, u: Trie, names: set<string>, before: Handlers, hs: Handlers,
                                       added: seq<Handler>)
    requires PlainTrie(t) && Enlarged(t, u, names) && Served(t, before)
    requires Attached(before, hs, added) && NamesOf(added) == names
    ensures PlainTrie(u) && Served(u, hs)
  {
    forall n | n in names ensures HandlersOf(hs, n) != [] {
      var h :| h in added && h.name == n;
      assert h in HandlersOf(hs, h.name);
    }
    StillServed(t, u, names, before, hs);
  }

  lemma {:induction false} NowServed(t: Trie, u: Trie, items: seq<Item>, before: Handlers, hs: Handlers,
                                     added: seq<Handler>)
    requires PlainTrie(t) && Enlarged(t, u, ItemNames(items)) && Served(t, before)
    requires Attached(before, hs, added) && Handle(added, items)
    ensures PlainTrie(u) && Served(u, hs)
  {
    HandleNames(added, items);
    FilesServed(t, u, ItemNames(items), before, hs, added);
  }

  function FullName(service: string, name: string): string {
    "/" + service + "/" + name
  }

  function FullNames(service: string, names: seq<string>): set<string> {
    set i | 0 <= i < |names| :: FullName(service, names[i])
  }

  /** The methods of a service with their descriptors, if they have one. */
  function Items(service: string, names: seq<string>, mds: map<string, MethodDesc>): (items: seq<Item>)
    ensures |items| == |names|
    ensures forall i :: 0 <= i < |items| ==>
      && items[i].name == FullName(service, names[i])
      && (items[i].md.Some? <==> names[i] in mds) && (names[i] in mds ==> items[i].md.value == mds[names[i]])
  {
    seq(|names|, i requires 0 <= i < |names| =>
      Item(FullName(service, names[i]), if names[i] in mds then Some(mds[names[i]]) else None))
  }

  /** The methods of a service by name. */
  lemma {:induction false} NamesRegistered(t: Trie, u: Trie, entries: seq<Selectors.Entry>, service: string,
                                           names: seq<string>, mds: map<string, MethodDesc>)
    requires Sound(t) && Carries(t, u, entries, Items(service, names, mds))
    ensures forall n :: n in names ==> n in mds && Registered(u, entries, mds[n], "/" + service + "/" + n)
  {
    hide Registered, Augmented, Granted, RulesOfAll;
    var items := Items(service, names, mds);
    forall n | n in names ensures n in mds && Registered(u, entries, mds[n], "/" + service + "/" + n) {
      var i :| 0 <= i < |names| && names[i] == n;
      assert items[i].md.Some? && Registered(u, entries, items[i].md.value, items[i].name);
    }
  }

  lemma {:induction false} ItemsFull(service: string, names: seq<string>, mds: map<string, MethodDesc>)
    ensures ItemNames(Items(service, names, mds)) == FullNames(service, names)
  {
    var items := Items(service, names, mds);
    forall n ensures n in ItemNames(items) <==> n in FullNames(service, names) {
      if n in FullNames(service, names) {
        var i :| 0 <= i < |names| && n == FullName(service, names[i]);
        assert items[i] in items;
      }
    }
  }
}
