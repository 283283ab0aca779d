/** The mutable selector trie: `setRules` builds it node by node, `getRules` walks it. */
module SelectorTree {
  import opened Options
  import opened Rules
  import opened Selectors

  /** The nodes of a trie by the components that lead to them. */
  type Nodes = map<seq<string>, RuleSelector>

  ghost predicate Linked(s: Nodes, x: seq<string>, path: map<string, RuleSelector>) {
    && (forall c {:trigger c in path} {:trigger x + [c]} :: c in path <==> x + [c] in s)
    && (forall c {:trigger path[c]} :: c in path ==> s[x + [c]] == path[c])
  }

  ghost predicate Tree(s: Nodes)
    reads s.Values
  {
    && [] in s
    && (forall x :: x in s ==> s[x].at == x)
    && (forall x: seq<string>, c: string {:trigger x + [c]} :: x + [c] in s ==> x in s)
    && (forall x {:trigger Linked(s, x, s[x].path)} :: x in s ==> Linked(s, x, s[x].path))
  }

  ghost function Content(s: Nodes): (t: Table)
    reads s.Values
    ensures t.Keys == s.Keys
  {
    map x | x in s :: s[x].rules
  }

  twostate predicate Grew(s: Nodes, new s': Nodes) {
    && s.Keys <= s'.Keys
    && (forall x :: x in s ==> s'[x] == s[x])
    && (forall x :: x in s' && x !in s ==> fresh(s'[x]))
  }

  class RuleSelector {
    var path: map<string, RuleSelector>
    var rules: seq<HttpRule>
    ghost const at: seq<string>

    constructor (ghost at: seq<string>)
      ensures path == map[] && rules == [] && this.at == at
    {
      path, rules, this.at := map[], [], at;
    }

    ghost predicate In(s: Nodes) {
      at in s && s[at] == this
    }

    /** The child for a component, which is created if it is missing. */
    method Child(ghost s: Nodes, tag: string) returns (next: RuleSelector, ghost s': Nodes)
      requires Tree(s) && In(s)
      modifies this
      ensures Grew(s, s') && Tree(s') && next.In(s') && next.at == at + [tag]
      ensures Content(s') == WithNode(old(Content(s)), at + [tag])
    {
      assert Linked(s, at, path);
      if tag in path {
        next, s' := path[tag], s;
      } else {
        next, s' := AddChild(s, tag);
      }
    }

    method AddChild(ghost s: Nodes, tag: string) returns (next: RuleSelector, ghost s': Nodes)
      requires Tree(s) && In(s) && at + [tag] !in s
      modifies this
      ensures fresh(next) && next.at == at + [tag] && s' == s[at + [tag] := next] && Tree(s')
      ensures Content(s') == WithNode(old(Content(s)), at + [tag])
    {
      ghost var x := at + [tag];
      assert Linked(s, at, path);
      ghost var was, t := path, Content(s);
      next := new RuleSelector(x);
      path := path[tag := next];
      s' := s[x := next];
      Snoc(at, tag);
      assert s'[at] == this;
      forall y | y in s' ensures Linked(s', y, s'[y].path) {
        Snoc(y, "");
        if y == x {
          NoneBelow(s, at, tag);
        } else if y == at {
          LinkedMore(s, at, was, tag, next);
        } else {
          assert Linked(s, y, s[y].path);
          OtherSnoc(y, at, tag);
        }
      }
      assert Content(s') == t[x := []];
    }
  }

  /* ---- Setting ---- */

  method Append(ghost s: Nodes, r: RuleSelector, rule: HttpRule)
    requires Tree(s) && r.In(s)
    modifies r
    ensures Tree(s) && Content(s) == Plant(old(Content(s)), r.at, [], rule)
  {
    ghost var t := Content(s);
    r.rules := r.rules + [rule];
    forall x | x in s ensures Linked(s, x, s[x].path) {
      assert Linked(s, x, old(s[x].path));
    }
    assert Content(s) == t[r.at := t[r.at] + [rule]];
  }

  /** The recursion of `setRules` for one rule; false when it panics. */
  method Set(ghost s: Nodes, r: RuleSelector, rule: HttpRule, selector: string) returns (ok: bool, ghost s': Nodes)
    requires Tree(s) && r.In(s)
    modifies s.Values
    ensures Grew(s, s') && Tree(s')
    ensures ok <==> Place(selector).Some?
    ensures ok ==> Content(s') == Plant(old(Content(s)), r.at, Place(selector).value, rule)
    decreases |selector|
  {
    hide Tree, Content, Plant;
    ghost var t := Content(s);
    var (tag, name) := Cut(selector);
    if tag == "*" && name != "" {
      return false, s;
    }
    if tag == "*" || tag == "" {
      Append(s, r, rule);
      return true, s;
    }
    var rs;
    rs, s' := r.Child(s, tag);
    ok, s' := Set(s', rs, rule, name);
    if ok {
      PutCons(t, r.at, tag, Place(name).value, rule);
    }
  }

  lemma {:induction false} PutCons(t: Table, x: seq<string>, tag: string, parts: seq<string>, rule: HttpRule)
    requires x in t
    ensures Plant(t, x, [tag] + parts, rule) == Plant(WithNode(t, x + [tag]), x + [tag], parts, rule)
  {
    assert ([tag] + parts)[1..] == parts;
  }

  lemma {:induction false} HoldsMore(t: Table, es: seq<Entry>, k: nat)
    requires k < |es| && Holds(t, es[..k]) && Place(es[k].selector).Some?
    ensures [] in t && Holds(Plant(t, [], Place(es[k].selector).value, es[k].rule), es[..k + 1])
  {
    var p := Place(es[k].selector).value;
    PutExact(t, [], p, es[k].rule);
    assert [] + p == p && es[..k + 1] == es[..k] + [es[k]];
    forall x ensures RulesAt(Plant(t, [], p, es[k].rule), x) == PlacedAt(es[..k + 1], x) {
      assert RulesAt(t, x) == PlacedAt(es[..k], x);
      PlacedMore(es[..k], es[k], x);
    }
  }

  lemma {:induction false} HoldsNone(es: seq<Entry>)
    ensures Holds(map[[] := []], es[..0])
  {
    var t: Table := map[[] := []];
    forall x ensures RulesAt(t, x) == PlacedAt(es[..0], x) {
    }
    forall x: seq<string>, c: string {:trigger x + [c]} ensures x + [c] !in t {
      Snoc(x, c);
    }
  }

  /** `setRules`: the trie is reset and holds each rule at its place; false when a selector
      goes on after a `*`, which panics. */
  method SetRules(r: RuleSelector, es: seq<Entry>) returns (ok: bool, ghost s: Nodes)
    requires r.at == []
    modifies r
    ensures ok <==> forall i :: 0 <= i < |es| ==> Place(es[i].selector).Some?
    ensures ok ==> Tree(s) && r.In(s) && Holds(Content(s), es)
  {
    r.path, r.rules := map[], [];
    s := map[[] := r];
    Blank(s, r);
    HoldsNone(es);
    hide Tree, Content, Holds, Plant, Place;
    var k := 0;
    while k < |es|
      invariant k <= |es| && Tree(s) && r.In(s) && Holds(Content(s), es[..k])
      invariant forall x :: x in s ==> s[x] == r || fresh(s[x])
      invariant forall i :: 0 <= i < k ==> Place(es[i].selector).Some?
    {
      if Place(es[k].selector).Some? {
        HoldsMore(Content(s), es, k);
      }
      ok, s := Set(s, r, es[k].rule, es[k].selector);
      if !ok {
        return;
      }
      k := k + 1;
    }
    assert es[..k] == es;
    ok := true;
  }

  lemma {:induction false} Blank(s: Nodes, r: RuleSelector)
    requires s == map[[] := r] && r.at == [] && r.path == map[] && r.rules == []
    ensures Tree(s) && Content(s) == map[[] := []]
  {
    forall x: seq<string>, c: string {:trigger x + [c]} ensures x + [c] !in s {
      Snoc(x, c);
    }
  }

  /* ---- Getting ---- */

  /** `getRules`: the rules on the way down the components of the name. */
  method GetRules(ghost s: Nodes, r: RuleSelector, name: string) returns (rules: seq<HttpRule>)
    requires Tree(s) && r.In(s)
    ensures rules == Collect(Content(s), r.at, Components(name))
    decreases |name|
  {
    rules := r.rules;
    if name == "" {
      assert rules + [] == rules;
      return;
    }
    var (tag, rest) := Cut(name);
    assert Linked(s, r.at, r.path);
    assert Components(name) == [tag] + Components(rest);
    if tag in r.path {
      var more := GetRules(s, r.path[tag], rest);
      rules := rules + more;
    } else {
      assert rules + [] == rules;
    }
  }

  lemma {:induction false} Snoc(x: seq<string>, c: string)
    ensures |x + [c]| == |x| + 1 && (x + [c])[..|x|] == x && (x + [c])[|x|] == c
  {
  }

  lemma {:induction false} OtherSnoc(y: seq<string>, x: seq<string>, c: string)
    requires y != x
    ensures forall d :: y + [d] != x + [c]
  {
    forall d ensures y + [d] != x + [c] {
      Snoc(y, d);
      Snoc(x, c);
    }
  }

  lemma {:induction false} NoneBelow(s: Nodes, x: seq<string>, c: string)
    requires x + [c] !in s
    requires forall y: seq<string>, d: string {:trigger y + [d]} :: y + [d] in s ==> y in s
    ensures forall d :: x + [c] + [d] !in s
  {
  }

  lemma {:induction false} LinkedMore(s: Nodes, x: seq<string>, path: map<string, RuleSelector>, c: string,
                                      n: RuleSelector)
    requires Linked(s, x, path)
    ensures Linked(s[x + [c] := n], x, path[c := n])
  {
    forall d ensures d == c <==> x + [d] == x + [c] {
      Snoc(x, d);
      Snoc(x, c);
    }
  }
}
