/** `path.delRule` and `path.alive` on the mutable tree. */
module PathDelete {
  import opened Options
  import opened Tries
  import opened Rules
  import opened Pruning
  import opened PathTree
  import opened PathSearch
  import opened PathCopy
  import PathRules
  import Matching

  /** `s'` has no objects that `s` does not have. */
  predicate Within(s': Shape, s: Shape) {
    forall x :: x in s' ==> x in s && s'[x] == s[x]
  }

  /** No specific method below `a` has the name. */
  ghost predicate Nameless(t: Trie, a: Addr, name: string) {
    forall x, v :: x in t && Under(a, x) && v in t[x].methods ==> t[x].methods[v].name != name
  }

  /* ---- One child less ---- */

  lemma {:induction false} DropChild(s: Shape, n: Nodes, a: Addr, e: Edge, f: Record)
    requires Good(s, n) && a in s && At(a, e) in s && forall d :: At(At(a, e), d) !in s
    requires forall d :: Next(f, d) == if d == e then None else Next(n[a], d)
    ensures Good(s - {At(a, e)}, n[a := f] - {At(a, e)})
  {
    var child := At(a, e);
    var s', n' := s - {child}, n[a := f] - {child};
    NotSelf(child);
    assert Links(s, a, n[a]);
    forall x | x in s' ensures Links(s', x, n'[x]) {
      assert Links(s, x, n[x]);
    }
    forall x, d {:trigger At(x, d)} | At(x, d) in s' ensures x in s' {
    }
  }

  lemma {:induction false} DropTrie(n: Nodes, a: Addr, e: Edge, f: Record)
    requires a in n && At(a, e) in n
    requires InfoOf(f) ==
      InfoOf(n[a]).(vars := if e.Lit? then Vars(n[a].variables) else Without(Vars(n[a].variables), e.name))
    ensures TrieOf(n[a := f] - {At(a, e)}) == RemoveLeaf(TrieOf(n), At(a, e))
  {
    NotSelf(At(a, e));
  }

  lemma {:induction false} Rewired(s: Shape, n: Nodes, a: Addr, x: Addr)
    requires n.Keys == s.Keys && a in s && x != a && forall y :: y in s && y != a ==> s[y].Fields() == n[y]
    requires Good(s - {x}, n[a := s[a].Fields()] - {x})
    ensures Tree(s - {x}) && Content(s - {x}) == TrieOf(n[a := s[a].Fields()] - {x})
  {
    assert Snapshot(s - {x}) == n[a := s[a].Fields()] - {x};
  }

  lemma {:induction false} LookupWithout(bs: seq<Branch>, i: nat, name: string)
    requires i < |bs| && Sorted(Vars(bs))
    ensures Lookup(bs[..i] + bs[i + 1..], name) == if name == bs[i].name then None else Lookup(bs, name)
    ensures Vars(bs[..i] + bs[i + 1..]) == Without(Vars(bs), bs[i].name)
  {
    SortedDistinct(bs, i);
    hide Sorted, Lookup, Without;
    WithoutAt(Vars(bs), i);
    LookupSkips(bs, i, name);
  }

  lemma {:induction false} SortedDistinct(bs: seq<Branch>, i: nat)
    requires i < |bs| && Sorted(Vars(bs))
    ensures forall j :: 0 <= j < |bs| && j != i ==> bs[j].name != bs[i].name
  {
    forall j | 0 <= j < |bs| && j != i ensures bs[j].name != bs[i].name {
      assert Vars(bs)[j].name == bs[j].name && Vars(bs)[i].name == bs[i].name;
      LessTotal(bs[j].name, bs[i].name);
    }
  }

  lemma {:induction false} LookupSkips(bs: seq<Branch>, i: nat, name: string)
    requires i < |bs| && forall j :: 0 <= j < |bs| && j != i ==> bs[j].name != bs[i].name
    ensures Lookup(bs[..i] + bs[i + 1..], name) == if name == bs[i].name then None else Lookup(bs, name)
  {
    var out := bs[..i] + bs[i + 1..];
    if i == 0 {
      assert out == bs[1..];
      if name == bs[0].name {
        LookupSome(bs[1..], name);
      }
    } else {
      assert out[1..] == bs[1..][..i - 1] + bs[1..][i..];
      LookupSkips(bs[1..], i - 1, name);
    }
  }

  lemma {:induction false} DeadChild(s: Shape, t: Trie, a: Addr)
    requires s.Keys == t.Keys && Wf(t) && a in t && !Alive(t, a)
    ensures forall d :: At(a, d) !in s
  {
    DeadHasNoChild(t, a);
  }

  lemma {:induction false} WithoutKey(f: Record, k: string, g: Record)
    requires g == f.(segments := f.segments - {k})
    ensures forall d :: Next(g, d) == if d == Lit(k) then None else Next(f, d)
  {
  }

  lemma {:induction false} WithoutBranch(f: Record, i: nat, g: Record)
    requires i < |f.variables| && Sorted(Vars(f.variables))
    requires g == f.(variables := f.variables[..i] + f.variables[i + 1..])
    ensures forall d :: Next(g, d) == if d == Var(f.variables[i].name) then None else Next(f, d)
    ensures Vars(g.variables) == Without(Vars(f.variables), f.variables[i].name)
  {
    hide Sorted, Lookup, Vars, Without;
    var bs := f.variables;
    LookupWithout(bs, i, "");
    forall d ensures Next(g, d) == if d == Var(bs[i].name) then None else Next(f, d) {
      if d.Var? {
        LookupWithout(bs, i, d.name);
      }
    }
  }

  lemma {:induction false} LitDropped(s: Shape, n: Nodes, a: Addr, k: string)
    requires Good(s, n) && a in s && At(a, Lit(k)) in s && Wf(TrieOf(n)) && !Alive(TrieOf(n), At(a, Lit(k)))
    ensures var n' := n[a := n[a].(segments := n[a].segments - {k})] - {At(a, Lit(k))};
      Good(s - {At(a, Lit(k))}, n') && TrieOf(n') == RemoveLeaf(TrieOf(n), At(a, Lit(k)))
  {
    assert s.Keys == n.Keys;
    hide Good, RemoveLeaf, Wf, Alive, Next, Links, Lookup;
    var f := n[a].(segments := n[a].segments - {k});
    WithoutKey(n[a], k, f);
    DeadChild(s, TrieOf(n), At(a, Lit(k)));
    DropChild(s, n, a, Lit(k), f);
    DropTrie(n, a, Lit(k), f);
  }

  lemma {:induction false} VarDropped(s: Shape, n: Nodes, a: Addr, i: nat)
    requires Good(s, n) && a in s && Wf(TrieOf(n)) && i < |n[a].variables|
    requires At(a, Var(n[a].variables[i].name)) in s && !Alive(TrieOf(n), At(a, Var(n[a].variables[i].name)))
    ensures var bs, x := n[a].variables, At(a, Var(n[a].variables[i].name));
      var n' := n[a := n[a].(variables := bs[..i] + bs[i + 1..])] - {x};
      Good(s - {x}, n') && TrieOf(n') == RemoveLeaf(TrieOf(n), x)
  {
    var bs := n[a].variables;
    var e, f := Var(bs[i].name), n[a].(variables := bs[..i] + bs[i + 1..]);
    assert GoodVars(TrieOf(n), a);
    assert Sorted(Vars(bs));
    hide Good, RemoveLeaf, Wf, Alive, Without, Next, Links, Lookup, Sorted;
    DeadChild(s, TrieOf(n), At(a, e));
    WithoutBranch(n[a], i, f);
    DropChild(s, n, a, e, f);
    DropTrie(n, a, e, f);
  }

  /** Deleting a dead child from the map. */
  method DropPath(ghost s: Shape, p: Path, k: string)
    requires Tree(s) && p.In(s) && Wf(Content(s)) && At(p.at, Lit(k)) in s && !Alive(Content(s), At(p.at, Lit(k)))
    modifies p
    ensures Tree(s - {At(p.at, Lit(k))})
    ensures Content(s - {At(p.at, Lit(k))}) == RemoveLeaf(old(Content(s)), At(p.at, Lit(k)))
  {
    hide Tree, Content, Good, RemoveLeaf, Wf, Alive;
    ghost var n := Snapshot(s);
    TreeIs(s);
    LitDropped(s, n, p.at, k);
    NotSelf(At(p.at, Lit(k)));
    p.segments := p.segments - {k};
    Rewired(s, n, p.at, At(p.at, Lit(k)));
  }

  /** Deleting a dead child from the list. */
  method DropVariable(ghost s: Shape, p: Path, i: nat)
    requires Tree(s) && p.In(s) && Wf(Content(s)) && i < |p.variables|
    requires At(p.at, Var(p.variables[i].name)) in s && !Alive(Content(s), At(p.at, Var(p.variables[i].name)))
    modifies p
    ensures var x := At(p.at, Var(old(p.variables)[i].name));
      Tree(s - {x}) && Content(s - {x}) == RemoveLeaf(old(Content(s)), x)
  {
    hide Tree, Content, Good, RemoveLeaf, Wf, Alive;
    ghost var n, x := Snapshot(s), At(p.at, Var(p.variables[i].name));
    TreeIs(s);
    VarDropped(s, n, p.at, i);
    NotSelf(x);
    p.variables := p.variables[..i] + p.variables[i + 1..];
    Rewired(s, n, p.at, x);
  }

  method IsAlive(ghost s: Shape, p: Path) returns (alive: bool)
    requires Tree(s) && p.In(s)
    ensures alive == Alive(Content(s), p.at)
  {
    HeldAt(s, p);
    alive := |p.methods| != 0 || |p.variables| != 0 || |p.segments| != 0;
    AliveAt(s, p);
  }

  lemma {:induction false} AliveAt(s: Shape, p: Path)
    requires Tree(s) && p.In(s)
    ensures p.segments != map[] <==> exists k :: At(p.at, Lit(k)) in Content(s)
  {
    if p.segments != map[] {
      assert p.segments.Keys != {};
      var k :| k in p.segments;
      Child(s, p, Lit(k));
    }
    if k :| At(p.at, Lit(k)) in Content(s) {
      Child(s, p, Lit(k));
    }
  }

  /* ---- The recursion ---- */

  /** Deleting the dead child after a deletion below it is deleting up to the parent. */
  lemma {:induction false} AfterChild(t: Trie, u: Trie, a: Addr, e: Edge, name: string, x: Addr, verb: string)
    requires Wf(t) && NoStar(t) && Deleted(t, u, At(a, e), name, x, verb)
    ensures At(a, e) in u && a in u && Wf(u)
    ensures Deleted(t, if Alive(u, At(a, e)) then u else RemoveLeaf(u, At(a, e)), a, name, x, verb)
  {
    hide Prune, Wf, NoStar, Alive, RemoveLeaf, Unbind;
    assert Under(a, At(a, e));
    UnderTrans(a, At(a, e), x);
    UnbindGood(t, x, verb);
    UnbindKeys(t, x, verb);
    PruneThrough(Unbind(t, x, verb), a, e, x);
  }

  lemma {:induction false} UnbindKeys(t: Trie, x: Addr, verb: string)
    requires x in t
    ensures x in Unbind(t, x, verb)
  {
  }

  /** Nodes that are not below `a` are as they were. */
  twostate predicate Outside(s: Shape, a: Addr)
    reads s.Values
  {
    forall y :: y in s && !Under(a, y) ==> s[y].Fields() == old(s[y].Fields())
  }

  lemma {:induction false} UnderChild(a: Addr, e: Edge)
    ensures Under(a, a) && !Under(At(a, e), a)
    ensures forall y :: Under(At(a, e), y) ==> Under(a, y)
  {
    ChildNotUnder(a, e);
    assert Under(a, At(a, e));
    forall y | Under(At(a, e), y) ensures Under(a, y) {
      UnderTrans(a, At(a, e), y);
    }
  }

  lemma {:induction false} Placed(s: Shape)
    requires Tree(s)
    ensures forall y :: y in s ==> s[y].at == y
  {
  }

  /** No edge at `a` that comes before `e` leads to the name: literal edges come before variables,
      and variables in the order of their names. */
  ghost predicate Preferred(t: Trie, a: Addr, e: Edge, name: string) {
    forall d :: At(a, d) in t && Matching.EdgeLess(d, e) ==> Nameless(t, At(a, d), name)
  }

  /** `x` is where the name is found from `a`: below it nothing has the name, and on the way no
      edge that comes before leads to it. */
  ghost predicate FoundFirst(t: Trie, a: Addr, name: string, x: Addr) {
    && (forall e :: At(x, e) in t ==> Nameless(t, At(x, e), name))
    && forall y, e :: Under(a, y) && Under(At(y, e), x) ==> Preferred(t, y, e, name)
  }

  lemma {:induction false} Comparable(y: Addr, z: Addr, x: Addr)
    requires Under(y, x) && Under(z, x)
    ensures Under(y, z) || Under(z, y)
    decreases x
  {
    if x != y && x != z {
      Comparable(y, z, x.up);
    }
  }

  /** Found below a child, when nothing before the child leads to the name. */
  lemma {:induction false} FoundBelow(t: Trie, u: Trie, a: Addr, e: Edge, name: string, x: Addr, verb: string)
    requires Deleted(t, u, At(a, e), name, x, verb)
    requires FoundFirst(t, At(a, e), name, x) && Preferred(t, a, e, name)
    ensures FoundFirst(t, a, name, x)
  {
    hide Prune, Unbind, Nameless, Preferred, Under;
    var c := At(a, e);
    forall y, d | Under(a, y) && Under(At(y, d), x) ensures Preferred(t, y, d, name) {
      if y == a {
        UnderDisjoint(a, e, d, x);
      } else {
        OnTheWay(a, e, y, d, x);
      }
    }
  }

  lemma {:induction false} OnTheWay(a: Addr, e: Edge, y: Addr, d: Edge, x: Addr)
    requires Under(At(a, e), x) && Under(a, y) && Under(At(y, d), x) && y != a
    ensures Under(At(a, e), y)
  {
    assert Under(y, At(y, d));
    UnderTrans(y, At(y, d), x);
    Comparable(At(a, e), y, x);
    if Under(y, At(a, e)) && y != At(a, e) {
      UnderDepth(y, a);
      UnderDepth(a, y);
    }
  }

  /** Found at the node itself. */
  lemma {:induction false} FoundHere(s: Shape, p: Path, name: string)
    requires Tree(s) && p.In(s)
    requires NoSegment(Content(s), p.at, p.segments.Keys, name)
    requires NoVariable(Content(s), p.at, Vars(p.variables), |p.variables|, name)
    ensures FoundFirst(Content(s), p.at, name, p.at)
  {
    hide Nameless, Tree, Content, Lookup;
    var t := Content(s);
    forall e | At(p.at, e) in t ensures Nameless(t, At(p.at, e), name) {
      EdgeNameless(s, p, name, e);
    }
    forall y, e ensures !(Under(p.at, y) && Under(At(y, e), p.at)) {
      NotAbove(p.at, y, e);
    }
  }

  lemma {:induction false} NotAbove(a: Addr, y: Addr, e: Edge)
    ensures !(Under(a, y) && Under(At(y, e), a))
  {
    if Under(a, y) && Under(At(y, e), a) {
      UnderDepth(a, y);
      UnderDepth(At(y, e), a);
    }
  }

  lemma {:induction false} EdgeNameless(s: Shape, p: Path, name: string, e: Edge)
    requires Tree(s) && p.In(s) && At(p.at, e) in Content(s)
    requires NoSegment(Content(s), p.at, p.segments.Keys, name)
    requires e.Var? ==> NoVariable(Content(s), p.at, Vars(p.variables), |p.variables|, name)
    ensures Nameless(Content(s), At(p.at, e), name)
  {
    hide Nameless, Tree;
    Child(s, p, e);
    if e.Var? {
      LookupSome(p.variables, e.name);
      var j :| 0 <= j < |p.variables| && p.variables[j].name == e.name;
      assert Vars(p.variables)[j].name == e.name;
    }
  }

  /** No edge before the i-th variable leads to the name. */
  lemma {:induction false} VariablePreferred(s: Shape, p: Path, i: nat, name: string)
    requires Tree(s) && p.In(s) && Wf(Content(s)) && i < |p.variables|
    requires NoSegment(Content(s), p.at, p.segments.Keys, name)
    requires NoVariable(Content(s), p.at, Vars(p.variables), i, name)
    ensures Preferred(Content(s), p.at, Var(p.variables[i].name), name)
  {
    hide Nameless, Tree, Content, Wf, Sorted, HasVar, Less, NoSegment;
    SortedVars(s, p);
    var t, vars, e := Content(s), Vars(p.variables), Var(p.variables[i].name);
    forall d | At(p.at, d) in t && Matching.EdgeLess(d, e) ensures Nameless(t, At(p.at, d), name) {
      if d.Lit? {
        EdgeNameless(s, p, name, d);
      } else {
        assert d == Var(d.name);
        var j := EarlierVariable(vars, i, d.name);
      }
    }
  }

  lemma {:induction false} SortedVars(s: Shape, p: Path)
    requires Tree(s) && p.In(s) && Wf(Content(s))
    ensures Sorted(Vars(p.variables))
    ensures forall n :: At(p.at, Var(n)) in Content(s) ==> HasVar(Vars(p.variables), n)
  {
    HeldAt(s, p);
    assert GoodVars(Content(s), p.at);
  }

  lemma {:induction false} EarlierVariable(vars: seq<Variable>, i: nat, n: string) returns (j: nat)
    requires Sorted(vars) && i < |vars| && HasVar(vars, n) && Less(n, vars[i].name)
    ensures j < i && vars[j].name == n
  {
    j :| 0 <= j < |vars| && vars[j].name == n;
    LessTotal(n, vars[i].name);
  }

  /** Deleting below a literal edge, and the edge if its node is dead. */
  method DelSegment(ghost s: Shape, p: Path, k: string, name: string)
    returns (ok: bool, ghost s': Shape, ghost x: Addr, ghost verb: string)
    requires Tree(s) && p.In(s) && Wf(Content(s)) && NoStar(Content(s)) && k in p.segments
    modifies s.Values
    ensures Within(s', s) && Tree(s') && p.In(s') && Outside(s, p.at)
    ensures ok ==> Deleted(old(Content(s)), Content(s'), p.at, name, x, verb)
    ensures ok ==> FoundFirst(old(Content(s)), p.at, name, x)
    ensures !ok ==> s' == s && Snapshot(s) == old(Snapshot(s)) && Nameless(old(Content(s)), At(p.at, Lit(k)), name)
    decreases Subtree(s, p.at), 0
  {
    hide Tree, Content, Wf, NoStar, Deleted, Nameless, Alive, Under, RemoveLeaf, FoundFirst, NoSegment, NoVariable;
    ghost var t := Content(s);
    var sub := p.segments[k];
    Child(s, p, Lit(k));
    LitChild(p, k);
    Placed(s);
    UnderChild(p.at, Lit(k));
    Smaller(s, p.at, Lit(k));
    ok, s', x, verb := DelRule(s, sub, name);
    if ok {
      FoundBelow(t, Content(s'), p.at, Lit(k), name, x, verb);
      AfterChild(t, Content(s'), p.at, Lit(k), name, x, verb);
      var alive := IsAlive(s', sub);
      if !alive {
        DropPath(s', p, k);
        s' := s' - {sub.at};
      }
    }
  }

  /** Deleting below a variable edge, and the variable if its node is dead. */
  method DelVariable(ghost s: Shape, p: Path, i: nat, name: string)
    returns (ok: bool, ghost s': Shape, ghost x: Addr, ghost verb: string)
    requires Tree(s) && p.In(s) && Wf(Content(s)) && NoStar(Content(s)) && i < |p.variables|
    requires NoSegment(Content(s), p.at, p.segments.Keys, name)
    requires NoVariable(Content(s), p.at, Vars(p.variables), i, name)
    modifies s.Values
    ensures Within(s', s) && Tree(s') && p.In(s') && Outside(s, p.at)
    ensures ok ==> Deleted(old(Content(s)), Content(s'), p.at, name, x, verb)
    ensures ok ==> FoundFirst(old(Content(s)), p.at, name, x)
    ensures !ok ==> s' == s && Snapshot(s) == old(Snapshot(s))
    ensures !ok ==> Nameless(old(Content(s)), At(p.at, Var(old(p.variables)[i].name)), name)
    decreases Subtree(s, p.at), 0
  {
    hide Tree, Content, Wf, NoStar, Deleted, Nameless, Alive, Under, RemoveLeaf, FoundFirst, NoSegment, NoVariable;
    ghost var t := Content(s);
    var v := p.variables[i];
    Branches(s, p, i);
    Placed(s);
    UnderChild(p.at, Var(v.name));
    Smaller(s, p.at, Var(v.name));
    VariablePreferred(s, p, i, name);
    ok, s', x, verb := DelRule(s, v.next, name);
    if ok {
      FoundBelow(t, Content(s'), p.at, Var(v.name), name, x, verb);
      AfterChild(t, Content(s'), p.at, Var(v.name), name, x, verb);
      var alive := IsAlive(s', v.next);
      if !alive {
        DropVariable(s', p, i);
        s' := s' - {v.next.at};
      }
    }
  }

  /** No literal edge of `p` leads to the name. */
  ghost predicate NoSegment(t: Trie, a: Addr, keys: set<string>, name: string) {
    forall k :: k in keys ==> Nameless(t, At(a, Lit(k)), name)
  }

  method DelSegments(ghost s: Shape, p: Path, name: string)
    returns (ok: bool, ghost s': Shape, ghost x: Addr, ghost verb: string)
    requires Tree(s) && p.In(s) && Wf(Content(s)) && NoStar(Content(s))
    modifies s.Values
    ensures Within(s', s) && Tree(s') && p.In(s') && Outside(s, p.at)
    ensures ok ==> Deleted(old(Content(s)), Content(s'), p.at, name, x, verb)
    ensures ok ==> FoundFirst(old(Content(s)), p.at, name, x)
    ensures !ok ==>
      s' == s && Snapshot(s) == old(Snapshot(s)) && NoSegment(old(Content(s)), p.at, old(p.segments.Keys), name)
    decreases Subtree(s, p.at), 1
  {
    hide Tree, Wf, NoStar, Deleted, Nameless, Alive, Under, FoundFirst;
    ghost var n, keys := Snapshot(s), p.segments.Keys;
    var todo := p.segments.Keys;
    ok, s', x, verb := false, s, Root, "";
    while todo != {}
      invariant Snapshot(s) == n && s' == s && !ok && Tree(s) && Outside(s, p.at)
      invariant todo <= keys && NoSegment(TrieOf(n), p.at, keys - todo, name)
      decreases todo
    {
      var k :| k in todo;
      assert p.segments == n[p.at].segments;
      ok, s', x, verb := DelSegment(s, p, k, name);
      if ok {
        return;
      }
      todo := todo - {k};
    }
  }

  ghost predicate NoVariable(t: Trie, a: Addr, vars: seq<Variable>, i: nat, name: string) {
    i <= |vars| && forall j :: 0 <= j < i ==> Nameless(t, At(a, Var(vars[j].name)), name)
  }

  method DelVariables(ghost s: Shape, p: Path, name: string)
    returns (ok: bool, ghost s': Shape, ghost x: Addr, ghost verb: string)
    requires Tree(s) && p.In(s) && Wf(Content(s)) && NoStar(Content(s))
    requires NoSegment(Content(s), p.at, p.segments.Keys, name)
    modifies s.Values
    ensures Within(s', s) && Tree(s') && p.In(s') && Outside(s, p.at)
    ensures ok ==> Deleted(old(Content(s)), Content(s'), p.at, name, x, verb)
    ensures ok ==> FoundFirst(old(Content(s)), p.at, name, x)
    ensures !ok ==> s' == s && Snapshot(s) == old(Snapshot(s))
    ensures !ok ==> NoVariable(old(Content(s)), p.at, old(Vars(p.variables)), |old(p.variables)|, name)
    decreases Subtree(s, p.at), 1
  {
    hide Tree, Wf, NoStar, Deleted, Nameless, Alive, Under, FoundFirst;
    ghost var n, vars := Snapshot(s), Vars(p.variables);
    ok, s', x, verb := false, s, Root, "";
    var i := 0;
    while i < |p.variables|
      invariant Snapshot(s) == n && s' == s && !ok && Tree(s) && Outside(s, p.at)
      invariant i <= |n[p.at].variables| && NoVariable(TrieOf(n), p.at, vars, i, name)
    {
      assert p.variables == n[p.at].variables;
      ok, s', x, verb := DelVariable(s, p, i, name);
      if ok {
        return;
      }
      i := i + 1;
    }
    assert p.variables == n[p.at].variables;
  }

  /** Deleting the first method of the name from the map of a node; a map has no order. */
  method DelMethod(ghost s: Shape, p: Path, name: string) returns (ok: bool, ghost verb: string)
    requires Tree(s) && p.In(s)
    modifies p
    ensures Tree(s)
    ensures ok ==> verb in old(Content(s)[p.at].methods) && old(Content(s)[p.at].methods)[verb].name == name
    ensures ok ==> Content(s) == Unbind(old(Content(s)), p.at, verb)
    ensures !ok ==> unchanged(p) && forall v :: v in p.methods ==> p.methods[v].name != name
  {
    ghost var n := Snapshot(s);
    HeldAt(s, p);
    var todo := p.methods.Keys;
    while todo != {}
      invariant todo <= p.methods.Keys && unchanged(p)
      invariant forall v :: v in p.methods && v !in todo ==> p.methods[v].name != name
      decreases todo
    {
      var v :| v in todo;
      if p.methods[v].name == name {
        DeleteMethod(s, p, v);
        return true, v;
      }
      todo := todo - {v};
    }
    return false, "";
  }

  method DeleteMethod(ghost s: Shape, p: Path, verb: string)
    requires Tree(s) && p.In(s) && verb in p.methods
    modifies p
    ensures Tree(s) && Content(s) == Unbind(old(Content(s)), p.at, verb)
  {
    hide Tree, Content, Good, Unbind;
    ghost var n := Snapshot(s);
    TreeIs(s);
    ghost var f := n[p.at].(methods := n[p.at].methods - {verb});
    Relinked(s, n, p.at, f);
    UnbindTrie(n, p.at, verb);
    p.methods := p.methods - {verb};
    Rewritten(s, n, p.at);
  }

  lemma {:induction false} UnbindTrie(n: Nodes, a: Addr, verb: string)
    requires a in n
    ensures TrieOf(n[a := n[a].(methods := n[a].methods - {verb})]) == Unbind(TrieOf(n), a, verb)
  {
  }

  /** The two loops and the node itself cover everything below it. */
  lemma {:induction false} NamelessAll(s: Shape, p: Path, name: string)
    requires Tree(s) && p.In(s)
    requires NoSegment(Content(s), p.at, p.segments.Keys, name)
    requires NoVariable(Content(s), p.at, Vars(p.variables), |p.variables|, name)
    requires forall v :: v in p.methods ==> p.methods[v].name != name
    ensures Nameless(Content(s), p.at, name)
  {
    HeldAt(s, p);
    var t := Content(s);
    forall x, v | x in t && Under(p.at, x) && v in t[x].methods ensures t[x].methods[v].name != name {
      if x != p.at {
        var e := UnderSplit(s, Snapshot(s), p.at, x);
        Child(s, p, e);
        match e {
          case Lit(k) =>
          case Var(w) =>
            LookupSome(p.variables, w);
            var j :| 0 <= j < |p.variables| && p.variables[j].name == w;
            assert Vars(p.variables)[j].name == w;
        }
        assert Nameless(t, At(p.at, e), name);
      }
    }
  }

  /** `path.delRule`: literal edges, then variables, then the methods of the node. */
  method DelRule(ghost s: Shape, p: Path, name: string)
    returns (ok: bool, ghost s': Shape, ghost x: Addr, ghost verb: string)
    requires Tree(s) && p.In(s) && Wf(Content(s)) && NoStar(Content(s))
    modifies s.Values
    ensures Within(s', s) && Tree(s') && p.In(s') && Outside(s, p.at)
    ensures ok ==> Deleted(old(Content(s)), Content(s'), p.at, name, x, verb)
    ensures ok ==> FoundFirst(old(Content(s)), p.at, name, x)
    ensures !ok ==> s' == s && Snapshot(s) == old(Snapshot(s)) && Nameless(old(Content(s)), p.at, name)
    decreases Subtree(s, p.at)
  {
    hide Tree, Wf, NoStar, Deleted, Nameless, Alive, Under, NoSegment, NoVariable, Unbind, FoundFirst;
    ghost var n := Snapshot(s);
    ok, s', x, verb := DelSegments(s, p, name);
    if ok {
      return;
    }
    assert p.Fields() == n[p.at];
    ok, s', x, verb := DelVariables(s, p, name);
    if ok {
      return;
    }
    assert p.Fields() == n[p.at];
    Placed(s);
    UnderChild(p.at, Lit(""));
    FoundHere(s, p, name);
    ok, verb := DelMethod(s, p, name);
    s', x := s, p.at;
    if ok {
      DeletedHere(TrieOf(n), p.at, name, verb);
    } else {
      NamelessAll(s, p, name);
      assert Snapshot(s) == n;
    }
  }

  lemma {:induction false} DeletedHere(t: Trie, a: Addr, name: string, verb: string)
    requires a in t && verb in t[a].methods && t[a].methods[verb].name == name
    ensures Deleted(t, Unbind(t, a, verb), a, name, a, verb)
  {
  }

  /* ---- Isolation ---- */

  datatype Edit = Add(rule: HttpRule, desc: Desc, name: string) | Del(name: string)

  lemma {:induction false} DeletedGood(t: Trie, u: Trie, a: Addr, name: string, x: Addr, verb: string)
    requires Wf(t) && NoStar(t) && Deleted(t, u, a, name, x, verb)
    ensures Wf(u) && NoStar(u)
  {
    DeleteExact(t, u, a, name, x, verb);
  }

  /** One edit of a tree. */
  method Apply(ghost s: Shape, root: Path, e: Edit) returns (ghost s': Shape)
    requires Tree(s) && root.In(s) && root.at == Root && Wf(Content(s)) && NoStar(Content(s))
    modifies s.Values
    ensures forall x :: x in s' ==> (x in s && s'[x] == s[x]) || fresh(s'[x])
    ensures Tree(s') && root.In(s') && Wf(Content(s')) && NoStar(Content(s'))
  {
    hide Tree, Wf, NoStar, Rules.AddRule, Deleted, Under, Nameless;
    match e {
      case Add(rule, desc, name) =>
        var r;
        r, s' := PathRules.AddRule(s, root, rule, desc, name);
      case Del(name) =>
        ghost var t := Content(s);
        var ok;
        ghost var x, verb;
        ok, s', x, verb := DelRule(s, root, name);
        if ok {
          DeletedGood(t, Content(s'), Root, name, x, verb);
        }
    }
  }

  /** Any sequence of edits on a clone leaves every object of the original as it was, so every
      match on the original gives what it gave. */
  method EditClone(ghost s: Shape, root: Path, edits: seq<Edit>) returns (c: Path, ghost f: Shape)
    requires Tree(s) && root.In(s) && root.at == Root && Wf(Content(s)) && NoStar(Content(s))
    ensures New(f) && Tree(f) && c.In(f) && c.at == Root && Wf(Content(f)) && NoStar(Content(f))
    ensures Tree(s) && Content(s) == old(Content(s))
  {
    hide Tree, Content, Wf, NoStar;
    c, f := CloneTree(s, root);
    var k := 0;
    while k < |edits|
      invariant New(f) && Tree(f) && c.In(f) && c.at == Root && Wf(Content(f)) && NoStar(Content(f))
    {
      f := Apply(f, c, edits[k]);
      k := k + 1;
    }
  }
}
