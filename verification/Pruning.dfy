/** Deleting a binding by method name, and the nodes that go with it. */
module Pruning {
  import opened Options
  import opened Tries
  import opened Rules

  /** `path.alive`: the wildcard method is not looked at. */
  ghost predicate Alive(t: Trie, x: Addr)
    requires x in t
  {
    t[x].methods != map[] || t[x].vars != [] || exists k :: At(x, Lit(k)) in t
  }

  /** The list without the first variable of that name. */
  function Without(vs: seq<Variable>, name: string): seq<Variable> {
    if vs == [] then []
    else if vs[0].name == name then vs[1..]
    else [vs[0]] + Without(vs[1..], name)
  }

  lemma {:induction false} WithoutAt(vs: seq<Variable>, i: nat)
    requires i < |vs| && forall j :: 0 <= j < i ==> vs[j].name != vs[i].name
    ensures Without(vs, vs[i].name) == vs[..i] + vs[i + 1..]
  {
    if i > 0 {
      WithoutAt(vs[1..], i - 1);
      assert vs[1..][..i - 1] == vs[1..i] && vs[1..][i..] == vs[i + 1..];
      assert [vs[0]] + vs[1..i] == vs[..i];
    }
  }

  /** Deleting a child from its parent's map or list. */
  function RemoveLeaf(t: Trie, x: Addr): Trie
    requires x.At? && x.up in t
  {
    var u := t - {x};
    if x.edge.Lit? || x.up == x then u
    else u[x.up := t[x.up].(vars := Without(t[x.up].vars, x.edge.name))]
  }

  function Unbind(t: Trie, x: Addr, verb: string): Trie
    requires x in t
  {
    t[x := t[x].(methods := t[x].methods - {verb})]
  }

  /** Removing dead nodes from `x` upwards, below `a`. */
  ghost function Prune(t: Trie, a: Addr, x: Addr): Trie
    decreases x
  {
    if x == a || x.Root? || x !in t || x.up !in t || Alive(t, x) then t
    else Prune(RemoveLeaf(t, x), a, x.up)
  }

  /** `u` is `t` after the binding of `verb` at `x`, which has the given name, is deleted
      from the subtree of `a`. */
  ghost predicate Deleted(t: Trie, u: Trie, a: Addr, name: string, x: Addr, verb: string) {
    && x in t && Under(a, x)
    && verb in t[x].methods && t[x].methods[verb].name == name
    && u == Prune(Unbind(t, x, verb), a, x)
  }

  /* ---- One leaf ---- */

  lemma {:induction false} WithoutHas(vs: seq<Variable>, name: string)
    requires Sorted(vs) && HasVar(vs, name)
    ensures Sorted(Without(vs, name))
    ensures forall n :: HasVar(Without(vs, name), n) <==> HasVar(vs, n) && n != name
    ensures forall i :: 0 <= i < |Without(vs, name)| ==> Without(vs, name)[i] in vs
  {
    hide Without, Less;
    var i :| 0 <= i < |vs| && vs[i].name == name;
    forall j | 0 <= j < |vs| && j != i ensures vs[j].name != name {
      LessTotal(vs[j].name, name);
    }
    WithoutAt(vs, i);
    var out := vs[..i] + vs[i + 1..];
    assert forall j :: 0 <= j < |out| ==> out[j] == if j < i then vs[j] else vs[j + 1];
    forall n | HasVar(vs, n) && n != name ensures HasVar(out, n) {
      var j :| 0 <= j < |vs| && vs[j].name == n;
      assert out[if j < i then j else j - 1].name == n;
    }
  }

  lemma {:induction false} NotSelf(x: Addr)
    requires x.At?
    ensures x.up != x
  {
    assert Depth(x) == Depth(x.up) + 1;
  }

  lemma {:induction false} DeadHasNoChild(t: Trie, x: Addr)
    requires Wf(t) && x in t && !Alive(t, x)
    ensures forall e :: At(x, e) !in t
  {
    assert GoodVars(t, x);
    forall e ensures At(x, e) !in t {
      match e
      case Lit(k) =>
      case Var(n) =>
    }
  }

  lemma {:induction false} RemoveLeafGood(t: Trie, x: Addr)
    requires Wf(t) && NoStar(t) && x in t && x.At? && !Alive(t, x)
    ensures x.up in t && x.up != x
    ensures Wf(RemoveLeaf(t, x)) && NoStar(RemoveLeaf(t, x)) && RemoveLeaf(t, x).Keys == t.Keys - {x}
  {
    NotSelf(x);
    DeadHasNoChild(t, x);
    var u := RemoveLeaf(t, x);
    forall y | y in u ensures GoodVars(u, y) && Aligned(u, y) {
      assert GoodVars(t, y) && Aligned(t, y);
      if y == x.up && x.edge.Var? {
        WithoutHas(t[y].vars, x.edge.name);
        RemoveVarGood(t, x);
      }
    }
  }

  lemma {:induction false} RemoveVarGood(t: Trie, x: Addr)
    requires Wf(t) && x in t && x.At? && x.edge.Var? && x.up in t && x.up != x
    ensures GoodVars(RemoveLeaf(t, x), x.up)
  {
    var u, y := RemoveLeaf(t, x), x.up;
    assert GoodVars(t, y);
    WithoutHas(t[y].vars, x.edge.name);
    forall n ensures At(y, Var(n)) in u <==> HasVar(u[y].vars, n) {
      assert At(y, Var(n)) in t <==> HasVar(t[y].vars, n);
    }
  }

  /* ---- Pruning ---- */

  /** The nodes and variables of `u` come from `t`; specific bindings are the same and so
      are the wildcard bindings of the nodes that are left. */
  ghost predicate Shrunk(t: Trie, u: Trie) {
    && Wf(u) && NoStar(u) && u.Keys <= t.Keys
    && (forall y, v :: v != "*" ==> Bound(u, y, v) == Bound(t, y, v))
    && (forall y :: y in u ==> u[y].methodAll == t[y].methodAll)
    && (forall y, i :: y in u && 0 <= i < |u[y].vars| ==> u[y].vars[i] in t[y].vars)
  }

  lemma {:induction false} VarsAt(t: Trie, x: Addr)
    requires Wf(t) && x in t && x.At? && x.edge.Var?
    ensures x.up in t && Sorted(t[x.up].vars) && HasVar(t[x.up].vars, x.edge.name)
  {
    UpIn(t, x);
    assert GoodVars(t, x.up);
    assert x == At(x.up, x.edge);
  }

  lemma {:induction false} ShrunkLeaf(t: Trie, x: Addr)
    requires Wf(t) && NoStar(t) && x in t && x.At? && !Alive(t, x)
    ensures x.up in t
    ensures Shrunk(t, RemoveLeaf(t, x))
  {
    hide Wf, NoStar, Without, Sorted;
    RemoveLeafGood(t, x);
    var u := RemoveLeaf(t, x);
    if x.edge.Var? {
      VarsAt(t, x);
      WithoutHas(t[x.up].vars, x.edge.name);
    }
  }

  lemma {:induction false} ShrunkTrans(t: Trie, u: Trie, w: Trie)
    requires Shrunk(t, u) && Shrunk(u, w)
    ensures Shrunk(t, w)
  {
    forall y, i | y in w && 0 <= i < |w[y].vars| ensures w[y].vars[i] in t[y].vars {
      assert w[y].vars[i] in u[y].vars;
      var j :| 0 <= j < |u[y].vars| && u[y].vars[j] == w[y].vars[i];
    }
  }

  lemma {:induction false} PruneShrinks(t: Trie, a: Addr, x: Addr)
    requires Wf(t) && NoStar(t)
    ensures Shrunk(t, Prune(t, a, x))
    decreases x
  {
    if x == a || x.Root? || x !in t || x.up !in t || Alive(t, x) {
    } else {
      ShrunkLeaf(t, x);
      PruneShrinks(RemoveLeaf(t, x), a, x.up);
      ShrunkTrans(t, RemoveLeaf(t, x), Prune(t, a, x));
    }
  }

  /** Nothing but the way to `x` hangs below `y`, and no specific method. */
  ghost predicate Bare(t: Trie, y: Addr, x: Addr) {
    forall z :: z in t && Under(y, z) ==> Under(z, x) && t[z].methods == map[]
  }

  lemma {:induction false} UnderAntisymmetric(a: Addr, x: Addr)
    requires Under(a, x) && Under(x, a)
    ensures a == x
  {
    UnderDepth(a, x);
    UnderDepth(x, a);
  }

  lemma {:induction false} ChildNotUnder(x: Addr, e: Edge)
    ensures !Under(At(x, e), x)
  {
    if Under(At(x, e), x) {
      UnderDepth(At(x, e), x);
    }
  }

  /** A live node is not bare, and neither is any node above it. */
  lemma {:induction false} AliveNotBare(t: Trie, x: Addr, y: Addr)
    requires Wf(t) && x in t && Alive(t, x) && Under(y, x)
    ensures !Bare(t, y, x)
  {
    if Bare(t, y, x) {
      assert t[x].methods == map[];
      assert GoodVars(t, x);
      var e: Edge;
      if t[x].vars != [] {
        assert HasVar(t[x].vars, t[x].vars[0].name);
        e := Var(t[x].vars[0].name);
      } else {
        var k :| At(x, Lit(k)) in t;
        e := Lit(k);
      }
      assert At(x, e) in t && Under(y, At(x, e));
      ChildNotUnder(x, e);
    }
  }

  lemma {:induction false} BareStep(t: Trie, x: Addr, y: Addr)
    requires Wf(t) && NoStar(t) && x in t && x.At? && !Alive(t, x) && y != x
    ensures x.up in t
    ensures Under(y, x) && Bare(t, y, x) <==> Under(y, x.up) && Bare(RemoveLeaf(t, x), y, x.up)
  {
    RemoveLeafGood(t, x);
    var u := RemoveLeaf(t, x);
    if Under(y, x) && Bare(t, y, x) {
      forall z | z in u && Under(y, z) ensures Under(z, x.up) && u[z].methods == map[] {
        assert Under(z, x) && z != x;
      }
    }
    if Under(y, x.up) && Bare(u, y, x.up) {
      forall z | z in t && Under(y, z) ensures Under(z, x) && t[z].methods == map[] {
        assert z != x ==> z in u;
      }
    }
  }

  /** Pruning removes exactly the bare nodes between `a` and `x`. */
  lemma {:induction false} PruneRemoves(t: Trie, a: Addr, x: Addr, y: Addr)
    requires Wf(t) && NoStar(t) && x in t && Under(a, x) && y in t
    ensures y !in Prune(t, a, x) <==> y != a && Under(a, y) && Under(y, x) && Bare(t, y, x)
    decreases x
  {
    if x == a {
      if Under(a, y) && Under(y, a) {
        UnderAntisymmetric(a, y);
      }
    } else if Alive(t, x) {
      if Under(y, x) {
        AliveNotBare(t, x, y);
      }
    } else {
      RemoveLeafGood(t, x);
      var u := RemoveLeaf(t, x);
      if y == x {
        PruneShrinks(u, a, x.up);
        DeadIsBare(t, x);
      } else {
        PruneRemoves(u, a, x.up, y);
        BareStep(t, x, y);
      }
    }
  }

  lemma {:induction false} DeadIsBare(t: Trie, x: Addr)
    requires Wf(t) && x in t && !Alive(t, x)
    ensures Bare(t, x, x)
  {
    DeadHasNoChild(t, x);
    forall z | z in t && Under(x, z) ensures z == x {
      LeafBelow(t, x, z);
    }
  }

  lemma {:induction false} LeafBelow(t: Trie, x: Addr, z: Addr)
    requires Rooted(t) && z in t && Under(x, z) && forall e :: At(x, e) !in t
    ensures z == x
    decreases z
  {
    assert z.At? ==> z == At(z.up, z.edge);
    if z != x && z.up != x {
      LeafBelow(t, x, z.up);
    }
  }

  /* ---- What a deletion changes ---- */

  /** Before the deletion: `y` holds nothing but the way to the binding of `verb` at `x`. */
  ghost predicate Doomed(t: Trie, a: Addr, x: Addr, verb: string, y: Addr) {
    && y != a && Under(a, y) && Under(y, x)
    && forall z :: z in t && Under(y, z) ==> Under(z, x) && t[z].methods.Keys <= if z == x then {verb} else {}
  }

  lemma {:induction false} UnbindGood(t: Trie, x: Addr, verb: string)
    requires Wf(t) && NoStar(t) && x in t
    ensures Wf(Unbind(t, x, verb)) && NoStar(Unbind(t, x, verb))
  {
    var u := Unbind(t, x, verb);
    forall y | y in u ensures GoodVars(u, y) && Aligned(u, y) {
      assert GoodVars(t, y) && Aligned(t, y);
    }
  }

  lemma {:induction false} UnbindBound(t: Trie, x: Addr, verb: string)
    requires x in t
    ensures forall y, v :: v != "*" ==>
      Bound(Unbind(t, x, verb), y, v) == if y == x && v == verb then None else Bound(t, y, v)
    ensures forall y :: y in t ==>
      Unbind(t, x, verb)[y].vars == t[y].vars && Unbind(t, x, verb)[y].methodAll == t[y].methodAll
  {
  }

  lemma {:induction false} DoomedIsBare(t: Trie, a: Addr, x: Addr, verb: string, y: Addr)
    requires x in t
    ensures Doomed(t, a, x, verb, y) <==> y != a && Under(a, y) && Under(y, x) && Bare(Unbind(t, x, verb), y, x)
  {
    var u := Unbind(t, x, verb);
    forall z | z in t
      ensures u[z].methods == map[] <==> t[z].methods.Keys <= if z == x then {verb} else {}
    {
      assert u[z].methods == map[] <==> u[z].methods.Keys == {};
      assert z == x ==> u[z].methods.Keys == t[z].methods.Keys - {verb};
    }
  }

  /** A deletion removes one specific binding and no other; the variables that are left keep
      their order. A node is lost, with its wildcard method if it has one, exactly when it
      held nothing but the way to the deleted binding. */
  lemma {:induction false} DeleteExact(t: Trie, u: Trie, a: Addr, name: string, x: Addr, verb: string)
    requires Wf(t) && NoStar(t) && Deleted(t, u, a, name, x, verb)
    ensures Wf(u) && NoStar(u) && u.Keys <= t.Keys
    ensures forall y, v :: v != "*" ==> Bound(u, y, v) == if y == x && v == verb then None else Bound(t, y, v)
    ensures forall y, i :: y in u && 0 <= i < |u[y].vars| ==> u[y].vars[i] in t[y].vars
    ensures forall y :: y in t ==> (y !in u <==> Doomed(t, a, x, verb, y))
    ensures forall y :: y in t ==> Bound(u, y, "*") == if Doomed(t, a, x, verb, y) then None else Bound(t, y, "*")
  {
    var w := Unbind(t, x, verb);
    UnbindGood(t, x, verb);
    PruneShrinks(w, a, x);
    UnbindBound(t, x, verb);
    forall y | y in t ensures y !in u <==> Doomed(t, a, x, verb, y) {
      PruneRemoves(w, a, x, y);
      DoomedIsBare(t, a, x, verb, y);
    }
  }

  const STARS := [Tokens.Token(Tokens.Star, "*")]

  /** A node with a wildcard method, and below it only a node with one specific method. */
  function Stem(m: Method, n: Method): Trie {
    map[
      Root := EMPTY,
      At(Root, Lit("/aa")) := Info([Variable("*", STARS)], map[], Some(m)),
      At(At(Root, Lit("/aa")), Var("*")) := Info([], map["GET" := n], None)]
  }

  lemma {:induction false} StemGood(m: Method, n: Method)
    requires |m.vars| == 0 && |n.vars| == 1
    ensures Wf(Stem(m, n)) && NoStar(Stem(m, n))
  {
    var t := Stem(m, n);
    assert Tokens.Render(STARS) == "*" by {
      assert STARS[1..] == [];
    }
    forall x | x in t ensures GoodVars(t, x) && Aligned(t, x) {
      var node := At(Root, Lit("/aa"));
      assert t[node].vars[0].name == "*";
      assert VarCount(node) == 0 && VarCount(At(node, Var("*"))) == 1;
    }
  }

  /** A wildcard method is lost with the only specific method below its node. */
  lemma {:induction false} WildcardLost(m: Method, n: Method, u: Trie)
    requires |m.vars| == 0 && |n.vars| == 1
    requires Deleted(Stem(m, n), u, Root, n.name, At(At(Root, Lit("/aa")), Var("*")), "GET")
    ensures Bound(Stem(m, n), At(Root, Lit("/aa")), "*") == Some(m)
    ensures Bound(u, At(Root, Lit("/aa")), "*") == None
  {
    hide Wf, NoStar, Deleted;
    var t, node := Stem(m, n), At(Root, Lit("/aa"));
    var leaf := At(node, Var("*"));
    StemGood(m, n);
    DeleteExact(t, u, Root, n.name, leaf, "GET");
    assert Under(node, leaf) && Under(Root, node);
    assert !Under(node, Root);
    assert Doomed(t, Root, leaf, "GET", node);
  }

  /* ---- The recursion of the deletion ---- */

  /** Every node on the way from `c` to `x` is in the trie. */
  lemma {:induction false} WayIn(t: Trie, c: Addr, x: Addr)
    requires Rooted(t) && x in t && Under(c, x)
    ensures c in t
    decreases x
  {
    if x != c {
      WayIn(t, c, x.up);
    }
  }

  lemma {:induction false} WayAlive(t: Trie, c: Addr, x: Addr)
    requires Wf(t) && x in t && Under(c, x) && c != x
    ensures c in t && Alive(t, c)
    decreases x
  {
    WayIn(t, c, x);
    if x.up == c {
      assert GoodVars(t, c);
      assert At(c, x.edge) == x;
      match x.edge {
        case Lit(k) => assert At(c, Lit(k)) in t;
        case Var(n) => assert HasVar(t[c].vars, n);
      }
    } else {
      WayAlive(t, c, x.up);
    }
  }

  lemma {:induction false} InRooted(t: Trie)
    requires Wf(t)
    ensures Rooted(t)
  {
  }

  /** Pruning up to `a` is pruning up to the child on the way, then deleting the child from
      `a` if it is dead. */
  lemma {:induction false} PruneThrough(t: Trie, a: Addr, e: Edge, x: Addr)
    requires Wf(t) && NoStar(t) && x in t && Under(At(a, e), x)
    ensures var u := Prune(t, At(a, e), x);
      && At(a, e) in u && a in u && Wf(u) && NoStar(u)
      && Prune(t, a, x) == if Alive(u, At(a, e)) then u else RemoveLeaf(u, At(a, e))
    decreases x
  {
    hide Wf, NoStar, Alive, RemoveLeaf;
    var c := At(a, e);
    InRooted(t);
    WayIn(t, c, x);
    NotSelf(c);
    assert x != a by {
      if x == a {
        ChildNotUnder(a, e);
      }
    }
    if x == c {
      assert Prune(t, c, x) == t;
    } else if Alive(t, x) {
      WayAlive(t, c, x);
    } else {
      RemoveLeafGood(t, x);
      PruneThrough(RemoveLeaf(t, x), a, e, x.up);
    }
  }
}
