/** `path.clone`: a fresh tree with the content of the original. */
module PathCopy {
  import opened Options
  import opened Tokens
  import opened Tries
  import opened Pruning
  import opened PathTree
  import opened PathSearch

  /** `f` has new nodes, with the fields `m`, for the addresses of `s` from `a` down, and they
      hold what the nodes of `s` hold. */
  ghost predicate Copies(s: Shape, n: Nodes, a: Addr, f: Shape, m: Nodes) {
    && f.Keys == m.Keys && s.Keys == n.Keys
    && (forall x :: x in f <==> x in s && Under(a, x))
    && Mirrors(s, n, f, m)
  }

  ghost predicate Mirrors(s: Shape, n: Nodes, f: Shape, m: Nodes)
    requires f.Keys == m.Keys && s.Keys == n.Keys
  {
    && (forall x :: x in f ==> x in s && f[x].at == x)
    && (forall x {:trigger InfoOf(m[x])} :: x in f ==> InfoOf(m[x]) == InfoOf(n[x]))
    && (forall x {:trigger Links(f, x, m[x])} :: x in f ==> Links(f, x, m[x]))
  }

  /** The children of `a` along the edges in `done` are copied into `f`, and `r` links to them. */
  ghost predicate Sown(s: Shape, n: Nodes, a: Addr, f: Shape, m: Nodes, done: set<Edge>, r: Record) {
    && f.Keys == m.Keys && s.Keys == n.Keys
    && (forall x :: x in f <==> x in s && Below(a, done, x))
    && Mirrors(s, n, f, m)
    && (forall e {:trigger Next(r, e)} :: Next(r, e) == if e in done then NodeAt(f, At(a, e)) else None)
  }

  ghost predicate Below(a: Addr, done: set<Edge>, x: Addr) {
    exists e :: e in done && Under(At(a, e), x)
  }

  lemma {:induction false} BelowMore(a: Addr, done: set<Edge>, e: Edge, x: Addr)
    ensures Below(a, done + {e}, x) <==> Below(a, done, x) || Under(At(a, e), x)
  {
    if Below(a, done, x) {
      var d :| d in done && Under(At(a, d), x);
      assert d in done + {e};
    }
    if Under(At(a, e), x) {
      assert e in done + {e};
    }
  }

  /** Two copies side by side do not see each other. */
  lemma {:induction false} Apart(s: Shape, a: Addr, done: set<Edge>, e: Edge, x: Addr)
    requires e !in done
    ensures !(Below(a, done, x) && Under(At(a, e), x))
    ensures forall d :: Below(a, done, x) ==> !Under(At(a, e), At(x, d))
    ensures forall d :: Under(At(a, e), x) ==> !Below(a, done, At(x, d))
  {
    if Below(a, done, x) && Under(At(a, e), x) {
      var d :| d in done && Under(At(a, d), x);
      UnderDisjoint(a, d, e, x);
    }
    forall d | Below(a, done, x) ensures !Under(At(a, e), At(x, d)) {
      var c :| c in done && Under(At(a, c), x);
      if Under(At(a, e), At(x, d)) {
        if At(x, d) == At(a, e) {
          ChildNotUnder(a, c);
        } else {
          UnderDisjoint(a, c, e, x);
        }
      }
    }
    forall d | Under(At(a, e), x) ensures !Below(a, done, At(x, d)) {
      if Below(a, done, At(x, d)) {
        var c :| c in done && Under(At(a, c), At(x, d));
        if At(x, d) == At(a, c) {
          ChildNotUnder(a, e);
        } else {
          UnderDisjoint(a, c, e, x);
        }
      }
    }
  }

  lemma {:induction false} JoinedMirrors(s: Shape, n: Nodes, a: Addr, f: Shape, m: Nodes, done: set<Edge>, e: Edge,
                                         g: Shape, k: Nodes)
    requires f.Keys == m.Keys && g.Keys == k.Keys && s.Keys == n.Keys && e !in done
    requires forall x :: x in f ==> Below(a, done, x)
    requires forall x :: x in g ==> Under(At(a, e), x)
    requires Mirrors(s, n, f, m) && Mirrors(s, n, g, k)
    ensures Mirrors(s, n, f + g, m + k)
  {
    forall x | x in f + g ensures Links(f + g, x, (m + k)[x]) && InfoOf((m + k)[x]) == InfoOf(n[x]) {
      Apart(s, a, done, e, x);
      if x in g {
        assert Links(g, x, k[x]) && InfoOf(k[x]) == InfoOf(n[x]);
      } else {
        assert Links(f, x, m[x]) && InfoOf(m[x]) == InfoOf(n[x]);
      }
    }
  }

  lemma {:induction false} Sow(s: Shape, n: Nodes, a: Addr, f: Shape, m: Nodes, done: set<Edge>, r: Record,
                               e: Edge, g: Shape, k: Nodes, r': Record)
    requires Sown(s, n, a, f, m, done, r) && e !in done && At(a, e) in s && Copies(s, n, At(a, e), g, k)
    requires forall d :: Next(r', d) == if d == e then Some(g[At(a, e)]) else Next(r, d)
    ensures Sown(s, n, a, f + g, m + k, done + {e}, r')
  {
    JoinedMirrors(s, n, a, f, m, done, e, g, k);
    forall x ensures x in f + g <==> x in s && Below(a, done + {e}, x) {
      BelowMore(a, done, e, x);
    }
    forall d ensures Next(r', d) == if d in done + {e} then NodeAt(f + g, At(a, d)) else None {
      if d in done {
        Apart(s, a, done, e, At(a, d));
        assert Below(a, done, At(a, d));
      }
    }
  }

  /** Below `a` there is `a` itself, and what is below its children. */
  lemma {:induction false} UnderSplit(s: Shape, n: Nodes, a: Addr, x: Addr) returns (e: Edge)
    requires Good(s, n) && a in s && x in s && Under(a, x) && x != a
    ensures At(a, e) in s && Under(At(a, e), x)
    decreases x
  {
    assert At(x.up, x.edge) == x;
    if x.up == a {
      e := x.edge;
    } else {
      e := UnderSplit(s, n, a, x.up);
    }
  }

  lemma {:induction false} NotBelow(a: Addr, done: set<Edge>)
    ensures !Below(a, done, a)
    ensures forall x, e {:trigger At(x, e)} :: Below(a, done, x) ==> At(x, e) != a
  {
    if Below(a, done, a) {
      var e :| e in done && Under(At(a, e), a);
      ChildNotUnder(a, e);
    }
    forall x, e {:trigger At(x, e)} | Below(a, done, x) ensures At(x, e) != a {
      var d :| d in done && Under(At(a, d), x);
      UnderTrans(a, At(a, d), x);
      if At(x, e) == a {
        ChildNotUnder(x, e);
      }
    }
  }

  lemma {:induction false} ReapedKeys(s: Shape, n: Nodes, a: Addr, done: set<Edge>, x: Addr)
    requires Good(s, n) && a in s && x in s
    requires forall e :: e in done <==> At(a, e) in s
    ensures Under(a, x) <==> x == a || Below(a, done, x)
  {
    if Below(a, done, x) {
      var e :| e in done && Under(At(a, e), x);
      UnderTrans(a, At(a, e), x);
    }
    if Under(a, x) && x != a {
      var e := UnderSplit(s, n, a, x);
      assert e in done;
    }
  }

  lemma {:induction false} ReapedLinks(s: Shape, n: Nodes, a: Addr, f: Shape, m: Nodes, done: set<Edge>, r: Record,
                                       c: Path)
    requires Sown(s, n, a, f, m, done, r)
    requires forall e :: e in done <==> At(a, e) in s
    ensures forall x {:trigger Links(f[a := c], x, m[a := r][x])} :: x in f[a := c] ==>
      Links(f[a := c], x, m[a := r][x])
  {
    hide InfoOf;
    var f', m' := f[a := c], m[a := r];
    NotBelow(a, done);
    forall x | x in f' ensures Links(f', x, m'[x]) {
      if x == a {
        forall e ensures Next(r, e) == NodeAt(f', At(a, e)) {
          NotSelf(At(a, e));
          assert At(a, e) in f ==> e in done;
        }
      } else {
        assert Links(f, x, m[x]);
        assert Below(a, done, x);
      }
    }
  }

  /** With all children copied, the new node at `a` completes the copy. */
  lemma {:induction false} Reaped(s: Shape, n: Nodes, a: Addr, f: Shape, m: Nodes, done: set<Edge>, r: Record, c: Path)
    requires Good(s, n) && a in s && c.at == a
    requires Sown(s, n, a, f, m, done, r) && InfoOf(r) == InfoOf(n[a])
    requires forall e :: e in done <==> At(a, e) in s
    ensures Copies(s, n, a, f[a := c], m[a := r])
  {
    hide Links, Good, Under, Below, InfoOf;
    var f', m' := f[a := c], m[a := r];
    ReapedLinks(s, n, a, f, m, done, r, c);
    forall x ensures x in f' <==> x in s && Under(a, x) {
      if x in s {
        ReapedKeys(s, n, a, done, x);
      }
    }
    forall x | x in f' ensures InfoOf(m'[x]) == InfoOf(n[x]) {
      if x != a {
        assert InfoOf(m[x]) == InfoOf(n[x]);
      }
    }
  }

  /* ---- The recursion ---- */

  ghost function Subtree(s: Shape, a: Addr): set<Addr> {
    set x | x in s && Under(a, x)
  }

  lemma {:induction false} Smaller(s: Shape, a: Addr, e: Edge)
    requires a in s
    ensures Subtree(s, At(a, e)) < Subtree(s, a)
  {
    ChildNotUnder(a, e);
    assert Under(a, a) && a in Subtree(s, a) && a !in Subtree(s, At(a, e));
    forall x | x in Subtree(s, At(a, e)) ensures x in Subtree(s, a) {
      assert Under(a, At(a, e));
      UnderTrans(a, At(a, e), x);
    }
  }

  lemma {:induction false} Merged(f: Shape, g: Shape)
    ensures Snapshot(f + g) == Snapshot(f) + Snapshot(g)
  {
  }

  lemma {:induction false} SownNone(s: Shape, a: Addr)
    ensures Sown(s, Snapshot(s), a, map[], Snapshot(map[]), {}, BLANK)
  {
    assert Snapshot(map[]) == map[];
  }

  twostate predicate New(new f: Shape) {
    forall x :: x in f ==> fresh(f[x])
  }

  /** A record with one more edge. */
  function Attach(r: Record, e: Edge, toks: seq<Token>, sub: Path): Record {
    match e
    case Lit(k) => r.(segments := r.segments[k := sub])
    case Var(name) => r.(variables := r.variables + [Branch(name, toks, sub)])
  }

  lemma {:induction false} LookupAppend(bs: seq<Branch>, b: Branch, name: string)
    ensures Lookup(bs + [b], name) ==
            if Lookup(bs, name) == None && name == b.name then Some(b.next) else Lookup(bs, name)
  {
    if bs != [] {
      assert (bs + [b])[1..] == bs[1..] + [b];
      LookupAppend(bs[1..], b, name);
    }
  }

  lemma {:induction false} AttachNext(r: Record, e: Edge, toks: seq<Token>, sub: Path, d: Edge)
    requires Next(r, e) == None
    ensures Next(Attach(r, e, toks, sub), d) == if d == e then Some(sub) else Next(r, d)
  {
    if e.Var? && d.Var? {
      LookupAppend(r.variables, Branch(e.name, toks, sub), d.name);
    }
  }

  /** One more child is copied and linked. */
  lemma {:induction false} Sows(s: Shape, n: Nodes, a: Addr, f: Shape, done: set<Edge>, r: Record, e: Edge,
                                toks: seq<Token>, g: Shape, sub: Path)
    requires Sown(s, n, a, f, Snapshot(f), done, r) && e !in done && At(a, e) in s
    requires Copies(s, n, At(a, e), g, Snapshot(g)) && NodeAt(g, At(a, e)) == Some(sub)
    ensures Sown(s, n, a, f + g, Snapshot(f + g), done + {e}, Attach(r, e, toks, sub))
  {
    hide Copies, Attach;
    Merged(f, g);
    assert Next(r, e) == None;
    forall d ensures Next(Attach(r, e, toks, sub), d) == if d == e then Some(sub) else Next(r, d) {
      AttachNext(r, e, toks, sub, d);
    }
    hide Sown, Next;
    Sow(s, n, a, f, Snapshot(f), done, r, e, g, Snapshot(g), Attach(r, e, toks, sub));
  }

  method CloneChild(ghost s: Shape, ghost p: Path, ghost e: Edge, child: Path, ghost toks: seq<Token>,
                    ghost f: Shape, ghost done: set<Edge>, ghost r: Record) returns (sub: Path, ghost g: Shape)
    requires Tree(s) && p.In(s) && Wf(Content(s))
    requires child.In(s) && child.at == At(p.at, e) && e !in done
    requires Sown(s, Snapshot(s), p.at, f, Snapshot(f), done, r)
    ensures New(g)
    ensures Sown(s, Snapshot(s), p.at, f + g, Snapshot(f + g), done + {e}, Attach(r, e, toks, sub))
    decreases Subtree(s, p.at), 0
  {
    hide Tree, Content, Wf, Sown, Copies, Under, Attach;
    Smaller(s, p.at, e);
    sub, g := Clone(s, child);
    Sows(s, Snapshot(s), p.at, f, done, r, e, toks, g, sub);
  }

  /** The literal edges of the keys that are not in `todo`. */
  function LitEdges(keys: set<string>, todo: set<string>): set<Edge> {
    set k | k in keys && k !in todo :: Lit(k)
  }

  lemma {:induction false} LitEdgesMore(keys: set<string>, todo: set<string>, k: string)
    requires k in todo && todo <= keys
    ensures LitEdges(keys, todo) + {Lit(k)} == LitEdges(keys, todo - {k}) && Lit(k) !in LitEdges(keys, todo)
  {
  }

  lemma {:induction false} NoEdges(keys: set<string>)
    ensures LitEdges(keys, keys) == {}
  {
  }

  /** The loop over the literal edges; a map has no order. */
  method CloneSegments(ghost s: Shape, p: Path) returns (segs: map<string, Path>, ghost f: Shape)
    requires Tree(s) && p.In(s) && Wf(Content(s))
    ensures New(f)
    ensures Sown(s, Snapshot(s), p.at, f, Snapshot(f), LitEdges(p.segments.Keys, {}), BLANK.(segments := segs))
    decreases Subtree(s, p.at), 1
  {
    hide Tree, Content, Wf, Sown, Under, LitEdges, Next;
    f, segs := map[], map[];
    var todo := p.segments.Keys;
    ghost var n, keys := Snapshot(s), todo;
    SownNone(s, p.at);
    NoEdges(keys);
    while todo != {}
      invariant todo <= keys && n == Snapshot(s) && New(f)
      invariant Sown(s, n, p.at, f, Snapshot(f), LitEdges(keys, todo), BLANK.(segments := segs))
      decreases todo
    {
      var k :| k in todo;
      Child(s, p, Lit(k));
      LitChild(p, k);
      LitEdgesMore(keys, todo, k);
      var sub;
      ghost var g;
      sub, g := CloneChild(s, p, Lit(k), p.segments[k], [], f, LitEdges(keys, todo), BLANK.(segments := segs));
      segs, f, todo := segs[k := sub], f + g, todo - {k};
    }
  }

  lemma {:induction false} LitChild(p: Path, k: string)
    requires k in p.segments
    ensures Next(p.Fields(), Lit(k)) == Some(p.segments[k])
  {
  }

  /** All literal edges and the edges of the first `i` variables. */
  function EdgesTo(keys: set<string>, vars: seq<Variable>, i: nat): set<Edge>
    requires i <= |vars|
  {
    LitEdges(keys, {}) + set j | 0 <= j < i :: Var(vars[j].name)
  }

  lemma {:induction false} EdgesMore(keys: set<string>, vars: seq<Variable>, i: nat)
    requires i < |vars| && Sorted(vars)
    ensures EdgesTo(keys, vars, i) + {Var(vars[i].name)} == EdgesTo(keys, vars, i + 1)
    ensures Var(vars[i].name) !in EdgesTo(keys, vars, i)
  {
    forall j | 0 <= j < i ensures vars[j].name != vars[i].name {
      LessTotal(vars[j].name, vars[i].name);
    }
  }

  /** `bs` copies the names and tokens of the first `i` branches of `cs`. */
  predicate Named(bs: seq<Branch>, cs: seq<Branch>, i: nat) {
    |bs| == i <= |cs| && forall j :: 0 <= j < i ==> bs[j].name == cs[j].name && bs[j].toks == cs[j].toks
  }

  lemma {:induction false} NamedAll(bs: seq<Branch>, cs: seq<Branch>)
    requires Named(bs, cs, |cs|)
    ensures Vars(bs) == Vars(cs)
  {
  }

  lemma {:induction false} NamedMore(bs: seq<Branch>, cs: seq<Branch>, i: nat, sub: Path)
    requires Named(bs, cs, i) && i < |cs|
    ensures Named(bs + [Branch(cs[i].name, cs[i].toks, sub)], cs, i + 1)
  {
  }

  /** The objects of `f` are those of `f0` or new. */
  twostate predicate Newer(f0: Shape, new f: Shape) {
    forall x :: x in f ==> f[x] in f0.Values || fresh(f[x])
  }

  method CloneVariable(ghost s: Shape, p: Path, i: nat, ghost segs: map<string, Path>, ghost vars: seq<Branch>,
                       ghost f: Shape)
    returns (sub: Path, ghost g: Shape)
    requires Tree(s) && p.In(s) && Wf(Content(s)) && i < |p.variables|
    requires Sown(s, Snapshot(s), p.at, f, Snapshot(f), EdgesTo(p.segments.Keys, Vars(p.variables), i),
      Record(segs, vars, map[], None))
    ensures New(g)
    ensures var v := p.variables[i];
      Sown(s, Snapshot(s), p.at, f + g, Snapshot(f + g), EdgesTo(p.segments.Keys, Vars(p.variables), i + 1),
           Record(segs, vars + [Branch(v.name, v.toks, sub)], map[], None))
    decreases Subtree(s, p.at), 1
  {
    hide Tree, Content, Wf, Sown, Under, LitEdges, EdgesTo, Subtree, Next;
    var v := p.variables[i];
    ghost var keys, vs := p.segments.Keys, Vars(p.variables);
    Branches(s, p, i);
    SortedAt(s, p);
    EdgesMore(keys, vs, i);
    sub, g := CloneChild(s, p, Var(v.name), v.next, v.toks, f, EdgesTo(keys, vs, i), Record(segs, vars, map[], None));
  }

  /** The loop over the variables, in their order. */
  method CloneVariables(ghost s: Shape, p: Path, segs: map<string, Path>, ghost f0: Shape)
    returns (vars: seq<Branch>, ghost f: Shape)
    requires Tree(s) && p.In(s) && Wf(Content(s))
    requires Sown(s, Snapshot(s), p.at, f0, Snapshot(f0), LitEdges(p.segments.Keys, {}), BLANK.(segments := segs))
    ensures Newer(f0, f) && Vars(vars) == Vars(p.variables)
    ensures Sown(s, Snapshot(s), p.at, f, Snapshot(f),
                 EdgesTo(p.segments.Keys, Vars(p.variables), |p.variables|), Record(segs, vars, map[], None))
    decreases Subtree(s, p.at), 2
  {
    hide Tree, Content, Wf, Sown, Under, LitEdges, Next, EdgesTo, Named, Subtree;
    f, vars := f0, [];
    ghost var n, keys, vs := Snapshot(s), p.segments.Keys, Vars(p.variables);
    SortedAt(s, p);
    EdgesStart(keys, vs);
    NamedNone(p.variables);
    var i := 0;
    while i < |p.variables|
      invariant i <= |p.variables| && n == Snapshot(s) && Newer(f0, f)
      invariant Named(vars, p.variables, i)
      invariant Sown(s, n, p.at, f, Snapshot(f), EdgesTo(keys, vs, i), Record(segs, vars, map[], None))
    {
      var sub;
      ghost var g;
      sub, g := CloneVariable(s, p, i, segs, vars, f);
      NamedMore(vars, p.variables, i, sub);
      assert Newer(f0, f + g) by {
        forall x | x in f + g ensures (f + g)[x] in f0.Values || fresh((f + g)[x]) {
          assert x in g ==> (f + g)[x] == g[x];
          assert x !in g ==> (f + g)[x] == f[x];
        }
      }
      vars, f, i := vars + [Branch(p.variables[i].name, p.variables[i].toks, sub)], f + g, i + 1;
    }
    NamedAll(vars, p.variables);
  }

  lemma {:induction false} NamedNone(cs: seq<Branch>)
    ensures Named([], cs, 0)
  {
  }

  lemma {:induction false} EdgesStart(keys: set<string>, vars: seq<Variable>)
    ensures EdgesTo(keys, vars, 0) == LitEdges(keys, {})
  {
  }

  lemma {:induction false} SortedAt(s: Shape, p: Path)
    requires p.In(s) && Wf(Content(s))
    ensures Sorted(Vars(p.variables))
  {
    HeldAt(s, p);
    assert GoodVars(Content(s), p.at);
  }

  /** All edges are covered by the two loops. */
  lemma {:induction false} AllEdges(s: Shape, p: Path, e: Edge)
    requires Tree(s) && p.In(s)
    ensures e in EdgesTo(p.segments.Keys, Vars(p.variables), |p.variables|) <==> At(p.at, e) in s
  {
    Child(s, p, e);
    if e.Var? {
      LookupSome(p.variables, e.name);
    }
  }

  lemma {:induction false} LookupSome(bs: seq<Branch>, name: string)
    ensures Lookup(bs, name).Some? <==> exists j :: 0 <= j < |bs| && bs[j].name == name
  {
    if bs != [] {
      LookupSome(bs[1..], name);
      if bs[0].name != name && Lookup(bs[1..], name).Some? {
        var j :| 0 <= j < |bs[1..]| && bs[1..][j].name == name;
        assert bs[j + 1].name == name;
      }
      if j: nat :| 0 < j < |bs| && bs[j].name == name {
        assert bs[1..][j - 1].name == name;
      }
    }
  }

  lemma {:induction false} Finish(s: Shape, p: Path, f: Shape, r: Record, c: Path)
    requires Tree(s) && p.In(s) && c.at == p.at && c !in f.Values && c.Fields() == r
    requires r.methods == p.methods && r.methodAll == p.methodAll && Vars(r.variables) == Vars(p.variables)
    requires Sown(s, Snapshot(s), p.at, f, Snapshot(f), EdgesTo(p.segments.Keys, Vars(p.variables), |p.variables|), r)
    ensures Copies(s, Snapshot(s), p.at, f[p.at := c], Snapshot(f[p.at := c]))
  {
    hide Sown, Copies, EdgesTo;
    forall e ensures e in EdgesTo(p.segments.Keys, Vars(p.variables), |p.variables|) <==> At(p.at, e) in s {
      AllEdges(s, p, e);
    }
    Reaped(s, Snapshot(s), p.at, f, Snapshot(f), EdgesTo(p.segments.Keys, Vars(p.variables), |p.variables|), r, c);
    assert Snapshot(f[p.at := c]) == Snapshot(f)[p.at := r];
  }

  /** The methods of a record play no role in copying its children. */
  lemma {:induction false} WithMethods(s: Shape, n: Nodes, a: Addr, f: Shape, m: Nodes, done: set<Edge>, r: Record,
                                       r': Record)
    requires Sown(s, n, a, f, m, done, r) && r'.segments == r.segments && r'.variables == r.variables
    ensures Sown(s, n, a, f, m, done, r')
  {
    assert forall e :: Next(r', e) == Next(r, e);
  }

  method NewNode(ghost a: Addr, segs: map<string, Path>, vars: seq<Branch>, methods: map<string, Method>,
                 methodAll: Option<Method>)
    returns (c: Path)
    ensures fresh(c) && c.at == a && c.Fields() == Record(segs, vars, methods, methodAll)
  {
    c := new Path(a);
    c.segments, c.variables, c.methods, c.methodAll := segs, vars, methods, methodAll;
  }

  /** `path.clone`: new nodes at the same addresses, with the same content. */
  method Clone(ghost s: Shape, p: Path) returns (c: Path, ghost f: Shape)
    requires Tree(s) && p.In(s) && Wf(Content(s))
    ensures New(f) && c.at == p.at && NodeAt(f, p.at) == Some(c)
    ensures Copies(s, Snapshot(s), p.at, f, Snapshot(f))
    decreases Subtree(s, p.at)
  {
    hide Tree, Content, Wf, Sown, Copies, EdgesTo;
    var segs, vars;
    ghost var f0;
    segs, f0 := CloneSegments(s, p);
    vars, f := CloneVariables(s, p, segs, f0);
    ghost var done := EdgesTo(p.segments.Keys, Vars(p.variables), |p.variables|);
    WithMethods(s, Snapshot(s), p.at, f, Snapshot(f), done, Record(segs, vars, map[], None),
                Record(segs, vars, p.methods, p.methodAll));
    c := NewNode(p.at, segs, vars, p.methods, p.methodAll);
    Finish(s, p, f, Record(segs, vars, p.methods, p.methodAll), c);
    f := f[p.at := c];
  }

  /** A copy from the root down is a tree with the same content. */
  lemma {:induction false} CopyIsTree(s: Shape, f: Shape)
    requires Tree(s) && Copies(s, Snapshot(s), Root, f, Snapshot(f))
    ensures Tree(f) && Content(f) == Content(s)
  {
    hide Links, InfoOf;
    var n, m := Snapshot(s), Snapshot(f);
    forall x ensures x in f <==> x in s {
      RootUnder(x);
    }
    SameInfo(n, m, s, f);
  }

  lemma {:induction false} SameInfo(n: Nodes, m: Nodes, s: Shape, f: Shape)
    requires s.Keys == n.Keys && f.Keys == m.Keys && n.Keys == m.Keys && Mirrors(s, n, f, m)
    ensures TrieOf(m) == TrieOf(n)
  {
    hide Links;
    forall x | x in m ensures TrieOf(m)[x] == TrieOf(n)[x] {
      assert InfoOf(m[x]) == InfoOf(n[x]);
    }
  }

  /** Cloning a whole tree: new objects only, and the same content. */
  method CloneTree(ghost s: Shape, root: Path) returns (c: Path, ghost f: Shape)
    requires Tree(s) && root.In(s) && root.at == Root && Wf(Content(s))
    ensures New(f) && Tree(f) && c.In(f) && c.at == Root
    ensures Content(f) == Content(s)
  {
    hide Copies, Tree, Content, Wf;
    c, f := Clone(s, root);
    CopyIsTree(s, f);
  }
}
