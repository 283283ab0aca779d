/** The mutable routing tree. A shape maps the addresses of a tree to its node objects; the
    methods keep the shape's invariant and change the trie it stands for exactly as the
    functions of `Rules`, `Pruning` and `Matching` say. */
module PathTree {
  import opened Options
  import opened Tokens
  import opened Tries
  import opened Rules

  type Shape = map<Addr, Path>

  /** A variable edge. */
  datatype Branch = Branch(name: string, toks: seq<Token>, next: Path)

  /** The fields of a node. */
  datatype Record = Record(segments: map<string, Path>, variables: seq<Branch>,
                           methods: map<string, Method>, methodAll: Option<Method>)

  const BLANK := Record(map[], [], map[], None)

  type Nodes = map<Addr, Record>

  function Vars(bs: seq<Branch>): (vs: seq<Variable>)
    ensures |vs| == |bs|
    ensures forall i :: 0 <= i < |bs| ==> vs[i] == Variable(bs[i].name, bs[i].toks)
  {
    seq(|bs|, i requires 0 <= i < |bs| => Variable(bs[i].name, bs[i].toks))
  }

  function InfoOf(f: Record): Info {
    Info(Vars(f.variables), f.methods, f.methodAll)
  }

  /** The trie that nodes stand for. */
  function TrieOf(n: Nodes): (t: Trie)
    ensures t.Keys == n.Keys
    ensures forall x :: x in n ==> t[x] == InfoOf(n[x])
  {
    map x | x in n :: InfoOf(n[x])
  }

  /** The first branch of a name. */
  function Lookup(bs: seq<Branch>, name: string): Option<Path> {
    if bs == [] then None
    else if bs[0].name == name then Some(bs[0].next)
    else Lookup(bs[1..], name)
  }

  function Next(f: Record, e: Edge): Option<Path> {
    match e
    case Lit(k) => if k in f.segments then Some(f.segments[k]) else None
    case Var(name) => Lookup(f.variables, name)
  }

  function NodeAt(s: Shape, x: Addr): Option<Path> {
    if x in s then Some(s[x]) else None
  }

  /** The edges of a node lead to its children in the shape. */
  ghost predicate Links(s: Shape, x: Addr, f: Record) {
    forall e {:trigger Next(f, e)} {:trigger At(x, e)} :: Next(f, e) == NodeAt(s, At(x, e))
  }

  /** A tree: every node is at its address, below another one and linked to its children. */
  ghost predicate Good(s: Shape, n: Nodes) {
    && s.Keys == n.Keys && Root in s
    && (forall x :: x in s ==> s[x].at == x)
    && (forall x, e {:trigger At(x, e)} :: At(x, e) in s ==> x in s)
    && (forall x {:trigger Links(s, x, n[x])} :: x in s ==> Links(s, x, n[x]))
  }

  ghost function Snapshot(s: Shape): (n: Nodes)
    reads s.Values
    ensures n.Keys == s.Keys
    ensures forall x :: x in s ==> n[x] == s[x].Fields()
  {
    map x | x in s :: s[x].Fields()
  }

  ghost predicate Tree(s: Shape)
    reads s.Values
  {
    Good(s, Snapshot(s))
  }

  ghost function Content(s: Shape): (t: Trie)
    reads s.Values
    ensures t.Keys == s.Keys
  {
    TrieOf(Snapshot(s))
  }

  /** `s'` is `s` with new objects at new addresses. */
  twostate predicate Grew(s: Shape, new s': Shape) {
    && s.Keys <= s'.Keys
    && (forall x :: x in s ==> s'[x] == s[x])
    && (forall x :: x in s' && x !in s ==> fresh(s'[x]))
  }

  /* ---- One more child ---- */

  lemma {:induction false} VarsInsert(bs: seq<Branch>, k: nat, b: Branch)
    requires k <= |bs|
    ensures Vars(bs[..k] + [b] + bs[k..]) == Vars(bs)[..k] + [Variable(b.name, b.toks)] + Vars(bs)[k..]
  {
  }

  lemma {:induction false} LookupInsert(bs: seq<Branch>, k: nat, b: Branch, name: string)
    requires k <= |bs| && Lookup(bs, b.name) == None
    ensures Lookup(bs[..k] + [b] + bs[k..], name) == if name == b.name then Some(b.next) else Lookup(bs, name)
  {
    var out := bs[..k] + [b] + bs[k..];
    if k == 0 {
      assert out[1..] == bs;
    } else {
      LookupInsert(bs[1..], k - 1, b, name);
      assert out[1..] == bs[1..][..k - 1] + [b] + bs[1..][k - 1..];
    }
  }

  /** Appending a branch and sorting the branches by name. */
  function WithBranch(bs: seq<Branch>, b: Branch): seq<Branch> {
    var k := Rank(Vars(bs), b.name);
    bs[..k] + [b] + bs[k..]
  }

  lemma {:induction false} BranchAdded(f: Record, b: Branch)
    requires Lookup(f.variables, b.name) == None
    ensures var g := f.(variables := WithBranch(f.variables, b));
      && (forall d :: Next(g, d) == if d == Var(b.name) then Some(b.next) else Next(f, d))
      && Vars(g.variables) == Insert(Vars(f.variables), Variable(b.name, b.toks))
  {
    var k := Rank(Vars(f.variables), b.name);
    VarsInsert(f.variables, k, b);
    forall name
      ensures Lookup(WithBranch(f.variables, b), name) ==
        if name == b.name then Some(b.next) else Lookup(f.variables, name)
    {
      LookupInsert(f.variables, k, b, name);
    }
  }

  /** The node `a` with the fields `f` has one more child, the new object `c`. */
  lemma {:induction false} NewChild(s: Shape, n: Nodes, a: Addr, e: Edge, f: Record, c: Path)
    requires Good(s, n) && a in s && At(a, e) !in s && c.at == At(a, e)
    requires forall d :: Next(f, d) == if d == e then Some(c) else Next(n[a], d)
    ensures Good(s[At(a, e) := c], n[a := f][At(a, e) := BLANK])
  {
    var child := At(a, e);
    var s', n' := s[child := c], n[a := f][child := BLANK];
    assert Links(s, a, n[a]);
    forall x | x in s' ensures Links(s', x, n'[x]) {
      if x == child {
        forall d ensures Next(n'[x], d) == NodeAt(s', At(x, d)) {
          assert At(child, d) !in s && At(child, d) != child;
        }
      } else if x != a {
        assert Links(s, x, n[x]);
      }
    }
  }

  lemma {:induction false} NewChildTrie(n: Nodes, a: Addr, step: Step, f: Record)
    requires a in n && At(a, EdgeOf(step)) !in n
    requires InfoOf(f) == Touch(TrieOf(n), a, step)[a]
    ensures TrieOf(n[a := f][At(a, EdgeOf(step)) := BLANK]) == Touch(TrieOf(n), a, step)
  {
    assert Vars([]) == [];
  }

  lemma {:induction false} VariableAdded(s: Shape, n: Nodes, a: Addr, toks: seq<Token>, c: Path)
    requires Good(s, n) && a in s && At(a, Var(Render(toks))) !in s && c.at == At(a, Var(Render(toks)))
    ensures var f := n[a].(variables := WithBranch(n[a].variables, Branch(Render(toks), toks, c)));
      var n' := n[a := f][c.at := BLANK];
      Good(s[c.at := c], n') && TrieOf(n') == Touch(TrieOf(n), a, VarStep(toks, []))
  {
    var f := n[a].(variables := WithBranch(n[a].variables, Branch(Render(toks), toks, c)));
    assert Links(s, a, n[a]);
    assert Next(n[a], Var(Render(toks))) == None;
    BranchAdded(n[a], Branch(Render(toks), toks, c));
    NewChild(s, n, a, Var(Render(toks)), f, c);
    NewChildTrie(n, a, VarStep(toks, []), f);
  }

  lemma {:induction false} PathAdded(s: Shape, n: Nodes, a: Addr, key: string, c: Path)
    requires Good(s, n) && a in s && At(a, Lit(key)) !in s && c.at == At(a, Lit(key))
    ensures var n' := n[a := n[a].(segments := n[a].segments[key := c])][c.at := BLANK];
      Good(s[c.at := c], n') && TrieOf(n') == Touch(TrieOf(n), a, LitStep(key))
  {
    var f := n[a].(segments := n[a].segments[key := c]);
    NewChild(s, n, a, Lit(key), f, c);
    NewChildTrie(n, a, LitStep(key), f);
  }

  /** Changing what a node holds, but not its edges. */
  lemma {:induction false} Relinked(s: Shape, n: Nodes, a: Addr, f: Record)
    requires Good(s, n) && a in s && forall e :: Next(f, e) == Next(n[a], e)
    ensures Good(s, n[a := f])
  {
    assert Links(s, a, n[a]);
    forall x | x in s ensures Links(s, x, n[a := f][x]) {
      assert Links(s, x, n[x]);
    }
  }

  function WithMethod(f: Record, verb: string, m: Method): Record {
    if verb == "*" then f.(methodAll := Some(m)) else f.(methods := f.methods[verb := m])
  }

  lemma {:induction false} RelinkedTrie(n: Nodes, a: Addr, verb: string, m: Method)
    requires a in n
    ensures TrieOf(n[a := WithMethod(n[a], verb, m)]) == SetBinding(TrieOf(n), a, verb, m)
  {
  }

  /** `n` is how the objects of `s` were; since then only the one at `a` has changed. */
  lemma {:induction false} Rewritten(s: Shape, n: Nodes, a: Addr)
    requires n.Keys == s.Keys && a in s && forall x :: x in s && x != a ==> s[x].Fields() == n[x]
    requires Good(s, n[a := s[a].Fields()])
    ensures Tree(s) && Content(s) == TrieOf(n[a := s[a].Fields()])
  {
    assert Snapshot(s) == n[a := s[a].Fields()];
  }

  lemma {:induction false} Extended(s: Shape, n: Nodes, a: Addr, c: Path)
    requires n.Keys == s.Keys && a in s && forall x :: x in s && x != a ==> s[x].Fields() == n[x]
    requires c.at !in s && c.Fields() == BLANK
    requires Good(s[c.at := c], n[a := s[a].Fields()][c.at := BLANK])
    ensures Tree(s[c.at := c]) && Content(s[c.at := c]) == TrieOf(n[a := s[a].Fields()][c.at := BLANK])
  {
    assert Snapshot(s[c.at := c]) == n[a := s[a].Fields()][c.at := BLANK];
  }

  /** The edges of a node lead to its children, and to all of them. */
  lemma {:induction false} Child(s: Shape, p: Path, e: Edge)
    requires Tree(s) && p.In(s)
    ensures Next(p.Fields(), e).Some? <==> At(p.at, e) in s
    ensures Next(p.Fields(), e).Some? ==>
      Next(p.Fields(), e).value.In(s) && Next(p.Fields(), e).value.at == At(p.at, e)
  {
    assert Links(s, p.at, Snapshot(s)[p.at]);
  }

  lemma {:induction false} HeldAt(s: Shape, p: Path)
    requires p.In(s)
    ensures Content(s)[p.at] == InfoOf(p.Fields())
  {
  }

  lemma {:induction false} TouchThere(t: Trie, a: Addr, step: Step)
    requires a in t && At(a, EdgeOf(step)) in t
    ensures Touch(t, a, step) == t
  {
  }

  lemma {:induction false} TreeIs(s: Shape)
    requires Tree(s)
    ensures Good(s, Snapshot(s)) && Content(s) == TrieOf(Snapshot(s))
    ensures forall x :: x in s ==> s[x].at == x
  {
  }

  class Path {
    var segments: map<string, Path>
    var methods: map<string, Method>
    var methodAll: Option<Method>
    var variables: seq<Branch>
    ghost const at: Addr

    ghost function Fields(): Record
      reads this
    {
      Record(segments, variables, methods, methodAll)
    }

    ghost predicate In(s: Shape)
    {
      at in s && s[at] == this
    }

    constructor (ghost at: Addr)
      ensures Fields() == BLANK && this.at == at
    {
      this.at := at;
      segments, methods, methodAll, variables := map[], map[], None, [];
    }

    method FindVariable(name: string) returns (i: nat)
      ensures i <= |variables|
      ensures i < |variables| ==> variables[i].name == name && Lookup(variables, name) == Some(variables[i].next)
      ensures i == |variables| ==> Lookup(variables, name) == None
    {
      i := 0;
      while i < |variables| && variables[i].name != name
        invariant i <= |variables|
        invariant Lookup(variables, name) == Lookup(variables[i..], name)
      {
        i := i + 1;
      }
    }

    /** Appending a variable with a new node and sorting. */
    method AppendVariable(ghost s: Shape, toks: seq<Token>) returns (next: Path)
      requires Tree(s) && In(s) && At(at, Var(Render(toks))) !in s
      modifies this
      ensures fresh(next) && next.at == At(at, Var(Render(toks)))
      ensures Tree(s[next.at := next])
      ensures Content(s[next.at := next]) == Touch(old(Content(s)), at, VarStep(toks, []))
    {
      hide Tree, Content, Good, Touch, WithBranch;
      TreeIs(s);
      ghost var n, t := Snapshot(s), Content(s);
      var name := Render(toks);
      next := new Path(At(at, Var(name)));
      VariableAdded(s, n, at, toks, next);
      variables := WithBranch(variables, Branch(name, toks, next));
      Extended(s, n, at, next);
      assert Content(s[next.at := next]) == Touch(t, at, VarStep(toks, []));
    }

    method AddVariable(ghost s: Shape, toks: seq<Token>) returns (next: Path, ghost s': Shape)
      requires Tree(s) && In(s)
      modifies this
      ensures Grew(s, s') && Tree(s')
      ensures Content(s') == Touch(old(Content(s)), at, VarStep(toks, []))
      ensures next.In(s') && next.at == At(at, Var(Render(toks)))
    {
      hide Tree, Content, Touch;
      Child(s, this, Var(Render(toks)));
      var i := FindVariable(Render(toks));
      if i < |variables| {
        TouchThere(Content(s), at, VarStep(toks, []));
        return variables[i].next, s;
      }
      next := AppendVariable(s, toks);
      s' := s[next.at := next];
    }

    /** A new node under a literal edge. */
    method NewPath(ghost s: Shape, key: string) returns (next: Path)
      requires Tree(s) && In(s) && At(at, Lit(key)) !in s
      modifies this
      ensures fresh(next) && next.at == At(at, Lit(key))
      ensures Tree(s[next.at := next])
      ensures Content(s[next.at := next]) == Touch(old(Content(s)), at, LitStep(key))
    {
      hide Tree, Content, Good, Touch;
      TreeIs(s);
      ghost var n, t := Snapshot(s), Content(s);
      next := new Path(At(at, Lit(key)));
      PathAdded(s, n, at, key, next);
      segments := segments[key := next];
      Extended(s, n, at, next);
      assert Content(s[next.at := next]) == Touch(t, at, LitStep(key));
    }

    method AddPath(ghost s: Shape, key: string) returns (next: Path, ghost s': Shape)
      requires Tree(s) && In(s)
      modifies this
      ensures Grew(s, s') && Tree(s')
      ensures Content(s') == Touch(old(Content(s)), at, LitStep(key))
      ensures next.In(s') && next.at == At(at, Lit(key))
    {
      hide Tree, Content, Touch;
      Child(s, this, Lit(key));
      if key in segments {
        TouchThere(Content(s), at, LitStep(key));
        return segments[key], s;
      }
      next := NewPath(s, key);
      s' := s[next.at := next];
    }

    /** The end of `addRule`: the method becomes the answer to a verb. */
    method Set(ghost s: Shape, verb: string, m: Method)
      requires Tree(s) && In(s)
      modifies this
      ensures Tree(s)
      ensures Content(s) == SetBinding(old(Content(s)), at, verb, m)
    {
      hide Tree, Content, Good, SetBinding;
      TreeIs(s);
      ghost var n := Snapshot(s);
      Relinked(s, n, at, WithMethod(n[at], verb, m));
      RelinkedTrie(n, at, verb, m);
      if verb == "*" {
        methodAll := Some(m);
      } else {
        methods := methods[verb := m];
      }
      Rewritten(s, n, at);
    }
  }
}
