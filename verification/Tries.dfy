/** The routing tree as a value: a finite map from addresses (the edges from the root) to
    what the node at that address holds. */
module Tries {
  import opened Options
  import opened Tokens

  /** `Lit` edges are keyed by separator and literal, `Var` edges by the pattern's text. */
  datatype Edge = Lit(key: string) | Var(name: string)

  datatype Addr = Root | At(up: Addr, edge: Edge)

  /** Field descriptors along a path; `[]` is Go's nil. */
  type FieldPath = seq<string>

  /** What routing needs of a method descriptor: its name and the field paths of its input. */
  datatype Desc = Desc(fullName: string, fields: map<seq<string>, FieldPath>)

  datatype Method = Method(desc: Desc, name: string, vars: seq<FieldPath>,
                           body: FieldPath, resp: FieldPath, hasBody: bool)

  datatype Variable = Variable(name: string, toks: seq<Token>)

  datatype Info = Info(vars: seq<Variable>, methods: map<string, Method>, methodAll: Option<Method>)

  const EMPTY := Info([], map[], None)

  type Trie = map<Addr, Info>

  /* ---- Order of variable names ---- */

  /** Go's string order. */
  predicate Less(a: string, b: string) {
    b != "" && (a == "" || a[0] < b[0] || (a[0] == b[0] && Less(a[1..], b[1..])))
  }

  lemma {:induction false} LessTotal(a: string, b: string)
    ensures Less(a, b) || a == b || Less(b, a)
    ensures !(Less(a, b) && Less(b, a)) && !Less(a, a)
  {
    if a != "" && b != "" {
      LessTotal(a[1..], b[1..]);
      if a[0] == b[0] && a[1..] == b[1..] {
        assert a == [a[0]] + a[1..] && b == [b[0]] + b[1..];
      }
    }
    if a != "" {
      LessTotal(a[1..], a[1..]);
    }
  }

  lemma {:induction false} LessTrans(a: string, b: string, c: string)
    requires Less(a, b) && Less(b, c)
    ensures Less(a, c)
  {
    if a != "" && a[0] == b[0] == c[0] {
      LessTrans(a[1..], b[1..], c[1..]);
    }
  }

  /** The first difference is at i, where `a` has the smaller character. */
  predicate SmallerAt(a: string, b: string, i: nat) {
    i < |a| && i < |b| && a[..i] == b[..i] && a[i] < b[i]
  }

  /** A proper prefix is less, and otherwise the first character that differs decides. */
  lemma {:induction false} LessIff(a: string, b: string)
    ensures Less(a, b) <==> a < b || exists i: nat :: SmallerAt(a, b, i)
  {
    if a == "" || b == "" {
      assert b == "" ==> !(a < b);
    } else {
      assert a == [a[0]] + a[1..] && b == [b[0]] + b[1..];
      LessIff(a[1..], b[1..]);
      if Less(a, b) {
        if a[0] < b[0] {
          assert SmallerAt(a, b, 0);
        } else if exists i: nat :: SmallerAt(a[1..], b[1..], i) {
          var i: nat :| SmallerAt(a[1..], b[1..], i);
          assert a[..i + 1] == [a[0]] + a[1..][..i] && b[..i + 1] == [b[0]] + b[1..][..i];
          assert SmallerAt(a, b, i + 1);
        }
      }
      if exists i: nat :: SmallerAt(a, b, i) {
        var i: nat :| SmallerAt(a, b, i);
        if i > 0 {
          assert a[..i][0] == b[..i][0];
          assert a[1..][..i - 1] == a[..i][1..] && b[1..][..i - 1] == b[..i][1..];
          assert SmallerAt(a[1..], b[1..], i - 1);
        }
      }
    }
  }

  predicate Sorted(vs: seq<Variable>) {
    forall i, j :: 0 <= i < j < |vs| ==> Less(vs[i].name, vs[j].name)
  }

  predicate HasVar(vs: seq<Variable>, name: string) {
    exists i :: 0 <= i < |vs| && vs[i].name == name
  }

  /** Where `v` goes in a sorted list that does not have its name. */
  function Rank(vs: seq<Variable>, name: string): (n: nat)
    ensures n <= |vs|
    ensures forall i :: 0 <= i < n ==> Less(vs[i].name, name)
    ensures n < |vs| ==> !Less(vs[n].name, name)
  {
    if vs == [] || !Less(vs[0].name, name) then 0 else 1 + Rank(vs[1..], name)
  }

  function Insert(vs: seq<Variable>, v: Variable): seq<Variable> {
    vs[..Rank(vs, v.name)] + [v] + vs[Rank(vs, v.name)..]
  }

  lemma {:induction false} RankSplits(vs: seq<Variable>, name: string)
    requires Sorted(vs) && !HasVar(vs, name)
    ensures forall i :: Rank(vs, name) <= i < |vs| ==> Less(name, vs[i].name)
  {
    var k := Rank(vs, name);
    forall i | k <= i < |vs| ensures Less(name, vs[i].name) {
      LessTotal(vs[k].name, name);
      if k < i {
        LessTrans(name, vs[k].name, vs[i].name);
      }
    }
  }

  /** Inserting is appending and sorting: the result is the sorted permutation. */
  lemma {:induction false} InsertSorts(vs: seq<Variable>, v: Variable)
    requires Sorted(vs) && !HasVar(vs, v.name)
    ensures Sorted(Insert(vs, v))
    ensures multiset(Insert(vs, v)) == multiset(vs + [v])
  {
    var k, out := Rank(vs, v.name), Insert(vs, v);
    RankSplits(vs, v.name);
    InsertAt(vs, v);
    forall i, j | 0 <= i < j < |out| ensures Less(out[i].name, out[j].name) {
      if i < k < j {
        LessTrans(vs[i].name, v.name, vs[j - 1].name);
      }
    }
    InsertPermutes(vs, v, k);
  }

  lemma {:induction false} InsertPermutes<T>(vs: seq<T>, v: T, k: nat)
    requires k <= |vs|
    ensures multiset(vs[..k] + [v] + vs[k..]) == multiset(vs + [v])
  {
    assert vs == vs[..k] + vs[k..];
    assert multiset(vs) == multiset(vs[..k]) + multiset(vs[k..]);
  }

  lemma {:induction false} InsertAt(vs: seq<Variable>, v: Variable)
    ensures |Insert(vs, v)| == |vs| + 1
    ensures var k := Rank(vs, v.name);
      forall i :: 0 <= i <= |vs| ==> Insert(vs, v)[i] == if i < k then vs[i] else if i == k then v else vs[i - 1]
  {
  }

  lemma {:induction false} InsertHas(vs: seq<Variable>, v: Variable, name: string)
    ensures HasVar(Insert(vs, v), name) <==> HasVar(vs, name) || name == v.name
  {
    InsertAt(vs, v);
    var k, out := Rank(vs, v.name), Insert(vs, v);
    assert out[k] == v;
    if HasVar(vs, name) {
      var i :| 0 <= i < |vs| && vs[i].name == name;
      assert out[if i < k then i else i + 1].name == name;
    }
  }

  lemma {:induction false} Inhabited<T>(s: seq<T>)
    ensures s != [] ==> exists v :: v in s
  {
    if s != [] {
      assert s[0] in s;
    }
  }

  /** A sorted list is determined by the variables in it. */
  lemma {:induction false} SortedUnique(a: seq<Variable>, b: seq<Variable>)
    requires Sorted(a) && Sorted(b)
    requires forall v :: v in a <==> v in b
    ensures a == b
  {
    if a == [] {
      Inhabited(b);
    } else {
      assert a[0] in b;
      var i :| 0 <= i < |b| && b[i] == a[0];
      assert b[0] in a;
      var j :| 0 <= j < |a| && a[j] == b[0];
      LessTotal(a[0].name, b[0].name);
      assert a[0] == b[0];
      forall v ensures v in a[1..] <==> v in b[1..] {
        LessTotal(a[0].name, a[0].name);
        if v in a[1..] {
          var p :| 0 <= p < |a[1..]| && a[1..][p] == v;
          assert Less(a[0].name, v.name) && a[p + 1] in b;
        }
        if v in b[1..] {
          var p :| 0 <= p < |b[1..]| && b[1..][p] == v;
          assert Less(b[0].name, v.name) && b[p + 1] in a;
        }
      }
      SortedUnique(a[1..], b[1..]);
      assert a == [a[0]] + a[1..] && b == [b[0]] + b[1..];
    }
  }

  /* ---- Addresses ---- */

  /** `x` is `a` or below it. */
  predicate Under(a: Addr, x: Addr)
    decreases x
  {
    x == a || (x.At? && Under(a, x.up))
  }

  /** The number of variable edges on the way to `x`. */
  function VarCount(x: Addr): nat {
    if x.Root? then 0 else VarCount(x.up) + (if x.edge.Var? then 1 else 0)
  }

  function Depth(x: Addr): nat {
    if x.Root? then 0 else Depth(x.up) + 1
  }

  lemma {:induction false} UnderDepth(a: Addr, x: Addr)
    requires Under(a, x)
    ensures Depth(a) <= Depth(x)
    ensures Depth(a) == Depth(x) ==> a == x
    decreases x
  {
    if x != a {
      UnderDepth(a, x.up);
    }
  }

  lemma {:induction false} UnderTrans(a: Addr, b: Addr, x: Addr)
    requires Under(a, b) && Under(b, x)
    ensures Under(a, x)
    decreases x
  {
    if x != b {
      UnderTrans(a, b, x.up);
    }
  }

  lemma {:induction false} RootUnder(x: Addr)
    ensures Under(Root, x)
  {
    if x.At? {
      RootUnder(x.up);
    }
  }

  /** Below two different children of a node there is no common address. */
  lemma {:induction false} UnderDisjoint(a: Addr, e: Edge, f: Edge, x: Addr)
    requires Under(At(a, e), x) && Under(At(a, f), x)
    ensures e == f
    decreases x
  {
    UnderDepth(At(a, e), x);
    UnderDepth(At(a, f), x);
    if x != At(a, e) && x != At(a, f) {
      UnderDisjoint(a, e, f, x.up);
    } else if x == At(a, e) && x != At(a, f) {
      UnderDepth(At(a, f), a);
    } else if x == At(a, f) && x != At(a, e) {
      UnderDepth(At(a, e), a);
    }
  }

  /* ---- Well-formed tries ---- */

  /** Every node hangs off another one. */
  ghost predicate Rooted(t: Trie) {
    Root in t && forall x, e :: At(x, e) in t ==> x in t
  }

  lemma {:induction false} UpIn(t: Trie, x: Addr)
    requires Rooted(t) && x in t && x.At?
    ensures x.up in t
  {
    assert x == At(x.up, x.edge);
  }

  /** Variables are sorted by name, named by their tokens, and there is one per variable edge. */
  ghost predicate GoodVars(t: Trie, x: Addr)
    requires x in t
  {
    && Sorted(t[x].vars)
    && (forall i :: 0 <= i < |t[x].vars| ==> t[x].vars[i].name == Render(t[x].vars[i].toks))
    && (forall n :: At(x, Var(n)) in t <==> HasVar(t[x].vars, n))
  }

  /** Each method at a node has one entry in `vars` per variable edge from the root. */
  ghost predicate Aligned(t: Trie, x: Addr)
    requires x in t
  {
    && (forall verb :: verb in t[x].methods ==> |t[x].methods[verb].vars| == VarCount(x))
    && (t[x].methodAll.Some? ==> |t[x].methodAll.value.vars| == VarCount(x))
  }

  ghost predicate Wf(t: Trie) {
    Rooted(t) && forall x :: x in t ==> GoodVars(t, x) && Aligned(t, x)
  }

  /** The method a node answers a verb with. */
  function MethodAt(info: Info, verb: string): Option<Method> {
    if verb in info.methods then Some(info.methods[verb]) else info.methodAll
  }
}
