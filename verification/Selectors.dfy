/** The selector trie of the service configuration, against the flat list of its rules. */
module Selectors {
  import opened Options
  import opened Rules

  datatype Entry = Entry(selector: string, rule: HttpRule)

  /* ---- Names and selectors as components ---- */

  /** `strings.Cut(s, ".")`, without the flag. */
  function Cut(s: string): (p: (string, string))
    ensures s != "" ==> |p.1| < |s|
  {
    if s == "" then ("", "")
    else if s[0] == '.' then ("", s[1..])
    else var p := Cut(s[1..]); ([s[0]] + p.0, p.1)
  }

  function Components(name: string): seq<string>
    decreases |name|
  {
    if name == "" then [] else [Cut(name).0] + Components(Cut(name).1)
  }

  /** The node at which `setRules` puts a rule; None when it panics. */
  function Place(selector: string): Option<seq<string>>
    decreases |selector|
  {
    var (tag, name) := Cut(selector);
    if tag == "*" then if name != "" then None else Some([])
    else if tag == "" then Some([])
    else
      match Place(name)
      case None => None
      case Some(p) => Some([tag] + p)
  }

  /* ---- The trie as a value ---- */

  /** The rules at each node. */
  type Table = map<seq<string>, seq<HttpRule>>

  function RulesAt(t: Table, x: seq<string>): seq<HttpRule> {
    if x in t then t[x] else []
  }

  ghost predicate PrefixClosed(t: Table) {
    [] in t && forall x: seq<string>, c: string {:trigger x + [c]} :: x + [c] in t ==> x in t
  }

  function WithNode(t: Table, x: seq<string>): Table {
    if x in t then t else t[x := []]
  }

  /** One rule at `x + parts`, with the nodes on the way. */
  function Plant(t: Table, x: seq<string>, parts: seq<string>, rule: HttpRule): Table
    requires x in t
    decreases |parts|
  {
    if parts == [] then t[x := t[x] + [rule]]
    else Plant(WithNode(t, x + [parts[0]]), x + [parts[0]], parts[1..], rule)
  }

  /** `getRules` from the node `x` on. */
  function Collect(t: Table, x: seq<string>, comps: seq<string>): seq<HttpRule>
    decreases |comps|
  {
    RulesAt(t, x) +
    if comps == [] || x + [comps[0]] !in t then [] else Collect(t, x + [comps[0]], comps[1..])
  }

  /* ---- The flat list ---- */

  /** The positions of the first `n` rules whose place is `x`, in their order. */
  function PositionsAt(es: seq<Entry>, n: nat, x: seq<string>): (ps: seq<nat>)
    requires n <= |es|
    ensures forall i :: 0 <= i < |ps| ==> ps[i] < n
  {
    if n == 0 then []
    else PositionsAt(es, n - 1, x) + if Place(es[n - 1].selector) == Some(x) then [n - 1] else []
  }

  /** The positions of the rules whose place starts with `x` and is a prefix of `x + comps`. */
  function Selected(es: seq<Entry>, x: seq<string>, comps: seq<string>): (ps: seq<nat>)
    ensures forall i :: 0 <= i < |ps| ==> ps[i] < |es|
    decreases |comps|
  {
    PositionsAt(es, |es|, x) + if comps == [] then [] else Selected(es, x + [comps[0]], comps[1..])
  }

  predicate Chosen(e: Entry, x: seq<string>, comps: seq<string>) {
    Place(e.selector).Some? && x <= Place(e.selector).value <= x + comps
  }

  /** Shorter places come first, then earlier positions. */
  predicate Before(es: seq<Entry>, i: nat, j: nat)
    requires i < |es| && j < |es| && Place(es[i].selector).Some? && Place(es[j].selector).Some?
  {
    var m, n := |Place(es[i].selector).value|, |Place(es[j].selector).value|;
    m < n || (m == n && i < j)
  }

  lemma {:induction false} PositionsExact(es: seq<Entry>, n: nat, x: seq<string>)
    requires n <= |es|
    ensures forall k: nat :: k in PositionsAt(es, n, x) <==> k < n && Place(es[k].selector) == Some(x)
    ensures forall i, j :: 0 <= i < j < |PositionsAt(es, n, x)| ==> PositionsAt(es, n, x)[i] < PositionsAt(es, n, x)[j]
  {
    if n > 0 {
      PositionsExact(es, n - 1, x);
    }
  }

  /** The selection is exactly the rules whose place is a prefix, in the stated order. */
  lemma {:induction false} SelectedExact(es: seq<Entry>, x: seq<string>, comps: seq<string>)
    ensures forall k: nat :: k in Selected(es, x, comps) <==> k < |es| && Chosen(es[k], x, comps)
    ensures Sorted(es, x, comps, Selected(es, x, comps))
    decreases |comps|
  {
    PositionsExact(es, |es|, x);
    var here := PositionsAt(es, |es|, x);
    if comps == [] {
      assert Selected(es, x, comps) == here;
      assert forall i :: 0 <= i < |here| ==> here[i] in here;
      forall e ensures Chosen(e, x, comps) <==> Place(e.selector) == Some(x) {
        PrefixNone(e, x);
      }
    } else {
      var y := x + [comps[0]];
      SelectedExact(es, y, comps[1..]);
      forall e ensures Chosen(e, x, comps) <==> Place(e.selector) == Some(x) || Chosen(e, y, comps[1..]) {
        PrefixStep(e, x, comps);
      }
      SelectedSorted(es, x, comps);
      forall k: nat ensures k in Selected(es, x, comps) <==> k < |es| && Chosen(es[k], x, comps) {
        InConcat(here, Selected(es, y, comps[1..]), k);
      }
    }
  }

  lemma {:induction false} InConcat<T>(a: seq<T>, b: seq<T>, v: T)
    ensures v in a + b <==> v in a || v in b
  {
  }

  lemma {:induction false} PrefixNone(e: Entry, x: seq<string>)
    ensures Chosen(e, x, []) <==> Place(e.selector) == Some(x)
  {
    assert x + [] == x;
    if Chosen(e, x, []) {
      var p := Place(e.selector).value;
      assert |p| == |x| && p == x[..|p|] == x;
    }
  }

  lemma {:induction false} SelectedSorted(es: seq<Entry>, x: seq<string>, comps: seq<string>)
    requires comps != []
    requires forall e :: Chosen(e, x, comps) <==> Place(e.selector) == Some(x) || Chosen(e, x + [comps[0]], comps[1..])
    requires var here := PositionsAt(es, |es|, x);
      && (forall k: nat :: k in here <==> k < |es| && Place(es[k].selector) == Some(x))
      && (forall i, j :: 0 <= i < j < |here| ==> here[i] < here[j])
    requires Sorted(es, x + [comps[0]], comps[1..], Selected(es, x + [comps[0]], comps[1..]))
    ensures Sorted(es, x, comps, Selected(es, x, comps))
  {
    var here, later := PositionsAt(es, |es|, x), Selected(es, x + [comps[0]], comps[1..]);
    assert Selected(es, x, comps) == here + later;
    hide Selected, PositionsAt, Place, Chosen, Before;
    forall i | 0 <= i < |here| ensures here[i] < |es| && Place(es[here[i]].selector) == Some(x) {
      assert here[i] in here;
    }
    ConcatSorted(es, x, comps, here, later);
  }

  /** What stands at a place comes before what stands below it. */
  lemma {:induction false} ConcatSorted(es: seq<Entry>, x: seq<string>, comps: seq<string>, here: seq<nat>,
                                        later: seq<nat>)
    requires comps != []
    requires forall e :: Chosen(e, x, comps) <==> Place(e.selector) == Some(x) || Chosen(e, x + [comps[0]], comps[1..])
    requires forall i :: 0 <= i < |here| ==> here[i] < |es| && Place(es[here[i]].selector) == Some(x)
    requires forall i, j :: 0 <= i < j < |here| ==> here[i] < here[j]
    requires Sorted(es, x + [comps[0]], comps[1..], later)
    ensures Sorted(es, x, comps, here + later)
  {
    hide Place, Chosen;
    var ps, y := here + later, x + [comps[0]];
    forall i | 0 <= i < |ps| ensures ps[i] < |es| && Chosen(es[ps[i]], x, comps) {
      if i >= |here| {
        assert ps[i] == later[i - |here|];
      }
    }
    forall i, j | 0 <= i < j < |ps| ensures Placed(es[ps[i]]) && Placed(es[ps[j]]) && Before(es, ps[i], ps[j]) {
      ChosenPlaced(es[ps[i]], x, comps);
      ChosenPlaced(es[ps[j]], x, comps);
      if i >= |here| {
        assert ps[i] == later[i - |here|] && ps[j] == later[j - |here|];
      } else if j >= |here| {
        assert ps[j] == later[j - |here|];
        ChosenPlaced(es[ps[j]], y, comps[1..]);
      }
    }
  }

  predicate Placed(e: Entry) {
    Place(e.selector).Some?
  }

  lemma {:induction false} ChosenPlaced(e: Entry, x: seq<string>, comps: seq<string>)
    requires Chosen(e, x, comps)
    ensures Placed(e) && |Place(e.selector).value| >= |x|
  {
  }

  /** Chosen positions in the stated order. */
  predicate Sorted(es: seq<Entry>, x: seq<string>, comps: seq<string>, ps: seq<nat>) {
    && (forall i :: 0 <= i < |ps| ==> ps[i] < |es| && Chosen(es[ps[i]], x, comps))
    && (forall i, j :: 0 <= i < j < |ps| ==> Before(es, ps[i], ps[j]))
  }

  lemma {:induction false} PrefixStep(e: Entry, x: seq<string>, comps: seq<string>)
    requires comps != []
    ensures Chosen(e, x, comps) <==> Place(e.selector) == Some(x) || Chosen(e, x + [comps[0]], comps[1..])
  {
    var y := x + [comps[0]];
    assert y + comps[1..] == x + comps;
    if Chosen(e, x, comps) && Place(e.selector) != Some(x) {
      var p := Place(e.selector).value;
      assert |p| == |x| ==> p == x;
      assert p[|x|] == (x + comps)[|x|];
      assert y <= p;
    }
  }

  /** The rules at some positions. */
  function RulesOf(es: seq<Entry>, ps: seq<nat>): (rs: seq<HttpRule>)
    requires forall i :: 0 <= i < |ps| ==> ps[i] < |es|
    ensures |rs| == |ps| && forall i :: 0 <= i < |ps| ==> rs[i] == es[ps[i]].rule
  {
    seq(|ps|, i requires 0 <= i < |ps| => es[ps[i]].rule)
  }

  /** The rules whose place is `x`, in their order. */
  function PlacedAt(es: seq<Entry>, x: seq<string>): seq<HttpRule> {
    RulesOf(es, PositionsAt(es, |es|, x))
  }

  /** The rules of the selection. */
  function Flat(es: seq<Entry>, x: seq<string>, comps: seq<string>): seq<HttpRule> {
    RulesOf(es, Selected(es, x, comps))
  }

  lemma {:induction false} FlatUnfold(es: seq<Entry>, x: seq<string>, comps: seq<string>)
    ensures Flat(es, x, comps) == PlacedAt(es, x) + if comps == [] then [] else Flat(es, x + [comps[0]], comps[1..])
  {
  }

  /** One more rule. */
  lemma {:induction false} PlacedMore(es: seq<Entry>, e: Entry, x: seq<string>)
    ensures PlacedAt(es + [e], x) == PlacedAt(es, x) + if Place(e.selector) == Some(x) then [e.rule] else []
  {
    PositionsMore(es, e, |es|, x);
    assert PositionsAt(es + [e], |es| + 1, x) ==
           PositionsAt(es, |es|, x) + if Place(e.selector) == Some(x) then [|es|] else [];
  }

  lemma {:induction false} PositionsMore(es: seq<Entry>, e: Entry, n: nat, x: seq<string>)
    requires n <= |es|
    ensures PositionsAt(es + [e], n, x) == PositionsAt(es, n, x)
  {
    if n > 0 {
      PositionsMore(es, e, n - 1, x);
    }
  }

  /** The trie holds each rule at its place. */
  ghost predicate Holds(t: Table, es: seq<Entry>) {
    PrefixClosed(t) && forall x :: RulesAt(t, x) == PlacedAt(es, x)
  }

  lemma {:induction false} ClosedWithNode(t: Table, x: seq<string>, c: string)
    requires PrefixClosed(t) && x in t
    ensures PrefixClosed(WithNode(t, x + [c]))
    ensures forall y :: RulesAt(WithNode(t, x + [c]), y) == RulesAt(t, y)
  {
    var u := WithNode(t, x + [c]);
    forall y: seq<string>, d: string {:trigger y + [d]} | y + [d] in u ensures y in u {
      if y + [d] == x + [c] {
        assert (y + [d])[..|y|] == y && (x + [c])[..|x|] == x;
      }
    }
  }

  lemma {:induction false} PutExact(t: Table, x: seq<string>, parts: seq<string>, rule: HttpRule)
    requires PrefixClosed(t) && x in t
    ensures PrefixClosed(Plant(t, x, parts, rule))
    ensures forall y :: RulesAt(Plant(t, x, parts, rule), y) == RulesAt(t, y) + if y == x + parts then [rule] else []
    decreases |parts|
  {
    if parts == [] {
      assert x + [] == x;
      var u := Plant(t, x, parts, rule);
      assert forall y :: y in u <==> y in t;
      forall y ensures RulesAt(u, y) == RulesAt(t, y) + if y == x + parts then [rule] else [] {
        assert RulesAt(t, y) + [] == RulesAt(t, y);
      }
    } else {
      ClosedWithNode(t, x, parts[0]);
      PutExact(WithNode(t, x + [parts[0]]), x + [parts[0]], parts[1..], rule);
      assert x + [parts[0]] + parts[1..] == x + parts;
    }
  }

  /** Below a missing node there are no rules. */
  lemma {:induction false} NothingBelow(t: Table, es: seq<Entry>, x: seq<string>, comps: seq<string>)
    requires Holds(t, es) && x !in t
    ensures Flat(es, x, comps) == []
    decreases |comps|
  {
    assert RulesAt(t, x) == PlacedAt(es, x);
    FlatUnfold(es, x, comps);
    if comps != [] {
      NothingBelow(t, es, x + [comps[0]], comps[1..]);
    }
  }

  /** The walk down the trie collects exactly the flat selection. */
  lemma {:induction false} CollectIsFlat(t: Table, es: seq<Entry>, x: seq<string>, comps: seq<string>)
    requires Holds(t, es)
    ensures Collect(t, x, comps) == Flat(es, x, comps)
    decreases |comps|
  {
    assert RulesAt(t, x) == PlacedAt(es, x);
    FlatUnfold(es, x, comps);
    if comps != [] {
      if x + [comps[0]] in t {
        CollectIsFlat(t, es, x + [comps[0]], comps[1..]);
      } else {
        NothingBelow(t, es, x + [comps[0]], comps[1..]);
      }
    }
  }

  /* ---- Well-formed selectors ---- */

  predicate GoodPart(c: string) {
    c != "" && c != "*" && forall i :: 0 <= i < |c| ==> c[i] != '.'
  }

  predicate GoodParts(parts: seq<string>) {
    forall i :: 0 <= i < |parts| ==> GoodPart(parts[i])
  }

  /** A selector: components, or components and a final `*`. */
  function SelectorText(parts: seq<string>, star: bool): string {
    if !star then Dotted(parts) else if parts == [] then "*" else Dotted(parts) + ".*"
  }

  lemma {:induction false} CutFirst(c: string, rest: string)
    requires forall i :: 0 <= i < |c| ==> c[i] != '.'
    ensures Cut(c + "." + rest) == (c, rest) && Cut(c) == (c, "")
  {
    if c == "" {
      assert c + "." + rest == "." + rest;
    } else {
      CutFirst(c[1..], rest);
      assert (c + "." + rest)[1..] == c[1..] + "." + rest;
      assert c == [c[0]] + c[1..];
    }
  }

  lemma {:induction false} ComponentsDotted(parts: seq<string>)
    requires GoodParts(parts)
    ensures Components(Dotted(parts)) == parts
  {
    if parts != [] {
      assert GoodPart(parts[0]);
      ComponentsDotted(parts[1..]);
      CutFirst(parts[0], Dotted(parts[1..]));
      assert parts == [parts[0]] + parts[1..];
    }
  }

  /** A well-formed selector selects what its components are a prefix of. */
  lemma {:induction false} PlaceOf(parts: seq<string>, star: bool)
    requires GoodParts(parts)
    ensures Place(SelectorText(parts, star)) == Some(parts)
  {
    if parts == [] {
      assert Cut("*") == ("*", "") by { CutFirst("*", ""); }
    } else {
      assert GoodPart(parts[0]);
      PlaceOf(parts[1..], star);
      var c, rest := parts[0], SelectorText(parts[1..], star);
      CutFirst(c, rest);
      if |parts| == 1 {
        assert parts[1..] == [];
        assert star ==> SelectorText(parts, star) == c + "." + rest;
      } else {
        assert SelectorText(parts, star) == c + "." + rest by {
          if star {
            assert c + "." + Dotted(parts[1..]) + ".*" == c + "." + (Dotted(parts[1..]) + ".*");
          }
        }
      }
      assert parts == [c] + parts[1..];
    }
  }

  /** A well-formed selector, with or without its final `*`, selects the names that its
      components are a prefix of. */
  lemma {:induction false} WellFormedChosen(e: Entry, parts: seq<string>, star: bool, q: seq<string>)
    requires GoodParts(parts) && GoodParts(q) && e.selector == SelectorText(parts, star)
    ensures Chosen(e, [], Components(Dotted(q))) <==> parts <= q
  {
    PlaceOf(parts, star);
    ComponentsDotted(q);
    assert [] + q == q;
  }

  /** What the source's comment promises: a final `*` stands for one or more components, and a
      selector without it is the whole name. */
  predicate Documented(parts: seq<string>, star: bool, q: seq<string>) {
    if star then parts < q else parts == q
  }

  /** The code keeps that promise if and only if the name is not the selector without its `*`,
      and not a longer name than a selector that has none. */
  lemma {:induction false} DocumentedIff(e: Entry, parts: seq<string>, star: bool, q: seq<string>)
    requires GoodParts(parts) && GoodParts(q) && e.selector == SelectorText(parts, star)
    ensures (Chosen(e, [], Components(Dotted(q))) <==> Documented(parts, star, q)) <==>
      !(parts <= q) || (star <==> |parts| < |q|)
  {
    WellFormedChosen(e, parts, star, q);
    assert parts <= q ==> (parts == q <==> |parts| == |q|);
  }
}
