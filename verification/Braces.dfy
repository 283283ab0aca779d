/** The brace scanner that frames JSON objects, and the JSON texts it is meant for. */
module Braces {
  import opened Streams

  const OPEN_BRACE: Byte := 0x7B
  const CLOSE_BRACE: Byte := 0x7D
  const QUOTE: Byte := 0x22
  const BACKSLASH: Byte := 0x5C
  const OPEN_BRACKET: Byte := 0x5B
  const CLOSE_BRACKET: Byte := 0x5D
  const COMMA: Byte := 0x2C
  const COLON: Byte := 0x3A

  /** The variables of the scanner's loop. */
  datatype Scan = Scan(depth: int, isString: bool, isEscaped: bool)

  const START := Scan(0, false, false)

  datatype Move = On(s: Scan) | Done | Bad

  /** One byte. */
  function Step(s: Scan, c: Byte): Move {
    if s.isEscaped then On(s.(isEscaped := false))
    else if s.isString then
      On(if c == BACKSLASH then s.(isEscaped := true) else if c == QUOTE then s.(isString := false) else s)
    else if c == OPEN_BRACE then On(s.(depth := s.depth + 1))
    else if c == CLOSE_BRACE then
      if s.depth == 1 then Done else if s.depth < 1 then Bad else On(s.(depth := s.depth - 1))
    else if c == QUOTE then On(s.(isString := true))
    else On(s)
  }

  /** `Object(n)`: the first `n` bytes are a frame; `Short`: all bytes are scanned and no
      frame has ended. */
  datatype Scanned = Object(n: nat) | Short | NotBalanced | OverLimit

  /** The scan from state `s`, with `n` bytes behind and `data` ahead. */
  function ScanFrom(data: Bytes, s: Scan, n: nat, limit: int): (r: Scanned)
    ensures r.Object? ==> n < r.n <= n + |data| && r.n <= limit
    ensures r.Short? ==> n + |data| < limit
    decreases |data|
  {
    if n >= limit then OverLimit
    else if data == [] then Short
    else
      match Step(s, data[0])
      case Done => Object(n + 1)
      case Bad => NotBalanced
      case On(s') => ScanFrom(data[1..], s', n + 1, limit)
  }

  /* ---- JSON texts ---- */

  /** A character of a string: anything but a quote or a backslash, raw braces included, or
      a backslash with what it escapes. */
  datatype Item = Plain(c: Byte) | Escape(c: Byte)

  datatype Json =
    | Atom(text: Bytes)                                  // a number, true, false or null
    | Text(items: seq<Item>)
    | Array(gap: Bytes, elems: seq<Json>)
    | Obj(gap: Bytes, members: seq<Member>)
    | Padded(before: Bytes, value: Json, after: Bytes)   // white space around a value

  datatype Member = Member(before: Bytes, key: seq<Item>, after: Bytes, value: Json)

  predicate White(b: Bytes) {
    forall i :: 0 <= i < |b| ==> b[i] == 0x20 || b[i] == 0x09 || b[i] == 0x0A || b[i] == 0x0D
  }

  predicate IsStructural(c: Byte) {
    c == OPEN_BRACE || c == CLOSE_BRACE || c == QUOTE
  }

  predicate GoodItem(x: Item) {
    x.Plain? ==> x.c != QUOTE && x.c != BACKSLASH
  }

  predicate GoodItems(items: seq<Item>) {
    forall i :: 0 <= i < |items| ==> GoodItem(items[i])
  }

  predicate Good(v: Json)
    decreases v, 0
  {
    match v
    case Atom(t) => forall i :: 0 <= i < |t| ==> !IsStructural(t[i])
    case Text(items) => GoodItems(items)
    case Array(gap, elems) => White(gap) && GoodElems(elems)
    case Obj(gap, members) => White(gap) && GoodMembers(members)
    case Padded(before, x, after) => White(before) && White(after) && Good(x)
  }

  predicate GoodElems(vs: seq<Json>)
    decreases vs, 0
  {
    vs != [] ==> Good(vs[0]) && GoodElems(vs[1..])
  }

  predicate GoodMembers(ms: seq<Member>)
    decreases ms, 0
  {
    ms != [] ==> GoodMember(ms[0]) && GoodMembers(ms[1..])
  }

  predicate GoodMember(m: Member)
    decreases m, 0
  {
    White(m.before) && GoodItems(m.key) && White(m.after) && Good(m.value)
  }

  /* ---- Printing, each text followed by a given continuation ---- */

  function PrintItems(items: seq<Item>, k: Bytes): Bytes {
    if items == [] then [QUOTE] + k
    else
      match items[0]
      case Plain(c) => [c] + PrintItems(items[1..], k)
      case Escape(c) => [BACKSLASH] + ([c] + PrintItems(items[1..], k))
  }

  function PrintText(items: seq<Item>, k: Bytes): Bytes {
    [QUOTE] + PrintItems(items, k)
  }

  function Print(v: Json, k: Bytes): Bytes
    decreases v, 1
  {
    match v
    case Atom(t) => t + k
    case Text(items) => PrintText(items, k)
    case Array(gap, elems) => [OPEN_BRACKET] + (gap + PrintElems(elems, [CLOSE_BRACKET] + k))
    case Obj(gap, members) => [OPEN_BRACE] + (gap + PrintMembers(members, [CLOSE_BRACE] + k))
    case Padded(before, x, after) => before + Print(x, after + k)
  }

  function PrintElems(vs: seq<Json>, k: Bytes): Bytes
    decreases vs, 0
  {
    if vs == [] then k
    else if |vs| == 1 then Print(vs[0], k)
    else Print(vs[0], [COMMA] + PrintElems(vs[1..], k))
  }

  function PrintMembers(ms: seq<Member>, k: Bytes): Bytes
    decreases ms, 0
  {
    if ms == [] then k
    else if |ms| == 1 then PrintMember(ms[0], k)
    else PrintMember(ms[0], [COMMA] + PrintMembers(ms[1..], k))
  }

  function PrintMember(m: Member, k: Bytes): Bytes
    decreases m, 2
  {
    m.before + PrintText(m.key, m.after + ([COLON] + Print(m.value, k)))
  }

  /* ---- The scanner over printed texts ---- */

  /** The scanner goes from the front of `a` in state `s` to the front of its suffix `k` in
      state `s'`, unless the limit stops it. */
  ghost predicate Leads(a: Bytes, s: Scan, k: Bytes, s': Scan, n: nat, limit: int) {
    && |k| <= |a|
    && ScanFrom(a, s, n, limit) ==
         if n + |a| - |k| <= limit then ScanFrom(k, s', n + |a| - |k|, limit) else OverLimit
  }

  /** Inside an object and outside strings. */
  predicate Inside(s: Scan) {
    s.depth >= 1 && !s.isString && !s.isEscaped
  }

  lemma {:induction false} AtLimit(k: Bytes, s: Scan, n: nat, limit: int)
    ensures n >= limit ==> ScanFrom(k, s, n, limit) == OverLimit
  {
  }

  lemma {:induction false} LeadByte(c: Byte, k: Bytes, s: Scan, n: nat, limit: int)
    requires Step(s, c).On?
    ensures Leads([c] + k, s, k, Step(s, c).s, n, limit)
  {
    assert ([c] + k)[1..] == k;
    AtLimit(k, Step(s, c).s, n + 1, limit);
  }

  lemma {:induction false} LeadNone(k: Bytes, s: Scan, n: nat, limit: int)
    ensures Leads(k, s, k, s, n, limit)
  {
    AtLimit(k, s, n, limit);
  }

  lemma {:induction false} LeadThen(a: Bytes, s: Scan, b: Bytes, s': Scan, c: Bytes, s'': Scan, n: nat, limit: int)
    requires Leads(a, s, b, s', n, limit)
    requires |b| <= |a| ==> Leads(b, s', c, s'', n + |a| - |b|, limit)
    ensures Leads(a, s, c, s'', n, limit)
  {
  }

  lemma {:induction false} LeadBytes(t: Bytes, k: Bytes, s: Scan, n: nat, limit: int)
    requires !s.isString && !s.isEscaped && forall i :: 0 <= i < |t| ==> !IsStructural(t[i])
    ensures Leads(t + k, s, k, s, n, limit)
    decreases |t|
  {
    if t == [] {
      assert t + k == k;
      LeadNone(k, s, n, limit);
    } else {
      assert t + k == [t[0]] + (t[1..] + k);
      LeadByte(t[0], t[1..] + k, s, n, limit);
      LeadBytes(t[1..], k, s, n + 1, limit);
      LeadThen(t + k, s, t[1..] + k, s, k, s, n, limit);
    }
  }

  /** One step, then the rest. */
  lemma {:induction false} LeadCons(c: Byte, b: Bytes, s: Scan, k: Bytes, s': Scan, n: nat, limit: int)
    requires Step(s, c).On? && Leads(b, Step(s, c).s, k, s', n + 1, limit)
    ensures Leads([c] + b, s, k, s', n, limit)
  {
    LeadByte(c, b, s, n, limit);
    LeadThen([c] + b, s, b, Step(s, c).s, k, s', n, limit);
  }

  lemma {:induction false} LeadItems(items: seq<Item>, k: Bytes, s: Scan, n: nat, limit: int)
    requires GoodItems(items) && !s.isString && !s.isEscaped
    ensures Leads(PrintItems(items, k), s.(isString := true), k, s, n, limit)
    decreases |items|
  {
    var q := s.(isString := true);
    if items == [] {
      LeadByte(QUOTE, k, q, n, limit);
    } else {
      var rest := PrintItems(items[1..], k);
      match items[0] {
        case Plain(c) =>
          LeadItems(items[1..], k, s, n + 1, limit);
          LeadCons(c, rest, q, k, s, n, limit);
        case Escape(c) =>
          LeadItems(items[1..], k, s, n + 2, limit);
          LeadCons(c, rest, q.(isEscaped := true), k, s, n + 1, limit);
          LeadCons(BACKSLASH, [c] + rest, q, k, s, n, limit);
      }
    }
  }

  lemma {:induction false} LeadText(items: seq<Item>, k: Bytes, s: Scan, n: nat, limit: int)
    requires GoodItems(items) && !s.isString && !s.isEscaped
    ensures Leads(PrintText(items, k), s, k, s, n, limit)
  {
    LeadItems(items, k, s, n + 1, limit);
    LeadCons(QUOTE, PrintItems(items, k), s, k, s, n, limit);
  }

  /** Bytes without structure in front of a text. */
  lemma {:induction false} LeadAfter(t: Bytes, b: Bytes, k: Bytes, s: Scan, n: nat, limit: int)
    requires Inside(s) && forall i :: 0 <= i < |t| ==> !IsStructural(t[i])
    requires Leads(b, s, k, s, n + |t|, limit)
    ensures Leads(t + b, s, k, s, n, limit)
  {
    LeadBytes(t, b, s, n, limit);
    LeadThen(t + b, s, b, s, k, s, n, limit);
  }

  lemma {:induction false} PrintGrows(v: Json, k: Bytes)
    ensures |Print(v, k)| >= |k|
    decreases v, 1
  {
    match v {
      case Atom(_) =>
      case Text(items) => ItemsGrow(items, k);
      case Array(_, elems) => ElemsGrow(elems, [CLOSE_BRACKET] + k);
      case Obj(_, members) => MembersGrow(members, [CLOSE_BRACE] + k);
      case Padded(_, x, after) => PrintGrows(x, after + k);
    }
  }

  lemma {:induction false} ItemsGrow(items: seq<Item>, k: Bytes)
    ensures |PrintItems(items, k)| > |k|
  {
    if items != [] {
      ItemsGrow(items[1..], k);
    }
  }

  lemma {:induction false} ElemsGrow(vs: seq<Json>, k: Bytes)
    ensures |PrintElems(vs, k)| >= |k|
    decreases vs, 0
  {
    if |vs| == 1 {
      PrintGrows(vs[0], k);
    } else if |vs| > 1 {
      ElemsGrow(vs[1..], k);
      PrintGrows(vs[0], [COMMA] + PrintElems(vs[1..], k));
    }
  }

  lemma {:induction false} MembersGrow(ms: seq<Member>, k: Bytes)
    ensures |PrintMembers(ms, k)| >= |k|
    decreases ms, 0
  {
    if |ms| == 1 {
      MemberGrows(ms[0], k);
    } else if |ms| > 1 {
      MembersGrow(ms[1..], k);
      MemberGrows(ms[0], [COMMA] + PrintMembers(ms[1..], k));
    }
  }

  lemma {:induction false} MemberGrows(m: Member, k: Bytes)
    ensures |PrintMember(m, k)| >= |k|
    decreases m, 2
  {
    PrintGrows(m.value, k);
    ItemsGrow(m.key, m.after + ([COLON] + Print(m.value, k)));
  }

  /** A nested value leaves the scanner as it was. */
  lemma {:induction false} LeadValue(v: Json, k: Bytes, s: Scan, n: nat, limit: int)
    requires Good(v) && Inside(s)
    ensures Leads(Print(v, k), s, k, s, n, limit)
    decreases v, 1
  {
    match v {
      case Atom(t) => LeadBytes(t, k, s, n, limit);
      case Text(items) => LeadText(items, k, s, n, limit);
      case Array(gap, elems) => LeadArray(gap, elems, k, s, n, limit);
      case Obj(gap, members) => LeadObj(gap, members, k, s, n, limit);
      case Padded(before, x, after) =>
        PrintGrows(x, after + k);
        LeadBytes(after, k, s, n + |before| + |Print(x, after + k)| - |after + k|, limit);
        LeadValue(x, after + k, s, n + |before|, limit);
        LeadThen(Print(x, after + k), s, after + k, s, k, s, n + |before|, limit);
        LeadAfter(before, Print(x, after + k), k, s, n, limit);
    }
  }

  lemma {:induction false} LeadArray(gap: Bytes, elems: seq<Json>, k: Bytes, s: Scan, n: nat, limit: int)
    requires White(gap) && GoodElems(elems) && Inside(s)
    ensures Leads(Print(Array(gap, elems), k), s, k, s, n, limit)
    decreases elems, 1
  {
    var close := [CLOSE_BRACKET] + k;
    var body := PrintElems(elems, close);
    ElemsGrow(elems, close);
    LeadElems(elems, close, s, n + 1 + |gap|, limit);
    LeadByte(CLOSE_BRACKET, k, s, n + 1 + |gap| + |body| - |close|, limit);
    LeadThen(body, s, close, s, k, s, n + 1 + |gap|, limit);
    LeadAfter(gap, body, k, s, n + 1, limit);
    LeadCons(OPEN_BRACKET, gap + body, s, k, s, n, limit);
  }

  lemma {:induction false} LeadElems(vs: seq<Json>, k: Bytes, s: Scan, n: nat, limit: int)
    requires GoodElems(vs) && Inside(s)
    ensures Leads(PrintElems(vs, k), s, k, s, n, limit)
    decreases vs, 0
  {
    if vs == [] {
      LeadNone(k, s, n, limit);
    } else if |vs| == 1 {
      LeadValue(vs[0], k, s, n, limit);
    } else {
      var rest := PrintElems(vs[1..], k);
      var a := Print(vs[0], [COMMA] + rest);
      PrintGrows(vs[0], [COMMA] + rest);
      LeadValue(vs[0], [COMMA] + rest, s, n, limit);
      var m := n + |a| - |rest|;
      LeadElems(vs[1..], k, s, m, limit);
      LeadCons(COMMA, rest, s, k, s, m - 1, limit);
      LeadThen(a, s, [COMMA] + rest, s, k, s, n, limit);
    }
  }

  /** The part of an object after its opening brace, up to its closing one. */
  lemma {:induction false} LeadBody(gap: Bytes, members: seq<Member>, close: Bytes, s: Scan, n: nat, limit: int)
    requires White(gap) && GoodMembers(members) && Inside(s)
    ensures Leads(gap + PrintMembers(members, close), s, close, s, n, limit)
    decreases members, 1
  {
    LeadMembers(members, close, s, n + |gap|, limit);
    LeadAfter(gap, PrintMembers(members, close), close, s, n, limit);
  }

  lemma {:induction false} LeadObj(gap: Bytes, members: seq<Member>, k: Bytes, s: Scan, n: nat, limit: int)
    requires White(gap) && GoodMembers(members) && Inside(s)
    ensures Leads(Print(Obj(gap, members), k), s, k, s, n, limit)
    decreases members, 2
  {
    var close, t := [CLOSE_BRACE] + k, s.(depth := s.depth + 1);
    var body := gap + PrintMembers(members, close);
    MembersGrow(members, close);
    LeadBody(gap, members, close, t, n + 1, limit);
    LeadByte(CLOSE_BRACE, k, t, n + 1 + |body| - |close|, limit);
    LeadThen(body, t, close, t, k, s, n + 1, limit);
    LeadCons(OPEN_BRACE, body, s, k, s, n, limit);
  }

  lemma {:induction false} LeadMembers(ms: seq<Member>, k: Bytes, s: Scan, n: nat, limit: int)
    requires GoodMembers(ms) && Inside(s)
    ensures Leads(PrintMembers(ms, k), s, k, s, n, limit)
    decreases ms, 0
  {
    if ms == [] {
      LeadNone(k, s, n, limit);
    } else if |ms| == 1 {
      LeadMember(ms[0], k, s, n, limit);
    } else {
      var rest := PrintMembers(ms[1..], k);
      var a := PrintMember(ms[0], [COMMA] + rest);
      MemberGrows(ms[0], [COMMA] + rest);
      LeadMember(ms[0], [COMMA] + rest, s, n, limit);
      var m := n + |a| - |rest|;
      LeadMembers(ms[1..], k, s, m, limit);
      LeadCons(COMMA, rest, s, k, s, m - 1, limit);
      LeadThen(a, s, [COMMA] + rest, s, k, s, n, limit);
    }
  }

  lemma {:induction false} LeadMember(m: Member, k: Bytes, s: Scan, n: nat, limit: int)
    requires GoodMember(m) && Inside(s)
    ensures Leads(PrintMember(m, k), s, k, s, n, limit)
    decreases m, 2
  {
    var value := Print(m.value, k);
    var rest := m.after + ([COLON] + value);
    ItemsGrow(m.key, rest);
    PrintGrows(m.value, k);
    var at := n + |m.before| + |PrintText(m.key, rest)| - |rest|;
    LeadValue(m.value, k, s, at + |m.after| + 1, limit);
    LeadCons(COLON, value, s, k, s, at + |m.after|, limit);
    LeadAfter(m.after, [COLON] + value, k, s, at, limit);
    LeadText(m.key, rest, s, n + |m.before|, limit);
    LeadThen(PrintText(m.key, rest), s, rest, s, k, s, n + |m.before|, limit);
    LeadAfter(m.before, PrintText(m.key, rest), k, s, n, limit);
  }

  /* ---- Printing appends ---- */

  lemma {:induction false} PrintAppends(v: Json, k: Bytes)
    ensures Print(v, k) == Print(v, []) + k
    decreases v, 1
  {
    match v {
      case Atom(t) => assert t + [] == t;
      case Text(items) => ItemsAppend(items, k);
      case Array(gap, elems) =>
        ElemsAppend(elems, [CLOSE_BRACKET] + k);
        ElemsAppend(elems, [CLOSE_BRACKET] + []);
        Regroup(OPEN_BRACKET, gap, PrintElems(elems, []), CLOSE_BRACKET, k);
      case Obj(gap, members) =>
        MembersAppend(members, [CLOSE_BRACE] + k);
        MembersAppend(members, [CLOSE_BRACE] + []);
        Regroup(OPEN_BRACE, gap, PrintMembers(members, []), CLOSE_BRACE, k);
      case Padded(before, x, after) =>
        PrintAppends(x, after + k);
        PrintAppends(x, after + []);
        Assoc(before, Print(x, []), after, k);
    }
  }

  lemma {:induction false} Regroup(c: Byte, gap: Bytes, t: Bytes, d: Byte, k: Bytes)
    ensures [c] + (gap + (t + ([d] + k))) == [c] + (gap + (t + ([d] + []))) + k
  {
  }

  lemma {:induction false} Assoc(a: Bytes, b: Bytes, c: Bytes, k: Bytes)
    ensures a + (b + (c + k)) == a + (b + (c + [])) + k
  {
  }

  lemma {:induction false} ItemsAppend(items: seq<Item>, k: Bytes)
    ensures PrintItems(items, k) == PrintItems(items, []) + k
  {
    if items != [] {
      ItemsAppend(items[1..], k);
    }
  }

  lemma {:induction false} ElemsAppend(vs: seq<Json>, k: Bytes)
    ensures PrintElems(vs, k) == PrintElems(vs, []) + k
    decreases vs, 0
  {
    if |vs| == 1 {
      PrintAppends(vs[0], k);
    } else if |vs| > 1 {
      ElemsAppend(vs[1..], k);
      PrintAppends(vs[0], [COMMA] + PrintElems(vs[1..], k));
      PrintAppends(vs[0], [COMMA] + PrintElems(vs[1..], []));
      var a, b := Print(vs[0], []), PrintElems(vs[1..], []);
      assert a + ([COMMA] + (b + k)) == a + ([COMMA] + b) + k;
    }
  }

  lemma {:induction false} MembersAppend(ms: seq<Member>, k: Bytes)
    ensures PrintMembers(ms, k) == PrintMembers(ms, []) + k
    decreases ms, 0
  {
    if |ms| == 1 {
      MemberAppends(ms[0], k);
    } else if |ms| > 1 {
      MembersAppend(ms[1..], k);
      MemberAppends(ms[0], [COMMA] + PrintMembers(ms[1..], k));
      MemberAppends(ms[0], [COMMA] + PrintMembers(ms[1..], []));
      var a, b := PrintMember(ms[0], []), PrintMembers(ms[1..], []);
      assert a + ([COMMA] + (b + k)) == a + ([COMMA] + b) + k;
    }
  }

  lemma {:induction false} MemberAppends(m: Member, k: Bytes)
    ensures PrintMember(m, k) == PrintMember(m, []) + k
    decreases m, 2
  {
    var value := Print(m.value, []);
    PrintAppends(m.value, k);
    ItemsAppend(m.key, m.after + ([COLON] + Print(m.value, k)));
    ItemsAppend(m.key, m.after + ([COLON] + value));
    var key := PrintItems(m.key, []);
    assert m.before + ([QUOTE] + (key + (m.after + ([COLON] + (value + k))))) ==
           m.before + ([QUOTE] + (key + (m.after + ([COLON] + value)))) + k;
  }

  /* ---- Frames ---- */

  /** An object text, possibly after white space. */
  datatype Document = Document(before: Bytes, value: Json)

  predicate GoodDocument(d: Document) {
    White(d.before) && Good(d.value) && d.value.Obj?
  }

  function TextOf(d: Document): Bytes {
    d.before + Print(d.value, [])
  }

  /** The scanner run on an object followed by any bytes stops exactly at its last byte, or
      at the limit if the text is longer. */
  lemma {:induction false} ObjectFrame(d: Document, k: Bytes, limit: int)
    requires GoodDocument(d)
    ensures |TextOf(d)| > 0
    ensures ScanFrom(TextOf(d) + k, START, 0, limit) == if |TextOf(d)| <= limit then Object(|TextOf(d)|) else OverLimit
  {
    hide ScanFrom, Good, White, GoodMembers, PrintMembers;
    var v := d.value;
    ObjectParts(d);
    var close, t := [CLOSE_BRACE] + k, START.(depth := 1);
    var body := v.gap + PrintMembers(v.members, close);
    var text := [OPEN_BRACE] + body;
    MembersGrow(v.members, close);
    LeadBody(v.gap, v.members, close, t, |d.before| + 1, limit);
    LeadCons(OPEN_BRACE, body, START, close, t, |d.before|, limit);
    LeadBytes(d.before, text, START, 0, limit);
    LeadThen(d.before + text, START, text, START, close, t, 0, limit);
    PrintAppends(v, k);
    assert TextOf(d) + k == d.before + Print(v, k);
    CloseFrame(close, t, |d.before| + 1 + |body| - |close|, limit);
  }

  lemma {:induction false} ObjectParts(d: Document)
    requires GoodDocument(d)
    ensures White(d.value.gap) && GoodMembers(d.value.members)
    ensures forall i :: 0 <= i < |d.before| ==> !IsStructural(d.before[i])
  {
  }

  /** The brace that closes the outermost object. */
  lemma {:induction false} CloseFrame(close: Bytes, t: Scan, n: nat, limit: int)
    requires close != [] && close[0] == CLOSE_BRACE && t == Scan(1, false, false)
    ensures ScanFrom(close, t, n, limit) == if n + 1 <= limit then Object(n + 1) else OverLimit
  {
  }

  /* ---- Other endings ---- */

  /** The scanner does not stop before the end of what it accepts. */
  lemma {:induction false} ScanCut(data: Bytes, s: Scan, n: nat, limit: int, k: nat)
    requires ScanFrom(data, s, n, limit).Object? && k < ScanFrom(data, s, n, limit).n - n
    ensures ScanFrom(data[..k], s, n, limit) == Short
    decreases k
  {
    if k > 0 {
      var s' := Step(s, data[0]).s;
      assert data[..k][1..] == data[1..][..k - 1];
      ScanCut(data[1..], s', n + 1, limit, k - 1);
    }
  }

  /** On a proper front of an object the scanner wants more, or is at the limit. */
  lemma {:induction false} CutObject(d: Document, k: nat, limit: int)
    requires GoodDocument(d) && k < |TextOf(d)|
    ensures ScanFrom(TextOf(d)[..k], START, 0, limit) == if k < limit then Short else OverLimit
  {
    hide Good, TextOf;
    var text := TextOf(d);
    ObjectFrame(d, [], |text|);
    assert text + [] == text;
    ScanCut(text, START, 0, |text|, k);
    ShortLimit(text[..k], START, 0, |text|, limit);
  }

  /** Where the scanner wants more, the limit matters only when it is reached. */
  lemma {:induction false} ShortLimit(data: Bytes, s: Scan, n: nat, limit: int, other: int)
    requires ScanFrom(data, s, n, limit) == Short
    ensures ScanFrom(data, s, n, other) == if n + |data| < other then Short else OverLimit
    decreases |data|
  {
    if data != [] && n < other {
      ShortLimit(data[1..], Step(s, data[0]).s, n + 1, limit, other);
    }
  }

  /** A closing brace without an opening one. */
  lemma {:induction false} StrayBrace(before: Bytes, k: Bytes, limit: int)
    requires (forall i :: 0 <= i < |before| ==> !IsStructural(before[i])) && |before| < limit
    ensures ScanFrom(before + ([CLOSE_BRACE] + k), START, 0, limit) == NotBalanced
  {
    StrayAfter(before, k, 0, limit);
  }

  lemma {:induction false} StrayAfter(before: Bytes, k: Bytes, n: nat, limit: int)
    requires (forall i :: 0 <= i < |before| ==> !IsStructural(before[i])) && n + |before| < limit
    ensures ScanFrom(before + ([CLOSE_BRACE] + k), START, n, limit) == NotBalanced
    decreases |before|
  {
    if before == [] {
      assert before + ([CLOSE_BRACE] + k) == [CLOSE_BRACE] + k;
    } else {
      assert (before + ([CLOSE_BRACE] + k))[1..] == before[1..] + ([CLOSE_BRACE] + k);
      StrayAfter(before[1..], k, n + 1, limit);
    }
  }

  /* ---- ASCII ---- */

  predicate IsAscii(text: string) {
    forall i :: 0 <= i < |text| ==> text[i] < 128 as char
  }

  function Ascii(text: string): (b: Bytes)
    requires IsAscii(text)
    ensures |b| == |text|
  {
    seq(|text|, i requires 0 <= i < |text| => text[i] as int)
  }

  /** An object that has an escaped quote and a brace in a string, and a list: the scanner stops
      behind it. */
  lemma {:induction false} ObjectText(k: Bytes)
    ensures var text := Ascii("{\"a\":[\"\\\"}\",1]}");
      ScanFrom(text + k, START, 0, |text|) == Object(|text|)
  {
    var text := Ascii("{\"a\":[\"\\\"}\",1]}");
    hide ScanFrom, Good, Print, PrintMember, PrintMembers, PrintItems, Step, GoodMember, GoodMembers;
    var quoted, tail := [Escape(0x22), Plain(0x7D)], [CLOSE_BRACKET] + [CLOSE_BRACE];
    var member := Member([], [Plain(0x61)], [], Array([], [Text(quoted), Atom([0x31])]));
    var d := Document([], Obj([], [member]));
    ObjectPrinted(quoted, member, tail);
    OneMember(member);
    assert TextOf(d) == text;
    GoodExample(quoted, member);
    ObjectFrame(d, k, |text|);
  }

  lemma {:induction false} OneMember(member: Member)
    ensures TextOf(Document([], Obj([], [member]))) == [OPEN_BRACE] + PrintMember(member, [CLOSE_BRACE])
  {
    hide PrintMember;
    var none: Bytes, inner := [], PrintMember(member, [CLOSE_BRACE]);
    assert [CLOSE_BRACE] + none == [CLOSE_BRACE];
    assert PrintMembers([member], [CLOSE_BRACE]) == inner;
    assert Print(Obj([], [member]), none) == [OPEN_BRACE] + (none + inner);
  }

  lemma {:induction false} ObjectPrinted(quoted: seq<Item>, member: Member, tail: Bytes)
    requires quoted == [Escape(0x22), Plain(0x7D)] && tail == [CLOSE_BRACKET] + [CLOSE_BRACE]
    requires member == Member([], [Plain(0x61)], [], Array([], [Text(quoted), Atom([0x31])]))
    ensures PrintMember(member, [CLOSE_BRACE]) ==
      [QUOTE, 0x61, QUOTE, COLON, OPEN_BRACKET, QUOTE, BACKSLASH, 0x22, 0x7D, QUOTE, COMMA, 0x31] + tail
  {
    var none: seq<Item> := [];
    var elems := [Text(quoted), Atom([0x31])];
    assert quoted[1..] == [Plain(0x7D)] && [Plain(0x7D)][1..] == none && [Plain(0x61)][1..] == none;
    assert elems[1..] == [Atom([0x31])];
    var rest := [COMMA] + ([0x31] + tail);
    assert PrintElems([Atom([0x31])], tail) == [0x31] + tail;
    assert PrintItems([Plain(0x7D)], rest) == [0x7D] + PrintItems(none, rest);
    assert PrintItems(quoted, rest) == [BACKSLASH] + ([0x22] + ([0x7D] + ([QUOTE] + rest)));
    assert PrintElems(elems, tail) == PrintText(quoted, rest);
    var list := [OPEN_BRACKET] + ([] + PrintElems(elems, tail));
    assert Print(member.value, [CLOSE_BRACE]) == list;
    assert PrintItems([Plain(0x61)], [] + ([COLON] + list)) == [0x61] + ([QUOTE] + ([] + ([COLON] + list)));
  }

  lemma {:induction false} GoodExample(quoted: seq<Item>, member: Member)
    requires quoted == [Escape(0x22), Plain(0x7D)]
    requires member == Member([], [Plain(0x61)], [], Array([], [Text(quoted), Atom([0x31])]))
    ensures Good(Obj([], [member]))
  {
    var elems: seq<Json>, none: seq<Json> := [Text(quoted), Atom([0x31])], [];
    assert elems[1..] == [Atom([0x31])] && [Atom([0x31])][1..] == none;
    assert GoodElems([Atom([0x31])]) && GoodElems(elems);
    assert [member][1..] == [] && GoodMember(member);
  }
}
