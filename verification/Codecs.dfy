/** The stream codecs: what one call takes from the reader and what it leaves in the buffer
    depends on the bytes only, not on how the reader hands them out. */
module Codecs {
  import opened Options
  import opened Streams
  import opened Varints
  import opened Braces

  /* ---- Size-delimited messages ---- */

  /** What the front of a byte string is: `head` bytes of a varint and then `size` bytes, or
      one of the ways in which it is not a message. */
  datatype Delimited =
    | Whole(size: nat, head: nat)
    | Negative(wrapped: int, head: nat)  // a size that does not fit in an int
    | Cut(head: nat)                   // the bytes end inside the message
    | Starved                          // the bytes end inside the varint
    | Malformed
    | Oversize

  function FrameOf(data: Bytes, limit: int): (f: Delimited)
    ensures f.Whole? ==> f.head + f.size <= |data| && (limit > 0 ==> f.size <= limit)
    ensures f.Negative? || f.Cut? ==> f.head <= |data|
    ensures f.Negative? ==> f.wrapped < 0
  {
    match Consume(data)
    case Truncated => Starved
    case TooBig => Malformed
    case Value(v, head) =>
      var size := Wrap(v);
      if limit > 0 && size > limit then Oversize
      else if size < 0 then Negative(size, head)
      else if head + size <= |data| then Whole(size, head)
      else Cut(head)
  }

  /** How a call ends, with `b` and `n` returned and `rest` left in the reader. */
  ghost predicate Delivers(data: Bytes, end: Fault, limit: int, b: Bytes, n: int, err: Option<Fault>, rest: Bytes) {
    match FrameOf(data, limit)
    case Whole(size, head) =>
      err == None && n == size <= |b| && b[..n] == data[head..][..n] && b[n..] + rest == data[head..][n..]
    case Negative(size, head) => err == None && n == size && b + rest == data[head..]
    case Cut(_) => err == Some(if end == EndOfFile then UnexpectedEnd else end) && n == 0 && rest == []
    case Starved => err == Some(end) && n == 0 && b == data && rest == []
    case Malformed => err == Some(Overflow) && n == 0 && b + rest == data
    case Oversize => err == Some(TooLarge) && n == 0 && b + rest == data
  }

  /** Up to ten bytes, until one ends the varint. */
  method ReadVarint(b0: Bytes, cap0: nat, r: Reader) returns (b: Bytes, cap: nat, err: Option<Fault>)
    requires |b0| <= cap0
    modifies r
    ensures |b| <= cap && b + r.rest == b0 + old(r.rest)
    ensures err.Some? ==> err.value == r.end && r.rest == [] && Consume(b) == Truncated
    ensures err.None? ==> Consume(b) != Truncated
  {
    b, cap, err := b0, cap0, None;
    ghost var data := b0 + r.rest;
    var i := 0;
    while i < 10
      invariant i <= 10 && |b| <= cap && i <= |b| && err.None?
      invariant b + r.rest == data
      invariant forall j :: 0 <= j < i ==> b[j] >= 0x80
    {
      while i >= |b|
        invariant i <= |b| <= cap && b + r.rest == data && err.None?
        invariant forall j :: 0 <= j < i ==> b[j] >= 0x80
        decreases i - |b|, r.Left()
      {
        b, cap, err := ReadMore(b, cap, r);
        if err.Some? {
          TruncatedIff(b, 0);
          return;
        }
      }
      if b[i] < 0x80 {
        break;
      }
      i := i + 1;
    }
    TruncatedIff(b, 0);
  }

  /** The message after the varint: the rest of it is read in one go. */
  method ReadBody(b0: Bytes, cap0: nat, r: Reader, n: nat) returns (b: Bytes, err: Option<Fault>)
    requires |b0| <= cap0 && n <= MAX_INT
    modifies r
    ensures var data := b0 + old(r.rest);
      && (n <= |data| ==> err == None && n <= |b| && b[..n] == data[..n] && b[n..] + r.rest == data[n..])
      && (n > |data| ==> err == Some(if r.end == EndOfFile then UnexpectedEnd else r.end) && r.rest == [])
  {
    b, err := b0, None;
    ghost var data := b0 + r.rest;
    if |b| < n {
      var cap := cap0;
      if cap < n {
        cap := GrowCap(cap, n);
      }
      assert n <= cap;
      var got;
      got, err := ReadFull(r, n - |b|);
      assert b0 + (got + r.rest) == b0 + got + r.rest;
      if err.Some? {
        err := if err.value == EndOfFile then Some(UnexpectedEnd) else err;
        return;
      }
      b := b + got;
    }
    assert b + r.rest == data;
  }

  /** `CodecProto.ReadNext`. */
  method ProtoReadNext(b0: Bytes, cap0: nat, r: Reader, limit: int) returns (b: Bytes, n: int, err: Option<Fault>)
    requires |b0| <= cap0
    modifies r
    ensures Delivers(b0 + old(r.rest), r.end, limit, b, n, err, r.rest)
  {
    hide Digits, Wrap;
    ghost var data := b0 + r.rest;
    n := 0;
    var cap;
    b, cap, err := ReadVarint(b0, cap0, r);
    if err.Some? {
      assert b + [] == b;
      return;
    }
    DigitsMore(b, 0, r.rest);
    var d := Consume(b);
    if d.TooBig? {
      err := Some(Overflow);
      return;
    }
    if limit > 0 && Wrap(d.v) > limit {
      err := Some(TooLarge);
      return;
    }
    b := b[d.n..];
    assert b + r.rest == data[d.n..];
    n := Wrap(d.v);
    if n >= 0 {
      b, err := ReadBody(b, cap, r, n);
      if err.Some? {
        n := 0;
      }
    }
  }

  /** `CodecProto.WriteNext`. */
  method ProtoWriteNext(w: Writer, b: Bytes) returns (n: nat, err: Option<Fault>)
    requires |b| < 0x1_0000_0000_0000_0000
    modifies w
    ensures err.None? <==> |Encode(|b|)| + |b| <= old(w.room)
    ensures err.None? ==> n == |b| && w.out == old(w.out) + (Encode(|b|) + b)
    ensures |w.out| + w.room == |old(w.out)| + old(w.room)
    ensures err.Some? ==> err.value == NoRoom
    ensures old(w.out) <= w.out <= old(w.out) + (Encode(|b|) + b)
  {
    var size := Encode(|b|);
    n, err := w.Write(size);
    assert size[..n] <= size + b;
    if err.Some? {
      n := 0;
      return;
    }
    assert size[..n] == size;
    n, err := w.Write(b);
    assert old(w.out) + size + b[..n] == old(w.out) + (size + b[..n]);
    if err.None? {
      assert b[..n] == b;
    }
  }

  /* ---- JSON objects ---- */

  ghost predicate Frames(data: Bytes, end: Fault, limit: int, b: Bytes, n: int, err: Option<Fault>, rest: Bytes) {
    && b + rest == data
    && match ScanFrom(data, START, 0, limit)
       case Object(k) => err == None && n == k <= |b|
       case Short => err == Some(end) && n == 0 && rest == []
       case NotBalanced => err == Some(Unbalanced) && n == 0
       case OverLimit => err == Some(TooLarge) && n == 0
  }

  /** `CodecJSON.ReadNext`. */
  method JsonReadNext(b0: Bytes, cap0: nat, r: Reader, limit: int) returns (b: Bytes, n: int, err: Option<Fault>)
    requires |b0| <= cap0
    modifies r
    ensures Frames(b0 + old(r.rest), r.end, limit, b, n, err, r.rest)
    ensures old(r.taken) <= r.taken && b == b0 + r.taken[|old(r.taken)|..]
  {
    b, n, err := b0, 0, None;
    ghost var data := b0 + r.rest;
    var cap, i, s := cap0, 0, START;
    while i < limit
      invariant 0 <= i <= |b| <= cap && err.None? && n == 0 && b + r.rest == data
      invariant old(r.taken) <= r.taken && b == b0 + r.taken[|old(r.taken)|..]
      invariant ScanFrom(data, START, 0, limit) == ScanFrom(data[i..], s, i, limit)
    {
      while i >= |b|
        invariant i <= |b| <= cap && err.None? && b + r.rest == data
        invariant old(r.taken) <= r.taken && b == b0 + r.taken[|old(r.taken)|..]
        decreases i - |b|, r.Left()
      {
        b, cap, err := ReadMore(b, cap, r);
        if err.Some? {
          assert b == data && data[i..] == [];
          return;
        }
      }
      assert data[i..][0] == b[i] && data[i..][1..] == data[i + 1..];
      match Step(s, b[i]) {
        case Done =>
          n := i + 1;
          return;
        case Bad =>
          err := Some(Unbalanced);
          return;
        case On(s') =>
          s := s';
      }
      i := i + 1;
    }
    err := Some(TooLarge);
  }

  /* ---- Raw bodies ---- */

  /** `codecHTTPBody.ReadNext`: only the new bytes are counted. */
  method BodyReadNext(b0: Bytes, cap0: nat, r: Reader, limit: int) returns (b: Bytes, n: int, err: Option<Fault>)
    requires |b0| <= cap0
    modifies r
    ensures b + r.rest == b0 + old(r.rest)
    ensures old(r.taken) <= r.taken && b == b0 + r.taken[|old(r.taken)|..]
    ensures n == if |b| - |b0| > limit then limit else |b| - |b0|
    ensures err.Some? ==> err.value == r.end && r.rest == [] && (limit > 0 ==> n < limit)
    ensures err.None? ==> n == limit
    ensures old(r.plan) == [] && 0 < |old(r.rest)| <= cap0 - |b0| ==> r.rest == []
    ensures old(r.Trickles()) && limit > 0 ==> r.Trickles() && n == |b| - |b0|
  {
    b, err := b0, None;
    var cap, total := cap0, 0;
    ghost var data := b0 + r.rest;
    ghost var atOnce := r.plan == [] && 0 < |r.rest| <= cap0 - |b0|;
    while true
      invariant |b| <= cap && err.None? && b + r.rest == data
      invariant old(r.taken) <= r.taken && b == b0 + r.taken[|old(r.taken)|..]
      invariant total == |b| - |b0| && (limit > 0 ==> total < limit)
      invariant atOnce ==> (r.rest == old(r.rest) && r.plan == [] && b == b0 && cap == cap0) || r.rest == []
      invariant old(r.Trickles()) ==> r.Trickles()
      decreases r.Left()
    {
      var len := |b|;
      b, cap, err := ReadMore(b, cap, r);
      total := total + (|b| - len);
      if total > limit {
        total := limit;
      }
      if err.Some? || total == limit {
        return b, total, err;
      }
    }
  }
}
