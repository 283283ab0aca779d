/** Readers that hand out their bytes in arbitrary chunks, writers, and growing buffers. */
module Streams {
  import opened Options

  type Byte = x: int | 0 <= x < 256

  type Bytes = seq<Byte>

  datatype Fault =
    | EndOfFile | UnexpectedEnd | Broken
    | Overflow | TooLarge | Unbalanced | NoRoom | Undecodable

  /** A reader. `plan` gives the sizes of the next reads, zero for one that returns nothing;
      after the plan a read returns all it can. Data never comes together with an error. */
  class Reader {
    var rest: Bytes
    var plan: seq<nat>
    const end: Fault
    ghost var taken: Bytes

    constructor (rest: Bytes, end: Fault, plan: seq<nat>)
      ensures this.rest == rest && this.end == end && this.plan == plan && taken == []
    {
      this.rest, this.end, this.plan, taken := rest, end, plan, [];
    }

    /** What bounds the number of reads before the next byte or the error. */
    ghost function Left(): nat
      reads this
    {
      |rest| + |plan|
    }

    /** How many bytes the next read hands out. */
    ghost function Offer(space: nat): nat
      reads this
    {
      var k := if plan == [] || plan[0] > space then space else plan[0];
      if k > |rest| then |rest| else k
    }

    /** Every byte comes alone. */
    ghost predicate Trickles()
      reads this
    {
      |rest| <= |plan| && forall i :: 0 <= i < |plan| ==> plan[i] == 1
    }

    method Read(space: nat) returns (chunk: Bytes, err: Option<Fault>)
      requires space > 0
      modifies this
      ensures err.Some? <==> old(rest == [] && (plan == [] || plan[0] > 0))
      ensures err.None? ==> |chunk| == old(Offer(space)) && plan == if old(plan) == [] then [] else old(plan)[1..]
      ensures err.Some? ==> plan == old(plan)
      ensures old(rest) == chunk + rest && taken == old(taken) + chunk
      ensures |chunk| <= space
      ensures err.Some? ==> err.value == end && chunk == [] && rest == []
      ensures err.None? ==> Left() < old(Left())
    {
      if rest == [] && (plan == [] || plan[0] > 0) {
        return [], Some(end);
      }
      var k := if plan == [] || plan[0] > space then space else plan[0];
      k := if k > |rest| then |rest| else k;
      chunk, rest := rest[..k], rest[k..];
      plan := if plan == [] then [] else plan[1..];
      taken := taken + chunk;
      err := None;
    }
  }

  /** `io.ReadFull`: exactly `want` bytes, or the error after the last one. */
  method ReadFull(r: Reader, want: nat) returns (got: Bytes, err: Option<Fault>)
    modifies r
    ensures old(r.rest) == got + r.rest && |got| <= want
    ensures err.None? <==> want <= |old(r.rest)|
    ensures err.None? ==> |got| == want
    ensures err.Some? ==>
      r.rest == [] && err.value == if got != [] && r.end == EndOfFile then UnexpectedEnd else r.end
  {
    got, err := [], None;
    while |got| < want && err.None?
      invariant old(r.rest) == got + r.rest && |got| <= want
      invariant err.Some? ==> err.value == r.end && r.rest == [] && |got| < want
      decreases err.None?, r.Left()
    {
      var chunk;
      chunk, err := r.Read(want - |got|);
      got := got + chunk;
    }
    if |got| < want && got != [] && err == Some(EndOfFile) {
      err := Some(UnexpectedEnd);
    }
  }

  /** A writer that fails once `room` bytes are written. */
  class Writer {
    var out: Bytes
    var room: nat

    constructor (room: nat)
      ensures out == [] && this.room == room
    {
      out, this.room := [], room;
    }

    method Write(p: Bytes) returns (n: nat, err: Option<Fault>)
      modifies this
      ensures n <= |p| && out == old(out) + p[..n] && room == old(room) - n
      ensures err.None? <==> |p| <= old(room)
      ensures err.None? ==> n == |p|
      ensures err.Some? ==> err.value == NoRoom
    {
      n := if |p| <= room then |p| else room;
      out, room := out + p[..n], room - n;
      err := if n == |p| then None else Some(NoRoom);
    }
  }

  /* ---- Capacities ---- */

  const MAX_INT := 0x7FFF_FFFF_FFFF_FFFF

  /** 64-bit two's complement wrap-around. */
  function Wrap(x: int): (y: int)
    ensures -MAX_INT - 1 <= y <= MAX_INT
    ensures -MAX_INT - 1 <= x <= MAX_INT ==> y == x
    ensures MAX_INT < x <= 2 * MAX_INT + 1 ==> y == x - 2 * MAX_INT - 2
  {
    (x + MAX_INT + 1) % (2 * (MAX_INT + 1)) - MAX_INT - 1
  }

  /** `growcap`: large enough, also when the arithmetic overflows, and never more than doubled or
      a quarter above what is wanted. */
  method GrowCap(oldcap: int, wantcap: int) returns (newcap: int)
    requires 0 <= oldcap <= MAX_INT && 0 <= wantcap <= MAX_INT
    ensures wantcap <= newcap <= MAX_INT
    ensures wantcap > 2 * oldcap || MAX_INT < 2 * oldcap ==> newcap == wantcap
    ensures wantcap <= 2 * oldcap <= MAX_INT && oldcap < 1024 ==> newcap == 2 * oldcap
    ensures wantcap <= oldcap && 1024 <= oldcap && 2 * oldcap <= MAX_INT ==> newcap == oldcap
    ensures oldcap < wantcap && 1024 <= oldcap ==> newcap <= wantcap + wantcap / 4
  {
    hide Wrap;
    if wantcap > Wrap(oldcap * 2) {
      newcap := wantcap;
    } else if oldcap < 1024 {
      newcap := Wrap(oldcap * 2);
    } else {
      newcap := oldcap;
      while 0 < newcap && newcap < wantcap
        invariant newcap <= MAX_INT && (0 < newcap ==> newcap >= 1024)
        invariant newcap == oldcap || (oldcap < wantcap && newcap <= wantcap + wantcap / 4)
        decreases if newcap > 0 then MAX_INT - newcap + 1 else 0
      {
        newcap := Wrap(newcap + newcap / 4);
      }
      if newcap <= 0 {
        newcap := wantcap;
      }
    }
  }

  /** `append` of one byte to a full buffer: the run-time picks some larger capacity. */
  method AppendCap(cap: nat) returns (newcap: nat)
    ensures newcap > cap
  {
    newcap := 2 * cap + 1;
  }

  /** One more read into the spare capacity of the buffer `b`. */
  method ReadMore(b: Bytes, cap: nat, r: Reader) returns (b': Bytes, cap': nat, err: Option<Fault>)
    requires |b| <= cap
    modifies r
    ensures |b'| <= cap' && b <= b'
    ensures b' + r.rest == b + old(r.rest)
    ensures old(r.taken) <= r.taken && b' == b + r.taken[|old(r.taken)|..]
    ensures err.Some? ==> err.value == r.end && b' == b && r.rest == []
    ensures err.None? ==> r.Left() < old(r.Left())
    ensures |b| < cap ==> |b'| == |b| + if err.None? then old(r.Offer(cap - |b|)) else 0
    ensures old(r.Trickles()) ==> r.Trickles() && |b'| <= |b| + 1
  {
    cap' := cap;
    if |b| == cap {
      cap' := AppendCap(cap);
    }
    var chunk;
    chunk, err := r.Read(cap' - |b|);
    b' := b + chunk;
    assert b' + r.rest == b + (chunk + r.rest);
  }
}
