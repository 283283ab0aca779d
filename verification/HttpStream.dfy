/** HTTP streams: messages framed by a codec, with the bytes that a codec has read too many of
    carried to the next message. */
module HttpStream {
  import opened Options
  import opened Streams
  import opened Varints
  import opened Braces
  import opened Codecs

  datatype Codec = Proto | JSON | Body | Unstreamed

  /** `Panics` stands for a run-time panic. */
  datatype Received = Message(count: nat, data: Bytes) | Fails(count: nat, data: Bytes, err: Fault) | Panics

  /** The result when the reader has ended: the end of the stream is not an error yet. */
  function Ended(count: nat, data: Bytes, end: Fault): Received {
    if end == EndOfFile then Message(count, data) else Fails(count, data, end)
  }

  /** A message that does not decode is an error. */
  function Unmarshalled(m: Received, decodes: Bytes -> bool): Received {
    if m.Message? && !decodes(m.data) then Fails(m.count, m.data, Undecodable) else m
  }

  /** How a write ends; `Crash` stands for a run-time panic. */
  datatype Sent = Sent(count: nat) | Unsent(count: nat, err: Fault) | Crash

  /* ---- What one call gives and leaves, as a function of the bytes to come ---- */

  ghost predicate ProtoResult(data: Bytes, end: Fault, limit: int, count: nat, m: Received, left: Bytes, eof: bool) {
    match FrameOf(data, limit)
    case Whole(size, head) => m == Message(count, data[head..][..size]) && left == data[head..][size..] && !eof
    case Negative(_, _) => m == Panics
    case Cut(_) => m == Fails(count, [], if end == EndOfFile then UnexpectedEnd else end) && !eof
    case Starved => m == Ended(count, [], end) && left == data && eof == (end == EndOfFile)
    case Malformed => m == Fails(count, [], Overflow) && left == data && !eof
    case Oversize => m == Fails(count, [], TooLarge) && left == data && !eof
  }

  ghost predicate JsonResult(data: Bytes, end: Fault, limit: int, count: nat, m: Received, left: Bytes, eof: bool) {
    match ScanFrom(data, START, 0, limit)
    case Object(k) => m == Message(count, data[..k]) && left == data[k..] && !eof
    case Short => m == Ended(count, [], end) && left == data && eof == (end == EndOfFile)
    case NotBalanced => m == Fails(count, [], Unbalanced) && left == data && !eof
    case OverLimit => m == Fails(count, [], TooLarge) && left == data && !eof
  }

  /** `arriving` of the bytes in `data` are not carried over. */
  ghost predicate BodyResult(data: Bytes, arriving: nat, end: Fault, limit: int, count: nat, m: Received, left: Bytes,
                             eof: bool)
    requires arriving <= |data|
  {
    if limit < 0 then m == Panics
    else if limit == 0 then m in {Message(count, []), Ended(count, [], end)} && left == data
    else if arriving >= limit then m == Message(count, data[..limit]) && left == data[limit..] && !eof
    else m == Ended(count, data[..arriving], end) && left == data[arriving..] && eof == (end == EndOfFile)
  }

  ghost predicate UnaryResult(rest: Bytes, end: Fault, limit: int, count: nat, m: Received, eof: bool) {
    if |rest| > limit then m == Fails(count, [], TooLarge) && !eof
    else m == Ended(count, rest, end) && eof == (end == EndOfFile)
  }

  class StreamHTTP {
    const r: Reader
    const limit: int
    const streamingClient: bool
    const streamingServer: bool
    var rbuf: Bytes
    var rEOF: bool
    var recvCount: nat
    ghost var delivered: Bytes

    const w: Writer
    const sendLimit: int
    var sendCount: nat
    var sentHeader: bool
    var contentType: Option<string>

    constructor (r: Reader, limit: int, streamingClient: bool, streamingServer: bool, w: Writer, sendLimit: int)
      ensures this.r == r && this.limit == limit && this.w == w && this.sendLimit == sendLimit
      ensures this.streamingClient == streamingClient && this.streamingServer == streamingServer
      ensures rbuf == [] && !rEOF && recvCount == 0 && delivered == []
      ensures sendCount == 0 && !sentHeader && contentType == None
    {
      this.r, this.limit, this.w, this.sendLimit := r, limit, w, sendLimit;
      this.streamingClient, this.streamingServer := streamingClient, streamingServer;
      rbuf, rEOF, recvCount, delivered := [], false, 0, [];
      sendCount, sentHeader, contentType := 0, false, None;
    }

    /** What is still to come: carried bytes and what the reader has. */
    ghost function Pending(): Bytes
      reads this, r
    {
      rbuf + r.rest
    }

    /** All bytes returned so far, then the carried ones, are all bytes taken from the reader. */
    ghost predicate Conserved()
      reads this, r
    {
      delivered + rbuf == r.taken
    }

    /** Keeping what a codec returned: the frame goes out, the rest is carried. */
    method Keep(count: nat, b: Bytes, n: int, fault: Option<Fault>) returns (m: Received)
      requires n <= |b|
      modifies this`rbuf, this`rEOF, this`delivered
      ensures recvCount == old(recvCount)
      ensures rEOF == (fault == Some(EndOfFile) || old(rEOF))
      ensures n < 0 ==> m == Panics
      ensures n >= 0 ==>
        && rbuf == b[n..] && delivered == old(delivered) + b[..n]
        && m == if fault == None then Message(count, b[..n]) else Ended(count, b[..n], fault.value)
    {
      var err := fault;
      if err == Some(EndOfFile) {
        rEOF, err := true, None;
      }
      if n < 0 {
        return Panics;
      }
      rbuf, delivered := b[n..], delivered + b[..n];
      m := if err.None? then Message(count, b[..n]) else Fails(count, b[..n], err.value);
    }

    /** `readMsg`, with a pooled buffer of some capacity. */
    method ReadMsg(c: Codec, cap: nat) returns (m: Received)
      requires |rbuf| <= cap
      modifies this`rbuf, this`rEOF, this`recvCount, this`delivered, r
      ensures recvCount == old(recvCount) + (if old(rEOF) then 0 else 1)
      ensures old(rEOF) ==> rEOF && m == Fails(recvCount, [], EndOfFile) && Pending() == old(Pending())
      ensures !old(rEOF) && !streamingClient ==>
        UnaryResult(old(r.rest), r.end, limit, old(recvCount), m, rEOF)
      ensures !old(rEOF) && streamingClient && c == Proto ==>
        ProtoResult(old(Pending()), r.end, limit, old(recvCount), m, Pending(), rEOF)
      ensures !old(rEOF) && streamingClient && c == JSON ==>
        JsonResult(old(Pending()), r.end, limit, old(recvCount), m, Pending(), rEOF)
      ensures !old(rEOF) && streamingClient && c == Body ==>
        BodyResult(old(Pending()), |old(r.rest)|, r.end, limit, old(recvCount), m, Pending(), rEOF)
      ensures !old(rEOF) && streamingClient && c == Unstreamed ==> m == Panics
      ensures !old(rEOF) && streamingClient && c == Body && limit > 0 ==>
        && |rbuf| >= |old(rbuf)|
        && (old(r.plan) == [] && 0 < |old(r.rest)| <= cap - |old(rbuf)| ==> r.rest == [])
        && (old(r.Trickles()) ==> r.Trickles() && |rbuf| == |old(rbuf)|)
      ensures streamingClient && (c == JSON || c == Body) && !m.Panics? && old(Conserved()) ==> Conserved()
      ensures !old(rEOF) && rEOF ==> r.rest == []
      ensures m.Message? ==> m.count == old(recvCount) && (streamingClient ==> c != Unstreamed)
      ensures m.Message? && (streamingClient ==> c != Proto) ==> |m.data| <= limit || m.data == []
    {
      if rEOF {
        return Fails(recvCount, [], EndOfFile);
      }
      var count := recvCount;
      recvCount := recvCount + 1;
      if streamingClient {
        match c {
          case Proto => m := this.ReadProto(count, cap);
          case JSON => m := this.ReadJson(count, cap);
          case Body => m := this.ReadBody(count, cap);
          case Unstreamed => m := Panics;
        }
      } else {
        m := ReadAll(count, cap);
      }
    }

    method ReadProto(count: nat, cap: nat) returns (m: Received)
      requires |rbuf| <= cap && !rEOF
      modifies this`rbuf, this`rEOF, this`recvCount, this`delivered, r
      ensures recvCount == old(recvCount) && (rEOF ==> r.rest == [])
      ensures ProtoResult(old(Pending()), r.end, limit, count, m, Pending(), rEOF)
    {
      hide FrameOf;
      var b, n, err := ProtoReadNext(rbuf, cap, r, limit);
      m := Keep(count, b, n, err);
    }

    method ReadJson(count: nat, cap: nat) returns (m: Received)
      requires |rbuf| <= cap && !rEOF
      modifies this`rbuf, this`rEOF, this`recvCount, this`delivered, r
      ensures recvCount == old(recvCount) && (rEOF ==> r.rest == [])
      ensures JsonResult(old(Pending()), r.end, limit, count, m, Pending(), rEOF)
      ensures old(Conserved()) ==> Conserved()
    {
      ghost var data := Pending();
      var b, n, err := JsonReadNext(rbuf, cap, r, limit);
      m := Keep(count, b, n, err);
      assert data[..n] == b[..n] && data[n..] == b[n..] + r.rest;
      ConservedBy(old(delivered), old(rbuf), old(r.taken), r.taken, b, n);
    }

    method ReadBody(count: nat, cap: nat) returns (m: Received)
      requires |rbuf| <= cap && !rEOF
      modifies this`rbuf, this`rEOF, this`recvCount, this`delivered, r
      ensures recvCount == old(recvCount) && (rEOF ==> r.rest == [])
      ensures BodyResult(old(Pending()), |old(r.rest)|, r.end, limit, count, m, Pending(), rEOF)
      ensures !m.Panics? && old(Conserved()) ==> Conserved()
      ensures m.Message? ==> |m.data| <= limit
      ensures limit > 0 ==> |rbuf| >= |old(rbuf)|
      ensures old(r.plan) == [] && 0 < |old(r.rest)| <= cap - |old(rbuf)| ==> r.rest == []
      ensures old(r.Trickles()) && limit > 0 ==> r.Trickles() && |rbuf| == |old(rbuf)|
    {
      ghost var data := Pending();
      var b, n, err := BodyReadNext(rbuf, cap, r, limit);
      m := Keep(count, b, n, err);
      if n >= 0 {
        assert data[..n] == b[..n] && data[n..] == b[n..] + r.rest;
        ConservedBy(old(delivered), old(rbuf), old(r.taken), r.taken, b, n);
      }
    }

    /** `readAll`, for requests that are not streams. */
    method ReadAll(count: nat, cap0: nat) returns (m: Received)
      requires !rEOF
      modifies this`rbuf, this`rEOF, this`recvCount, this`delivered, r
      ensures recvCount == old(recvCount) && (rEOF ==> r.rest == [])
      ensures UnaryResult(old(r.rest), r.end, limit, count, m, rEOF)
    {
      var b, cap, err := [], cap0, None;
      ghost var data := r.rest;
      while err.None?
        invariant |b| <= cap && b + r.rest == data && !rEOF && recvCount == old(recvCount)
        invariant err.Some? ==> err.value == r.end && r.rest == []
        invariant err.Some? || b != [] ==> |b| <= limit
        decreases err.None?, r.Left()
      {
        b, cap, err := ReadMore(b, cap, r);
        if |b| > limit {
          return Fails(count, [], TooLarge);
        }
      }
      if err == Some(EndOfFile) {
        rEOF, err := true, None;
      }
      m := if err.None? then Message(count, b) else Fails(count, b, err.value);
    }

    /** `RecvMsg`: the message is decoded from the body, if there is one, and the first call
        that gets that far sets the parameters of the path. Without a body there is one empty
        message. `raw` is what was read. */
    method RecvMsg(c: Codec, cap: nat, hasBody: bool, decodes: Bytes -> bool)
      returns (m: Received, params: bool, ghost raw: Received)
      requires |rbuf| <= cap
      modifies this`rbuf, this`rEOF, this`recvCount, this`delivered, r
      ensures recvCount == old(recvCount) + (if hasBody && old(rEOF) then 0 else 1)
      ensures m == if hasBody then Unmarshalled(raw, decodes) else raw
      ensures raw.Message? && (hasBody ==> decodes(raw.data)) ==> m == raw
      ensures m.Message? ==> raw == m && (hasBody ==> decodes(m.data))
      ensures params <==> m.Message? && old(recvCount) == 0
      ensures old(rEOF) ==> raw.Fails? && raw.err == EndOfFile && Pending() == old(Pending())
      ensures !hasBody && !old(rEOF) ==> raw == Message(old(recvCount), []) && rEOF && Pending() == old(Pending())
      ensures streamingClient && (c == JSON || c == Body) && !raw.Panics? && old(Conserved()) ==> Conserved()
      ensures hasBody && !old(rEOF) && !streamingClient ==>
        UnaryResult(old(r.rest), r.end, limit, old(recvCount), raw, rEOF)
      ensures hasBody && !old(rEOF) && streamingClient && c == Proto ==>
        ProtoResult(old(Pending()), r.end, limit, old(recvCount), raw, Pending(), rEOF)
      ensures hasBody && !old(rEOF) && streamingClient && c == JSON ==>
        JsonResult(old(Pending()), r.end, limit, old(recvCount), raw, Pending(), rEOF)
      ensures hasBody && !old(rEOF) && streamingClient && c == Body ==>
        BodyResult(old(Pending()), |old(r.rest)|, r.end, limit, old(recvCount), raw, Pending(), rEOF)
      ensures hasBody && !old(rEOF) && streamingClient && c == Unstreamed ==> raw == Panics
    {
      hide ProtoResult, JsonResult, BodyResult, UnaryResult;
      if hasBody {
        m := ReadMsg(c, cap);
        raw := m;
        if m.Message? && !decodes(m.data) {
          m := Fails(m.count, m.data, Undecodable);
        }
      } else {
        m := if rEOF then Fails(recvCount, [], EndOfFile) else Message(recvCount, []);
        raw := m;
        recvCount, rEOF := recvCount + 1, true;
      }
      params := m.Message? && m.count == 0;
    }

    /** What `writeMsg` puts on the wire for one message. */
    function Wire(c: Codec, b: Bytes): Bytes
      requires |b| <= MAX_INT
    {
      if streamingServer && c == Proto then Encode(|b|) + b else b
    }

    /** `writeMsg`: the first message settles the headers. A stream needs a codec that can
        stream; a single reply is written with any codec. */
    method WriteMsg(c: Codec, b: Bytes, contentType: string) returns (o: Sent)
      requires |b| <= MAX_INT
      modifies this`sendCount, this`sentHeader, this`contentType, w
      ensures sendCount == old(sendCount) + 1
      ensures this.contentType == if old(sendCount) == 0 then Some(contentType) else old(this.contentType)
      ensures sentHeader == (old(sentHeader) || old(sendCount) == 0)
      ensures o.Crash? <==> streamingServer && c == Unstreamed
      ensures o.Sent? <==> !o.Crash? && (streamingServer || |b| <= sendLimit) && |Wire(c, b)| <= old(w.room)
      ensures o.Sent? ==> o.count == old(sendCount) && w.out == old(w.out) + Wire(c, b)
      ensures o.Unsent? ==>
        o.count == old(sendCount) && o.err == if streamingServer || |b| <= sendLimit then NoRoom else TooLarge
      ensures old(w.out) <= w.out && |w.out| + w.room == |old(w.out)| + old(w.room)
      ensures o.Crash? || (o.Unsent? && o.err == TooLarge) ==> w.out == old(w.out)
    {
      var count, err := sendCount, None;
      if count == 0 {
        this.contentType := Some(contentType);
        if !sentHeader {
          sentHeader := true;
        }
      }
      sendCount := count + 1;
      if streamingServer && c == Unstreamed {
        return Crash;
      }
      var n;
      if streamingServer && c == Proto {
        n, err := ProtoWriteNext(w, b);
      } else if streamingServer || |b| <= sendLimit {
        n, err := w.Write(b);
        if err.None? {
          assert b[..n] == b;
        }
      } else {
        err := Some(TooLarge);
      }
      o := if err.None? then Sent(count) else Unsent(count, err.value);
    }
  }

  /** A frame of `n` bytes moves from the buffer to what is delivered. */
  lemma {:induction false} ConservedBy(delivered: Bytes, rbuf: Bytes, taken: Bytes, taken': Bytes, b: Bytes, n: nat)
    requires taken <= taken' && b == rbuf + taken'[|taken|..] && n <= |b|
    ensures delivered + rbuf == taken ==> delivered + b[..n] + b[n..] == taken'
  {
    assert b[..n] + b[n..] == b;
    if delivered + rbuf == taken {
      assert delivered + b[..n] + b[n..] == delivered + rbuf + taken'[|taken|..];
    }
  }
}
