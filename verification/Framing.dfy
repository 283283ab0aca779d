/** Whole runs of a stream: framing does not depend on how the reader hands out its bytes, nor
    on the buffers that the calls start with. */
module Framing {
  import opened Options
  import opened Streams
  import opened Varints
  import opened Braces
  import opened Codecs
  import opened HttpStream

  /* ---- Size-delimited messages ---- */

  function Delimit(m: Bytes): Bytes {
    Encode(|m|) + m
  }

  function Join(frames: seq<Bytes>): Bytes {
    if frames == [] then [] else frames[0] + Join(frames[1..])
  }

  function Delimits(ms: seq<Bytes>): seq<Bytes> {
    seq(|ms|, i requires 0 <= i < |ms| => Delimit(ms[i]))
  }

  predicate Sendable(m: Bytes, limit: int) {
    |m| <= MAX_INT && (limit > 0 ==> |m| <= limit)
  }

  lemma {:induction false} DelimitedFrame(m: Bytes, tail: Bytes, limit: int)
    requires Sendable(m, limit)
    ensures var data := Delimit(m) + tail;
      var head := |Encode(|m|)|;
      FrameOf(data, limit) == Whole(|m|, head) && data[head..][..|m|] == m && data[head..][|m|..] == tail
  {
    var data, size := Delimit(m) + tail, Encode(|m|);
    assert data == size + (m + tail);
    ConsumeEncode(|m|, m + tail);
    assert data[|size|..] == m + tail;
  }

  /** The front of a stream that starts with the size `v`, for every unsigned 64-bit size: too
      large, not an int, the whole message, or cut inside it. */
  lemma {:induction false} SizedFrame(v: nat, rest: Bytes, limit: int)
    requires v < 0x1_0000_0000_0000_0000
    ensures FrameOf(Encode(v) + rest, limit) ==
      var head := |Encode(v)|;
      if v > MAX_INT then Negative(v - 0x1_0000_0000_0000_0000, head)
      else if 0 < limit < v then Oversize
      else if v <= |rest| then Whole(v, head)
      else Cut(head)
  {
    hide Wrap, Encode, Digits;
    ConsumeEncode(v, rest);
  }

  /** A front of a written message: without the whole size nothing is known, and with it the
      message is cut. */
  lemma {:induction false} CutFrame(m: Bytes, k: nat, limit: int)
    requires Sendable(m, limit) && k < |Delimit(m)|
    ensures FrameOf(Delimit(m)[..k], limit) == if k < |Encode(|m|)| then Starved else Cut(|Encode(|m|)|)
  {
    var size := Encode(|m|);
    if k < |size| {
      EncodeCut(|m|, k);
      assert Delimit(m)[..k] == size[..k];
    } else {
      SizedFrame(|m|, m[..k - |size|], limit);
      assert Delimit(m)[..k] == size + m[..k - |size|];
    }
  }

  /** Nine bytes that do not end the size, and a tenth above one. */
  lemma {:induction false} MalformedFrame(data: Bytes, limit: int)
    ensures FrameOf(data, limit) == Malformed <==>
      |data| >= 10 && data[9] >= 2 && forall j :: 0 <= j < 9 ==> data[j] >= 0x80
  {
    TooBigIff(data, 0);
  }

  lemma {:induction false} JoinStep(frames: seq<Bytes>, k: nat, tail: Bytes)
    requires k < |frames|
    ensures Join(frames[k..]) + tail == frames[k] + (Join(frames[k + 1..]) + tail)
  {
    assert frames[k..][1..] == frames[k + 1..];
  }

  lemma {:induction false} JoinEnd(frames: seq<Bytes>, tail: Bytes)
    ensures Join(frames[0..]) == Join(frames) && Join(frames[|frames|..]) + tail == tail
  {
    assert frames[0..] == frames;
    assert [] + tail == tail;
  }

  /** One call of `readMsg` for each message returns the messages in their order and leaves
      what follows them. */
  method ReceiveMessages(s: StreamHTTP, ghost ms: seq<Bytes>, ghost tail: Bytes, spare: seq<nat>)
    returns (got: seq<Bytes>)
    requires s.streamingClient && !s.rEOF && |spare| == |ms|
    requires s.Pending() == Join(Delimits(ms)) + tail
    requires forall i :: 0 <= i < |ms| ==> Sendable(ms[i], s.limit)
    modifies s`rbuf, s`rEOF, s`recvCount, s`delivered, s.r
    ensures got == ms && s.Pending() == tail && !s.rEOF && s.recvCount == old(s.recvCount) + |ms|
  {
    got := [];
    ghost var frames := Delimits(ms);
    JoinEnd(frames, tail);
    var k := 0;
    while k < |spare|
      invariant k <= |spare| && got == ms[..k] && !s.rEOF && s.recvCount == old(s.recvCount) + k
      invariant s.Pending() == Join(frames[k..]) + tail
    {
      JoinStep(frames, k, tail);
      DelimitedFrame(ms[k], Join(frames[k + 1..]) + tail, s.limit);
      var m := s.ReadMsg(Proto, |s.rbuf| + spare[k]);
      got := got + [m.data];
      k := k + 1;
    }
  }

  /** Messages and then one that the end of the stream, or another fault of the reader, cuts off.
      Inside the message the end is an error; inside its size it is not one, and an empty message
      is received. */
  method ReceiveCut(s: StreamHTTP, ghost ms: seq<Bytes>, ghost m: Bytes, ghost k: nat, spare: seq<nat>)
    returns (got: seq<Bytes>, last: Received)
    requires s.streamingClient && !s.rEOF && |spare| == |ms|
    requires Sendable(m, s.limit) && k < |Delimit(m)|
    requires s.Pending() == Join(Delimits(ms)) + Delimit(m)[..k]
    requires forall i :: 0 <= i < |ms| ==> Sendable(ms[i], s.limit)
    modifies s`rbuf, s`rEOF, s`recvCount, s`delivered, s.r
    ensures got == ms
    ensures var count, inside := old(s.recvCount) + |ms|, k >= |Encode(|m|)|;
      if s.r.end != EndOfFile then last == Fails(count, [], s.r.end) && !s.rEOF
      else if inside then last == Fails(count, [], UnexpectedEnd) && !s.rEOF
      else last == Message(count, []) && s.rEOF && s.Pending() == Delimit(m)[..k]
  {
    got := ReceiveMessages(s, ms, Delimit(m)[..k], spare);
    CutFrame(m, k, s.limit);
    last := s.ReadMsg(Proto, |s.rbuf|);
  }

  /** Messages and then one above the limit: an error that takes nothing from the stream. */
  method ReceiveOversize(s: StreamHTTP, ghost ms: seq<Bytes>, ghost m: Bytes, ghost tail: Bytes, spare: seq<nat>)
    returns (got: seq<Bytes>, last: Received)
    requires s.streamingClient && !s.rEOF && |spare| == |ms| && 0 < s.limit < |m| <= MAX_INT
    requires s.Pending() == Join(Delimits(ms)) + (Delimit(m) + tail)
    requires forall i :: 0 <= i < |ms| ==> Sendable(ms[i], s.limit)
    modifies s`rbuf, s`rEOF, s`recvCount, s`delivered, s.r
    ensures got == ms && last == Fails(old(s.recvCount) + |ms|, [], TooLarge)
    ensures !s.rEOF && s.Pending() == Delimit(m) + tail
  {
    got := ReceiveMessages(s, ms, Delimit(m) + tail, spare);
    SizedFrame(|m|, m + tail, s.limit);
    assert Delimit(m) + tail == Encode(|m|) + (m + tail);
    last := s.ReadMsg(Proto, |s.rbuf|);
  }

  /** A size that is not an int panics, and one that does not end in ten bytes is an error. */
  method ReceiveBadSize(s: StreamHTTP, ghost v: nat, ghost tail: Bytes, spare: nat) returns (m: Received)
    requires s.streamingClient && !s.rEOF
    requires || (MAX_INT < v < 0x1_0000_0000_0000_0000 && s.Pending() == Encode(v) + tail)
             || (|s.Pending()| >= 10 && s.Pending()[9] >= 2 && forall j :: 0 <= j < 9 ==> s.Pending()[j] >= 0x80)
    modifies s`rbuf, s`rEOF, s`recvCount, s`delivered, s.r
    ensures m == Panics || m == Fails(old(s.recvCount), [], Overflow)
    ensures MAX_INT < v < 0x1_0000_0000_0000_0000 && old(s.Pending()) == Encode(v) + tail ==> m == Panics
  {
    if MAX_INT < v < 0x1_0000_0000_0000_0000 {
      SizedFrame(v, tail, s.limit);
    }
    MalformedFrame(s.Pending(), s.limit);
    m := s.ReadMsg(Proto, |s.rbuf| + spare);
  }

  /* ---- Requests that are not streams ---- */

  /** The whole body is the message; a body above the limit and a fault of the reader are errors. */
  method ReceiveWhole(s: StreamHTTP, c: Codec, spare: nat) returns (m: Received)
    requires !s.streamingClient && !s.rEOF
    modifies s`rbuf, s`rEOF, s`recvCount, s`delivered, s.r
    ensures m ==
      if |old(s.r.rest)| > s.limit then Fails(old(s.recvCount), [], TooLarge)
      else if s.r.end == EndOfFile then Message(old(s.recvCount), old(s.r.rest))
      else Fails(old(s.recvCount), old(s.r.rest), s.r.end)
  {
    m := s.ReadMsg(c, |s.rbuf| + spare);
  }

  /* ---- JSON objects ---- */

  function Texts(ds: seq<Document>): seq<Bytes> {
    seq(|ds|, i requires 0 <= i < |ds| => TextOf(ds[i]))
  }

  /** The same for JSON objects, each after any white space: the stream splits back into the
      texts. */
  method ReceiveObjects(s: StreamHTTP, ghost ds: seq<Document>, ghost tail: Bytes, spare: seq<nat>)
    returns (got: seq<Bytes>)
    requires s.streamingClient && !s.rEOF && |spare| == |ds|
    requires s.Pending() == Join(Texts(ds)) + tail
    requires forall i :: 0 <= i < |ds| ==> GoodDocument(ds[i]) && |TextOf(ds[i])| <= s.limit
    modifies s`rbuf, s`rEOF, s`recvCount, s`delivered, s.r
    ensures got == Texts(ds) && s.Pending() == tail && !s.rEOF && s.recvCount == old(s.recvCount) + |ds|
    ensures old(s.Conserved()) ==> s.Conserved()
  {
    got := [];
    ghost var frames := Texts(ds);
    JoinEnd(frames, tail);
    var k := 0;
    while k < |spare|
      invariant k <= |spare| && got == frames[..k] && !s.rEOF && s.recvCount == old(s.recvCount) + k
      invariant s.Pending() == Join(frames[k..]) + tail
      invariant old(s.Conserved()) ==> s.Conserved()
    {
      JoinStep(frames, k, tail);
      ObjectFrame(ds[k], Join(frames[k + 1..]) + tail, s.limit);
      var m := s.ReadMsg(JSON, |s.rbuf| + spare[k]);
      got := got + [m.data];
      k := k + 1;
    }
  }

  /** Objects and then one that the end of the stream cuts off: this is no error, and an empty
      message is received. Another fault of the reader is an error. */
  method ReceiveCutObject(s: StreamHTTP, ghost ds: seq<Document>, ghost d: Document, ghost k: nat, spare: seq<nat>)
    returns (got: seq<Bytes>, last: Received)
    requires s.streamingClient && !s.rEOF && |spare| == |ds|
    requires GoodDocument(d) && k < |TextOf(d)| && k < s.limit
    requires s.Pending() == Join(Texts(ds)) + TextOf(d)[..k]
    requires forall i :: 0 <= i < |ds| ==> GoodDocument(ds[i]) && |TextOf(ds[i])| <= s.limit
    modifies s`rbuf, s`rEOF, s`recvCount, s`delivered, s.r
    ensures var count := old(s.recvCount) + |ds|;
      && got == Texts(ds) && s.Pending() == TextOf(d)[..k]
      && last == (if s.r.end == EndOfFile then Message(count, []) else Fails(count, [], s.r.end))
      && (s.rEOF <==> s.r.end == EndOfFile)
  {
    got := ReceiveObjects(s, ds, TextOf(d)[..k], spare);
    CutObject(d, k, s.limit);
    last := s.ReadMsg(JSON, |s.rbuf|);
  }

  /** Objects and then a closing brace without an opening one: an error that takes nothing. */
  method ReceiveStray(s: StreamHTTP, ghost ds: seq<Document>, ghost before: Bytes, ghost tail: Bytes, spare: seq<nat>)
    returns (got: seq<Bytes>, last: Received)
    requires s.streamingClient && !s.rEOF && |spare| == |ds|
    requires (forall i :: 0 <= i < |before| ==> !IsStructural(before[i])) && |before| < s.limit
    requires s.Pending() == Join(Texts(ds)) + (before + ([CLOSE_BRACE] + tail))
    requires forall i :: 0 <= i < |ds| ==> GoodDocument(ds[i]) && |TextOf(ds[i])| <= s.limit
    modifies s`rbuf, s`rEOF, s`recvCount, s`delivered, s.r
    ensures got == Texts(ds) && last == Fails(old(s.recvCount) + |ds|, [], Unbalanced)
    ensures !s.rEOF && s.Pending() == before + ([CLOSE_BRACE] + tail)
  {
    got := ReceiveObjects(s, ds, before + ([CLOSE_BRACE] + tail), spare);
    StrayBrace(before, tail, s.limit);
    last := s.ReadMsg(JSON, |s.rbuf|);
  }

  /* ---- The end of a stream ---- */

  /** After the last frame of a stream, both codecs give one empty frame and then the end. */
  method ReceiveEnd(s: StreamHTTP, c: Codec, cap: nat) returns (last: Received, end: Received)
    requires s.streamingClient && !s.rEOF && (c == Proto || c == JSON) && s.limit > 0
    requires s.Pending() == [] && s.r.end == EndOfFile && |s.rbuf| <= cap
    modifies s`rbuf, s`rEOF, s`recvCount, s`delivered, s.r
    ensures last == Message(old(s.recvCount), [])
    ensures end == Fails(old(s.recvCount) + 1, [], EndOfFile) && s.rEOF
  {
    last := s.ReadMsg(c, cap);
    end := s.ReadMsg(c, |s.rbuf|);
  }

  /* ---- Raw bodies ---- */

  lemma {:induction false} JoinAppend(frames: seq<Bytes>, f: Bytes)
    ensures Join(frames + [f]) == Join(frames) + f
  {
    if frames == [] {
      assert [f][1..] == [] && f + [] == f && [] + f == f;
    } else {
      assert (frames + [f])[1..] == frames[1..] + [f];
      JoinAppend(frames[1..], f);
      assert frames[0] + (Join(frames[1..]) + f) == frames[0] + Join(frames[1..]) + f;
    }
  }

  lemma {:induction false} Assoc(a: Bytes, b: Bytes, c: Bytes)
    ensures a + (b + c) == a + b + c
  {
  }

  /** One call of `readMsg` on a raw body: the front of what is to come, as many bytes as the
      reader still has, up to the limit. What is carried never gets less. */
  method ReceivePiece(s: StreamHTTP, spare: nat) returns (m: Bytes)
    requires s.streamingClient && !s.rEOF && s.limit > 0 && s.r.end == EndOfFile
    modifies s`rbuf, s`rEOF, s`recvCount, s`delivered, s.r
    ensures old(s.Pending()) == m + s.Pending()
    ensures |m| == if |old(s.r.rest)| >= s.limit then s.limit else |old(s.r.rest)|
    ensures s.rEOF <==> |old(s.r.rest)| < s.limit
    ensures s.rEOF ==> s.r.rest == [] && |s.rbuf| == |old(s.rbuf)|
    ensures |s.rbuf| >= |old(s.rbuf)|
    ensures old(s.r.plan) == [] && 0 < |old(s.r.rest)| <= spare ==> s.r.rest == []
    ensures old(s.r.Trickles()) ==> s.r.Trickles() && |s.rbuf| == |old(s.rbuf)|
  {
    var got := s.ReadMsg(Body, |s.rbuf| + spare);
    m := got.data;
    assert m == old(s.Pending())[..|m|] && s.Pending() == old(s.Pending())[|m|..];
    assert |s.Pending()| == |s.rbuf| + |s.r.rest|;
  }

  /** Receiving a raw body to its end. The pieces are the body in order, none above the limit,
      and what is carried at the end is not received. Nothing is carried, so all of it is
      received, when the body is within the limit and starts with an empty buffer, and also when
      every byte comes alone. A longer body that comes all at once is cut at the limit. */
  method ReceiveBody(s: StreamHTTP, spare: nat) returns (got: seq<Bytes>)
    requires s.streamingClient && !s.rEOF && s.limit > 0 && s.r.end == EndOfFile
    modifies s`rbuf, s`rEOF, s`recvCount, s`delivered, s.r
    ensures s.rEOF && s.r.rest == [] && Join(got) + s.rbuf == old(s.Pending())
    ensures forall i :: 0 <= i < |got| ==> |got[i]| <= s.limit
    ensures |s.rbuf| >= |old(s.rbuf)|
    ensures old(s.rbuf) == [] && |old(s.Pending())| <= s.limit ==> Join(got) == old(s.Pending())
    ensures old(s.rbuf) == [] && old(s.r.Trickles()) ==> Join(got) == old(s.Pending())
    ensures old(s.r.plan) == [] && s.limit <= |old(s.r.rest)| <= spare ==> Join(got) == old(s.Pending())[..s.limit]
  {
    got := [];
    ghost var body := s.Pending();
    ghost var small, slow := s.rbuf == [] && |body| <= s.limit, s.rbuf == [] && s.r.Trickles();
    ghost var fast := s.r.plan == [] && s.limit <= |s.r.rest| <= spare;
    assert [] + s.Pending() == s.Pending();
    while !s.rEOF
      invariant Join(got) + s.Pending() == body && |s.rbuf| >= |old(s.rbuf)|
      invariant forall i :: 0 <= i < |got| ==> |got[i]| <= s.limit
      invariant s.rEOF ==> s.r.rest == []
      invariant small ==> s.rbuf == [] && |s.Pending()| <= s.limit
      invariant slow ==> s.rbuf == [] && s.r.Trickles()
      invariant fast && got == [] ==> s.r.plan == [] && s.r.rest == old(s.r.rest) && !s.rEOF
      invariant fast && got != [] ==> s.r.rest == [] && |Join(got)| == s.limit
      decreases !s.rEOF, |s.Pending()|
    {
      var m := ReceivePiece(s, spare);
      JoinAppend(got, m);
      Assoc(Join(got), m, s.Pending());
      got := got + [m];
    }
    assert s.Pending() == s.rbuf;
    if fast {
      assert Join(got) == body[..s.limit];
    }
  }

  /** So the limit is the exact bound: a body within it is received through every reader and
      every buffer, and every longer one is cut by some reader and buffer, */
  method CutBody(body: Bytes, limit: nat) returns (got: seq<Bytes>)
    requires 0 < limit < |body|
    ensures Join(got) == body[..limit] != body
  {
    var r := new Reader(body, EndOfFile, []);
    var w := new Writer(0);
    var s := new StreamHTTP(r, limit, true, true, w, limit);
    assert s.Pending() == body;
    got := ReceiveBody(s, |body|);
  }

  /** and received whole by another one. */
  method WholeBody(body: Bytes, limit: nat, spare: nat) returns (got: seq<Bytes>)
    requires limit > 0
    ensures Join(got) == body
  {
    var r := new Reader(body, EndOfFile, seq(|body|, i => 1));
    var w := new Writer(0);
    var s := new StreamHTTP(r, limit, true, true, w, limit);
    assert s.Pending() == body;
    got := ReceiveBody(s, spare);
  }

  /* ---- Writing and reading back ---- */

  method SendMessages(s: StreamHTTP, ms: seq<Bytes>, contentType: string)
    requires s.streamingServer && forall i :: 0 <= i < |ms| ==> |ms[i]| <= MAX_INT
    requires |Join(Delimits(ms))| <= s.w.room
    modifies s`sendCount, s`sentHeader, s`contentType, s.w
    ensures s.w.out == old(s.w.out) + Join(Delimits(ms))
    ensures s.sendCount == old(s.sendCount) + |ms|
  {
    ghost var frames := Delimits(ms);
    JoinEnd(frames, []);
    var k := 0;
    while k < |ms|
      invariant k <= |ms| && s.sendCount == old(s.sendCount) + k
      invariant s.w.out + Join(frames[k..]) == old(s.w.out) + Join(frames)
      invariant |Join(frames[k..])| <= s.w.room
    {
      JoinStep(frames, k, []);
      var sent := s.WriteMsg(Proto, ms[k], contentType);
      k := k + 1;
    }
  }

  /** JSON and raw messages are written as they are, one after the other. */
  method SendTexts(s: StreamHTTP, c: Codec, bs: seq<Bytes>, contentType: string)
    requires s.streamingServer && (c == JSON || c == Body) && forall i :: 0 <= i < |bs| ==> |bs[i]| <= MAX_INT
    requires |Join(bs)| <= s.w.room
    modifies s`sendCount, s`sentHeader, s`contentType, s.w
    ensures s.w.out == old(s.w.out) + Join(bs)
    ensures s.sendCount == old(s.sendCount) + |bs|
  {
    JoinEnd(bs, []);
    var k := 0;
    while k < |bs|
      invariant k <= |bs| && s.sendCount == old(s.sendCount) + k
      invariant s.w.out + Join(bs[k..]) == old(s.w.out) + Join(bs)
      invariant |Join(bs[k..])| <= s.w.room
    {
      JoinStep(bs, k, []);
      var sent := s.WriteMsg(c, bs[k], contentType);
      k := k + 1;
    }
  }

  /** A single reply is written as it is, with every codec, if it is within the limit; otherwise
      nothing is written. */
  method SendReply(s: StreamHTTP, c: Codec, b: Bytes, contentType: string) returns (o: Sent)
    requires !s.streamingServer && |b| <= MAX_INT && |b| <= s.w.room
    modifies s`sendCount, s`sentHeader, s`contentType, s.w
    ensures s.w.out == old(s.w.out) + if |b| <= s.sendLimit then b else []
    ensures o == if |b| <= s.sendLimit then Sent(old(s.sendCount)) else Unsent(old(s.sendCount), TooLarge)
    ensures s.sentHeader || old(s.sendCount) > 0
    ensures old(s.sendCount) == 0 ==> s.contentType == Some(contentType)
  {
    o := s.WriteMsg(c, b, contentType);
    assert s.w.out + [] == s.w.out;
  }

  /** Objects that are written and then read back through any chunking come out unchanged. */
  method EchoObjects(ds: seq<Document>, limit: int, room: nat, plan: seq<nat>, spare: seq<nat>)
    returns (got: seq<Bytes>)
    requires |spare| == |ds| && |Join(Texts(ds))| <= room
    requires forall i :: 0 <= i < |ds| ==> GoodDocument(ds[i]) && |TextOf(ds[i])| <= limit && |TextOf(ds[i])| <= MAX_INT
    ensures got == Texts(ds)
  {
    var w := new Writer(room);
    var none := new Reader([], EndOfFile, []);
    var sender := new StreamHTTP(none, limit, true, true, w, limit);
    SendTexts(sender, JSON, Texts(ds), "application/json");
    assert [] + Join(Texts(ds)) == Join(Texts(ds));
    var r := new Reader(w.out, EndOfFile, plan);
    var receiver := new StreamHTTP(r, limit, true, true, w, limit);
    assert receiver.Pending() == Join(Texts(ds)) + [];
    got := ReceiveObjects(receiver, ds, [], spare);
  }

  /** Messages that are written and then read back through any chunking come out unchanged. */
  method Echo(ms: seq<Bytes>, limit: int, room: nat, plan: seq<nat>, spare: seq<nat>) returns (got: seq<Bytes>)
    requires |spare| == |ms| && |Join(Delimits(ms))| <= room
    requires forall i :: 0 <= i < |ms| ==> Sendable(ms[i], limit)
    ensures got == ms
  {
    var w := new Writer(room);
    var none := new Reader([], EndOfFile, []);
    var sender := new StreamHTTP(none, limit, true, true, w, limit);
    SendMessages(sender, ms, "application/protobuf");
    assert [] + Join(Delimits(ms)) == Join(Delimits(ms));
    var r := new Reader(w.out, EndOfFile, plan);
    var receiver := new StreamHTTP(r, limit, true, true, w, limit);
    assert receiver.Pending() == Join(Delimits(ms)) + [];
    got := ReceiveMessages(receiver, ms, [], spare);
  }
}
