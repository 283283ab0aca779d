/** Base 128 varints of the protocol buffer encoding. */
module Varints {
  import opened Streams

  datatype Decoded = Value(v: nat, n: nat) | Truncated | TooBig

  /** How large a value may be when `i` bytes have been read: two to the power 64 at the
      start, and one bit for the tenth byte. */
  function Room(i: nat): (r: nat)
    requires i <= 9
    ensures r > 0
    decreases 9 - i
  {
    if i == 9 then 2 else 128 * Room(i + 1)
  }

  /** `protowire.ConsumeVarint` after `i` bytes. */
  function Digits(b: Bytes, i: nat): (d: Decoded)
    requires i <= 9
    ensures d.Value? ==> 1 <= d.n <= |b| && d.v < Room(i)
    decreases 9 - i
  {
    if b == [] then Truncated
    else if i == 9 then if b[0] < 2 then Value(b[0], 1) else TooBig
    else if b[0] < 0x80 then Value(b[0], 1)
    else
      match Digits(b[1..], i + 1)
      case Value(v, n) => Value(b[0] - 0x80 + 128 * v, n + 1)
      case d => d
  }

  function Consume(b: Bytes): Decoded {
    Digits(b, 0)
  }

  /** `protowire.AppendVarint`. */
  function Encode(v: nat): (b: Bytes)
    ensures b != []
  {
    if v < 0x80 then [v] else [v % 0x80 + 0x80] + Encode(v / 0x80)
  }

  lemma {:induction false} DigitsEncode(v: nat, i: nat, tail: Bytes)
    requires i <= 9 && v < Room(i)
    ensures Digits(Encode(v) + tail, i) == Value(v, |Encode(v)|)
    decreases 9 - i
  {
    hide Room, Digits;
    if v >= 0x80 {
      var q, low := v / 0x80, v % 0x80;
      Smaller(v, i);
      DigitsEncode(q, i + 1, tail);
      DigitsCons(low + 0x80, Encode(q) + tail, i, q, |Encode(q)|);
      assert Encode(v) + tail == [low + 0x80] + (Encode(q) + tail);
    } else {
      assert Encode(v) + tail == [v] + tail;
      OneDigit(v, i, tail);
    }
  }

  lemma {:induction false} OneDigit(v: nat, i: nat, tail: Bytes)
    requires i <= 9 && v < Room(i) && v < 0x80
    ensures Digits([v] + tail, i) == Value(v, 1)
  {
  }

  lemma {:induction false} Smaller(v: nat, i: nat)
    requires i <= 9 && 0x80 <= v < Room(i)
    ensures i < 9 && v / 0x80 < Room(i + 1) && v == 128 * (v / 0x80) + v % 0x80
  {
  }

  lemma {:induction false} DigitsCons(c: Byte, b: Bytes, i: nat, v: nat, n: nat)
    requires i < 9 && c >= 0x80 && Digits(b, i + 1) == Value(v, n)
    ensures Digits([c] + b, i) == Value(c - 0x80 + 128 * v, n + 1)
  {
    assert ([c] + b)[1..] == b;
  }

  lemma {:induction false} RoomIs()
    ensures Room(0) == 0x1_0000_0000_0000_0000
  {
    assert Room(8) == 128 * 2;
    assert Room(6) == 128 * 128 * Room(8);
    assert Room(4) == 128 * 128 * Room(6);
    assert Room(2) == 128 * 128 * Room(4);
    assert Room(0) == 128 * 128 * Room(2);
  }

  /** Decoding undoes encoding, whatever follows, for every unsigned 64-bit value. */
  lemma {:induction false} ConsumeEncode(v: nat, tail: Bytes)
    requires v < 0x1_0000_0000_0000_0000
    ensures Consume(Encode(v) + tail) == Value(v, |Encode(v)|)
  {
    RoomIs();
    DigitsEncode(v, 0, tail);
  }

  /** More bytes do not change what is decoded. */
  lemma {:induction false} DigitsMore(b: Bytes, i: nat, tail: Bytes)
    requires i <= 9 && Digits(b, i) != Truncated
    ensures Digits(b + tail, i) == Digits(b, i)
    decreases 9 - i
  {
    if i < 9 && b[0] >= 0x80 {
      assert (b + tail)[1..] == b[1..] + tail;
      DigitsMore(b[1..], i + 1, tail);
    }
  }

  /** Nothing can be decoded exactly when no byte ends the varint and the tenth is missing. */
  lemma {:induction false} TruncatedIff(b: Bytes, i: nat)
    requires i <= 9
    ensures Digits(b, i) == Truncated <==> |b| < 10 - i && forall j :: 0 <= j < |b| ==> b[j] >= 0x80
    decreases 9 - i
  {
    if b != [] && i < 9 && b[0] >= 0x80 {
      TruncatedIff(b[1..], i + 1);
      assert forall j :: 0 < j < |b| ==> b[j] == b[1..][j - 1];
    }
  }

  /* ---- What the bytes mean ---- */

  /** The value of groups of seven bits, the lowest group first. */
  function Groups(b: Bytes): nat {
    if b == [] then 0 else b[0] % 0x80 + 0x80 * Groups(b[1..])
  }

  /** All bytes but the last have their highest bit set. */
  predicate Continued(b: Bytes) {
    b != [] && b[|b| - 1] < 0x80 && forall j :: 0 <= j < |b| - 1 ==> b[j] >= 0x80
  }

  lemma {:induction false} ContinuedTail(b: Bytes)
    requires |b| > 1
    ensures Continued(b) <==> b[0] >= 0x80 && Continued(b[1..])
  {
    assert b[1..][|b[1..]| - 1] == b[|b| - 1];
    if b[0] >= 0x80 && Continued(b[1..]) {
      assert forall j :: 0 < j < |b| - 1 ==> b[j] == b[1..][j - 1];
    }
    if Continued(b) {
      assert forall j :: 0 <= j < |b[1..]| - 1 ==> b[1..][j] == b[j + 1];
    }
  }

  /** The encoding of a value: its groups of seven bits, the lowest first, all but the last with
      the highest bit set, and none that is superfluous. */
  lemma {:induction false} EncodeForm(v: nat)
    ensures var b := Encode(v);
      Groups(b) == v && Continued(b) && (|b| > 1 ==> b[|b| - 1] != 0)
  {
    var b := Encode(v);
    if v < 0x80 {
      assert b[1..] == [];
    } else {
      EncodeForm(v / 0x80);
      assert b[1..] == Encode(v / 0x80);
      assert b[0] % 0x80 == v % 0x80;
      ContinuedTail(b);
      if |b| == 2 {
        assert Encode(v / 0x80)[0] != 0 by {
          assert v / 0x80 > 0;
        }
      }
    }
  }

  /** 300 is encoded as in the documentation of the protocol buffer encoding. */
  lemma {:induction false} Encode300()
    ensures Encode(300) == [0xAC, 0x02]
  {
    assert Encode(2) == [0x02];
  }

  /** What is decoded are the groups of the first bytes, to the one that ends the varint. */
  lemma {:induction false} DigitsAre(b: Bytes, i: nat)
    requires i <= 9
    ensures Digits(b, i).Value? ==>
      var d := Digits(b, i);
      d.n <= 10 - i && Continued(b[..d.n]) && d.v == Groups(b[..d.n])
    decreases 9 - i
  {
    var d := Digits(b, i);
    if d.Value? {
      var c := b[..d.n];
      if d.n == 1 {
        assert c == [b[0]] && c[1..] == [];
      } else {
        DigitsAre(b[1..], i + 1);
        assert c[1..] == b[1..][..d.n - 1];
        ContinuedTail(c);
      }
    }
  }

  /** A varint is too big exactly when its first nine bytes do not end it and the tenth is above
      one. */
  lemma {:induction false} TooBigIff(b: Bytes, i: nat)
    requires i <= 9
    ensures Digits(b, i) == TooBig <==> |b| >= 10 - i && b[9 - i] >= 2 && forall j :: 0 <= j < 9 - i ==> b[j] >= 0x80
    decreases 9 - i
  {
    if b != [] && i < 9 {
      if b[0] >= 0x80 {
        TooBigIff(b[1..], i + 1);
        assert forall j :: 0 < j < |b| ==> b[j] == b[1..][j - 1];
      } else {
        assert Digits(b, i).Value?;
      }
    }
  }

  /** A proper front of an encoded value is truncated. */
  lemma {:induction false} EncodeCut(v: nat, k: nat)
    requires v < 0x1_0000_0000_0000_0000 && k < |Encode(v)|
    ensures Consume(Encode(v)[..k]) == Truncated
  {
    EncodeForm(v);
    var b := Encode(v);
    ConsumeEncode(v, []);
    assert b + [] == b;
    DigitsAre(b, 0);
    TruncatedIff(b[..k], 0);
  }
}
