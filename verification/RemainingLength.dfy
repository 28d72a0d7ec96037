/** The variable-length "Remaining Length" field, section 2.2.3 of MQTT 3.1.1. */
module RemainingLength {
  import opened Common
  import opened Errors

  const MAX: u32 := 268_435_455

  function Pow128(i: nat): (p: nat)
    ensures p >= 1
  {
    if i == 0 then 1 else 128 * Pow128(i - 1)
  }

  /** The number a run of length bytes stands for, least significant group first. */
  function Value(w: seq<byte>): nat {
    if w == [] then 0 else w[0] % 128 + 128 * Value(w[1..])
  }

  /** A complete code word: continuation bits everywhere but on the last of one to four bytes. */
  predicate CodeWord(w: seq<byte>) {
    && 1 <= |w| <= 4
    && w[|w| - 1] < 128
    && forall j :: 0 <= j < |w| - 1 ==> w[j] >= 128
  }

  /** How many leading bytes of `buf`, at most four, carry the continuation bit. */
  function Continued(buf: seq<byte>, i: nat): (k: nat)
    requires i <= 4 && i <= |buf|
    requires forall j :: 0 <= j < i ==> buf[j] >= 128
    ensures i <= k <= 4 && k <= |buf|
    ensures forall j :: 0 <= j < k ==> buf[j] >= 128
    ensures k == 4 || k == |buf| || buf[k] < 128
    decreases 4 - i
  {
    if i == 4 || i == |buf| || buf[i] < 128 then i else Continued(buf, i + 1)
  }

  function Decode(buf: seq<byte>): (r: Decoded<(u32, nat)>)
    ensures r.Ok? ==> 1 <= r.value.1 <= 4 && r.value.1 <= |buf|
    ensures r.Ok? ==> CodeWord(buf[..r.value.1]) && r.value.0 == Value(buf[..r.value.1]) <= MAX
    ensures r.Err? ==> r.error in {Incomplete, InvalidRemainingLength}
    ensures r == Err(Incomplete) <==> |buf| < 4 && forall j :: 0 <= j < |buf| ==> buf[j] >= 128
    ensures r == Err(InvalidRemainingLength) <==> |buf| >= 4 && forall j :: 0 <= j < 4 ==> buf[j] >= 128
  {
    var k := Continued(buf, 0);
    if k == 4 then Err(InvalidRemainingLength)
    else if k == |buf| then Err(Incomplete)
    else
      ValueBound(buf[..k + 1]);
      Ok((Value(buf[..k + 1]), k + 1))
  }

  function Encode(x: nat): (w: seq<byte>)
    ensures |w| >= 1
  {
    if x < 128 then [x] else [x % 128 + 128] + Encode(x / 128)
  }

  /** Encoding writes continuation bits on all bytes but the last, and the value it was given. */
  lemma {:induction false} EncodeSound(x: nat)
    ensures var w := Encode(x);
            && Value(w) == x
            && w[|w| - 1] < 128
            && forall j :: 0 <= j < |w| - 1 ==> w[j] >= 128
  {
    if x >= 128 {
      EncodeSound(x / 128);
      assert Encode(x)[1..] == Encode(x / 128);
    } else {
      assert Encode(x)[1..] == [];
    }
  }

  lemma {:induction false} ValueBound(w: seq<byte>)
    ensures Value(w) < Pow128(|w|)
    ensures |w| <= 4 ==> Value(w) <= MAX
  {
    if w != [] {
      ValueBound(w[1..]);
    }
    if |w| <= 4 {
      PowersOf128();
    }
  }

  lemma PowersOf128()
    ensures Pow128(0) == 1 && Pow128(1) == 128 && Pow128(2) == 16_384
    ensures Pow128(3) == 2_097_152 && Pow128(4) == 268_435_456
  {
    assert Pow128(2) == 128 * Pow128(1);
    assert Pow128(3) == 128 * Pow128(2);
    assert Pow128(4) == 128 * Pow128(3);
  }

  /** What a group of seven bits is worth at position `i`. */
  function Worth(group: nat, i: nat): nat {
    group * Pow128(i)
  }

  lemma WorthNext(group: nat, i: nat)
    ensures Worth(group, 0) == group
    ensures Worth(group, i + 1) == 128 * Worth(group, i)
  {
    var p := Pow128(i);
    assert Pow128(i + 1) == 128 * p;
  }

  lemma {:induction false} ValueSnoc(w: seq<byte>, b: byte)
    ensures Value(w + [b]) == Value(w) + Worth(b % 128, |w|)
  {
    hide Worth;
    if w == [] {
      WorthNext(b % 128, 0);
      assert w + [b] == [b];
      assert Value([b]) == b % 128 + 128 * Value([b][1..]);
    } else {
      WorthNext(b % 128, |w| - 1);
      ValueSnoc(w[1..], b);
      assert (w + [b])[1..] == w[1..] + [b];
    }
  }

  /** The decoding loop; its accumulator and multiplier stay within 32 bits. */
  method DecodeLoop(buf: seq<byte>) returns (r: Decoded<(u32, nat)>)
    ensures r == Decode(buf)
  {
    var value: u32 := 0;
    var i := 0;
    while true
      invariant 0 <= i <= 4 && i <= |buf|
      invariant forall j :: 0 <= j < i ==> buf[j] >= 128
      invariant value == Value(buf[..i])
      decreases 4 - i
    {
      if i >= 4 {
        return Err(InvalidRemainingLength);
      }
      if i >= |buf| {
        return Err(Incomplete);
      }
      var encodedByte := buf[i];
      ValueSnoc(buf[..i], encodedByte);
      assert buf[..i] + [encodedByte] == buf[..i + 1];
      ValueBound(buf[..i + 1]);
      PowersOf128();
      var multiplier: u32 := Pow128(i);
      value := value + encodedByte % 128 * multiplier;
      i := i + 1;
      if encodedByte < 128 {
        break;
      }
    }
    return Ok((value, i));
  }

  /** What one turn of the encoding loop appends. */
  lemma EncodeStep(out: seq<byte>, x: nat, b: byte)
    requires b == if x / 128 > 0 then x % 128 + 128 else x % 128
    ensures x / 128 == 0 ==> out + Encode(x) == out + [b]
    ensures x / 128 > 0 ==> out + Encode(x) == (out + [b]) + Encode(x / 128)
  {
  }

  /** The encoding loop. */
  method EncodeLoop(len: u32) returns (out: seq<byte>)
    ensures out == Encode(len)
  {
    out := [];
    var x: nat := len;
    ghost var goal := Encode(len);
    while true
      invariant out + Encode(x) == goal
      decreases x
    {
      var encodedByte: byte := x % 128;
      var rest := x / 128;
      if rest > 0 {
        encodedByte := encodedByte + 128;
      }
      EncodeStep(out, x, encodedByte);
      out := out + [encodedByte];
      x := rest;
      if x == 0 {
        break;
      }
    }
  }

  lemma {:induction false} EncodeLength(x: nat, k: nat)
    requires k >= 1
    ensures |Encode(x)| <= k <==> x < Pow128(k)
    decreases k
  {
    if k > 1 {
      EncodeLength(x / 128, k - 1);
    } else {
      assert Pow128(1) == 128 * Pow128(0);
    }
  }

  lemma GroupAndRest(group: nat, rest: nat)
    requires group < 128
    ensures (group + 128 * rest) % 128 == group && (group + 128 * rest) / 128 == rest
  {
  }

  /** Two words of one value: the one that `Encode` writes is never longer, and equal length means equal bytes. */
  lemma {:induction false} ShortestWord(w: seq<byte>)
    requires |w| >= 1 && w[|w| - 1] < 128
    requires forall j :: 0 <= j < |w| - 1 ==> w[j] >= 128
    ensures |Encode(Value(w))| <= |w|
    ensures |Encode(Value(w))| == |w| ==> Encode(Value(w)) == w
  {
    if |w| == 1 {
      assert w == [w[0]];
      assert Value(w[1..]) == 0;
    } else {
      var tail := w[1..];
      ShortestWord(tail);
      GroupAndRest(w[0] % 128, Value(tail));
      assert Encode(Value(w)) == [w[0]] + Encode(Value(tail)) || Value(tail) == 0;
      assert w == [w[0]] + tail;
    }
  }

  /** The code is canonical: every accepted field is at least as long as the encoding of its value. */
  lemma UniqueShortest(buf: seq<byte>)
    requires Decode(buf).Ok?
    ensures var (v, k) := Decode(buf).value;
            && |Encode(v)| <= k
            && (|Encode(v)| == k ==> Encode(v) == buf[..k])
  {
    var (v, k) := Decode(buf).value;
    ShortestWord(buf[..k]);
  }

  /** A complete code word is read back whatever follows it. */
  lemma DecodeWord(w: seq<byte>, rest: seq<byte>)
    requires CodeWord(w)
    ensures Decode(w + rest) == Ok((Value(w), |w|))
  {
    var buf := w + rest;
    assert forall j :: 0 <= j < |w| ==> buf[j] == w[j];
    var (v, k) := Decode(buf).value;
    assert buf[k - 1] < 128;
    assert buf[|w| - 1] < 128 && forall j :: 0 <= j < k - 1 ==> buf[j] == buf[..k][j] >= 128;
    assert k == |w|;
    assert buf[..|w|] == w;
  }

  /** Decoding inverts encoding exactly up to 268,435,455; every larger u32 is rejected. */
  lemma DecodeEncode(x: u32, rest: seq<byte>)
    ensures x <= MAX <==> |Encode(x)| <= 4
    ensures Decode(Encode(x) + rest) ==
            if x <= MAX then Ok((x, |Encode(x)|)) else Err(InvalidRemainingLength)
  {
    PowersOf128();
    EncodeLength(x, 4);
    EncodeSound(x);
    if x <= MAX {
      DecodeWord(Encode(x), rest);
    } else {
      var buf := Encode(x) + rest;
      assert forall j :: 0 <= j < 4 ==> buf[j] == Encode(x)[j];
    }
  }

  /** More input never changes a verdict other than Incomplete. */
  lemma Stable(buf: seq<byte>, more: seq<byte>)
    requires Decode(buf) != Err(Incomplete)
    ensures Decode(buf + more) == Decode(buf)
  {
    var all := buf + more;
    assert forall j :: 0 <= j < |buf| ==> all[j] == buf[j];
    if Decode(buf).Ok? {
      var k := Decode(buf).value.1;
      assert all == buf[..k] + all[k..];
      DecodeWord(buf[..k], all[k..]);
    }
  }

  /** A proper prefix of an accepted field is Incomplete. */
  lemma PrefixIncomplete(buf: seq<byte>, k: nat)
    requires Decode(buf).Ok? && k < Decode(buf).value.1
    ensures Decode(buf[..k]) == Err(Incomplete)
  {
    var n := Decode(buf).value.1;
    assert forall j :: 0 <= j < k ==> buf[..k][j] == buf[..n][j];
  }

  // ---- The field in plain bytes ----

  /** `w` is a length field, of one to four bytes, for the number `n`: table 2.4 of MQTT 3.1.1. */
  predicate Announces(w: seq<byte>, n: int) {
    || (|w| == 1 && w[0] < 128 && n == w[0])
    || (|w| == 2 && w[0] >= 128 > w[1] && n == w[0] as int - 128 + 128 * w[1] as int)
    || (|w| == 3 && w[0] >= 128 && w[1] >= 128 > w[2]
        && n == w[0] as int - 128 + 128 * (w[1] as int - 128) + 16_384 * w[2] as int)
    || (|w| == 4 && w[0] >= 128 && w[1] >= 128 && w[2] >= 128 > w[3]
        && n == w[0] as int - 128 + 128 * (w[1] as int - 128) + 16_384 * (w[2] as int - 128) + 2_097_152 * w[3] as int)
  }

  lemma ValueCons(w: seq<byte>)
    ensures Value(w) == if w == [] then 0 else w[0] % 128 + 128 * Value(w[1..])
  {
  }

  lemma SevenBits(b: byte)
    ensures b % 128 as int == if b < 128 then b as int else b as int - 128
  {
  }

  lemma ValueOfTwo(w: seq<byte>)
    requires 1 <= |w| <= 2
    ensures |w| == 1 ==> Value(w) == w[0] % 128 as int
    ensures |w| == 2 ==> Value(w) == w[0] % 128 as int + 128 * (w[1] % 128 as int)
  {
    hide Value;
    ValueCons(w);
    ValueCons(w[1..]);
    ValueCons([]);
    assert |w| == 1 ==> w[1..] == [];
    assert |w| == 2 ==> w[1..][1..] == [];
  }

  lemma ValueOfFour(w: seq<byte>)
    requires 3 <= |w| <= 4
    ensures |w| == 3 ==> Value(w) == w[0] % 128 as int + 128 * (w[1] % 128 as int) + 16_384 * (w[2] % 128 as int)
    ensures |w| == 4 ==> Value(w) == w[0] % 128 as int + 128 * (w[1] % 128 as int) + 16_384 * (w[2] % 128 as int)
                                     + 2_097_152 * (w[3] % 128 as int)
  {
    hide Value;
    ValueCons(w);
    ValueCons(w[1..]);
    ValueOfTwo(w[1..][1..]);
  }

  /** A field announces a number exactly when it is a code word for it. */
  lemma AnnouncesIsCodeWord(w: seq<byte>, n: nat)
    ensures Announces(w, n) <==> CodeWord(w) && Value(w) == n
  {
    hide Value;
    if 1 <= |w| <= 4 {
      forall i | 0 <= i < |w|
        ensures w[i] % 128 as int == if w[i] < 128 then w[i] as int else w[i] as int - 128
      {
        SevenBits(w[i]);
      }
      if |w| <= 2 {
        ValueOfTwo(w);
      } else {
        ValueOfFour(w);
      }
    }
  }

  /** What is decoded is what the leading bytes announce, and nothing else is. */
  lemma DecodeExactly(buf: seq<byte>, n: nat, k: nat)
    ensures k <= |buf| && Announces(buf[..k], n) <==> Decode(buf) == Ok((n, k))
  {
    if k <= |buf| {
      AnnouncesIsCodeWord(buf[..k], n);
      if CodeWord(buf[..k]) {
        DecodeWord(buf[..k], buf[k..]);
        assert buf == buf[..k] + buf[k..];
      }
    }
  }

  lemma EncodeCons(x: nat)
    ensures Encode(x) == if x < 128 then [x] else [x % 128 + 128] + Encode(x / 128)
  {
  }

  lemma DivideAgain(x: nat)
    ensures x / 128 / 128 == x / 16_384 && x / 16_384 / 128 == x / 2_097_152
  {
  }

  /** The bytes that are written, for every number that fits four of them. */
  lemma EncodeExactly(x: nat)
    requires x <= 268_435_455
    ensures Encode(x) ==
            if x < 128 then [x]
            else if x < 16_384 then [x % 128 + 128, x / 128]
            else if x < 2_097_152 then [x % 128 + 128, x / 128 % 128 + 128, x / 16_384]
            else [x % 128 + 128, x / 128 % 128 + 128, x / 16_384 % 128 + 128, x / 2_097_152]
  {
    hide Encode;
    DivideAgain(x);
    EncodeCons(x);
    EncodeCons(x / 128);
    EncodeCons(x / 16_384);
    EncodeCons(x / 2_097_152);
  }
}
