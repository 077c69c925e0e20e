/** The standard padded base64 encoding of section 4 of RFC 4648 (Go's
    `base64.StdEncoding`): every 3 bytes become 4 characters of the alphabet
    `A-Z a-z 0-9 + /`, and a final group of 1 or 2 bytes is padded with `=`
    to 4 characters. */
module Base64 {
  import opened GoStrings
  import opened Wrappers

  /** The padding character `=`. */
  const PAD: Byte := 61

  /** The 64 characters of the standard alphabet. */
  predicate IsAlphabet(c: Byte)
  {
    (65 <= c <= 90) || (97 <= c <= 122) || (48 <= c <= 57) || c == 43 || c == 47
  }

  /** The character of the alphabet standing for the 6-bit value `v`. */
  function Char(v: int): (c: Byte)
    requires 0 <= v < 64
    ensures IsAlphabet(c)
  {
    if v < 26 then 65 + v
    else if v < 52 then 71 + v
    else if v < 62 then v - 4
    else if v == 62 then 43
    else 47
  }

  /** The 6-bit value an alphabet character stands for. */
  function Value(c: Byte): (v: int)
    requires IsAlphabet(c)
    ensures 0 <= v < 64
  {
    if 65 <= c <= 90 then c - 65
    else if 97 <= c <= 122 then c - 71
    else if 48 <= c <= 57 then c + 4
    else if c == 43 then 62
    else 63
  }

  lemma ValueChar(v: int)
    requires 0 <= v < 64
    ensures Value(Char(v)) == v
  {
  }

  /** Three bytes as four characters. */
  function EncodeBlock(b0: Byte, b1: Byte, b2: Byte): Str
  {
    [Char(b0 / 4), Char((b0 % 4) * 16 + b1 / 16), Char((b1 % 16) * 4 + b2 / 64), Char(b2 % 64)]
  }

  /** `base64.StdEncoding.EncodeToString`. */
  function Encode(b: Str): (r: Str)
    ensures |r| == (|b| + 2) / 3 * 4
    ensures forall i :: 0 <= i < |r| ==> IsAlphabet(r[i]) || r[i] == PAD
    decreases |b|
  {
    if |b| == 0 then []
    else if |b| == 1 then [Char(b[0] / 4), Char((b[0] % 4) * 16), PAD, PAD]
    else if |b| == 2 then [Char(b[0] / 4), Char((b[0] % 4) * 16 + b[1] / 16), Char((b[1] % 16) * 4), PAD]
    else EncodeBlock(b[0], b[1], b[2]) + Encode(b[3..])
  }

  /** Four alphabet characters as three bytes. */
  function DecodeBlock(q: Str): Option<Str>
    requires |q| == 4
  {
    if IsAlphabet(q[0]) && IsAlphabet(q[1]) && IsAlphabet(q[2]) && IsAlphabet(q[3]) then
      var a, b, c, d := Value(q[0]), Value(q[1]), Value(q[2]), Value(q[3]);
      Some([a * 4 + b / 16, (b % 16) * 16 + c / 4, (c % 4) * 64 + d])
    else None
  }

  /** The last group of four characters, which may end in one or two `=`.
      Bits of the last character below the decoded bytes are ignored, as
      Go's non-strict decoder does. */
  function DecodeFinal(q: Str): Option<Str>
    requires |q| == 4
  {
    if IsAlphabet(q[0]) && IsAlphabet(q[1]) && q[2] == PAD && q[3] == PAD then
      Some([Value(q[0]) * 4 + Value(q[1]) / 16])
    else if IsAlphabet(q[0]) && IsAlphabet(q[1]) && IsAlphabet(q[2]) && q[3] == PAD then
      var a, b, c := Value(q[0]), Value(q[1]), Value(q[2]);
      Some([a * 4 + b / 16, (b % 16) * 16 + c / 4])
    else DecodeBlock(q)
  }

  /** `base64.StdEncoding.DecodeString`: fails unless the input is whole
      groups of four alphabet characters, padding allowed only at the end. */
  function Decode(s: Str): (r: Option<Str>)
    ensures r.Some? ==> |s| % 4 == 0
    decreases |s|
  {
    if |s| == 0 then Some([])
    else if |s| < 4 then None
    else if |s| == 4 then DecodeFinal(s)
    else
      match DecodeBlock(s[..4])
      case None => None
      case Some(head) =>
        match Decode(s[4..])
        case None => None
        case Some(tail) => Some(head + tail)
  }

  lemma SplitBits(hi: int, lo: int, k: int)
    requires 0 <= lo < k && (k == 4 || k == 16 || k == 64)
    ensures (hi * k + lo) / k == hi && (hi * k + lo) % k == lo
  {
  }

  lemma DecodeEncodeBlock(b0: Byte, b1: Byte, b2: Byte)
    ensures DecodeBlock(EncodeBlock(b0, b1, b2)) == Some([b0, b1, b2])
  {
    var v0, v1, v2, v3 := b0 / 4, (b0 % 4) * 16 + b1 / 16, (b1 % 16) * 4 + b2 / 64, b2 % 64;
    ValueChar(v0);
    ValueChar(v1);
    ValueChar(v2);
    ValueChar(v3);
    SplitBits(b0 % 4, b1 / 16, 16);
    SplitBits(b1 % 16, b2 / 64, 4);
    assert v0 * 4 + v1 / 16 == b0;
    assert (v1 % 16) * 16 + v2 / 4 == b1;
    assert (v2 % 4) * 64 + v3 == b2;
  }

  lemma DecodeEncodeOne(b0: Byte)
    ensures DecodeFinal([Char(b0 / 4), Char((b0 % 4) * 16), PAD, PAD]) == Some([b0])
  {
    ValueChar(b0 / 4);
    ValueChar((b0 % 4) * 16);
    SplitBits(b0 % 4, 0, 16);
  }

  lemma DecodeEncodeTwo(b0: Byte, b1: Byte)
    ensures DecodeFinal([Char(b0 / 4), Char((b0 % 4) * 16 + b1 / 16), Char((b1 % 16) * 4), PAD])
         == Some([b0, b1])
  {
    var v0, v1, v2 := b0 / 4, (b0 % 4) * 16 + b1 / 16, (b1 % 16) * 4;
    ValueChar(v0);
    ValueChar(v1);
    ValueChar(v2);
    SplitBits(b0 % 4, b1 / 16, 16);
    SplitBits(b1 % 16, 0, 4);
    assert v0 * 4 + v1 / 16 == b0;
    assert (v1 % 16) * 16 + v2 / 4 == b1;
  }

  /** Decoding inverts encoding. */
  lemma {:induction false} DecodeEncode(b: Str)
    ensures Decode(Encode(b)) == Some(b)
    decreases |b|
  {
    if |b| == 1 {
      DecodeEncodeOne(b[0]);
      assert [b[0]] == b;
    } else if |b| == 2 {
      DecodeEncodeTwo(b[0], b[1]);
      assert [b[0], b[1]] == b;
    } else if |b| >= 3 {
      var block, tail := EncodeBlock(b[0], b[1], b[2]), Encode(b[3..]);
      assert Encode(b) == block + tail;
      assert [b[0], b[1], b[2]] + b[3..] == b;
      if |b| == 3 {
        assert tail == [];
        assert block + tail == block;
        DecodeEncodeLastBlock(b[0], b[1], b[2]);
        assert b == [b[0], b[1], b[2]];
      } else {
        DecodeEncodeBlock(b[0], b[1], b[2]);
        DecodeEncode(b[3..]);
        DecodeCons(block, tail);
      }
    }
  }

  /** A whole final group of three bytes decodes back. */
  lemma DecodeEncodeLastBlock(b0: Byte, b1: Byte, b2: Byte)
    ensures Decode(EncodeBlock(b0, b1, b2)) == Some([b0, b1, b2])
  {
    var s := EncodeBlock(b0, b1, b2);
    DecodeEncodeBlock(b0, b1, b2);
    assert IsAlphabet(s[2]) && IsAlphabet(s[3]);
    assert DecodeFinal(s) == DecodeBlock(s);
  }

  /** A leading whole group decodes in front of the rest. */
  lemma DecodeCons(block: Str, tail: Str)
    requires |block| == 4 && DecodeBlock(block).Some?
    requires |tail| > 0 && Decode(tail).Some?
    ensures Decode(block + tail) == Some(DecodeBlock(block).value + Decode(tail).value)
  {
    var s := block + tail;
    assert s[..4] == block;
    assert s[4..] == tail;
  }

  /** Encoded text never holds the separators of the instance-id and list
      formats, `_` and `,`. */
  lemma EncodeHasNoSeparators(b: Str)
    ensures 95 !in Encode(b) && 44 !in Encode(b)
  {
  }
}
