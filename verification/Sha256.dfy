/** The streaming digest of src/cpp/hash/sha256.cpp, proved against the Secure Hash Standard on whole messages. */
module Sha256 {
  import opened Fips180

  // Bytes are buffered up to a block, and each full block updates the state in place.

  const HEX := "0123456789abcdef"

  function HexByte(b: Byte): string { [HEX[b / 16], HEX[b % 16]] }

  function HexBytes(bs: seq<Byte>): string {
    if bs == [] then "" else HexBytes(bs[..|bs| - 1]) + HexByte(bs[|bs| - 1])
  }

  /** One word in lower-case hexadecimal, most significant byte first. */
  function HexWord(w: Word): string { HexBytes(BigEndian(w, 4)) }

  function HexWords(ws: seq<Word>): string {
    if ws == [] then "" else HexWords(ws[..|ws| - 1]) + HexWord(ws[|ws| - 1])
  }

  const TWO64 := 0x1_0000_0000_0000_0000

  class Sha256 {
    const state: array<Word>
    const buffer: array<Byte>
    var bufferLen: nat
    var bitLen: nat  // modulo 2^64
    ghost var digested: seq<Byte>  // the whole blocks transformed since the last reset

    ghost predicate Invariant()
      reads this, state, buffer
    {
      && state.Length == 8 && buffer.Length == 64 && bufferLen < 64
      && |digested| % 64 == 0 && state[..] == Blocks(digested)
    }

    /** Everything passed to Update since the last reset: the digested blocks and what is buffered. */
    ghost function Fed(): seq<Byte>
      reads this, buffer
      requires bufferLen <= buffer.Length
    {
      digested + buffer[..bufferLen]
    }

    ghost predicate Valid()
      reads this, state, buffer
    {
      Invariant() && bitLen == (8 * |Fed()|) % TWO64
    }

    constructor ()
      ensures Valid() && Fed() == [] && fresh(state) && fresh(buffer)
    {
      state := new Word[8](i => 0);
      buffer := new Byte[64](i => 0);
      new;
      Reset();
    }

    method Reset()
      requires state.Length == 8 && buffer.Length == 64
      modifies this, state
      ensures Valid() && Fed() == []
    {
      for i := 0 to 8
        invariant forall k | 0 <= k < i :: state[k] == H0()[k]
      {
        state[i] := INITIAL[i];
      }
      assert state[..] == H0();
      bitLen, bufferLen, digested := 0, 0, [];
    }

    /** One turn of `update`'s loop: the bytes are copied behind the buffered ones, and a full block is digested. */
    method Absorb(chunk: seq<Byte>)
      requires Invariant() && 0 < |chunk| <= 64 - bufferLen
      modifies this`bufferLen, this`digested, state, buffer
      ensures Invariant() && Fed() == old(Fed()) + chunk
    {
      hide Blocks, Compress;
      forall k | 0 <= k < |chunk| {
        buffer[bufferLen + k] := chunk[k];
      }
      bufferLen := bufferLen + |chunk|;
      assert digested + buffer[..bufferLen] == old(Fed()) + chunk;
      if bufferLen == 64 {
        BlocksAdd(digested, buffer[..]);
        assert buffer[..bufferLen] == buffer[..];
        Transform();
        digested := digested + buffer[..];
        bufferLen := 0;
      }
    }

    /** `update`: whatever was fed before, the object now stands for that followed by `data`. */
    method Update(data: seq<Byte>)
      requires Valid()
      modifies this, state, buffer
      ensures Valid() && Fed() == old(Fed()) + data
    {
      hide Blocks, Compress;
      ghost var before := Fed();
      bitLen := (bitLen + |data| * 8) % TWO64;
      BitLengthAdds(|before|, |data|);
      var p := 0;
      while p < |data|
        invariant 0 <= p <= |data|
        invariant Invariant() && Fed() == before + data[..p]
        invariant bitLen == (8 * |before + data|) % TWO64
      {
        var take := if 64 - bufferLen > |data| - p then |data| - p else 64 - bufferLen;
        Absorb(data[p..p + take]);
        assert before + data[..p] + data[p..p + take] == before + data[..p + take];
        p := p + take;
      }
      assert data[..p] == data;
    }

    /** The padding loop: zero bytes until eight are left in the block. */
    method PadWithZeros() returns (ghost k: nat)
      requires Valid()
      modifies this, state, buffer
      ensures Valid() && k < 64 && Fed() == old(Fed()) + Zeros(k) && bufferLen == 56
    {
      hide Blocks, Compress;
      k := 0;
      while bufferLen != 56
        invariant Valid() && Fed() == old(Fed()) + Zeros(k) && k + ZerosLeft(bufferLen) == ZerosLeft(old(bufferLen))
        decreases ZerosLeft(bufferLen)
      {
        ghost var whole, buffered := |digested|, bufferLen;
        Update([0]);
        OneMoreByte(whole, buffered, |digested|, bufferLen);
        assert old(Fed()) + Zeros(k) + [0] == old(Fed()) + Zeros(k + 1);
        k := k + 1;
      }
    }

    /** The length bytes of the padding, most significant first. */
    static method LengthBytes(bits: nat) returns (bytes: seq<Byte>)
      ensures bytes == BigEndian(bits, 8)
    {
      bytes := [];
      for i := 0 to 8
        invariant bytes == BigEndian(bits, 8)[..i]
      {
        BigEndianAt(bits, 8, i);
        bytes := bytes + [bits / Power256(7 - i) % 256];
      }
    }

    static method ToHex(words: seq<Word>) returns (out: string)
      ensures out == HexWords(words)
    {
      out := "";
      for j := 0 to |words|
        invariant out == HexWords(words[..j])
      {
        var s := words[j];
        ghost var bytes := BigEndian(s, 4);
        var hex := "";
        for i := 4 downto 0
          invariant hex == HexBytes(bytes[..4 - i])
        {
          BigEndianAt(s, 4, 3 - i);
          var byte := s / Power256(i) % 256;
          hex := hex + [HEX[byte / 16], HEX[byte % 16]];
          assert bytes[..4 - i][..3 - i] == bytes[..3 - i];
        }
        assert bytes[..4] == bytes;
        out := out + hex;
        assert words[..j + 1][..j] == words[..j];
      }
      assert words[..|words|] == words;
    }

    /** The padding of `hexdigest`: the byte 0x80, zeros, the bit length.  It ends a block. */
    method AppendPadding()
      requires Valid()
      modifies this, state, buffer
      ensures Invariant() && bufferLen == 0
      ensures digested == Pad(old(Fed()), old(bitLen))
    {
      hide Blocks, Compress, BigEndian, ZeroBytes;
      ghost var m := Fed();
      var bits := bitLen;
      Update([0x80]);
      ghost var k := PadWithZeros();
      ZerosArePadding(|m|, |digested|, k);
      ghost var padded := Fed();
      assert padded == m + [0x80] + Zeros(k);
      var bytes := LengthBytes(bits);
      ghost var whole := |digested|;
      Update(bytes);
      assert |Fed()| == whole + 64;
      Multiple64(whole, |digested|, bufferLen);
      assert Fed() == digested;
    }

    /** `hexdigest`: pad, print the state, and start over. */
    method HexDigest() returns (out: string)
      requires Valid()
      modifies this, state, buffer
      ensures |old(Fed())| < 0x2000_0000_0000_0000 ==> out == HexWords(Hash(old(Fed())))
      ensures Valid() && Fed() == []
    {
      hide Blocks, Compress, HexWords, Hash;
      ghost var m, bits := Fed(), bitLen;
      AppendPadding();
      if |m| < 0x2000_0000_0000_0000 {
        HashIsBlocks(m, bits);
      }
      out := ToHex(state[..]);
      Reset();
    }

    /** The first half of `transform`: the message schedule of the buffered block. */
    method FillSchedule() returns (w: array<Word>)
      requires buffer.Length == 64
      ensures fresh(w) && w[..] == Schedule(BlockWords(buffer[..]))
    {
      hide Schedule, FourBytes;
      w := new Word[64](i => 0);
      for i := 0 to 16
        invariant forall k | 0 <= k < i :: w[k] == BlockWord(buffer[..], k)
      {
        w[i] := FourBytes(buffer[i * 4], buffer[i * 4 + 1], buffer[i * 4 + 2], buffer[i * 4 + 3]);
      }
      assert w[..16] == BlockWords(buffer[..]);
      ExtendSchedule(w);
    }

    method ExtendSchedule(w: array<Word>)
      requires w.Length == 64
      modifies w
      ensures w[..] == Schedule(old(w[..16]))
    {
      hide Xor, Rotr, Shr, Add;
      for i := 16 to 64
        invariant Schedule(w[..i]) == Schedule(old(w[..16]))
      {
        ScheduleStep(w[..i]);
        var s0 := Xor(Xor(Rotr(w[i - 15], 7), Rotr(w[i - 15], 18)), Shr(w[i - 15], 3));
        var s1 := Xor(Xor(Rotr(w[i - 2], 17), Rotr(w[i - 2], 19)), Shr(w[i - 2], 10));
        w[i] := Add(Add(Add(w[i - 16], s0), w[i - 7]), s1);
        assert w[..i + 1] == w[..i] + [w[i]];
      }
      assert w[..] == w[..64];
    }

    /** The second half: 64 rounds on the working variables. */
    static method RunRounds(start: Vars, w: array<Word>) returns (v: Vars)
      requires w.Length == 64
      ensures v == Rounds(start, w[..])
    {
      hide Xor, And, Not, Add, Rotr, Rounds;
      var a, b, c, d, e, f, g, h := start.a, start.b, start.c, start.d, start.e, start.f, start.g, start.h;
      RoundsNone(start);
      for i := 0 to 64
        invariant Vars(a, b, c, d, e, f, g, h) == Rounds(start, w[..i])
      {
        var s1 := Xor(Xor(Rotr(e, 6), Rotr(e, 11)), Rotr(e, 25));
        var ch := Xor(And(e, f), And(Not(e), g));
        var t1 := Add(Add(Add(Add(h, s1), ch), K[i]), w[i]);
        var s0 := Xor(Xor(Rotr(a, 2), Rotr(a, 13)), Rotr(a, 22));
        var maj := Xor(Xor(And(a, b), And(a, c)), And(b, c));
        var t2 := Add(s0, maj);
        h := g;
        g := f;
        f := e;
        e := Add(d, t1);
        d := c;
        c := b;
        b := a;
        a := Add(t1, t2);
        RoundsAdd(start, w[..i + 1]);
        assert w[..i + 1][..i] == w[..i];
      }
      assert w[..64] == w[..];
      v := Vars(a, b, c, d, e, f, g, h);
    }

    method AddToState(v: Vars)
      requires state.Length == 8
      modifies state
      ensures state[..] == AddVars(old(state[..]), v)
    {
      hide Add;
      state[0] := Add(state[0], v.a);
      state[1] := Add(state[1], v.b);
      state[2] := Add(state[2], v.c);
      state[3] := Add(state[3], v.d);
      state[4] := Add(state[4], v.e);
      state[5] := Add(state[5], v.f);
      state[6] := Add(state[6], v.g);
      state[7] := Add(state[7], v.h);
    }

    /** `transform(buffer_)`: one application of the compression function. */
    method Transform()
      requires state.Length == 8 && buffer.Length == 64
      modifies state
      ensures state[..] == Compress(old(state[..]), buffer[..])
    {
      var w := FillSchedule();
      var v := RunRounds(VarsOf(state[..]), w);
      AddToState(v);
    }
  }

  lemma RoundsNone(v: Vars)
    ensures Rounds(v, []) == v
  {
  }

  lemma RoundsAdd(v: Vars, w: seq<Word>)
    requires 0 < |w| <= 64
    ensures Rounds(v, w) == Round(Rounds(v, w[..|w| - 1]), K[|w| - 1], w[|w| - 1])
  {
  }

  /** Hash one buffer: `sha256_hex`. */
  method HexOf(data: seq<Byte>) returns (out: string)
    requires |data| < 0x2000_0000_0000_0000
    ensures out == HexWords(Hash(data))
  {
    var h := new Sha256();
    h.Update(data);
    assert [] + data == data;
    out := h.HexDigest();
  }

  /** Zero bytes still missing before the last eight of a block. */
  function ZerosLeft(buffered: int): int { if buffered <= 56 then 56 - buffered else 120 - buffered }

  lemma BlocksAdd(m: seq<Byte>, block: seq<Byte>)
    requires |m| % 64 == 0 && |block| == 64
    ensures |m + block| % 64 == 0 && Blocks(m + block) == Compress(Blocks(m), block)
  {
    assert (m + block)[..|m|] == m && (m + block)[|m|..] == block;
  }

  lemma HashIsBlocks(m: seq<Byte>, bits: nat)
    requires |m| < 0x2000_0000_0000_0000 && bits == (8 * |m|) % TWO64
    ensures |Pad(m, bits)| % 64 == 0 && Hash(m) == Blocks(Pad(m, bits))
  {
    hide Blocks, Compress, Pad;
    assert bits == 8 * |m|;
    PadIsWholeBlocks(m, bits);
  }

  lemma ZerosArePadding(length: nat, whole: nat, k: nat)
    requires whole % 64 == 0 && k < 64 && length + 1 + k == whole + 56
    ensures k == ZeroBytes(length)
  {
  }

  lemma Multiple64(whole: nat, whole': nat, buffered: nat)
    requires whole % 64 == 0 && whole' % 64 == 0 && buffered < 64 && whole + 64 == whole' + buffered
    ensures buffered == 0
  {
  }

  /** Where one more byte leaves the buffer. */
  lemma OneMoreByte(whole: nat, buffered: nat, whole': nat, buffered': nat)
    requires whole % 64 == 0 && whole' % 64 == 0 && buffered < 64 && buffered' < 64
    requires whole' + buffered' == whole + buffered + 1
    ensures buffered' == if buffered == 63 then 0 else buffered + 1
  {
  }

  lemma BitLengthAdds(a: nat, b: nat)
    ensures ((8 * a) % TWO64 + b * 8) % TWO64 == (8 * (a + b)) % TWO64
  {
  }

  /** The loop adds the four words of the schedule's recurrence in another order. */
  lemma ScheduleStep(w: seq<Word>)
    requires 16 <= |w| < 64
    ensures var i := |w|;
            Schedule(w) == Schedule(w + [Add(Add(Add(w[i - 16], SmallSigma0(w[i - 15])), w[i - 7]),
                                             SmallSigma1(w[i - 2]))])
  {
    var i := |w|;
    AddReordered(w[i - 16], SmallSigma0(w[i - 15]), w[i - 7], SmallSigma1(w[i - 2]));
  }

  lemma AddReordered(a: Word, b: Word, c: Word, d: Word)
    ensures Add(Add(Add(a, b), c), d) == Add(Add(Add(d, c), b), a)
  {
    AddFour(a, b, c, d);
    AddFour(d, c, b, a);
    assert a + b + c + d == d + c + b + a;
  }

  lemma AddFour(a: Word, b: Word, c: Word, d: Word)
    ensures Add(Add(Add(a, b), c), d) == (a + b + c + d) % 0x1_0000_0000
  {
    ModAdd(a + b, c);
    ModAdd(a + b + c, d);
  }

  lemma ModAdd(x: nat, y: nat)
    ensures (x % 0x1_0000_0000 + y) % 0x1_0000_0000 == (x + y) % 0x1_0000_0000
  {
  }
}
