/** The content hash of src/cpp/hash/content_hash.cpp. */
module ContentHash {
  import opened Fips180
  import opened Sha256

  // The fields of a symbol, its parameters and its raw comment, each framed by its length, are fed one by
  // one into the streaming digest.  The byte stream determines the content: no two contents share it.

  type Bytes = seq<Byte>

  datatype Symbol = Symbol(usr: Bytes, kind: int, qualifiedName: Bytes, signature: Bytes, typeRepr: Bytes,
                           access: int, storage: int, isDefinition: bool)

  datatype Parameter = Parameter(typeRepr: Bytes, name: Bytes, defaultValue: Bytes)

  /** `std::to_string` of an int, as ASCII. */
  function Decimal(n: int): Bytes { if n < 0 then [45] + Digits(-n) else Digits(n) }

  function Digits(n: nat): (r: Bytes)
    ensures r != [] && r[0] >= 48
  {
    if n < 10 then [48 + n] else var low: Byte := 48 + n % 10; Digits(n / 10) + [low]
  }

  /** `kSymbolHashFields`, in hashing order. */
  function SymbolFields(s: Symbol): (r: seq<Bytes>)
    ensures |r| == 8
  {
    [s.usr, Decimal(s.kind), s.qualifiedName, s.signature, s.typeRepr, Decimal(s.access), Decimal(s.storage),
     if s.isDefinition then [49] else [48]]
  }

  function Length(n: nat): Bytes { BigEndian(n, 8) }

  function Frame(v: Bytes): Bytes { Length(|v|) + v }

  function Frames(vs: seq<Bytes>): Bytes { if vs == [] then [] else Frames(vs[..|vs| - 1]) + Frame(vs[|vs| - 1]) }

  function ParameterFields(ps: seq<Parameter>): (r: seq<Bytes>)
    ensures |r| == 3 * |ps|
  {
    if ps == [] then []
    else var p := ps[|ps| - 1]; ParameterFields(ps[..|ps| - 1]) + [p.typeRepr, p.name, p.defaultValue]
  }

  /** What one call feeds to the digest. */
  function Stream(s: Symbol, ps: seq<Parameter>, raw: Bytes): Bytes {
    Frames(SymbolFields(s)) + Length(|ps|) + Frames(ParameterFields(ps)) + Frame(raw)
  }

  // ---- feeding ----

  /** The loop of `update_length`: eight bytes filled from the back. */
  method LengthBytes(length: nat) returns (be: array<Byte>)
    ensures fresh(be) && be[..] == Length(length)
  {
    be := new Byte[8](_ => 0);
    var rest := length;
    assert be[8..] == [];
    for i := 8 downto 0
      invariant Length(length) == BigEndian(rest, i) + be[i..]
    {
      ghost var done := be[i + 1..];
      be[i] := rest % 256;
      assert be[i..] == [be[i]] + done;
      rest := rest / 256;
    }
    assert be[0..] == be[..];
  }

  /** `update_length`. */
  method UpdateLength(h: Sha256, length: nat)
    requires h.Valid()
    modifies h, h.state, h.buffer
    ensures h.Valid() && h.Fed() == old(h.Fed()) + Length(length)
  {
    hide Blocks, Compress, HexWords, Hash, BigEndian;
    var be := LengthBytes(length);
    h.Update(be[..]);
  }

  /** `field`: one length-framed value. */
  method Feed(h: Sha256, v: Bytes)
    requires h.Valid()
    modifies h, h.state, h.buffer
    ensures h.Valid() && h.Fed() == old(h.Fed()) + Frame(v)
  {
    hide Blocks, Compress, HexWords, Hash, BigEndian;
    ghost var before := h.Fed();
    UpdateLength(h, |v|);
    h.Update(v);
    assert before + Length(|v|) + v == before + Frame(v);
  }

  method FeedAll(h: Sha256, vs: seq<Bytes>)
    requires h.Valid()
    modifies h, h.state, h.buffer
    ensures h.Valid() && h.Fed() == old(h.Fed()) + Frames(vs)
  {
    hide Blocks, Compress, HexWords, Hash, BigEndian, Frame;
    ghost var before := h.Fed();
    assert before + [] == before;
    for i := 0 to |vs|
      invariant h.Valid() && h.Fed() == before + Frames(vs[..i])
    {
      Feed(h, vs[i]);
      assert vs[..i + 1][..i] == vs[..i];
      assert before + Frames(vs[..i]) + Frame(vs[i]) == before + (Frames(vs[..i]) + Frame(vs[i]));
    }
    assert vs[..|vs|] == vs;
  }

  method FeedParameters(h: Sha256, ps: seq<Parameter>)
    requires h.Valid()
    modifies h, h.state, h.buffer
    ensures h.Valid() && h.Fed() == old(h.Fed()) + Frames(ParameterFields(ps))
  {
    hide Blocks, Compress, HexWords, Hash, BigEndian, Frame, Frames;
    ghost var before := h.Fed();
    FramesOfNothing();
    assert before + [] == before;
    for i := 0 to |ps|
      invariant h.Valid() && h.Fed() == before + Frames(ParameterFields(ps[..i]))
    {
      var p := ps[i];
      FeedAll(h, [p.typeRepr, p.name, p.defaultValue]);
      assert ps[..i + 1][..i] == ps[..i];
      FramesConcat(ParameterFields(ps[..i]), [p.typeRepr, p.name, p.defaultValue]);
      assert before + Frames(ParameterFields(ps[..i])) + Frames([p.typeRepr, p.name, p.defaultValue])
          == before + Frames(ParameterFields(ps[..i + 1]));
    }
    assert ps[..|ps|] == ps;
  }

  /** `content_hash`. */
  method ContentHash(s: Symbol, ps: seq<Parameter>, raw: Bytes) returns (digest: string)
    ensures |Stream(s, ps, raw)| < 0x2000_0000_0000_0000 ==> digest == HexWords(Hash(Stream(s, ps, raw)))
  {
    hide Blocks, Compress, HexWords, Hash, Frames, Frame, Length, SymbolFields, ParameterFields, Stream;
    var h := new Sha256();
    FeedAll(h, SymbolFields(s));
    UpdateLength(h, |ps|);
    FeedParameters(h, ps);
    Feed(h, raw);
    StreamParts(s, ps, raw);
    digest := h.HexDigest();
  }

  lemma StreamParts(s: Symbol, ps: seq<Parameter>, raw: Bytes)
    ensures Stream(s, ps, raw) == [] + Frames(SymbolFields(s)) + Length(|ps|) + Frames(ParameterFields(ps)) + Frame(raw)
    ensures Stream(s, ps, raw)
         == Frames(SymbolFields(s)) + (Length(|ps|) + (Frames(ParameterFields(ps)) + Frame(raw)))
  {
    hide Frames, Frame, Length, SymbolFields, ParameterFields;
    assert [] + Frames(SymbolFields(s)) == Frames(SymbolFields(s));
    Regroup4(Frames(SymbolFields(s)), Length(|ps|), Frames(ParameterFields(ps)), Frame(raw));
  }

  lemma Regroup4(a: Bytes, b: Bytes, c: Bytes, d: Bytes)
    ensures a + b + c + d == a + (b + (c + d))
  {
  }

  lemma FramesOfNothing()
    ensures Frames([]) == [] && ParameterFields([]) == []
  {
  }

  lemma {:induction false} FramesConcat(a: seq<Bytes>, b: seq<Bytes>)
    ensures Frames(a + b) == Frames(a) + Frames(b)
  {
    hide Frame;
    if b == [] {
      assert a + b == a;
    } else {
      assert (a + b)[..|a + b| - 1] == a + b[..|b| - 1];
      FramesConcat(a, b[..|b| - 1]);
    }
  }

  // ---- reading the stream back ----

  ghost predicate Short(v: Bytes) { |v| < TWO64 }

  ghost predicate AllShort(vs: seq<Bytes>) { forall v <- vs :: Short(v) }

  lemma LengthReadsBack(n: nat, n': nat, x: Bytes, x': Bytes)
    requires n < TWO64 && n' < TWO64 && Length(n) + x == Length(n') + x'
    ensures n == n' && x == x'
  {
    assert Power256(8) == TWO64;
    BigEndianValue(n, 8);
    BigEndianValue(n', 8);
    hide BigEndian;
    assert (Length(n) + x)[..8] == Length(n) && (Length(n') + x')[..8] == Length(n');
    assert (Length(n) + x)[8..] == x && (Length(n') + x')[8..] == x';
  }

  lemma FrameReadsBack(v: Bytes, v': Bytes, x: Bytes, x': Bytes)
    requires Short(v) && Short(v') && Frame(v) + x == Frame(v') + x'
    ensures v == v' && x == x'
  {
    hide Length;
    assert Frame(v) + x == Length(|v|) + (v + x) && Frame(v') + x' == Length(|v'|) + (v' + x');
    LengthReadsBack(|v|, |v'|, v + x, v' + x');
    assert (v + x)[..|v|] == v && (v' + x')[..|v'|] == v';
    assert (v + x)[|v|..] == x && (v' + x')[|v'|..] == x';
  }

  lemma {:induction false} FramesReadBack(vs: seq<Bytes>, vs': seq<Bytes>, x: Bytes, x': Bytes)
    requires |vs| == |vs'| && AllShort(vs) && AllShort(vs') && Frames(vs) + x == Frames(vs') + x'
    ensures vs == vs' && x == x'
  {
    hide Frame;
    if vs == [] {
      assert [] + x == x && [] + x' == x';
    } else {
      var n := |vs| - 1;
      assert Frames(vs) + x == Frames(vs[..n]) + (Frame(vs[n]) + x);
      assert Frames(vs') + x' == Frames(vs'[..n]) + (Frame(vs'[n]) + x');
      FramesReadBack(vs[..n], vs'[..n], Frame(vs[n]) + x, Frame(vs'[n]) + x');
      FrameReadsBack(vs[n], vs'[n], x, x');
      assert vs == vs[..n] + [vs[n]] && vs' == vs'[..n] + [vs'[n]];
    }
  }

  lemma {:induction false} DigitsReadBack(n: nat, n': nat)
    requires Digits(n) == Digits(n')
    ensures n == n'
  {
    DigitsLength(n);
    DigitsLength(n');
    if n >= 10 {
      var d, d' := Digits(n), Digits(n');
      assert d[..|d| - 1] == Digits(n / 10) && d'[..|d'| - 1] == Digits(n' / 10);
      DigitsReadBack(n / 10, n' / 10);
      assert d[|d| - 1] == 48 + n % 10 && d'[|d'| - 1] == 48 + n' % 10;
    }
  }

  lemma DigitsLength(n: nat)
    ensures |Digits(n)| >= 2 <==> n >= 10
  {
  }

  lemma DecimalReadsBack(n: int, n': int)
    requires Decimal(n) == Decimal(n')
    ensures n == n'
  {
    hide Digits;
    assert n < 0 ==> Decimal(n)[0] == 45 && Decimal(n)[1..] == Digits(-n);
    assert n' < 0 ==> Decimal(n')[0] == 45 && Decimal(n')[1..] == Digits(-n');
    DigitsReadBack(if n < 0 then -n else n, if n' < 0 then -n' else n');
  }

  lemma SymbolReadsBack(s: Symbol, s': Symbol)
    requires SymbolFields(s) == SymbolFields(s')
    ensures s == s'
  {
    hide Decimal;
    var f, f' := SymbolFields(s), SymbolFields(s');
    assert forall k | 0 <= k < 8 :: f[k] == f'[k];
    DecimalReadsBack(s.kind, s'.kind);
    DecimalReadsBack(s.access, s'.access);
    DecimalReadsBack(s.storage, s'.storage);
    assert f[7] == f'[7];
  }

  lemma {:induction false} ParametersReadBack(ps: seq<Parameter>, ps': seq<Parameter>)
    requires |ps| == |ps'| && ParameterFields(ps) == ParameterFields(ps')
    ensures ps == ps'
  {
    if ps != [] {
      var n := |ps| - 1;
      var f, f' := ParameterFields(ps), ParameterFields(ps');
      assert f[..3 * n] == ParameterFields(ps[..n]) && f'[..3 * n] == ParameterFields(ps'[..n]);
      ParametersReadBack(ps[..n], ps'[..n]);
      assert f[3 * n] == f'[3 * n] && f[3 * n + 1] == f'[3 * n + 1] && f[3 * n + 2] == f'[3 * n + 2];
      assert ps == ps[..n] + [ps[n]] && ps' == ps'[..n] + [ps'[n]];
    }
  }

  /** Every length that is framed fits in 64 bits. */
  ghost predicate Framable(s: Symbol, ps: seq<Parameter>, raw: Bytes) {
    AllShort(SymbolFields(s)) && |ps| < TWO64 && AllShort(ParameterFields(ps)) && Short(raw)
  }

  lemma FramableParts(s: Symbol, ps: seq<Parameter>, raw: Bytes)
    requires Framable(s, ps, raw)
    ensures AllShort(SymbolFields(s)) && |ps| < TWO64 && AllShort(ParameterFields(ps)) && Short(raw)
  {
  }

  /** The stream is uniquely decodable: whatever bytes the fields hold, two contents with the same stream are the
      same content. */
  lemma StreamDeterminesContent(s: Symbol, ps: seq<Parameter>, raw: Bytes, s': Symbol, ps': seq<Parameter>, raw': Bytes)
    requires Framable(s, ps, raw) && Framable(s', ps', raw')
    ensures Stream(s, ps, raw) == Stream(s', ps', raw') <==> s == s' && ps == ps' && raw == raw'
  {
    hide *;
    if Stream(s, ps, raw) == Stream(s', ps', raw') {
      StreamParts(s, ps, raw);
      StreamParts(s', ps', raw');
      FramableParts(s, ps, raw);
      FramableParts(s', ps', raw');
      var x2, x2' := Frames(ParameterFields(ps)) + Frame(raw), Frames(ParameterFields(ps')) + Frame(raw');
      var x1, x1' := Length(|ps|) + x2, Length(|ps'|) + x2';
      FramesReadBack(SymbolFields(s), SymbolFields(s'), x1, x1');
      SymbolReadsBack(s, s');
      LengthReadsBack(|ps|, |ps'|, x2, x2');
      FramesReadBack(ParameterFields(ps), ParameterFields(ps'), Frame(raw), Frame(raw'));
      ParametersReadBack(ps, ps');
      assert Frame(raw) + [] == Frame(raw') + [];
      FrameReadsBack(raw, raw', [], []);
    }
  }
}
