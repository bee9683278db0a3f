// The layout of a chunk in bytes: its header, the order of integers, and a function with a
// part of every kind, byte by byte.

module ChunkLayout {
  import opened ChunkFormat
  import opened Options

  // The signature is an escape and "Lua"; then the version 5.1, format 0, the lowest byte
  // first, the sizes of int, size_t, instructions and numbers, and numbers with a fraction.
  lemma HeaderIs()
    ensures HEADER[..4] == [27, 'L' as int, 'u' as int, 'a' as int] && HEADER[4..7] == [0x51, 0, 1]
    ensures HEADER[7..] == [4, 4, 4, 8, 0]
  {
  }

  // Byte k of a number is its digit k to the base 256.
  lemma {:induction false} ByteOfNumber(x: nat, n: nat, k: nat)
    requires k < n
    ensures Unsigned(x, n)[k] == x / Pow256(k) % 256
    decreases n
  {
    if k > 0 {
      ByteOfNumber(x / 256, n - 1, k - 1);
      DivTwice(x, Pow256(k - 1));
    }
  }

  lemma DivTwice(x: nat, m: nat)
    requires m > 0
    ensures x / 256 / m == x / (256 * m)
  {
    var q, r := x / 256 / m, x / 256 % m;
    var low := x % 256;
    assert x == 256 * (m * q + r) + low;
    assert 0 <= 256 * r + low < 256 * m;
    assert x == (256 * m) * q + (256 * r + low);
    Quotient(x, 256 * m, q, 256 * r + low);
  }

  lemma Quotient(x: nat, m: nat, q: nat, r: nat)
    requires m > 0 && x == m * q + r && r < m
    ensures x / m == q
  {
    var d := x / m - q;
    assert m * (x / m) + x % m == m * q + r;
    assert m * d == r - x % m;
    if d >= 1 { Times(m, d, 1); } else if d <= -1 { Times(m, -1, d); }
  }

  lemma Times(m: nat, a: int, b: int)
    requires a >= b
    ensures m * a >= m * b
  {
  }

  lemma Small(x: nat)
    requires x < 0x1_0000
    ensures IntBytes(x) == [x % 256, x / 256, 0, 0] == Unsigned(x, SIZEOF_SIZE)
  {
    assert Unsigned(x, 4) == [x % 256] + Unsigned(x / 256, 3);
    assert Unsigned(x / 256, 3) == [x / 256] + Unsigned(0, 2);
    assert Unsigned(0, 2) == [0] + Unsigned(0, 1);
    assert Unsigned(0, 1) == [0] + Unsigned(0, 0);
  }

  // A function with a part of every kind.
  ghost predicate IsExample(f: Proto) {
    f.source == Some([61, 115]) && f.linedefined == 1 && f.lastlinedefined == 258 && f.nups == 3 &&
    f.numparams == 4 && f.isVararg == 5 && f.maxstacksize == 6 && f.code == [7, 8, 9, 10] &&
    f.k == [KNil] + ([KBool(true)] + ([KNumber([1, 2, 3, 4, 5, 6, 7, 8])] + [KString(Some([65]))])) && f.p == [] &&
    f.lineinfo == [11, 0, 0, 0] && f.locvars == [LocVar(Some([66]), 12, 13)] && f.upvalues == [Some([67])]
  }

  // It is written byte by byte like this; stripping leaves out its source and debug part.
  lemma ExampleBytes(f: Proto, strip: bool)
    requires IsExample(f) && Fits(f)
    ensures FunctionBytes(f, None, strip) ==
            (if strip then [0, 0, 0, 0] else [3, 0, 0, 0, 61, 115, 0]) + [1, 0, 0, 0] + [2, 1, 0, 0] + [3, 4, 5, 6] +
            [1, 0, 0, 0, 7, 8, 9, 10] +
            ([4, 0, 0, 0] + ([0] + ([1, 1] + ([3, 1, 2, 3, 4, 5, 6, 7, 8] + [4, 2, 0, 0, 0, 65, 0])))) +
            [0, 0, 0, 0] +
            (if strip then [0, 0, 0, 0] + [0, 0, 0, 0] + [0, 0, 0, 0]
             else [1, 0, 0, 0, 11, 0, 0, 0] + [1, 0, 0, 0, 2, 0, 0, 0, 66, 0, 12, 0, 0, 0, 13, 0, 0, 0] +
                  [1, 0, 0, 0, 2, 0, 0, 0, 67, 0])
  {
    ExampleHead(f, strip);
    ExampleDebug(f, strip);
    Small(0);
    assert FunctionsBytes(f.p, f.source, strip) == [];
    hide HeadBytes, DebugBytes, IntBytes, Fits, Unsigned;
  }

  lemma ExampleHead(f: Proto, strip: bool)
    requires IsExample(f) && Fits(f)
    ensures HeadBytes(f, None, strip) ==
            (if strip then [0, 0, 0, 0] else [3, 0, 0, 0, 61, 115, 0]) + [1, 0, 0, 0] + [2, 1, 0, 0] + [3, 4, 5, 6] +
            [1, 0, 0, 0, 7, 8, 9, 10] +
            ([4, 0, 0, 0] + ([0] + ([1, 1] + ([3, 1, 2, 3, 4, 5, 6, 7, 8] + [4, 2, 0, 0, 0, 65, 0]))))
  {
    Small(1);
    Small(258);
    StringLayout([61, 115]);
    StringLayout([65]);
    ConstantsLayout(f.k);
    assert StringBytes(None) == [0, 0, 0, 0] by { Small(0); }
    assert VectorBytes(f.code, SIZEOF_INSTRUCTION) == [1, 0, 0, 0, 7, 8, 9, 10];
    hide Fits, Unsigned, IntBytes, StringBytes, CountedBytes, VectorBytes;
  }

  // A string is its size with the zero at its end, and its bytes.
  lemma StringLayout(s: seq<Byte>)
    ensures |s| < 255 ==> StringBytes(Some(s)) == [|s| + 1, 0, 0, 0] + s + [0]
  {
    if |s| < 255 { Small(|s| + 1); }
    hide Unsigned;
  }

  lemma ConstantsLayout(k: seq<Constant>)
    requires k == [KNil] + ([KBool(true)] + ([KNumber([1, 2, 3, 4, 5, 6, 7, 8])] + [KString(Some([65]))]))
    ensures CountedBytes(k, ConstantBytes) ==
            [4, 0, 0, 0] + ([0] + ([1, 1] + ([3, 1, 2, 3, 4, 5, 6, 7, 8] + [4, 2, 0, 0, 0, 65, 0])))
  {
    Small(4);
    var d := [KString(Some([65]))];
    var c := [KNumber([1, 2, 3, 4, 5, 6, 7, 8])] + d;
    var b := [KBool(true)] + c;
    EachFirst(KNil, b);
    EachFirst(KBool(true), c);
    EachFirst(KNumber([1, 2, 3, 4, 5, 6, 7, 8]), d);
    EachFirst(KString(Some([65])), []);
    assert d + [] == d;
    StringConstant();
    assert ConstantBytes(KNumber([1, 2, 3, 4, 5, 6, 7, 8])) == [3, 1, 2, 3, 4, 5, 6, 7, 8];
    assert ConstantBytes(KBool(true)) == [1, 1];
    hide Each, ConstantBytes, IntBytes;
  }

  lemma StringConstant()
    ensures ConstantBytes(KString(Some([65]))) == [4, 2, 0, 0, 0, 65, 0]
  {
    StringLayout([65]);
    hide StringBytes;
  }

  lemma EachFirst(c: Constant, rest: seq<Constant>)
    ensures Each([c] + rest, ConstantBytes) == ConstantBytes(c) + Each(rest, ConstantBytes)
    ensures Each<Constant>([], ConstantBytes) == []
  {
    assert ([c] + rest)[1..] == rest;
  }

  lemma ExampleDebug(f: Proto, strip: bool)
    requires IsExample(f) && Fits(f)
    ensures DebugBytes(f, strip) ==
            if strip then [0, 0, 0, 0] + [0, 0, 0, 0] + [0, 0, 0, 0]
            else [1, 0, 0, 0, 11, 0, 0, 0] + [1, 0, 0, 0, 2, 0, 0, 0, 66, 0, 12, 0, 0, 0, 13, 0, 0, 0] +
                 [1, 0, 0, 0, 2, 0, 0, 0, 67, 0]
  {
    Small(0);
    Small(1);
    LocVarsLayout(f.locvars);
    UpvaluesLayout(f.upvalues);
    assert VectorBytes(f.lineinfo, SIZEOF_INT) == [1, 0, 0, 0, 11, 0, 0, 0];
    assert VectorBytes([], SIZEOF_INT) == [0, 0, 0, 0];
    assert CountedBytes<LocVar>([], LocVarBytes) == [0, 0, 0, 0] && CountedBytes<Str>([], StringBytes) == [0, 0, 0, 0];
    hide VectorBytes, CountedBytes, Unsigned, IntBytes, StringBytes, Fits;
  }

  lemma LocVarsLayout(vs: seq<LocVar>)
    requires vs == [LocVar(Some([66]), 12, 13)] && forall v :: v in vs ==> FitsLocVar(v)
    ensures CountedBytes(vs, LocVarBytes) == [1, 0, 0, 0, 2, 0, 0, 0, 66, 0, 12, 0, 0, 0, 13, 0, 0, 0]
  {
    hide Unsigned;
    Small(1);
    Small(12);
    Small(13);
    StringLayout([66]);
    hide Unsigned, IntBytes, StringBytes, FitsStr;
    assert vs[0] in vs && vs[1..] == [];
    assert Each(vs, LocVarBytes) == LocVarBytes(vs[0]) + [];
    assert LocVarBytes(vs[0]) == [2, 0, 0, 0, 66, 0, 12, 0, 0, 0, 13, 0, 0, 0];
  }

  lemma UpvaluesLayout(us: seq<Str>)
    requires us == [Some([67])]
    ensures CountedBytes(us, StringBytes) == [1, 0, 0, 0, 2, 0, 0, 0, 67, 0]
  {
    Small(1);
    StringLayout([67]);
    hide Unsigned, IntBytes, StringBytes;
    assert us[1..] == [];
    assert Each(us, StringBytes) == StringBytes(us[0]) + [];
  }
}
