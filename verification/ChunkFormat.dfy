// Precompiled chunks: the bytes of a prototype, and how bytes are read back.

module ChunkFormat {
  import opened Options

  type Byte = b: int | 0 <= b < 256

  datatype Error = UnexpectedEnd | BadInteger | BadConstant | BadCode | BadHeader

  // NULL, or a string
  type Str = Option<seq<Byte>>

  datatype Constant = KNil | KBool(b: bool) | KNumber(bytes: seq<Byte>) | KString(s: Str)

  datatype LocVar = LocVar(varname: Str, startpc: nat, endpc: nat)

  datatype Proto = Proto(
    source: Str, linedefined: nat, lastlinedefined: nat,
    nups: Byte, numparams: Byte, isVararg: Byte, maxstacksize: Byte,
    code: seq<Byte>,                  // the bytes of the instructions
    k: seq<Constant>, p: seq<Proto>,
    lineinfo: seq<Byte>,              // the bytes of the line numbers
    locvars: seq<LocVar>, upvalues: seq<Str>)

  const SIZEOF_INT: nat := 4
  const SIZEOF_SIZE: nat := 4
  const SIZEOF_INSTRUCTION: nat := 4
  const SIZEOF_NUMBER: nat := 8

  // LUA_SIGNATURE, LUAC_VERSION, LUAC_FORMAT, the order of the bytes in an integer, the
  // sizes, and no integral numbers
  const HEADER: seq<Byte> :=
    [27, 76, 117, 97, 0x51, 0, 1, SIZEOF_INT, SIZEOF_SIZE, SIZEOF_INSTRUCTION, SIZEOF_NUMBER, 0]

  // ----- integers -----

  function Pow256(n: nat): (r: nat)
    ensures r > 0
  {
    if n == 0 then 1 else 256 * Pow256(n - 1)
  }

  // The n bytes of x, the lowest first.
  function Unsigned(x: nat, n: nat): (bs: seq<Byte>)
    ensures |bs| == n
  {
    if n == 0 then [] else [x % 256] + Unsigned(x / 256, n - 1)
  }

  function ValueOf(bs: seq<Byte>): nat {
    if bs == [] then 0 else bs[0] + 256 * ValueOf(bs[1..])
  }

  lemma {:induction false} UnsignedBack(x: nat, n: nat)
    requires x < Pow256(n)
    ensures ValueOf(Unsigned(x, n)) == x
  {
    if n > 0 {
      UnsignedBack(x / 256, n - 1);
      assert Unsigned(x, n)[1..] == Unsigned(x / 256, n - 1);
    }
  }

  // An int is stored as the unsigned number that is the same modulo 2^32.
  predicate IsInt(x: int) {
    -0x8000_0000 <= x < 0x8000_0000
  }

  function IntBytes(x: int): (bs: seq<Byte>)
    requires IsInt(x)
    ensures |bs| == SIZEOF_INT
  {
    Unsigned(if x >= 0 then x else x + 0x1_0000_0000, SIZEOF_INT)
  }

  function IntOf(bs: seq<Byte>): int {
    var v := ValueOf(bs);
    if v < 0x8000_0000 then v else v - 0x1_0000_0000
  }

  lemma IntBack(x: int)
    requires IsInt(x)
    ensures IntOf(IntBytes(x)) == x
  {
    assert Pow256(4) == 0x1_0000_0000;
    UnsignedBack(if x >= 0 then x else x + 0x1_0000_0000, SIZEOF_INT);
  }

  // ----- reading from bytes -----

  // What is read, and the bytes after it.
  datatype Parsed<T> = Got(value: T, rest: seq<Byte>) | Bad(err: Error) {
    predicate IsFailure() {
      Bad?
    }

    function PropagateFailure<U>(): Parsed<U>
      requires Bad?
    {
      Bad(err)
    }

    function Extract(): (T, seq<Byte>)
      requires Got?
    {
      (value, rest)
    }
  }

  // The bytes left are fewer, by n at least.
  predicate Uses<T>(r: Parsed<T>, bs: seq<Byte>, n: nat) {
    r.Got? ==> |r.rest| + n <= |bs|
  }

  // LoadBlock
  function ParseBlock(bs: seq<Byte>, n: nat): (r: Parsed<seq<Byte>>)
    ensures Uses(r, bs, n) && (r.Got? ==> |r.value| == n)
  {
    if n <= |bs| then Got(bs[..n], bs[n..]) else Bad(UnexpectedEnd)
  }

  // LoadByte
  function ParseByte(bs: seq<Byte>): (r: Parsed<Byte>)
    ensures Uses(r, bs, 1)
  {
    var (b, rest) :- ParseBlock(bs, 1);
    Got(b[0], rest)
  }

  // LoadInt: counts and lines are not negative
  function ParseInt(bs: seq<Byte>): (r: Parsed<nat>)
    ensures Uses(r, bs, SIZEOF_INT)
  {
    var (b, rest) :- ParseBlock(bs, SIZEOF_INT);
    if IntOf(b) < 0 then Bad(BadInteger) else Got(IntOf(b), rest)
  }

  // LoadString: a size, and that many bytes, of which the last is dropped
  function ParseString(bs: seq<Byte>): (r: Parsed<Str>)
    ensures Uses(r, bs, SIZEOF_SIZE)
  {
    var (b, rest) :- ParseBlock(bs, SIZEOF_SIZE);
    var size := ValueOf(b);
    if size == 0 then Got(None, rest)
    else
      var (s, rest') :- ParseBlock(rest, size);
      Got(Some(s[..size - 1]), rest')
  }

  function ParseConstant(bs: seq<Byte>): (r: Parsed<Constant>)
    ensures Uses(r, bs, 1)
  {
    var (t, rest) :- ParseByte(bs);
    if t == 0 then Got(KNil, rest)
    else if t == 1 then
      var (b, rest') :- ParseByte(rest);
      Got(KBool(b != 0), rest')
    else if t == 3 then
      var (n, rest') :- ParseBlock(rest, SIZEOF_NUMBER);
      Got(KNumber(n), rest')
    else if t == 4 then
      var (s, rest') :- ParseString(rest);
      Got(KString(s), rest')
    else Bad(BadConstant)
  }

  function ParseLocVar(bs: seq<Byte>): (r: Parsed<LocVar>)
    ensures Uses(r, bs, 1)
  {
    var (s, rest) :- ParseString(bs);
    var (startpc, rest') :- ParseInt(rest);
    var (endpc, rest'') :- ParseInt(rest');
    Got(LocVar(s, startpc, endpc), rest'')
  }

  // A count, and a block of that many things of the size.
  function ParseVector(bs: seq<Byte>, size: nat): (r: Parsed<seq<Byte>>)
    ensures Uses(r, bs, SIZEOF_INT)
  {
    var (n, rest) :- ParseInt(bs);
    ParseBlock(rest, n * size)
  }

  // n things, one after the other.
  function Many<T>(n: nat, bs: seq<Byte>, parse: seq<Byte> -> Parsed<T>): (r: Parsed<seq<T>>)
    ensures (forall b :: Uses(parse(b), b, 1)) ==> Uses(r, bs, n)
    ensures r.Got? ==> |r.value| == n
  {
    if n == 0 then Got([], bs)
    else
      var (x, rest) :- parse(bs);
      var (xs, rest') :- Many(n - 1, rest, parse);
      Got([x] + xs, rest')
  }

  // A count, and that many things.
  function Counted<T>(bs: seq<Byte>, parse: seq<Byte> -> Parsed<T>): (r: Parsed<seq<T>>)
    ensures (forall b :: Uses(parse(b), b, 1)) ==> Uses(r, bs, 1)
  {
    var (n, rest) :- ParseInt(bs);
    Many(n, rest, parse)
  }

  // LoadFunction, up to the nested functions
  function ParseHead(bs: seq<Byte>, p: Str): (r: Parsed<Proto>)
    ensures Uses(r, bs, 1)
  {
    var (s, b1) :- ParseString(bs);
    var (linedefined, b2) :- ParseInt(b1);
    var (lastlinedefined, b3) :- ParseInt(b2);
    var (nups, b4) :- ParseByte(b3);
    var (numparams, b5) :- ParseByte(b4);
    var (isVararg, b6) :- ParseByte(b5);
    var (maxstacksize, b7) :- ParseByte(b6);
    var (code, b8) :- ParseVector(b7, SIZEOF_INSTRUCTION);
    var (k, b9) :- Counted(b8, ParseConstant);
    Got(Proto(if s == None then p else s, linedefined, lastlinedefined, nups, numparams, isVararg, maxstacksize,
              code, k, [], [], [], []), b9)
  }

  // LoadDebug
  function ParseDebug(bs: seq<Byte>, f: Proto): (r: Parsed<Proto>)
    ensures Uses(r, bs, 0)
  {
    var (lineinfo, b1) :- ParseVector(bs, SIZEOF_INT);
    var (locvars, b2) :- Counted(b1, ParseLocVar);
    var (upvalues, b3) :- Counted(b2, b => ParseString(b));
    Got(f.(lineinfo := lineinfo, locvars := locvars, upvalues := upvalues), b3)
  }

  // LoadFunction; check is luaG_checkcode
  function ParseFunction(check: Proto -> bool, bs: seq<Byte>, p: Str): (r: Parsed<Proto>)
    ensures Uses(r, bs, 1)
    decreases |bs|, 0, 0
  {
    var (head, b1) :- ParseHead(bs, p);
    var (n, b2) :- ParseInt(b1);
    var (ps, b3) :- ParseFunctions(check, n, b2, head.source);
    var (f, b4) :- ParseDebug(b3, head.(p := ps));
    if check(f) then Got(f, b4) else Bad(BadCode)
  }

  function ParseFunctions(check: Proto -> bool, n: nat, bs: seq<Byte>, p: Str): (r: Parsed<seq<Proto>>)
    ensures Uses(r, bs, n)
    decreases |bs|, 1, n
  {
    if n == 0 then Got([], bs)
    else
      var (f, rest) :- ParseFunction(check, bs, p);
      var (fs, rest') :- ParseFunctions(check, n - 1, rest, p);
      Got([f] + fs, rest')
  }

  const UNKNOWN: Str := Some([61, 63])  // "=?"

  // luaU_undump
  function ParseChunk(check: Proto -> bool, bs: seq<Byte>): Parsed<Proto> {
    var (h, rest) :- ParseBlock(bs, |HEADER|);
    if h != HEADER then Bad(BadHeader) else ParseFunction(check, rest, UNKNOWN)
  }

  // ----- the bytes that are written -----

  function StringBytes(s: Str): seq<Byte> {
    match s
    case None => Unsigned(0, SIZEOF_SIZE)
    case Some(x) => Unsigned(|x| + 1, SIZEOF_SIZE) + x + [0]
  }

  function ConstantBytes(c: Constant): seq<Byte> {
    match c
    case KNil => [0]
    case KBool(b) => [1] + [if b then 1 else 0]
    case KNumber(n) => [3] + n
    case KString(s) => [4] + StringBytes(s)
  }

  function LocVarBytes(v: LocVar): seq<Byte>
    requires FitsLocVar(v)
  {
    StringBytes(v.varname) + IntBytes(v.startpc) + IntBytes(v.endpc)
  }

  function Each<T>(xs: seq<T>, bytes: T --> seq<Byte>): seq<Byte>
    requires forall x :: x in xs ==> bytes.requires(x)
  {
    if xs == [] then [] else bytes(xs[0]) + Each(xs[1..], bytes)
  }

  // What fits the integers of the machine.
  predicate FitsStr(s: Str) {
    s.Some? ==> |s.value| + 1 < Pow256(SIZEOF_SIZE)
  }

  predicate FitsConstant(c: Constant) {
    match c
    case KNumber(n) => |n| == SIZEOF_NUMBER
    case KString(s) => FitsStr(s)
    case _ => true
  }

  predicate FitsLocVar(v: LocVar) {
    FitsStr(v.varname) && IsInt(v.startpc) && IsInt(v.endpc)
  }

  predicate Fits(f: Proto)
    decreases f
  {
    && FitsStr(f.source) && IsInt(f.linedefined) && IsInt(f.lastlinedefined)
    && |f.code| % SIZEOF_INSTRUCTION == 0 && IsInt(|f.code| / SIZEOF_INSTRUCTION)
    && IsInt(|f.k|) && (forall c :: c in f.k ==> FitsConstant(c))
    && IsInt(|f.p|) && (forall q :: q in f.p ==> Fits(q))
    && |f.lineinfo| % SIZEOF_INT == 0 && IsInt(|f.lineinfo| / SIZEOF_INT)
    && IsInt(|f.locvars|) && (forall v :: v in f.locvars ==> FitsLocVar(v))
    && IsInt(|f.upvalues|) && (forall s :: s in f.upvalues ==> FitsStr(s))
  }

  function CountedBytes<T>(xs: seq<T>, bytes: T --> seq<Byte>): seq<Byte>
    requires IsInt(|xs|) && forall x :: x in xs ==> bytes.requires(x)
  {
    IntBytes(|xs|) + Each(xs, bytes)
  }

  function VectorBytes(bs: seq<Byte>, size: nat): seq<Byte>
    requires size > 0 && IsInt(|bs| / size)
  {
    IntBytes(|bs| / size) + bs
  }

  // Before the nested functions, and after them.
  function HeadBytes(f: Proto, p: Str, strip: bool): seq<Byte>
    requires Fits(f)
  {
    StringBytes(if f.source == p || strip then None else f.source) +
    IntBytes(f.linedefined) + IntBytes(f.lastlinedefined) +
    [f.nups, f.numparams, f.isVararg, f.maxstacksize] +
    VectorBytes(f.code, SIZEOF_INSTRUCTION) + CountedBytes(f.k, ConstantBytes)
  }

  function DebugBytes(f: Proto, strip: bool): seq<Byte>
    requires Fits(f)
  {
    VectorBytes(if strip then [] else f.lineinfo, SIZEOF_INT) +
    CountedBytes(if strip then [] else f.locvars, LocVarBytes) +
    CountedBytes(if strip then [] else f.upvalues, StringBytes)
  }

  // DumpFunction
  function FunctionBytes(f: Proto, p: Str, strip: bool): seq<Byte>
    requires Fits(f)
    decreases f, 0
  {
    HeadBytes(f, p, strip) + IntBytes(|f.p|) + FunctionsBytes(f.p, f.source, strip) + DebugBytes(f, strip)
  }

  function FunctionsBytes(fs: seq<Proto>, p: Str, strip: bool): seq<Byte>
    requires forall f :: f in fs ==> Fits(f)
    decreases fs
  {
    if fs == [] then [] else FunctionBytes(fs[0], p, strip) + FunctionsBytes(fs[1..], p, strip)
  }

  function ChunkBytes(f: Proto, strip: bool): seq<Byte>
    requires Fits(f)
  {
    HEADER + FunctionBytes(f, None, strip)
  }

  // ----- the round trip -----

  // What loading makes of a function: a source that was left out is that of the function
  // around it, and debug information that was left out is none. p is the source of the
  // function around it where it was written, q where it is read.
  function Restored(f: Proto, p: Str, q: Str, strip: bool): Proto
    decreases f, 0
  {
    var source := SourceOf(f, p, q, strip);
    var g := f.(source := source, p := RestoredAll(f.p, f.source, source, strip));
    if strip then g.(lineinfo := [], locvars := [], upvalues := []) else g
  }

  function SourceOf(f: Proto, p: Str, q: Str, strip: bool): Str {
    if f.source == p || f.source == None || strip then q else f.source
  }

  function RestoredAll(fs: seq<Proto>, p: Str, q: Str, strip: bool): (r: seq<Proto>)
    ensures |r| == |fs| && forall i :: 0 <= i < |fs| ==> r[i] == Restored(fs[i], p, q, strip)
    decreases fs
  {
    if fs == [] then [] else [Restored(fs[0], p, q, strip)] + RestoredAll(fs[1..], p, q, strip)
  }

  predicate Checked(check: Proto -> bool, f: Proto)
    decreases f
  {
    check(f) && forall g :: g in f.p ==> Checked(check, g)
  }

  lemma BlockBack(b: seq<Byte>, rest: seq<Byte>)
    ensures ParseBlock(b + rest, |b|) == Got(b, rest)
  {
    assert (b + rest)[..|b|] == b && (b + rest)[|b|..] == rest;
  }

  lemma ByteBack(b: Byte, rest: seq<Byte>)
    ensures ParseByte([b] + rest) == Got(b, rest)
  {
    BlockBack([b], rest);
  }

  lemma FourBack(a: Byte, b: Byte, c: Byte, d: Byte, rest: seq<Byte>)
    ensures ParseByte([a, b, c, d] + rest) == Got(a, [b, c, d] + rest)
    ensures ParseByte([b, c, d] + rest) == Got(b, [c, d] + rest)
    ensures ParseByte([c, d] + rest) == Got(c, [d] + rest)
    ensures ParseByte([d] + rest) == Got(d, rest)
  {
    hide ParseByte;
    assert [a, b, c, d] + rest == [a] + ([b, c, d] + rest);
    assert [b, c, d] + rest == [b] + ([c, d] + rest);
    assert [c, d] + rest == [c] + ([d] + rest);
    ByteBack(a, [b, c, d] + rest);
    ByteBack(b, [c, d] + rest);
    ByteBack(c, [d] + rest);
    ByteBack(d, rest);
  }

  lemma ParseIntBack(x: nat, rest: seq<Byte>)
    requires IsInt(x)
    ensures ParseInt(IntBytes(x) + rest) == Got(x, rest)
  {
    hide IntBytes, IntOf;
    BlockBack(IntBytes(x), rest);
    IntBack(x);
  }

  lemma StringBack(s: Str, rest: seq<Byte>)
    requires FitsStr(s)
    ensures ParseString(StringBytes(s) + rest) == Got(s, rest)
  {
    hide Unsigned, ValueOf, Pow256;
    assert 0 < Pow256(SIZEOF_SIZE);
    var size := if s == None then 0 else |s.value| + 1;
    UnsignedBack(size, SIZEOF_SIZE);
    if s.Some? {
      var x := s.value;
      assert StringBytes(s) + rest == Unsigned(size, SIZEOF_SIZE) + ((x + [0]) + rest);
      BlockBack(Unsigned(size, SIZEOF_SIZE), (x + [0]) + rest);
      BlockBack(x + [0], rest);
      assert (x + [0])[..size - 1] == x;
    } else {
      BlockBack(Unsigned(0, SIZEOF_SIZE), rest);
    }
  }

  lemma ConstantBack(c: Constant, rest: seq<Byte>)
    requires FitsConstant(c)
    ensures ParseConstant(ConstantBytes(c) + rest) == Got(c, rest)
  {
    hide ParseString, StringBytes, ParseByte, FitsStr;
    match c
    case KNil => ByteBack(0, rest);
    case KBool(b) =>
      var v: Byte := if b then 1 else 0;
      assert ConstantBytes(c) + rest == [1] + ([v] + rest);
      ByteBack(1, [v] + rest);
      ByteBack(v, rest);
    case KNumber(n) =>
      assert ConstantBytes(c) + rest == [3] + (n + rest);
      ByteBack(3, n + rest);
      BlockBack(n, rest);
    case KString(s) =>
      assert ConstantBytes(c) + rest == [4] + (StringBytes(s) + rest);
      ByteBack(4, StringBytes(s) + rest);
      StringBack(s, rest);
  }

  lemma LocVarBack(v: LocVar, rest: seq<Byte>)
    requires FitsLocVar(v)
    ensures ParseLocVar(LocVarBytes(v) + rest) == Got(v, rest)
  {
    hide ParseString, StringBytes, ParseInt, IntBytes, FitsStr;
    var r2 := IntBytes(v.endpc) + rest;
    var r1 := IntBytes(v.startpc) + r2;
    assert LocVarBytes(v) + rest == StringBytes(v.varname) + r1;
    StringBack(v.varname, r1);
    ParseIntBack(v.startpc, r2);
    ParseIntBack(v.endpc, rest);
  }

  lemma VectorBack(b: seq<Byte>, size: nat, rest: seq<Byte>)
    requires size > 0 && |b| % size == 0 && IsInt(|b| / size)
    ensures ParseVector(VectorBytes(b, size) + rest, size) == Got(b, rest)
  {
    hide ParseInt, IntBytes;
    assert VectorBytes(b, size) + rest == IntBytes(|b| / size) + (b + rest);
    ParseIntBack(|b| / size, b + rest);
    assert |b| / size * size == |b|;
    BlockBack(b, rest);
  }

  // Things that can each be read back are read back one after the other.
  lemma {:induction false} ManyBack<T(!new)>(xs: seq<T>, bytes: T --> seq<Byte>, parse: seq<Byte> -> Parsed<T>,
      rest: seq<Byte>)
    requires forall x :: x in xs ==> bytes.requires(x)
    requires forall x, r :: x in xs ==> parse(bytes(x) + r) == Got(x, r)
    ensures Many(|xs|, Each(xs, bytes) + rest, parse) == Got(xs, rest)
    decreases |xs|
  {
    if xs == [] {
      assert Each(xs, bytes) + rest == rest;
    } else {
      var x := xs[0];
      assert x in xs;
      assert Each(xs, bytes) + rest == bytes(x) + (Each(xs[1..], bytes) + rest);
      ManyBack(xs[1..], bytes, parse, rest);
      assert xs == [x] + xs[1..];
    }
  }

  lemma CountedBack<T(!new)>(xs: seq<T>, bytes: T --> seq<Byte>, parse: seq<Byte> -> Parsed<T>, rest: seq<Byte>)
    requires IsInt(|xs|) && forall x :: x in xs ==> bytes.requires(x)
    requires forall x, r :: x in xs ==> parse(bytes(x) + r) == Got(x, r)
    ensures Counted(CountedBytes(xs, bytes) + rest, parse) == Got(xs, rest)
  {
    hide ParseInt, IntBytes, Many, Each;
    assert CountedBytes(xs, bytes) + rest == IntBytes(|xs|) + (Each(xs, bytes) + rest);
    ParseIntBack(|xs|, Each(xs, bytes) + rest);
    ManyBack(xs, bytes, parse, rest);
  }

  lemma HeadBack(f: Proto, p: Str, q: Str, strip: bool, rest: seq<Byte>)
    requires Fits(f)
    ensures ParseHead(HeadBytes(f, p, strip) + rest, q) ==
            Got(f.(source := SourceOf(f, p, q, strip), p := [], lineinfo := [], locvars := [], upvalues := []), rest)
  {
    hide ParseString, StringBytes, ParseInt, IntBytes, ParseByte, ParseVector, VectorBytes, Counted, CountedBytes,
      FitsConstant, FitsLocVar, FitsStr;
    var s := if f.source == p || strip then None else f.source;
    assert FitsStr(s) by { NoneFits(); }
    var r8 := CountedBytes(f.k, ConstantBytes) + rest;
    var r7 := VectorBytes(f.code, SIZEOF_INSTRUCTION) + r8;
    var r3 := [f.nups, f.numparams, f.isVararg, f.maxstacksize] + r7;
    var r2 := IntBytes(f.lastlinedefined) + r3;
    var r1 := IntBytes(f.linedefined) + r2;
    assert HeadBytes(f, p, strip) + rest == StringBytes(s) + r1;
    StringBack(s, r1);
    ParseIntBack(f.linedefined, r2);
    ParseIntBack(f.lastlinedefined, r3);
    FourBack(f.nups, f.numparams, f.isVararg, f.maxstacksize, r7);
    VectorBack(f.code, SIZEOF_INSTRUCTION, r8);
    forall c, r | c in f.k ensures ParseConstant(ConstantBytes(c) + r) == Got(c, r) { ConstantBack(c, r); }
    CountedBack(f.k, ConstantBytes, ParseConstant, rest);
  }

  lemma NoneFits()
    ensures FitsStr(None)
  {
  }

  lemma DebugBack(f: Proto, g: Proto, strip: bool, rest: seq<Byte>)
    requires Fits(f)
    ensures ParseDebug(DebugBytes(f, strip) + rest, g) ==
            Got(if strip then g.(lineinfo := [], locvars := [], upvalues := [])
                else g.(lineinfo := f.lineinfo, locvars := f.locvars, upvalues := f.upvalues), rest)
  {
    hide ParseString, StringBytes, IntBytes, ParseVector, VectorBytes, Counted, CountedBytes, FitsConstant, FitsStr;
    var lines, locals, ups := if strip then [] else f.lineinfo, if strip then [] else f.locvars, if strip then []
                              else f.upvalues;
    var r2 := CountedBytes(ups, StringBytes) + rest;
    var r1 := CountedBytes(locals, LocVarBytes) + r2;
    assert DebugBytes(f, strip) + rest == VectorBytes(lines, SIZEOF_INT) + r1;
    VectorBack(lines, SIZEOF_INT, r1);
    forall v, r | v in locals ensures ParseLocVar(LocVarBytes(v) + r) == Got(v, r) { LocVarBack(v, r); }
    CountedBack(locals, LocVarBytes, ParseLocVar, r2);
    forall s, r | s in ups ensures (b => ParseString(b))(StringBytes(s) + r) == Got(s, r) { StringBack(s, r); }
    CountedBack(ups, StringBytes, b => ParseString(b), rest);
  }

  lemma {:induction false} FunctionBack(check: Proto -> bool, f: Proto, p: Str, q: Str, strip: bool, rest: seq<Byte>)
    requires Fits(f)
    ensures var g := Restored(f, p, q, strip);
            ParseFunction(check, FunctionBytes(f, p, strip) + rest, q) == if Checked(check, g) then Got(g, rest)
            else Bad(BadCode)
    decreases f, 0
  {
    hide HeadBytes, ParseHead, DebugBytes, ParseDebug, IntBytes, ParseInt, FunctionsBytes, ParseFunctions;
    var source := SourceOf(f, p, q, strip);
    var r3 := DebugBytes(f, strip) + rest;
    var r2 := FunctionsBytes(f.p, f.source, strip) + r3;
    var r1 := IntBytes(|f.p|) + r2;
    assert FunctionBytes(f, p, strip) + rest == HeadBytes(f, p, strip) + r1;
    HeadBack(f, p, q, strip, r1);
    ParseIntBack(|f.p|, r2);
    FunctionsBack(check, f.p, f.source, source, strip, r3);
    var ps := RestoredAll(f.p, f.source, source, strip);
    var head := f.(source := source, p := [], lineinfo := [], locvars := [], upvalues := []);
    DebugBack(f, head.(p := ps), strip, rest);
  }

  lemma {:induction false} FunctionsBack(check: Proto -> bool, fs: seq<Proto>, p: Str, q: Str, strip: bool,
      rest: seq<Byte>)
    requires forall f :: f in fs ==> Fits(f)
    ensures var gs := RestoredAll(fs, p, q, strip);
            ParseFunctions(check, |fs|, FunctionsBytes(fs, p, strip) + rest, q) ==
            if forall g :: g in gs ==> Checked(check, g) then Got(gs, rest) else Bad(BadCode)
    decreases fs
  {
    hide FunctionBytes, ParseFunction, Fits, Restored, Checked;
    if fs == [] {
      assert FunctionsBytes(fs, p, strip) + rest == rest;
    } else {
      var more := FunctionsBytes(fs[1..], p, strip) + rest;
      assert FunctionsBytes(fs, p, strip) + rest == FunctionBytes(fs[0], p, strip) + more;
      assert fs[0] in fs;
      FunctionBack(check, fs[0], p, q, strip, more);
      FunctionsBack(check, fs[1..], p, q, strip, rest);
      var gs := RestoredAll(fs, p, q, strip);
      assert gs == [Restored(fs[0], p, q, strip)] + RestoredAll(fs[1..], p, q, strip);
    }
  }

  // Loading what was written gives the function back, restored.
  lemma ChunkBack(check: Proto -> bool, f: Proto, strip: bool)
    requires Fits(f)
    ensures var g := Restored(f, None, UNKNOWN, strip);
            ParseChunk(check, ChunkBytes(f, strip)) == if Checked(check, g) then Got(g, []) else Bad(BadCode)
  {
    hide Fits, Restored, Checked, ParseFunction, FunctionBytes;
    var b := FunctionBytes(f, None, strip);
    BlockBack(HEADER, b);
    FunctionBack(check, f, None, UNKNOWN, strip, []);
    assert b + [] == b;
  }

  // Every function has a source.
  predicate Named(f: Proto)
    decreases f
  {
    f.source.Some? && forall g :: g in f.p ==> Named(g)
  }

  lemma {:induction false} NamedBack(f: Proto, p: Str, q: Str)
    requires q.Some? && (p == q || p == None)
    ensures Named(Restored(f, p, q, false))
    ensures Named(f) ==> Restored(f, p, q, false) == f
    decreases f
  {
    var source := SourceOf(f, p, q, false);
    var g := Restored(f, p, q, false);
    forall i | 0 <= i < |f.p|
      ensures Named(g.p[i])
      ensures Named(f) ==> g.p[i] == f.p[i]
    {
      NamedBack(f.p[i], f.source, source);
    }
    if Named(f) { assert g.p == f.p; }
  }

  // The same function comes back exactly if each function in it has a source.
  lemma SameBack(f: Proto)
    ensures Restored(f, None, UNKNOWN, false) == f <==> Named(f)
  {
    NamedBack(f, None, UNKNOWN);
  }
}
