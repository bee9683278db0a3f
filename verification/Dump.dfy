// Writing a function as a precompiled chunk, through a writer that may fail.

module Dump {
  import opened ChunkFormat
  import opened Options

  function Joined(blocks: seq<seq<Byte>>): seq<Byte> {
    if blocks == [] then [] else Joined(blocks[..|blocks| - 1]) + blocks[|blocks| - 1]
  }

  // The writer takes the first k blocks, one after the other.
  ghost predicate Takes(writer: (seq<Byte>, seq<Byte>) -> int, blocks: seq<seq<Byte>>, k: nat) {
    k <= |blocks| && forall i :: 0 <= i < k ==> writer(Joined(blocks[..i]), blocks[i]) == 0
  }

  // The status is 0 if the writer takes every block, and else what it says to the first one
  // that it does not take; it has the blocks before that one.
  ghost predicate Reported(writer: (seq<Byte>, seq<Byte>) -> int, blocks: seq<seq<Byte>>, status: int,
      written: seq<Byte>)
  {
    exists k: nat :: Takes(writer, blocks, k) && written == Joined(blocks[..k]) &&
      if k == |blocks| then status == 0 else status == writer(Joined(blocks[..k]), blocks[k]) != 0
  }

  lemma OneMore(writer: (seq<Byte>, seq<Byte>) -> int, blocks: seq<seq<Byte>>, b: seq<Byte>, status: int,
      written: seq<Byte>)
    requires Reported(writer, blocks, status, written)
    ensures var status' := if status == 0 then writer(written, b) else status;
            Reported(writer, blocks + [b], status', if status' == 0 then written + b else written)
    ensures Joined(blocks + [b]) == Joined(blocks) + b
  {
    var more := blocks + [b];
    assert more[..|blocks|] == blocks && more[..|more|] == more;
    var k: nat :| Takes(writer, blocks, k) && written == Joined(blocks[..k]) &&
      if k == |blocks| then status == 0 else status == writer(Joined(blocks[..k]), blocks[k]) != 0;
    assert forall i :: 0 <= i <= |blocks| ==> more[..i] == blocks[..i];
    assert Takes(writer, more, k);
    if k == |blocks| && writer(written, b) == 0 {
      assert blocks[..k] == blocks;
      assert Takes(writer, more, k + 1);
    }
  }

  // With a writer that never fails, the status is 0 and everything is written.
  lemma NeverFails(writer: (seq<Byte>, seq<Byte>) -> int, blocks: seq<seq<Byte>>, status: int, written: seq<Byte>)
    requires Reported(writer, blocks, status, written)
    ensures (forall w, b :: writer(w, b) == 0) ==> status == 0
    ensures status == 0 ==> written == Joined(blocks)
    ensures written <= Joined(blocks)
  {
    var k: nat :| Takes(writer, blocks, k) && written == Joined(blocks[..k]) &&
      if k == |blocks| then status == 0 else status == writer(Joined(blocks[..k]), blocks[k]) != 0;
    assert blocks[..|blocks|] == blocks;
    JoinedPrefix(blocks, k);
  }

  lemma {:induction false} JoinedPrefix(blocks: seq<seq<Byte>>, k: nat)
    requires k <= |blocks|
    ensures Joined(blocks[..k]) <= Joined(blocks)
    decreases |blocks|
  {
    if k == |blocks| {
      assert blocks[..k] == blocks;
    } else {
      JoinedPrefix(blocks[..|blocks| - 1], k);
      assert blocks[..|blocks| - 1][..k] == blocks[..k];
    }
  }

  class DumpState {
    const writer: (seq<Byte>, seq<Byte>) -> int  // its status, from what it has and the next block
    const strip: bool
    var written: seq<Byte>
    var status: int
    ghost var sent: seq<Byte>                    // everything there was to write so far
    ghost var blocks: seq<seq<Byte>>             // the same, block by block

    ghost predicate Valid()
      reads this
    {
      Reported(writer, blocks, status, written) && sent == Joined(blocks)
    }

    constructor (writer: (seq<Byte>, seq<Byte>) -> int, strip: bool)
      ensures Valid() && this.writer == writer && this.strip == strip && sent == []
    {
      this.writer, this.strip, written, status, sent, blocks := writer, strip, [], 0, [], [];
      new;
      assert Takes(writer, [], 0) && [][..0] == blocks;
    }

    method DumpBlock(b: seq<Byte>)
      requires Valid()
      modifies this
      ensures Valid() && sent == old(sent) + b
    {
      OneMore(writer, blocks, b, status, written);
      if status == 0 {
        status := writer(written, b);
        if status == 0 { written := written + b; }
      }
      sent, blocks := sent + b, blocks + [b];
    }

    // DumpChar
    method DumpByte(b: Byte)
      requires Valid()
      modifies this
      ensures Valid() && sent == old(sent) + [b]
    {
      hide Valid;
      DumpBlock([b]);
    }

    method DumpInt(x: int)
      requires Valid() && IsInt(x)
      modifies this
      ensures Valid() && sent == old(sent) + IntBytes(x)
    {
      hide Valid;
      DumpBlock(IntBytes(x));
    }

    method DumpVector(b: seq<Byte>, size: nat)
      requires Valid() && size > 0 && IsInt(|b| / size)
      modifies this
      ensures Valid() && sent == old(sent) + VectorBytes(b, size)
    {
      hide IntBytes, Valid;
      DumpInt(|b| / size);
      DumpBlock(b);
    }

    method DumpString(s: Str)
      requires Valid() && FitsStr(s)
      modifies this
      ensures Valid() && sent == old(sent) + StringBytes(s)
    {
      hide Unsigned, Valid;
      if s == None {
        DumpBlock(Unsigned(0, SIZEOF_SIZE));
      } else {
        DumpBlock(Unsigned(|s.value| + 1, SIZEOF_SIZE));
        DumpBlock(s.value + [0]);
      }
    }

    method DumpConstant(c: Constant)
      requires Valid() && FitsConstant(c)
      modifies this
      ensures Valid() && sent == old(sent) + ConstantBytes(c)
    {
      hide StringBytes, FitsStr, Valid;
      match c
      case KNil =>
        DumpByte(0);
      case KBool(b) =>
        DumpByte(1);
        DumpByte(if b then 1 else 0);
      case KNumber(n) =>
        DumpByte(3);
        DumpBlock(n);
      case KString(s) =>
        DumpByte(4);
        DumpString(s);
    }

    // The first loop of DumpConstants
    method DumpK(k: seq<Constant>)
      requires Valid() && IsInt(|k|) && forall c :: c in k ==> FitsConstant(c)
      modifies this
      ensures Valid() && sent == old(sent) + CountedBytes(k, ConstantBytes)
    {
      hide IntBytes, FitsConstant, ConstantBytes, Valid;
      DumpInt(|k|);
      ghost var before := sent;
      for i := 0 to |k|
        invariant Valid() && before + Each(k, ConstantBytes) == sent + Each(k[i..], ConstantBytes)
      {
        var c := k[i];
        assert c in k && k[i..][0] == c && k[i..][1..] == k[i + 1..];
        DumpConstant(c);
      }
      assert k[|k|..] == [] && sent + [] == sent;
      assert sent == old(sent) + (IntBytes(|k|) + Each(k, ConstantBytes));
    }

    // The loops of DumpDebug
    method DumpLocVars(locvars: seq<LocVar>)
      requires Valid() && IsInt(|locvars|) && forall v :: v in locvars ==> FitsLocVar(v)
      modifies this
      ensures Valid() && sent == old(sent) + CountedBytes(locvars, LocVarBytes)
    {
      hide IntBytes, StringBytes, Valid;
      DumpInt(|locvars|);
      ghost var before := sent;
      for i := 0 to |locvars|
        invariant Valid() && before + Each(locvars, LocVarBytes) == sent + Each(locvars[i..], LocVarBytes)
      {
        var v := locvars[i];
        assert v in locvars && locvars[i..][0] == v && locvars[i..][1..] == locvars[i + 1..];
        ghost var was := sent;
        DumpString(v.varname);
        DumpInt(v.startpc);
        DumpInt(v.endpc);
        assert sent == was + LocVarBytes(v);
      }
      assert locvars[|locvars|..] == [] && sent + [] == sent;
      assert sent == old(sent) + (IntBytes(|locvars|) + Each(locvars, LocVarBytes));
    }

    method DumpUpvalues(upvalues: seq<Str>)
      requires Valid() && IsInt(|upvalues|) && forall s :: s in upvalues ==> FitsStr(s)
      modifies this
      ensures Valid() && sent == old(sent) + CountedBytes(upvalues, StringBytes)
    {
      hide IntBytes, StringBytes, FitsStr, Valid;
      DumpInt(|upvalues|);
      ghost var before := sent;
      for i := 0 to |upvalues|
        invariant Valid() && before + Each(upvalues, StringBytes) == sent + Each(upvalues[i..], StringBytes)
      {
        var s := upvalues[i];
        assert s in upvalues && upvalues[i..][0] == s && upvalues[i..][1..] == upvalues[i + 1..];
        DumpString(s);
      }
      assert upvalues[|upvalues|..] == [] && sent + [] == sent;
      assert sent == old(sent) + (IntBytes(|upvalues|) + Each(upvalues, StringBytes));
    }

    method DumpDebug(f: Proto)
      requires Valid() && Fits(f)
      modifies this
      ensures Valid() && sent == old(sent) + DebugBytes(f, strip)
    {
      hide VectorBytes, CountedBytes, FitsConstant, FitsLocVar, FitsStr, Valid;
      DumpVector(if strip then [] else f.lineinfo, SIZEOF_INT);
      DumpLocVars(if strip then [] else f.locvars);
      DumpUpvalues(if strip then [] else f.upvalues);
    }

    method DumpFour(a: Byte, b: Byte, c: Byte, d: Byte)
      requires Valid()
      modifies this
      ensures Valid() && sent == old(sent) + [a, b, c, d]
    {
      hide Valid;
      DumpByte(a);
      DumpByte(b);
      DumpByte(c);
      DumpByte(d);
    }

    // DumpFunction, up to the nested functions
    method DumpHead(f: Proto, p: Str)
      requires Valid() && Fits(f)
      modifies this
      ensures Valid() && sent == old(sent) + HeadBytes(f, p, strip)
    {
      hide StringBytes, IntBytes, VectorBytes, CountedBytes, FitsConstant, FitsLocVar, FitsStr, Valid;
      NoneFits();
      DumpString(if f.source == p || strip then None else f.source);
      DumpInt(f.linedefined);
      DumpInt(f.lastlinedefined);
      DumpFour(f.nups, f.numparams, f.isVararg, f.maxstacksize);
      DumpVector(f.code, SIZEOF_INSTRUCTION);
      DumpK(f.k);
    }

    method DumpFunction(f: Proto, p: Str)
      requires Valid() && Fits(f)
      modifies this
      ensures Valid() && sent == old(sent) + FunctionBytes(f, p, strip)
      decreases f
    {
      hide HeadBytes, IntBytes, DebugBytes, FitsStr, FitsConstant, FitsLocVar, FunctionsBytes, Valid;
      DumpHead(f, p);
      DumpInt(|f.p|);
      ghost var before := sent;
      for i := 0 to |f.p|
        invariant Valid()
        invariant before + FunctionsBytes(f.p, f.source, strip) == sent + FunctionsBytes(f.p[i..], f.source, strip)
      {
        var g := f.p[i];
        assert g in f.p;
        FunctionsStep(f.p, i, f.source, strip, sent);
        DumpFunction(g, f.source);
      }
      FunctionsStep(f.p, |f.p|, f.source, strip, sent);
      ghost var nested := HeadBytes(f, p, strip) + IntBytes(|f.p|) + FunctionsBytes(f.p, f.source, strip);
      assert sent == old(sent) + nested;
      DumpDebug(f);
      assert old(sent) + nested + DebugBytes(f, strip) == old(sent) + (nested + DebugBytes(f, strip));
    }
  }

  lemma FunctionsStep(fs: seq<Proto>, i: nat, p: Str, strip: bool, b: seq<Byte>)
    requires i <= |fs| && forall f :: f in fs ==> Fits(f)
    ensures fs[0..] == fs
    ensures b + FunctionsBytes(fs[i..], p, strip) ==
            if i == |fs| then b else b + FunctionBytes(fs[i], p, strip) + FunctionsBytes(fs[i + 1..], p, strip)
  {
    hide FunctionBytes, Fits;
    if i < |fs| { assert fs[i..][0] == fs[i] && fs[i..][1..] == fs[i + 1..]; }
  }

  // luaU_dump
  method SaveChunk(f: Proto, writer: (seq<Byte>, seq<Byte>) -> int, strip: bool)
    returns (status: int, written: seq<Byte>, ghost blocks: seq<seq<Byte>>)
    requires Fits(f)
    ensures Joined(blocks) == ChunkBytes(f, strip) && Reported(writer, blocks, status, written)
    ensures written <= ChunkBytes(f, strip)
    ensures status == 0 ==> written == ChunkBytes(f, strip)
    ensures (forall w, b :: writer(w, b) == 0) ==> status == 0
  {
    hide Fits, FunctionBytes, Reported;
    var d := new DumpState(writer, strip);
    d.DumpBlock(HEADER);
    d.DumpFunction(f, None);
    NeverFails(writer, d.blocks, d.status, d.written);
    return d.status, d.written, d.blocks;
  }
}
