// Loading a precompiled chunk from a reader that hands out its bytes in pieces.

module Undump {
  import opened ChunkFormat
  import opened Options

  // The bytes that pieces give, up to the first empty one.
  function Joined(pieces: seq<seq<Byte>>): seq<Byte> {
    if pieces == [] || pieces[0] == [] then [] else pieces[0] + Joined(pieces[1..])
  }

  // A stream: the part of the current piece that is still unread, and what the reader
  // will give.
  class Zio {
    var buffer: seq<Byte>
    var pieces: seq<seq<Byte>>

    constructor (pieces: seq<seq<Byte>>)
      ensures Rest() == Joined(pieces)
    {
      buffer, this.pieces := [], pieces;
    }

    function Rest(): seq<Byte>
      reads this
    {
      buffer + Joined(pieces)
    }

    // luaZ_lookahead, with luaZ_fill: is there another byte?
    method Lookahead() returns (more: bool)
      modifies this
      ensures more <==> old(Rest()) != []
      ensures more ==> buffer != [] && Rest() == old(Rest())
      ensures !more ==> old(Rest()) == []
    {
      if buffer != [] { return true; }
      assert Rest() == Joined(pieces);
      if pieces == [] { return false; }
      var piece := pieces[0];
      pieces := pieces[1..];
      if piece == [] { return false; }
      buffer := piece;
      return true;
    }

    // luaZ_read: n bytes, and how many of them are missing
    method Read(n0: nat) returns (b: seq<Byte>, missing: nat)
      modifies this
      ensures n0 <= |old(Rest())| ==> missing == 0 && b == old(Rest())[..n0] && Rest() == old(Rest())[n0..]
      ensures n0 > |old(Rest())| ==> missing == n0 - |old(Rest())| && b == old(Rest())
    {
      hide Joined;
      b := [];
      var n := n0;
      while n > 0
        invariant 0 <= n <= n0 && old(Rest()) == b + Rest() && |b| == n0 - n
        decreases n
      {
        var more := Lookahead();
        if !more {
          assert b + [] == b;
          return b, n;
        }
        var m := if n <= |buffer| then n else |buffer|;
        Moved(b, buffer, m, Joined(pieces));
        b, buffer := b + buffer[..m], buffer[m..];
        n := n - m;
      }
      Cut(b, Rest());
      return b, 0;
    }
  }

  lemma Moved(b: seq<Byte>, buffer: seq<Byte>, m: nat, rest: seq<Byte>)
    requires m <= |buffer|
    ensures b + buffer[..m] + (buffer[m..] + rest) == b + (buffer + rest)
  {
    assert buffer == buffer[..m] + buffer[m..];
  }

  lemma Cut(b: seq<Byte>, rest: seq<Byte>)
    ensures (b + rest)[..|b|] == b && (b + rest)[|b|..] == rest
  {
  }

  datatype Result<T> = Ok(value: T) | Err(err: Error)

  // A result that follows a parse of the bytes that were left.
  ghost predicate Follows<T>(r: Result<T>, rest: seq<Byte>, p: Parsed<T>) {
    match p
    case Got(v, left) => r == Ok(v) && rest == left
    case Bad(e) => r == Err(e)
  }

  class LoadState {
    const z: Zio
    const check: Proto -> bool

    constructor (z: Zio, check: Proto -> bool)
      ensures this.z == z && this.check == check
    {
      this.z, this.check := z, check;
    }

    method LoadBlock(size: nat) returns (r: Result<seq<Byte>>)
      modifies z
      ensures Follows(r, z.Rest(), ParseBlock(old(z.Rest()), size))
    {
      var b, missing := z.Read(size);
      return if missing != 0 then Err(UnexpectedEnd) else Ok(b);
    }

    method LoadByte() returns (r: Result<Byte>)
      modifies z
      ensures Follows(r, z.Rest(), ParseByte(old(z.Rest())))
    {
      var b := LoadBlock(1);
      if b.Err? { return Err(b.err); }
      return Ok(b.value[0]);
    }

    method LoadInt() returns (r: Result<nat>)
      modifies z
      ensures Follows(r, z.Rest(), ParseInt(old(z.Rest())))
    {
      var b := LoadBlock(SIZEOF_INT);
      if b.Err? { return Err(b.err); }
      var x := IntOf(b.value);
      if x < 0 { return Err(BadInteger); }
      return Ok(x);
    }

    method LoadString() returns (r: Result<Str>)
      modifies z
      ensures Follows(r, z.Rest(), ParseString(old(z.Rest())))
    {
      var b := LoadBlock(SIZEOF_SIZE);
      if b.Err? { return Err(b.err); }
      var size := ValueOf(b.value);
      if size == 0 { return Ok(None); }
      var s := LoadBlock(size);
      if s.Err? { return Err(s.err); }
      return Ok(Some(s.value[..size - 1]));
    }

    // LoadInt, and LoadVector of as many things
    method LoadVector(size: nat) returns (r: Result<seq<Byte>>)
      modifies z
      ensures Follows(r, z.Rest(), ParseVector(old(z.Rest()), size))
    {
      var n := LoadInt();
      if n.Err? { return Err(n.err); }
      r := LoadBlock(n.value * size);
    }

    method LoadConstant() returns (r: Result<Constant>)
      modifies z
      ensures Follows(r, z.Rest(), ParseConstant(old(z.Rest())))
    {
      hide ParseByte, ParseString, ParseBlock;
      var t := LoadByte();
      if t.Err? { return Err(t.err); }
      if t.value == 0 {
        return Ok(KNil);
      } else if t.value == 1 {
        var b := LoadByte();
        if b.Err? { return Err(b.err); }
        return Ok(KBool(b.value != 0));
      } else if t.value == 3 {
        var n := LoadBlock(SIZEOF_NUMBER);
        if n.Err? { return Err(n.err); }
        return Ok(KNumber(n.value));
      } else if t.value == 4 {
        var s := LoadString();
        if s.Err? { return Err(s.err); }
        return Ok(KString(s.value));
      }
      return Err(BadConstant);
    }

    method LoadLocVar() returns (r: Result<LocVar>)
      modifies z
      ensures Follows(r, z.Rest(), ParseLocVar(old(z.Rest())))
    {
      hide ParseInt, ParseString;
      var s := LoadString();
      if s.Err? { return Err(s.err); }
      var startpc := LoadInt();
      if startpc.Err? { return Err(startpc.err); }
      var endpc := LoadInt();
      if endpc.Err? { return Err(endpc.err); }
      return Ok(LocVar(s.value, startpc.value, endpc.value));
    }

    // The first loop of LoadConstants
    method LoadK() returns (r: Result<seq<Constant>>)
      modifies z
      ensures Follows(r, z.Rest(), Counted(old(z.Rest()), ParseConstant))
    {
      hide ParseInt, ParseConstant;
      var n := LoadInt();
      if n.Err? { return Err(n.err); }
      ghost var all := Many(n.value, z.Rest(), ParseConstant);
      var k: seq<Constant> := [];
      BeforeNone(all);
      for i := 0 to n.value
        invariant all == Before(k, Many(n.value - i, z.Rest(), ParseConstant))
      {
        ManyStep(k, n.value - i, z.Rest(), ParseConstant);
        var x := LoadConstant();
        if x.Err? { return Err(x.err); }
        k := k + [x.value];
      }
      assert k + [] == k;
      return Ok(k);
    }

    // The loops of LoadDebug
    method LoadLocVars() returns (r: Result<seq<LocVar>>)
      modifies z
      ensures Follows(r, z.Rest(), Counted(old(z.Rest()), ParseLocVar))
    {
      hide ParseInt, ParseLocVar;
      var n := LoadInt();
      if n.Err? { return Err(n.err); }
      ghost var all := Many(n.value, z.Rest(), ParseLocVar);
      var locvars: seq<LocVar> := [];
      BeforeNone(all);
      for i := 0 to n.value
        invariant all == Before(locvars, Many(n.value - i, z.Rest(), ParseLocVar))
      {
        ManyStep(locvars, n.value - i, z.Rest(), ParseLocVar);
        var x := LoadLocVar();
        if x.Err? { return Err(x.err); }
        locvars := locvars + [x.value];
      }
      assert locvars + [] == locvars;
      return Ok(locvars);
    }

    method LoadUpvalues() returns (r: Result<seq<Str>>)
      modifies z
      ensures Follows(r, z.Rest(), Counted(old(z.Rest()), b => ParseString(b)))
    {
      hide ParseInt, ParseString;
      var n := LoadInt();
      if n.Err? { return Err(n.err); }
      ghost var all := Many(n.value, z.Rest(), b => ParseString(b));
      var upvalues: seq<Str> := [];
      BeforeNone(all);
      for i := 0 to n.value
        invariant all == Before(upvalues, Many(n.value - i, z.Rest(), b => ParseString(b)))
      {
        ManyStep(upvalues, n.value - i, z.Rest(), b => ParseString(b));
        var x := LoadString();
        if x.Err? { return Err(x.err); }
        upvalues := upvalues + [x.value];
      }
      assert upvalues + [] == upvalues;
      return Ok(upvalues);
    }

    // LoadFunction, up to the nested functions
    method LoadHead(p: Str) returns (r: Result<Proto>)
      modifies z
      ensures Follows(r, z.Rest(), ParseHead(old(z.Rest()), p))
    {
      hide ParseInt, ParseString, ParseByte, ParseVector, Counted, Uses;
      var s := LoadString();
      if s.Err? { return Err(s.err); }
      var source := if s.value == None then p else s.value;
      var linedefined := LoadInt();
      if linedefined.Err? { return Err(linedefined.err); }
      var lastlinedefined := LoadInt();
      if lastlinedefined.Err? { return Err(lastlinedefined.err); }
      var nups := LoadByte();
      if nups.Err? { return Err(nups.err); }
      var numparams := LoadByte();
      if numparams.Err? { return Err(numparams.err); }
      var isVararg := LoadByte();
      if isVararg.Err? { return Err(isVararg.err); }
      var maxstacksize := LoadByte();
      if maxstacksize.Err? { return Err(maxstacksize.err); }
      var code := LoadVector(SIZEOF_INSTRUCTION);
      if code.Err? { return Err(code.err); }
      var k := LoadK();
      if k.Err? { return Err(k.err); }
      return Ok(Proto(source, linedefined.value, lastlinedefined.value, nups.value, numparams.value, isVararg.value,
                      maxstacksize.value, code.value, k.value, [], [], [], []));
    }

    method LoadDebug(f: Proto) returns (r: Result<Proto>)
      modifies z
      ensures Follows(r, z.Rest(), ParseDebug(old(z.Rest()), f))
    {
      hide ParseVector, Counted;
      var lineinfo := LoadVector(SIZEOF_INT);
      if lineinfo.Err? { return Err(lineinfo.err); }
      var locvars := LoadLocVars();
      if locvars.Err? { return Err(locvars.err); }
      var upvalues := LoadUpvalues();
      if upvalues.Err? { return Err(upvalues.err); }
      return Ok(f.(lineinfo := lineinfo.value, locvars := locvars.value, upvalues := upvalues.value));
    }

    method LoadFunction(p: Str) returns (r: Result<Proto>)
      modifies z
      ensures Follows(r, z.Rest(), ParseFunction(check, old(z.Rest()), p))
      decreases |z.Rest()|, 0
    {
      hide ParseHead, ParseInt, ParseFunctions, ParseDebug;
      ghost var b0 := z.Rest();
      var head := LoadHead(p);
      if head.Err? { return Err(head.err); }
      ghost var b1 := z.Rest();
      var n := LoadInt();
      if n.Err? { return Err(n.err); }
      ghost var b2 := z.Rest();
      FewerBytes(b0, p, b1);
      assert |b2| < |b0|;
      var ps := LoadFunctions(n.value, head.value.source);
      if ps.Err? { return Err(ps.err); }
      var f := LoadDebug(head.value.(p := ps.value));
      if f.Err? { return Err(f.err); }
      return if check(f.value) then Ok(f.value) else Err(BadCode);
    }

    // The second loop of LoadConstants
    method LoadFunctions(n: nat, p: Str) returns (r: Result<seq<Proto>>)
      modifies z
      ensures Follows(r, z.Rest(), ParseFunctions(check, n, old(z.Rest()), p))
      decreases |z.Rest()|, 1
    {
      hide ParseFunction;
      ghost var all := ParseFunctions(check, n, z.Rest(), p);
      var ps: seq<Proto> := [];
      BeforeNone(all);
      for i := 0 to n
        invariant all == Before(ps, ParseFunctions(check, n - i, z.Rest(), p))
        invariant |z.Rest()| <= |old(z.Rest())|
      {
        FunctionsStep(check, ps, n - i, z.Rest(), p);
        var f := LoadFunction(p);
        if f.Err? { return Err(f.err); }
        ps := ps + [f.value];
      }
      assert ps + [] == ps;
      return Ok(ps);
    }
  }

  lemma FewerBytes(b0: seq<Byte>, p: Str, b1: seq<Byte>)
    requires ParseHead(b0, p).Got? && ParseHead(b0, p).rest == b1
    ensures |b1| < |b0|
  {
  }

  // Things that have been read, before those that are still to be read.
  function Before<T>(xs: seq<T>, p: Parsed<seq<T>>): Parsed<seq<T>> {
    match p
    case Got(ys, rest) => Got(xs + ys, rest)
    case Bad(e) => Bad(e)
  }

  lemma BeforeNone<T>(p: Parsed<seq<T>>)
    ensures Before([], p) == p
  {
    if p.Got? { assert [] + p.value == p.value; }
  }

  lemma BeforeStep<T>(xs: seq<T>, x: T, p: Parsed<seq<T>>)
    ensures Before(xs, Before([x], p)) == Before(xs + [x], p)
  {
    if p.Got? { assert xs + ([x] + p.value) == xs + [x] + p.value; }
  }

  lemma ManyStep<T>(xs: seq<T>, n: nat, bs: seq<Byte>, parse: seq<Byte> -> Parsed<T>)
    requires n > 0
    ensures Before(xs, Many(n, bs, parse)) ==
            match parse(bs)
            case Bad(e) => Bad(e)
            case Got(x, rest) => Before(xs + [x], Many(n - 1, rest, parse))
  {
    var p := parse(bs);
    if p.Got? {
      assert Many(n, bs, parse) == Before([p.value], Many(n - 1, p.rest, parse));
      BeforeStep(xs, p.value, Many(n - 1, p.rest, parse));
    }
  }

  lemma FunctionsStep(check: Proto -> bool, xs: seq<Proto>, n: nat, bs: seq<Byte>, p: Str)
    requires n > 0
    ensures Before(xs, ParseFunctions(check, n, bs, p)) ==
            match ParseFunction(check, bs, p)
            case Bad(e) => Bad(e)
            case Got(x, rest) => Before(xs + [x], ParseFunctions(check, n - 1, rest, p))
  {
    hide ParseFunction;
    var f := ParseFunction(check, bs, p);
    if f.Got? {
      assert ParseFunctions(check, n, bs, p) == Before([f.value], ParseFunctions(check, n - 1, f.rest, p));
      BeforeStep(xs, f.value, ParseFunctions(check, n - 1, f.rest, p));
    }
  }

  // luaU_undump: however the reader cuts the bytes into pieces, the result is the same
  method LoadChunk(pieces: seq<seq<Byte>>, check: Proto -> bool) returns (r: Result<Proto>)
    ensures match ParseChunk(check, Joined(pieces))
            case Got(f, _) => r == Ok(f)
            case Bad(e) => r == Err(e)
  {
    hide ParseBlock, ParseFunction;
    var z := new Zio(pieces);
    var s := new LoadState(z, check);
    var h := s.LoadBlock(|HEADER|);
    if h.Err? { return Err(h.err); }
    if h.value != HEADER { return Err(BadHeader); }
    r := s.LoadFunction(UNKNOWN);
  }
}
