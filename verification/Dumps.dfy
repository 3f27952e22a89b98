/** The disassembler of src/dump.c: a linear sweep over the code of a function and of the functions
    nested in it. On compiled code it recovers exactly the emitted instructions. */
module Dumps {
  import opened Values
  import opened Syntax
  import opened Bytecode
  import opened Codegen
  import opened Boundaries

  /** One line: a position and the instruction there. */
  type Line = (nat, Instr)

  /** The lines from position ip to the end of the code; None if the sweep meets a byte that is no
      opcode or an operand past the end. */
  function Sweep(code: seq<byte>, ip: nat): (r: Option<seq<Line>>)
    decreases |code| - ip
  {
    if ip == |code| then Some([])
    else
      match Decode(code, ip)
      case None => None
      case Some(i) =>
        DecodedSize(code, ip);
        match Sweep(code, ip + |Encode(i)|)
        case None => None
        case Some(rest) => Some([(ip, i)] + rest)
  }

  /** The sweeps of fn and of the functions in it, in the order in which they are printed. */
  function Listings(fn: CompiledFunction): Option<seq<seq<Line>>>
    decreases fn, 1
  {
    match Sweep(fn.code, 0)
    case None => None
    case Some(lines) =>
      match ListingsOf(fn, 0)
      case None => None
      case Some(rest) => Some([lines] + rest)
  }

  /** The listings of the functions in fn from number j on. */
  function ListingsOf(fn: CompiledFunction, j: nat): Option<seq<seq<Line>>>
    requires j <= |fn.functions|
    decreases fn, 0, |fn.functions| - j
  {
    if j == |fn.functions| then Some([])
    else
      match Listings(fn.functions[j])
      case None => None
      case Some(first) =>
        match ListingsOf(fn, j + 1)
        case None => None
        case Some(rest) => Some(first + rest)
  }

  /** The loop of dump_function over the code. */
  method DumpCode(code: seq<byte>) returns (ok: bool, lines: seq<Line>, n: nat)
    ensures ok <==> Sweep(code, 0).Some?
    ensures ok ==> Sweep(code, 0) == Some(lines) && n == |lines|
  {
    hide Decode, Encode;
    lines, n := [], 0;
    var i := 0;
    assert forall rest: seq<Line> :: lines + rest == rest;
    while i < |code|
      invariant 0 <= i <= |code| && n == |lines|
      invariant Sweep(code, 0) == match Sweep(code, i) case None => None case Some(rest) => Some(lines + rest)
    {
      var op := Decode(code, i);
      if op.None? {
        return false, [], 0;
      }
      DecodedSize(code, i);
      ghost var was := lines;
      lines, n := lines + [(i, op.value)], n + 1;
      i := i + |Encode(op.value)|;
      assert forall rest: seq<Line> :: was + ([lines[|was|]] + rest) == lines + rest;
    }
    ok := true;
    assert lines + [] == lines;
  }

  /** dump_function */
  method DumpFunction(fn: CompiledFunction) returns (ok: bool, listings: seq<seq<Line>>)
    ensures Listings(fn) == if ok then Some(listings) else None
    decreases fn
  {
    hide Sweep;
    var lines, n;
    ok, lines, n := DumpCode(fn.code);
    if !ok {
      return false, [];
    }
    listings := [lines];
    var j := 0;
    while j < |fn.functions|
      invariant 0 <= j <= |fn.functions|
      invariant Listings(fn) == match ListingsOf(fn, j) case None => None case Some(rest) => Some(listings + rest)
    {
      var more;
      ok, more := DumpFunction(fn.functions[j]);
      if !ok {
        return false, [];
      }
      ghost var was := listings;
      listings := listings + more;
      j := j + 1;
      assert forall rest: seq<seq<Line>> :: was + (more + rest) == listings + rest;
    }
    ok := true;
    assert listings + [] == listings;
  }

  // ----- compiled code -----

  /** The lines of an instruction sequence from instruction k on. */
  function Lines(s: seq<Instr>, k: nat): seq<Line>
    requires k <= |s|
    decreases |s| - k
  {
    if k == |s| then [] else [(Offset(s, k), s[k])] + Lines(s, k + 1)
  }

  /** Instruction k of encoded code stands at its offset, and the next one follows it. */
  lemma InstrAt(s: seq<Instr>, k: nat)
    requires k < |s|
    ensures CodeAt(EncodeAll(s), Offset(s, k), Encode(s[k]))
    ensures Decode(EncodeAll(s), Offset(s, k)) == Some(s[k])
    ensures Offset(s, k + 1) == Offset(s, k) + |Encode(s[k])|
  {
    hide Encode, Decode, EncodeAll;
    var a, b := s[..k], s[k + 1..];
    assert s == a + [s[k]] + b && s[..k + 1] == a + [s[k]];
    EncodeOne(s[k]);
    EncodeAllJoin(a, [s[k]]);
    EncodeAllJoin(a + [s[k]], b);
    var code, i := EncodeAll(s), Encode(s[k]);
    assert code[|EncodeAll(a)|..|EncodeAll(a)| + |i|] == i;
    DecodeEncoded(code, Offset(s, k), s[k]);
  }

  /** The linear sweep recovers exactly the instructions that were encoded. */
  lemma {:induction false} SweepRecovers(s: seq<Instr>, k: nat)
    requires k <= |s|
    ensures Sweep(EncodeAll(s), Offset(s, k)) == Some(Lines(s, k))
    decreases |s| - k
  {
    hide Encode, Decode, EncodeAll, Offset;
    OffsetEnds(s);
    if k < |s| {
      InstrAt(s, k);
      SweepRecovers(s, k + 1);
      DecodedSize(EncodeAll(s), Offset(s, k));
    }
  }

  lemma {:induction false} LineOf(s: seq<Instr>, from: nat, k: nat)
    requires from <= k < |s|
    ensures (Offset(s, k), s[k]) in Lines(s, from)
    decreases k - from
  {
    hide Offset;
    if from < k {
      LineOf(s, from + 1, k);
    }
  }

  /** An instruction of the code starts at position ip. */
  ghost predicate Boundary(code: seq<byte>, ip: nat) {
    Sweep(code, 0).Some? && exists i :: (ip, i) in Sweep(code, 0).value
  }

  lemma {:induction false} TreeListings(fn: CompiledFunction)
    requires TreeOk(fn)
    ensures Listings(fn).Some?
    decreases fn, 1
  {
    hide CodeOk, DescriptorsOk, Sweep;
    var s, slots := TreeParts(fn);
    CodeSwept(fn, s, slots);
    ChildListings(fn, 0);
  }

  lemma CodeSwept(fn: CompiledFunction, s: seq<Instr>, slots: nat)
    requires CodeOk(fn, s, slots)
    ensures Sweep(fn.code, 0) == Some(Lines(s + [IReturn], 0))
  {
    hide Sweep, EncodeAll, Lines;
    OffsetEnds(s + [IReturn]);
    SweepRecovers(s + [IReturn], 0);
  }

  lemma {:induction false} ChildListings(fn: CompiledFunction, j: nat)
    requires j <= |fn.functions| && forall f | f in fn.functions :: TreeOk(f)
    ensures ListingsOf(fn, j).Some?
    decreases fn, 0, |fn.functions| - j
  {
    hide TreeOk;
    if j < |fn.functions| {
      assert fn.functions[j] in fn.functions;
      TreeListings(fn.functions[j]);
      ChildListings(fn, j + 1);
    }
  }

  /** The whole of every compiled program can be disassembled. */
  lemma ProgramListings(m: Mode, program: Term, main: CompiledFunction)
    requires m.emit && CompileProgram(m, program) == Ok(main)
    ensures Listings(main).Some?
  {
    hide CompileProgram, TreeOk, Listings;
    ProgramTree(m, program, main);
    TreeListings(main);
  }
}
