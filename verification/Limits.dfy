/** Exactly which programs the compiler accepts. A function has room for 255 variables: its table has an
    entry for each parameter, each `let` and each variable it captures, for itself or for a function
    inside it. Which variables are captured depends on the order of the text, because a name stays in the
    table once it is there. When code is emitted, the constants of a function, the size of an integer
    and the targets of jumps are limited as well, and a 16-bit operand must not start in the last place of
    a full code buffer, because chunk_emit_word makes room for one of its two bytes only. */
module Limits {
  import opened Values
  import opened Syntax
  import opened Bytecode
  import opened Codegen
  import opened Scoping
  import opened Boundaries
  import opened Modes
  import opened Errors
  import Reserves

  // ----- which names a term captures -----

  /** The names that t captures in a function whose table has the names `known`. */
  function Captured(t: Term, known: set<string>): set<string>
    decreases t, 0
  {
    match t
    case Int(_, _) | Str(_, _) | Bool(_, _) => {}
    case Var(x, _) => {x} - known
    case Call(f, args, _) => Captured(f, known) + CapturedAll(args, Known(f, known))
    case Binary(l, _, r, _) => Captured(l, known) + Captured(r, Known(l, known))
    case Unary(_, e, _) => Captured(e, known)
    case Pair(l, r, _) => Captured(l, known) + Captured(r, Known(l, known))
    case Function(ps, b, _) => Captured(b, ParamNames(ps)) - known
    case Let(x, v, n, _) => Captured(v, known + {x.text}) + Captured(n, Known(v, known + {x.text}))
    case If(c, a, b, _) =>
      Captured(c, known) + Captured(a, Known(c, known)) + Captured(b, Known(a, Known(c, known)))
  }

  function CapturedAll(ts: seq<Term>, known: set<string>): set<string>
    decreases ts, 0
  {
    if ts == [] then {} else Captured(ts[0], known) + CapturedAll(ts[1..], Known(ts[0], known))
  }

  /** The names in the table after t. */
  function Known(t: Term, known: set<string>): set<string>
    decreases t, 1
  {
    known + LetNames(t) + Captured(t, known)
  }

  /** The number of entries in the table of a function. */
  function Entries(ps: seq<Parameter>, body: Term): nat {
    |ps| + LetCount(body) + |Captured(body, ParamNames(ps))|
  }

  /** The table of every function in t has room. */
  predicate TablesFit(t: Term) {
    match t
    case Int(_, _) | Str(_, _) | Bool(_, _) | Var(_, _) => true
    case Function(ps, b, _) => Entries(ps, b) <= 255 && TablesFit(b)
    case Call(f, args, _) => TablesFit(f) && AllTablesFit(args)
    case Binary(l, _, r, _) => TablesFit(l) && TablesFit(r)
    case Unary(_, e, _) => TablesFit(e)
    case Pair(l, r, _) => TablesFit(l) && TablesFit(r)
    case Let(_, v, n, _) => TablesFit(v) && TablesFit(n)
    case If(c, a, b, _) => TablesFit(c) && TablesFit(a) && TablesFit(b)
  }

  predicate AllTablesFit(ts: seq<Term>) {
    ts == [] || (TablesFit(ts[0]) && AllTablesFit(ts[1..]))
  }

  /** The same for the program itself. */
  predicate ProgramTablesFit(program: Term) {
    Entries([], program) <= 255 && TablesFit(program)
  }

  // ----- what the code of a term needs -----

  /** The constants of t in the function it belongs to, in the order of the text: strings, and integers
      that do not fit in 16 bits. */
  function Constants(t: Term): seq<Value> {
    match t
    case Int(n, _) => if n <= 65535 then [] else [IntValue(n)]
    case Str(s, _) => [StrValue(s)]
    case Bool(_, _) | Var(_, _) | Function(_, _, _) => []
    case Call(f, args, _) => Constants(f) + AllConstants(args)
    case Binary(l, _, r, _) => Constants(l) + Constants(r)
    case Unary(_, e, _) => Constants(e)
    case Pair(l, r, _) => Constants(l) + Constants(r)
    case Let(_, v, n, _) => Constants(v) + Constants(n)
    case If(c, a, b, _) => Constants(c) + Constants(a) + Constants(b)
  }

  function AllConstants(ts: seq<Term>): seq<Value> {
    if ts == [] then [] else Constants(ts[0]) + AllConstants(ts[1..])
  }

  /** Every function in t has at most 256 constants. */
  predicate ConstantsFit(t: Term) {
    match t
    case Int(_, _) | Str(_, _) | Bool(_, _) | Var(_, _) => true
    case Function(_, b, _) => |Constants(b)| <= 256 && ConstantsFit(b)
    case Call(f, args, _) => ConstantsFit(f) && AllConstantsFit(args)
    case Binary(l, _, r, _) => ConstantsFit(l) && ConstantsFit(r)
    case Unary(_, e, _) => ConstantsFit(e)
    case Pair(l, r, _) => ConstantsFit(l) && ConstantsFit(r)
    case Let(_, v, n, _) => ConstantsFit(v) && ConstantsFit(n)
    case If(c, a, b, _) => ConstantsFit(c) && ConstantsFit(a) && ConstantsFit(b)
  }

  predicate AllConstantsFit(ts: seq<Term>) {
    ts == [] || (ConstantsFit(ts[0]) && AllConstantsFit(ts[1..]))
  }

  predicate ProgramConstantsFit(program: Term) {
    |Constants(program)| <= 256 && ConstantsFit(program)
  }

  /** Every integer in t, in a nested function or not, is an `int` of 32 bits. */
  predicate IntegersFit(t: Term) {
    match t
    case Int(n, _) => n <= 2147483647
    case Str(_, _) | Bool(_, _) | Var(_, _) => true
    case Function(_, b, _) => IntegersFit(b)
    case Call(f, args, _) => IntegersFit(f) && AllIntegersFit(args)
    case Binary(l, _, r, _) => IntegersFit(l) && IntegersFit(r)
    case Unary(_, e, _) => IntegersFit(e)
    case Pair(l, r, _) => IntegersFit(l) && IntegersFit(r)
    case Let(_, v, n, _) => IntegersFit(v) && IntegersFit(n)
    case If(c, a, b, _) => IntegersFit(c) && IntegersFit(a) && IntegersFit(b)
  }

  predicate AllIntegersFit(ts: seq<Term>) {
    ts == [] || (IntegersFit(ts[0]) && AllIntegersFit(ts[1..]))
  }

  /** The number of bytes that t is compiled to. */
  function CodeSize(t: Term): nat {
    match t
    case Int(n, _) => if n <= 65535 then 3 else 2
    case Str(_, _) | Var(_, _) | Function(_, _, _) => 2
    case Bool(_, _) => 1
    case Call(f, args, _) => CodeSize(f) + AllCodeSize(args) + 2
    case Binary(l, _, r, _) => CodeSize(l) + CodeSize(r) + 1
    case Unary(_, e, _) => CodeSize(e) + 1
    case Pair(l, r, _) => CodeSize(l) + CodeSize(r) + 1
    case Let(_, v, n, _) => CodeSize(v) + CodeSize(n)
    case If(c, a, b, _) => CodeSize(c) + CodeSize(a) + CodeSize(b) + 6
  }

  function AllCodeSize(ts: seq<Term>): nat {
    if ts == [] then 0 else CodeSize(ts[0]) + AllCodeSize(ts[1..])
  }

  /** With t at position base, the end of every `if` is a 16-bit jump target. */
  predicate JumpsFit(t: Term, base: nat) {
    match t
    case Int(_, _) | Str(_, _) | Bool(_, _) | Var(_, _) => true
    case Function(_, b, _) => JumpsFit(b, 0)
    case Call(f, args, _) => JumpsFit(f, base) && AllJumpsFit(args, base + CodeSize(f))
    case Binary(l, _, r, _) => JumpsFit(l, base) && JumpsFit(r, base + CodeSize(l))
    case Unary(_, e, _) => JumpsFit(e, base)
    case Pair(l, r, _) => JumpsFit(l, base) && JumpsFit(r, base + CodeSize(l))
    case Let(_, v, n, _) => JumpsFit(v, base) && JumpsFit(n, base + CodeSize(v))
    case If(c, a, b, _) =>
      && JumpsFit(c, base) && JumpsFit(a, base + CodeSize(c) + 3)
      && JumpsFit(b, base + CodeSize(c) + CodeSize(a) + 6) && base + CodeSize(t) <= 65535
  }

  predicate AllJumpsFit(ts: seq<Term>, base: nat) {
    ts == [] || (JumpsFit(ts[0], base) && AllJumpsFit(ts[1..], base + CodeSize(ts[0])))
  }

  /** With t at position base, no 16-bit operand starts in the last place of a buffer of 8, 16, 32, ... bytes. */
  predicate WordsFit(t: Term, base: nat) {
    match t
    case Int(n, _) => n <= 65535 ==> !IsCapacity(base + 2)
    case Str(_, _) | Bool(_, _) | Var(_, _) => true
    case Function(_, b, _) => WordsFit(b, 0)
    case Call(f, args, _) => WordsFit(f, base) && AllWordsFit(args, base + CodeSize(f))
    case Binary(l, _, r, _) => WordsFit(l, base) && WordsFit(r, base + CodeSize(l))
    case Unary(_, e, _) => WordsFit(e, base)
    case Pair(l, r, _) => WordsFit(l, base) && WordsFit(r, base + CodeSize(l))
    case Let(_, v, n, _) => WordsFit(v, base) && WordsFit(n, base + CodeSize(v))
    case If(c, a, b, _) =>
      && WordsFit(c, base) && !IsCapacity(base + CodeSize(c) + 2)
      && WordsFit(a, base + CodeSize(c) + 3) && !IsCapacity(base + CodeSize(c) + CodeSize(a) + 5)
      && WordsFit(b, base + CodeSize(c) + CodeSize(a) + 6)
  }

  predicate AllWordsFit(ts: seq<Term>, base: nat) {
    ts == [] || (WordsFit(ts[0], base) && AllWordsFit(ts[1..], base + CodeSize(ts[0])))
  }

  /** Only free variables are captured, and none that is in the table. */
  lemma {:induction false} CapturedFree(t: Term, known: set<string>)
    ensures Captured(t, known) <= FreeVars(t) - known
    decreases t
  {
    match t
    case Call(f, args, _) =>
      CapturedFree(f, known);
      CapturedAllFree(args, Known(f, known));
    case Binary(l, _, r, _) =>
      CapturedFree(l, known);
      CapturedFree(r, Known(l, known));
    case Unary(_, e, _) => CapturedFree(e, known);
    case Pair(l, r, _) =>
      CapturedFree(l, known);
      CapturedFree(r, Known(l, known));
    case Function(ps, b, _) => CapturedFree(b, ParamNames(ps));
    case Let(x, v, n, _) =>
      CapturedFree(v, known + {x.text});
      CapturedFree(n, Known(v, known + {x.text}));
    case If(c, a, b, _) =>
      CapturedFree(c, known);
      CapturedFree(a, Known(c, known));
      CapturedFree(b, Known(a, Known(c, known)));
    case _ =>
  }

  lemma {:induction false} CapturedAllFree(ts: seq<Term>, known: set<string>)
    ensures CapturedAll(ts, known) <= FreeVarsAll(ts) - known
    decreases ts
  {
    hide Captured, FreeVars, LetNames;
    if ts != [] {
      CapturedFree(ts[0], known);
      CapturedAllFree(ts[1..], Known(ts[0], known));
    }
  }

  /** A term without `let`s captures its free variables, in the sense of lexical scoping, and no others. */
  lemma {:induction false} OperandCaptures(t: Term, known: set<string>)
    requires Operand(t)
    ensures Captured(t, known) == FreeVars(t) - known && LetNames(t) == {}
    decreases t, 0
  {
    match t
    case Call(f, args, _) =>
      OperandCaptures(f, known);
      OperandsCapture(args, Known(f, known));
    case Binary(l, _, r, _) =>
      OperandCaptures(l, known);
      OperandCaptures(r, Known(l, known));
    case Unary(_, e, _) => OperandCaptures(e, known);
    case Pair(l, r, _) =>
      OperandCaptures(l, known);
      OperandCaptures(r, Known(l, known));
    case Function(ps, b, _) => SpineCaptures(b, ParamNames(ps));
    case If(c, a, b, _) =>
      OperandCaptures(c, known);
      OperandCaptures(a, Known(c, known));
      OperandCaptures(b, Known(a, Known(c, known)));
    case _ =>
  }

  lemma {:induction false} OperandsCapture(ts: seq<Term>, known: set<string>)
    requires Operands(ts)
    ensures CapturedAll(ts, known) == FreeVarsAll(ts) - known && LetNamesAll(ts) == {}
    decreases ts, 0
  {
    hide Captured, FreeVars, LetNames, Operand;
    if ts != [] {
      OperandCaptures(ts[0], known);
      OperandsCapture(ts[1..], Known(ts[0], known));
    }
  }

  /** In spine form the order of the text makes no difference: what the single pass captures is exactly
      what is free. */
  lemma {:induction false} SpineCaptures(t: Term, known: set<string>)
    requires Spine(t)
    ensures Captured(t, known) == FreeVars(t) - known
    decreases t, 1
  {
    match t
    case Let(x, v, n, _) =>
      OperandCaptures(v, known + {x.text});
      SpineCaptures(n, Known(v, known + {x.text}));
    case If(c, a, b, _) =>
      OperandCaptures(c, known);
      SpineCaptures(a, Known(c, known));
      SpineCaptures(b, Known(a, Known(c, known)));
      hide Captured, FreeVars, LetNames, Spine, Operand;
    case Call(f, args, _) =>
      OperandCaptures(f, known);
      OperandsCapture(args, Known(f, known));
    case _ => OperandCaptures(t, known);
  }

  // ----- tables -----

  function Names(c: Context): set<string>
    requires c.Context?
  {
    set v | v in c.variables :: v.name
  }

  lemma {:induction false} LookupNames(vs: seq<Variable>, x: string)
    ensures Lookup(vs, x).Some? <==> exists v | v in vs :: v.name == x
    decreases |vs|
  {
    if vs != [] {
      var init, last := vs[..|vs| - 1], vs[|vs| - 1];
      assert vs == init + [last];
      LookupNames(init, x);
    }
  }

  lemma NamesLookup(c: Context, x: string)
    requires c.Context?
    ensures Lookup(c.variables, x).Some? <==> x in Names(c)
  {
    LookupNames(c.variables, x);
    hide Lookup;
  }

  /** These names can be looked up in c: every table that has to capture them has room. */
  ghost predicate RoomFor(c: Context, names: set<string>)
    decreases c
  {
    if c.NoContext? then names == {}
    else |c.variables| + |names - Names(c)| <= MAX_VARIABLES && RoomFor(c.enclosing, names - Names(c))
  }

  /** From c to d these names have been looked up. */
  ghost predicate LookedUp(c: Context, d: Context, names: set<string>)
    decreases c
  {
    if c.NoContext? then d.NoContext?
    else
      && d.Context? && |d.variables| == |c.variables| + |names - Names(c)| && Names(d) == Names(c) + names
      && d.constants == c.constants
      && LookedUp(c.enclosing, d.enclosing, names - Names(c))
  }

  lemma SetSizes<T>(a: set<T>, b: set<T>)
    ensures |a + b| == |a| + |b - a|
    ensures |a| <= |a + b|
  {
    assert a + b == a + (b - a);
  }

  lemma {:induction false} RoomLess(c: Context, names: set<string>, more: set<string>)
    requires RoomFor(c, names + more)
    ensures RoomFor(c, names)
    decreases c
  {
    if c.Context? {
      var k := Names(c);
      assert (names + more) - k == (names - k) + (more - k);
      SetSizes(names - k, more - k);
      RoomLess(c.enclosing, names - k, more - k);
    } else {
      assert names <= names + more;
    }
  }

  /** Looking up first some names and then more is looking up all of them. */
  lemma {:induction false} RoomJoin(c: Context, d: Context, names: set<string>, more: set<string>)
    requires LookedUp(c, d, names) && RoomFor(c, names)
    ensures RoomFor(c, names + more) <==> RoomFor(d, more)
    decreases c
  {
    if c.Context? {
      var a, b := names - Names(c), more - Names(d);
      Remaining(Names(c), Names(d), names, more);
      hide Names;
      RoomJoin(c.enclosing, d.enclosing, a, b);
    } else {
      assert names + more == more;
    }
  }

  lemma Remaining(k: set<string>, k': set<string>, names: set<string>, more: set<string>)
    requires k' == k + names
    ensures (names + more) - k == (names - k) + (more - k')
    ensures |(names + more) - k| == |names - k| + |more - k'|
  {
    assert (names + more) - k == (names - k) + (more - k');
    assert (more - k') - (names - k) == more - k';
    SetSizes(names - k, more - k');
  }

  lemma {:induction false} LookedUpJoin(c: Context, d: Context, e: Context, names: set<string>, more: set<string>)
    requires LookedUp(c, d, names) && LookedUp(d, e, more)
    ensures LookedUp(c, e, names + more)
    decreases c
  {
    if c.Context? {
      Remaining(Names(c), Names(d), names, more);
      hide Names;
      LookedUpJoin(c.enclosing, d.enclosing, e.enclosing, names - Names(c), more - Names(d));
    }
  }

  lemma {:induction false} RoomForNone(c: Context)
    requires Wf(c)
    ensures RoomFor(c, {}) && LookedUp(c, c, {})
    decreases c
  {
    if c.Context? {
      hide Tidy, Linked, EntryOk;
      assert {} - Names(c) == {};
      RoomForNone(c.enclosing);
    }
  }

  /** A name that is captured from the enclosing function. */
  lemma CaptureRoom(c: Context, x: string)
    requires c.Context? && Wf(c) && c.enclosing.Context? && Lookup(c.variables, x).None?
    ensures match Resolve(c.enclosing, x)
      case Err(e) => Resolve(c, x) == Err(e)
      case Ok(r) =>
        if |c.variables| == MAX_VARIABLES then Resolve(c, x) == Err(VariableTableOverrun)
        else
          Resolve(c, x).Ok? &&
          var d := Resolve(c, x).value.0;
          && d.Context? && d.enclosing == r.0 && d.constants == c.constants
          && |d.variables| == |c.variables| + 1 && Names(d) == Names(c) + {x}
  {
    hide Tidy, Linked, EntryOk, Lookup;
    var r := Resolve(c.enclosing, x);
    if r.Ok? && |c.variables| < MAX_VARIABLES {
      var d := Resolve(c, x).value.0;
      assert d.variables == c.variables + [Variable(x, false, |c.nonlocals|)];
    }
  }

  lemma {:induction false} ResolveRoom(c: Context, x: string)
    requires c.Context? && Wf(c)
    ensures Resolve(c, x).Ok? <==> RoomFor(c, {x})
    ensures Resolve(c, x).Ok? ==> LookedUp(c, Resolve(c, x).value.0, {x})
    ensures Resolve(c, x).Err? ==> Resolve(c, x).error.UndefinedVariable? || Resolve(c, x).error == VariableTableOverrun
    decreases c
  {
    NamesLookup(c, x);
    WfRoom(c);
    hide Wf, Lookup, Names;
    if x in Names(c) {
      assert {x} - Names(c) == {};
      RoomForNone(c.enclosing);
      FoundRoom(c, x);
      hide Resolve;
    } else {
      assert {x} - Names(c) == {x};
      if c.enclosing.Context? {
        ResolveRoom(c.enclosing, x);
        CaptureRoom(c, x);
        hide Resolve;
      }
    }
  }

  lemma WfRoom(c: Context)
    requires c.Context? && Wf(c)
    ensures |c.variables| <= MAX_VARIABLES && Wf(c.enclosing)
  {
  }

  lemma FoundRoom(c: Context, x: string)
    requires c.Context? && Lookup(c.variables, x).Some?
    ensures Resolve(c, x).Ok? && Resolve(c, x).value.0 == c
  {
  }

  // ----- terms -----

  /** What a term asks for: whether the functions in it fit, and in the function around it so many `let`s,
      which bind these names, the names it captures, its constants and its code; and whether the numbers
      in it, the constants of the functions in it, its jumps and its words keep within their limits. */
  datatype Uses = Uses(
    fits: bool,
    lets: nat,
    bound: set<string>,
    captured: set<string>,
    constants: seq<Value>,
    size: nat,
    integers: bool,
    inner: bool,
    jumps: bool,
    words: bool)

  const NOTHING := Uses(true, 0, {}, {}, [], 0, true, true, true, true)

  /** Without emission there are no constants and no code. */
  function UsesOf(m: Mode, t: Term, known: set<string>, base: nat): Uses {
    Uses(TablesFit(t), LetCount(t), LetNames(t), Captured(t, known), if m.emit then Constants(t) else [],
         if m.emit then CodeSize(t) else 0, !m.emit || IntegersFit(t), !m.emit || ConstantsFit(t),
         !m.emit || JumpsFit(t, base), !m.emit || m.reserveTwo || WordsFit(t, base))
  }

  function UsesOfAll(m: Mode, ts: seq<Term>, known: set<string>, base: nat): Uses {
    Uses(AllTablesFit(ts), LetCountAll(ts), LetNamesAll(ts), CapturedAll(ts, known),
         if m.emit then AllConstants(ts) else [], if m.emit then AllCodeSize(ts) else 0,
         !m.emit || AllIntegersFit(ts), !m.emit || AllConstantsFit(ts), !m.emit || AllJumpsFit(ts, base),
         !m.emit || m.reserveTwo || AllWordsFit(ts, base))
  }

  function Both(u: Uses, v: Uses): Uses {
    Uses(u.fits && v.fits, u.lets + v.lets, u.bound + v.bound, u.captured + v.captured, u.constants + v.constants,
         u.size + v.size, u.integers && v.integers, u.inner && v.inner, u.jumps && v.jumps,
         u.words && v.words)
  }

  /** An instruction of k bytes. */
  function Longer(m: Mode, u: Uses, k: nat): Uses {
    u.(size := u.size + if m.emit then k else 0)
  }

  /** The function being compiled has room for the `let`s and the captures, and so have the enclosing
      ones for the captures. */
  ghost predicate HasRoom(c: Context, u: Uses)
    requires c.Context?
  {
    u.fits && |c.variables| + u.lets + |u.captured| <= MAX_VARIABLES && RoomFor(c.enclosing, u.captured)
  }

  predicate ConstantsRoom(c: Context, u: Uses)
    requires c.Context?
  {
    u.inner && |c.constants| + |u.constants| <= 256
  }

  ghost predicate Accepts(c: Context, u: Uses)
    requires c.Context?
  {
    HasRoom(c, u) && ConstantsRoom(c, u) && u.integers && u.jumps && u.words
  }

  /** From c to the context of e a term with these uses has been compiled. */
  ghost predicate Reached(c: Context, e: Emitted, u: Uses)
    requires c.Context?
  {
    var d := e.context;
    && d.Context? && Wf(d) && |d.variables| == |c.variables| + u.lets + |u.captured|
    && Names(d) == Names(c) + u.bound + u.captured && LookedUp(c.enclosing, d.enclosing, u.captured)
    && d.constants == c.constants + u.constants && |e.bytes| == u.size
  }

  /** The error tells which limit is exceeded. */
  ghost predicate Reason(e: CompileError, c: Context, u: Uses)
    requires c.Context?
  {
    match e
    case UndefinedVariable(_) => !HasRoom(c, u)
    case VariableTableOverrun => !HasRoom(c, u)
    case TooManyConstants => !ConstantsRoom(c, u)
    case IntegerOverflow => !u.integers
    case TooMuchCode => !u.jumps
    case CodeBufferOverrun => !u.words
    case _ => false
  }

  /** A term with these uses is accepted exactly when no limit is exceeded. */
  ghost predicate Measured(r: Result<Emitted>, c: Context, u: Uses)
    requires c.Context?
  {
    match r
    case Ok(e) => Accepts(c, u) && Reached(c, e, u)
    case Err(e) => Reason(e, c, u)
  }

  lemma MeasuredContext(r: Result<Emitted>, c: Context, u: Uses)
    requires c.Context? && Measured(r, c, u) && r.Ok?
    ensures var d := r.value.context;
      && d.Context? && Wf(d) && |d.constants| <= 256
      && Names(d) == Names(c) + u.bound + u.captured && |r.value.bytes| == u.size
  {
    hide Wf, Names, RoomFor, LookedUp;
  }

  /** There is room for both of two terms when there is room for the first and then for the second. */
  lemma ThenRoom(c: Context, e: Emitted, u: Uses, u2: Uses)
    requires c.Context? && HasRoom(c, u) && Reached(c, e, u) && u.captured !! u2.captured
    ensures HasRoom(c, Both(u, u2)) <==> HasRoom(e.context, u2)
  {
    hide Wf, Names, RoomFor, LookedUp;
    SetSizes(u.captured, u2.captured);
    assert u2.captured - u.captured == u2.captured;
    RoomJoin(c.enclosing, e.context.enclosing, u.captured, u2.captured);
  }

  lemma FirstRoom(c: Context, u: Uses, u2: Uses)
    requires c.Context? && HasRoom(c, Both(u, u2))
    ensures HasRoom(c, u)
  {
    hide Names, RoomFor;
    SetSizes(u.captured, u2.captured);
    RoomLess(c.enclosing, u.captured, u2.captured);
  }

  lemma ThenReached(c: Context, e: Emitted, u: Uses, e2: Emitted, u2: Uses)
    requires c.Context? && Reached(c, e, u) && Reached(e.context, e2, u2) && u.captured !! u2.captured
    ensures Reached(c, Emitted(e2.context, e.bytes + e2.bytes), Both(u, u2))
  {
    hide Wf, Names, RoomFor, LookedUp;
    SetSizes(u.captured, u2.captured);
    assert u2.captured - u.captured == u2.captured;
    LookedUpJoin(c.enclosing, e.context.enclosing, e2.context.enclosing, u.captured, u2.captured);
    assert Names(c) + u.bound + u.captured + u2.bound + u2.captured
        == Names(c) + (u.bound + u2.bound) + (u.captured + u2.captured);
  }

  lemma ThenMeasured(c: Context, r: Result<Emitted>, u: Uses, r2: Result<Emitted>, u2: Uses)
    requires c.Context? && Measured(r, c, u) && u.captured !! u2.captured
    requires r.Ok? ==> r.value.context.Context? && Measured(r2, r.value.context, u2)
    ensures Measured(Reserves.Then(r, r2), c, Both(u, u2))
  {
    if r.Err? {
      if HasRoom(c, Both(u, u2)) {
        FirstRoom(c, u, u2);
      }
    } else {
      ThenRoom(c, r.value, u, u2);
      assert r.value.context.constants == c.constants + u.constants;
      if r2.Ok? {
        ThenReached(c, r.value, u, r2.value, u2);
      }
    }
    hide HasRoom, Reached;
  }

  /** An instruction without a word behind the code. */
  lemma InstrMeasured(m: Mode, c: Context, r: Result<Emitted>, u: Uses, i: Instr)
    requires c.Context? && Measured(r, c, u)
    ensures Measured(if r.Ok? then Ok(Append(m, r.value, i)) else r, c, Longer(m, u, |Encode(i)|))
  {
    hide Wf, Names, RoomFor, LookedUp, Encode;
  }

  /** What follows a term captures nothing that is in the table by then. */
  lemma NothingTwice(t: Term, u: Term, known: set<string>)
    ensures Captured(t, known) !! Captured(u, Known(t, known))
  {
    hide Captured, FreeVars, LetNames;
    CapturedFree(u, Known(t, known));
  }

  lemma Unmeasured(c: Context)
    requires c.Context? && Wf(c) && |c.constants| <= 256
    ensures Measured(Ok(Emitted(c, [])), c, NOTHING)
  {
    hide Tidy, Linked, EntryOk;
    RoomForNone(c.enclosing);
    assert Names(c) + {} + {} == Names(c);
  }

  ghost predicate Ready(c: Context) {
    c.Context? && Wf(c) && |c.constants| <= 256
  }

  /** A term is accepted exactly when the functions in it fit and there is room for its variables and, with
      emission, for its constants, and when its integers, jumps and words fit; then exactly its variables and
      constants are in the tables, and its code has the size said. Otherwise the error names a limit that
      is exceeded. */
  lemma {:induction false} TermMeasured(m: Mode, t: Term, isTail: bool, c: Context, base: nat)
    requires Ready(c)
    ensures Measured(Compile(m, t, isTail, c, base), c, UsesOf(m, t, Names(c), base))
    decreases t, 2
  {
    hide Wf, Measured, Names, CompileCall, CompileBinary, CompileUnary, CompilePair, CompileClosure, CompileLet,
      CompileIf, CompileVar, CompileInt, CompileConstant, Encode;
    match t
    case Int(_, _) => IntMeasured(m, t, c, base);
    case Str(s, _) => ConstantMeasured(m, c, StrValue(s));
    case Bool(b, _) => BoolMeasured(m, c, b);
    case Var(x, _) => VarMeasured(m, c, x);
    case Call(_, _, _) => CallMeasured(m, t, isTail, c, base);
    case Binary(l, _, r, _) => BinaryMeasured(m, t, c, base);
    case Pair(l, r, _) => PairMeasured(m, t, c, base);
    case Unary(_, _, _) => UnaryMeasured(m, t, c, base);
    case Function(_, _, _) => ClosureMeasured(m, t, c, base);
    case Let(_, _, _, _) => LetMeasured(m, t, c, base);
    case If(_, _, _, _) => IfMeasured(m, t, c, base);
  }

  /** The result of a new constant. */
  lemma ConstantMeasured(m: Mode, c: Context, v: Value)
    requires Ready(c)
    ensures Measured(CompileConstant(m, c, v), c,
                     Longer(m, NOTHING.(constants := if m.emit then [v] else []), 2))
  {
    Unmeasured(c);
    if m.emit && |c.constants| < 256 {
      ListsGrow(c, c.(constants := c.constants + [v]));
    }
    hide Wf, RoomFor, LookedUp;
  }

  lemma IntMeasured(m: Mode, t: Term, c: Context, base: nat)
    requires t.Int? && Ready(c)
    ensures Measured(CompileInt(m, c, t.value, base), c, UsesOf(m, t, Names(c), base))
  {
    Unmeasured(c);
    ConstantMeasured(m, c, IntValue(t.value));
    hide Wf, Names, RoomFor, LookedUp, CompileConstant, IsCapacity;
  }

  lemma BoolMeasured(m: Mode, c: Context, b: bool)
    requires Ready(c)
    ensures Measured(Leaf(m, c, if b then ITrue else IFalse), c, Longer(m, NOTHING, 1))
  {
    Unmeasured(c);
    hide Wf, Names, RoomFor, LookedUp;
  }

  lemma VarMeasured(m: Mode, c: Context, x: string)
    requires Ready(c)
    ensures Measured(CompileVar(m, c, x), c, Longer(m, NOTHING.(captured := {x} - Names(c)), 2))
  {
    hide Wf, Lookup, Names, Resolve, RoomFor, LookedUp;
    WfRoom(c);
    ResolveRoom(c, x);
    ChainRoom(c, {x});
    if Resolve(c, x).Ok? {
      var d := Resolve(c, x).value.0;
      ResolveCaptures(c, x);
      ChainLookedUp(c, d, {x});
    }
  }

  /** Names looked up in c are captures of it, unless they are in its table. */
  lemma ChainRoom(c: Context, names: set<string>)
    requires c.Context?
    ensures RoomFor(c, names) <==> HasRoom(c, NOTHING.(captured := names - Names(c)))
  {
  }

  lemma ChainLookedUp(c: Context, d: Context, names: set<string>)
    requires c.Context? && LookedUp(c, d, names) && Wf(d)
    ensures Reached(c, Emitted(d, []), NOTHING.(captured := names - Names(c)))
  {
    hide Wf;
    assert Names(c) + names == Names(c) + {} + (names - Names(c));
  }

  lemma {:induction false} UnaryMeasured(m: Mode, t: Term, c: Context, base: nat)
    requires t.Unary? && Ready(c)
    ensures Measured(CompileUnary(m, t, c, base), c, UsesOf(m, t, Names(c), base))
    decreases t, 1
  {
    hide Compile, Wf, Names, Measured, Append;
    TermMeasured(m, t.operand, false, c, base);
    var r, u := Compile(m, t.operand, false, c, base), UsesOf(m, t.operand, Names(c), base);
    InstrMeasured(m, c, r, u, IUnary(t.unop));
  }

  /** Two parts, one after the other. */
  lemma {:induction false} TwoMeasured(m: Mode, t: Term, l: Term, r: Term, isTail: bool, c: Context, base: nat)
    requires Ready(c) && l < t && r < t
    ensures var r1 := Compile(m, l, false, c, base);
      var r2 := if r1.Ok? then Compile(m, r, isTail, r1.value.context, base + |r1.value.bytes|) else r1;
      Measured(Reserves.Then(r1, r2), c,
               Both(UsesOf(m, l, Names(c), base), UsesOf(m, r, Known(l, Names(c)), base + CodeSize(l))))
    decreases t, 0
  {
    hide Compile, Wf, Names, Measured, TablesFit, LetCount, LetNames, Captured, Reserves.Then, JumpsFit, WordsFit,
      CodeSize, Constants, ConstantsFit, IntegersFit;
    var k := Names(c);
    var r1, u1 := Compile(m, l, false, c, base), UsesOf(m, l, k, base);
    TermMeasured(m, l, false, c, base);
    NothingTwice(l, r, k);
    var r2, u2 := r1, UsesOf(m, r, Known(l, k), base + CodeSize(l));
    if r1.Ok? {
      MeasuredContext(r1, c, u1);
      r2 := Compile(m, r, isTail, r1.value.context, base + |r1.value.bytes|);
      TermMeasured(m, r, isTail, r1.value.context, base + |r1.value.bytes|);
      assert u2 == UsesOf(m, r, Names(r1.value.context), base + |r1.value.bytes|) by {
        SamePlace(m, r, Known(l, k), base + CodeSize(l), base + |r1.value.bytes|);
      }
    }
    ThenMeasured(c, r1, u1, r2, u2);
  }

  /** Without emission positions do not matter. */
  lemma SamePlace(m: Mode, t: Term, known: set<string>, base: nat, base': nat)
    requires m.emit ==> base == base'
    ensures UsesOf(m, t, known, base) == UsesOf(m, t, known, base')
  {
  }

  lemma {:induction false} BinaryMeasured(m: Mode, t: Term, c: Context, base: nat)
    requires t.Binary? && Ready(c)
    ensures Measured(CompileBinary(m, t, c, base), c, UsesOf(m, t, Names(c), base))
    decreases t, 1
  {
    hide Compile, Wf, Names, Measured, Append;
    TwoMeasured(m, t, t.lhs, t.rhs, false, c, base);
    var r1 := Compile(m, t.lhs, false, c, base);
    var r2 := if r1.Ok? then Compile(m, t.rhs, false, r1.value.context, base + |r1.value.bytes|) else r1;
    var k := Names(c);
    var u := Both(UsesOf(m, t.lhs, k, base), UsesOf(m, t.rhs, Known(t.lhs, k), base + CodeSize(t.lhs)));
    InstrMeasured(m, c, Reserves.Then(r1, r2), u, IBinary(t.op));
    assert Longer(m, u, 1) == UsesOf(m, t, k, base);
  }

  lemma {:induction false} PairMeasured(m: Mode, t: Term, c: Context, base: nat)
    requires t.Pair? && Ready(c)
    ensures Measured(CompilePair(m, t, c, base), c, UsesOf(m, t, Names(c), base))
    decreases t, 1
  {
    hide Compile, Wf, Names, Measured, Append;
    TwoMeasured(m, t, t.fst, t.snd, false, c, base);
    var r1 := Compile(m, t.fst, false, c, base);
    var r2 := if r1.Ok? then Compile(m, t.snd, false, r1.value.context, base + |r1.value.bytes|) else r1;
    var k := Names(c);
    var u := Both(UsesOf(m, t.fst, k, base), UsesOf(m, t.snd, Known(t.fst, k), base + CodeSize(t.fst)));
    InstrMeasured(m, c, Reserves.Then(r1, r2), u, ITuple);
    assert Longer(m, u, 1) == UsesOf(m, t, k, base);
  }

  lemma {:induction false} CallMeasured(m: Mode, t: Term, isTail: bool, c: Context, base: nat)
    requires t.Call? && Ready(c)
    ensures Measured(CompileCall(m, t, isTail, c, base), c, UsesOf(m, t, Names(c), base))
    decreases t, 1
  {
    hide Compile, CompileAll, Wf, Names, Measured, Append;
    var f, args, k := t.callee, t.args, Names(c);
    var r1, u1 := Compile(m, f, false, c, base), UsesOf(m, f, k, base);
    TermMeasured(m, f, false, c, base);
    CapturedAllFree(args, Known(f, k));
    var r2, u2 := r1, UsesOfAll(m, args, Known(f, k), base + CodeSize(f));
    if r1.Ok? {
      MeasuredContext(r1, c, u1);
      r2 := CompileAll(m, args, r1.value.context, base + |r1.value.bytes|);
      AllMeasured(m, args, r1.value.context, base + |r1.value.bytes|);
      SamePlaceAll(m, args, Known(f, k), base + CodeSize(f), base + |r1.value.bytes|);
    }
    ThenMeasured(c, r1, u1, r2, u2);
    InstrMeasured(m, c, Reserves.Then(r1, r2), Both(u1, u2), CallInstr(m, isTail, |args|));
    CallSize(m, isTail, |args|);
    assert Longer(m, Both(u1, u2), 2) == UsesOf(m, t, k, base);
  }

  lemma CallSize(m: Mode, isTail: bool, n: nat)
    ensures |Encode(CallInstr(m, isTail, n))| == 2
  {
  }

  lemma SamePlaceAll(m: Mode, ts: seq<Term>, known: set<string>, base: nat, base': nat)
    requires m.emit ==> base == base'
    ensures UsesOfAll(m, ts, known, base) == UsesOfAll(m, ts, known, base')
  {
  }

  lemma {:induction false} AllMeasured(m: Mode, ts: seq<Term>, c: Context, base: nat)
    requires Ready(c)
    ensures Measured(CompileAll(m, ts, c, base), c, UsesOfAll(m, ts, Names(c), base))
    decreases ts, 1
  {
    hide Compile, Wf, Names, Measured, TablesFit, LetCount, LetNames, Captured, JumpsFit, WordsFit, CodeSize, Constants,
      ConstantsFit, IntegersFit;
    if ts == [] {
      Unmeasured(c);
    } else {
      var t, rest, k := ts[0], ts[1..], Names(c);
      var r1, u1 := Compile(m, t, false, c, base), UsesOf(m, t, k, base);
      TermMeasured(m, t, false, c, base);
      CapturedAllFree(rest, Known(t, k));
      var r2, u2 := r1, UsesOfAll(m, rest, Known(t, k), base + CodeSize(t));
      if r1.Ok? {
        MeasuredContext(r1, c, u1);
        r2 := CompileAll(m, rest, r1.value.context, base + |r1.value.bytes|);
        AllMeasured(m, rest, r1.value.context, base + |r1.value.bytes|);
        SamePlaceAll(m, rest, Known(t, k), base + CodeSize(t), base + |r1.value.bytes|);
      }
      ThenMeasured(c, r1, u1, r2, u2);
      assert Both(u1, u2) == UsesOfAll(m, ts, k, base);
    }
  }

  lemma LocalNames(c: Context, x: string)
    requires c.Context? && AddLocal(c, x).Ok?
    ensures var d := AddLocal(c, x).value;
      && |d.variables| == |c.variables| + 1 && d.enclosing == c.enclosing && d.constants == c.constants
      && Names(d) == Names(c) + {x}
  {
    var d := AddLocal(c, x).value;
    assert d.variables == c.variables + [Variable(x, true, c.nextIndex % 256)];
  }

  /** A `let` takes an entry before its value is compiled. */
  lemma LocalMeasured(c: Context, x: string, r: Result<Emitted>, u: Uses)
    requires c.Context? && Wf(c)
    requires AddLocal(c, x).Ok? ==> Measured(r, AddLocal(c, x).value, u)
    requires AddLocal(c, x).Err? ==> r == Err(AddLocal(c, x).error)
    ensures Measured(r, c, Both(NOTHING.(lets := 1, bound := {x}), u))
  {
    hide AddLocal, Wf, Names, RoomFor, LookedUp;
    var v := Both(NOTHING.(lets := 1, bound := {x}), u);
    assert v == u.(lets := 1 + u.lets, bound := {x} + u.bound);
    if AddLocal(c, x).Ok? {
      LocalNames(c, x);
      assert Names(c) + {x} + u.bound + u.captured == Names(c) + v.bound + v.captured;
    } else {
      AddLocalError(c, x);
    }
  }

  lemma {:induction false} LetMeasured(m: Mode, t: Term, c: Context, base: nat)
    requires t.Let? && Ready(c)
    ensures Measured(CompileLet(m, t, c, base), c, UsesOf(m, t, Names(c), base))
    decreases t, 1
  {
    hide Compile, Wf, Names, Measured, AddLocal, UsesOf, Both, Reserves.Then;
    var x, v, n, k := t.bound.text, t.definition, t.next, Names(c) + {t.bound.text};
    if AddLocal(c, x).Ok? {
      AddLocalWf(c, x);
      LocalNames(c, x);
      TwoMeasured(m, t, v, n, true, AddLocal(c, x).value, base);
    }
    LetIsThen(m, t, c, base);
    LocalMeasured(c, x, CompileLet(m, t, c, base),
                  Both(UsesOf(m, v, k, base), UsesOf(m, n, Known(v, k), base + CodeSize(v))));
    LetUses(m, t, Names(c), base);
  }

  lemma LetIsThen(m: Mode, t: Term, c: Context, base: nat)
    requires t.Let? && c.Context?
    ensures AddLocal(c, t.bound.text).Err? ==> CompileLet(m, t, c, base) == Err(AddLocal(c, t.bound.text).error)
    ensures AddLocal(c, t.bound.text).Ok? ==>
      var r1 := Compile(m, t.definition, false, AddLocal(c, t.bound.text).value, base);
      var r2 := if r1.Ok? then Compile(m, t.next, true, r1.value.context, base + |r1.value.bytes|) else r1;
      CompileLet(m, t, c, base) == Reserves.Then(r1, r2)
  {
    hide Compile, AddLocal;
  }

  lemma LetUses(m: Mode, t: Term, k: set<string>, base: nat)
    requires t.Let?
    ensures var k1 := k + {t.bound.text};
      var u := Both(UsesOf(m, t.definition, k1, base),
                    UsesOf(m, t.next, Known(t.definition, k1), base + CodeSize(t.definition)));
      UsesOf(m, t, k, base) == Both(NOTHING.(lets := 1, bound := {t.bound.text}), u)
  {
  }

  // ----- conditionals -----

  /** Where the parts of a conditional stand. */
  function ThenAt(m: Mode, t: Term, base: nat): nat
    requires t.If?
  {
    if m.emit then base + CodeSize(t.cond) + 3 else base
  }

  function ElseAt(m: Mode, t: Term, base: nat): nat
    requires t.If?
  {
    if m.emit then base + CodeSize(t.cond) + CodeSize(t.thn) + 6 else base
  }

  lemma {:induction false} IfMeasured(m: Mode, t: Term, c: Context, base: nat)
    requires t.If? && Ready(c)
    ensures Measured(CompileIf(m, t, c, base), c, UsesOf(m, t, Names(c), base))
    decreases t, 1
  {
    hide Compile, Wf, Names, Measured, TablesFit, LetCount, LetNames, Captured, JumpsFit, WordsFit, CodeSize, Constants,
      ConstantsFit, IntegersFit;
    var x, y, z, k := t.cond, t.thn, t.els, Names(c);
    var r0, u0 := Compile(m, x, false, c, base), UsesOf(m, x, k, base);
    TermMeasured(m, x, false, c, base);
    NothingTwice(x, y, k);
    var r1, u1 := r0, UsesOf(m, y, Known(x, k), ThenAt(m, t, base));
    if r0.Ok? {
      MeasuredContext(r0, c, u0);
      r1 := Compile(m, y, true, r0.value.context, ThenAt(m, t, base));
      TermMeasured(m, y, true, r0.value.context, ThenAt(m, t, base));
    }
    ThenMeasured(c, r0, u0, r1, u1);
    var r, u := Reserves.Then(r0, r1), Both(u0, u1);
    var k1 := Known(y, Known(x, k));
    CapturedFree(z, k1);
    var r2, u2 := r, UsesOf(m, z, k1, ElseAt(m, t, base));
    if r.Ok? {
      MeasuredContext(r, c, u);
      assert Names(r.value.context) == k1;
      r2 := Compile(m, z, true, r.value.context, ElseAt(m, t, base));
      TermMeasured(m, z, true, r.value.context, ElseAt(m, t, base));
    }
    ThenMeasured(c, r, u, r2, u2);
    IfUses(m, t, k, base);
    IfFinished(m, t, c, base, r0, r1, r2, Both(u, u2));
  }

  lemma IfUses(m: Mode, t: Term, k: set<string>, base: nat)
    requires t.If?
    ensures var u := Both(Both(UsesOf(m, t.cond, k, base), UsesOf(m, t.thn, Known(t.cond, k), ThenAt(m, t, base))),
                          UsesOf(m, t.els, Known(t.thn, Known(t.cond, k)), ElseAt(m, t, base)));
      UsesOf(m, t, k, base) == WithJumps(m, t, u, base)
  {
  }

  /** The two jumps of a conditional. */
  function WithJumps(m: Mode, t: Term, u: Uses, base: nat): Uses
    requires t.If?
  {
    Longer(m, u, 6).(
      jumps := u.jumps && (m.emit ==> base + u.size + 6 <= 65535),
      words := u.words && (m.emit && !m.reserveTwo ==>
        !IsCapacity(base + CodeSize(t.cond) + 2) && !IsCapacity(base + CodeSize(t.cond) + CodeSize(t.thn) + 5)))
  }

  lemma IfFinished(m: Mode, t: Term, c: Context, base: nat, r0: Result<Emitted>, r1: Result<Emitted>,
                   r2: Result<Emitted>, u: Uses)
    requires t.If? && Ready(c) && r0 == Compile(m, t.cond, false, c, base)
    requires r0.Ok? ==> r0.value.context.Context? && (m.emit ==> |r0.value.bytes| == CodeSize(t.cond))
    requires r0.Ok? ==> r1 == Compile(m, t.thn, true, r0.value.context, ThenAt(m, t, base))
    requires r0.Ok? && r1.Ok? ==> r1.value.context.Context? && (m.emit ==> |r1.value.bytes| == CodeSize(t.thn))
    requires r0.Ok? && r1.Ok? ==> r2 == Compile(m, t.els, true, r1.value.context, ElseAt(m, t, base))
    requires m.emit ==> u.size == CodeSize(t.cond) + CodeSize(t.thn) + CodeSize(t.els)
    requires Measured(Reserves.Then(Reserves.Then(r0, r1), r2), c, u)
    ensures Measured(CompileIf(m, t, c, base), c, WithJumps(m, t, u, base))
  {
    hide Compile, CodeSize, Wf, Names, RoomFor, LookedUp, IsCapacity;
  }

  // ----- functions -----

  lemma {:induction false} ParamsMeasured(c: Context, ps: seq<Parameter>)
    requires c.Context? && |c.variables| <= MAX_VARIABLES
    ensures AddParams(c, ps).Ok? <==> |c.variables| + |ps| <= MAX_VARIABLES
    ensures AddParams(c, ps).Err? ==> AddParams(c, ps).error == VariableTableOverrun
    ensures AddParams(c, ps).Ok? ==>
      var d := AddParams(c, ps).value;
      && |d.variables| == |c.variables| + |ps| && d.constants == c.constants
      && Names(d) == Names(c) + ParamNames(ps)
    decreases ps
  {
    if ps == [] {
      assert ParamNames(ps) == {};
    } else if AddLocal(c, ps[0].text).Ok? {
      LocalNames(c, ps[0].text);
      ParamsMeasured(AddLocal(c, ps[0].text).value, ps[1..]);
      assert ps == [ps[0]] + ps[1..];
      assert ParamNames(ps) == {ps[0].text} + ParamNames(ps[1..]);
    }
  }

  lemma {:induction false} ClosureMeasured(m: Mode, t: Term, c: Context, base: nat)
    requires t.Function? && Ready(c)
    ensures Measured(CompileClosure(m, t, c), c, UsesOf(m, t, Names(c), base))
    decreases t, 1
  {
    hide Compile, Wf, Names, RoomFor, LookedUp, Captured, UsesOf;
    var ps, b, n := t.params, t.body, Captured(t.body, ParamNames(t.params));
    FunctionUses(m, t, Names(c), base);
    NewNames(c);
    ParamsMeasured(NewContext(c), ps);
    ChainRoom(c, n);
    if BodyContext(ps, c).Ok? {
      var inner := BodyContext(ps, c).value;
      BodyContextWf(ps, c);
      assert Names(inner) == ParamNames(ps);
      TermMeasured(m, b, true, inner, 0);
      var r := Compile(m, b, true, inner, 0);
      if r.Ok? {
        WfRoom(r.value.context);
        var fn := Finish(r.value.context, |ps|, Append(m, r.value, IReturn).bytes);
        ChildAdded(m, c, r.value.context.enclosing, n, fn);
      }
    }
  }

  lemma ChildAdded(m: Mode, c: Context, outer: Context, names: set<string>, fn: CompiledFunction)
    requires c.Context? && LookedUp(c, outer, names) && Wf(outer)
    ensures outer.Context?
    ensures var d := if m.emit then outer.(functions := outer.functions + [fn]) else outer;
      forall bytes :: |bytes| == (if m.emit then 2 else 0) ==>
        Reached(c, Emitted(d, bytes), Longer(m, NOTHING.(captured := names - Names(c)), 2))
  {
    ChainLookedUp(c, outer, names);
    ListsGrow(outer, outer.(functions := outer.functions + [fn]));
    hide Wf, LookedUp;
  }

  lemma FunctionUses(m: Mode, t: Term, k: set<string>, base: nat)
    requires t.Function?
    ensures var u, b := UsesOf(m, t, k, base), UsesOf(m, t.body, ParamNames(t.params), 0);
      && (u.fits <==> |t.params| + b.lets + |b.captured| <= 255 && b.fits) && u.lets == 0 && u.bound == {}
      && b.captured == Captured(t.body, ParamNames(t.params))
      && u.captured == b.captured - k && u.constants == [] && u.size == (if m.emit then 2 else 0)
      && u.integers == b.integers && u.jumps == b.jumps && u.words == b.words
      && (u.inner <==> |b.constants| <= 256 && b.inner)
  {
  }

  lemma NewNames(c: Context)
    ensures NewContext(c).variables == [] && NewContext(c).constants == [] && Names(NewContext(c)) == {}
  {
  }

  // ----- programs -----

  /** No limit is exceeded: every function and the program itself have at most 255 parameters, `let`s and
      captured variables together and, with emission, at most 256 constants; no integer is above
      2147483647, no `if` ends behind byte 65535 and, if one byte is reserved for a word, no word starts
      in the last place of a full buffer. */
  predicate WithinLimits(m: Mode, program: Term) {
    && ProgramTablesFit(program)
    && (m.emit ==> IntegersFit(program) && ProgramConstantsFit(program) && JumpsFit(program, 0))
    && (m.emit && !m.reserveTwo ==> WordsFit(program, 0))
  }

  /** A program is accepted exactly when it captures nothing at the top and no limit is exceeded. The
      function of the program then has exactly the program's constants and its number of bytes. */
  lemma AcceptedExactly(m: Mode, program: Term)
    ensures CompileProgram(m, program).Ok? <==> Captured(program, {}) == {} && WithinLimits(m, program)
    ensures m.emit && CompileProgram(m, program).Ok? ==>
      var main := CompileProgram(m, program).value;
      main.constants == Constants(program) && |main.code| == CodeSize(program) + 1
    ensures FreeVars(program) == {} ==> Captured(program, {}) == {}
  {
    ProgramMeasured(m, program);
    hide Compile, Wf, Names, LookedUp, Captured, FreeVars, LetCount, LetNames, TablesFit, Constants, ConstantsFit,
      IntegersFit, JumpsFit, WordsFit, CodeSize;
    CapturedFree(program, {});
  }

  lemma ProgramMeasured(m: Mode, program: Term)
    ensures var c := NewContext(NoContext);
      && Measured(Compile(m, program, false, c, 0), c, UsesOf(m, program, {}, 0))
      && c.variables == [] && c.constants == [] && ParamNames([]) == {}
  {
    hide Compile, Wf, Measured, UsesOf;
    NewContextWf(NoContext);
    NewNames(NoContext);
    TermMeasured(m, program, false, NewContext(NoContext), 0);
    assert ParamNames([]) == {};
  }

  /** A program in spine form is accepted exactly when it is closed in the sense of lexical scoping and no
      limit is exceeded. */
  lemma SpineAccepted(m: Mode, program: Term)
    requires Spine(program)
    ensures CompileProgram(m, program).Ok? <==> FreeVars(program) == {} && WithinLimits(m, program)
  {
    hide CompileProgram, WithinLimits, FreeVars, Captured, Spine;
    AcceptedExactly(m, program);
    SpineCaptures(program, {});
  }

  /** Each error means that its limit is exceeded. */
  lemma RejectedFor(m: Mode, program: Term)
    requires CompileProgram(m, program).Err?
    ensures match CompileProgram(m, program).error
      case UndefinedVariable(_) => FreeVars(program) != {}
      case VariableTableOverrun => Captured(program, {}) != {} || !ProgramTablesFit(program)
      case IntegerOverflow => m.emit && !IntegersFit(program)
      case TooManyConstants => m.emit && !ProgramConstantsFit(program)
      case TooMuchCode => m.emit && !JumpsFit(program, 0)
      case CodeBufferOverrun => m.emit && !m.reserveTwo && !WordsFit(program, 0)
      case _ => false
  {
    ProgramMeasured(m, program);
    hide Compile, Wf, Names, LookedUp, Captured, FreeVars, LetCount, LetNames, TablesFit, Constants, ConstantsFit,
      IntegersFit, JumpsFit, WordsFit, CodeSize;
    if FreeVars(program) == {} {
      ClosedProgramError(m, program);
    }
  }

  /** For `check` the condition is that all tables have room; a closed program that it rejects writes past
      the end of one. */
  lemma TablesExactly(m: Mode, program: Term)
    requires !m.emit
    ensures CompileProgram(m, program).Ok? <==> Captured(program, {}) == {} && ProgramTablesFit(program)
    ensures FreeVars(program) == {} ==>
      CompileProgram(m, program).Ok? || CompileProgram(m, program) == Err(VariableTableOverrun)
  {
    hide CompileProgram, ProgramTablesFit, FreeVars, Captured;
    AcceptedExactly(m, program);
    if CompileProgram(m, program).Err? {
      RejectedFor(m, program);
    }
  }

  /** A program that is one integer compiles exactly up to 2147483647; up to 65535 the integer is in the
      code, and above it is the only constant. */
  lemma IntegerCompiles(m: Mode, n: nat, l: Location)
    requires m.emit
    ensures match CompileProgram(m, Int(n, l))
      case Err(e) => n > 2147483647 && e == IntegerOverflow
      case Ok(main) =>
        && n <= 2147483647 && main.constants == (if n <= 65535 then [] else [IntValue(n)])
        && Decode(main.code, 0) == Some(if n <= 65535 then IInt(n) else IConstant(0))
  {
    assert !WordOverruns(1);
    var i := if n <= 65535 then IInt(n) else IConstant(0);
    if n <= 2147483647 {
      var main := CompileProgram(m, Int(n, l)).value;
      assert main.code == Encode(i) + Encode(IReturn);
      hide Compile, Encode, Decode;
      DecodeEncoded(main.code, 0, i);
    }
  }
}
