/** The Compiler structs of src/compiler.c in place: one object per function being compiled, linked to
    that of the enclosing function, with the tables of the function. Resolving a name writes to every
    table between the use of the name and its definition. */
module Scopes {
  import opened Values
  import opened Bytecode
  import opened Codegen

  class Scope {
    const enclosing: Scope?
    const variables: array<Variable>      // Variable variables[UINT8_MAX]
    var numVariables: nat
    var nextIndex: byte                   // uint8_t
    var constants: seq<Value>             // fn->constants
    var nonlocals: seq<Nonlocal>          // fn->nonlocals
    var functions: seq<CompiledFunction>  // fn->functions
    ghost var slots: nat                  // nextIndex without wrapping
    ghost const Scopes: set<Scope>
    ghost const Arrays: set<array<Variable>>

    ghost predicate Valid()
      reads this, Scopes, Arrays
      decreases Scopes
    {
      && this in Scopes && variables in Arrays && variables.Length == MAX_VARIABLES
      && numVariables <= variables.Length && nextIndex == slots % 256
      && (enclosing != null ==>
            && enclosing in Scopes && enclosing.Scopes < Scopes && this !in enclosing.Scopes
            && enclosing.Arrays <= Arrays && variables !in enclosing.Arrays
            && enclosing.Valid())
    }

    /** The chain of tables, as the pure compiler sees it. */
    ghost function Abs(): (c: Context)
      requires Valid()
      reads this, Scopes, Arrays
      ensures c.Context?
      decreases Scopes
    {
      Context(variables[..numVariables], slots, constants, nonlocals, functions,
              if enclosing == null then NoContext else enclosing.Abs())
    }

    /** compiler_init */
    constructor (enclosing: Scope?, none: Variable)
      requires enclosing != null ==> enclosing.Valid()
      ensures Valid() && this.enclosing == enclosing
      ensures Abs() == NewContext(if enclosing == null then NoContext else enclosing.Abs())
      ensures Scopes == {this} + if enclosing == null then {} else enclosing.Scopes
      ensures Arrays == {variables} + if enclosing == null then {} else enclosing.Arrays
      ensures fresh(variables)
    {
      this.enclosing := enclosing;
      var table := new Variable[MAX_VARIABLES](_ => none);
      variables := table;
      numVariables, nextIndex, slots := 0, 1, 1;
      constants, nonlocals, functions := [], [], [];
      Scopes := {this} + if enclosing == null then {} else enclosing.Scopes;
      Arrays := {table} + if enclosing == null then {} else enclosing.Arrays;
    }

    /** add_variable. The entry past the end of the table, which its test lets through, is an error
        here. */
    method AddVariable(name: string, isLocal: bool, index: byte) returns (r: Result<Variable>)
      requires Valid()
      modifies this`numVariables, variables
      ensures Valid()
      ensures match Codegen.AddVariable(old(Abs()), Variable(name, isLocal, index))
        case Err(e) => r == Err(e) && Abs() == old(Abs())
        case Ok(c) => r == Ok(Variable(name, isLocal, index)) && Abs() == c
    {
      if numVariables > MAX_BYTE {
        return Err(TooManyVariables);
      }
      if numVariables == variables.Length {
        return Err(VariableTableOverrun);
      }
      var v := Variable(name, isLocal, index);
      ghost var was := variables[..numVariables];
      variables[numVariables] := v;
      numVariables := numVariables + 1;
      assert variables[..numVariables] == was + [v];
      return Ok(v);
    }

    /** add_local */
    method AddLocal(name: string) returns (r: Result<Variable>)
      requires Valid()
      modifies this`numVariables, this`nextIndex, this`slots, variables
      ensures Valid()
      ensures match Codegen.AddLocal(old(Abs()), name)
        case Err(e) => r == Err(e) && Abs() == old(Abs())
        case Ok(c) => r.Ok? && Abs() == c
    {
      r := AddVariable(name, true, nextIndex);
      if r.Ok? {
        nextIndex, slots := (nextIndex + 1) % 256, slots + 1;
      }
    }

    /** lookup_variable: from the last entry to the first. */
    method LookupVariable(name: string) returns (found: Option<Variable>)
      requires Valid()
      ensures found == Lookup(Abs().variables, name)
    {
      var i := numVariables;
      while i > 0
        invariant 0 <= i <= numVariables && Lookup(variables[..numVariables], name) == Lookup(variables[..i], name)
      {
        i := i - 1;
        assert variables[..i + 1][..i] == variables[..i];
        if variables[i].name == name {
          return Some(variables[i]);
        }
      }
      return None;
    }

    /** The end of resolve_variable: a descriptor for v and an entry for the captured variable. */
    method Capture(v: Variable, name: string) returns (r: Result<Variable>)
      requires Valid()
      modifies this`nonlocals, this`numVariables, variables
      ensures Valid()
      ensures var c := old(Abs());
        match AddNonlocal(c, Nonlocal(v.isLocal, v.index, name))
        case Err(e) => r == Err(e)
        case Ok(c1) =>
          var captured := Variable(name, false, |c.nonlocals|);
          match Codegen.AddVariable(c1, captured)
          case Err(e) => r == Err(e)
          case Ok(c2) => r == Ok(captured) && Abs() == c2
    {
      if |nonlocals| > MAX_BYTE {
        return Err(TooManyNonlocals);
      }
      var index := |nonlocals|;
      nonlocals := nonlocals + [Nonlocal(v.isLocal, v.index, name)];
      r := AddVariable(name, false, index);
    }

    /** resolve_variable: every function between the use of a name and its definition captures it. */
    method Resolve(name: string) returns (r: Result<Variable>)
      requires Valid()
      modifies Scopes, Arrays
      ensures Valid()
      ensures match Codegen.Resolve(old(Abs()), name)
        case Err(e) => r == Err(e)
        case Ok(result) => r == Ok(result.1) && Abs() == result.0
      decreases Scopes
    {
      var found := LookupVariable(name);
      if found.Some? {
        return Ok(found.value);
      }
      if enclosing == null {
        return Err(UndefinedVariable(name));
      }
      var outer := enclosing.Resolve(name);
      if outer.Err? {
        return outer;
      }
      r := Capture(outer.value, name);
    }

    /** add_constant: the index of the constant, or nothing when there are 256 already. */
    method AddConstant(v: Value) returns (r: Option<byte>)
      requires Valid()
      modifies this`constants
      ensures Valid()
      ensures r == if old(|constants|) > MAX_BYTE then None else Some(old(|constants|))
      ensures var c := old(Abs()); Abs() == if r.Some? then c.(constants := c.constants + [v]) else c
    {
      var index := |constants|;
      if index > MAX_BYTE {
        return None;
      }
      constants := constants + [v];
      return Some(index);
    }

    /** function_add_child: the index is one byte, and there is no limit. */
    method AddChild(fn: CompiledFunction) returns (index: byte)
      requires Valid()
      modifies this`functions
      ensures Valid() && index == |old(Abs()).functions| % 256
      ensures Abs() == old(Abs()).(functions := old(Abs()).functions + [fn])
    {
      index := |functions| % 256;
      functions := functions + [fn];
    }

    /** The function whose code has been emitted. */
    method Finished(arity: nat, code: seq<byte>) returns (fn: CompiledFunction)
      requires Valid()
      ensures fn == Finish(Abs(), arity, code)
    {
      fn := CompiledFunction(arity % 256, code, constants, nonlocals, functions);
    }
  }
}
