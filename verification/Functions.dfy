/** The tables of a Function (src/function.c): arrays that double when they are full. */
module Functions {
  import opened Bytecode
  import opened Codegen

  class Table<T(0)> {
    var count: nat
    var elements: array<T>

    predicate Valid()
      reads this
    {
      count <= elements.Length && IsCapacity(elements.Length)
    }

    function Items(): seq<T>
      requires Valid()
      reads this, elements
    {
      elements[..count]
    }

    constructor (init: T)
      ensures Valid() && Items() == [] && fresh(elements)
    {
      elements := new T[8](_ => init);
      count := 0;
    }

    /** nonlocal_array_grow, function_array_grow: one doubling makes room for one element. */
    method Grow(init: T)
      requires Valid()
      modifies this`elements
      ensures Valid() && count < elements.Length && Items() == old(Items())
      ensures elements == old(elements) || (fresh(elements) && elements.Length == 2 * old(elements.Length))
    {
      if count < elements.Length {
        return;
      }
      var was := elements;
      var grown := new T[was.Length * 2](i reads was => if 0 <= i < was.Length then was[i] else init);
      assert grown[..count] == was[..count];
      elements := grown;
    }

    method Put(x: T)
      requires Valid() && count < elements.Length
      modifies this`count, elements
      ensures Valid() && Items() == old(Items()) + [x]
    {
      elements[count] := x;
      count := count + 1;
    }
  }

  class Function {
    const nonlocals: Table<Nonlocal>
    const functions: Table<CompiledFunction>

    predicate Valid()
      reads this, nonlocals, functions
    {
      nonlocals.Valid() && functions.Valid()
    }

    /** function_new */
    constructor ()
      ensures Valid() && nonlocals.Items() == [] && functions.Items() == []
      ensures fresh(nonlocals) && fresh(nonlocals.elements) && fresh(functions) && fresh(functions.elements)
    {
      nonlocals := new Table<Nonlocal>(Nonlocal(false, 0, ""));
      functions := new Table<CompiledFunction>(CompiledFunction(0, [], [], [], []));
    }

    /** function_add_nonlocal grows the array first and then checks the limit: a descriptor gets the next
        index, or there are 256 already and nothing is added. */
    method AddNonlocal(isLocal: bool, index: byte, name: string) returns (r: Option<byte>)
      requires Valid()
      modifies nonlocals, nonlocals.elements
      ensures Valid() && (nonlocals.elements == old(nonlocals.elements) || fresh(nonlocals.elements))
      ensures r == if old(nonlocals.count) > MAX_BYTE then None else Some(old(nonlocals.count))
      ensures nonlocals.Items() == old(nonlocals.Items()) + if r.Some? then [Nonlocal(isLocal, index, name)] else []
    {
      nonlocals.Grow(Nonlocal(false, 0, ""));
      var nonlocalIndex := nonlocals.count;
      if nonlocalIndex > MAX_BYTE {
        return None;
      }
      nonlocals.Put(Nonlocal(isLocal, index, name));
      return Some(nonlocalIndex);
    }

    /** function_add_child has no limit; the index in an instruction is one byte. */
    method AddChild(child: CompiledFunction)
      requires Valid()
      modifies functions, functions.elements
      ensures Valid() && (functions.elements == old(functions.elements) || fresh(functions.elements))
      ensures functions.Items() == old(functions.Items()) + [child]
    {
      functions.Grow(CompiledFunction(0, [], [], [], []));
      functions.Put(child);
    }
  }
}
