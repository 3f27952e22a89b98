/** The code buffer of src/chunk.c: an array that doubles, with a count of the bytes in use. */
module Chunks {
  import opened Bytecode
  import opened Codegen

  /** No capacity lies strictly between a capacity and its double. */
  lemma {:induction false} CapacityGap(k: nat, n: nat)
    requires IsCapacity(k) && IsCapacity(n) && k < n
    ensures 2 * k <= n
    decreases n
  {
    if k > 8 {
      CapacityGap(k / 2, n / 2);
    }
  }

  class Chunk {
    var count: nat
    var code: array<byte>

    /** The capacity is the smallest one that holds the bytes. */
    predicate Valid()
      reads this
    {
      count <= code.Length && IsCapacity(code.Length) && (code.Length == 8 || code.Length < 2 * count)
    }

    function Bytes(): seq<byte>
      requires Valid()
      reads this, code
    {
      code[..count]
    }

    constructor ()
      ensures Valid() && Bytes() == [] && fresh(code)
    {
      code := new byte[8](_ => 0);
      count := 0;
    }

    /** ensure_capacity: the least doubling of the capacity that is large enough. */
    method EnsureCapacity(minCapacity: nat)
      requires Valid()
      modifies this`code
      ensures count <= code.Length && minCapacity <= code.Length && IsCapacity(code.Length)
      ensures code == old(code) || (fresh(code) && old(code).Length < minCapacity && code.Length < 2 * minCapacity)
      ensures code[..count] == old(Bytes())
    {
      if minCapacity <= code.Length {
        return;
      }
      var capacity := code.Length * 2;
      while capacity < minCapacity
        invariant IsCapacity(capacity) && code.Length < capacity < 2 * minCapacity
      {
        capacity := capacity * 2;
      }
      var was := code;
      var grown := new byte[capacity](i reads was => if 0 <= i < was.Length then was[i] else 0);
      assert grown[..count] == was[..count];
      code := grown;
    }

    /** chunk_emit_byte */
    method EmitByte(b: byte)
      requires Valid()
      modifies this, code
      ensures Valid() && (code == old(code) || fresh(code))
      ensures Bytes() == old(Bytes()) + [b]
    {
      EnsureCapacity(count + 1);
      code[count] := b;
      count := count + 1;
    }

    /** chunk_emit_word reserves one byte and writes two. `ok` is false when the second byte falls
        outside the buffer, which happens exactly when WordOverruns says; the model stops there. With
        two bytes reserved it never happens. */
    method EmitWord(w: word, reserve: nat) returns (ok: bool)
      requires Valid() && 1 <= reserve <= 2
      modifies this, code
      ensures Valid() && (code == old(code) || fresh(code))
      ensures ok <==> reserve == 2 || !WordOverruns(old(count))
      ensures Bytes() == if ok then old(Bytes()) + WordBytes(w) else old(Bytes())
    {
      ghost var before := code.Length;
      EnsureCapacity(count + reserve);
      if count + 1 == code.Length {
        return false;
      }
      if reserve == 1 && WordOverruns(count) {
        if count + 1 < code.Length {
          CapacityGap(count + 1, code.Length);
        }
      }
      code[count] := w % 256;
      code[count + 1] := w / 256;
      count := count + 2;
      return true;
    }

    /** The assignment of patch_jump: two bytes in place, and nothing else. */
    method Patch(offset: nat, w: word)
      requires Valid() && offset + 2 <= count
      modifies code
      ensures Valid()
      ensures Bytes() == old(Bytes())[..offset] + WordBytes(w) + old(Bytes())[offset + 2..]
    {
      code[offset] := w % 256;
      code[offset + 1] := w / 256;
    }
  }
}
