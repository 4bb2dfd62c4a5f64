/** The vectors of lib/vector.c: objects by index, with the free slots linked through the array itself. */
module Vector {
  import opened Utils
  import opened VectorSlots

  const VECTOR_MAX_SIZE: nat := 0xFFFE
  const VECTOR_MIN_SIZE: nat := 8

  /** What an expansion comes to. A copy of the slots into a smaller array overruns it; the model ends there. */
  datatype Expansion = Grown | Refused | Overrun

  /** The size that VectorExpand allocates, or None if it refuses. */
  function NewSize(size: nat, request: nat): Option<nat> {
    if size == VECTOR_MAX_SIZE then None else
      var n := if size < request then request + 1 else size + VECTOR_MIN_SIZE;
      Some(if n > VECTOR_MAX_SIZE then VECTOR_MAX_SIZE else n)
  }

  /** Only below the maximal size does a vector grow. One slot above it, which is what VectorInit makes of every
      size from the maximum on, the expansion is not refused but gives a smaller array. */
  lemma Expands(size: nat, request: nat)
    requires size <= VECTOR_MAX_SIZE + 1
    ensures NewSize(size, request).None? <==> size == VECTOR_MAX_SIZE
    ensures NewSize(size, request).Some? && NewSize(size, request).value > size <==> size < VECTOR_MAX_SIZE
    ensures NewSize(size, request).Some? && NewSize(size, request).value < size <==> size == VECTOR_MAX_SIZE + 1
  {
  }

  class Vector {
    var size: nat
    var nfree: nat
    /** The address of the first free slot, or null. */
    var free: nat
    /** The slots, and the address at which they are. */
    var data: array<nat>
    var addr: nat
    ghost var chain: seq<nat>

    ghost predicate Valid()
      reads this, data
    {
      size == data.Length <= VECTOR_MAX_SIZE + 1 && nfree == |chain| && Threaded(data[..], addr, free, chain)
    }

    /** The vector as a partial map. */
    ghost function Objects(): map<nat, nat>
      reads this, data
    {
      Stored(data[..])
    }

    /** VectorInit; mem is what kmalloc gives. */
    constructor (size: nat, mem: nat)
      requires mem > 0 && mem % 4 == 0
      ensures Valid() && Objects() == map[] && fresh(data)
      ensures size >= VECTOR_MAX_SIZE ==> this.size == VECTOR_MAX_SIZE + 1
      ensures size < VECTOR_MAX_SIZE ==> this.size == (if size < VECTOR_MIN_SIZE then VECTOR_MIN_SIZE else size) + 1
      ensures nfree == this.size
    {
      var n := if size > VECTOR_MAX_SIZE then VECTOR_MAX_SIZE else size;
      n := if n < VECTOR_MIN_SIZE then VECTOR_MIN_SIZE else n;
      var slots := new nat[n + 1];
      var i := 0;
      while i < n
        invariant i <= n
        invariant forall j :: 0 <= j < i ==> slots[j] == SlotAddr(mem, j + 1) + 1
      {
        slots[i] := SlotAddr(mem, i + 1) + 1;
        i := i + 1;
      }
      slots[n] := NULL + 1;
      this.size, nfree, free, data, addr := n + 1, n + 1, mem, slots, mem;
      chain := Range(0, n + 1);
      new;
      RangeThreaded(data[..], addr, 0);
      RangeIn(0, n + 1);
    }

    /** A vector without free slots grows below the maximal size, is refused at it, and overruns its new array
        above it; mem is what kmalloc gives. */
    method VectorExpand(request: nat, mem: nat) returns (ret: Expansion)
      requires Valid() && free == NULL && mem > 0 && mem % 4 == 0
      modifies this
      ensures Valid() && Objects() == old(Objects())
      ensures ret == Grown <==> old(size) < VECTOR_MAX_SIZE
      ensures ret == Refused <==> old(size) == VECTOR_MAX_SIZE
      ensures ret == Grown ==>
                && fresh(data) && free != NULL && Some(size) == NewSize(old(size), request)
                && size > old(size) && chain == Range(old(size), size)
      ensures ret != Grown ==> data == old(data) && chain == old(chain) && size == old(size)
    {
      Expands(size, request);
      if size == VECTOR_MAX_SIZE { return Refused; }
      var newSize := if size < request then request + 1 else size + VECTOR_MIN_SIZE;
      newSize := if newSize > VECTOR_MAX_SIZE then VECTOR_MAX_SIZE else newSize;
      if newSize < size { return Overrun; }
      FreeNull(data[..], addr, free, chain);
      ghost var words: seq<nat> := data[..];
      var slots := CopyAndLink(mem, newSize);
      ExpandStored(words, slots[..], mem);
      RangeThreaded(slots[..], mem, size);
      hide Threaded, Tagged, Stored;
      free := SlotAddr(mem, size);
      data, addr := slots, mem;
      nfree := nfree + (newSize - size);
      chain := Range(size, newSize);
      size := newSize;
      return Grown;
    }

    /** The old slots copied to a larger array, and the new ones linked. */
    method CopyAndLink(mem: nat, newSize: nat) returns (slots: array<nat>)
      requires size == data.Length < newSize
      ensures fresh(slots) && slots.Length == newSize
      ensures forall i :: 0 <= i < size ==> slots[i] == data[i]
      ensures forall i :: size <= i < newSize ==>
                slots[i] == (if i + 1 < newSize then SlotAddr(mem, i + 1) else NULL) + 1
    {
      slots := new nat[newSize];
      var i := 0;
      while i < size
        invariant i <= size
        invariant forall j :: 0 <= j < i ==> slots[j] == data[j]
      {
        slots[i] := data[i];
        i := i + 1;
      }
      var prev, entry := size, size + 1;
      i := 0;
      while i < newSize - size - 1
        invariant i <= newSize - size - 1 && prev == size + i && entry == prev + 1
        invariant forall j :: 0 <= j < size ==> slots[j] == data[j]
        invariant forall j :: size <= j < prev ==> slots[j] == SlotAddr(mem, j + 1) + 1
      {
        slots[prev] := SlotAddr(mem, entry) + 1;
        prev := entry;
        entry := entry + 1;
        i := i + 1;
      }
      slots[prev] := NULL + 1;
    }

    /** The k-th free slot, at cur, takes an object; prev is the free slot before it, or null. */
    method Fill(cur: nat, prev: nat, obj: nat, ghost k: nat) returns (at: nat)
      requires Valid() && k < |chain| && obj % 4 == 0
      requires cur == AddrOf(addr, chain, k) && prev == if k == 0 then NULL else AddrOf(addr, chain, k - 1)
      modifies this`free, this`nfree, this`chain, data
      ensures Valid() && at == old(chain)[k] < size && chain == Cut(old(chain), k)
      ensures at !in old(Objects()) && Objects() == old(Objects())[at := obj]
    {
      hide Threaded, Tagged, AddrOf, Stored;
      ghost var words: seq<nat> := data[..];
      Links(words, addr, free, chain);
      LinkOf(words, addr, free, chain, k);
      IndexOf(addr, chain[k]);
      TakeStored(words, addr, free, chain, k, obj);
      TakeSlot(words, addr, free, chain, k, obj);
      at := (cur - addr) / 4;
      if prev == NULL {
        if k > 0 { LinkOf(words, addr, free, chain, k - 1); }
        free := data[at] - 1;
      } else {
        LinkOf(words, addr, free, chain, k - 1);
        IndexOf(addr, chain[k - 1]);
        data[(prev - addr) / 4] := data[at];
      }
      data[at] := obj;
      nfree := nfree - 1;
      chain := Cut(chain, k);
    }

    /** The index that obj gets, or -1; overrun if the vector is full and too large to expand. */
    method VectorInsert(obj: nat, mem: nat) returns (index: int, overrun: bool)
      requires Valid() && mem > 0 && mem % 4 == 0
      modifies this, data
      ensures Valid()
      ensures overrun <==> obj % 4 == 0 && old(free) == NULL && old(size) == VECTOR_MAX_SIZE + 1
      ensures index == -1 <==> overrun || obj % 4 != 0 || (old(free) == NULL && old(size) == VECTOR_MAX_SIZE)
      ensures index == -1 ==> Objects() == old(Objects())
      ensures index != -1 ==> 0 <= index < size && index !in old(Objects()) && Objects() == old(Objects())[index := obj]
      decreases free == NULL
    {
      hide Threaded, Stored;
      if obj % 4 != 0 { return -1, false; }
      if free != NULL {
        FreeFirst(data[..], addr, free, chain);
        index := Fill(free, NULL, obj, 0);
        return index, false;
      }
      var ret := VectorExpand(0, mem);
      if ret == Grown {
        index, overrun := VectorInsert(obj, mem);
      } else {
        return -1, ret == Overrun;
      }
    }

    /** Some slot from index on is free, or the vector is full and the next expansion makes one. */
    ghost predicate Reaches(index: nat)
      reads this
    {
      || (exists k :: 0 <= k < |chain| && chain[k] >= index)
      || (free == NULL && (size >= VECTOR_MAX_SIZE || index < NewSize(size, 0).value))
    }

    /** The first free slot in the list that is not below index takes obj; -1 or overrun as for VectorInsert. */
    method VectorInsertAt(obj: nat, index: nat, mem: nat) returns (at: int, overrun: bool)
      requires Valid() && mem > 0 && mem % 4 == 0 && Reaches(index)
      modifies this, data
      ensures Valid()
      ensures overrun <==> obj % 4 == 0 && old(free) == NULL && old(size) == VECTOR_MAX_SIZE + 1
      ensures at == -1 <==> overrun || obj % 4 != 0 || (old(free) == NULL && old(size) == VECTOR_MAX_SIZE)
      ensures at == -1 ==> Objects() == old(Objects())
      ensures at != -1 ==> index <= at < size && at !in old(Objects()) && Objects() == old(Objects())[at := obj]
      decreases free == NULL
    {
      hide Threaded, Tagged, AddrOf, Stored;
      if obj % 4 != 0 { return -1, false; }
      FreeFirst(data[..], addr, free, chain);
      var cur := free;
      var prev: nat := NULL;
      ghost var k := 0;
      while cur != NULL
        invariant unchanged(this) && unchanged(data) && Threaded(data[..], addr, free, chain)
        invariant k <= |chain| && cur == AddrOf(addr, chain, k)
        invariant (cur == NULL <==> k == |chain|) && prev == if k == 0 then NULL else AddrOf(addr, chain, k - 1)
        invariant forall j :: 0 <= j < k ==> chain[j] < index
        decreases |chain| - k
      {
        LinkOf(data[..], addr, free, chain, k);
        IndexOf(addr, chain[k]);
        var i := (cur - addr) / 4;
        if index <= i {
          at := Fill(cur, prev, obj, k);
          return at, false;
        }
        prev := cur;
        cur := data[i] - 1;
        k := k + 1;
        AddrNull(addr, chain, k);
      }
      var ret := VectorExpand(0, mem);
      if ret == Grown {
        RangeHas(old(size), size, index);
        at, overrun := VectorInsertAt(obj, index, mem);
      } else {
        return -1, ret == Overrun;
      }
    }

    /** The object that was at index; null if there was none. */
    method VectorRemove(index: nat) returns (obj: nat)
      requires Valid() && index != size
      modifies this`free, this`nfree, this`chain, data
      ensures Valid() && obj == (if index in old(Objects()) then old(Objects())[index] else NULL)
      ensures Objects() == old(Objects()) - {index}
    {
      hide Threaded;
      if size < index { return NULL; }
      obj := data[index];
      // Check if index is already free
      if obj % 2 == 1 { return NULL; }
      ghost var words: seq<nat> := data[..];
      GiveStored(words, addr, free, chain, index);
      GiveSlot(words, addr, free, chain, index);
      data[index] := free + 1;
      free := SlotAddr(addr, index);
      nfree := nfree + 1;
      chain := [index] + chain;
    }

    method VectorPeek(index: nat) returns (obj: nat)
      requires Valid() && index != size
      ensures obj == if index in Objects() then Objects()[index] else NULL
    {
      if size < index { return NULL; }
      return if data[index] % 2 == 1 then NULL else data[index];
    }
  }

  lemma RangeHas(a: nat, b: nat, index: nat)
    requires a < b && index < b
    ensures exists k :: 0 <= k < |Range(a, b)| && Range(a, b)[k] >= index
  {
    assert Range(a, b)[b - a - 1] == b - 1;
  }
}
