/** Messages copied between address spaces (kernel/ipc_2.c): the other task's buffer is reached through its
    page tables, one physical page at a time. */
module IpcCopy {
  import opened Utils
  import opened Arith
  import opened PageLookup
  import opened PageWrites
  import opened Mmu

  newtype byte = x: int | 0 <= x < 256

  // ----- The flat copy -----

  /** The n bytes from v on are mapped, to addresses below limit. */
  ghost predicate Mapped(l1: seq<nat>, l2: map<nat, seq<nat>>, v: nat, n: nat, limit: nat) {
    forall i :: v <= i < v + n ==> Translate(l1, l2, i).Some? && Translate(l1, l2, i).value < limit
  }

  /** Physical memory after storing the bytes of src one by one at the virtual addresses from v on. */
  ghost function Store(ram: seq<byte>, l1: seq<nat>, l2: map<nat, seq<nat>>, v: nat, src: seq<byte>): (r: seq<byte>)
    requires Mapped(l1, l2, v, |src|, |ram|)
    ensures |r| == |ram|
  {
    if src == [] then ram
    else
      var n := |src| - 1;
      Store(ram, l1, l2, v, src[..n])[Translate(l1, l2, v + n).value := src[n]]
  }

  /** The bytes that a program sees at the n virtual addresses from v on. */
  ghost function View(ram: seq<byte>, l1: seq<nat>, l2: map<nat, seq<nat>>, v: nat, n: nat): (r: seq<byte>)
    requires Mapped(l1, l2, v, n, |ram|)
    ensures |r| == n
  {
    seq(n, i requires 0 <= i < n => ram[Translate(l1, l2, v + i).value])
  }

  /** Virtual addresses that share a byte of memory get the same byte of src. */
  ghost predicate Consistent(l1: seq<nat>, l2: map<nat, seq<nat>>, v: nat, src: seq<byte>) {
    forall i, j | 0 <= i < j < |src| :: Translate(l1, l2, v + i) == Translate(l1, l2, v + j) ==> src[i] == src[j]
  }

  /** Bytes that are not part of the buffer stay. */
  lemma {:induction false} StoreElsewhere(ram: seq<byte>, l1: seq<nat>, l2: map<nat, seq<nat>>, v: nat,
                                          src: seq<byte>, a: nat)
    requires Mapped(l1, l2, v, |src|, |ram|) && a < |ram|
    requires forall i :: v <= i < v + |src| ==> Translate(l1, l2, i) != Some(a)
    ensures Store(ram, l1, l2, v, src)[a] == ram[a]
  {
    if src != [] {
      StoreElsewhere(ram, l1, l2, v, src[..|src| - 1], a);
    }
  }

  /** A byte of the buffer has what was stored there last. */
  lemma {:induction false} StoreLast(ram: seq<byte>, l1: seq<nat>, l2: map<nat, seq<nat>>, v: nat, src: seq<byte>,
                                     j: nat)
    requires Mapped(l1, l2, v, |src|, |ram|) && j < |src|
    requires forall i :: v + j < i < v + |src| ==> Translate(l1, l2, i) != Translate(l1, l2, v + j)
    ensures Store(ram, l1, l2, v, src)[Translate(l1, l2, v + j).value] == src[j]
  {
    if j < |src| - 1 {
      StoreLast(ram, l1, l2, v, src[..|src| - 1], j);
    }
  }

  /** The last address of the buffer that shares the byte of address j. */
  lemma {:induction false} LastSharing(l1: seq<nat>, l2: map<nat, seq<nat>>, v: nat, n: nat, j: nat) returns (k: nat)
    requires j < n
    ensures j <= k < n && Translate(l1, l2, v + k) == Translate(l1, l2, v + j)
    ensures forall i :: v + k < i < v + n ==> Translate(l1, l2, i) != Translate(l1, l2, v + j)
    decreases n
  {
    if Translate(l1, l2, v + (n - 1)) == Translate(l1, l2, v + j) {
      k := n - 1;
    } else {
      k := LastSharing(l1, l2, v, n - 1, j);
    }
  }

  lemma Latest(ram: seq<byte>, l1: seq<nat>, l2: map<nat, seq<nat>>, v: nat, src: seq<byte>, j: nat)
    requires Mapped(l1, l2, v, |src|, |ram|) && Consistent(l1, l2, v, src) && j < |src|
    ensures Store(ram, l1, l2, v, src)[Translate(l1, l2, v + j).value] == src[j]
  {
    var k := LastSharing(l1, l2, v, |src|, j);
    StoreLast(ram, l1, l2, v, src, k);
  }

  /** The buffer holds exactly what was sent if and only if no two of its addresses that share a byte
      were sent different ones; it always does when the buffer's pages are in different frames. */
  lemma StoreView(ram: seq<byte>, l1: seq<nat>, l2: map<nat, seq<nat>>, v: nat, src: seq<byte>)
    requires Mapped(l1, l2, v, |src|, |ram|)
    ensures View(Store(ram, l1, l2, v, src), l1, l2, v, |src|) == src <==> Consistent(l1, l2, v, src)
  {
    hide Store, Translate;
    var after := Store(ram, l1, l2, v, src);
    var view := View(after, l1, l2, v, |src|);
    assert forall j :: 0 <= j < |src| ==> view[j] == after[Translate(l1, l2, v + j).value];
    if view == src {
      assert Consistent(l1, l2, v, src);
    }
    if Consistent(l1, l2, v, src) {
      forall j | 0 <= j < |src|
        ensures view[j] == src[j]
      {
        Latest(ram, l1, l2, v, src, j);
      }
    }
  }

  // ----- Copying within a page -----

  /** Addresses of one page are translated to one stretch. */
  lemma SamePage(l1: seq<nat>, l2: map<nat, seq<nat>>, v: nat, i: nat)
    requires Translate(l1, l2, v).Some? && v % PAGE_SIZE + i < PAGE_SIZE
    ensures Translate(l1, l2, v + i) == Some(Translate(l1, l2, v).value + i)
  {
    var q, r := v / PAGE_SIZE, v % PAGE_SIZE;
    DivUnique(v + i, PAGE_SIZE, q, r + i);
    SectionOfPage(v);
    SectionOfPage(v + i);
  }

  lemma SectionOfPage(v: nat)
    ensures v / SECTION_SIZE == v / PAGE_SIZE / 256
  {
    var q, r := v / PAGE_SIZE, v % PAGE_SIZE;
    var m, s := q / 256, q % 256;
    DivUnique(v, SECTION_SIZE, m, s * PAGE_SIZE + r);
  }

  /** Memory after writing the bytes of chunk at a. */
  ghost function Written(ram: seq<byte>, a: nat, chunk: seq<byte>): (r: seq<byte>)
    requires a + |chunk| <= |ram|
    ensures |r| == |ram|
    ensures forall k :: 0 <= k < |ram| ==> r[k] == if a <= k < a + |chunk| then chunk[k - a] else ram[k]
  {
    ram[..a] + chunk + ram[a + |chunk|..]
  }

  /** Storing a chunk whose addresses are one stretch from a on is writing it at a. */
  lemma {:induction false} StoreChunk(ram: seq<byte>, l1: seq<nat>, l2: map<nat, seq<nat>>, v: nat, src: seq<byte>,
                                      k: nat, a: nat)
    requires Mapped(l1, l2, v, |src|, |ram|) && k <= |src| && a + (|src| - k) <= |ram|
    requires forall b :: v + k <= b < v + |src| ==> Translate(l1, l2, b) == Some(a + (b - (v + k)))
    ensures Store(ram, l1, l2, v, src) == Written(Store(ram, l1, l2, v, src[..k]), a, src[k..])
    decreases |src|
  {
    hide Translate;
    if k == |src| {
      assert src[..k] == src;
    } else {
      var n := |src| - 1;
      var t := src[..n];
      assert t[..k] == src[..k];
      StoreChunk(ram, l1, l2, v, t, k, a);
      assert Translate(l1, l2, v + n) == Some(a + (n - k));
    }
  }

  method MsgCopy(dst: array<byte>, to: nat, src: seq<byte>)
    requires to + |src| <= dst.Length
    modifies dst
    ensures dst[..] == Written(old(dst[..]), to, src)
  {
    var i := 0;
    while i < |src|
      invariant i <= |src|
      invariant forall k :: 0 <= k < dst.Length ==> dst[k] == if to <= k < to + i then src[k - to] else old(dst[k])
    {
      dst[to + i] := src[i];
      i := i + 1;
    }
  }

  // ----- The page-wise copies -----

  /** What is left of a page or of the message, whichever is less. */
  function MapSize(left: nat, addrOff: nat): nat
    requires addrOff < PAGE_SIZE
  {
    if PAGE_SIZE - addrOff > left then left else PAGE_SIZE - addrOff
  }

  /** Where the copy has got to: bp is the physical page of address v and addrOff the place in it. */
  ghost predicate AtPage(l1: seq<nat>, l2: map<nat, seq<nat>>, v: nat, bp: nat, addrOff: nat, mapSize: nat, left: nat) {
    left > 0 ==> addrOff < PAGE_SIZE && addrOff == v % PAGE_SIZE && Translate(l1, l2, v) == Some(bp + addrOff)
                 && mapSize == MapSize(left, addrOff)
  }

  lemma Start(l1: seq<nat>, l2: map<nat, seq<nat>>, v: nat, size: nat, p: nat)
    requires Translate(l1, l2, v) == Some(p)
    ensures AtPage(l1, l2, v, AlignDown(p, PAGE_SIZE), p - AlignDown(p, PAGE_SIZE),
                   MapSize(size, p % PAGE_SIZE), size)
    ensures p - AlignDown(p, PAGE_SIZE) == p % PAGE_SIZE
  {
    var frame := Lookup(l1, l2, v / SECTION_SIZE, v / PAGE_SIZE % 256).value.frame;
    DivUnique(p, PAGE_SIZE, frame, v % PAGE_SIZE);
  }

  /** After a chunk the copy is at the end or at the beginning of a page. */
  lemma NextPage(v: nat, addrOff: nat, left: nat)
    requires addrOff == v % PAGE_SIZE && MapSize(left, addrOff) < left
    ensures (v + MapSize(left, addrOff)) % PAGE_SIZE == 0
  {
    DivUnique(v + (PAGE_SIZE - addrOff), PAGE_SIZE, v / PAGE_SIZE + 1, 0);
  }

  lemma PageOffset(p: nat)
    ensures p - AlignDown(p, PAGE_SIZE) == p % PAGE_SIZE
  {
  }

  lemma MappedParts(l1: seq<nat>, l2: map<nat, seq<nat>>, v: nat, n: nat, k: nat, limit: nat)
    requires Mapped(l1, l2, v, n, limit) && k <= n
    ensures Mapped(l1, l2, v, k, limit) && Mapped(l1, l2, v + k, n - k, limit)
  {
  }

  /** The addresses of the current chunk are one stretch of memory. */
  lemma Stretch(l1: seq<nat>, l2: map<nat, seq<nat>>, v: nat, bp: nat, addrOff: nat, mapSize: nat, left: nat,
                limit: nat)
    requires AtPage(l1, l2, v, bp, addrOff, mapSize, left) && left > 0 && Mapped(l1, l2, v, left, limit)
    ensures 0 < mapSize <= left && bp + addrOff + mapSize <= limit
    ensures forall b :: v <= b < v + mapSize ==> Translate(l1, l2, b) == Some(bp + addrOff + (b - v))
  {
    forall b | v <= b < v + mapSize
      ensures Translate(l1, l2, b) == Some(bp + addrOff + (b - v))
    {
      SamePage(l1, l2, v, b - v);
    }
    assert Translate(l1, l2, v + (mapSize - 1)) == Some(bp + addrOff + (mapSize - 1));
  }

  /** One round of the copy to the receiver. */
  lemma StoreRound(ram: seq<byte>, l1: seq<nat>, l2: map<nat, seq<nat>>, v: nat, src: seq<byte>, mapped: nat,
                   mapSize: nat, a: nat)
    requires mapped + mapSize <= |src| && Mapped(l1, l2, v, |src|, |ram|) && a + mapSize <= |ram|
    requires forall b :: v + mapped <= b < v + mapped + mapSize ==> Translate(l1, l2, b) == Some(a + (b - (v + mapped)))
    ensures Store(ram, l1, l2, v, src[..mapped + mapSize])
         == Written(Store(ram, l1, l2, v, src[..mapped]), a, src[mapped..mapped + mapSize])
  {
    hide Translate, Store, Written;
    var t := src[..mapped + mapSize];
    assert t[..mapped] == src[..mapped];
    assert t[mapped..] == src[mapped..mapped + mapSize];
    StoreChunk(ram, l1, l2, v, t, mapped, a);
  }

  /** The state of the copy after a round. */
  lemma NextRound(l1: seq<nat>, l2: map<nat, seq<nat>>, v: nat, bp: nat, addrOff: nat, mapSize: nat, left: nat,
                  limit: nat, p: nat)
    requires AtPage(l1, l2, v, bp, addrOff, mapSize, left) && 0 < mapSize <= left && Mapped(l1, l2, v, left, limit)
    requires mapSize < left ==> Translate(l1, l2, v + mapSize) == Some(p)
    ensures AtPage(l1, l2, v + mapSize, p, 0, if PAGE_SIZE > left - mapSize then left - mapSize else PAGE_SIZE,
                   left - mapSize)
  {
    if mapSize < left { NextPage(v, addrOff, left); }
  }

  /** MemoryVirtual2physical. */
  method Physical(pgt: PageTables, v: nat) returns (p: nat)
    requires pgt.Valid() && v / SECTION_SIZE < pgt.pgt.Length
    ensures Translate(pgt.pgt[..], pgt.l2, v).Some? ==> Translate(pgt.pgt[..], pgt.l2, v) == Some(p)
  {
    p := pgt.MemoryVirtual2physical(v);
  }

  lemma Slice(s: seq<byte>, at: nat, size: nat, from: nat, n: nat)
    requires from + n <= size && at + size <= |s|
    ensures s[at..at + size][from..from + n] == s[from + at..from + at + n]
  {
    var t := s[at..at + size];
    var l, r := t[from..from + n], s[from + at..from + at + n];
    forall k | 0 <= k < n
      ensures l[k] == r[k]
    {
      assert l[k] == t[from + k] == s[at + (from + k)];
      assert r[k] == s[from + at + k];
    }
    assert l == r;
  }

  lemma WrittenNothing(was: seq<byte>, a: nat, view: seq<byte>)
    requires a <= |was|
    ensures Written(was, a, view[..0]) == was
  {
  }

  lemma SectionBelow(a: nat, b: nat)
    requires a <= b
    ensures a / SECTION_SIZE <= b / SECTION_SIZE
  {
  }

  lemma StoreNothing(ram: seq<byte>, l1: seq<nat>, l2: map<nat, seq<nat>>, v: nat)
    ensures Store(ram, l1, l2, v, []) == ram
  {
  }

  lemma FirstRound(l1: seq<nat>, l2: map<nat, seq<nat>>, v: nat, size: nat, p: nat, limit: nat)
    requires Mapped(l1, l2, v, size, limit)
    requires Translate(l1, l2, v).Some? ==> Translate(l1, l2, v) == Some(p)
    ensures AtPage(l1, l2, v, AlignDown(p, PAGE_SIZE), p % PAGE_SIZE,
                   if PAGE_SIZE - p % PAGE_SIZE > size then size else PAGE_SIZE - p % PAGE_SIZE, size)
  {
    if size > 0 { Start(l1, l2, v, size, p); }
  }

  /** One round of the copy from the sender. */
  lemma ViewRound(ram: seq<byte>, l1: seq<nat>, l2: map<nat, seq<nat>>, v: nat, n: nat, mapped: nat, mapSize: nat,
                  a: nat)
    requires Mapped(l1, l2, v, n, |ram|) && mapped + mapSize <= n && a + mapSize <= |ram|
    requires forall b :: v + mapped <= b < v + mapped + mapSize ==> Translate(l1, l2, b) == Some(a + (b - (v + mapped)))
    ensures View(ram, l1, l2, v, n)[mapped..mapped + mapSize] == ram[a..a + mapSize]
  {
    hide Translate;
    var view := View(ram, l1, l2, v, n);
    forall j | mapped <= j < mapped + mapSize
      ensures view[j] == ram[a + (j - mapped)]
    {
      assert Translate(l1, l2, v + j) == Some(a + (j - mapped));
    }
  }

  lemma WrittenRound(was: seq<byte>, a: nat, view: seq<byte>, mapped: nat, mapSize: nat)
    requires mapped + mapSize <= |view| && a + |view| <= |was|
    ensures Written(Written(was, a, view[..mapped]), a + mapped, view[mapped..mapped + mapSize])
         == Written(was, a, view[..mapped + mapSize])
  {
  }

  lemma SenderRound(ram: seq<byte>, was: seq<byte>, l1: seq<nat>, l2: map<nat, seq<nat>>, v: nat, n: nat, mapped: nat,
                    mapSize: nat, a: nat, rcvOff: nat)
    requires Mapped(l1, l2, v, n, |ram|) && mapped + mapSize <= n && a + mapSize <= |ram| && rcvOff + n <= |was|
    requires forall b :: v + mapped <= b < v + mapped + mapSize ==> Translate(l1, l2, b) == Some(a + (b - (v + mapped)))
    ensures Written(Written(was, rcvOff, View(ram, l1, l2, v, n)[..mapped]), mapped + rcvOff, ram[a..a + mapSize])
         == Written(was, rcvOff, View(ram, l1, l2, v, n)[..mapped + mapSize])
  {
    hide Translate, Written, View;
    ViewRound(ram, l1, l2, v, n, mapped, mapSize, a);
    WrittenRound(was, rcvOff, View(ram, l1, l2, v, n), mapped, mapSize);
  }

  /** Copies the next mapSize bytes of the message to the physical page at bp. */
  method CopyToPage(ram: array<byte>, bp: nat, addrOff: nat, send: seq<byte>, sendOff: nat, mapped: nat, mapSize: nat,
                    ghost was: seq<byte>, ghost l1: seq<nat>, ghost l2: map<nat, seq<nat>>, ghost v: nat,
                    ghost size: nat)
    requires mapped < size && sendOff + size <= |send| && |was| == ram.Length && Mapped(l1, l2, v, size, |was|)
    requires AtPage(l1, l2, v + mapped, bp, addrOff, mapSize, size - mapped) && Mapped(l1, l2, v, mapped, |was|)
    requires ram[..] == Store(was, l1, l2, v, send[sendOff..sendOff + size][..mapped])
    modifies ram
    ensures 0 < mapSize <= size - mapped && Mapped(l1, l2, v, mapped + mapSize, |was|)
    ensures ram[..] == Store(was, l1, l2, v, send[sendOff..sendOff + size][..mapped + mapSize])
  {
    hide Store, Translate, AtPage, Written, Mapped;
    MappedParts(l1, l2, v, size, mapped, |was|);
    Stretch(l1, l2, v + mapped, bp, addrOff, mapSize, size - mapped, |was|);
    MappedParts(l1, l2, v, size, mapped + mapSize, |was|);
    StoreRound(was, l1, l2, v, send[sendOff..sendOff + size], mapped, mapSize, bp + addrOff);
    Slice(send, sendOff, size, mapped, mapSize);
    MsgCopy(ram, bp + addrOff, send[mapped + sendOff..mapped + sendOff + mapSize]);
  }

  /** Copies size bytes of the running task's message to the buffer at recv + rcvOff of another task. */
  method MsgMapReceiverCopy(ram: array<byte>, send: seq<byte>, sendOff: nat, recv: nat, rcvOff: nat, rcvPgt: PageTables,
                            size: nat) returns (copied: nat)
    requires rcvPgt.Valid() && sendOff + size <= |send|
    requires (recv + rcvOff + size) / SECTION_SIZE < rcvPgt.pgt.Length
    requires Mapped(rcvPgt.pgt[..], rcvPgt.l2, recv + rcvOff, size, ram.Length)
    modifies ram
    ensures copied == size
    ensures ram[..] == old(Store(ram[..], rcvPgt.pgt[..], rcvPgt.l2, recv + rcvOff, send[sendOff..sendOff + size]))
  {
    hide Store, Translate, AtPage, Written, View, Mapped, AlignDown;
    ghost var l1: seq<nat>, l2, v, was, src := rcvPgt.pgt[..], rcvPgt.l2, recv + rcvOff, ram[..],
      send[sendOff..sendOff + size];
    var vcopyAddr: nat := recv + rcvOff;
    var p_rcv := Physical(rcvPgt, vcopyAddr);
    var bp_rcv: nat := AlignDown(p_rcv, PAGE_SIZE);
    // Get offset to beginning of the memory page
    PageOffset(p_rcv);
    var addrOff: nat := p_rcv - bp_rcv;
    var mapped: nat := 0;
    var mapSize: nat := if PAGE_SIZE - addrOff > size then size else PAGE_SIZE - addrOff;
    FirstRound(l1, l2, v, size, p_rcv, ram.Length);
    assert src[..mapped] == [];
    MappedParts(l1, l2, v, size, 0, ram.Length);
    StoreNothing(was, l1, l2, v);
    while mapped < size
      invariant mapped <= size && vcopyAddr == v + mapped
      invariant AtPage(l1, l2, vcopyAddr, bp_rcv, addrOff, mapSize, size - mapped)
      invariant rcvPgt.Valid() && rcvPgt.pgt[..] == l1 && rcvPgt.l2 == l2
      invariant Mapped(l1, l2, v, mapped, |was|) && ram[..] == Store(was, l1, l2, v, src[..mapped])
    {
      MappedParts(l1, l2, v, size, mapped, ram.Length);
      CopyToPage(ram, bp_rcv, addrOff, send, sendOff, mapped, mapSize, was, l1, l2, v, size);
      SectionBelow(vcopyAddr + mapSize, v + size);
      var next := Physical(rcvPgt, vcopyAddr + mapSize);
      NextRound(l1, l2, vcopyAddr, bp_rcv, addrOff, mapSize, size - mapped, ram.Length, next);
      mapped := mapped + mapSize;
      addrOff := 0;
      vcopyAddr := vcopyAddr + mapSize;
      mapSize := if mapped + PAGE_SIZE > size then size - mapped else PAGE_SIZE;
      bp_rcv := next;
    }
    assert src[..size] == src;
    return size;
  }

  /** Copies the next mapSize bytes from the physical page at bp. */
  method CopyFromPage(ram: array<byte>, bp: nat, addrOff: nat, recv: array<byte>, rcvOff: nat, mapped: nat,
                      mapSize: nat, ghost was: seq<byte>, ghost l1: seq<nat>, ghost l2: map<nat, seq<nat>>,
                      ghost v: nat, ghost size: nat)
    requires recv != ram && mapped < size && |was| == recv.Length && rcvOff + size <= |was|
    requires Mapped(l1, l2, v, size, ram.Length) && AtPage(l1, l2, v + mapped, bp, addrOff, mapSize, size - mapped)
    requires recv[..] == Written(was, rcvOff, View(ram[..], l1, l2, v, size)[..mapped])
    modifies recv
    ensures 0 < mapSize <= size - mapped
    ensures recv[..] == Written(was, rcvOff, View(ram[..], l1, l2, v, size)[..mapped + mapSize])
  {
    hide Translate, AtPage, Written, View, Mapped;
    MappedParts(l1, l2, v, size, mapped, ram.Length);
    Stretch(l1, l2, v + mapped, bp, addrOff, mapSize, size - mapped, ram.Length);
    SenderRound(ram[..], was, l1, l2, v, size, mapped, mapSize, bp + addrOff, rcvOff);
    MsgCopy(recv, mapped + rcvOff, ram[bp + addrOff..bp + addrOff + mapSize]);
  }

  /** Copies size bytes at send + sendOff of another task to the running task's buffer. */
  method MsgMapSenderCopy(ram: array<byte>, send: nat, sendOff: nat, recv: array<byte>, rcvOff: nat,
                          sendPgt: PageTables,
                          size: nat) returns (copied: nat)
    requires sendPgt.Valid() && rcvOff + size <= recv.Length && recv != ram
    requires (send + sendOff + size) / SECTION_SIZE < sendPgt.pgt.Length
    requires Mapped(sendPgt.pgt[..], sendPgt.l2, send + sendOff, size, ram.Length)
    modifies recv
    ensures copied == size
    ensures recv[..] == old(Written(recv[..], rcvOff, View(ram[..], sendPgt.pgt[..], sendPgt.l2, send + sendOff, size)))
  {
    hide Store, Translate, AtPage, Written, View, Mapped, AlignDown;
    ghost var l1: seq<nat>, l2, v, was := sendPgt.pgt[..], sendPgt.l2, send + sendOff, recv[..];
    ghost var view := View(ram[..], l1, l2, v, size);
    var vcopyAddr: nat := send + sendOff;
    var p_send := Physical(sendPgt, vcopyAddr);
    var bp_send: nat := AlignDown(p_send, PAGE_SIZE);
    // Get offset to beginning of the memory page
    PageOffset(p_send);
    var addrOff: nat := p_send - bp_send;
    var mapped: nat := 0;
    var mapSize: nat := if PAGE_SIZE - addrOff > size then size else PAGE_SIZE - addrOff;
    FirstRound(l1, l2, v, size, p_send, ram.Length);
    WrittenNothing(was, rcvOff, view);
    while mapped < size
      invariant mapped <= size && vcopyAddr == v + mapped
      invariant AtPage(l1, l2, vcopyAddr, bp_send, addrOff, mapSize, size - mapped)
      invariant sendPgt.Valid() && sendPgt.pgt[..] == l1 && sendPgt.l2 == l2
      invariant recv[..] == Written(was, rcvOff, view[..mapped])
    {
      MappedParts(l1, l2, v, size, mapped, ram.Length);
      CopyFromPage(ram, bp_send, addrOff, recv, rcvOff, mapped, mapSize, was, l1, l2, v, size);
      SectionBelow(vcopyAddr + mapSize, v + size);
      var next := Physical(sendPgt, vcopyAddr + mapSize);
      NextRound(l1, l2, vcopyAddr, bp_send, addrOff, mapSize, size - mapped, ram.Length, next);
      mapped := mapped + mapSize;
      addrOff := 0;
      vcopyAddr := vcopyAddr + mapSize;
      mapSize := if mapped + PAGE_SIZE > size then size - mapped else PAGE_SIZE;
      bp_send := next;
    }
    assert view[..size] == view;
    return size;
  }

  /** What one task stored another reads back. */
  lemma CopyRoundTrip(ram: seq<byte>, l1: seq<nat>, l2: map<nat, seq<nat>>, v: nat, src: seq<byte>)
    requires Mapped(l1, l2, v, |src|, |ram|)
    requires forall i, j :: v <= i < j < v + |src| ==> Translate(l1, l2, i) != Translate(l1, l2, j)
    ensures View(Store(ram, l1, l2, v, src), l1, l2, v, |src|) == src
  {
    hide Store, Translate, View;
    StoreView(ram, l1, l2, v, src);
  }
}
