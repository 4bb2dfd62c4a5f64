/** What each kind of write to the page tables does to the translation. */
module PageWrites {
  import opened Utils
  import opened Arith
  import opened PageAccess
  import opened PageLookup

  lemma MapsRangeJoin(l1: seq<nat>, l2: map<nat, seq<nat>>, l1': seq<nat>, l2': map<nat, seq<nat>>,
                      l1'': seq<nat>, l2'': map<nat, seq<nat>>, p: nat, a: nat, b: nat, q: nat, g: Access)
    requires MapsRange(l1, l2, l1', l2', p, a, q, g) && MapsRange(l1', l2', l1'', l2'', p + a, b, q + a, g)
    ensures MapsRange(l1, l2, l1'', l2'', p, a + b, q, g)
  {
  }

  lemma SameLookupsJoin(l1: seq<nat>, l2: map<nat, seq<nat>>, l1': seq<nat>, l2': map<nat, seq<nat>>,
                        l1'': seq<nat>, l2'': map<nat, seq<nat>>)
    requires SameLookups(l1, l2, l1', l2') && SameLookups(l1', l2', l1'', l2'')
    ensures SameLookups(l1, l2, l1'', l2'')
  {
  }

  lemma SameThenMaps(l1: seq<nat>, l2: map<nat, seq<nat>>, l1': seq<nat>, l2': map<nat, seq<nat>>,
                     l1'': seq<nat>, l2'': map<nat, seq<nat>>, p: nat, n: nat, q: nat, g: Access)
    requires SameLookups(l1, l2, l1', l2') && MapsRange(l1', l2', l1'', l2'', p, n, q, g)
    ensures MapsRange(l1, l2, l1'', l2'', p, n, q, g)
  {
  }

  lemma UnmapsRangeJoin(l1: seq<nat>, l2: map<nat, seq<nat>>, l1': seq<nat>, l2': map<nat, seq<nat>>,
                        l1'': seq<nat>, l2'': map<nat, seq<nat>>, p: nat, a: nat, b: nat)
    requires UnmapsRange(l1, l2, l1', l2', p, a) && UnmapsRange(l1', l2', l1'', l2'', p + a, b)
    ensures UnmapsRange(l1, l2, l1'', l2'', p, a + b)
  {
  }

  /** size supersections from entry m on, the first for frame x of that size. */
  ghost predicate WritesSuperSections(l1: seq<nat>, l1': seq<nat>, m: nat, size: nat, x: nat, pflags: nat) {
    && |l1'| == |l1|
    && forall j :: 0 <= j < |l1| ==>
         l1'[j] == if m <= j < m + 16 * size then (x + (j - m) / 16) * LARGE_SECTION_SIZE + pflags else l1[j]
  }

  lemma SuperSectionsMap(l1: seq<nat>, l1': seq<nat>, l2: map<nat, seq<nat>>, m: nat, size: nat, x: nat, flags: nat)
    requires WritesSuperSections(l1, l1', m, size, x, flags + SUPERSECTION) && m + 16 * size <= |l1| && TablesOk(l1, l2)
    requires m % 16 == 0 && FlagsOk(flags)
    ensures MapsRange(l1, l2, l1', l2, 256 * m, 4096 * size, 4096 * x, FlagsAccess(flags)) && TablesOk(l1', l2)
    ensures forall j :: m <= j < m + 16 * size ==> !IsTable(l1'[j])
  {
    hide FlagsOk, FlagsAccess, AccessOf, SectionFields;
    forall j: nat, s: nat | s < L2_ENTRIES && m <= j < m + 16 * size
      ensures Lookup(l1', l2, j, s) == Some(Page(4096 * x + (256 * j + s - 256 * m), FlagsAccess(flags)))
              && l1'[j] % 4 == SECTION
              && !IsTable(l1'[j])
    {
      SuperSectionEntry(flags, x + (j - m) / 16, l2, j, s);
      SuperSectionOffset(m, j);
    }
    assert forall j :: m <= j < m + 16 * size ==>
             Lookup(l1', l2, j, 0).Some? ==> l1'[j] % 4 == SECTION && !IsTable(l1'[j]);
  }

  lemma SuperSectionOffset(m: nat, j: nat)
    requires m % 16 == 0 && m <= j
    ensures (j - m) / 16 * 4096 + j % 16 * 256 == 256 * (j - m)
  {
    var a := m / 16;
    Decode(j - m, 16, j / 16 - a, j % 16);
  }

  /** size sections from entry m on, the first for frame x of that size. */
  ghost predicate WritesSections(l1: seq<nat>, l1': seq<nat>, m: nat, size: nat, x: nat, pflags: nat) {
    && |l1'| == |l1|
    && forall j :: 0 <= j < |l1| ==>
         l1'[j] == if m <= j < m + size then (x + (j - m)) * SECTION_SIZE + pflags else l1[j]
  }

  lemma SectionsMap(l1: seq<nat>, l1': seq<nat>, l2: map<nat, seq<nat>>, m: nat, size: nat, x: nat, flags: nat)
    requires WritesSections(l1, l1', m, size, x, flags + SECTION) && m + size <= |l1| && TablesOk(l1, l2)
    requires FlagsOk(flags)
    ensures MapsRange(l1, l2, l1', l2, 256 * m, 256 * size, 256 * x, FlagsAccess(flags)) && TablesOk(l1', l2)
    ensures forall j :: m <= j < m + size ==> !IsTable(l1'[j])
  {
    hide FlagsOk, FlagsAccess, AccessOf, SectionFields;
    forall j: nat, s: nat | s < L2_ENTRIES && m <= j < m + size
      ensures Lookup(l1', l2, j, s) == Some(Page(256 * x + (256 * j + s - 256 * m), FlagsAccess(flags)))
              && l1'[j] % 4 == SECTION
              && !IsTable(l1'[j])
    {
      SectionEntry(flags, x + (j - m), l2, j, s);
    }
    assert forall j :: m <= j < m + size ==> Lookup(l1', l2, j, 0).Some? ==> l1'[j] % 4 == SECTION && !IsTable(l1'[j]);
  }

  /** Rewriting the words of the table that entry m points to changes the pages of entry m only. */
  lemma TableWords(l1: seq<nat>, l2: map<nat, seq<nat>>, m: nat, w: seq<nat>)
    requires TablesOk(l1, l2) && m < |l1| && IsTable(l1[m]) && |w| == L2_ENTRIES
    ensures var l2' := l2[TableOf(l1[m]) := w];
            && TablesOk(l1, l2')
            && (forall s: nat | s < L2_ENTRIES :: Lookup(l1, l2', m, s) == WordLookup(w[s], s))
            && forall j: nat, s: nat | s < L2_ENTRIES && j != m :: Lookup(l1, l2', j, s) == Lookup(l1, l2, j, s)
  {
    var l2' := l2[TableOf(l1[m]) := w];
    TableKind(l1[m]);
    forall j: nat, s: nat | s < L2_ENTRIES && j != m
      ensures Lookup(l1, l2', j, s) == Lookup(l1, l2, j, s)
    {
      if j < |l1| {
        EntryUnchanged(l1[j], l2, TableOf(l1[m]), w, j, s);
      }
    }
  }

  lemma EntryUnchanged(e: nat, l2: map<nat, seq<nat>>, t: nat, w: seq<nat>, m: nat, s: nat)
    requires EntryOk(e, l2) && s < L2_ENTRIES
    requires IsTable(e) ==> TableOf(e) != t
    ensures EntryLookup(e, l2[t := w], m, s) == EntryLookup(e, l2, m, s)
  {
  }

  lemma TableLookup(l1: seq<nat>, l2: map<nat, seq<nat>>, m: nat)
    requires TablesOk(l1, l2) && m < |l1| && IsTable(l1[m])
    ensures forall s: nat | s < L2_ENTRIES :: Lookup(l1, l2, m, s) == WordLookup(l2[TableOf(l1[m])][s], s)
  {
    TableKind(l1[m]);
  }

  /** size large pages from word k on, the first for frame x of that size. */
  ghost predicate WritesLargePages(w: seq<nat>, w': seq<nat>, k: nat, size: nat, x: nat, pflags: nat) {
    && |w'| == |w|
    && forall j :: 0 <= j < |w| ==>
         w'[j] == if k <= j < k + 16 * size then (x + (j - k) / 16) * LARGE_PAGE_SIZE + pflags else w[j]
  }

  lemma LargePagesMap(l1: seq<nat>, l2: map<nat, seq<nat>>, m: nat, w: seq<nat>, k: nat, size: nat, x: nat, flags: nat)
    requires TablesOk(l1, l2) && m < |l1| && IsTable(l1[m])
    requires WritesLargePages(l2[TableOf(l1[m])], w, k, size, x, LargePageFlags(flags) + LARGEPAGE)
             && k + 16 * size <= L2_ENTRIES
    requires k % 16 == 0 && FlagsOk(flags)
    ensures TablesOk(l1, l2[TableOf(l1[m]) := w])
    ensures MapsRange(l1, l2, l1, l2[TableOf(l1[m]) := w], 256 * m + k, 16 * size, 16 * x, FlagsAccess(flags))
  {
    hide FlagsOk, FlagsAccess, AccessOf, LargePageFields, LargePageFlags;
    TableWords(l1, l2, m, w);
    TableLookup(l1, l2, m);
    forall s: nat | k <= s < k + 16 * size
      ensures WordLookup(w[s], s) == Some(Page(16 * x + (s - k), FlagsAccess(flags)))
    {
      LargePageEntry(flags, x + (s - k) / 16, s);
      LargePageOffset(k, s);
    }
  }

  lemma LargePageOffset(k: nat, s: nat)
    requires k % 16 == 0 && k <= s
    ensures (s - k) / 16 * 16 + s % 16 == s - k
  {
    Decode(s - k, 16, s / 16 - k / 16, s % 16);
  }

  /** size small pages from word k on, the first for frame x of that size. */
  ghost predicate WritesSmallPages(w: seq<nat>, w': seq<nat>, k: nat, size: nat, x: nat, pflags: nat) {
    && |w'| == |w|
    && forall j :: 0 <= j < |w| ==>
         w'[j] == if k <= j < k + size then (x + (j - k)) * PAGE_SIZE + pflags else w[j]
  }

  lemma SmallPagesMap(l1: seq<nat>, l2: map<nat, seq<nat>>, m: nat, w: seq<nat>, k: nat, size: nat, x: nat, flags: nat)
    requires TablesOk(l1, l2) && m < |l1| && IsTable(l1[m])
    requires WritesSmallPages(l2[TableOf(l1[m])], w, k, size, x, SmallPageFlags(flags) + SMALLPAGE)
             && k + size <= L2_ENTRIES
    requires FlagsOk(flags)
    ensures TablesOk(l1, l2[TableOf(l1[m]) := w])
    ensures MapsRange(l1, l2, l1, l2[TableOf(l1[m]) := w], 256 * m + k, size, x, FlagsAccess(flags))
  {
    hide FlagsOk, FlagsAccess, AccessOf, SmallPageFields, SmallPageFlags;
    TableWords(l1, l2, m, w);
    TableLookup(l1, l2, m);
    forall s: nat | k <= s < k + size
      ensures WordLookup(w[s], s) == Some(Page(x + (s - k), FlagsAccess(flags)))
    {
      SmallPageEntry(flags, x + (s - k), s);
    }
  }

  /** Clearing n words from word k on. */
  lemma WordsUnmap(l1: seq<nat>, l2: map<nat, seq<nat>>, m: nat, w: seq<nat>, k: nat, n: nat)
    requires TablesOk(l1, l2) && m < |l1| && IsTable(l1[m])
    requires |w| == L2_ENTRIES && k + n <= L2_ENTRIES
    requires forall j :: 0 <= j < L2_ENTRIES ==> w[j] == if k <= j < k + n then 0 else l2[TableOf(l1[m])][j]
    ensures TablesOk(l1, l2[TableOf(l1[m]) := w])
    ensures UnmapsRange(l1, l2, l1, l2[TableOf(l1[m]) := w], 256 * m + k, n)
  {
    TableWords(l1, l2, m, w);
    TableLookup(l1, l2, m);
  }

  /** Attaching an empty table that no entry has. */
  lemma AttachKeeps(l1: seq<nat>, l2: map<nat, seq<nat>>, m: nat, t: nat)
    requires TablesOk(l1, l2) && m < |l1| && l1[m] == 0
    requires t % L2PGT_SIZE == 0 && t in l2 && |l2[t]| == L2_ENTRIES
    requires forall i :: 0 <= i < L2_ENTRIES ==> l2[t][i] == 0
    requires forall j :: 0 <= j < |l1| && IsTable(l1[j]) ==> TableOf(l1[j]) != t
    ensures TablesOk(l1[m := t + L2_PGT], l2)
    ensures SameLookups(l1, l2, l1[m := t + L2_PGT], l2)
  {
    var l1' := l1[m := t + L2_PGT];
    TableEntry(t);
    TableKind(t + L2_PGT);
    forall s: nat | s < L2_ENTRIES
      ensures Lookup(l1', l2, m, s) == None && Lookup(l1, l2, m, s) == None
    {
      assert l2[t][s] == 0;
    }
    forall j: nat, s: nat | s < L2_ENTRIES && j != m
      ensures Lookup(l1', l2, j, s) == Lookup(l1, l2, j, s)
    {
    }
  }

  // ----- Chunks: byte addresses and sizes in pages -----

  lemma Multiple(x: nat, b: nat)
    requires b > 0 && x % b == 0
    ensures b * (x / b) == x
  {
  }

  /** The byte address of page p, and a byte size of p pages. */
  lemma InPages(a: nat, p: nat)
    requires a == PAGE_SIZE * p
    ensures a / PAGE_SIZE == p && a / SECTION_SIZE == p / 256
    ensures a % LARGE_PAGE_SIZE == PAGE_SIZE * (p % 16) && a / LARGE_PAGE_SIZE == p / 16
    ensures a % SECTION_SIZE == PAGE_SIZE * (p % 256)
    ensures a % LARGE_SECTION_SIZE == PAGE_SIZE * (p % 4096) && a / LARGE_SECTION_SIZE == p / 4096
  {
    Decode(a, PAGE_SIZE, p, 0);
    Decode(a, LARGE_PAGE_SIZE, p / 16, PAGE_SIZE * (p % 16));
    Decode(a, SECTION_SIZE, p / 256, PAGE_SIZE * (p % 256));
    Decode(a, LARGE_SECTION_SIZE, p / 4096, PAGE_SIZE * (p % 4096));
  }

  /** A physical address in page q; it need not be the start of the page. */
  lemma InFrame(a: nat, q: nat)
    requires q == a / PAGE_SIZE
    ensures a / LARGE_PAGE_SIZE == q / 16 && a / SECTION_SIZE == q / 256 && a / LARGE_SECTION_SIZE == q / 4096
    ensures a % LARGE_PAGE_SIZE == 0 ==> q % 16 == 0
    ensures a % SECTION_SIZE == 0 ==> q % 256 == 0
    ensures a % LARGE_SECTION_SIZE == 0 ==> q % 4096 == 0
  {
    var c := a % PAGE_SIZE;
    Decode(a, LARGE_PAGE_SIZE, q / 16, PAGE_SIZE * (q % 16) + c);
    Decode(a, SECTION_SIZE, q / 256, PAGE_SIZE * (q % 256) + c);
    Decode(a, LARGE_SECTION_SIZE, q / 4096, PAGE_SIZE * (q % 4096) + c);
  }

  /** The largest multiple of a that is at most x. */
  function AlignDown(x: nat, a: nat): (r: nat)
    requires a > 0
  {
    x / a * a
  }

  /** min(length aligned down to unit, what is left up to the next multiple of limit) */
  function ChunkSize(length: nat, addr: nat, unit: nat, limit: nat): (r: nat)
    requires unit > 0 && limit > 0
  {
    var map_size, aux := AlignDown(length, unit), addr % limit;
    if aux + map_size > limit then limit - aux else map_size
  }

  /** The chunk in pages: d pages, a multiple of the u pages of a unit, within the limit of v pages. */
  lemma ChunkPages(length: nat, addr: nat, p: nat, n: nat, u: nat, v: nat) returns (d: nat)
    requires u > 0 && v > 0 && v % u == 0 && p % u == 0 && n >= u
    requires addr == PAGE_SIZE * p && length == PAGE_SIZE * n
    ensures ChunkSize(length, addr, PAGE_SIZE * u, PAGE_SIZE * v) == PAGE_SIZE * d
    ensures PAGE_SIZE * d / (PAGE_SIZE * u) == d / u
    ensures 0 < d <= n && d % u == 0 && p % v + d <= v
  {
    var a, aux := n / u * u, p % v;
    Scale(n, u);
    Scale(p, v);
    MultipleOf(n / u, u);
    ModMod(p, u, v);
    MultipleMinus(v, aux, u);
    UnitsFit(n, u);
    d := if aux + a > v then v - aux else a;
    Scale(d, u);
  }

  lemma UnitsFit(n: nat, u: nat)
    requires u > 0 && n >= u
    ensures u <= n / u * u <= n
  {
    assert n == u * (n / u) + n % u;
    AtLeast(u, n / u);
  }

  lemma MultipleOf(k: nat, u: nat)
    requires u > 0
    ensures k * u % u == 0
  {
    DivUnique(k * u, u, k, 0);
  }

  lemma Scale(x: nat, u: nat)
    requires u > 0
    ensures (PAGE_SIZE * x) / (PAGE_SIZE * u) == x / u
    ensures (PAGE_SIZE * x) % (PAGE_SIZE * u) == PAGE_SIZE * (x % u)
    ensures x / u * (PAGE_SIZE * u) == PAGE_SIZE * (x / u * u)
  {
    var q, r := x / u, x % u;
    assert x == u * q + r;
    assert PAGE_SIZE * x == (PAGE_SIZE * u) * q + PAGE_SIZE * r by {
      assert PAGE_SIZE * (u * q) == (PAGE_SIZE * u) * q;
    }
    DivUnique(PAGE_SIZE * x, PAGE_SIZE * u, q, PAGE_SIZE * r);
    assert q * (PAGE_SIZE * u) == PAGE_SIZE * (q * u);
  }

  /** Remainders by a multiple of u keep remainders by u. */
  lemma ModMod(p: nat, u: nat, v: nat)
    requires u > 0 && v > 0 && v % u == 0 && p % u == 0
    ensures p % v % u == 0
  {
    Divided(p, u);
    Divided(v, u);
    Divided(p, v);
    RestOfMultiple(p, u, v, p / u, v / u, p / v, p % v);
  }

  lemma Divided(x: nat, m: nat)
    requires m > 0
    ensures x == m * (x / m) + x % m
  {
  }

  lemma RestOfMultiple(p: nat, u: nat, v: nat, a: nat, b: nat, c: nat, r: nat)
    requires u > 0 && p == u * a && v == u * b && p == v * c + r
    ensures r % u == 0
  {
    Assoc(u, b, c);
    Cancel(u, a, b * c);
    Minus(u, a, b * c);
    DivUnique(r, u, a - b * c, 0);
  }

  lemma Assoc(u: nat, b: nat, c: nat)
    ensures (u * b) * c == u * (b * c)
  {
  }

  lemma Minus(u: nat, a: nat, b: nat)
    requires b <= a
    ensures u * (a - b) == u * a - u * b
  {
  }

  lemma MultipleMinus(v: nat, x: nat, u: nat)
    requires u > 0 && v % u == 0 && x % u == 0 && x <= v
    ensures (v - x) % u == 0 && (x < v ==> v - x >= u)
  {
    var a, b := v / u, x / u;
    assert v == u * a && x == u * b;
    Cancel(u, a, b);
    Minus(u, a, b);
    DivUnique(v - x, u, a - b, 0);
    if a > b { AtLeast(u, a - b); }
  }

  lemma SmallInTable(p: nat, d: nat)
    requires p % 16 + d <= 16
    ensures p % 256 + d <= 256
  {
    Decode(p % 256, 16, p / 16 % 16, p % 16);
  }

  lemma SuperSectionChunk(l1: seq<nat>, l1': seq<nat>, l2: map<nat, seq<nat>>, p: nat, d: nat, q: nat, flags: nat)
    requires p % 4096 == 0 && d % 4096 == 0 && q % 4096 == 0 && p + d <= 256 * |l1| && TablesOk(l1, l2)
    requires WritesSuperSections(l1, l1', p / 256, d / 4096, q / 4096, flags + SUPERSECTION)
    requires FlagsOk(flags)
    ensures MapsRange(l1, l2, l1', l2, p, d, q, FlagsAccess(flags)) && TablesOk(l1', l2)
    ensures EdgesAreTables(l1', p, d) && KeepsTables(l1, l1', p, d)
    ensures forall j :: 0 <= j < |l1| ==> l1'[j] == l1[j] || !IsTable(l1'[j])
  {
    hide FlagsOk, FlagsAccess;
    Multiple(p, 4096);
    Multiple(d, 4096);
    Multiple(q, 4096);
    Decode(p, 256, 16 * (p / 4096), 0);
    Decode(16 * (p / 4096), 16, p / 4096, 0);
    SuperSectionsMap(l1, l1', l2, p / 256, d / 4096, q / 4096, flags);
  }

  lemma SectionChunk(l1: seq<nat>, l1': seq<nat>, l2: map<nat, seq<nat>>, p: nat, d: nat, q: nat, flags: nat)
    requires p % 256 == 0 && d % 256 == 0 && q % 256 == 0 && p + d <= 256 * |l1| && TablesOk(l1, l2)
    requires WritesSections(l1, l1', p / 256, d / 256, q / 256, flags + SECTION)
    requires FlagsOk(flags)
    ensures MapsRange(l1, l2, l1', l2, p, d, q, FlagsAccess(flags)) && TablesOk(l1', l2)
    ensures EdgesAreTables(l1', p, d) && KeepsTables(l1, l1', p, d)
    ensures forall j :: 0 <= j < |l1| ==> l1'[j] == l1[j] || !IsTable(l1'[j])
  {
    hide FlagsOk, FlagsAccess;
    Multiple(p, 256);
    Multiple(d, 256);
    Multiple(q, 256);
    SectionsMap(l1, l1', l2, p / 256, d / 256, q / 256, flags);
  }

  lemma LargePageChunk(l1: seq<nat>, l2: map<nat, seq<nat>>, w: seq<nat>, p: nat, d: nat, q: nat, flags: nat)
    requires TablesOk(l1, l2) && p / 256 < |l1| && IsTable(l1[p / 256])
    requires p % 16 == 0 && d % 16 == 0 && q % 16 == 0 && p % 256 + d <= 256
    requires TableOf(l1[p / 256]) in l2
    requires WritesLargePages(l2[TableOf(l1[p / 256])], w, p % 256, d / 16, q / 16, LargePageFlags(flags) + LARGEPAGE)
    requires FlagsOk(flags)
    ensures TablesOk(l1, l2[TableOf(l1[p / 256]) := w])
    ensures MapsRange(l1, l2, l1, l2[TableOf(l1[p / 256]) := w], p, d, q, FlagsAccess(flags))
    ensures EdgesAreTables(l1, p, d)
  {
    hide FlagsOk, FlagsAccess, LargePageFlags;
    Multiple(d, 16);
    Multiple(q, 16);
    Decode(p % 256, 16, p / 16 % 16, 0);
    LargePagesMap(l1, l2, p / 256, w, p % 256, d / 16, q / 16, flags);
  }

  lemma SmallPageChunk(l1: seq<nat>, l2: map<nat, seq<nat>>, w: seq<nat>, p: nat, d: nat, q: nat, flags: nat)
    requires TablesOk(l1, l2) && p / 256 < |l1| && IsTable(l1[p / 256]) && p % 256 + d <= 256
    requires TableOf(l1[p / 256]) in l2
    requires WritesSmallPages(l2[TableOf(l1[p / 256])], w, p % 256, d, q, SmallPageFlags(flags) + SMALLPAGE)
    requires FlagsOk(flags)
    ensures TablesOk(l1, l2[TableOf(l1[p / 256]) := w])
    ensures MapsRange(l1, l2, l1, l2[TableOf(l1[p / 256]) := w], p, d, q, FlagsAccess(flags))
    ensures EdgesAreTables(l1, p, d)
  {
    hide FlagsOk, FlagsAccess, SmallPageFlags;
    SmallPagesMap(l1, l2, p / 256, w, p % 256, d, q, flags);
  }

  lemma KeepsNothing(l1: seq<nat>, p: nat)
    ensures KeepsTables(l1, l1, p, 0)
  {
  }

  lemma KeepsJoin(l1: seq<nat>, l1': seq<nat>, l1'': seq<nat>, p: nat, c: nat, d: nat)
    requires KeepsTables(l1, l1', p, c) && KeepsTables(l1', l1'', p + c, d)
    ensures KeepsTables(l1, l1'', p, c + d)
  {
  }

  /** Clearing whole entries keeps the other tables. */
  lemma KeepsCleared(l1: seq<nat>, l1': seq<nat>, offset: nat, count: nat)
    requires |l1'| == |l1| && forall m :: 0 <= m < |l1| && !(offset <= m < offset + count) ==> l1'[m] == l1[m]
    ensures KeepsTables(l1, l1', 256 * offset, 256 * count)
  {
  }

  lemma KeepsSame(l1: seq<nat>, p: nat, n: nat)
    ensures KeepsTables(l1, l1, p, n)
  {
  }

  /** Edges elsewhere stay tables. */
  lemma EdgesKept(l1: seq<nat>, l1': seq<nat>, p: nat, n: nat, a: nat, k: nat)
    requires EdgesAreTables(l1, a, k) && KeepsTables(l1, l1', p, n) && (a + k <= p || p + n <= a)
    ensures EdgesAreTables(l1', a, k)
  {
  }

  /** Joining two consecutive stretches. */
  lemma EdgesJoin(l1: seq<nat>, l1': seq<nat>, p: nat, a: nat, b: nat, n: nat)
    requires a + b <= n && KeepsTables(l1, l1', p + a, b) && EdgesAreTables(l1', p + a, b)
    requires EdgesSoFar(l1, p, a, n)
    ensures EdgesSoFar(l1', p, a + b, n)
  {
  }

  // ----- Unmapping -----

  /** Clearing the entries of whole sections. */
  lemma ClearEntryUnmaps(l1: seq<nat>, l2: map<nat, seq<nat>>, m: nat)
    requires TablesOk(l1, l2) && m < |l1|
    ensures TablesOk(l1[m := 0], l2) && UnmapsRange(l1, l2, l1[m := 0], l2, 256 * m, 256)
  {
  }

  lemma UnmapsThenSame(l1: seq<nat>, l2: map<nat, seq<nat>>, l1': seq<nat>, l2': map<nat, seq<nat>>,
                       l1'': seq<nat>, l2'': map<nat, seq<nat>>, p: nat, n: nat)
    requires UnmapsRange(l1, l2, l1', l2', p, n) && SameLookups(l1', l2', l1'', l2'')
    ensures UnmapsRange(l1, l2, l1'', l2'', p, n)
  {
  }

  lemma UnmapsNothing(l1: seq<nat>, l2: map<nat, seq<nat>>, p: nat)
    ensures UnmapsRange(l1, l2, l1, l2, p, 0)
  {
  }

  lemma MapsNothing(l1: seq<nat>, l2: map<nat, seq<nat>>, p: nat, q: nat, g: Access)
    ensures MapsRange(l1, l2, l1, l2, p, 0, q, g)
  {
  }

  /** The rest of an unmapped range is unmapped still. */
  lemma UnmappedRest(l1: seq<nat>, l2: map<nat, seq<nat>>, l1': seq<nat>, l2': map<nat, seq<nat>>, p: nat, d: nat,
                     n: nat, q: nat, g: Access)
    requires Unmapped(l1, l2, p, n) && d <= n && MapsRange(l1, l2, l1', l2', p, d, q, g)
    ensures Unmapped(l1', l2', p + d, n - d)
  {
  }

  /** Unmapping what was mapped over an unmapped range undoes the mapping. */
  lemma UnmapUndoesMap(l1: seq<nat>, l2: map<nat, seq<nat>>, l1': seq<nat>, l2': map<nat, seq<nat>>,
                       l1'': seq<nat>, l2'': map<nat, seq<nat>>, p: nat, n: nat, q: nat, g: Access)
    requires Unmapped(l1, l2, p, n) && MapsRange(l1, l2, l1', l2', p, n, q, g)
             && UnmapsRange(l1', l2', l1'', l2'', p, n)
    ensures SameLookups(l1, l2, l1'', l2'')
  {
  }

  lemma MappingStart(l1: seq<nat>, l2: map<nat, seq<nat>>, p: nat, n: nat, q: nat, g: Access)
    requires Unmapped(l1, l2, p, n)
    ensures Mapping(l1, l2, l1, l2, p, 0, n, q, g)
  {
    MapsNothing(l1, l2, p, q, g);
  }

  lemma MappingPending(l1: seq<nat>, l2: map<nat, seq<nat>>, l1': seq<nat>, l2': map<nat, seq<nat>>,
                       p: nat, c: nat, n: nat, q: nat, g: Access)
    requires Mapping(l1, l2, l1', l2', p, c, n, q, g)
    ensures c <= n && Unmapped(l1', l2', p + c, n - c)
  {
  }

  lemma MappingStep(l1: seq<nat>, l2: map<nat, seq<nat>>, l1': seq<nat>, l2': map<nat, seq<nat>>,
                    l1'': seq<nat>, l2'': map<nat, seq<nat>>, p: nat, c: nat, d: nat, n: nat, q: nat, g: Access)
    requires Mapping(l1, l2, l1', l2', p, c, n, q, g) && c + d <= n && MapsRange(l1', l2', l1'', l2'', p + c, d,
                 q + c, g)
    requires EdgesAreTables(l1'', p + c, d) && KeepsTables(l1', l1'', p + c, d)
    ensures Mapping(l1, l2, l1'', l2'', p, c + d, n, q, g)
  {
    MapsRangeJoin(l1, l2, l1', l2', l1'', l2'', p, c, d, q, g);
    UnmappedRest(l1', l2', l1'', l2'', p + c, d, n - c, q + c, g);
    EdgesJoin(l1', l1'', p, c, d, n);
  }

  lemma MappingEnd(l1: seq<nat>, l2: map<nat, seq<nat>>, l1': seq<nat>, l2': map<nat, seq<nat>>, p: nat, n: nat,
                   q: nat, g: Access)
    requires Mapping(l1, l2, l1', l2', p, n, n, q, g)
    ensures MapsRange(l1, l2, l1', l2', p, n, q, g) && EdgesAreTables(l1', p, n)
  {
  }

  lemma Advance(a: nat, d: nat)
    ensures (a + PAGE_SIZE * d) / PAGE_SIZE == a / PAGE_SIZE + d
  {
    Decode(a + PAGE_SIZE * d, PAGE_SIZE, a / PAGE_SIZE + d, a % PAGE_SIZE);
  }

  /** A virtual address taken apart by the entries that map it. */
  lemma SplitAddress(a: nat)
    ensures var m, s, r := a / SECTION_SIZE, a / PAGE_SIZE % 256, a % PAGE_SIZE;
            && a % SECTION_SIZE == s * PAGE_SIZE + r
            && a % LARGE_SECTION_SIZE == (m % 16 * 256 + s) * PAGE_SIZE + r
            && a % LARGE_PAGE_SIZE == s % 16 * PAGE_SIZE + r
  {
    var p, r := a / PAGE_SIZE, a % PAGE_SIZE;
    var m, s := p / 256, p % 256;
    assert a == PAGE_SIZE * p + r && p == 256 * m + s;
    Decode(a, SECTION_SIZE, m, s * PAGE_SIZE + r);
    Decode(a, LARGE_SECTION_SIZE, m / 16, (m % 16 * 256 + s) * PAGE_SIZE + r);
    Decode(a, LARGE_PAGE_SIZE, 16 * m + s / 16, s % 16 * PAGE_SIZE + r);
  }

  /** The entry and the word for an address name its page. */
  lemma PageOfAddress(a: nat)
    ensures 256 * (a / SECTION_SIZE) + a / PAGE_SIZE % 256 == a / PAGE_SIZE
  {
    InFrame(a, a / PAGE_SIZE);
  }

  /** Every byte of a range that was mapped translates to its place, exactly if the range and the memory it is
      mapped to begin at the same offset in a page; bytes of other pages translate as before. */
  lemma MappedBytes(l1: seq<nat>, l2: map<nat, seq<nat>>, l1': seq<nat>, l2': map<nat, seq<nat>>,
                    p_addr: nat, v_addr: nat, size: nat, g: Access, a: nat)
    requires MapsRange(l1, l2, l1', l2', v_addr / PAGE_SIZE, PageCount(size + v_addr % PAGE_SIZE), p_addr / PAGE_SIZE,
                       g)
    ensures v_addr <= a < v_addr + size ==>
              (Translate(l1', l2', a) == Some(p_addr + (a - v_addr)) <==> p_addr % PAGE_SIZE == v_addr % PAGE_SIZE)
    ensures var first, n := v_addr - v_addr % PAGE_SIZE, PageCount(size + v_addr % PAGE_SIZE);
            !(first <= a < first + PAGE_SIZE * n) ==>
              Translate(l1', l2', a) == Translate(l1, l2, a)
  {
    hide Lookup;
    PageOfAddress(a);
  }

  /** Every section that size bytes from page p on cover in part only has a table. */
  ghost predicate PartsAreTables(l1: seq<nat>, p: nat, size: nat) {
    forall m :: 0 <= m < |l1| && Touches(p, PageCount(size), m) && !Covered(p, size, m) ==> IsTable(l1[m])
  }

  lemma WholePages(size: nat)
    requires size % PAGE_SIZE == 0
    ensures PageCount(size) == size / PAGE_SIZE && size == PAGE_SIZE * (size / PAGE_SIZE)
  {
  }

  /** For whole pages the two notions of covering a section agree. */
  lemma EdgesAreParts(l1: seq<nat>, p: nat, n: nat, size: nat)
    requires EdgesAreTables(l1, p, n) && size == PAGE_SIZE * n
    ensures PartsAreTables(l1, p, size)
  {
    WholePages(size);
  }

  lemma PagesAfter(size: nat, c: nat)
    requires PAGE_SIZE * c <= size
    ensures PageCount(size) == c + PageCount(size - PAGE_SIZE * c)
  {
    Advance(size - PAGE_SIZE * c + PAGE_SIZE - 1, c);
  }

  lemma CoveredSections(p: nat, size: nat)
    requires p % 256 == 0
    ensures PageCount(size) == 256 * (size / SECTION_SIZE) + PageCount(size % SECTION_SIZE)
    ensures 256 * (p / 256) == p && PageCount(0) == 0
    ensures size == PAGE_SIZE * (256 * (size / SECTION_SIZE)) + size % SECTION_SIZE
  {
    PagesAfter(size, 256 * (size / SECTION_SIZE));
  }

  /** A range that starts inside a section, or is shorter, covers the section of its start in part. */
  lemma PartOfSection(l1: seq<nat>, p: nat, size: nat)
    requires PartsAreTables(l1, p, size) && p + PageCount(size) <= 256 * |l1|
    requires size / SECTION_SIZE == 0 || p % 256 != 0
    ensures size > 0 ==> p / 256 < |l1| && IsTable(l1[p / 256])
    ensures PAGE_SIZE * (p % 256) + size <= SECTION_SIZE ==> p % 256 + PageCount(size) <= 256
  {
    if size > 0 {
      assert PageCount(size) > 0 by { assert size + PAGE_SIZE - 1 >= PAGE_SIZE; }
      assert Touches(p, PageCount(size), p / 256) && !Covered(p, size, p / 256);
    }
  }

  lemma FirstPart(p: nat)
    ensures var bytes := SECTION_SIZE - PAGE_SIZE * (p % 256);
            bytes == PAGE_SIZE * (256 - p % 256) && PageCount(bytes) == 256 - p % 256
  {
    WholePages(PAGE_SIZE * (256 - p % 256));
  }

  /** After the first c pages the rest of the bytes still has its tables. */
  lemma RestParts(l1: seq<nat>, l1': seq<nat>, p: nat, c: nat, size: nat, rest: nat)
    requires PartsAreTables(l1, p, size) && |l1'| == |l1| && (p + c) % 256 == 0
    requires size == PAGE_SIZE * c + rest
    requires forall m :: 0 <= m < |l1| && 256 * m >= p + c ==> l1'[m] == l1[m]
    ensures PartsAreTables(l1', p + c, rest) && PageCount(size) == c + PageCount(rest)
  {
    PagesAfter(size, c);
    forall m | 0 <= m < |l1'| && Touches(p + c, PageCount(rest), m) && !Covered(p + c, rest, m)
      ensures IsTable(l1'[m])
    {
      assert 256 * m >= p + c by {
        var x := (p + c) / 256;
        assert p + c == 256 * x;
      }
      assert Touches(p, PageCount(size), m) && !Covered(p, size, m);
    }
  }

  lemma NextAddress(vaddr: nat, p: nat, bytes: nat, c: nat)
    requires vaddr == PAGE_SIZE * p && bytes == PAGE_SIZE * c
    ensures (vaddr + bytes) / PAGE_SIZE == p + c
  {
    Advance(vaddr, c);
    Decode(vaddr, PAGE_SIZE, p, 0);
  }
}
