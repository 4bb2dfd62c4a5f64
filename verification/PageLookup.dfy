/** Descriptors of the two-level page tables (ARM short-descriptor format, section B3.5.1 of ARM DDI
    0406C) and the translation they stand for, with the access they grant. Addresses and descriptors are
    naturals, bit fields are quotients and remainders, and the translation is stated page by page. */
module PageLookup {
  import opened Utils
  import opened Arith
  import opened PageAccess

  const PAGE_SIZE: nat := 0x1000
  const LARGE_PAGE_SIZE: nat := 0x1_0000
  const SECTION_SIZE: nat := 0x10_0000
  const LARGE_SECTION_SIZE: nat := 0x100_0000
  const L2PGT_SIZE: nat := 1024
  const L2_ENTRIES: nat := 256

  // L1 entry types
  const L2_PGT: nat := 1
  const SECTION: nat := 2
  const SUPERSECTION: nat := 0x4_0002
  // L2 entry types
  const LARGEPAGE: nat := 1
  const SMALLPAGE: nat := 2

  // ----- Translation -----

  predicate IsSection(e: nat) {
    Bit(e, 2)
  }

  predicate IsTable(e: nat) {
    e % 4 == L2_PGT
  }

  /** The physical address of the second-level table that an entry points to. */
  function TableOf(e: nat): nat {
    e / L2PGT_SIZE * L2PGT_SIZE
  }

  // A page is named by its first-level entry m and its place s < 256 under that entry: page 256 * m + s.

  /** A physical page, and what access to it is granted. */
  datatype Page = Page(frame: nat, access: Access)

  /** What a second-level entry makes of its page s. */
  function WordLookup(w: nat, s: nat): Option<Page> {
    if Bit(w, 2) then Some(Page(w / PAGE_SIZE, AccessOf(SmallPageFields(w))))
    else if Bit(w, 1) then Some(Page(w / LARGE_PAGE_SIZE * 16 + s % 16, AccessOf(LargePageFields(w))))
    else None
  }

  /** The frame of page (m, s) in a supersection or section. */
  function SectionFrame(e: nat, m: nat, s: nat): nat {
    if Bit(e, 0x4_0000) then e / LARGE_SECTION_SIZE * 4096 + m % 16 * 256 + s else e / SECTION_SIZE * 256 + s
  }

  /** What a first-level entry makes of page (m, s); l2 holds the second-level tables. */
  function EntryLookup(e: nat, l2: map<nat, seq<nat>>, m: nat, s: nat): Option<Page>
    requires s < L2_ENTRIES
  {
    if IsSection(e) then Some(Page(SectionFrame(e, m, s), AccessOf(SectionFields(e))))
    else if Bit(e, 1) && TableOf(e) in l2 && |l2[TableOf(e)]| == L2_ENTRIES then WordLookup(l2[TableOf(e)][s], s)
    else None
  }

  /** The physical page that page (m, s) is mapped to. */
  function Lookup(l1: seq<nat>, l2: map<nat, seq<nat>>, m: nat, s: nat): Option<Page>
    requires s < L2_ENTRIES
  {
    if m < |l1| then EntryLookup(l1[m], l2, m, s) else None
  }

  /** The physical address of a virtual one. */
  function Translate(l1: seq<nat>, l2: map<nat, seq<nat>>, v: nat): Option<nat> {
    match Lookup(l1, l2, v / SECTION_SIZE, v / PAGE_SIZE % 256)
    case None => None
    case Some(page) => Some(page.frame * PAGE_SIZE + v % PAGE_SIZE)
  }

  // ----- The four kinds of entries -----

  lemma Decode(e: nat, b: nat, x: nat, r: nat)
    requires b > 0 && r < b && e == b * x + r
    ensures e / b == x && e % b == r
  {
    DivUnique(e, b, x, r);
  }

  /** Entries with flags whose two low bits are clear. */
  lemma TypeBits(e: nat, y: nat, t: nat)
    requires e == 4 * y + t && t < 4
    ensures e % 4 == t && Bit(e, 1) == (t % 2 == 1) && Bit(e, 2) == (t >= 2)
  {
    Decode(e, 4, y, t);
    Decode(e, 2, 2 * y + t / 2, t % 2);
    Decode(2 * y + t / 2, 2, y, t / 2);
  }

  lemma SuperSectionEntry(flags: nat, x: nat, l2: map<nat, seq<nat>>, m: nat, s: nat)
    requires FlagsOk(flags) && s < L2_ENTRIES
    ensures var e := x * LARGE_SECTION_SIZE + flags + SUPERSECTION;
            && e % 4 == SECTION && !IsTable(e)
            && EntryLookup(e, l2, m, s) == Some(Page(x * 4096 + m % 16 * 256 + s, FlagsAccess(flags)))
  {
    FlagsBounds(flags);
    hide FlagsOk, FlagsAccess, AccessOf, SectionFields;
    var e := x * LARGE_SECTION_SIZE + flags + SUPERSECTION;
    SectionGrants(e, 64 * x + 1, flags, 2);
    TypeBits(e, x * 0x40_0000 + flags / 4 + 0x1_0000, 2);
    Decode(e, LARGE_SECTION_SIZE, x, flags + SUPERSECTION);
    Decode(e, 0x4_0000, 64 * x + 1, flags + 2);
    Decode(64 * x + 1, 2, 32 * x, 1);
  }

  lemma SectionEntry(flags: nat, x: nat, l2: map<nat, seq<nat>>, m: nat, s: nat)
    requires FlagsOk(flags) && s < L2_ENTRIES
    ensures var e := x * SECTION_SIZE + flags + SECTION;
            && e % 4 == SECTION && !IsTable(e)
            && EntryLookup(e, l2, m, s) == Some(Page(x * 256 + s, FlagsAccess(flags)))
  {
    FlagsBounds(flags);
    hide FlagsOk, FlagsAccess, AccessOf, SectionFields;
    var e := x * SECTION_SIZE + flags + SECTION;
    SectionGrants(e, 4 * x, flags, 2);
    TypeBits(e, x * 0x4_0000 + flags / 4, 2);
    Decode(e, SECTION_SIZE, x, flags + 2);
    Decode(e, 0x4_0000, 4 * x, flags + 2);
    Decode(4 * x, 2, 2 * x, 0);
  }

  lemma LargePageEntry(flags: nat, x: nat, s: nat)
    requires FlagsOk(flags)
    ensures WordLookup(x * LARGE_PAGE_SIZE + LargePageFlags(flags) + LARGEPAGE, s)
         == Some(Page(x * 16 + s % 16, FlagsAccess(flags)))
  {
    var pflags := LargePageFlags(flags);
    var w := x * LARGE_PAGE_SIZE + pflags + LARGEPAGE;
    LargePageGrants(w, x, flags);
    hide FlagsOk, FlagsAccess, AccessOf, LargePageFields;
    TypeBits(w, x * 0x4000 + pflags / 4, 1);
    Decode(w, LARGE_PAGE_SIZE, x, pflags + 1);
  }

  lemma SmallPageEntry(flags: nat, x: nat, s: nat)
    requires FlagsOk(flags)
    ensures WordLookup(x * PAGE_SIZE + SmallPageFlags(flags) + SMALLPAGE, s) == Some(Page(x, FlagsAccess(flags)))
  {
    var pflags := SmallPageFlags(flags);
    var w := x * PAGE_SIZE + pflags + SMALLPAGE;
    SmallPageGrants(w, x, flags);
    hide FlagsOk, FlagsAccess, AccessOf, SmallPageFields;
    TypeBits(w, x * 0x400 + pflags / 4, pflags % 4 + 2);
    Decode(w, PAGE_SIZE, x, pflags + 2);
  }

  /** An entry that points to table t. */
  lemma TableEntry(t: nat)
    requires t % L2PGT_SIZE == 0
    ensures IsTable(t + L2_PGT) && TableOf(t + L2_PGT) == t
  {
    var k := t / L2PGT_SIZE;
    TypeBits(t + 1, 256 * k, 1);
    Decode(t + 1, L2PGT_SIZE, k, 1);
  }

  lemma TableKind(e: nat)
    requires IsTable(e)
    ensures !IsSection(e) && Bit(e, 1)
  {
    TypeBits(e, e / 4, 1);
  }

  lemma SectionKind(e: nat)
    requires e % 4 == SECTION
    ensures IsSection(e) && !Bit(e, 1)
  {
    TypeBits(e, e / 4, 2);
  }

  // ----- Well-formed tables -----

  predicate EntryOk(e: nat, l2: map<nat, seq<nat>>) {
    e == 0 || e % 4 == SECTION || (IsTable(e) && TableOf(e) in l2 && |l2[TableOf(e)]| == L2_ENTRIES)
  }

  /** Every entry is empty, a section or a pointer to a table of 256 words that no other entry has. */
  ghost predicate TablesOk(l1: seq<nat>, l2: map<nat, seq<nat>>) {
    && (forall m :: 0 <= m < |l1| ==> EntryOk(l1[m], l2))
    && forall m, n | 0 <= m < |l1| && 0 <= n < |l1| && IsTable(l1[m]) && IsTable(l1[n]) ::
         TableOf(l1[m]) == TableOf(l1[n]) ==> m == n
  }

  /** No translation differs, and no access. */
  ghost predicate SameLookups(l1: seq<nat>, l2: map<nat, seq<nat>>, l1': seq<nat>, l2': map<nat, seq<nat>>) {
    forall m: nat, s: nat | s < L2_ENTRIES :: Lookup(l1', l2', m, s) == Lookup(l1, l2, m, s)
  }

  /** The pages p to p + n - 1 map to q, q + 1, and so on, with access g; every other page maps as before. */
  ghost predicate MapsRange(l1: seq<nat>, l2: map<nat, seq<nat>>, l1': seq<nat>, l2': map<nat, seq<nat>>,
                            p: nat, n: nat, q: nat, g: Access) {
    forall m: nat, s: nat | s < L2_ENTRIES ::
      Lookup(l1', l2', m, s) ==
        if p <= 256 * m + s < p + n then Some(Page(q + (256 * m + s - p), g)) else Lookup(l1, l2, m, s)
  }

  /** The pages p to p + n - 1 map nowhere; every other page maps as before. */
  ghost predicate UnmapsRange(l1: seq<nat>, l2: map<nat, seq<nat>>, l1': seq<nat>, l2': map<nat, seq<nat>>,
                              p: nat, n: nat) {
    forall m: nat, s: nat | s < L2_ENTRIES ::
      Lookup(l1', l2', m, s) == if p <= 256 * m + s < p + n then None else Lookup(l1, l2, m, s)
  }

  /** The pages p to p + n - 1 map nowhere. */
  ghost predicate Unmapped(l1: seq<nat>, l2: map<nat, seq<nat>>, p: nat, n: nat) {
    forall m: nat, s: nat | s < L2_ENTRIES && p <= 256 * m + s < p + n :: Lookup(l1, l2, m, s) == None
  }

  /** Some page of entry m is among the n pages from p on. */
  predicate Touches(p: nat, n: nat, m: nat) {
    n > 0 && p < 256 * m + 256 && 256 * m < p + n
  }

  /** All pages of entry m are. */
  predicate Inside(p: nat, n: nat, m: nat) {
    p <= 256 * m && 256 * m + 256 <= p + n
  }

  /** Wherever a range covers part of an entry's pages only, the entry points to a table. */
  ghost predicate EdgesAreTables(l1: seq<nat>, p: nat, n: nat) {
    forall m :: 0 <= m < |l1| && Touches(p, n, m) && !Inside(p, n, m) ==> IsTable(l1[m])
  }

  /** So far, after the first c of n pages. */
  ghost predicate EdgesSoFar(l1: seq<nat>, p: nat, c: nat, n: nat) {
    forall m :: 0 <= m < |l1| && Touches(p, c, m) && !Inside(p, n, m) ==> IsTable(l1[m])
  }

  /** The first c of n pages are mapped, the others not yet. */
  ghost predicate Mapping(l1: seq<nat>, l2: map<nat, seq<nat>>, l1': seq<nat>, l2': map<nat, seq<nat>>,
                          p: nat, c: nat, n: nat, q: nat, g: Access) {
    && c <= n && MapsRange(l1, l2, l1', l2', p, c, q, g)
    && Unmapped(l1', l2', p + c, n - c) && EdgesSoFar(l1', p, c, n)
  }

  /** Entries keep their tables unless all their pages are among the n pages from p on. */
  ghost predicate KeepsTables(l1: seq<nat>, l1': seq<nat>, p: nat, n: nat) {
    |l1'| == |l1| && forall m :: 0 <= m < |l1| && IsTable(l1[m]) && !Inside(p, n, m) ==> IsTable(l1'[m])
  }

  /** The section of entry m lies wholly within size bytes from page p on. */
  predicate Covered(p: nat, size: nat, m: nat) {
    p <= 256 * m && SECTION_SIZE * (m + 1) <= PAGE_SIZE * p + size
  }

  /** size bytes in pages, rounded up. */
  function PageCount(size: nat): nat {
    (size + PAGE_SIZE - 1) / PAGE_SIZE
  }
}
