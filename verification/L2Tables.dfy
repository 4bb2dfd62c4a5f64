/** The second-level tables and their allocator, whose free tables are linked through their first
    words and are otherwise zero. */
module L2Tables {
  import opened Utils
  import opened Arith
  import opened PageAccess
  import opened PageLookup
  import opened PageWrites

  const NULL: nat := 0

  /** An empty second-level table, but for its first word. */
  function Blank(first: nat): (w: seq<nat>)
    ensures |w| == L2_ENTRIES && w[0] == first && forall i :: 1 <= i < L2_ENTRIES ==> w[i] == 0
  {
    seq(L2_ENTRIES, i => if i == 0 then first else 0)
  }

  function SetWord(w: seq<nat>, i: nat, value: nat): seq<nat>
    requires i < |w|
  {
    w[i := value]
  }

  function LinkAt(s: seq<nat>, i: nat): nat {
    if i < |s| then s[i] else NULL
  }

  /** The free tables: distinct, linked from top, and zero but for the link word. */
  ghost predicate FreeChain(top: nat, s: seq<nat>, l2: map<nat, seq<nat>>) {
    && top == LinkAt(s, 0)
    && (forall i :: 0 <= i < |s| ==> s[i] > 0 && s[i] in l2 && l2[s[i]] == Blank(LinkAt(s, i + 1)))
    && forall i, j :: 0 <= i < j < |s| ==> s[i] != s[j]
  }

  lemma NullTop(top: nat, s: seq<nat>, l2: map<nat, seq<nat>>)
    requires FreeChain(top, s, l2)
    ensures top == NULL <==> s == []
  {
  }

  /** Free tables are attached nowhere. */
  ghost predicate Detached(l1: seq<nat>, s: seq<nat>) {
    forall m :: 0 <= m < |l1| && IsTable(l1[m]) ==> TableOf(l1[m]) !in s
  }

  /** MemoryGet hands out distinct pages. */
  ghost predicate SupplyOk(supply: nat -> nat) {
    && (forall i: nat :: supply(i) > 0 && supply(i) % PAGE_SIZE == 0)
    && forall i: nat, j: nat :: supply(i) == supply(j) ==> i == j
  }

  /** Every table is a quarter of a page handed out before. */
  ghost predicate Supplied(l2: map<nat, seq<nat>>, supply: nat -> nat, handed: nat) {
    forall t :: t in l2 ==> SuppliedTable(t, supply, handed)
  }

  ghost predicate SuppliedTable(t: nat, supply: nat -> nat, handed: nat) {
    exists i: nat, j: nat :: i < handed && j < 4 && t == Quarter(supply(i), j)
  }

  function Quarter(page: nat, j: nat): nat {
    page + j * L2PGT_SIZE
  }

  lemma QuarterUnique(supply: nat -> nat, i: nat, j: nat, i': nat, j': nat)
    requires SupplyOk(supply) && j < 4 && j' < 4 && Quarter(supply(i), j) == Quarter(supply(i'), j')
    ensures i == i' && j == j'
  {
    var p, p' := supply(i) / PAGE_SIZE, supply(i') / PAGE_SIZE;
    assert supply(i) == PAGE_SIZE * p && supply(i') == PAGE_SIZE * p';
  }

  lemma QuarterAligned(supply: nat -> nat, i: nat, j: nat)
    requires SupplyOk(supply) && j < 4
    ensures Quarter(supply(i), j) % L2PGT_SIZE == 0
  {
    var p := supply(i) / PAGE_SIZE;
    Decode(Quarter(supply(i), j), L2PGT_SIZE, 4 * p + j, 0);
  }

  ghost predicate TablesInv(l1: seq<nat>, l2: map<nat, seq<nat>>, top: nat, s: seq<nat>, supply: nat -> nat,
                            handed: nat) {
    && TablesOk(l1, l2) && FreeChain(top, s, l2) && Detached(l1, s)
    && SupplyOk(supply) && Supplied(l2, supply, handed)
  }

  /** The four tables of page p, the first i of them linked to the next. */
  function Linking(p: nat, i: nat): map<nat, seq<nat>> {
    map[Quarter(p, 0) := Blank(if i > 0 then Quarter(p, 1) else NULL),
        Quarter(p, 1) := Blank(if i > 1 then Quarter(p, 2) else NULL),
        Quarter(p, 2) := Blank(if i > 2 then Quarter(p, 3) else NULL),
        Quarter(p, 3) := Blank(NULL)]
  }

  lemma LinkingStep(l2: map<nat, seq<nat>>, p: nat, i: nat)
    requires i < 3
    ensures var m := l2 + Linking(p, i);
            && Quarter(p, i) in m && m[Quarter(p, i)] == Blank(NULL)
            && m[Quarter(p, i) := Blank(Quarter(p, i + 1))] == l2 + Linking(p, i + 1)
  {
    var m := l2 + Linking(p, i);
    var m', n := m[Quarter(p, i) := Blank(Quarter(p, i + 1))], l2 + Linking(p, i + 1);
    assert m'.Keys == n.Keys;
  }

  lemma SetLink(first: nat, next: nat)
    ensures SetWord(Blank(first), 0, next) == Blank(next)
  {
  }

  /** The four new tables that a page is cut into, linked. */
  function NewTables(p: nat): map<nat, seq<nat>> {
    Linking(p, 3)
  }

  function Quarters(p: nat): seq<nat> {
    [Quarter(p, 0), Quarter(p, 1), Quarter(p, 2), Quarter(p, 3)]
  }

  lemma NewTablesApart(l2: map<nat, seq<nat>>, supply: nat -> nat, handed: nat, t: nat)
    requires SupplyOk(supply) && Supplied(l2, supply, handed) && t in l2
    ensures t !in NewTables(supply(handed))
  {
    assert SuppliedTable(t, supply, handed);
    var i, j :| 0 <= i < handed && 0 <= j < 4 && t == Quarter(supply(i), j);
    if t in NewTables(supply(handed)) {
      var k: nat :| k < 4 && t == Quarter(supply(handed), k);
      QuarterUnique(supply, handed, k, i, j);
    }
  }

  lemma NewTablesSupplied(l2: map<nat, seq<nat>>, supply: nat -> nat, handed: nat)
    requires SupplyOk(supply) && Supplied(l2, supply, handed)
    ensures Supplied(l2 + NewTables(supply(handed)), supply, handed + 1)
  {
    var p := supply(handed);
    forall t | t in l2 + NewTables(p)
      ensures SuppliedTable(t, supply, handed + 1)
    {
      if t in l2 {
        assert SuppliedTable(t, supply, handed);
      } else {
        var k: nat :| k < 4 && t == Quarter(p, k);
        assert handed < handed + 1;
      }
    }
  }

  /** Cutting a page that MemoryGet just handed out into tables. */
  lemma NewTablesInv(l1: seq<nat>, l2: map<nat, seq<nat>>, supply: nat -> nat, handed: nat)
    requires TablesInv(l1, l2, NULL, [], supply, handed)
    ensures var p := supply(handed);
            && TablesInv(l1, l2 + NewTables(p), p, Quarters(p), supply, handed + 1)
            && (forall t :: t in l2 ==> (l2 + NewTables(p))[t] == l2[t])
            && SameLookups(l1, l2, l1, l2 + NewTables(p))
  {
    var p := supply(handed);
    forall t | t in l2
      ensures t !in NewTables(p)
    {
      NewTablesApart(l2, supply, handed, t);
    }
    NewTablesSupplied(l2, supply, handed);
    NewChain(l2, p);
    AttachedKnown(l1, l2);
    LookupFrame(l1, l2, l2 + NewTables(p));
    assert forall t :: t in Quarters(p) ==> t in NewTables(p);
  }

  lemma NewChain(l2: map<nat, seq<nat>>, p: nat)
    requires p > 0
    ensures FreeChain(p, Quarters(p), l2 + NewTables(p))
  {
    var s := Quarters(p);
    assert s[0] == p && s[1] == p + 1024 && s[2] == p + 2048 && s[3] == p + 3072;
    forall i | 0 <= i < 4
      ensures s[i] in NewTables(p) && NewTables(p)[s[i]] == Blank(LinkAt(s, i + 1))
    {
    }
  }

  lemma AttachedKnown(l1: seq<nat>, l2: map<nat, seq<nat>>)
    requires TablesOk(l1, l2)
    ensures forall m :: 0 <= m < |l1| && IsTable(l1[m]) ==> TableOf(l1[m]) in l2 && |l2[TableOf(l1[m])]| == L2_ENTRIES
  {
    forall m | 0 <= m < |l1| && IsTable(l1[m])
      ensures TableOf(l1[m]) in l2 && |l2[TableOf(l1[m])]| == L2_ENTRIES
    {
      TableKind(l1[m]);
    }
  }

  /** Translations depend on the attached tables only. */
  lemma LookupFrame(l1: seq<nat>, l2: map<nat, seq<nat>>, l2': map<nat, seq<nat>>)
    requires TablesOk(l1, l2)
    requires forall m :: 0 <= m < |l1| && IsTable(l1[m]) ==>
               TableOf(l1[m]) in l2' && l2'[TableOf(l1[m])] == l2[TableOf(l1[m])]
    ensures TablesOk(l1, l2')
    ensures SameLookups(l1, l2, l1, l2')
  {
  }

  /** Taking the first free table. */
  lemma PopTable(l1: seq<nat>, l2: map<nat, seq<nat>>, top: nat, s: seq<nat>, supply: nat -> nat, handed: nat)
    requires TablesInv(l1, l2, top, s, supply, handed) && s != []
    ensures top in l2 && l2[top] == Blank(LinkAt(s, 1)) && top % L2PGT_SIZE == 0 && top !in s[1..]
    ensures TablesInv(l1, l2[top := Blank(0)], LinkAt(s, 1), s[1..], supply, handed)
    ensures forall m :: 0 <= m < |l1| && IsTable(l1[m]) ==> TableOf(l1[m]) != top
    ensures SameLookups(l1, l2, l1, l2[top := Blank(0)])
  {
    assert top in s && SuppliedTable(top, supply, handed);
    var i: nat, j: nat :| i < handed && j < 4 && top == Quarter(supply(i), j);
    QuarterAligned(supply, i, j);
    AttachedKnown(l1, l2);
    LookupFrame(l1, l2, l2[top := Blank(0)]);
    assert forall t :: t in s[1..] ==> t in s;
    forall t | t in l2[top := Blank(0)]
      ensures SuppliedTable(t, supply, handed)
    {
      assert t in l2;
    }
  }

  lemma PushChain(l2: map<nat, seq<nat>>, top: nat, s: seq<nat>, t: nat)
    requires FreeChain(top, s, l2) && t !in s && t > 0
    ensures FreeChain(t, [t] + s, l2[t := Blank(top)])
  {
    var s', l2' := [t] + s, l2[t := Blank(top)];
    forall k | 0 <= k < |s'|
      ensures s'[k] > 0 && s'[k] in l2' && l2'[s'[k]] == Blank(LinkAt(s', k + 1))
    {
      if k > 0 {
        assert s'[k] == s[k - 1] && LinkAt(s', k + 1) == LinkAt(s, k);
      }
    }
  }

  /** Returning a table that no entry points to any more. */
  lemma PushTable(l1: seq<nat>, l2: map<nat, seq<nat>>, top: nat, s: seq<nat>, supply: nat -> nat, handed: nat, t: nat)
    requires TablesInv(l1, l2, top, s, supply, handed) && t in l2 && t !in s
    requires forall m :: 0 <= m < |l1| && IsTable(l1[m]) ==> TableOf(l1[m]) != t
    ensures TablesInv(l1, l2[t := Blank(top)], t, [t] + s, supply, handed)
    ensures SameLookups(l1, l2, l1, l2[t := Blank(top)])
  {
    var l2' := l2[t := Blank(top)];
    assert t > 0 by {
      assert SuppliedTable(t, supply, handed);
    }
    LookupFrame(l1, l2, l2');
    PushChain(l2, top, s, t);
    forall u | u in l2'
      ensures SuppliedTable(u, supply, handed)
    {
      assert u in l2;
    }
  }

  /** Writing sections over first-level entries. */
  lemma InvAfterSections(l1: seq<nat>, l1': seq<nat>, l2: map<nat, seq<nat>>, top: nat, s: seq<nat>,
                         supply: nat -> nat, handed: nat)
    requires TablesInv(l1, l2, top, s, supply, handed) && TablesOk(l1', l2) && |l1'| == |l1|
    requires forall j :: 0 <= j < |l1| ==> l1'[j] == l1[j] || !IsTable(l1'[j])
    ensures TablesInv(l1', l2, top, s, supply, handed)
  {
  }

  /** Writing words of an attached table. */
  lemma InvAfterWords(l1: seq<nat>, l2: map<nat, seq<nat>>, top: nat, s: seq<nat>, supply: nat -> nat, handed: nat,
                      m: nat, w: seq<nat>)
    requires TablesInv(l1, l2, top, s, supply, handed) && m < |l1| && IsTable(l1[m])
    requires TablesOk(l1, l2[TableOf(l1[m]) := w])
    ensures TablesInv(l1, l2[TableOf(l1[m]) := w], top, s, supply, handed)
  {
    AttachedKnown(l1, l2);
    var t := TableOf(l1[m]);
    assert t !in s;
    forall u | u in l2[t := w]
      ensures SuppliedTable(u, supply, handed)
    {
      assert u in l2;
    }
  }

  /** Attaching a table that is neither free nor attached. */
  lemma InvAfterAttach(l1: seq<nat>, l2: map<nat, seq<nat>>, top: nat, s: seq<nat>, supply: nat -> nat, handed: nat,
                       m: nat, t: nat)
    requires TablesInv(l1, l2, top, s, supply, handed) && m < |l1| && l1[m] == 0
    requires t % L2PGT_SIZE == 0 && t in l2 && l2[t] == Blank(0) && t !in s
    requires forall j :: 0 <= j < |l1| && IsTable(l1[j]) ==> TableOf(l1[j]) != t
    ensures TablesInv(l1[m := t + L2_PGT], l2, top, s, supply, handed)
    ensures IsTable(t + L2_PGT) && TableOf(t + L2_PGT) == t
    ensures SameLookups(l1, l2, l1[m := t + L2_PGT], l2)
  {
    BlankWords(l2[t]);
    AttachKeeps(l1, l2, m, t);
    TableEntry(t);
    DetachedAttach(l1, s, m, t);
  }

  lemma BlankWords(w: seq<nat>)
    requires w == Blank(0)
    ensures |w| == L2_ENTRIES && forall i :: 0 <= i < L2_ENTRIES ==> w[i] == 0
  {
  }

  lemma DetachedAttach(l1: seq<nat>, s: seq<nat>, m: nat, t: nat)
    requires Detached(l1, s) && m < |l1| && TableOf(t + L2_PGT) == t && t !in s
    ensures Detached(l1[m := t + L2_PGT], s)
  {
  }

  /** An entry whose page maps nowhere is empty or points to a table. */
  lemma UnmappedEntry(l1: seq<nat>, l2: map<nat, seq<nat>>, m: nat, s: nat)
    requires TablesOk(l1, l2) && m < |l1| && s < L2_ENTRIES && Lookup(l1, l2, m, s) == None && l1[m] != 0
    ensures IsTable(l1[m]) && TableOf(l1[m]) in l2 && |l2[TableOf(l1[m])]| == L2_ENTRIES
  {
    assert EntryOk(l1[m], l2);
    if l1[m] % 4 == SECTION {
      SectionKind(l1[m]);
    }
  }

  /** Clearing an entry and, if it has one, handing its table back. */
  lemma ClearEntry(l1: seq<nat>, l2: map<nat, seq<nat>>, top: nat, s: seq<nat>, supply: nat -> nat, handed: nat, m: nat)
    requires TablesInv(l1, l2, top, s, supply, handed) && m < |l1|
    ensures !Bit(l1[m], 1) ==>
              TablesInv(l1[m := 0], l2, top, s, supply, handed) && UnmapsRange(l1, l2, l1[m := 0], l2, 256 * m, 256)
    ensures Bit(l1[m], 1) ==>
              var t := TableOf(l1[m]);
              && t in l2 && |l2[t]| == L2_ENTRIES
              && TablesInv(l1[m := 0], l2[t := Blank(top)], t, [t] + s, supply, handed)
              && UnmapsRange(l1, l2, l1[m := 0], l2[t := Blank(top)], 256 * m, 256)
  {
    var l1' := l1[m := 0];
    ClearEntryUnmaps(l1, l2, m);
    InvAfterSections(l1, l1', l2, top, s, supply, handed);
    assert EntryOk(l1[m], l2);
    if Bit(l1[m], 1) {
      if l1[m] % 4 == SECTION { SectionKind(l1[m]); }
      var t := TableOf(l1[m]);
      PushTable(l1', l2, top, s, supply, handed, t);
      UnmapsThenSame(l1, l2, l1', l2, l1', l2[t := Blank(top)], 256 * m, 256);
    }
  }

  lemma InvOk(l1: seq<nat>, l2: map<nat, seq<nat>>, top: nat, s: seq<nat>, supply: nat -> nat, handed: nat)
    requires TablesInv(l1, l2, top, s, supply, handed)
    ensures TablesOk(l1, l2)
  {
  }
}
