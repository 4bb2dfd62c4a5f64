/** What the descriptors of the page tables grant (ARM short-descriptor format, sections B3.5.1, B3.7.1 and
    B3.8.2 of ARM DDI 0406C), and the flags that a memory configuration is turned into. Bit fields are quotients
    and remainders. */
module PageAccess {
  import opened Arith

  predicate Bit(e: nat, b: nat)
    requires b > 0
  {
    e / b % 2 == 1
  }

  /** The n-valued bit field of f that starts at bit value b. */
  function Field(f: nat, b: nat, n: nat): (r: nat)
    requires b > 0 && n > 0
    ensures r < n
  {
    f / b % n
  }

  // ----- What the hardware grants -----

  datatype Right = NoAccess | ReadOnly | ReadWrite

  /** What the kernel and the user may do, unless the encoding is a reserved one. */
  datatype Rights = Rights(kernel: Right, user: Right) | ReservedRights

  datatype Memory =
    | StronglyOrdered | SharedDevice | PrivateDevice
    | Uncached | WriteThrough | WriteBack | WriteAllocate
    | OtherMemory(tex: nat, cb: nat)

  datatype Access = Access(rights: Rights, memory: Memory, shared: bool, global: bool, executable: bool)

  /** AP[2:0], of which ap is AP[1:0]. */
  function RightsOf(apx: nat, ap: nat): Rights {
    match (apx, ap)
    case (0, 0) => Rights(NoAccess, NoAccess)
    case (0, 1) => Rights(ReadWrite, NoAccess)
    case (0, 2) => Rights(ReadWrite, ReadOnly)
    case (0, 3) => Rights(ReadWrite, ReadWrite)
    case (1, 1) => Rights(ReadOnly, NoAccess)
    case (1, 2) => Rights(ReadOnly, ReadOnly)
    case (1, 3) => Rights(ReadOnly, ReadOnly)
    case _ => ReservedRights
  }

  /** TEX, and C and B in that order. */
  function MemoryOf(tex: nat, cb: nat): Memory {
    match (tex, cb)
    case (0, 0) => StronglyOrdered
    case (0, 1) => SharedDevice
    case (0, 2) => WriteThrough
    case (0, 3) => WriteBack
    case (1, 0) => Uncached
    case (1, 3) => WriteAllocate
    case (2, 0) => PrivateDevice
    case _ => OtherMemory(tex, cb)
  }

  /** The fields of a descriptor. */
  datatype Fields = Fields(cb: nat, xn: nat, ap: nat, tex: nat, apx: nat, s: nat, ng: nat)

  function AccessOf(f: Fields): Access {
    Access(RightsOf(f.apx, f.ap), MemoryOf(f.tex, f.cb), f.s == 1, f.ng == 0, f.xn == 0)
  }

  /** Sections and supersections. */
  function SectionFields(e: nat): Fields {
    Fields(Field(e, 4, 4), Field(e, 0x10, 2), Field(e, 0x400, 4), Field(e, 0x1000, 8), Field(e, 0x8000, 2),
           Field(e, 0x1_0000, 2), Field(e, 0x2_0000, 2))
  }

  function LargePageFields(w: nat): Fields {
    Fields(Field(w, 4, 4), Field(w, 0x8000, 2), Field(w, 0x10, 4), Field(w, 0x1000, 8), Field(w, 0x200, 2),
           Field(w, 0x400, 2), Field(w, 0x800, 2))
  }

  function SmallPageFields(w: nat): Fields {
    Fields(Field(w, 4, 4), Field(w, 1, 2), Field(w, 0x10, 4), Field(w, 0x40, 8), Field(w, 0x200, 2),
           Field(w, 0x400, 2), Field(w, 0x800, 2))
  }

  // ----- Memory configurations -----

  const CPOLICY_WRITEALLOC: nat := 4
  const APOLICY_RONA: nat := 4

  datatype MemCfg = MemCfg(cpolicy: nat, apolicy: nat, shared: bool, executable: bool, global: bool)

  predicate CfgOk(cfg: MemCfg) {
    cfg.cpolicy < 7 && cfg.apolicy < 6
  }

  /** What a configuration asks for. */
  function Asked(cfg: MemCfg): Access
    requires CfgOk(cfg)
  {
    Access(AskedRights(cfg.apolicy), AskedMemory(cfg.cpolicy), cfg.shared, cfg.global, cfg.executable)
  }

  function AskedRights(apolicy: nat): Rights {
    match apolicy
    case 0 => Rights(NoAccess, NoAccess)
    case 1 => Rights(ReadWrite, NoAccess)
    case 2 => Rights(ReadWrite, ReadOnly)
    case 3 => Rights(ReadWrite, ReadWrite)
    case 4 => Rights(ReadOnly, NoAccess)
    case _ => Rights(ReadOnly, ReadOnly)
  }

  function AskedMemory(cpolicy: nat): Memory {
    match cpolicy
    case 0 => StronglyOrdered
    case 1 => Uncached
    case 2 => WriteThrough
    case 3 => WriteBack
    case 4 => WriteAllocate
    case 5 => SharedDevice
    case _ => PrivateDevice
  }

  /** What it gets: read-only for the kernel alone is encoded by AP2 without AP0, which is reserved. */
  function Granted(cfg: MemCfg): Access
    requires CfgOk(cfg)
  {
    if cfg.apolicy == APOLICY_RONA then Asked(cfg).(rights := ReservedRights) else Asked(cfg)
  }

  function CacheCfg(cpolicy: nat): (flags: nat)
    requires cpolicy < 7
    ensures flags % 4 == 0 && flags <= 0x7000 + 0xC
  {
    [0, 0x1000, 0x8, 0xC, 0x100C, 0x4, 0x2000][cpolicy]
  }

  function AccessCfg(apolicy: nat): (flags: nat)
    requires apolicy < 6
    ensures flags % 4 == 0 && flags <= 0x8C00
  {
    [0, 0x400, 0x800, 0xC00, 0x8000, 0x8800][apolicy]
  }

  /** Section flags. The cache bits (2, 3, 12, 13), the access bits (10, 11, 15), S (16), nG (17) and
      XN (4) are distinct, so that or-ing them is adding them. */
  function GetPteFlags(cfg: MemCfg): (flags: nat)
    requires CfgOk(cfg)
    ensures flags % 4 == 0 && flags < 0x4_0000
  {
    CacheCfg(cfg.cpolicy) + AccessCfg(cfg.apolicy)
    + (if cfg.shared then 0x1_0000 else 0)
    + (if cfg.global then 0 else 0x2_0000)
    + (if cfg.executable then 0 else 0x10)
  }

  /** What section flags grant. */
  function FlagsAccess(flags: nat): Access {
    AccessOf(SectionFields(flags))
  }

  /** Section flags rearranged for a large page. */
  function LargePageFlags(f: nat): (flags: nat)
    ensures flags % 4 == 0 && flags < 0x1_0000
  {
    4 * Field(f, 4, 4) + 16 * Field(f, 0x400, 4) + 0x1000 * Field(f, 0x1000, 8)
    + 0x200 * Field(f, 0x8000, 8) + 0x8000 * Field(f, 0x10, 2)
  }

  /** Section flags rearranged for a small page; bit 0 is execute-never. */
  function SmallPageFlags(f: nat): (flags: nat)
    ensures flags % 4 < 2 && flags < 0x1000
  {
    Field(f, 0x10, 2) + 4 * Field(f, 4, 4) + 16 * Field(f, 0x400, 4) + 0x40 * Field(f, 0x1000, 8)
    + 0x200 * Field(f, 0x8000, 8)
  }

  // ----- The fields of flags -----

  /** Flags that hold the given fields. */
  predicate Packed(flags: nat, f: Fields) {
    && f.cb < 4 && f.xn < 2 && f.ap < 4 && f.tex < 8 && f.apx < 2 && f.s < 2 && f.ng < 2
    && flags == 4 * f.cb + 0x10 * f.xn + 0x400 * f.ap + 0x1000 * f.tex + 0x8000 * f.apx + 0x1_0000 * f.s
                + 0x2_0000 * f.ng
  }

  /** A field is what stands between the bits above and below it. */
  lemma FieldIs(e: nat, b: nat, n: nat, above: nat, v: nat, below: nat)
    requires b > 0 && n > 0 && v < n && below < b && e == b * (n * above + v) + below
    ensures Field(e, b, n) == v
  {
    DivUnique(e, b, n * above + v, below);
    DivUnique(n * above + v, n, above, v);
  }

  /** The fields of a section descriptor; the base address above them and the type bits do not matter. */
  lemma SectionFieldsOf(e: nat, y: nat, flags: nat, t: nat, f: Fields)
    requires Packed(flags, f) && t < 4 && e == 0x4_0000 * y + flags + t
    ensures SectionFields(e) == f
  {
    hide Field;
    var a1 := f.cb * 4 + t;
    var a2 := a1 + 0x10 * f.xn;
    var a3 := a2 + 0x400 * f.ap;
    var a4 := a3 + 0x1000 * f.tex;
    var a5 := a4 + 0x8000 * f.apx;
    var b6 := 2 * y + f.ng;
    var b5 := 2 * b6 + f.s;
    var b4 := 2 * b5 + f.apx;
    var b3 := 8 * b4 + f.tex;
    FieldIs(e, 0x2_0000, 2, y, f.ng, a5 + 0x1_0000 * f.s);
    FieldIs(e, 0x1_0000, 2, b6, f.s, a5);
    FieldIs(e, 0x8000, 2, b5, f.apx, a4);
    FieldIs(e, 0x1000, 8, b4, f.tex, a3);
    FieldIs(e, 0x400, 4, b3, f.ap, a2);
    FieldIs(e, 0x10, 2, 0x20 * (4 * b3 + f.ap), f.xn, a1);
    FieldIs(e, 4, 4, 2 * (0x20 * (4 * b3 + f.ap)) + f.xn, f.cb, t);
  }

  /** Flags with nothing but the fields of a section descriptor. */
  predicate FlagsOk(flags: nat) {
    Packed(flags, SectionFields(flags))
  }

  lemma PackedOk(flags: nat, f: Fields)
    requires Packed(flags, f)
    ensures FlagsOk(flags) && SectionFields(flags) == f
  {
    SectionFieldsOf(flags, 0, flags, 0, f);
  }

  lemma FlagsBounds(flags: nat)
    requires FlagsOk(flags)
    ensures flags % 4 == 0 && flags < 0x4_0000
  {
    var f := SectionFields(flags);
    hide SectionFields;
    var k := f.cb + 4 * f.xn + 0x100 * f.ap + 0x400 * f.tex + 0x2000 * f.apx + 0x4000 * f.s + 0x8000 * f.ng;
    assert flags == 4 * k;
  }

  /** Flags or-ed to a base address and the type of a section grant what they grant alone. */
  lemma SectionGrants(e: nat, y: nat, flags: nat, t: nat)
    requires FlagsOk(flags) && t < 4 && e == 0x4_0000 * y + flags + t
    ensures AccessOf(SectionFields(e)) == FlagsAccess(flags)
  {
    SectionFieldsOf(e, y, flags, t, SectionFields(flags));
  }

  /** The upper access bit, S and nG move together. */
  lemma UpperBits(flags: nat, f: Fields)
    requires Packed(flags, f)
    ensures Field(flags, 0x8000, 8) == f.apx + 2 * f.s + 4 * f.ng
  {
    FieldIs(flags, 0x8000, 8, 0, f.apx + 2 * f.s + 4 * f.ng, 4 * f.cb + 0x10 * f.xn + 0x400 * f.ap + 0x1000 * f.tex);
  }

  /** The flags of a large page grant the same. */
  lemma LargePageGrants(w: nat, x: nat, flags: nat)
    requires FlagsOk(flags) && w == 0x1_0000 * x + LargePageFlags(flags) + 1
    ensures AccessOf(LargePageFields(w)) == FlagsAccess(flags)
  {
    var f := SectionFields(flags);
    UpperBits(flags, f);
    assert LargePageFlags(flags)
        == 4 * f.cb + 0x10 * f.ap + 0x200 * (f.apx + 2 * f.s + 4 * f.ng) + 0x1000 * f.tex + 0x8000 * f.xn;
    LargePageFieldsOf(w, x, f);
  }

  lemma LargePageFieldsOf(w: nat, x: nat, f: Fields)
    requires f.cb < 4 && f.xn < 2 && f.ap < 4 && f.tex < 8 && f.apx < 2 && f.s < 2 && f.ng < 2
    requires w == 0x1_0000 * x + 4 * f.cb + 0x10 * f.ap + 0x200 * (f.apx + 2 * f.s + 4 * f.ng) + 0x1000 * f.tex
                  + 0x8000 * f.xn + 1
    ensures LargePageFields(w) == f
  {
    hide Field;
    var a1 := 4 * f.cb + 1;
    var a2 := a1 + 0x10 * f.ap;
    var a3 := a2 + 0x200 * (f.apx + 2 * f.s + 4 * f.ng);
    var b1 := 2 * x + f.xn;
    var b2 := 8 * b1 + f.tex;
    FieldIs(w, 0x8000, 2, x, f.xn, a3 + 0x1000 * f.tex);
    FieldIs(w, 0x1000, 8, b1, f.tex, a3);
    LowPageFieldsOf(w, b2, 8 * (f.apx + 2 * f.s + 4 * f.ng) + 0, f, a1);
  }

  /** The fields that large and small pages have in common; between AP[1:0] and AP[2] is mid. */
  lemma LowPageFieldsOf(w: nat, above: nat, mid: nat, f: Fields, low: nat)
    requires f.cb < 4 && f.ap < 4 && f.apx < 2 && f.s < 2 && f.ng < 2 && low < 0x10 && low / 4 == f.cb
    requires mid / 8 == f.apx + 2 * f.s + 4 * f.ng
    requires w == 0x1000 * above + 0x40 * mid + 0x10 * f.ap + low
    ensures Field(w, 4, 4) == f.cb && Field(w, 0x10, 4) == f.ap && Field(w, 0x200, 2) == f.apx
    ensures Field(w, 0x400, 2) == f.s && Field(w, 0x800, 2) == f.ng
  {
    hide Field;
    var b := 0x10 * f.ap + low;
    var m, k := mid % 8, 0x40 * (mid % 8) + b;
    FieldIs(w, 0x800, 2, above, f.ng, k + 0x200 * f.apx + 0x400 * f.s);
    FieldIs(w, 0x400, 2, 2 * above + f.ng, f.s, k + 0x200 * f.apx);
    FieldIs(w, 0x200, 2, 2 * (2 * above + f.ng) + f.s, f.apx, k);
    FieldIs(w, 0x10, 4, 0x40 * above + mid, f.ap, low);
    FieldIs(w, 4, 4, 4 * (0x40 * above + mid) + f.ap, f.cb, low % 4);
  }

  /** So do the flags of a small page. */
  lemma SmallPageGrants(w: nat, x: nat, flags: nat)
    requires FlagsOk(flags) && w == 0x1000 * x + SmallPageFlags(flags) + 2
    ensures AccessOf(SmallPageFields(w)) == FlagsAccess(flags)
  {
    var f := SectionFields(flags);
    UpperBits(flags, f);
    assert SmallPageFlags(flags)
        == f.xn + 4 * f.cb + 0x10 * f.ap + 0x40 * f.tex + 0x200 * (f.apx + 2 * f.s + 4 * f.ng);
    SmallPageFieldsOf(w, x, f);
  }

  lemma SmallPageFieldsOf(w: nat, x: nat, f: Fields)
    requires f.cb < 4 && f.xn < 2 && f.ap < 4 && f.tex < 8 && f.apx < 2 && f.s < 2 && f.ng < 2
    requires w == 0x1000 * x + f.xn + 4 * f.cb + 0x10 * f.ap + 0x40 * f.tex + 0x200 * (f.apx + 2 * f.s + 4 * f.ng) + 2
    ensures SmallPageFields(w) == f
  {
    hide Field;
    var upper := f.apx + 2 * f.s + 4 * f.ng;
    var low := f.xn + 2 + 4 * f.cb;
    LowPageFieldsOf(w, x, 8 * upper + f.tex, f, low);
    FieldIs(w, 0x40, 8, 8 * x + upper, f.tex, 0x10 * f.ap + low);
    FieldIs(w, 1, 2, 2 * (f.cb + 4 * f.ap + 0x10 * f.tex + 0x80 * upper + 0x400 * x) + 1, f.xn, 0);
  }

  // ----- The flags of a configuration -----

  lemma CacheGrants(cpolicy: nat) returns (tex: nat, cb: nat)
    requires cpolicy < 7
    ensures tex < 8 && cb < 4 && CacheCfg(cpolicy) == 4 * cb + 0x1000 * tex && MemoryOf(tex, cb) == AskedMemory(cpolicy)
  {
    tex, cb := [0, 1, 0, 0, 1, 0, 2][cpolicy], [0, 0, 2, 3, 3, 1, 0][cpolicy];
  }

  lemma AccessGrants(apolicy: nat) returns (apx: nat, ap: nat)
    requires apolicy < 6
    ensures apx < 2 && ap < 4 && AccessCfg(apolicy) == 0x400 * ap + 0x8000 * apx
    ensures RightsOf(apx, ap) == if apolicy == APOLICY_RONA then ReservedRights else AskedRights(apolicy)
    ensures AskedRights(apolicy) != ReservedRights
  {
    apx, ap := [0, 0, 0, 0, 1, 1][apolicy], [0, 1, 2, 3, 0, 2][apolicy];
  }

  /** The flags grant what the configuration asks for, exactly unless that is read-only for the kernel alone. */
  lemma FlagsGrant(cfg: MemCfg)
    requires CfgOk(cfg)
    ensures FlagsOk(GetPteFlags(cfg)) && FlagsAccess(GetPteFlags(cfg)) == Granted(cfg)
    ensures Granted(cfg) == Asked(cfg) <==> cfg.apolicy != APOLICY_RONA
  {
    var tex, cb := CacheGrants(cfg.cpolicy);
    var apx, ap := AccessGrants(cfg.apolicy);
    hide CacheCfg, AccessCfg, MemoryOf, RightsOf, AskedMemory, AskedRights;
    var xn, s, ng := if cfg.executable then 0 else 1, if cfg.shared then 1 else 0, if cfg.global then 0 else 1;
    var f := Fields(cb, xn, ap, tex, apx, s, ng);
    assert Packed(GetPteFlags(cfg), f);
    PackedOk(GetPteFlags(cfg), f);
    hide SectionFields, Packed;
  }

  /** mem_types: the pages of kernel text, data and devices, and of user text, data and devices. */
  function MemTypes(): seq<MemCfg> {
    [MemCfg(4, 4, true, true, true), MemCfg(4, 1, true, true, true), MemCfg(5, 1, true, false, true),
     MemCfg(4, 2, true, true, false), MemCfg(4, 3, true, false, false), MemCfg(5, 3, true, false, false)]
  }

  /** Users may not write text nor execute data and devices, and nothing of the kernel is theirs; but kernel text
      gets the reserved encoding. */
  lemma MemTypesGrant(i: nat)
    requires i < 6
    ensures CfgOk(MemTypes()[i])
    ensures FlagsAccess(GetPteFlags(MemTypes()[i])) ==
            [Access(ReservedRights, WriteAllocate, true, true, true),
             Access(Rights(ReadWrite, NoAccess), WriteAllocate, true, true, true),
             Access(Rights(ReadWrite, NoAccess), SharedDevice, true, true, false),
             Access(Rights(ReadWrite, ReadOnly), WriteAllocate, true, false, true),
             Access(Rights(ReadWrite, ReadWrite), WriteAllocate, true, false, false),
             Access(Rights(ReadWrite, ReadWrite), SharedDevice, true, false, false)][i]
  {
    FlagsGrant(MemTypes()[i]);
    hide FlagsAccess, GetPteFlags;
  }
}
