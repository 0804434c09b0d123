/** Register widths and identifiers shared by the PCIe engines (SsiPciePkg). */
module PcieTypes {
  import opened Bits

  type Addr = a: nat | a < 0x4000_0000      // 31 downto 2
  type Len24 = n: nat | n < 0x100_0000
  type Len9 = n: nat | n < 0x200
  type Len10 = n: nat | n < 0x400

  /** The adders of the 30, 24 and 10 bit registers. */
  function Add30(a: nat, b: nat): Addr { (a + b) % 0x4000_0000 }
  function Add24(a: nat, b: nat): Len24 { (a + b) % 0x100_0000 }
  function Add10(a: nat, b: nat): Len10 { (a + b) % 0x400 }

  /** The 24-bit subtractor. */
  function Sub24(a: Len24, b: Len24): Len24 { (a - b) % 0x100_0000 }

  /** Requester ID and tag of a TLP. */
  datatype Ids = Ids(locId: nat, tag: nat)
  predicate IdsOk(ids: Ids) {
    ids.locId < 0x1_0000 && ids.tag < 0x100
  }
  type TlpIds = ids: Ids | IdsOk(ids) witness Ids(0, 0)

  /** The fields of a header's second dword: IDs above, byte enables below. */
  lemma EnableFields(x: nat, be: nat)
    requires be == 0x0F || be == 0xFF
    ensures var w := 0x100 * x + be;
            w % 0x10 == 0xF && w / 0x10 % 0x10 == be / 0x10 && w / 0x100 == x && w / 0x1_0000 == x / 0x100
  {
    var w, last := 0x100 * x + be, be / 0x10;
    assert w == 0x10 * (0x10 * x + last) + 0xF;
    DivModUnique(w, 0x10, 0x10 * x + last, 0xF);
    DivModUnique(0x10 * x + last, 0x10, x, last);
    DivModUnique(w, 0x100, x, be);
    DivModUnique(w, 0x1_0000, x / 0x100, 0x100 * (x % 0x100) + be);
  }
}
