/**
 * The bit-packed control and status words of the chip. Each register is a
 * packed list of unsigned bit-fields allocated from bit 0 upwards in
 * declaration order, as the compiler lays out the packed structs of the
 * register unions. A field is read and written through explicit shifts and
 * masks in place of the union aliasing.
 */
module BitFields {

  /** A sub-field of a 32-bit word: `width` bits starting at bit `offset`. */
  datatype Field = Field(offset: bv32, width: bv32)

  predicate InWord(f: Field)
  {
    1 <= f.width <= 32 && f.offset <= 32 - f.width
  }

  /** The low `width` bits set. */
  function Mask(width: bv32): bv32
    requires 1 <= width <= 32
  {
    if width == 32 then 0xFFFF_FFFF else ((1 as bv32) << width) - 1
  }

  /** The bits of the word that field `f` occupies. */
  function Span(f: Field): bv32
    requires InWord(f)
  {
    Mask(f.width) << f.offset
  }

  /** The value of field `f` of `w`, as a bit-field read yields it: no bit above the field's width is set. */
  function Get(w: bv32, f: Field): (r: bv32)
    requires InWord(f)
    ensures r & !Mask(f.width) == 0
  {
    var shifted := w >> f.offset;
    MaskClears(shifted, Mask(f.width));
    shifted & Mask(f.width)
  }

  lemma MaskClears(x: bv32, m: bv32)
    ensures (x & m) & !m == 0
  {
  }

  /**
   * `w` after the bit-field assignment `f = v`: the low `width` bits of `v`
   * replace the field, and no bit outside the field's span changes.
   */
  function Set(w: bv32, f: Field, v: bv32): (r: bv32)
    requires InWord(f)
    ensures (r ^ w) & !Span(f) == 0
  {
    Merge(w, Span(f), v << f.offset)
  }

  /** The bits of `w` outside `span` combined with the bits of `x` inside it. */
  function Merge(w: bv32, span: bv32, x: bv32): bv32
  {
    (w & !span) | (x & span)
  }

  /** Assigning two fields with disjoint spans commutes. */
  lemma SetCommutes(w: bv32, f: Field, g: Field, v: bv32, u: bv32)
    requires InWord(f) && InWord(g) && Span(f) & Span(g) == 0
    ensures Set(Set(w, f, v), g, u) == Set(Set(w, g, u), f, v)
  {
  }

  // A packed register struct is described by its members' names and bit widths,
  // in declaration order; the first member occupies the lowest bits.

  /** The bit at which member `k` starts: the widths of the members declared before it. */
  function OffsetOf(widths: seq<nat>, k: nat): nat
    requires k <= |widths|
  {
    if k == 0 then 0 else OffsetOf(widths, k - 1) + widths[k - 1]
  }

  /** The number of bits the whole struct occupies. */
  function TotalWidth(widths: seq<nat>): nat
  {
    OffsetOf(widths, |widths|)
  }

  /** Members declared in order: a later member starts at or after the end of an earlier one. */
  lemma {:induction false} PackedDisjoint(widths: seq<nat>, j: nat, k: nat)
    requires j < k <= |widths|
    ensures OffsetOf(widths, j) + widths[j] <= OffsetOf(widths, k)
  {
    if k - 1 > j {
      PackedDisjoint(widths, j, k - 1);
    }
  }

  /** Every member lies inside the struct. */
  lemma {:induction false} PackedInside(widths: seq<nat>, k: nat)
    requires k < |widths|
    ensures OffsetOf(widths, k) + widths[k] <= TotalWidth(widths)
  {
    if k + 1 < |widths| {
      PackedDisjoint(widths, k + 1, |widths|);
    }
  }

  /** The field descriptor of member `k`. */
  function FieldOf(widths: seq<nat>, k: nat): Field
    requires k < |widths|
    requires TotalWidth(widths) <= 32
  {
    PackedInside(widths, k);
    Field(OffsetOf(widths, k) as bv32, widths[k] as bv32)
  }

  // The register structs, member by member.

  const SYS_STS_NAMES: seq<string> := [
    "ref", "phsdone", "chkerr", "rstsrc", "pdn_r", "pdn", "bisterr", "phsdone_r", "Resered1", "usign"]
  const SYS_STS_WIDTHS: seq<nat> := [1, 1, 1, 3, 1, 1, 1, 1, 1, 1]

  const SYS_CTRL_NAMES: seq<string> := [
    "Reserved0", "pgau", "bphpf", "iesul", "iepdn", "iehse", "rcx12", "rctrim",
    "shorti", "shortu", "restl", "rest", "meaclksel", "adcclksel", "gai", "Reserved1",
    "gu", "adciapdn", "Reserved2", "adcupdn", "Reserved3"]
  const SYS_CTRL_WIDTHS: seq<nat> := [1, 1, 1, 1, 1, 1, 1, 5, 1, 1, 2, 3, 1, 2, 2, 2, 1, 1, 1, 1, 2]

  const ANA_CTRL0_NAMES: seq<string> := ["Reserved1", "IT", "Reserved2"]
  const ANA_CTRL0_WIDTHS: seq<nat> := [8, 2, 22]

  const ANA_CTRL1_NAMES: seq<string> := ["Reserved1", "CSEL", "Reserved2"]
  const ANA_CTRL1_WIDTHS: seq<nat> := [28, 2, 2]

  const SYS_STS_CLR_NAMES: seq<string> := ["Reserved1", "pdn_clr", "Reserved2", "phsdone_clr", "Reserved3"]
  const SYS_STS_CLR_WIDTHS: seq<nat> := [6, 1, 2, 1, 22]

  /** The running offsets of the system control members up to `rctrim`. */
  lemma SysCtrlLowOffsets()
    ensures OffsetOf(SYS_CTRL_WIDTHS, 7) == 7
  {
    assert OffsetOf(SYS_CTRL_WIDTHS, 1) == 1;
    assert OffsetOf(SYS_CTRL_WIDTHS, 2) == 2;
    assert OffsetOf(SYS_CTRL_WIDTHS, 3) == 3;
    assert OffsetOf(SYS_CTRL_WIDTHS, 4) == 4;
    assert OffsetOf(SYS_CTRL_WIDTHS, 5) == 5;
    assert OffsetOf(SYS_CTRL_WIDTHS, 6) == 6;
  }

  /** The running offsets from `rctrim` up to `adcclksel`. */
  lemma SysCtrlMiddleOffsets()
    ensures OffsetOf(SYS_CTRL_WIDTHS, 8) == 12 && OffsetOf(SYS_CTRL_WIDTHS, 9) == 13
    ensures OffsetOf(SYS_CTRL_WIDTHS, 14) == 22
  {
    SysCtrlLowOffsets();
    assert OffsetOf(SYS_CTRL_WIDTHS, 8) == 12;
    assert OffsetOf(SYS_CTRL_WIDTHS, 9) == 13;
    assert OffsetOf(SYS_CTRL_WIDTHS, 10) == 14;
    assert OffsetOf(SYS_CTRL_WIDTHS, 11) == 16;
    assert OffsetOf(SYS_CTRL_WIDTHS, 12) == 19;
    assert OffsetOf(SYS_CTRL_WIDTHS, 13) == 20;
  }

  /** The system control struct tiles all 32 bits, with the touched fields at bits 12, 13, 27 and 29. */
  lemma SysCtrlOffsets()
    ensures |SYS_CTRL_NAMES| == |SYS_CTRL_WIDTHS| && TotalWidth(SYS_CTRL_WIDTHS) == 32
    ensures OffsetOf(SYS_CTRL_WIDTHS, 8) == 12 && OffsetOf(SYS_CTRL_WIDTHS, 9) == 13
    ensures OffsetOf(SYS_CTRL_WIDTHS, 17) == 27 && OffsetOf(SYS_CTRL_WIDTHS, 19) == 29
  {
    SysCtrlMiddleOffsets();
    assert OffsetOf(SYS_CTRL_WIDTHS, 15) == 24;
    assert OffsetOf(SYS_CTRL_WIDTHS, 16) == 26;
    assert OffsetOf(SYS_CTRL_WIDTHS, 17) == 27;
    assert OffsetOf(SYS_CTRL_WIDTHS, 18) == 28;
    assert OffsetOf(SYS_CTRL_WIDTHS, 19) == 29;
    assert OffsetOf(SYS_CTRL_WIDTHS, 20) == 30;
  }

  /** Both analog control structs tile all 32 bits, with IT at bit 8 and CSEL at bit 28. */
  lemma AnaCtrlOffsets()
    ensures |ANA_CTRL0_NAMES| == |ANA_CTRL0_WIDTHS| && |ANA_CTRL1_NAMES| == |ANA_CTRL1_WIDTHS|
    ensures TotalWidth(ANA_CTRL0_WIDTHS) == 32 && TotalWidth(ANA_CTRL1_WIDTHS) == 32
    ensures OffsetOf(ANA_CTRL0_WIDTHS, 1) == 8 && OffsetOf(ANA_CTRL1_WIDTHS, 1) == 28
  {
    assert OffsetOf(ANA_CTRL0_WIDTHS, 2) == 10;
    assert OffsetOf(ANA_CTRL1_WIDTHS, 2) == 30;
  }

  /** The status-clear struct tiles all 32 bits; the status struct declares the low 12. */
  lemma StatusWidths()
    ensures |SYS_STS_CLR_NAMES| == |SYS_STS_CLR_WIDTHS| && TotalWidth(SYS_STS_CLR_WIDTHS) == 32
    ensures |SYS_STS_NAMES| == |SYS_STS_WIDTHS| && TotalWidth(SYS_STS_WIDTHS) == 12
  {
    assert OffsetOf(SYS_STS_CLR_WIDTHS, 1) == 6;
    assert OffsetOf(SYS_STS_CLR_WIDTHS, 2) == 7;
    assert OffsetOf(SYS_STS_CLR_WIDTHS, 3) == 9;
    assert OffsetOf(SYS_STS_CLR_WIDTHS, 4) == 10;
    assert OffsetOf(SYS_STS_WIDTHS, 1) == 1;
    assert OffsetOf(SYS_STS_WIDTHS, 2) == 2;
    assert OffsetOf(SYS_STS_WIDTHS, 3) == 3;
    assert OffsetOf(SYS_STS_WIDTHS, 4) == 6;
    assert OffsetOf(SYS_STS_WIDTHS, 5) == 7;
    assert OffsetOf(SYS_STS_WIDTHS, 6) == 8;
    assert OffsetOf(SYS_STS_WIDTHS, 7) == 9;
    assert OffsetOf(SYS_STS_WIDTHS, 8) == 10;
    assert OffsetOf(SYS_STS_WIDTHS, 9) == 11;
  }

  // The fields the bring-up sequence touches.

  const SHORTI: Field := Field(12, 1)
  const SHORTU: Field := Field(13, 1)
  const ADCIAPDN: Field := Field(27, 1)
  const ADCUPDN: Field := Field(29, 1)
  const IT: Field := Field(8, 2)
  const CSEL: Field := Field(28, 2)

  /** The packed layout puts each named system control field where the constant above says. */
  lemma SysCtrlFieldPositions()
    ensures TotalWidth(SYS_CTRL_WIDTHS) <= 32
    ensures SYS_CTRL_NAMES[8] == "shorti" && FieldOf(SYS_CTRL_WIDTHS, 8) == SHORTI
    ensures SYS_CTRL_NAMES[9] == "shortu" && FieldOf(SYS_CTRL_WIDTHS, 9) == SHORTU
    ensures SYS_CTRL_NAMES[17] == "adciapdn" && FieldOf(SYS_CTRL_WIDTHS, 17) == ADCIAPDN
    ensures SYS_CTRL_NAMES[19] == "adcupdn" && FieldOf(SYS_CTRL_WIDTHS, 19) == ADCUPDN
  {
    SysCtrlOffsets();
  }

  /** The packed layouts put IT and CSEL where the constants above say. */
  lemma AnaCtrlFieldPositions()
    ensures TotalWidth(ANA_CTRL0_WIDTHS) <= 32 && TotalWidth(ANA_CTRL1_WIDTHS) <= 32
    ensures ANA_CTRL0_NAMES[1] == "IT" && FieldOf(ANA_CTRL0_WIDTHS, 1) == IT
    ensures ANA_CTRL1_NAMES[1] == "CSEL" && FieldOf(ANA_CTRL1_WIDTHS, 1) == CSEL
  {
    AnaCtrlOffsets();
  }

  /** Each control field the bring-up touches reads back as the assigned value modulo 2^width. */
  lemma SysCtrlReadBack(w: bv32, v: bv32)
    ensures InWord(SHORTI) && Get(Set(w, SHORTI, v), SHORTI) == v & 1
    ensures InWord(SHORTU) && Get(Set(w, SHORTU, v), SHORTU) == v & 1
    ensures InWord(ADCIAPDN) && Get(Set(w, ADCIAPDN, v), ADCIAPDN) == v & 1
    ensures InWord(ADCUPDN) && Get(Set(w, ADCUPDN, v), ADCUPDN) == v & 1
  {
  }

  lemma AnaCtrlReadBack(w: bv32, v: bv32)
    ensures InWord(IT) && Get(Set(w, IT, v), IT) == v & 3
    ensures InWord(CSEL) && Get(Set(w, CSEL, v), CSEL) == v & 3
  {
  }

  /** `CSEL = 1` sets bit 28, clears bit 29 and keeps every other bit. */
  lemma SetCselOne(w: bv32)
    ensures InWord(CSEL) && Set(w, CSEL, 1) == (w & !0x3000_0000) | 0x1000_0000
  {
    assert Span(CSEL) == 0x3000_0000;
  }

  /** Powering up both ADCs sets bits 29 and 27 and nothing else. */
  lemma SetAdcPowerUp(w: bv32)
    ensures InWord(ADCUPDN) && InWord(ADCIAPDN)
    ensures Set(Set(w, ADCUPDN, 1), ADCIAPDN, 1) == w | 0x2800_0000
  {
    assert Span(ADCUPDN) == 0x2000_0000 && Span(ADCIAPDN) == 0x0800_0000;
  }

  /** Shorting the voltage and current inputs sets bits 13 and 12 and nothing else. */
  lemma SetShortInputs(w: bv32)
    ensures InWord(SHORTU) && InWord(SHORTI)
    ensures Set(Set(w, SHORTU, 1), SHORTI, 1) == w | 0x3000
  {
    assert Span(SHORTU) == 0x2000 && Span(SHORTI) == 0x1000;
  }

  /** Releasing the short clears exactly bits 13 and 12. */
  lemma ClearShortInputs(w: bv32)
    ensures InWord(SHORTU) && InWord(SHORTI)
    ensures Set(Set(w, SHORTU, 0), SHORTI, 0) == w & !0x3000
  {
    assert Span(SHORTU) == 0x2000 && Span(SHORTI) == 0x1000;
  }
}
