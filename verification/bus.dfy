/** The clock-control module's register window as the driver sees it through
    `ccm_read_4` and `ccm_write_4`: a map from register offset to 32-bit value,
    plus the log of every access in program order. */
module Registers {
  import opened Bits

  /** One bus transaction. */
  datatype Access = Load(reg: int) | Store(reg: int, value: Word)

  datatype Bus = Bus(regs: map<int, Word>, log: seq<Access>)

  /** The value a read returned, and the bus after it. */
  datatype Fetched = Fetched(value: Word, bus: Bus)

  /** `ccm_read_4(sc, reg)`. */
  function Read(b: Bus, reg: int): Fetched
    requires reg in b.regs
  {
    Fetched(b.regs[reg], b.(log := b.log + [Load(reg)]))
  }

  /** `ccm_write_4(sc, reg, v)`. */
  function Write(b: Bus, reg: int, v: Word): Bus
    requires reg in b.regs
  {
    Bus(b.regs[reg := v], b.log + [Store(reg, v)])
  }

  /** `m'` has the same registers as `m` and differs from it at most at `regs`. */
  predicate OnlyChanged(m: map<int, Word>, m': map<int, Word>, regs: set<int>) {
    m'.Keys == m.Keys && forall o :: o in m && o !in regs ==> m'[o] == m[o]
  }

  /** The accesses of one read-modify-write of `reg` that stores `v`. */
  function Rmw(reg: int, v: Word): seq<Access> {
    [Load(reg), Store(reg, v)]
  }

  /** `v = ccm_read_4(sc, reg); v |= bits; ccm_write_4(sc, reg, v)`. */
  function SetBits(b: Bus, reg: int, bits: Word): (r: Bus)
    requires reg in b.regs
    ensures OnlyChanged(b.regs, r.regs, {reg})
    ensures SetsExactly(b.regs[reg], r.regs[reg], bits)
    ensures r.log == b.log + Rmw(reg, r.regs[reg])
  {
    var x := Read(b, reg);
    Write(x.bus, reg, x.value + bits)
  }

  /** `v = ccm_read_4(sc, reg); v &= ~bits; ccm_write_4(sc, reg, v)`. */
  function ClearBits(b: Bus, reg: int, bits: Word): (r: Bus)
    requires reg in b.regs
    ensures OnlyChanged(b.regs, r.regs, {reg})
    ensures ClearsExactly(b.regs[reg], r.regs[reg], bits)
    ensures r.log == b.log + Rmw(reg, r.regs[reg])
  {
    var x := Read(b, reg);
    Write(x.bus, reg, x.value - bits)
  }

  /** Two changes of `m` confined to `regs` that agree on `regs` agree everywhere. */
  lemma SameRegs(m: map<int, Word>, m1: map<int, Word>, m2: map<int, Word>, regs: set<int>)
    requires OnlyChanged(m, m1, regs) && OnlyChanged(m, m2, regs)
    requires forall o :: o in regs && o in m ==> m1[o] == m2[o]
    ensures m1 == m2
  {
    assert m1.Keys == m2.Keys;
    forall o | o in m1
      ensures m1[o] == m2[o]
    {
      if o !in regs {
        assert m1[o] == m[o];
      }
    }
  }
}
