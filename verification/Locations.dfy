/** Where the allocator can put a virtual register. */
module Locations {
  /** Callee-saved registers available to the allocator. */
  datatype Phys = Rbx | R12 | R13 | R14 | R15

  const POOL: seq<Phys> := [Rbx, R12, R13, R14, R15]

  datatype Loc = Reg(phys: Phys) | Slot(k: nat)

  /** What `loc` holds before the scan reaches a vreg. */
  const UNPLACED := Slot(0xFFFF_FFFF)

  datatype Allocation = Allocation(loc: seq<Loc>, spills: nat)
}
