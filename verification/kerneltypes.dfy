/** The kernel's data types (headers/types.h, headers/const.h), with addresses made symbolic. */
module KernelTypes {
  const MAXPROC: nat := 20
  const NCPU: nat := 8
  const SEMDEVLEN: nat := 49
  const PSEUDOCLOCK: nat := 48
  const START_DEVREG: nat := 0x1000_0054
  const WORD: nat := 0x1_0000_0000

  datatype Option<+T> = None | Some(value: T)

  /** An address other than NULL. */
  type Address = a: int | a != 0 witness 1

  /** The address of a semaphore: an element of device_semaphores, or any other word.  NULL is none:
    * a p_semAdd of NULL is None. */
  datatype Key = Dev(index: nat) | User(address: Address)

  /** A saved processor state: the register the kernel itself writes, and the rest. */
  datatype PState = PState(a0: int, rest: int)

  /** pcb_t without its link fields; a pointer to a PCB is its index in the static table. */
  datatype Pcb = Pcb(parent: Option<nat>, semAdd: Option<Key>, pid: int, ps: PState)

  /** Every list_head of the kernel: the five heads, and the link fields of PCBs and descriptors.
    * The C address of a field determines its structure (container_of); here it is the argument. */
  datatype Addr =
    | PcbFreeH
    | ReadyQ
    | SemdFreeH
    | SemdH
    | PList(p: nat)
    | PChild(p: nat)
    | PSib(p: nat)
    | SLink(d: nat)
    | SProcq(d: nat)

  function Get(val: map<Key, int>, key: Key): int {
    if key in val then val[key] else 0
  }
}
