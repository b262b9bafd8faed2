/** Permission words: which of them the system calls' tests accept, and what sets of flags they stand for. */
module Permissions {
  import opened Kernel

  const PTE_P: bv32 := 0x001
  const PTE_W: bv32 := 0x002
  const PTE_U: bv32 := 0x004
  const PTE_AVAIL: bv32 := 0xE00
  const PTE_USER: bv32 := PTE_U | PTE_P | PTE_W | PTE_AVAIL
  const SIGN: bv32 := 0x8000_0000

  predicate Has(w: bv32, bits: bv32) { w & bits != 0 }

  /** The flags of a word. */
  function Flags(w: bv32): Perm
  {
    (if Has(w, PTE_P) then {P} else {}) + (if Has(w, PTE_W) then {W} else {}) + (if Has(w, PTE_U) then {U} else {})
    + (if Has(w, 0x800) then {COW} else {}) + (if Has(w, 0x400) then {SHARE} else {})
    + (if Has(w, 0x200) then {AVAIL} else {}) + (if Has(w, !PTE_USER) then {OTHER} else {})
  }

  /** x > 0 where x is an int. */
  predicate SignedPositive(x: bv32) { x != 0 && !Has(x, SIGN) }

  /** The tests of sys_page_alloc and sys_page_map, whose perm is an int. */
  predicate PageCallAccepts(perm: bv32)
  {
    if !Has(perm, PTE_U) || !Has(perm, PTE_P) then false
    else !SignedPositive(perm & !PTE_USER)
  }

  /** The tests of sys_ipc_try_send, whose perm is unsigned. */
  predicate SendAccepts(perm: bv32)
  {
    if !Has(perm, PTE_U) || !Has(perm, PTE_P) then false
    else !(perm & !PTE_USER > 0)
  }

  lemma FlagsMean(w: bv32)
    ensures (P in Flags(w) <==> Has(w, PTE_P)) && (U in Flags(w) <==> Has(w, PTE_U)) && (W in Flags(w) <==> Has(w, PTE_W))
    ensures Flags(w) <= PTE_SYSCALL <==> w & !PTE_USER == 0
  {
    assert Flags(w) <= PTE_SYSCALL <==> OTHER !in Flags(w);
  }

  /** For messages the flags decide. */
  lemma SendAcceptsFlags(perm: bv32)
    ensures SendAccepts(perm) <==> PermOk(Flags(perm))
  {
    FlagsMean(perm);
  }

  /** For the page calls they decide exactly up to the sign: with bit 31 set, any word that has PTE_U and PTE_P is accepted,
      whatever other bits it has. */
  lemma PageCallAcceptsFlags(perm: bv32)
    ensures PageCallAccepts(perm) <==>
            PermOk(Flags(perm)) || (Has(perm, PTE_U) && Has(perm, PTE_P) && Has(perm, SIGN))
    ensures !Has(perm, SIGN) ==> (PageCallAccepts(perm) <==> PermOk(Flags(perm)))
  {
    FlagsMean(perm);
  }

  /** The entry page_insert writes. */
  function Entry(pa: bv32, perm: bv32): bv32 { pa | perm | PTE_P }

  /** A word accepted for its sign has that bit end up in the address, so the entry maps another page than the one asked
      for, wherever in the lower half of physical memory that is. Every other accepted word maps the page itself. */
  lemma SignMovesThePage(pa: bv32, perm: bv32)
    requires pa & 0xFFF == 0 && !Has(pa, SIGN) && PageCallAccepts(perm)
    ensures Entry(pa, perm) & !0xFFF == pa <==> !Has(perm, SIGN)
  {
    PageCallAcceptsFlags(perm);
    FlagsMean(perm);
  }
}
