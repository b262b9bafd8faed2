/** Address-space layout and paging arithmetic of inc/mmu.h and inc/memlayout.h. */
module Layout {
  const PGSIZE: nat := 4096
  const NPTENTRIES: nat := 1024
  const PTSIZE: nat := PGSIZE * NPTENTRIES

  const KERNBASE: nat := 0xF000_0000
  const MMIOLIM: nat := KERNBASE - PTSIZE
  const MMIOBASE: nat := MMIOLIM - PTSIZE
  const ULIM: nat := MMIOBASE
  const UVPT: nat := ULIM - PTSIZE
  const UPAGES: nat := UVPT - PTSIZE
  const UENVS: nat := UPAGES - PTSIZE
  const UTOP: nat := UENVS
  const UXSTACKTOP: nat := UTOP
  const UTEXT: nat := 2 * PTSIZE
  const UTEMP: nat := PTSIZE
  const PFTEMP: nat := UTEMP + PTSIZE - PGSIZE

  /** Page number, directory index, table index and offset of a linear address. */
  function PGNUM(la: nat): nat { la / PGSIZE }
  function PDX(la: nat): nat { la / PTSIZE % 1024 }
  function PTX(la: nat): nat { la / PGSIZE % 1024 }
  function PGOFF(la: nat): nat { la % PGSIZE }

  /** The linear address with the given indices and offset. */
  function PGADDR(d: nat, t: nat, o: nat): nat { d * PTSIZE + t * PGSIZE + o }

  /** The address field of a page table or page directory entry. */
  function PTE_ADDR(entry: nat): nat { entry - entry % PGSIZE }
}
