/** The page directory installed in its own slot (inc/memlayout.h): what loads through uvpt and uvpd read. */
module SelfMap {
  import opened Types
  import opened Layout

  /** Physical memory as words, by address. */
  type Phys = map<int, Word>

  function Read(m: Phys, pa: int): Word { if pa in m then m[pa] else 0 }

  /** PTE_P and PTE_U. */
  predicate Present(entry: Word) { entry % 2 == 1 }

  predicate User(entry: Word) { entry / 4 % 2 == 1 }

  predicate Usable(entry: Word, user: bool) { Present(entry) && (user ==> User(entry)) }

  /** Addresses of the directory entry of va, and of its table entry. */
  function PdeAddr(cr3: nat, va: Word): nat { cr3 + 4 * PDX(va) }

  function PteAddr(m: Phys, cr3: nat, va: Word): nat { PTE_ADDR(Read(m, PdeAddr(cr3, va))) + 4 * PTX(va) }

  /** The processor's walk for a load, in user mode or not; None is a page fault. */
  function Walk(m: Phys, cr3: nat, va: Word, user: bool): Option<nat>
  {
    if !Usable(Read(m, PdeAddr(cr3, va)), user) then None
    else
      var pte := Read(m, PteAddr(m, cr3, va));
      if !Usable(pte, user) then None else Some(PTE_ADDR(pte) + PGOFF(va))
  }

  /** The directory's own entry, user-readable. */
  predicate SelfMapped(m: Phys, cr3: nat)
  {
    var entry := Read(m, PdeAddr(cr3, UVPT));
    cr3 % PGSIZE == 0 && Usable(entry, true) && PTE_ADDR(entry) == cr3
  }

  const UVPD: nat := UVPT + UVPT / PGSIZE * 4

  /** &uvpt[n] and &uvpd[d]. */
  function UvptAddr(n: nat): Word
    requires n < 0x10_0000
  {
    UVPT + 4 * n
  }

  function UvpdAddr(d: nat): Word
    requires d < 1024
  {
    UVPD + 4 * d
  }

  /** Splitting a linear address and putting it together are inverse. */
  lemma AddressRoundTrip(la: Word, d: nat, t: nat, o: nat)
    requires d < 1024 && t < 1024 && o < PGSIZE
    ensures PGADDR(PDX(la), PTX(la), PGOFF(la)) == la
    ensures var a := PGADDR(d, t, o); a < 0x1_0000_0000 && PDX(a) == d && PTX(a) == t && PGOFF(a) == o
    ensures PGNUM(la) == PDX(la) * NPTENTRIES + PTX(la) < 0x10_0000
  {
    PageNumber(la);
    SplitPutTogether(d, t, o);
  }

  lemma SplitPutTogether(d: nat, t: nat, o: nat)
    requires d < 1024 && t < 1024 && o < PGSIZE
    ensures var a := PGADDR(d, t, o); a < 0x1_0000_0000 && PDX(a) == d && PTX(a) == t && PGOFF(a) == o
  {
    var a := PGADDR(d, t, o);
    assert a == PGSIZE * (1024 * d + t) + o;
    assert a / PGSIZE == 1024 * d + t;
    assert a / PTSIZE == d;
  }

  lemma UvptIndices(va: Word)
    ensures PGNUM(va) < 0x10_0000
    ensures var a := UvptAddr(PGNUM(va)); PDX(a) == PDX(UVPT) && PTX(a) == PDX(va) && PGOFF(a) == 4 * PTX(va)
  {
    assert PGNUM(va) == 1024 * PDX(va) + PTX(va) by { PageNumber(va); }
    Indices(PDX(va), PTX(va));
  }

  lemma PageNumber(va: Word)
    ensures PGNUM(va) == 1024 * PDX(va) + PTX(va) && PDX(va) < 1024
  {
    assert va / PTSIZE == va / PGSIZE / 1024;
  }

  lemma Indices(d: nat, t: nat)
    requires d < 1024 && t < 1024
    ensures var a := UVPT + 4 * (1024 * d + t); PDX(a) == PDX(UVPT) && PTX(a) == d && PGOFF(a) == 4 * t
  {
    var a := UVPT + 4 * (1024 * d + t);
    assert a == PTSIZE * 957 + PGSIZE * d + 4 * t;
    assert a / PTSIZE == 957;
    assert a / PGSIZE == 957 * 1024 + d;
  }

  lemma UvpdIndices(d: nat)
    requires d < 1024
    ensures var a := UvpdAddr(d); PDX(a) == PDX(UVPT) && PTX(a) == PDX(UVPT) && PGOFF(a) == 4 * d
  {
  }

  /** uvpt[PGNUM(va)] is the table entry of va: the load reaches exactly that entry if the directory has a usable entry for
      va, and faults otherwise. */
  lemma UvptReadsPte(m: Phys, cr3: nat, va: Word, user: bool)
    requires SelfMapped(m, cr3)
    ensures PGNUM(va) < 0x10_0000
    ensures Walk(m, cr3, UvptAddr(PGNUM(va)), user) ==
            if Usable(Read(m, PdeAddr(cr3, va)), user) then Some(PteAddr(m, cr3, va)) else None
  {
    UvptIndices(va);
  }

  /** uvpd[PDX(va)] is the directory entry of va, and the load never faults. */
  lemma UvpdReadsPde(m: Phys, cr3: nat, va: Word, user: bool)
    requires SelfMapped(m, cr3)
    ensures PDX(va) < 1024
    ensures Walk(m, cr3, UvpdAddr(PDX(va)), user) == Some(PdeAddr(cr3, va))
  {
    UvpdIndices(PDX(va));
  }

  /** A user load through uvpt or uvpd; None is a page fault. */
  function UserLoad(m: Phys, cr3: nat, va: Word): Option<Word>
  {
    var pa := Walk(m, cr3, va, true);
    if pa.None? then None else Some(Read(m, pa.value))
  }

  /** fork's test of a page, in its order: the table entry is loaded only if the directory entry is present. */
  function ForkTest(m: Phys, cr3: nat, va: Word): Option<bool>
    requires PGNUM(va) < 0x10_0000 && PDX(va) < 1024
  {
    var pde := UserLoad(m, cr3, UvpdAddr(PDX(va)));
    if pde.None? then None
    else if !Present(pde.value) then Some(false)
    else
      var pte := UserLoad(m, cr3, UvptAddr(PGNUM(va)));
      if pte.None? then None else Some(Present(pte.value) && User(pte.value))
  }

  /** fork's test never faults, and tells whether user code can read the page, unless the directory has a present entry
      that is not user-readable; then it faults. */
  lemma ForkTestIsSafe(m: Phys, cr3: nat, va: Word)
    requires SelfMapped(m, cr3)
    ensures PGNUM(va) < 0x10_0000 && PDX(va) < 1024
    ensures var pde := Read(m, PdeAddr(cr3, va));
      if Present(pde) && !User(pde) then ForkTest(m, cr3, va) == None
      else ForkTest(m, cr3, va) == Some(Walk(m, cr3, va, true).Some?)
  {
    UvptReadsPte(m, cr3, va, true);
    UvpdReadsPde(m, cr3, va, true);
  }

  /** Loading the table entry without looking at the directory entry first faults when the table is missing. */
  lemma OrderMatters(m: Phys, cr3: nat, va: Word)
    requires SelfMapped(m, cr3) && !Present(Read(m, PdeAddr(cr3, va)))
    ensures PGNUM(va) < 0x10_0000 && UserLoad(m, cr3, UvptAddr(PGNUM(va))) == None
  {
    UvptReadsPte(m, cr3, va, true);
  }
}
