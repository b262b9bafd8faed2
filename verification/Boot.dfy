/** The boot loader of boot/main.c: segments read from disk in whole sectors, to addresses rounded down to a sector. */
module Boot {
  import opened Types

  const TOP: nat := 0x1_0000_0000
  const SECTSIZE: nat := 512
  const ELFHDR: nat := 0x1_0000
  const HDRSIZE: nat := 8 * SECTSIZE
  const ELF_MAGIC: Word := 0x464C_457F
  const PHSIZE: nat := 32 // sizeof (struct Proghdr)

  /** All physical memory. */
  type Mem = m: seq<Byte> | |m| == TOP witness seq(TOP, _ => 0)

  /** The kernel image on disk, which starts at sector 1; past its end the disk reads as 0. */
  type Image = seq<Byte>

  function ImageByte(image: Image, o: int): Byte { if 0 <= o < |image| then image[o] else 0 }

  /** A load past the end of memory wraps round; none goes further. */
  function Load8(m: Mem, a: nat): Byte { if a < TOP then m[a] else if a < 2 * TOP then m[a - TOP] else 0 }

  function Load16(m: Mem, a: nat): nat { Load8(m, a) + 0x100 * Load8(m, a + 1) }

  function Load32(m: Mem, a: nat): Word { Load16(m, a) + 0x1_0000 * Load16(m, a + 2) }

  function RoundDown(a: nat): nat { a - a % SECTSIZE }

  /** What readseg is asked: p_pa, p_memsz, p_offset. */
  datatype Seg = Seg(pa: Word, count: Word, offset: Word)

  /** Where readseg stops, in 32 bits. */
  function End(s: Seg): Word { (s.pa + s.count) % TOP }

  /** If the last sector is the last of memory, pa wraps round to 0 below end_pa and readseg never returns. */
  predicate Hangs(s: Seg) { RoundDown(s.pa) < End(s) && End(s) > TOP - SECTSIZE }

  /** readseg overwrites x. */
  predicate Covers(s: Seg, x: nat) { RoundDown(s.pa) <= RoundDown(x) < End(s) }

  /** What it puts there. */
  function Fetched(image: Image, s: Seg, x: nat): Byte { ImageByte(image, RoundDown(s.offset) + x - RoundDown(s.pa)) }

  function After(image: Image, m: Mem, s: Seg): Mem
  {
    seq(TOP, x requires 0 <= x < TOP => if Covers(s, x) then Fetched(image, s, x) else m[x])
  }

  /** The program header at ph. */
  function SegAt(m: Mem, ph: nat): Seg { Seg(Load32(m, ph + 12), Load32(m, ph + 20), Load32(m, ph + 4)) }

  datatype Outcome = Entered(m: Mem, entry: Word) | Bad(m: Mem) | Hang

  /** The loop over program headers, each read from memory when its turn comes. */
  function LoadAll(image: Image, m: Mem, ph: nat, eph: nat): Outcome
    decreases eph - ph
  {
    if ph >= eph then Entered(m, Load32(m, ELFHDR + 24))
    else if Hangs(SegAt(m, ph)) then Hang
    else LoadAll(image, After(image, m, SegAt(m, ph)), ph + PHSIZE, eph)
  }

  function Header(m: Mem): Word { (ELFHDR + Load32(m, ELFHDR + 28)) % TOP }

  const FIRST: Seg := Seg(ELFHDR, HDRSIZE, 0)

  function HeaderEnd(m: Mem): Word { (Header(m) + PHSIZE * Load16(m, ELFHDR + 44)) % TOP }

  /** bootmain once the header page m is in memory. */
  function Checked(image: Image, m: Mem): Outcome
  {
    if Load32(m, ELFHDR) != ELF_MAGIC then Bad(m) else LoadAll(image, m, Header(m), HeaderEnd(m))
  }

  function BootMain(image: Image, m: Mem): Outcome { Checked(image, After(image, m, FIRST)) }

  class Machine {
    const mem: array<Byte>
    const image: Image

    constructor (mem: array<Byte>, image: Image)
      ensures this.mem == mem && this.image == image
    {
      this.mem, this.image := mem, image;
    }

    /** Sector n of the disk; the image starts at sector 1. */
    method ReadSect(dst: nat, n: nat)
      requires mem.Length == TOP && dst + SECTSIZE <= TOP && n >= 1
      modifies mem
      ensures forall x :: 0 <= x < TOP ==>
        mem[x] == if dst <= x < dst + SECTSIZE then ImageByte(image, (n - 1) * SECTSIZE + x - dst) else old(mem[x])
    {
      var i := 0;
      while i < SECTSIZE
        invariant 0 <= i <= SECTSIZE
        invariant forall x :: 0 <= x < TOP ==>
          mem[x] == if dst <= x < dst + i then ImageByte(image, (n - 1) * SECTSIZE + x - dst) else old(mem[x])
      {
        mem[dst + i] := ImageByte(image, (n - 1) * SECTSIZE + i);
        i := i + 1;
      }
    }

    /** False is no return: the loop would go on for ever. */
    method ReadSeg(s: Seg) returns (ok: bool)
      requires mem.Length == TOP
      modifies mem
      ensures ok <==> !Hangs(s)
      ensures ok ==> mem[..] == After(image, old(mem[..]), s)
    {
      var endPa := End(s);
      var pa := RoundDown(s.pa);
      var n := s.offset / SECTSIZE + 1;
      ghost var start, m0 := pa, mem[..];
      if pa < endPa && endPa > TOP - SECTSIZE { return false; }
      while pa < endPa
        invariant start <= pa < TOP && pa % SECTSIZE == 0 && (n - 1) * SECTSIZE == RoundDown(s.offset) + pa - start
        invariant pa < endPa + SECTSIZE || pa == start
        invariant n >= 1 && forall x :: 0 <= x < TOP ==>
          mem[x] == if start <= x < pa then ImageByte(image, RoundDown(s.offset) + x - start) else m0[x]
        decreases TOP - pa
      {
        ReadSect(pa, n);
        pa, n := pa + SECTSIZE, n + 1;
      }
      AfterIs(image, m0, mem[..], s, pa);
      return true;
    }

    ghost predicate Did(r: Result, o: Outcome)
      requires mem.Length == TOP
      reads mem
    {
      match o
      case Entered(m, entry) => r == Run(entry) && mem[..] == m
      case Bad(m) => r == Stopped && mem[..] == m
      case Hang => r == NoReturn
    }

    method Boot() returns (r: Result)
      requires mem.Length == TOP
      modifies mem
      ensures Did(r, BootMain(image, old(mem[..])))
    {
      var ok := ReadSeg(FIRST);
      assert !Hangs(FIRST);
      r := CheckAndLoad();
    }

    method CheckAndLoad() returns (r: Result)
      requires mem.Length == TOP
      modifies mem
      ensures Did(r, Checked(image, old(mem[..])))
    {
      ghost var m := mem[..];
      if Load32(mem[..], ELFHDR) != ELF_MAGIC { return Stopped; }
      r := LoadSegments(Header(mem[..]), HeaderEnd(mem[..]));
    }

    method LoadSegments(ph0: nat, eph: nat) returns (r: Result)
      requires mem.Length == TOP
      modifies mem
      ensures Did(r, LoadAll(image, old(mem[..]), ph0, eph))
    {
      var ph := ph0;
      ghost var whole := LoadAll(image, mem[..], ph, eph);
      while ph < eph
        invariant LoadAll(image, mem[..], ph, eph) == whole
        decreases eph - ph
      {
        var s := SegAt(mem[..], ph);
        ghost var m := mem[..];
        var ok := ReadSeg(s);
        LoadOne(image, m, ph, eph);
        if !ok { return NoReturn; }
        ph := ph + PHSIZE;
      }
      return Run(Load32(mem[..], ELFHDR + 24));
    }
  }

  lemma LoadOne(image: Image, m: Mem, ph: nat, eph: nat)
    requires ph < eph
    ensures LoadAll(image, m, ph, eph) ==
            if Hangs(SegAt(m, ph)) then Hang else LoadAll(image, After(image, m, SegAt(m, ph)), ph + PHSIZE, eph)
  {
  }

  /** Calls the entry point; stops at bad; hangs in readseg. */
  datatype Result = Run(entry: Word) | Stopped | NoReturn

  lemma AfterIs(image: Image, m0: Mem, m: Mem, s: Seg, pa: nat)
    requires pa % SECTSIZE == 0 && RoundDown(s.pa) <= pa && pa >= End(s) && (pa < End(s) + SECTSIZE || pa == RoundDown(s.pa))
    requires forall x :: 0 <= x < TOP ==> m[x] == if RoundDown(s.pa) <= x < pa then Fetched(image, s, x) else m0[x]
    ensures m == After(image, m0, s)
  {
    forall x | 0 <= x < TOP ensures m[x] == After(image, m0, s)[x] { CoversRange(s, x, pa); }
  }

  lemma CoversRange(s: Seg, x: nat, pa: nat)
    requires pa % SECTSIZE == 0 && RoundDown(s.pa) <= pa && pa >= End(s) && (pa < End(s) + SECTSIZE || pa == RoundDown(s.pa))
    ensures Covers(s, x) <==> RoundDown(s.pa) <= x < pa
  {
  }

  // ---------- what ends up in memory ----------

  function PhNum(m: Mem): nat { Load16(m, ELFHDR + 44) }

  /** The program headers in the header page. */
  function Headers(m: Mem): seq<Seg> { seq(PhNum(m), i requires 0 <= i < PhNum(m) => SegAt(m, Header(m) + PHSIZE * i)) }

  predicate InPage(x: int) { ELFHDR <= x < ELFHDR + HDRSIZE }

  /** The header page is a kernel's, with its program headers inside the page, and no segment is loaded over it. */
  ghost predicate GoodHeader(m: Mem)
  {
    && Load32(m, ELFHDR) == ELF_MAGIC
    && Load32(m, ELFHDR + 28) + PHSIZE * PhNum(m) <= HDRSIZE
    && forall i :: 0 <= i < PhNum(m) ==> !Hangs(Headers(m)[i]) && SparesPage(Headers(m)[i])
  }

  ghost predicate SparesPage(s: Seg) { forall x :: InPage(x) ==> !Covers(s, x) }

  /** Segments loaded one after the other. */
  function LoadSeq(image: Image, m: Mem, segs: seq<Seg>): Mem
  {
    if segs == [] then m else After(image, LoadSeq(image, m, segs[..|segs| - 1]), segs[|segs| - 1])
  }

  ghost predicate SamePage(m: Mem, n: Mem) { forall x :: InPage(x) ==> m[x] == n[x] }

  lemma SamePageLoads(m: Mem, n: Mem, a: nat)
    requires SamePage(m, n) && InPage(a) && InPage(a + 3)
    ensures Load32(m, a) == Load32(n, a) && Load16(m, a) == Load16(n, a)
  {
    assert InPage(a + 1) && InPage(a + 2);
  }

  lemma SegAtSame(m: Mem, n: Mem, a: nat)
    requires SamePage(m, n) && ELFHDR <= a && a + PHSIZE <= ELFHDR + HDRSIZE
    ensures SegAt(n, a) == SegAt(m, a)
  {
    SamePageLoads(m, n, a + 4);
    SamePageLoads(m, n, a + 12);
    SamePageLoads(m, n, a + 20);
  }

  /** Address of program header i. */
  function HeaderAt(m: Mem, i: nat): nat { Header(m) + PHSIZE * i }

  lemma HeaderInPage(m: Mem, i: nat)
    requires Load32(m, ELFHDR + 28) + PHSIZE * PhNum(m) <= HDRSIZE && i < PhNum(m)
    ensures ELFHDR <= HeaderAt(m, i) && HeaderAt(m, i) + PHSIZE <= ELFHDR + HDRSIZE
  {
    var o := Load32(m, ELFHDR + 28);
    assert Header(m) == ELFHDR + o;
  }

  lemma SamePageSeg(m: Mem, n: Mem, i: nat)
    requires SamePage(m, n) && GoodHeader(m) && i < PhNum(m)
    ensures SegAt(n, HeaderAt(m, i)) == Headers(m)[i]
  {
    HeaderInPage(m, i);
    SegAtSame(m, n, HeaderAt(m, i));
  }

  lemma SparedPageStays(image: Image, m: Mem, n: Mem, s: Seg)
    requires SamePage(m, n) && SparesPage(s)
    ensures SamePage(m, After(image, n, s))
  {
  }

  lemma LoadSeqSnoc(image: Image, m: Mem, segs: seq<Seg>, i: nat)
    requires i < |segs|
    ensures LoadSeq(image, m, segs[..i + 1]) == After(image, LoadSeq(image, m, segs[..i]), segs[i])
  {
    assert segs[..i + 1][..i] == segs[..i];
  }

  lemma GoodSeg(m: Mem, i: nat)
    requires GoodHeader(m) && i < PhNum(m)
    ensures !Hangs(Headers(m)[i]) && SparesPage(Headers(m)[i])
  {
  }

  lemma NextHeader(image: Image, m: Mem, n: Mem, ph: nat, eph: nat, s: Seg)
    requires ph < eph && SegAt(n, ph) == s && !Hangs(s) && SamePage(m, n) && SparesPage(s)
    ensures SamePage(m, After(image, n, s))
    ensures LoadAll(image, n, ph, eph) == LoadAll(image, After(image, n, s), ph + PHSIZE, eph)
  {
    SparedPageStays(image, m, n, s);
    LoadOne(image, n, ph, eph);
  }

  lemma HeaderStep(m: Mem, i: nat)
    ensures HeaderAt(m, i + 1) == HeaderAt(m, i) + PHSIZE
  {
  }

  /** From header i on, the loop does what the headers on disk say. */
  lemma {:induction false} LoadsHeaders(image: Image, m: Mem, n: Mem, i: nat)
    requires GoodHeader(m) && SamePage(m, n) && i <= PhNum(m) && n == LoadSeq(image, m, Headers(m)[..i])
    ensures LoadAll(image, n, HeaderAt(m, i), HeaderAt(m, PhNum(m))) ==
            Entered(LoadSeq(image, m, Headers(m)), Load32(m, ELFHDR + 24))
    decreases PhNum(m) - i
  {
    var segs := Headers(m);
    if i == PhNum(m) {
      assert segs[..i] == segs;
      SamePageLoads(m, n, ELFHDR + 24);
    } else {
      SamePageSeg(m, n, i);
      GoodSeg(m, i);
      HeaderStep(m, i);
      NextHeader(image, m, n, HeaderAt(m, i), HeaderAt(m, PhNum(m)), segs[i]);
      LoadSeqSnoc(image, m, segs, i);
      LoadsHeaders(image, m, After(image, n, segs[i]), i + 1);
    }
  }

  lemma HeaderEnds(m: Mem)
    requires Load32(m, ELFHDR + 28) + PHSIZE * PhNum(m) <= HDRSIZE
    ensures HeaderAt(m, 0) == Header(m) && HeaderAt(m, PhNum(m)) == HeaderEnd(m)
  {
    var o := Load32(m, ELFHDR + 28);
    assert Header(m) == ELFHDR + o;
  }

  /** With a good header page, bootmain enters the kernel with exactly the segments of the page loaded in order. */
  lemma BootLoadsHeaders(image: Image, m0: Mem)
    requires GoodHeader(After(image, m0, FIRST))
    ensures var m := After(image, m0, FIRST);
      BootMain(image, m0) == Entered(LoadSeq(image, m, Headers(m)), Load32(m, ELFHDR + 24))
  {
    CheckedLoadsHeaders(image, After(image, m0, FIRST));
  }

  lemma CheckedLoadsHeaders(image: Image, m: Mem)
    requires GoodHeader(m)
    ensures Checked(image, m) == Entered(LoadSeq(image, m, Headers(m)), Load32(m, ELFHDR + 24))
  {
    HeaderEnds(m);
    assert Headers(m)[..0] == [];
    LoadsHeaders(image, m, m, 0);
  }

  /** The last load over x, or -1. */
  function LastOver(segs: seq<Seg>, x: nat): (j: int)
    ensures -1 <= j < |segs| && (j >= 0 ==> Covers(segs[j], x)) && forall k :: j < k < |segs| ==> !Covers(segs[k], x)
  {
    if segs == [] then -1
    else if Covers(segs[|segs| - 1], x) then |segs| - 1
    else LastOver(segs[..|segs| - 1], x)
  }

  lemma {:induction false} LastLoadWins(image: Image, m: Mem, segs: seq<Seg>, x: nat)
    requires x < TOP
    ensures var j := LastOver(segs, x);
      LoadSeq(image, m, segs)[x] == if j >= 0 then Fetched(image, segs[j], x) else m[x]
    decreases |segs|
  {
    if segs != [] && !Covers(segs[|segs| - 1], x) { LastLoadWins(image, m, segs[..|segs| - 1], x); }
  }

  /** x is in segment s itself, as opposed to the rest of its sectors. */
  predicate InSeg(s: Seg, x: int) { s.pa <= x < s.pa + s.count }

  /** The segment's address and file offset have the same place in their sectors, and it ends in memory. */
  predicate Congruent(s: Seg) { s.pa % SECTSIZE == s.offset % SECTSIZE && s.pa + s.count < TOP }

  lemma SegIsCovered(s: Seg, x: nat)
    requires Congruent(s) && InSeg(s, x)
    ensures Covers(s, x)
  {
  }

  /** What is fetched for x is off by the misalignment between address and file offset. */
  lemma FetchedShift(image: Image, s: Seg, x: nat)
    ensures Fetched(image, s, x) == ImageByte(image, s.offset + x - s.pa + s.pa % SECTSIZE - s.offset % SECTSIZE)
  {
  }

  /** The bytes of segment i are those of the image. */
  ghost predicate Correct(image: Image, m: Mem, s: Seg)
  {
    forall x :: InSeg(s, x) ==> x < TOP && m[x] == ImageByte(image, s.offset + x - s.pa)
  }

  /** A later load that reaches into segment i brings the same bytes. */
  ghost predicate Agree(image: Image, segs: seq<Seg>, i: nat)
    requires i < |segs|
  {
    forall x: nat :: InSeg(segs[i], x) ==> AgreeAt(image, segs, i, x)
  }

  predicate AgreeAt(image: Image, segs: seq<Seg>, i: nat, x: nat)
    requires i < |segs|
  {
    var j := LastOver(segs, x);
    j <= i || ImageByte(image, segs[j].offset + x - segs[j].pa) == ImageByte(image, segs[i].offset + x - segs[i].pa)
  }

  lemma ByteOf(image: Image, m: Mem, segs: seq<Seg>, i: nat, x: nat)
    requires (forall k :: 0 <= k < |segs| ==> Congruent(segs[k])) && i < |segs| && InSeg(segs[i], x)
    ensures var j := LastOver(segs, x);
      i <= j && LoadSeq(image, m, segs)[x] == ImageByte(image, segs[j].offset + x - segs[j].pa)
  {
    SegIsCovered(segs[i], x);
    LastLoadWins(image, m, segs, x);
    FetchedShift(image, segs[LastOver(segs, x)], x);
  }

  /** Whole sectors read at both ends of each segment do no harm to segment i exactly when later loads agree with it. */
  lemma SegmentCorrectIff(image: Image, m: Mem, segs: seq<Seg>, i: nat)
    requires (forall k :: 0 <= k < |segs| ==> Congruent(segs[k])) && i < |segs|
    ensures Correct(image, LoadSeq(image, m, segs), segs[i]) <==> Agree(image, segs, i)
  {
    var n, s := LoadSeq(image, m, segs), segs[i];
    forall x | InSeg(s, x)
      ensures x < TOP && (n[x] == ImageByte(image, s.offset + x - s.pa) <==> AgreeAt(image, segs, i, x))
    {
      ByteOf(image, m, segs, i, x);
    }
  }

  /** Segments come in increasing order: no later one, rounded down, starts inside an earlier one. */
  ghost predicate Increasing(segs: seq<Seg>)
  {
    forall i, j :: 0 <= i < j < |segs| ==> RoundDown(segs[j].pa) >= segs[i].pa + segs[i].count
  }

  /** Boot loading: for a good header page whose segments are congruent and increasing, the kernel is entered with every
      byte of every segment equal to the image's. */
  lemma BootIsCorrect(image: Image, m0: Mem)
    requires var m := After(image, m0, FIRST);
      GoodHeader(m) && Increasing(Headers(m)) && forall k :: 0 <= k < PhNum(m) ==> Congruent(Headers(m)[k])
    ensures BootMain(image, m0).Entered?
    ensures forall i :: 0 <= i < PhNum(After(image, m0, FIRST)) ==>
              Correct(image, BootMain(image, m0).m, Headers(After(image, m0, FIRST))[i])
  {
    var m := After(image, m0, FIRST);
    BootLoadsHeaders(image, m0);
    var segs := Headers(m);
    forall i | 0 <= i < |segs| ensures Correct(image, LoadSeq(image, m, segs), segs[i]) {
      forall x | InSeg(segs[i], x) ensures LastOver(segs, x) <= i {
        assert forall j :: i < j < |segs| ==> RoundDown(segs[j].pa) >= segs[i].pa + segs[i].count > x >= RoundDown(x);
      }
      SegmentCorrectIff(image, m, segs, i);
    }
  }

  /** So are, in any order, segments that all keep the same distance from file offset to address. */
  lemma OneDistanceIsCorrect(image: Image, m: Mem, segs: seq<Seg>, d: int)
    requires forall k :: 0 <= k < |segs| ==> Congruent(segs[k]) && segs[k].pa - segs[k].offset == d
    ensures forall i :: 0 <= i < |segs| ==> Correct(image, LoadSeq(image, m, segs), segs[i])
  {
    forall i | 0 <= i < |segs| ensures Correct(image, LoadSeq(image, m, segs), segs[i]) {
      SegmentCorrectIff(image, m, segs, i);
    }
  }

  // ---------- a kernel image ----------

  /** struct Elf and struct Proghdr, fields in order; a half is 16 bits. */
  type Half = h: int | 0 <= h < 0x1_0000

  datatype Elf = Elf(magic: Word, ident: seq<Byte>, etype: Half, machine: Half, version: Word, entry: Word, phoff: Word,
                     shoff: Word, flags: Word, ehsize: Half, phentsize: Half, phnum: Half, shentsize: Half, shnum: Half,
                     shstrndx: Half)

  datatype Proghdr = Proghdr(ptype: Word, offset: Word, va: Word, pa: Word, filesz: Word, memsz: Word, flags: Word,
                             align: Word)

  function HalfBytes(h: Half): (b: seq<Byte>)
    ensures |b| == 2
  {
    [h % 0x100, h / 0x100]
  }

  function WordBytes(w: Word): (b: seq<Byte>)
    ensures |b| == 4
  {
    HalfBytes(w % 0x1_0000) + HalfBytes(w / 0x1_0000)
  }

  /** The structures in memory order, little-endian. */
  function ElfBytes(e: Elf): seq<Byte>
  {
    WordBytes(e.magic) + e.ident + HalfBytes(e.etype) + HalfBytes(e.machine) + WordBytes(e.version)
    + WordBytes(e.entry) + WordBytes(e.phoff) + WordBytes(e.shoff) + WordBytes(e.flags)
    + HalfBytes(e.ehsize) + HalfBytes(e.phentsize) + HalfBytes(e.phnum)
    + HalfBytes(e.shentsize) + HalfBytes(e.shnum) + HalfBytes(e.shstrndx)
  }

  function ProghdrBytes(p: Proghdr): seq<Byte>
  {
    WordBytes(p.ptype) + WordBytes(p.offset) + WordBytes(p.va) + WordBytes(p.pa)
    + WordBytes(p.filesz) + WordBytes(p.memsz) + WordBytes(p.flags) + WordBytes(p.align)
  }

  /** bs is at offset o of s. */
  predicate At(s: seq<Byte>, o: nat, bs: seq<Byte>) { o + |bs| <= |s| && s[o..o + |bs|] == bs }

  lemma AtSplit(s: seq<Byte>, o: nat, a: seq<Byte>, b: seq<Byte>)
    requires At(s, o, a + b)
    ensures At(s, o, a) && At(s, o + |a|, b)
  {
    assert s[o..o + |a|] == s[o..o + |a + b|][..|a|] == a;
    assert s[o + |a|..o + |a| + |b|] == s[o..o + |a + b|][|a|..] == b;
  }

  lemma ElfFields(s: seq<Byte>, e: Elf)
    requires At(s, 0, ElfBytes(e)) && |e.ident| == 12
    ensures At(s, 0, WordBytes(e.magic)) && At(s, 24, WordBytes(e.entry)) && At(s, 28, WordBytes(e.phoff))
    ensures At(s, 44, HalfBytes(e.phnum))
  {
    var a1 := WordBytes(e.magic) + e.ident;
    var a2 := a1 + HalfBytes(e.etype) + HalfBytes(e.machine);
    var a3 := a2 + WordBytes(e.version);
    var a4 := a3 + WordBytes(e.entry);
    var a5 := a4 + WordBytes(e.phoff);
    var a6 := a5 + WordBytes(e.shoff) + WordBytes(e.flags) + HalfBytes(e.ehsize) + HalfBytes(e.phentsize);
    var a7 := a6 + HalfBytes(e.phnum);
    var tail := HalfBytes(e.shentsize) + HalfBytes(e.shnum) + HalfBytes(e.shstrndx);
    assert ElfBytes(e) == a7 + tail;
    AtSplit(s, 0, a7, tail);
    AtSplit(s, 0, a6, HalfBytes(e.phnum));
    var mid := WordBytes(e.shoff) + WordBytes(e.flags) + HalfBytes(e.ehsize) + HalfBytes(e.phentsize);
    assert a6 == a5 + mid;
    AtSplit(s, 0, a5, mid);
    AtSplit(s, 0, a4, WordBytes(e.phoff));
    AtSplit(s, 0, a3, WordBytes(e.entry));
    var rest := e.ident + HalfBytes(e.etype) + HalfBytes(e.machine) + WordBytes(e.version);
    assert a3 == WordBytes(e.magic) + rest;
    AtSplit(s, 0, WordBytes(e.magic), rest);
  }

  lemma ProghdrFields(s: seq<Byte>, o: nat, p: Proghdr)
    requires At(s, o, ProghdrBytes(p))
    ensures At(s, o + 4, WordBytes(p.offset)) && At(s, o + 12, WordBytes(p.pa)) && At(s, o + 20, WordBytes(p.memsz))
  {
    var a := WordBytes(p.ptype);
    var b := a + WordBytes(p.offset);
    var c := b + WordBytes(p.va);
    var d := c + WordBytes(p.pa);
    var e := d + WordBytes(p.filesz);
    var f := e + WordBytes(p.memsz);
    var tail := WordBytes(p.flags) + WordBytes(p.align);
    assert ProghdrBytes(p) == f + tail;
    AtSplit(s, o, f, tail);
    AtSplit(s, o, e, WordBytes(p.memsz));
    AtSplit(s, o, d, WordBytes(p.filesz));
    AtSplit(s, o, c, WordBytes(p.pa));
    AtSplit(s, o, b, WordBytes(p.va));
    AtSplit(s, o, a, WordBytes(p.offset));
  }

  /** The header page in memory is the first page of the image. */
  lemma PageByte(image: Image, m0: Mem, o: nat)
    requires o < HDRSIZE
    ensures Load8(After(image, m0, FIRST), ELFHDR + o) == ImageByte(image, o)
  {
    assert Covers(FIRST, ELFHDR + o);
  }

  lemma PageHalf(image: Image, m0: Mem, o: nat, h: Half)
    requires o + 2 <= HDRSIZE && At(image, o, HalfBytes(h))
    ensures Load16(After(image, m0, FIRST), ELFHDR + o) == h
  {
    PageByte(image, m0, o);
    PageByte(image, m0, o + 1);
    assert image[o..o + 2][0] == image[o] && image[o..o + 2][1] == image[o + 1];
  }

  lemma PageWord(image: Image, m0: Mem, o: nat, w: Word)
    requires o + 4 <= HDRSIZE && At(image, o, WordBytes(w))
    ensures Load32(After(image, m0, FIRST), ELFHDR + o) == w
  {
    AtSplit(image, o, HalfBytes(w % 0x1_0000), HalfBytes(w / 0x1_0000));
    PageHalf(image, m0, o, w % 0x1_0000);
    PageHalf(image, m0, o + 2, w / 0x1_0000);
  }

  /** The image starts with an ELF header whose program headers are phs, all within the first page. */
  ghost predicate KernelImage(image: Image, e: Elf, phs: seq<Proghdr>)
  {
    && |e.ident| == 12 && e.magic == 0x464C_457F && At(image, 0, ElfBytes(e))
    && |phs| == e.phnum && e.phoff + 32 * |phs| <= 4096
    && forall i :: 0 <= i < |phs| ==> At(image, e.phoff + 32 * i, ProghdrBytes(phs[i]))
  }

  /** Loadable: congruent, clear of the header page and of the last sector of memory, and after the segments before it. */
  ghost predicate GoodSegments(phs: seq<Proghdr>)
  {
    && (forall i :: 0 <= i < |phs| ==>
          && phs[i].pa % 512 == phs[i].offset % 512
          && (phs[i].pa + phs[i].memsz <= 0x1_0000 || 0x1_1000 <= phs[i].pa)
          && phs[i].pa + phs[i].memsz <= 0x1_0000_0000 - 512)
    && forall i, j :: 0 <= i < j < |phs| ==> phs[i].pa + phs[i].memsz <= phs[j].pa - phs[j].pa % 512
  }

  lemma HeaderIs(image: Image, m0: Mem, e: Elf, phs: seq<Proghdr>)
    requires KernelImage(image, e, phs)
    ensures var m := After(image, m0, FIRST);
      && Load32(m, ELFHDR) == ELF_MAGIC && Load32(m, ELFHDR + 24) == e.entry && Load32(m, ELFHDR + 28) == e.phoff
      && Header(m) == ELFHDR + e.phoff && PhNum(m) == |phs|
  {
    ElfFields(image, e);
    PageWord(image, m0, 0, e.magic);
    PageWord(image, m0, 24, e.entry);
    PageWord(image, m0, 28, e.phoff);
    PageHalf(image, m0, 44, e.phnum);
  }

  lemma ProghdrIs(image: Image, m0: Mem, o: nat, p: Proghdr)
    requires At(image, o, ProghdrBytes(p)) && o + 32 <= HDRSIZE
    ensures SegAt(After(image, m0, FIRST), ELFHDR + o) == Seg(p.pa, p.memsz, p.offset)
  {
    ProghdrFields(image, o, p);
    PageWord(image, m0, o + 4, p.offset);
    PageWord(image, m0, o + 12, p.pa);
    PageWord(image, m0, o + 20, p.memsz);
  }

  lemma SegIs(image: Image, m0: Mem, e: Elf, phs: seq<Proghdr>, i: nat)
    requires KernelImage(image, e, phs) && i < |phs|
    ensures var m := After(image, m0, FIRST);
      i < PhNum(m) && Headers(m)[i] == Seg(phs[i].pa, phs[i].memsz, phs[i].offset)
  {
    HeaderIs(image, m0, e, phs);
    ProghdrIs(image, m0, e.phoff + 32 * i, phs[i]);
  }

  lemma GoodSegIs(p: Proghdr)
    requires p.pa + p.memsz <= 0x1_0000 || 0x1_1000 <= p.pa
    requires p.pa % 512 == p.offset % 512 && p.pa + p.memsz <= 0x1_0000_0000 - 512
    ensures var s := Seg(p.pa, p.memsz, p.offset); !Hangs(s) && SparesPage(s) && Congruent(s)
  {
  }

  lemma KernelPage(image: Image, m0: Mem, e: Elf, phs: seq<Proghdr>)
    requires KernelImage(image, e, phs) && GoodSegments(phs)
    ensures var m := After(image, m0, FIRST);
      && GoodHeader(m) && Increasing(Headers(m)) && Load32(m, ELFHDR + 24) == e.entry
      && |Headers(m)| == |phs| && forall i :: 0 <= i < |phs| ==>
           Congruent(Headers(m)[i]) && Headers(m)[i] == Seg(phs[i].pa, phs[i].memsz, phs[i].offset)
  {
    var m := After(image, m0, FIRST);
    HeaderIs(image, m0, e, phs);
    forall i | 0 <= i < |phs|
      ensures Headers(m)[i] == Seg(phs[i].pa, phs[i].memsz, phs[i].offset)
      ensures !Hangs(Headers(m)[i]) && SparesPage(Headers(m)[i]) && Congruent(Headers(m)[i])
    {
      SegIs(image, m0, e, phs, i);
      GoodSegIs(phs[i]);
    }
  }

  /** The segment is at its physical address, as it is in the image at its offset. */
  ghost predicate Loaded(image: Image, m: Mem, p: Proghdr)
  {
    forall x :: p.pa <= x < p.pa + p.memsz ==> x < TOP && m[x] == ImageByte(image, p.offset + x - p.pa)
  }

  /** Booting a kernel: whatever was in memory, the kernel is entered at its entry point with every segment loaded. */
  lemma BootLoadsKernel(image: Image, m0: Mem, e: Elf, phs: seq<Proghdr>)
    requires KernelImage(image, e, phs) && GoodSegments(phs)
    ensures match BootMain(image, m0)
            case Entered(m, entry) => entry == e.entry && forall i :: 0 <= i < |phs| ==> Loaded(image, m, phs[i])
            case _ => false
  {
    KernelPage(image, m0, e, phs);
    BootLoadsHeaders(image, m0);
    BootIsCorrect(image, m0);
    var m := After(image, m0, FIRST);
    forall i | 0 <= i < |phs| ensures Loaded(image, BootMain(image, m0).m, phs[i]) {
      assert Correct(image, BootMain(image, m0).m, Headers(m)[i]);
    }
  }
}
