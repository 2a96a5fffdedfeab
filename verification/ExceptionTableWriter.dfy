/** Language specific data as a compiler writes it, and that the personality routine reads from it the
    call sites that were written. */
module ExceptionTableWriter {
  import opened Options
  import opened Leb128
  import opened ExceptionTable

  /** A call site to write. Its clauses are numbers of types in the type table, or 0 for a cleanup; if
      there are none, the landing pad only is a cleanup. */
  datatype Site = Site(start: nat, length: nat, landingPad: nat, clauses: seq<nat>)

  function FixedBytes(n: nat, width: nat): (bytes: seq<Byte>)
    ensures |bytes| == width
  {
    if width == 0 then [] else [n % 256] + FixedBytes(n / 256, width - 1)
  }

  /** The last four bits for a format: DW_EH_PE_uleb128 is 1, DW_EH_PE_udata2, 4 and 8 are 2 to 4, and signed
      formats have another 8. */
  function CodeOf(format: Format): nat {
    match format
    case Variable => 1
    case SignedVariable => 8 + 1
    case Fixed(width) => SizeCode(width)
    case SignedFixed(width) => 8 + SizeCode(width)
    case Omitted => 0xF
  }

  function SizeCode(width: nat): nat { if width == 2 then 2 else if width == 4 then 3 else 4 }

  predicate Standard(format: Format) { format.Sized() ==> format.width == 2 || format.width == 4 || format.width == 8 }

  /** The byte for an encoding: DW_EH_PE_pcrel is 0x10, DW_EH_PE_indirect 0x80, and DW_EH_PE_omit 0xFF. */
  function ByteOf(enc: Encoding): nat {
    if enc.format.Omitted? then 0xFF
    else CodeOf(enc.format) + (if enc.relative then 0x10 else 0) + (if enc.indirect then 0x80 else 0)
  }

  /** Exactly the codes of formats are supported; DW_EH_PE_absptr, 0, is like DW_EH_PE_udata8. */
  lemma FormatCodes(b: Byte, format: Format)
    ensures FormatOf(b) == Some(format) <==>
              !format.Omitted? && Standard(format) && (b % 16 == CodeOf(format) || (b % 16 == 0 && format == Fixed(8)))
  {
  }

  /** Exactly the bytes of encodings are supported, and give them. */
  lemma {:induction false} EncodingBytes(b: Byte, enc: Encoding)
    requires !enc.format.Omitted? && Standard(enc.format)
    ensures EncodingOf(b) == Some(enc) <==> b == ByteOf(enc) || (enc.format == Fixed(8) && b == ByteOf(enc) - 4)
  {
    hide FormatOf, CodeOf, Standard;
    FormatCodes(b, enc.format);
    CodeIsSmall(enc.format);
    assert b == b % 16 + 16 * (b / 16 % 8) + if b >= 0x80 then 0x80 else 0;
  }

  lemma CodeIsSmall(format: Format)
    requires Standard(format)
    ensures 0 < CodeOf(format) < 16 && (format == Fixed(8) ==> CodeOf(format) == 4)
  {
  }

  /** Other encodings are not; an omitted pointer is neither relative nor indirect. */
  lemma EncodingsAreStandard(b: Byte)
    ensures EncodingOf(b).Some? ==> Standard(EncodingOf(b).value.format)
    ensures EncodingOf(b).Some? && EncodingOf(b).value.format.Omitted? <==> b == OMIT
    ensures EncodingOf(OMIT) == Some(Encoding(Omitted, false, false))
  {
  }

  /** A number is written as it is, or, where that is what is read, in two's complement. */
  function EncodePointer(n: nat, format: Format): seq<Byte> {
    match format
    case Variable => EncodeU(n)
    case SignedVariable => EncodeS(Signed(n, 8))
    case Fixed(width) => FixedBytes(n, width)
    case SignedFixed(width) => FixedBytes(Signed(n, 8) % Pow256(width), width)
    case Omitted => []
  }

  /** The numbers that can be read back. */
  predicate Fits(n: nat, format: Format) {
    && n < Pow256(8)
    && match format
       case Variable => n < LIMIT
       case SignedVariable => Least(MOST) <= Signed(n, 8) < LIMIT
       case Fixed(width) => n < Pow256(width)
       case SignedFixed(width) => 0 <= 2 * Signed(n, 8) + Pow256(width) < 2 * Pow256(width)
       case Omitted => n == 0
  }

  /** What a pointer points to: the address that is meant, or a cell that holds it. */
  function Target(n: nat, enc: Encoding, cell: nat -> nat): nat { if enc.indirect then cell(n) else n }

  /** The number to write at p for a pointer to an address. */
  function NumberFor(target: nat, p: nat, enc: Encoding): nat { if enc.relative then Word(target - p) else target }

  /** A pointer to n, written at p; cells hold the addresses that are pointed to indirectly. */
  function WritePointer(n: nat, p: nat, enc: Encoding, cell: nat -> nat): (bytes: seq<Byte>)
    ensures enc.format.Sized() ==> |bytes| == enc.format.width
  {
    EncodePointer(NumberFor(Target(n, enc, cell), p, enc), enc.format)
  }

  /** A pointer that can be read back where it is written. */
  predicate PointerFits(mem: seq<Byte>, n: nat, p: nat, enc: Encoding, cell: nat -> nat) {
    if enc.format.Omitted? then n == 0
    else
      var target := Target(n, enc, cell);
      && target < Pow256(8) && Fits(NumberFor(target, p, enc), enc.format)
      && (enc.indirect ==> target + 8 <= |mem| && LittleEndian(mem[target..target + 8]) == n)
  }

  function WriteChain(clauses: seq<nat>): seq<Byte> {
    if clauses == [] then []
    else EncodeS(clauses[0]) + (if |clauses| == 1 then [0] else [1] + WriteChain(clauses[1..]))
  }

  function WriteActions(sites: seq<Site>): seq<Byte> {
    if sites == [] then [] else WriteChain(sites[0].clauses) + WriteActions(sites[1..])
  }

  /** An entry, written at p. */
  function WriteSite(site: Site, action: nat, p: nat, enc: Encoding, cell: nat -> nat): seq<Byte> {
    var start := WritePointer(site.start, p, enc, cell);
    var length := WritePointer(site.length, p + |start|, enc, cell);
    start + (length + (WritePointer(site.landingPad, p + |start| + |length|, enc, cell) + EncodeU(action)))
  }

  /** The action of a site whose chain is at this offset in the action table. */
  function ActionOf(site: Site, offset: nat): nat { if site.clauses == [] then 0 else offset + 1 }

  /** The entries, written at p, where the chain of the first one is at this offset in the action table. */
  function WriteTable(sites: seq<Site>, offset: nat, p: nat, enc: Encoding, cell: nat -> nat): seq<Byte>
    decreases |sites|
  {
    if sites == [] then []
    else
      var entry := WriteSite(sites[0], ActionOf(sites[0], offset), p, enc, cell);
      entry + WriteTable(sites[1..], offset + |WriteChain(sites[0].clauses)|, p + |entry|, enc, cell)
  }

  /** The addresses of the type infos, the first one last, written at p. */
  function WriteTypes(addresses: seq<nat>, p: nat, enc: Encoding, cell: nat -> nat): (bytes: seq<Byte>)
    requires enc.format.Sized()
    ensures |bytes| == |addresses| * enc.format.width
  {
    if addresses == [] then []
    else
      var rest := WriteTypes(addresses[1..], p, enc, cell);
      OneMore(|addresses|, enc.format.width);
      rest + WritePointer(addresses[0], p + |rest|, enc, cell)
  }

  lemma OneMore(n: nat, width: nat)
    requires n > 0
    ensures (n - 1) * width + width == n * width
  {
  }

  /** How to write the data: the encodings to use, a landing pad base, if one is written, where the call site
      table is going to be, and the cells that hold addresses. */
  datatype Plan = Plan(lpStart: Byte, landings: nat, ttype: Byte, callSite: Byte, at: nat, cell: nat -> nat)
  {
    predicate Supported() {
      && EncodingOf(lpStart).Some? && EncodingOf(callSite).Some? && EncodingOf(ttype).Some?
      && (ttype != OMIT ==> EncodingOf(ttype).value.format.Sized())
    }

    function CallSites(): Encoding
      requires Supported()
    {
      EncodingOf(callSite).value
    }

    function Types(): Encoding
      requires Supported()
    {
      EncodingOf(ttype).value
    }

    function Table(sites: seq<Site>): seq<Byte>
      requires Supported()
    {
      WriteTable(sites, 0, at, CallSites(), cell)
    }

    /** Where the type table starts, after the table of call sites and that of actions. */
    function TypesStart(sites: seq<Site>): nat
      requires Supported()
    {
      at + |Table(sites)| + |WriteActions(sites)|
    }

    function TypesSize(addresses: seq<nat>): nat
      requires Supported()
    {
      if ttype == OMIT then 0 else |addresses| * Types().format.width
    }

    /** The distance of the end of the type table. */
    function ClassOffset(sites: seq<Site>, addresses: seq<nat>): nat
      requires Supported()
    {
      1 + |EncodeU(|Table(sites)|)| + |Table(sites)| + |WriteActions(sites)| + TypesSize(addresses)
    }

    /** The landing pad base, at p. */
    function Front(p: nat): seq<Byte>
      requires Supported()
    {
      [lpStart] + WritePointer(landings, p + 1, EncodingOf(lpStart).value, cell)
    }

    /** The encoding of the type table and the distance of its end, if there is a table. */
    function TypesFront(offset: nat): seq<Byte> { [ttype] + if ttype == OMIT then [] else EncodeU(offset) }

    /** The call site table is where it is supposed to be in data at p. */
    predicate Places(p: nat, sites: seq<Site>, addresses: seq<nat>)
      requires Supported()
    {
      at == p + |Front(p)| + |TypesFront(ClassOffset(sites, addresses))| + 1 + |EncodeU(|Table(sites)|)|
    }
  }

  function WriteTypeTable(sites: seq<Site>, addresses: seq<nat>, plan: Plan): seq<Byte>
    requires plan.Supported()
  {
    if plan.ttype == OMIT then [] else WriteTypes(addresses, plan.TypesStart(sites), plan.Types(), plan.cell)
  }

  function WriteLsda(p: nat, sites: seq<Site>, addresses: seq<nat>, plan: Plan): seq<Byte>
    requires plan.Supported()
  {
    var table := plan.Table(sites);
    plan.Front(p) + (plan.TypesFront(plan.ClassOffset(sites, addresses))
      + ([plan.callSite] + (EncodeU(|table|)
        + (table + (WriteActions(sites) + WriteTypeTable(sites, addresses, plan))))))
  }

  // ----- what was written -----

  /** The clauses name types of a table of this size, by numbers that can be read back. */
  ghost predicate Clauses(clauses: seq<nat>, types: nat) {
    forall k :: 0 <= k < |clauses| ==> clauses[k] <= types && clauses[k] < LIMIT
  }

  ghost predicate Known(addresses: seq<nat>, infos: map<nat, Type>) {
    forall k :: 0 <= k < |addresses| ==> addresses[k] in infos
  }

  function RecordOf(clause: nat, addresses: seq<nat>, infos: map<nat, Type>): Option<Type>
    requires clause <= |addresses| && Known(addresses, infos)
  {
    if clause == 0 then None else Some(infos[addresses[clause - 1]])
  }

  function Records(clauses: seq<nat>, addresses: seq<nat>, infos: map<nat, Type>): (records: seq<Option<Type>>)
    requires Clauses(clauses, |addresses|) && Known(addresses, infos)
    ensures |records| == |clauses| && forall k :: 0 <= k < |clauses| ==>
              records[k] == RecordOf(clauses[k], addresses, infos)
  {
    seq(|clauses|, k requires 0 <= k < |clauses| => RecordOf(clauses[k], addresses, infos))
  }

  function Meaning(sites: seq<Site>, addresses: seq<nat>, infos: map<nat, Type>): seq<CallSite>
    requires (forall k :: 0 <= k < |sites| ==> Clauses(sites[k].clauses, |addresses|)) && Known(addresses, infos)
  {
    if sites == [] then []
    else [CallSite(sites[0].start, sites[0].length, sites[0].landingPad, Records(sites[0].clauses, addresses, infos))]
         + Meaning(sites[1..], addresses, infos)
  }

  // ----- reading it back -----

  lemma {:induction false} RoundTripFixed(n: nat, width: nat)
    requires n < Pow256(width)
    ensures LittleEndian(FixedBytes(n, width)) == n
  {
    if width > 0 {
      RoundTripFixed(n / 256, width - 1);
      assert FixedBytes(n, width)[1..] == FixedBytes(n / 256, width - 1);
    }
  }

  lemma {:induction false} ReadNumber(mem: seq<Byte>, p: nat, n: nat)
    requires Written(mem, p, EncodeU(n)) && n < LIMIT
    ensures DecodeU(mem, p, MOST) == Some(Read(n, p + |EncodeU(n)|))
  {
    LimitIs();
    RoundTripU(mem, p, n, MOST);
  }

  lemma {:induction false} ReadSigned(mem: seq<Byte>, p: nat, n: int)
    requires Written(mem, p, EncodeS(n)) && Least(MOST) <= n < LIMIT
    ensures DecodeS(mem, p, MOST) == Some(Read(n, p + |EncodeS(n)|))
  {
    LimitIs();
    RoundTripS(mem, p, n, MOST);
  }

  lemma WordSize()
    ensures Pow256(8) == 0x1_0000_0000_0000_0000
  {
    assert Pow256(4) == 256 * Pow256(3) == 256 * 256 * Pow256(2) == 256 * 256 * 256 * Pow256(1) == 0x1_0000_0000;
    assert Pow256(8) == 256 * Pow256(7) == 256 * 256 * Pow256(6) == 256 * 256 * 256 * Pow256(5)
           == 0x1_0000_0000 * Pow256(4);
  }

  lemma WordOfSigned(n: nat)
    requires n < Pow256(8)
    ensures Word(Signed(n, 8)) == n == Word(n)
  {
    WordSize();
  }

  /** Two's complement of so many bytes is undone by reading it. */
  lemma SignedRound(v: int, size: nat)
    requires size > 0 && 0 <= 2 * v + size < 2 * size
    ensures v % size == if v >= 0 then v else v + size
  {
    if v < 0 {
      Quotient(v, size, -1, v + size);
    }
  }

  /** Division has one quotient and remainder. */
  lemma Quotient(v: int, size: nat, q: int, r: int)
    requires 0 <= r < size && v == q * size + r
    ensures v % size == r
  {
    var d := v / size - q;
    assert d * size == (v / size) * size - q * size;
    Product(d, size);
  }

  lemma Product(d: int, size: nat)
    ensures d > 0 ==> d * size >= size
    ensures d < 0 ==> d * size <= 0 - size
  {
    if d > 0 {
      NonNegative(d - 1, size);
      assert d * size == (d - 1) * size + size;
    } else if d < 0 {
      NonNegative(-1 - d, size);
      assert d * size == -((-1 - d) * size) - size;
    }
  }

  lemma NonNegative(a: nat, b: nat)
    ensures a * b >= 0
  {
  }

  /** A number is read back, up to multiples of the word size. */
  lemma {:induction false} ReadFormat(mem: seq<Byte>, p: nat, n: nat, format: Format)
    requires Written(mem, p, EncodePointer(n, format)) && Fits(n, format)
    ensures var r := DecodeNumber(mem, p, format);
            && r.Some? && r.value.next == p + |EncodePointer(n, format)|
            && (r.value.value == n || r.value.value == Signed(n, 8))
  {
    hide Signed, Pow256, FixedBytes, LittleEndian, EncodeU, EncodeS, DecodeU, DecodeS;
    match format
    case Variable => ReadNumber(mem, p, n);
    case SignedVariable => ReadSigned(mem, p, Signed(n, 8));
    case Fixed(width) => RoundTripFixed(n, width);
    case SignedFixed(width) =>
      RoundTripFixed(Signed(n, 8) % Pow256(width), width);
      ReadTwosComplement(Signed(n, 8), width);
    case Omitted =>
  }

  /** The distance from p leads from p to the address. */
  lemma WordBack(target: nat, p: nat, value: int)
    requires target < Pow256(8) && (value == Word(target - p) || value == Signed(Word(target - p), 8))
    ensures Word(value + p) == target
  {
    WordSize();
  }

  /** Reading a pointer gives the address that it was written for: relative ones relative to where they are,
      indirect ones by way of their cells. */
  lemma {:induction false} ReadPointer(mem: seq<Byte>, p: nat, n: nat, enc: Encoding, cell: nat -> nat)
    requires Written(mem, p, WritePointer(n, p, enc, cell)) && PointerFits(mem, n, p, enc, cell)
    ensures DecodePointer(mem, p, enc) == Some(Read(n, p + |WritePointer(n, p, enc, cell)|))
  {
    hide Signed, Pow256, LittleEndian, Word, EncodePointer, DecodeNumber, Fits;
    if !enc.format.Omitted? {
      var target := Target(n, enc, cell);
      ReadFormat(mem, p, NumberFor(target, p, enc), enc.format);
      if enc.relative {
        WordBack(target, p, DecodeNumber(mem, p, enc.format).value.value);
      } else {
        WordOfSigned(target);
      }
    } else {
      NothingWritten(NumberFor(Target(n, enc, cell), p, enc));
    }
  }

  lemma NothingWritten(n: nat)
    ensures EncodePointer(n, Omitted) == []
  {
  }

  lemma ReadTwosComplement(v: int, width: nat)
    requires 0 <= 2 * v + Pow256(width) < 2 * Pow256(width)
    ensures Signed(v % Pow256(width), width) == v
  {
    SignedRound(v, Pow256(width));
  }

  /** The positions of the records of a chain that starts at p. */
  function ChainAt(p: nat, clauses: seq<nat>): (at: seq<nat>)
    ensures |at| == |clauses|
    decreases |clauses|
  {
    if clauses == [] then [] else [p] + ChainAt(p + |EncodeS(clauses[0])| + 1, clauses[1..])
  }

  lemma EncodeLinks()
    ensures EncodeS(0) == [0] && EncodeS(1) == [1]
  {
  }

  lemma ChainParts(clauses: seq<nat>)
    requires clauses != []
    ensures WriteChain(clauses) == EncodeS(clauses[0])
            + (if |clauses| == 1 then EncodeS(0) + [] else EncodeS(1) + WriteChain(clauses[1..]))
  {
    hide EncodeS;
    EncodeLinks();
  }

  /** The first record of a chain. */
  lemma {:induction false} LinkWritten(mem: seq<Byte>, p: nat, clauses: seq<nat>)
    requires clauses != [] && Written(mem, p, WriteChain(clauses)) && clauses[0] < LIMIT
    ensures ChainLink(mem, ChainAt(p, clauses), clauses, 0)
    ensures |clauses| > 1 ==> Written(mem, p + |EncodeS(clauses[0])| + 1, WriteChain(clauses[1..]))
  {
    hide Written, DecodeS, EncodeS, WriteChain;
    EncodeLinks();
    ChainParts(clauses);
    var q := p + |EncodeS(clauses[0])|;
    var link := if |clauses| == 1 then 0 else 1;
    var rest := if |clauses| == 1 then [] else WriteChain(clauses[1..]);
    WrittenParts(mem, p, EncodeS(clauses[0]), EncodeS(link) + rest);
    WrittenParts(mem, q, EncodeS(link), rest);
    LimitIs();
    ReadSigned(mem, p, clauses[0]);
    ReadSigned(mem, q, link);
    if |clauses| > 1 {
      assert ChainAt(p, clauses)[1] == ChainAt(q + 1, clauses[1..])[0];
    }
  }

  lemma LinkShift(mem: seq<Byte>, at: seq<nat>, types: seq<nat>, k: nat)
    requires 0 < k < |at| == |types| && ChainLink(mem, at[1..], types[1..], k - 1)
    ensures ChainLink(mem, at, types, k)
  {
  }

  lemma {:induction false} ChainWritten(mem: seq<Byte>, p: nat, clauses: seq<nat>)
    requires clauses != [] && Written(mem, p, WriteChain(clauses))
    requires forall k :: 0 <= k < |clauses| ==> clauses[k] < LIMIT
    ensures Chain(mem, ChainAt(p, clauses), clauses)
    decreases |clauses|
  {
    hide Written, ChainLink, WriteChain, EncodeS;
    var at := ChainAt(p, clauses);
    LinkWritten(mem, p, clauses);
    if |clauses| > 1 {
      ChainWritten(mem, p + |EncodeS(clauses[0])| + 1, clauses[1..]);
    }
    forall k: nat | k < |clauses|
      ensures ChainLink(mem, at, clauses, k)
    {
      if k > 0 {
        assert ChainLink(mem, at[1..], clauses[1..], k - 1);
        LinkShift(mem, at, clauses, k);
      }
    }
  }

  lemma {:induction false} TypeWritten(mem: seq<Byte>, p: nat, addresses: seq<nat>, enc: Encoding,
                                       cell: nat -> nat, t: nat)
    requires enc.format.Sized() && Written(mem, p, WriteTypes(addresses, p, enc, cell)) && 0 < t <= |addresses|
    ensures t * enc.format.width <= |addresses| * enc.format.width
    ensures var q := p + |addresses| * enc.format.width - t * enc.format.width;
            Written(mem, q, WritePointer(addresses[t - 1], q, enc, cell))
    decreases t
  {
    hide Written, WritePointer;
    var n, width := |addresses|, enc.format.width;
    Times(n, t, width);
    var rest := WriteTypes(addresses[1..], p, enc, cell);
    WrittenParts(mem, p, rest, WritePointer(addresses[0], p + |rest|, enc, cell));
    if t > 1 {
      TypeWritten(mem, p, addresses[1..], enc, cell, t - 1);
    } else {
      assert n * width - 1 * width == (n - 1) * width;
    }
  }

  lemma Times(n: nat, t: nat, width: nat)
    requires 0 < t <= n
    ensures t * width <= n * width
    ensures n * width - t * width == (n - 1) * width - (t - 1) * width
  {
    assert n * width == (n - 1) * width + width && t * width == (t - 1) * width + width;
    assert (n - t) * width >= 0;
  }

  /** The type table in memory, before the class info, unless it is omitted. */
  ghost predicate TypesAt(m: Memory, header: Header, addresses: seq<nat>, cell: nat -> nat) {
    if header.ttype.None? then addresses == []
    else
      && header.ttype.value.format.Sized() && Known(addresses, m.infos)
      && var enc, size := header.ttype.value, |addresses| * header.ttype.value.format.width;
      && header.classInfo >= size && TypesFit(m.bytes, header.classInfo, addresses, enc, cell)
      && Written(m.bytes, header.classInfo - size, WriteTypes(addresses, header.classInfo - size, enc, cell))
  }

  /** The entries before the end of a type table can be read back. */
  ghost predicate TypesFit(mem: seq<Byte>, end: nat, addresses: seq<nat>, enc: Encoding, cell: nat -> nat)
    requires enc.format.Sized()
  {
    forall t {:trigger addresses[t - 1]} :: 0 < t <= |addresses| && t * enc.format.width <= end ==>
      PointerFits(mem, addresses[t - 1], end - t * enc.format.width, enc, cell)
  }

  lemma {:induction false} TypeRead(m: Memory, header: Header, addresses: seq<nat>, cell: nat -> nat, t: nat)
    requires TypesAt(m, header, addresses, cell) && 0 < t <= |addresses|
    ensures TypeInfo(m, header, t) == Some(m.infos[addresses[t - 1]])
  {
    hide Written, DecodePointer, WritePointer, PointerFits;
    var enc := header.ttype.value;
    TypeWritten(m.bytes, header.classInfo - |addresses| * enc.format.width, addresses, enc, cell, t);
    ReadPointer(m.bytes, header.classInfo - t * enc.format.width, addresses[t - 1], enc, cell);
  }

  lemma {:induction false} RecordsWritten(m: Memory, header: Header, addresses: seq<nat>, cell: nat -> nat,
                                          clauses: seq<nat>)
    requires TypesAt(m, header, addresses, cell) && Clauses(clauses, |addresses|)
    ensures RecordsAre(m, header, clauses, Records(clauses, addresses, m.infos))
  {
    hide TypeInfo, Written, TypesFit;
    forall k: nat | k < |clauses| && clauses[k] != 0
      ensures TypeInfo(m, header, clauses[k]) == Some(m.infos[addresses[clauses[k] - 1]])
    {
      TypeRead(m, header, addresses, cell, clauses[k]);
    }
  }

  /** All numbers of a site can be read back where they are written. */
  ghost predicate SiteFits(mem: seq<Byte>, site: Site, p: nat, enc: Encoding, cell: nat -> nat) {
    var p1 := p + |WritePointer(site.start, p, enc, cell)|;
    var p2 := p1 + |WritePointer(site.length, p1, enc, cell)|;
    && PointerFits(mem, site.start, p, enc, cell) && PointerFits(mem, site.length, p1, enc, cell)
    && PointerFits(mem, site.landingPad, p2, enc, cell)
  }

  /** So can those of all sites. */
  ghost predicate SitesFit(mem: seq<Byte>, sites: seq<Site>, offset: nat, p: nat, enc: Encoding, cell: nat -> nat)
    decreases |sites|
  {
    sites == []
    || (SiteFits(mem, sites[0], p, enc, cell)
        && SitesFit(mem, sites[1..], offset + |WriteChain(sites[0].clauses)|,
                    p + |WriteSite(sites[0], ActionOf(sites[0], offset), p, enc, cell)|, enc, cell))
  }

  ghost predicate AllClauses(sites: seq<Site>, types: nat) {
    forall k :: 0 <= k < |sites| ==> Clauses(sites[k].clauses, types)
  }

  lemma {:induction false} EntryWritten(mem: seq<Byte>, p: nat, site: Site, action: nat, enc: Encoding,
                                        cell: nat -> nat)
    requires Written(mem, p, WriteSite(site, action, p, enc, cell)) && action < LIMIT
    requires SiteFits(mem, site, p, enc, cell)
    ensures var next := p + |WriteSite(site, action, p, enc, cell)|;
            DecodeEntry(mem, p, enc) == Some(TableEntry(site.start, site.length, site.landingPad, action, next))
  {
    hide Written, DecodePointer, DecodeU, WritePointer, EncodeU, PointerFits;
    var a := WritePointer(site.start, p, enc, cell);
    var p1 := p + |a|;
    var b := WritePointer(site.length, p1, enc, cell);
    var p2 := p1 + |b|;
    var c := WritePointer(site.landingPad, p2, enc, cell);
    WrittenParts(mem, p, a, b + (c + EncodeU(action)));
    WrittenParts(mem, p1, b, c + EncodeU(action));
    WrittenParts(mem, p2, c, EncodeU(action));
    ReadPointer(mem, p, site.start, enc, cell);
    ReadPointer(mem, p1, site.length, enc, cell);
    ReadPointer(mem, p2, site.landingPad, enc, cell);
    ReadNumber(mem, p2 + |c|, action);
  }

  lemma {:induction false} SiteWritten(m: Memory, header: Header, p: nat, site: Site, offset: nat, addresses: seq<nat>,
                                       cell: nat -> nat)
    requires TypesAt(m, header, addresses, cell) && Clauses(site.clauses, |addresses|)
    requires SiteFits(m.bytes, site, p, header.callSite, cell) && offset < LIMIT - 1
    requires Written(m.bytes, p, WriteSite(site, ActionOf(site, offset), p, header.callSite, cell))
    requires Written(m.bytes, header.actions + offset, WriteChain(site.clauses))
    ensures var entry := WriteSite(site, ActionOf(site, offset), p, header.callSite, cell);
            && DecodeEntry(m.bytes, p, header.callSite)
               == Some(TableEntry(site.start, site.length, site.landingPad, ActionOf(site, offset), p + |entry|))
            && |entry| > 0
    ensures if site.clauses == [] then Records(site.clauses, addresses, m.infos) == []
            else ActionIs(m, header, header.actions + offset, Records(site.clauses, addresses, m.infos))
  {
    hide Written, DecodeEntry, Chain, RecordsAre, WriteChain, SiteFits, TypesFit;
    EntryWritten(m.bytes, p, site, ActionOf(site, offset), header.callSite, cell);
    if site.clauses != [] {
      ChainWritten(m.bytes, header.actions + offset, site.clauses);
      RecordsWritten(m, header, addresses, cell, site.clauses);
      var at := ChainAt(header.actions + offset, site.clauses);
      assert at[0] == header.actions + offset;
    }
  }

  lemma {:induction false} TableWritten(m: Memory, header: Header, p: nat, sites: seq<Site>, offset: nat,
                                        addresses: seq<nat>, cell: nat -> nat)
    requires TypesAt(m, header, addresses, cell) && AllClauses(sites, |addresses|)
    requires SitesFit(m.bytes, sites, offset, p, header.callSite, cell)
    requires Written(m.bytes, p, WriteTable(sites, offset, p, header.callSite, cell))
    requires Written(m.bytes, header.actions + offset, WriteActions(sites))
    requires header.actions == p + |WriteTable(sites, offset, p, header.callSite, cell)|
    requires offset + |WriteActions(sites)| < LIMIT - 1
    ensures TableIs(m, header, p, Meaning(sites, addresses, m.infos))
    decreases |sites|
  {
    hide Written, DecodeEntry, ActionIs, WriteSite, WriteChain, Records, SiteFits, TypesAt, Clauses;
    if sites != [] {
      var site, chain := sites[0], WriteChain(sites[0].clauses);
      var entry := WriteSite(site, ActionOf(site, offset), p, header.callSite, cell);
      assert Clauses(site.clauses, |addresses|) && AllClauses(sites[1..], |addresses|);
      KnownTypes(m, header, addresses, cell);
      WrittenParts(m.bytes, p, entry, WriteTable(sites[1..], offset + |chain|, p + |entry|, header.callSite, cell));
      WrittenParts(m.bytes, header.actions + offset, chain, WriteActions(sites[1..]));
      SiteWritten(m, header, p, site, offset, addresses, cell);
      TableWritten(m, header, p + |entry|, sites[1..], offset + |chain|, addresses, cell);
      assert Meaning(sites, addresses, m.infos)[1..] == Meaning(sites[1..], addresses, m.infos);
    }
  }

  lemma KnownTypes(m: Memory, header: Header, addresses: seq<nat>, cell: nat -> nat)
    requires TypesAt(m, header, addresses, cell)
    ensures Known(addresses, m.infos)
  {
  }

  lemma {:induction false} HeaderWritten(mem: seq<Byte>, p: nat, plan: Plan, offset: nat, size: nat, rest: seq<Byte>)
    requires plan.Supported() && offset < LIMIT && size < LIMIT
    requires PointerFits(mem, plan.landings, p + 1, EncodingOf(plan.lpStart).value, plan.cell)
    requires Written(mem, p, plan.Front(p) + (plan.TypesFront(offset) + ([plan.callSite] + (EncodeU(size) + rest))))
    ensures var classes := p + |plan.Front(p)| + |plan.TypesFront(offset)|;
            var table := classes + 1 + |EncodeU(size)|;
            && DecodeHeader(mem, p)
               == Some(if plan.ttype == OMIT then Header(None, 0, plan.CallSites(), table, table + size)
                       else Header(Some(plan.Types()), classes + offset, plan.CallSites(), table, table + size))
            && Written(mem, table, rest)
  {
    hide Written, DecodeU, EncodeU, DecodePointer, WritePointer, PointerFits, EncodingOf;
    var front, types := plan.Front(p), plan.TypesFront(offset);
    var tail := [plan.callSite] + (EncodeU(size) + rest);
    WrittenParts(mem, p, front, types + tail);
    WrittenParts(mem, p + |front|, types, tail);
    LandingsWritten(mem, p, plan);
    TypesFrontWritten(mem, p + |front|, plan, offset);
    TableFrontWritten(mem, p + |front| + |types|, plan, size, rest);
  }

  lemma {:induction false} LandingsWritten(mem: seq<Byte>, p: nat, plan: Plan)
    requires plan.Supported() && PointerFits(mem, plan.landings, p + 1, EncodingOf(plan.lpStart).value, plan.cell)
    requires Written(mem, p, plan.Front(p))
    ensures DecodeHeader(mem, p) == DecodeTypeHeader(mem, p + |plan.Front(p)|)
  {
    hide Written, DecodeU, DecodeTypeHeader, DecodePointer, WritePointer, PointerFits;
    var enc := EncodingOf(plan.lpStart).value;
    WrittenParts(mem, p, [plan.lpStart], WritePointer(plan.landings, p + 1, enc, plan.cell));
    WrittenByte(mem, p, plan.lpStart);
    ReadPointer(mem, p + 1, plan.landings, enc, plan.cell);
    if plan.lpStart == OMIT {
      OmittedPointer(plan.landings, p + 1, enc, plan.cell);
    }
  }

  lemma OmittedPointer(n: nat, p: nat, enc: Encoding, cell: nat -> nat)
    requires enc.format == Omitted
    ensures WritePointer(n, p, enc, cell) == []
  {
  }

  lemma {:induction false} TypesFrontWritten(mem: seq<Byte>, p: nat, plan: Plan, offset: nat)
    requires plan.Supported() && offset < LIMIT && Written(mem, p, plan.TypesFront(offset))
    ensures var classes := p + |plan.TypesFront(offset)|;
            DecodeTypeHeader(mem, p) == if plan.ttype == OMIT then DecodeTableHeader(mem, classes, None, 0)
                                        else DecodeTableHeader(mem, classes, Some(plan.Types()), classes + offset)
  {
    hide Written, DecodeU, EncodeU, DecodeTableHeader;
    if plan.ttype == OMIT {
      assert plan.TypesFront(offset) == [plan.ttype];
      WrittenByte(mem, p, plan.ttype);
    } else {
      WrittenParts(mem, p, [plan.ttype], EncodeU(offset));
      WrittenByte(mem, p, plan.ttype);
      ReadNumber(mem, p + 1, offset);
    }
  }

  lemma {:induction false} TableFrontWritten(mem: seq<Byte>, p: nat, plan: Plan, size: nat, rest: seq<Byte>)
    requires plan.Supported() && size < LIMIT && Written(mem, p, [plan.callSite] + (EncodeU(size) + rest))
    ensures var table := p + 1 + |EncodeU(size)|;
            && Written(mem, table, rest)
            && forall ttype, classInfo ::
                 DecodeTableHeader(mem, p, ttype, classInfo)
                 == Some(Header(ttype, classInfo, plan.CallSites(), table, table + size))
  {
    hide Written, DecodeU, EncodeU;
    WrittenParts(mem, p, [plan.callSite], EncodeU(size) + rest);
    WrittenParts(mem, p + 1, EncodeU(size), rest);
    WrittenByte(mem, p, plan.callSite);
    ReadNumber(mem, p + 1, size);
  }

  /** The pointers in data at p can be read back where they are written, and its tables are not too long. */
  ghost predicate Readable(m: Memory, p: nat, sites: seq<Site>, addresses: seq<nat>, plan: Plan)
    requires plan.Supported()
  {
    && plan.Places(p, sites, addresses) && Known(addresses, m.infos) && AllClauses(sites, |addresses|)
    && PointerFits(m.bytes, plan.landings, p + 1, EncodingOf(plan.lpStart).value, plan.cell)
    && SitesFit(m.bytes, sites, 0, plan.at, plan.CallSites(), plan.cell)
    && (if plan.ttype == OMIT then addresses == []
        else TypesFit(m.bytes, plan.TypesStart(sites) + plan.TypesSize(addresses), addresses, plan.Types(), plan.cell))
    && |WriteLsda(p, sites, addresses, plan)| < LIMIT
  }

  /** What the personality routine requires of language specific data holds of all that is written, in any
      encodings, if it can be read back: it describes the call sites that were written. */
  lemma {:induction false} WrittenDataIsRead(m: Memory, p: nat, sites: seq<Site>, addresses: seq<nat>, plan: Plan)
    requires plan.Supported() && Written(m.bytes, p, WriteLsda(p, sites, addresses, plan))
    requires Readable(m, p, sites, addresses, plan)
    ensures Describes(m, p, Meaning(sites, addresses, m.infos))
  {
    hide Written, DecodeHeader, TableIs, EncodeU, WriteTable, WriteActions, AllClauses, Meaning, SitesFit, TypesFit,
         EncodingOf, Known, Format.Sized, TypesAt, PointerFits, Plan.Front, Plan.TypesFront;
    var table, actions := plan.Table(sites), WriteActions(sites);
    var types := WriteTypeTable(sites, addresses, plan);
    OffsetFits(p, sites, addresses, plan);
    HeaderWritten(m.bytes, p, plan, plan.ClassOffset(sites, addresses), |table|, table + (actions + types));
    var header := DecodeHeader(m.bytes, p).value;
    WrittenParts(m.bytes, header.table, table, actions + types);
    WrittenParts(m.bytes, header.actions, actions, types);
    TypesPlaced(m, p, sites, addresses, plan, header);
    TableWritten(m, header, header.table, sites, 0, addresses, plan.cell);
  }

  /** The distances in the header are no longer than the data. */
  lemma OffsetFits(p: nat, sites: seq<Site>, addresses: seq<nat>, plan: Plan)
    requires plan.Supported() && (plan.ttype == OMIT ==> addresses == [])
    ensures plan.ClassOffset(sites, addresses) < |WriteLsda(p, sites, addresses, plan)|
    ensures |plan.Table(sites)| + |WriteActions(sites)| + 1 < |WriteLsda(p, sites, addresses, plan)|
    ensures |WriteTypeTable(sites, addresses, plan)| == plan.TypesSize(addresses)
  {
    hide EncodeU, WriteTable, WriteActions, EncodingOf, WritePointer, WriteTypes;
  }

  lemma TypesPlaced(m: Memory, p: nat, sites: seq<Site>, addresses: seq<nat>, plan: Plan, header: Header)
    requires plan.Supported() && Readable(m, p, sites, addresses, plan)
    requires header.ttype == if plan.ttype == OMIT then None else Some(plan.Types())
    requires plan.ttype != OMIT ==> header.classInfo == plan.TypesStart(sites) + plan.TypesSize(addresses)
    requires Written(m.bytes, plan.TypesStart(sites), WriteTypeTable(sites, addresses, plan))
    ensures TypesAt(m, header, addresses, plan.cell)
  {
    hide Written, EncodeU, WriteTable, WriteActions, EncodingOf, WritePointer, WriteTypes, TypesFit, SitesFit, Known,
         PointerFits, Plan.Places;
  }

  // ----- where to write -----

  /** Pointers of fixed size take as much room anywhere. */
  lemma {:induction false} TableSize(sites: seq<Site>, offset: nat, p: nat, q: nat, enc: Encoding, cell: nat -> nat)
    requires enc.format.Sized()
    ensures |WriteTable(sites, offset, p, enc, cell)| == |WriteTable(sites, offset, q, enc, cell)|
    decreases |sites|
  {
    hide WritePointer, WriteChain, EncodeU;
    if sites != [] {
      var action, chain := ActionOf(sites[0], offset), WriteChain(sites[0].clauses);
      var a, b := WriteSite(sites[0], action, p, enc, cell), WriteSite(sites[0], action, q, enc, cell);
      assert |a| == |b|;
      TableSize(sites[1..], offset + |chain|, p + |a|, q + |b|, enc, cell);
    }
  }

  /** So there is a place for the call site table of all data, whatever the place of the data. */
  lemma {:induction false} SomePlace(p: nat, sites: seq<Site>, addresses: seq<nat>, plan: Plan) returns (plan': Plan)
    requires plan.Supported() && plan.CallSites().format.Sized()
    ensures plan' == plan.(at := plan'.at) && plan'.Supported() && plan'.Places(p, sites, addresses)
  {
    hide EncodeU, WriteTable, WriteActions, WritePointer, EncodingOf;
    var at := p + |plan.Front(p)| + |plan.TypesFront(plan.ClassOffset(sites, addresses))| + 1
              + |EncodeU(|plan.Table(sites)|)|;
    plan' := plan.(at := at);
    TableSize(sites, 0, plan.at, at, plan.CallSites(), plan.cell);
  }
}
