/** The language specific data of a function, and the personality routine that looks up in it what to
    do about an exception. */
module ExceptionTable {
  import opened Options
  import opened Leb128

  type Type = int  // the type of an exception, as its type info holds it

  /** Addresses are unsigned 64-bit numbers. */
  function Word(n: int): nat { n % 0x1_0000_0000_0000_0000 }

  // ----- what a table means -----

  /** A call site: a range of code, where its landing pad is (0 if there is none), and what the landing
      pad is for, in order: an exception of a type, or None for a cleanup. */
  datatype CallSite = CallSite(start: nat, length: nat, landingPad: nat, records: seq<Option<Type>>)
  {
    predicate Covers(pc: nat) { start <= pc < Word(start + length) }
  }

  /** What the unwinder is told: go on, there is a handler, or run the landing pad with a selector. */
  datatype Reason = ContinueUnwind | HandlerFound | InstallContext(selector: nat, landingPad: nat)

  /** The position of the first record for a type, counted from 1, or 0 if there is none. */
  function FirstMatch(records: seq<Option<Type>>, t: Type): (r: nat)
    ensures r <= |records|
    ensures r > 0 ==> records[r - 1] == Some(t)
    ensures forall j :: 0 <= j < (if r > 0 then r - 1 else |records|) ==> records[j] != Some(t)
  {
    if records == [] then 0
    else if records[0] == Some(t) then 1
    else var r := FirstMatch(records[1..], t); if r == 0 then 0 else r + 1
  }

  /** The selector for an exception of type t, or for a foreign one. */
  function Selector(records: seq<Option<Type>>, ours: bool, t: Type): nat {
    if ours then FirstMatch(records, t) else 0
  }

  function AtCallSite(site: CallSite, search: bool, ours: bool, t: Type): Reason {
    var selector := Selector(site.records, ours, t);
    if !search then InstallContext(selector, site.landingPad)
    else if selector != 0 then HandlerFound
    else ContinueUnwind
  }

  /** The first call site with a landing pad that covers pc decides. */
  function Decide(sites: seq<CallSite>, pc: nat, search: bool, ours: bool, t: Type): Reason {
    if sites == [] then ContinueUnwind
    else if sites[0].landingPad != 0 && sites[0].Covers(pc) then AtCallSite(sites[0], search, ours, t)
    else Decide(sites[1..], pc, search, ours, t)
  }

  ghost predicate Disjoint(sites: seq<CallSite>) {
    forall i, j, pc :: 0 <= i < j < |sites| && sites[i].Covers(pc) ==> !sites[j].Covers(pc)
  }

  /** The two phases agree: the search finds a handler exactly where the cleanup phase selects one. */
  lemma {:induction false} PhasesAgree(sites: seq<CallSite>, pc: nat, ours: bool, t: Type)
    ensures Decide(sites, pc, true, ours, t) == HandlerFound
       <==> Decide(sites, pc, false, ours, t).InstallContext? && Decide(sites, pc, false, ours, t).selector != 0
    ensures Decide(sites, pc, true, ours, t) != HandlerFound ==> Decide(sites, pc, true, ours, t) == ContinueUnwind
  {
    if sites != [] {
      PhasesAgree(sites[1..], pc, ours, t);
    }
  }

  /** In a table whose ranges do not overlap, the call site that covers pc decides alone; where none
      does, nothing happens. */
  lemma {:induction false} CoveringSiteDecides(sites: seq<CallSite>, pc: nat, search: bool, ours: bool, t: Type)
    requires Disjoint(sites)
    ensures forall k :: 0 <= k < |sites| && sites[k].Covers(pc) ==>
              Decide(sites, pc, search, ours, t)
              == if sites[k].landingPad == 0 then ContinueUnwind else AtCallSite(sites[k], search, ours, t)
    ensures (forall k :: 0 <= k < |sites| ==> !sites[k].Covers(pc)) ==>
              Decide(sites, pc, search, ours, t) == ContinueUnwind
  {
    if sites != [] {
      assert forall k :: 0 <= k < |sites[1..]| ==> sites[1..][k] == sites[k + 1];
      CoveringSiteDecides(sites[1..], pc, search, ours, t);
    }
  }

  // ----- what bytes mean -----

  /** How a pointer is written: as a number of variable length or in so many bytes, least significant
      first, and unsigned or in two's complement. (A natural pointer has eight bytes.) Or it is not
      written, and is 0. */
  datatype Format = Variable | SignedVariable | Fixed(width: nat) | SignedFixed(width: nat) | Omitted
  {
    predicate Sized() { Fixed? || SignedFixed? }
  }

  /** An encoding of pointers: relative to the address of the pointer or not, and perhaps of the address
      of the pointer that is meant. */
  datatype Encoding = Encoding(format: Format, relative: bool, indirect: bool)

  const OMIT: Byte := 0xFF

  function FormatOf(encoding: Byte): Option<Format> {
    match encoding % 16
    case 0x00 => Some(Fixed(8))
    case 0x01 => Some(Variable)
    case 0x02 => Some(Fixed(2))
    case 0x03 => Some(Fixed(4))
    case 0x04 => Some(Fixed(8))
    case 0x09 => Some(SignedVariable)
    case 0x0A => Some(SignedFixed(2))
    case 0x0B => Some(SignedFixed(4))
    case 0x0C => Some(SignedFixed(8))
    case _ => None
  }

  /** The encodings that are supported: of the relative ones only that to the address of the pointer. */
  function EncodingOf(encoding: Byte): Option<Encoding> {
    if encoding == OMIT then Some(Encoding(Omitted, false, false))
    else if encoding / 16 % 8 > 1 then None
    else match FormatOf(encoding)
         case None => None
         case Some(format) => Some(Encoding(format, encoding / 16 % 8 == 1, encoding >= 0x80))
  }

  function LittleEndian(bytes: seq<Byte>): nat {
    if bytes == [] then 0 else bytes[0] + 256 * LittleEndian(bytes[1..])
  }

  function Pow256(k: nat): (r: nat)
    ensures r > 0
  {
    if k == 0 then 1 else 256 * Pow256(k - 1)
  }

  /** A number of so many bytes in two's complement. */
  function Signed(n: int, width: nat): int { if 2 * n < Pow256(width) then n else n - Pow256(width) }

  function DecodeNumber(mem: seq<Byte>, p: nat, format: Format): (r: Option<Read>)
    ensures r.Some? ==> p <= r.value.next
  {
    match format
    case Omitted => Some(Read(0, p))
    case Variable => DecodeU(mem, p, MOST)
    case SignedVariable => DecodeS(mem, p, MOST)
    case Fixed(width) =>
      if p + width <= |mem| then Some(Read(LittleEndian(mem[p..p + width]), p + width)) else None
    case SignedFixed(width) =>
      if p + width <= |mem| then Some(Read(Signed(LittleEndian(mem[p..p + width]), width), p + width)) else None
  }

  function DecodePointer(mem: seq<Byte>, p: nat, enc: Encoding): (r: Option<Read>)
    ensures r.Some? ==> p <= r.value.next && r.value.value >= 0
  {
    if enc.format.Omitted? then Some(Read(0, p))
    else match DecodeNumber(mem, p, enc.format)
         case None => None
         case Some(Read(value, next)) =>
           var address := Word(value + if enc.relative then p else 0);
           if !enc.indirect then Some(Read(address, next))
           else if address + 8 <= |mem| then Some(Read(LittleEndian(mem[address..address + 8]), next))
           else None
  }

  /** What the runtime finds in memory, by address: bytes, among them the data itself, and the type
      infos. */
  datatype Memory = Memory(bytes: seq<Byte>, infos: map<nat, Type>)

  /** An entry of the call site table: its action is 0 for a cleanup, or a position in the action table,
      counted from 1. */
  datatype TableEntry = TableEntry(start: nat, length: nat, landingPad: nat, action: nat, next: nat)

  function DecodeEntry(mem: seq<Byte>, p: nat, enc: Encoding): (r: Option<TableEntry>)
    ensures r.Some? ==> p < r.value.next <= |mem|
  {
    match DecodePointer(mem, p, enc)
    case None => None
    case Some(start) =>
      match DecodePointer(mem, start.next, enc)
      case None => None
      case Some(length) =>
        match DecodePointer(mem, length.next, enc)
        case None => None
        case Some(landingPad) =>
          match DecodeU(mem, landingPad.next, MOST)
          case None => None
          case Some(action) => Some(TableEntry(start.value, length.value, landingPad.value, action.value, action.next))
  }

  /** The header, up to the call site table. */
  datatype Header = Header(ttype: Option<Encoding>, classInfo: nat, callSite: Encoding, table: nat, actions: nat)

  function DecodeHeader(mem: seq<Byte>, p: nat): Option<Header> {
    if p >= |mem| then None
    else if mem[p] == OMIT then DecodeTypeHeader(mem, p + 1)
    else match EncodingOf(mem[p])
         case None => None
         case Some(enc) =>
           match DecodePointer(mem, p + 1, enc)
           case None => None
           case Some(lpStart) => DecodeTypeHeader(mem, lpStart.next)
  }

  function DecodeTypeHeader(mem: seq<Byte>, p: nat): Option<Header> {
    if p >= |mem| then None
    else if mem[p] == OMIT then DecodeTableHeader(mem, p + 1, None, 0)
    else match DecodeU(mem, p + 1, MOST)
         case None => None
         case Some(offset) =>
           if EncodingOf(mem[p]).None? then None
           else DecodeTableHeader(mem, offset.next, EncodingOf(mem[p]), offset.next + offset.value)
  }

  function DecodeTableHeader(mem: seq<Byte>, p: nat, ttype: Option<Encoding>, classInfo: nat): Option<Header> {
    if p >= |mem| || EncodingOf(mem[p]).None? then None
    else match DecodeU(mem, p + 1, MOST)
         case None => None
         case Some(length) =>
           Some(Header(ttype, classInfo, EncodingOf(mem[p]).value, length.next, length.next + length.value))
  }

  /** The type info number t before the end of the type table. */
  function TypeInfo(m: Memory, header: Header, t: nat): Option<Type> {
    if header.ttype.None? || !header.ttype.value.format.Sized()
      || header.classInfo < t * header.ttype.value.format.width then None
    else match DecodePointer(m.bytes, header.classInfo - t * header.ttype.value.format.width, header.ttype.value)
         case None => None
         case Some(address) => if address.value in m.infos then Some(m.infos[address.value]) else None
  }

  /** The action records at the positions at are chained, in this order, for the types: each links to
      the next by its distance from the link itself, the last one has link 0. */
  ghost predicate Chain(mem: seq<Byte>, at: seq<nat>, types: seq<nat>) {
    && |at| == |types| > 0
    && forall k: nat :: k < |at| ==> ChainLink(mem, at, types, k)
  }

  ghost predicate ChainLink(mem: seq<Byte>, at: seq<nat>, types: seq<nat>, k: nat)
    requires k < |at| == |types|
  {
    match DecodeS(mem, at[k], MOST)
    case None => false
    case Some(t) =>
      match DecodeS(mem, t.next, MOST)
      case None => false
      case Some(link) =>
        && t.value == types[k]
        && if k + 1 < |at| then link.value != 0 && at[k + 1] == t.next + link.value else link.value == 0
  }

  /** The records that types stand for. */
  ghost predicate RecordsAre(m: Memory, header: Header, types: seq<nat>, records: seq<Option<Type>>) {
    && |records| == |types|
    && forall k: nat :: k < |types| ==>
         if types[k] == 0 then records[k] == None else records[k].Some? && TypeInfo(m, header, types[k]) == records[k]
  }

  /** The action at this position is for these records. */
  ghost predicate ActionIs(m: Memory, header: Header, position: nat, records: seq<Option<Type>>) {
    exists at, types :: Chain(m.bytes, at, types) && at[0] == position && RecordsAre(m, header, types, records)
  }

  /** The table between p and its end describes the call sites. */
  ghost predicate TableIs(m: Memory, header: Header, p: nat, sites: seq<CallSite>)
    decreases |sites|
  {
    if sites == [] then p >= header.actions
    else
      && p < header.actions
      && match DecodeEntry(m.bytes, p, header.callSite)
         case None => false
         case Some(entry) =>
           && entry.start == sites[0].start && entry.length == sites[0].length
           && entry.landingPad == sites[0].landingPad
           && (if entry.action == 0 then sites[0].records == []
               else ActionIs(m, header, header.actions + entry.action - 1, sites[0].records))
           && TableIs(m, header, entry.next, sites[1..])
  }

  /** The language specific data at p describes the call sites. */
  ghost predicate Describes(m: Memory, p: nat, sites: seq<CallSite>) {
    && DecodeHeader(m.bytes, p).Some?
    && var header := DecodeHeader(m.bytes, p).value;
       TableIs(m, header, header.table, sites)
  }

  // ----- the runtime -----

  method ReadEncodedPointer(mem: seq<Byte>, data: nat, enc: Encoding) returns (result: nat, data': nat)
    requires DecodePointer(mem, data, enc).Some?
    ensures DecodePointer(mem, data, enc) == Some(Read(result, data'))
  {
    hide LittleEndian, Signed, Pow256, DecodeU, DecodeS;
    if enc.format.Omitted? {
      return 0, data;
    }
    // first get value
    var value: int;
    match enc.format {
      case Variable =>
        value, data' := ReadULEB128(mem, data);
      case SignedVariable =>
        value, data' := ReadSLEB128(mem, data);
      case Fixed(width) =>
        value, data' := LittleEndian(mem[data..data + width]), data + width;
      case SignedFixed(width) =>
        value, data' := Signed(LittleEndian(mem[data..data + width]), width), data + width;
    }
    // then add relative offset
    result := Word(value);
    if enc.relative {
      result := Word(value + data);
    }
    // then apply indirection
    if enc.indirect {
      result := LittleEndian(mem[result..result + 8]);
    }
  }

  /** Walks a chain of actions for the first one that matches the type of one of our exceptions. */
  method HandleActionValue(m: Memory, header: Header, actionEntry: nat, ours: bool, t: Type,
                           ghost records: seq<Option<Type>>)
      returns (matched: bool, resultAction: nat)
    requires ActionIs(m, header, actionEntry, records)
    ensures resultAction == Selector(records, ours, t) && (matched <==> resultAction != 0)
  {
    hide TypeInfo, DecodeS;
    matched, resultAction := false, 0;
    if !ours {
      return;
    }
    ghost var at, types :| Chain(m.bytes, at, types) && at[0] == actionEntry && RecordsAre(m, header, types, records);
    var actionPos: nat := actionEntry;
    var i: nat := 0;
    while true
      invariant i < |at| && actionPos == at[i]
      invariant forall k :: 0 <= k < i ==> records[k] != Some(t)
      decreases |at| - i
    {
      assert ChainLink(m.bytes, at, types, i);
      var typeOffset, linkPos := ReadSLEB128(m.bytes, actionPos);
      var actionOffset, _ := ReadSLEB128(m.bytes, linkPos);
      if typeOffset > 0 && TypeInfo(m, header, typeOffset) == Some(t) {
        return true, i + 1;
      }
      if actionOffset == 0 {
        return;
      }
      actionPos := linkPos + actionOffset;
      i := i + 1;
    }
  }

  /** Reads the header of the language specific data. */
  method ReadHeader(mem: seq<Byte>, lsda: nat) returns (header: Header)
    requires DecodeHeader(mem, lsda).Some?
    ensures header == DecodeHeader(mem, lsda).value
  {
    hide DecodePointer, DecodeU, EncodingOf;
    var p := lsda;
    var lpStartEncoding := mem[p];
    p := p + 1;
    if lpStartEncoding != OMIT {
      var _, next := ReadEncodedPointer(mem, p, EncodingOf(lpStartEncoding).value);
      p := next;
    }
    var ttypeEncoding := mem[p];
    p := p + 1;
    var ttype, classInfo := None, 0;
    if ttypeEncoding != OMIT {
      var classInfoOffset, next := ReadULEB128(mem, p);
      p := next;
      ttype, classInfo := EncodingOf(ttypeEncoding), p + classInfoOffset;
    }
    var callSiteEncoding := mem[p];
    var callSiteTableLength, table := ReadULEB128(mem, p + 1);
    header := Header(ttype, classInfo, EncodingOf(callSiteEncoding).value, table, table + callSiteTableLength);
  }

  method ReadCallSite(mem: seq<Byte>, callSitePtr: nat, enc: Encoding) returns (entry: TableEntry)
    requires DecodeEntry(mem, callSitePtr, enc).Some?
    ensures entry == DecodeEntry(mem, callSitePtr, enc).value
  {
    var start, p1 := ReadEncodedPointer(mem, callSitePtr, enc);
    var length, p2 := ReadEncodedPointer(mem, p1, enc);
    var landingPad, p3 := ReadEncodedPointer(mem, p2, enc);
    var action, next := ReadULEB128(mem, p3);
    entry := TableEntry(start, length, landingPad, action, next);
  }

  /** The personality routine: looks for the call site of pc, an offset into the function. */
  method HandleLsda(m: Memory, lsda: Option<nat>, search: bool, ours: bool, t: Type, pc: nat,
                    ghost sites: seq<CallSite>)
      returns (reason: Reason)
    requires lsda.Some? ==> Describes(m, lsda.value, sites)
    ensures reason == if lsda.None? then ContinueUnwind else Decide(sites, pc, search, ours, t)
  {
    hide DecodeHeader, DecodeEntry, ActionIs, Selector;
    reason := ContinueUnwind;
    if lsda.None? {
      return;
    }
    var header := ReadHeader(m.bytes, lsda.value);
    var callSitePtr: nat := header.table;
    ghost var left := sites;
    while callSitePtr < header.actions
      invariant TableIs(m, header, callSitePtr, left)
      invariant Decide(left, pc, search, ours, t) == Decide(sites, pc, search, ours, t)
      decreases |left|
    {
      var entry := ReadCallSite(m.bytes, callSitePtr, header.callSite);
      ghost var site := left[0];
      left := left[1..];
      callSitePtr := entry.next;
      var actionEntry := if ours then entry.action else 0;
      if entry.landingPad == 0 {
        continue;
      }
      if entry.start <= pc && pc < Word(entry.start + entry.length) {
        reason := Land(m, header, actionEntry, entry.landingPad, search, ours, t, site.records);
        return;
      }
    }
  }

  /** What to do at a landing pad that covers the pc. */
  method Land(m: Memory, header: Header, actionEntry: nat, landingPad: nat, search: bool, ours: bool, t: Type,
              ghost records: seq<Option<Type>>)
      returns (reason: Reason)
    requires if actionEntry == 0 then !ours || records == []
             else ActionIs(m, header, header.actions + actionEntry - 1, records)
    ensures var selector := Selector(records, ours, t);
            reason == if !search then InstallContext(selector, landingPad)
                      else if selector != 0 then HandlerFound else ContinueUnwind
  {
    reason := ContinueUnwind;
    var exceptionMatched, actionValue := false, 0;
    if actionEntry != 0 {
      exceptionMatched, actionValue :=
        HandleActionValue(m, header, header.actions + actionEntry - 1, ours, t, records);
    }
    if !search {
      if actionEntry == 0 || !exceptionMatched {
        reason := InstallContext(0, landingPad);
      } else {
        reason := InstallContext(actionValue, landingPad);
      }
    } else if exceptionMatched {
      reason := HandlerFound;
    }
  }
}
