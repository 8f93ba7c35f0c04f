/**
 The COFF object around the resource section (buildSyso in tools/mksyso/main.go): headers, the section, its
 relocations, one symbol with an auxiliary record, and an empty string table. It is proved against a reader that
 follows the pointers as the Microsoft PE Format lays them out ("COFF File Header", "Section Table",
 "COFF Relocations", "COFF Symbol Table").
 */
module ObjectFile {
  import opened Basics
  import opened LittleEndian
  import opened ResourceTree
  import opened ResourceReader
  import opened ResourceWriter

  const MACHINE_AMD64: u16 := 0x8664
  const ADDR32NB: u16 := 3
  const FLAGS: u32 := 0x4000_0040

  /** ".rsrc", padded to the eight bytes of a short name. */
  function Name(): (r: seq<byte>)
    ensures |r| == 8
  {
    [46, 114, 115, 114, 99] + Zeros(3)
  }

  // ---- Content ----

  function FileHeader(ptrSym: u32): (r: seq<byte>)
    ensures |r| == 20
  {
    Bytes16(MACHINE_AMD64) + Bytes16(1) + Bytes32(0) + Bytes32(ptrSym) + Bytes32(2) + Bytes16(0) + Bytes16(0)
  }

  function SectionHeader(size: u32, ptrRaw: u32, ptrReloc: u32, count: u16): (r: seq<byte>)
    ensures |r| == 40
  {
    Name() + Bytes32(0) + Bytes32(0) + Bytes32(size) + Bytes32(ptrRaw) + Bytes32(ptrReloc) + Bytes32(0)
    + Bytes16(count) + Bytes16(0) + Bytes32(FLAGS)
  }

  function RelocRecord(at: nat): (r: seq<byte>)
    ensures |r| == 10
  {
    Bytes32(ToU32(at)) + Bytes32(0) + Bytes16(ADDR32NB)
  }

  function RelocBytes(relocs: seq<nat>): (r: seq<byte>)
    ensures |r| == 10 * |relocs|
  {
    if relocs == [] then [] else RelocBytes(relocs[..|relocs| - 1]) + RelocRecord(relocs[|relocs| - 1])
  }

  /** Static, in section 1, with one auxiliary record: the section's length and its number of relocations. */
  function Symbol(size: u32, count: u16): (r: seq<byte>)
    ensures |r| == 36
  {
    Name() + Zeros(4) + Bytes16(1) + Zeros(2) + [3, 1] + Bytes32(size) + Bytes16(count) + Zeros(12)
  }

  function File(sec: seq<byte>, relocs: seq<nat>): seq<byte> {
    var n, ptrReloc := |relocs|, 60 + |sec|;
    FileHeader(ToU32(ptrReloc + 10 * n)) + SectionHeader(ToU32(|sec|), 60, ToU32(ptrReloc), ToU16(n))
    + sec + RelocBytes(relocs) + Symbol(ToU32(|sec|), ToU16(n)) + Bytes32(4)
  }

  // ---- Reading ----

  datatype Relocation = Relocation(at: u32, symbol: u32, kind: u16)

  datatype SymbolInfo = SymbolInfo(name: seq<byte>, section: u16, storage: byte, aux: byte, length: u32, relocations: u16)

  datatype Object = Object(machine: u16, name: seq<byte>, flags: u32, raw: seq<byte>, relocs: seq<Relocation>, symbol: SymbolInfo)

  /**
   The fields the object leaves at zero: in the file header time stamp, optional header and characteristics; in the section
   header virtual size and address and the line numbers; in the symbol value and type; in its auxiliary record line numbers,
   check sum, number and selection.
   */
  predicate Unused(f: seq<byte>, symbols: nat) {
    FileUnused(f) && SectionUnused(f) && SymbolUnused(f, symbols)
  }

  predicate FileUnused(f: seq<byte>) {
    20 <= |f| && U32(f, 4) == 0 && U16(f, 16) == 0 && U16(f, 18) == 0
  }

  predicate SectionUnused(f: seq<byte>) {
    60 <= |f| && U32(f, 28) == 0 && U32(f, 32) == 0 && U32(f, 48) == 0 && U16(f, 54) == 0
  }

  predicate SymbolUnused(f: seq<byte>, p: nat) {
    p + 36 <= |f| && U32(f, p + 8) == 0 && U16(f, p + 14) == 0 && forall i :: p + 24 <= i < p + 36 ==> f[i] == 0
  }

  function RelocationAt(f: seq<byte>, p: nat, i: nat): Relocation
    requires p + 10 * (i + 1) <= |f|
  {
    Relocation(U32(f, p + 10 * i), U32(f, p + 10 * i + 4), U16(f, p + 10 * i + 8))
  }

  function ReadRelocs(f: seq<byte>, p: nat, n: nat): Option<seq<Relocation>> {
    if p + 10 * n > |f| then None else Some(seq(n, i requires 0 <= i < n => RelocationAt(f, p, i)))
  }

  /** The first symbol and the section definition that follows it. */
  function ReadSymbol(f: seq<byte>, p: nat): Option<SymbolInfo> {
    if p + 36 > |f| then None
    else Some(SymbolInfo(f[p..p + 8], U16(f, p + 12), f[p + 16], f[p + 17], U32(f, p + 18), U16(f, p + 22)))
  }

  /** An object with one section; None unless every pointer lies in the file and the string table ends it. */
  function ReadObject(f: seq<byte>): Option<Object> {
    if |f| < 20 || U16(f, 2) != 1 then None
    else
      var h := 20 + U16(f, 16);
      if h + 40 > |f| then None
      else
        var size, raw := U32(f, h + 16), U32(f, h + 20);
        var relocs, symbol := ReadRelocs(f, U32(f, h + 24), U16(f, h + 32)), ReadSymbol(f, U32(f, 8));
        var strings := U32(f, 8) + 18 * U32(f, 12);
        if raw + size > |f| || relocs.None? || symbol.None? || strings + 4 > |f| || strings + U32(f, strings) != |f| then None
        else Some(Object(U16(f, 0), f[h..h + 8], U32(f, h + 36), f[raw..raw + size], relocs.value, symbol.value))
  }

  // ---- The object reads back ----

  lemma FileHeaderFields(a: seq<byte>, b: seq<byte>, c: seq<byte>, d: seq<byte>, e: seq<byte>, f: seq<byte>, g: seq<byte>, s: seq<byte>)
    requires |a| == 2 && |b| == 2 && |c| == 4 && |d| == 4 && |e| == 4 && |f| == 2 && |g| == 2
    requires s == a + b + c + d + e + f + g
    ensures HasAt(s, 0, a) && HasAt(s, 2, b) && HasAt(s, 4, c) && HasAt(s, 8, d) && HasAt(s, 12, e) && HasAt(s, 16, f)
    ensures HasAt(s, 18, g)
  {
    Follows(s, [], 0, a);
    Follows(s, a, 2, b);
    Follows(s, a + b, 4, c);
    Follows(s, a + b + c + d + e + f, 18, g);
    Follows(s, a + b + c, 8, d);
    Follows(s, a + b + c + d, 12, e);
    Follows(s, a + b + c + d + e, 16, f);
  }

  lemma SectionHeaderFields(a: seq<byte>, b: seq<byte>, c: seq<byte>, d: seq<byte>, e: seq<byte>, f: seq<byte>, g: seq<byte>,
                            h: seq<byte>, i: seq<byte>, j: seq<byte>, s: seq<byte>)
    requires |a| == 8 && |b| == 4 && |c| == 4 && |d| == 4 && |e| == 4 && |f| == 4 && |g| == 4 && |h| == 2 && |i| == 2 && |j| == 4
    requires s == a + b + c + d + e + f + g + h + i + j
    ensures HasAt(s, 0, a) && HasAt(s, 16, d) && HasAt(s, 20, e) && HasAt(s, 24, f) && HasAt(s, 32, h) && HasAt(s, 36, j)
    ensures HasAt(s, 8, b) && HasAt(s, 12, c) && HasAt(s, 28, g) && HasAt(s, 34, i)
  {
    Follows(s, [], 0, a);
    Follows(s, a, 8, b);
    Follows(s, a + b, 12, c);
    Follows(s, a + b + c + d + e + f, 28, g);
    Follows(s, a + b + c + d + e + f + g + h, 34, i);
    Follows(s, a + b + c, 16, d);
    Follows(s, a + b + c + d, 20, e);
    Follows(s, a + b + c + d + e, 24, f);
    Follows(s, a + b + c + d + e + f + g, 32, h);
    Follows(s, a + b + c + d + e + f + g + h + i, 36, j);
  }

  lemma SymbolFields(a: seq<byte>, b: seq<byte>, c: seq<byte>, d: seq<byte>, e: seq<byte>, f: seq<byte>, g: seq<byte>, h: seq<byte>, s: seq<byte>)
    requires |a| == 8 && |b| == 4 && |c| == 2 && |d| == 2 && |e| == 2 && |f| == 4 && |g| == 2 && |h| == 12
    requires s == a + b + c + d + e + f + g + h
    ensures HasAt(s, 0, a) && HasAt(s, 12, c) && HasAt(s, 16, e) && HasAt(s, 18, f) && HasAt(s, 22, g)
    ensures HasAt(s, 8, b) && HasAt(s, 14, d) && HasAt(s, 24, h)
  {
    Follows(s, [], 0, a);
    Follows(s, a, 8, b);
    Follows(s, a + b + c, 14, d);
    Follows(s, a + b + c + d + e + f + g, 24, h);
    Follows(s, a + b, 12, c);
    Follows(s, a + b + c + d, 16, e);
    Follows(s, a + b + c + d + e, 18, f);
    Follows(s, a + b + c + d + e + f, 22, g);
  }

  lemma RecordFields(a: seq<byte>, b: seq<byte>, c: seq<byte>, s: seq<byte>)
    requires |a| == 4 && |b| == 4 && |c| == 2 && s == a + b + c
    ensures HasAt(s, 0, a) && HasAt(s, 4, b) && HasAt(s, 8, c)
  {
    Follows(s, [], 0, a);
    Follows(s, a, 4, b);
    Follows(s, a + b, 8, c);
  }

  /** The values a reader takes from the file header. */
  lemma FileHeaderReads(f: seq<byte>, ptrSym: u32)
    requires HasAt(f, 0, FileHeader(ptrSym))
    ensures U16(f, 0) == MACHINE_AMD64 && U16(f, 2) == 1 && U32(f, 8) == ptrSym && U32(f, 12) == 2 && U16(f, 16) == 0
    ensures U32(f, 4) == 0 && U16(f, 18) == 0
  {
    var s := FileHeader(ptrSym);
    FileHeaderFields(Bytes16(MACHINE_AMD64), Bytes16(1), Bytes32(0), Bytes32(ptrSym), Bytes32(2), Bytes16(0), Bytes16(0), s);
    Field16(f, 0, s, 0, MACHINE_AMD64);
    Field16(f, 0, s, 2, 1);
    Field32(f, 0, s, 8, ptrSym);
    Field32(f, 0, s, 12, 2);
    Field16(f, 0, s, 16, 0);
    Field32(f, 0, s, 4, 0);
    Field16(f, 0, s, 18, 0);
  }

  lemma SectionHeaderReads(f: seq<byte>, o: nat, size: u32, ptrRaw: u32, ptrReloc: u32, count: u16)
    requires HasAt(f, o, SectionHeader(size, ptrRaw, ptrReloc, count))
    ensures f[o..o + 8] == Name() && U32(f, o + 16) == size && U32(f, o + 20) == ptrRaw && U32(f, o + 24) == ptrReloc
    ensures U16(f, o + 32) == count && U32(f, o + 36) == FLAGS
  {
    var s := SectionHeader(size, ptrRaw, ptrReloc, count);
    SectionHeaderFields(Name(), Bytes32(0), Bytes32(0), Bytes32(size), Bytes32(ptrRaw), Bytes32(ptrReloc), Bytes32(0),
                        Bytes16(count), Bytes16(0), Bytes32(FLAGS), s);
    Within(f, o, s, 0, Name());
    HasAtIsSlice(f, o, Name());
    Field32(f, o, s, 16, size);
    Field32(f, o, s, 20, ptrRaw);
    Field32(f, o, s, 24, ptrReloc);
    Field16(f, o, s, 32, count);
    Field32(f, o, s, 36, FLAGS);
  }

  lemma SectionHeaderBlanks(f: seq<byte>, size: u32, ptrRaw: u32, ptrReloc: u32, count: u16)
    requires HasAt(f, 20, SectionHeader(size, ptrRaw, ptrReloc, count))
    ensures SectionUnused(f)
  {
    var s := SectionHeader(size, ptrRaw, ptrReloc, count);
    SectionHeaderFields(Name(), Bytes32(0), Bytes32(0), Bytes32(size), Bytes32(ptrRaw), Bytes32(ptrReloc), Bytes32(0),
                        Bytes16(count), Bytes16(0), Bytes32(FLAGS), s);
    Field32(f, 20, s, 8, 0);
    Field32(f, 20, s, 12, 0);
    Field32(f, 20, s, 28, 0);
    Field16(f, 20, s, 34, 0);
  }

  lemma SymbolBlanks(f: seq<byte>, p: nat, size: u32, count: u16)
    requires HasAt(f, p, Symbol(size, count))
    ensures SymbolUnused(f, p)
  {
    var s := Symbol(size, count);
    SymbolFields(Name(), Zeros(4), Bytes16(1), Zeros(2), [3, 1], Bytes32(size), Bytes16(count), Zeros(12), s);
    assert Zeros(4) == Bytes32(0) && Zeros(2) == Bytes16(0);
    Field32(f, p, s, 8, 0);
    Field16(f, p, s, 14, 0);
    Within(f, p, s, 24, Zeros(12));
    HasAtIsSlice(f, p + 24, Zeros(12));
    forall i | p + 24 <= i < p + 36 ensures f[i] == 0 {
      assert f[i] == f[p + 24..p + 36][i - (p + 24)];
    }
  }

  lemma SymbolReads(f: seq<byte>, p: nat, size: u32, count: u16)
    requires HasAt(f, p, Symbol(size, count))
    ensures ReadSymbol(f, p) == Some(SymbolInfo(Name(), 1, 3, 1, size, count))
  {
    var s := Symbol(size, count);
    SymbolFields(Name(), Zeros(4), Bytes16(1), Zeros(2), [3, 1], Bytes32(size), Bytes16(count), Zeros(12), s);
    Within(f, p, s, 0, Name());
    HasAtIsSlice(f, p, Name());
    Within(f, p, s, 16, [3, 1]);
    HasAtIsSlice(f, p + 16, [3, 1]);
    assert f[p + 16] == f[p + 16..p + 18][0] && f[p + 17] == f[p + 16..p + 18][1];
    Field16(f, p, s, 12, 1);
    Field32(f, p, s, 18, size);
    Field16(f, p, s, 22, count);
  }

  lemma {:induction false} RecordAt(relocs: seq<nat>, i: nat)
    requires i < |relocs|
    ensures HasAt(RelocBytes(relocs), 10 * i, RelocRecord(relocs[i]))
  {
    var was := relocs[..|relocs| - 1];
    Joined(RelocBytes(was), RelocRecord(relocs[|relocs| - 1]));
    if i < |relocs| - 1 {
      RecordAt(was, i);
      Extended(RelocBytes(was), RelocRecord(relocs[|relocs| - 1]), 10 * i, RelocRecord(relocs[i]));
    }
  }

  lemma RecordReads(f: seq<byte>, p: nat, at: nat, i: nat)
    requires HasAt(f, p + 10 * i, RelocRecord(at))
    ensures RelocationAt(f, p, i) == Relocation(ToU32(at), 0, ADDR32NB)
  {
    RecordFields(Bytes32(ToU32(at)), Bytes32(0), Bytes16(ADDR32NB), RelocRecord(at));
    Field32(f, p + 10 * i, RelocRecord(at), 0, ToU32(at));
    Field32(f, p + 10 * i, RelocRecord(at), 4, 0);
    Field16(f, p + 10 * i, RelocRecord(at), 8, ADDR32NB);
  }

  function Relocations(relocs: seq<nat>): (r: seq<Relocation>)
    ensures |r| == |relocs|
  {
    seq(|relocs|, i requires 0 <= i < |relocs| => Relocation(ToU32(relocs[i]), 0, ADDR32NB))
  }

  lemma RelocsRead(f: seq<byte>, p: nat, relocs: seq<nat>)
    requires HasAt(f, p, RelocBytes(relocs))
    ensures ReadRelocs(f, p, |relocs|) == Some(Relocations(relocs))
  {
    forall i | 0 <= i < |relocs| ensures RelocationAt(f, p, i) == Relocations(relocs)[i] {
      RecordAt(relocs, i);
      Within(f, p, RelocBytes(relocs), 10 * i, RelocRecord(relocs[i]));
      RecordReads(f, p, relocs[i], i);
    }
    assert ReadRelocs(f, p, |relocs|).value == Relocations(relocs);
  }

  lemma SixPieces(a: seq<byte>, b: seq<byte>, c: seq<byte>, d: seq<byte>, e: seq<byte>, f: seq<byte>)
    ensures var s := a + b + c + d + e + f;
            && HasAt(s, 0, a) && HasAt(s, |a|, b) && HasAt(s, |a| + |b|, c) && HasAt(s, |a| + |b| + |c|, d)
            && HasAt(s, |a| + |b| + |c| + |d|, e) && HasAt(s, |a| + |b| + |c| + |d| + |e|, f)
  {
    FivePieces(a, b, c, d, e);
    var p := a + b + c + d + e;
    Joined(p, f);
    Extended(p, f, 0, a);
    Extended(p, f, |a|, b);
    Extended(p, f, |a| + |b|, c);
    Extended(p, f, |a| + |b| + |c|, d);
    Extended(p, f, |a| + |b| + |c| + |d|, e);
  }

  /** Counts and pointers fit their fields. */
  ghost predicate FileFits(sec: seq<byte>, relocs: seq<nat>) {
    |relocs| < 0x1_0000 && 60 + |sec| + 10 * |relocs| < 0x1_0000_0000
  }

  /** The pieces of the file, each at the position the headers give it. */
  ghost predicate Pieces(f: seq<byte>, sec: seq<byte>, relocs: seq<nat>, ptrReloc: u32, ptrSym: u32) {
    && |sec| < 0x1_0000_0000 && |relocs| < 0x1_0000 && |f| == ptrSym + 40
    && HasAt(f, 0, FileHeader(ptrSym)) && HasAt(f, 20, SectionHeader(|sec|, 60, ptrReloc, |relocs|))
    && HasAt(f, 60, sec) && HasAt(f, ptrReloc, RelocBytes(relocs))
    && HasAt(f, ptrSym, Symbol(|sec|, |relocs|)) && HasAt(f, ptrSym + 36, Bytes32(4))
  }

  lemma PiecesRead(f: seq<byte>, sec: seq<byte>, relocs: seq<nat>, ptrReloc: u32, ptrSym: u32)
    requires Pieces(f, sec, relocs, ptrReloc, ptrSym)
    ensures ReadObject(f)
            == Some(Object(MACHINE_AMD64, Name(), FLAGS, sec, Relocations(relocs), SymbolInfo(Name(), 1, 3, 1, |sec|, |relocs|)))
  {
    FileHeaderReads(f, ptrSym);
    SectionHeaderReads(f, 20, |sec|, 60, ptrReloc, |relocs|);
    HasAtIsSlice(f, 60, sec);
    RelocsRead(f, ptrReloc, relocs);
    SymbolReads(f, ptrSym, |sec|, |relocs|);
    Read32(f, ptrSym + 36, 4);
    ObjectFrom(f, sec, Relocations(relocs), SymbolInfo(Name(), 1, 3, 1, |sec|, |relocs|), ptrReloc, |relocs|, ptrSym);
  }

  /** The headers point at a section after them, at n relocations and at the symbol. */
  ghost predicate HeadersPoint(f: seq<byte>, size: u32, ptrReloc: u32, n: u16, ptrSym: u32) {
    && 60 <= |f| && U16(f, 0) == MACHINE_AMD64 && U16(f, 2) == 1 && U32(f, 8) == ptrSym && U32(f, 12) == 2 && U16(f, 16) == 0
    && f[20..28] == Name() && U32(f, 36) == size && U32(f, 40) == 60 && U32(f, 44) == ptrReloc && U16(f, 52) == n && U32(f, 56) == FLAGS
  }

  lemma ObjectFrom(f: seq<byte>, sec: seq<byte>, rs: seq<Relocation>, symbol: SymbolInfo, ptrReloc: u32, n: u16, ptrSym: u32)
    requires |sec| < 0x1_0000_0000 && HeadersPoint(f, |sec|, ptrReloc, n, ptrSym)
    requires 60 + |sec| <= |f| && f[60..60 + |sec|] == sec
    requires ReadRelocs(f, ptrReloc, n) == Some(rs) && ReadSymbol(f, ptrSym) == Some(symbol)
    requires ptrSym + 40 == |f| && U32(f, ptrSym + 36) == 4
    ensures ReadObject(f) == Some(Object(MACHINE_AMD64, Name(), FLAGS, sec, rs, symbol))
  {
  }

  lemma FilePieces(sec: seq<byte>, relocs: seq<nat>)
    requires FileFits(sec, relocs)
    ensures Pieces(File(sec, relocs), sec, relocs, 60 + |sec|, 60 + |sec| + 10 * |relocs|)
  {
    var n, ptrReloc := |relocs|, 60 + |sec|;
    var ptrSym := ptrReloc + 10 * n;
    assert ToU32(ptrSym) == ptrSym && ToU32(|sec|) == |sec| && ToU32(ptrReloc) == ptrReloc && ToU16(n) == n;
    SixPieces(FileHeader(ptrSym), SectionHeader(|sec|, 60, ptrReloc, n), sec, RelocBytes(relocs), Symbol(|sec|, n), Bytes32(4));
  }

  /**
   Every pointer in the headers is the position in the file of what it points to, every count is the number of records
   there, and the file ends where the string table says.
   */
  lemma ObjectReadsBack(sec: seq<byte>, relocs: seq<nat>)
    requires FileFits(sec, relocs)
    ensures ReadObject(File(sec, relocs))
            == Some(Object(MACHINE_AMD64, Name(), FLAGS, sec, Relocations(relocs), SymbolInfo(Name(), 1, 3, 1, |sec|, |relocs|)))
  {
    FilePieces(sec, relocs);
    PiecesRead(File(sec, relocs), sec, relocs, 60 + |sec|, 60 + |sec| + 10 * |relocs|);
  }

  /** Every field the object has no use for is zero. */
  lemma UnusedFieldsAreZero(sec: seq<byte>, relocs: seq<nat>)
    requires FileFits(sec, relocs)
    ensures var f := File(sec, relocs); |f| >= 20 && Unused(f, U32(f, 8))
  {
    var f, ptrReloc, ptrSym := File(sec, relocs), 60 + |sec|, 60 + |sec| + 10 * |relocs|;
    FilePieces(sec, relocs);
    UnusedIn(f, sec, relocs, ptrReloc, ptrSym);
  }

  lemma UnusedIn(f: seq<byte>, sec: seq<byte>, relocs: seq<nat>, ptrReloc: u32, ptrSym: u32)
    requires Pieces(f, sec, relocs, ptrReloc, ptrSym)
    ensures |f| >= 20 && U32(f, 8) == ptrSym && Unused(f, ptrSym)
  {
    FileHeaderReads(f, ptrSym);
    SectionHeaderBlanks(f, |sec|, 60, ptrReloc, |relocs|);
    SymbolBlanks(f, ptrSym, |sec|, |relocs|);
  }

  /**
   The header's 16-bit count holds the number of relocations only below 0x10000. A .ico file with 65535 images already
   passes that, with the group as the 65536th resource: the file then claims to have no relocations.
   */
  lemma CountIsKeptIff(sec: seq<byte>, relocs: seq<nat>)
    ensures |File(sec, relocs)| >= 60
    ensures U16(File(sec, relocs), 52) == |relocs| <==> |relocs| < 0x1_0000
    ensures |relocs| == 0x1_0000 ==> U16(File(sec, relocs), 52) == 0
  {
    var n, ptrReloc := |relocs|, 60 + |sec|;
    SixPieces(FileHeader(ToU32(ptrReloc + 10 * n)), SectionHeader(ToU32(|sec|), 60, ToU32(ptrReloc), ToU16(n)), sec,
              RelocBytes(relocs), Symbol(ToU32(|sec|), ToU16(n)), Bytes32(4));
    HeaderCount(File(sec, relocs), ToU32(|sec|), ToU32(ptrReloc), ToU16(n));
  }

  lemma HeaderCount(f: seq<byte>, size: u32, ptrReloc: u32, count: u16)
    requires HasAt(f, 20, SectionHeader(size, 60, ptrReloc, count))
    ensures |f| >= 60 && U16(f, 52) == count
  {
    SectionHeaderReads(f, 20, size, 60, ptrReloc, count);
  }

  // ---- buildSyso ----

  /** The object for a list of resources. */
  function Syso(res: seq<Resource>): seq<byte> {
    var gs := Groups(Sorted(res));
    File(Section(gs), Relocs(gs, |res|))
  }

  method WriteRelocs(relocs: seq<nat>) returns (rel: array<byte>)
    ensures fresh(rel) && rel[..] == RelocBytes(relocs)
  {
    rel := new byte[|relocs| * 10](i => 0);
    ghost var zero := rel[..];
    RecordsEnd(zero, relocs);
    for i := 0 to |relocs|
      invariant rel[..] == Overwrite(zero, 0, RelocBytes(relocs[..i]))
    {
      WriteRecord(rel, i * 10, relocs[i]);
      RecordsNext(zero, relocs, i);
    }
  }

  lemma RecordsEnd(zero: seq<byte>, relocs: seq<nat>)
    requires |zero| == 10 * |relocs|
    ensures Overwrite(zero, 0, RelocBytes(relocs[..0])) == zero
    ensures Overwrite(zero, 0, RelocBytes(relocs[..|relocs|])) == RelocBytes(relocs)
  {
    assert relocs[..0] == [] && relocs[..|relocs|] == relocs;
  }

  lemma RecordsNext(zero: seq<byte>, relocs: seq<nat>, i: nat)
    requires i < |relocs| && 10 * |relocs| <= |zero|
    ensures Overwrite(Overwrite(zero, 0, RelocBytes(relocs[..i])), i * 10, RelocRecord(relocs[i]))
            == Overwrite(zero, 0, RelocBytes(relocs[..i + 1]))
  {
    OverwriteAppend(zero, 0, RelocBytes(relocs[..i]), RelocRecord(relocs[i]));
    assert relocs[..i + 1][..i] == relocs[..i];
  }

  method WriteRecord(rel: array<byte>, o: nat, va: nat)
    requires o + 10 <= rel.Length
    modifies rel
    ensures rel[..] == Overwrite(old(rel[..]), o, RelocRecord(va))
  {
    ghost var was := rel[..];
    Put(rel, o, Bytes32(ToU32(va)));
    Put(rel, o + 4, Bytes32(0));
    Put(rel, o + 8, Bytes16(ADDR32NB));
    OverwriteAppend(was, o, Bytes32(ToU32(va)), Bytes32(0));
    OverwriteAppend(was, o, Bytes32(ToU32(va)) + Bytes32(0), Bytes16(ADDR32NB));
  }

  method WriteSymbol(secSize: nat, relCount: nat) returns (sym: array<byte>)
    ensures fresh(sym) && sym[..] == Symbol(ToU32(secSize), ToU16(relCount))
  {
    sym := new byte[36](i => 0);
    ghost var zero := sym[..];
    var rsrc: seq<byte> := [46, 114, 115, 114, 99];
    Put(sym, 0, rsrc);
    Put(sym, 12, Bytes16(1));
    sym[16] := 3;
    sym[17] := 1;
    Put(sym, 18, Bytes32(ToU32(secSize)));
    Put(sym, 22, Bytes16(ToU16(relCount)));
    SymbolWritten(zero, rsrc, Bytes16(1), [3, 1], Bytes32(ToU32(secSize)), Bytes16(ToU16(relCount)));
  }

  lemma SymbolWritten(zero: seq<byte>, a: seq<byte>, b: seq<byte>, c: seq<byte>, d: seq<byte>, e: seq<byte>)
    requires zero == Zeros(36) && |a| == 5 && |b| == 2 && |c| == 2 && |d| == 4 && |e| == 2
    ensures Overwrite(Overwrite(Overwrite(Overwrite(zero, 0, a), 12, b)[16 := c[0]][17 := c[1]], 18, d), 22, e)
            == a + Zeros(3) + Zeros(4) + b + Zeros(2) + c + d + e + Zeros(12)
  {
    var s1 := Overwrite(zero, 0, a);
    assert s1 == a + Zeros(31);
    var s2: seq<byte> := Overwrite(s1, 12, b);
    assert s2 == a + Zeros(7) + b + Zeros(22);
    var s3: seq<byte> := s2[16 := c[0]][17 := c[1]];
    assert s3 == a + Zeros(7) + b + Zeros(2) + c + Zeros(18);
    var s4 := Overwrite(s3, 18, d);
    assert s4 == a + Zeros(7) + b + Zeros(2) + c + d + Zeros(14);
    assert Overwrite(s4, 22, e) == a + Zeros(7) + b + Zeros(2) + c + d + e + Zeros(12);
    assert Zeros(3) + Zeros(4) == Zeros(7);
    assert a + Zeros(3) + Zeros(4) == a + Zeros(7);
  }

  method WriteFileHeader(ptrSym: nat) returns (buf: seq<byte>)
    ensures buf == FileHeader(ToU32(ptrSym))
  {
    buf := Bytes16(MACHINE_AMD64);
    buf := buf + Bytes16(1);
    buf := buf + Bytes32(0);
    buf := buf + Bytes32(ToU32(ptrSym));
    buf := buf + Bytes32(2);
    buf := buf + Bytes16(0);
    buf := buf + Bytes16(0);
  }

  method WriteSectionHeader(size: nat, ptrReloc: nat, relCount: nat) returns (buf: seq<byte>)
    ensures buf == SectionHeader(ToU32(size), 60, ToU32(ptrReloc), ToU16(relCount))
  {
    buf := Name();
    buf := buf + Bytes32(0);
    buf := buf + Bytes32(0);
    buf := buf + Bytes32(ToU32(size));
    buf := buf + Bytes32(60);
    buf := buf + Bytes32(ToU32(ptrReloc));
    buf := buf + Bytes32(0);
    buf := buf + Bytes16(ToU16(relCount));
    buf := buf + Bytes16(0);
    buf := buf + Bytes32(FLAGS);
  }

  method WriteFile(sec: array<byte>, relocs: seq<nat>) returns (buf: seq<byte>)
    ensures buf == File(sec[..], relocs)
  {
    var relCount := |relocs|;
    var rel := WriteRelocs(relocs);
    var sym := WriteSymbol(sec.Length, relCount);
    var ptrRawData := 60;
    var ptrReloc := ptrRawData + sec.Length;
    var ptrSym := ptrReloc + rel.Length;
    buf := WriteFileHeader(ptrSym);
    var header := WriteSectionHeader(sec.Length, ptrReloc, relCount);
    buf := buf + header;
    buf := buf + sec[..];
    buf := buf + rel[..];
    buf := buf + sym[..];
    buf := buf + Bytes32(4);
  }

  method BuildSyso(res: seq<Resource>) returns (buf: seq<byte>)
    requires Distinct(res)
    ensures buf == Syso(res)
  {
    var sec, relocs := BuildSection(res);
    buf := WriteFile(sec, relocs);
  }

  function Targets(rs: seq<Relocation>): (r: seq<nat>)
    ensures |r| == |rs|
  {
    seq(|rs|, i requires 0 <= i < |rs| => rs[i].at)
  }

  /** A file read as an object, loaded at base and read as a resource tree. */
  function Load(f: seq<byte>, base: nat): Option<seq<Resource>> {
    var o := ReadObject(f);
    if o.None? then None else ReadTree(Relocate(o.value.raw, Targets(o.value.relocs), base), base)
  }

  /** Sizes for which no offset, address or count is cut off. */
  ghost predicate Fits(res: seq<Resource>, base: nat) {
    InRange(Groups(Sorted(res)), base)
  }

  /** One relocation per data entry, aimed at the entry's address field. */
  lemma OneRelocationPerEntry(res: seq<Resource>)
    requires Distinct(res) && Fits(res, 0)
    ensures var o := ReadObject(Syso(res)); var gs := Groups(Sorted(res));
            && o.Some? && o.value.raw == Section(gs)
            && Targets(o.value.relocs) == Relocs(gs, |res|)
            && (forall k :: 0 <= k < |res| ==> o.value.relocs[k] == Relocation(DataOff(gs, k), 0, ADDR32NB))
  {
    var gs := Groups(Sorted(res));
    SortedAscends(res);
    GroupsAreRuns(Sorted(res));
    FileFitsFor(gs);
    ObjectReadsBack(Section(gs), Relocs(gs, |res|));
    RelocationsAim(gs);
  }

  lemma FileFitsFor(gs: seq<seq<Resource>>)
    requires InRange(gs, 0)
    ensures FileFits(Section(gs), Relocs(gs, |Flat(gs)|))
  {
    RegionsTile(gs);
  }

  lemma RelocationsAim(gs: seq<seq<Resource>>)
    requires InRange(gs, 0)
    ensures var rs := Relocations(Relocs(gs, |Flat(gs)|));
            && Targets(rs) == Relocs(gs, |Flat(gs)|)
            && forall k :: 0 <= k < |Flat(gs)| ==> rs[k] == Relocation(DataOff(gs, k), 0, ADDR32NB)
  {
    forall k | 0 <= k < |Flat(gs)| ensures ToU32(DataOff(gs, k)) == DataOff(gs, k) {
      OffsetsFit(gs, k, 0);
    }
  }

  /**
   From resources to file and back: whatever the address the section is loaded at, a reader of the built object finds
   exactly the given resources, types and ids ascending, each with its own bytes.
   */
  lemma SysoLoads(res: seq<Resource>, base: nat)
    requires Distinct(res) && Fits(res, base)
    ensures Load(Syso(res), base) == Some(Sorted(res))
    ensures Ascending(Sorted(res)) && multiset(Sorted(res)) == multiset(res)
  {
    var gs := Groups(Sorted(res));
    SortedAscends(res);
    GroupsAreRuns(Sorted(res));
    OneRelocationPerEntry(res);
    LoadedTreeReadsBack(gs, base);
  }
}
