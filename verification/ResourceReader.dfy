/**
 A reader of resource sections, which walks the tree as the Microsoft PE Format describes it ("The .rsrc Section"),
 and the proof that it finds in mksyso's section exactly the resources given.
 */
module ResourceReader {
  import opened Basics
  import opened LittleEndian
  import opened ResourceTree

  // ---- Reading, as the format prescribes ----

  function EntryAt(s: seq<byte>, d: nat, i: nat): (u32, u32)
    requires d + 16 + 8 * (i + 1) <= |s|
  {
    (U32(s, d + 16 + 8 * i), U32(s, d + 16 + 8 * i + 4))
  }

  /** A directory's entries, named ones and id ones alike; None if it does not lie inside the section. */
  function ReadDir(s: seq<byte>, d: nat): Option<seq<(u32, u32)>> {
    if d + 16 > |s| then None
    else
      var n := U16(s, d + 12) + U16(s, d + 14);
      if d + 16 + 8 * n > |s| then None
      else Some(seq(n, i requires 0 <= i < n => EntryAt(s, d, i)))
  }

  /** A data entry's bytes; the entry counts from base. */
  function ReadData(s: seq<byte>, e: nat, base: nat): Option<seq<byte>> {
    if e + 16 > |s| then None
    else
      var o := U32(s, e) - base;
      if o < 0 || o + U32(s, e + 4) > |s| then None else Some(s[o..o + U32(s, e + 4)])
  }

  /** The leaves of one language directory. */
  function ReadLangs(s: seq<byte>, es: seq<(u32, u32)>, typ: u32, id: u32, base: nat): Option<seq<Resource>> {
    if es == [] then Some([])
    else if es[0].1 >= 0x8000_0000 then None
    else
      var data, rest := ReadData(s, es[0].1, base), ReadLangs(s, es[1..], typ, id, base);
      if data.None? || rest.None? then None else Some([Resource(typ, id, es[0].0, data.value)] + rest.value)
  }

  function ReadIds(s: seq<byte>, es: seq<(u32, u32)>, typ: u32, base: nat): Option<seq<Resource>> {
    if es == [] then Some([])
    else if es[0].1 < 0x8000_0000 then None
    else
      var dir := ReadDir(s, es[0].1 - 0x8000_0000);
      if dir.None? then None
      else
        var langs, rest := ReadLangs(s, dir.value, typ, es[0].0, base), ReadIds(s, es[1..], typ, base);
        if langs.None? || rest.None? then None else Some(langs.value + rest.value)
  }

  function ReadTypes(s: seq<byte>, es: seq<(u32, u32)>, base: nat): Option<seq<Resource>> {
    if es == [] then Some([])
    else if es[0].1 < 0x8000_0000 then None
    else
      var dir := ReadDir(s, es[0].1 - 0x8000_0000);
      if dir.None? then None
      else
        var ids, rest := ReadIds(s, dir.value, es[0].0, base), ReadTypes(s, es[1..], base);
        if ids.None? || rest.None? then None else Some(ids.value + rest.value)
  }

  /** Everything the section holds: root, types, ids, languages, data. */
  function ReadTree(s: seq<byte>, base: nat): Option<seq<Resource>> {
    var root := ReadDir(s, 0);
    if root.None? then None else ReadTypes(s, root.value, base)
  }

  // ---- The tree reads back ----

  /** Offsets keep clear of the subdirectory flag, addresses fit 32 bits, and counts fit their fields. */
  ghost predicate InRange(gs: seq<seq<Resource>>, base: nat) {
    && SectionSize(gs) < 0x8000_0000 && SectionSize(gs) + base < 0x1_0000_0000
    && |Flat(gs)| < 0x1_0000 && |gs| < 0x1_0000
  }

  lemma {:induction false} PairAt(es: seq<(u32, u32)>, i: nat)
    requires i < |es|
    ensures HasAt(Pairs(es), 8 * i, Bytes32(es[i].0)) && HasAt(Pairs(es), 8 * i + 4, Bytes32(es[i].1))
  {
    var was := es[..|es| - 1];
    var p, x, y := Pairs(was), Bytes32(es[|es| - 1].0), Bytes32(es[|es| - 1].1);
    assert Pairs(es) == p + x + y;
    if i < |es| - 1 {
      PairAt(was, i);
      Extended(p, x, 8 * i, Bytes32(es[i].0));
      Extended(p + x, y, 8 * i, Bytes32(es[i].0));
      Extended(p, x, 8 * i + 4, Bytes32(es[i].1));
      Extended(p + x, y, 8 * i + 4, Bytes32(es[i].1));
    } else {
      Joined(p, x);
      Extended(p + x, y, |p|, x);
      Joined(p + x, y);
    }
  }

  lemma HeaderFields(h: seq<byte>, n: u16, p: seq<byte>)
    requires h == Zeros(14) + Bytes16(n)
    ensures HasAt(h + p, 12, Bytes16(0)) && HasAt(h + p, 14, Bytes16(n)) && HasAt(h + p, 16, p)
  {
    Joined(h, p);
    Joined(Zeros(14), Bytes16(n));
    Extended(h, p, 14, Bytes16(n));
    assert Zeros(14) == Zeros(12) + Bytes16(0);
    Joined(Zeros(12), Bytes16(0));
    Extended(Zeros(14), Bytes16(n), 12, Bytes16(0));
    Extended(h, p, 12, Bytes16(0));
  }

  /** p holds the pairs of es, eight bytes each. */
  ghost predicate Holds(p: seq<byte>, es: seq<(u32, u32)>) {
    && |p| == 8 * |es|
    && forall i: nat {:trigger es[i]} :: i < |es| ==> HasAt(p, 8 * i, Bytes32(es[i].0)) && HasAt(p, 8 * i + 4, Bytes32(es[i].1))
  }

  lemma PairsHold(es: seq<(u32, u32)>)
    ensures Holds(Pairs(es), es)
  {
    forall i: nat | i < |es| ensures HasAt(Pairs(es), 8 * i, Bytes32(es[i].0)) && HasAt(Pairs(es), 8 * i + 4, Bytes32(es[i].1)) {
      PairAt(es, i);
    }
  }

  lemma EntriesRead(s: seq<byte>, d: nat, p: seq<byte>, es: seq<(u32, u32)>, i: nat)
    requires HasAt(s, d + 16, p) && Holds(p, es) && i < |es|
    ensures EntryAt(s, d, i) == es[i]
  {
    Field32(s, d + 16, p, 8 * i, es[i].0);
    Field32(s, d + 16, p, 8 * i + 4, es[i].1);
  }

  lemma DirReads(s: seq<byte>, d: nat, h: seq<byte>, p: seq<byte>, es: seq<(u32, u32)>)
    requires |es| < 0x1_0000 && h == Zeros(14) + Bytes16(|es|) && Holds(p, es) && HasAt(s, d, h + p)
    ensures ReadDir(s, d) == Some(es)
  {
    HeaderFields(h, |es|, p);
    Within(s, d, h + p, 16, p);
    Field16(s, d, h + p, 12, 0);
    Field16(s, d, h + p, 14, |es|);
    forall i | 0 <= i < |es| ensures EntryAt(s, d, i) == es[i] {
      EntriesRead(s, d, p, es, i);
    }
    assert ReadDir(s, d).value == es;
  }

  lemma DirReadsBack(s: seq<byte>, d: nat, es: seq<(u32, u32)>)
    requires HasAt(s, d, Dir(es)) && |es| < 0x1_0000
    ensures ReadDir(s, d) == Some(es)
  {
    PairsHold(es);
    DirReads(s, d, DirHeader(|es|), Pairs(es), es);
  }

  lemma DataFieldsRead(s: seq<byte>, e: nat, x: u32, y: u32)
    requires HasAt(s, e, DataFields(x, y))
    ensures U32(s, e) == x && U32(s, e + 4) == y
  {
    Joined(Bytes32(x), Bytes32(y));
    Extended(Bytes32(x) + Bytes32(y), Zeros(8), 0, Bytes32(x));
    Extended(Bytes32(x) + Bytes32(y), Zeros(8), 4, Bytes32(y));
    Field32(s, e, DataFields(x, y), 0, x);
    Field32(s, e, DataFields(x, y), 4, y);
  }

  lemma DataReads(s: seq<byte>, e: nat, x: u32, y: u32, data: seq<byte>, base: nat)
    requires HasAt(s, e, DataFields(x, y)) && base <= x && HasAt(s, x - base, data) && y == |data|
    ensures ReadData(s, e, base) == Some(data)
  {
    DataFieldsRead(s, e, x, y);
    HasAtIsSlice(s, x - base, data);
  }

  lemma FieldsFit(gs: seq<seq<Resource>>, k: nat, base: nat)
    requires InRange(gs, base) && k < |Flat(gs)|
    ensures BlobOff(gs, k) + |Flat(gs)[k].data| <= SectionSize(gs)
    ensures ToU32(BlobOff(gs, k) + base) == BlobOff(gs, k) + base
    ensures ToU32(|Flat(gs)[k].data|) == |Flat(gs)[k].data|
  {
    BlobAt(Flat(gs), k);
    assert Flat(gs)[..|Flat(gs)|] == Flat(gs);
  }

  lemma DataEntryReadsBack(s: seq<byte>, gs: seq<seq<Resource>>, k: nat, base: nat)
    requires InRange(gs, base) && k < |Flat(gs)| && LeafPlaced(s, gs, base, k)
    ensures ReadData(s, DataOff(gs, k), base) == Some(Flat(gs)[k].data)
  {
    FieldsFit(gs, k, base);
    DataReads(s, DataOff(gs, k), BlobOff(gs, k) + base, |Flat(gs)[k].data|, Flat(gs)[k].data, base);
  }

  lemma IdDirReadsBack(s: seq<byte>, gs: seq<seq<Resource>>, k: nat)
    requires k < |Flat(gs)| && HasAt(s, IdDirOff(gs, k), IdDir(gs, k))
    ensures ReadDir(s, IdDirOff(gs, k)) == Some([(Flat(gs)[k].lang, ToU32(DataOff(gs, k)))])
  {
    DirReadsBack(s, IdDirOff(gs, k), [(Flat(gs)[k].lang, ToU32(DataOff(gs, k)))]);
  }

  lemma TypeDirFits(gs: seq<seq<Resource>>, j: nat, base: nat)
    requires InRange(gs, base) && Uniform(gs) && j < |gs|
    ensures |gs[j]| < 0x1_0000
    ensures TypeDirOff(gs, j) < 0x8000_0000 && Sub(TypeDirOff(gs, j)) == 0x8000_0000 + TypeDirOff(gs, j)
  {
    FlatIndex(gs, j, |gs[j]| - 1);
  }

  lemma TypeDirReadsBack(s: seq<byte>, gs: seq<seq<Resource>>, j: nat)
    requires j < |gs| && |gs[j]| < 0x1_0000 && HasAt(s, TypeDirOff(gs, j), Dir(TypeList(gs, j)))
    ensures ReadDir(s, TypeDirOff(gs, j)) == Some(TypeList(gs, j))
  {
    DirReadsBack(s, TypeDirOff(gs, j), TypeList(gs, j));
  }

  lemma OffsetsFit(gs: seq<seq<Resource>>, k: nat, base: nat)
    requires InRange(gs, base) && k < |Flat(gs)|
    ensures ToU32(DataOff(gs, k)) == DataOff(gs, k) < 0x8000_0000
    ensures Sub(IdDirOff(gs, k)) == 0x8000_0000 + IdDirOff(gs, k)
  {
  }

  /** The k-th resource's id directory names its data entry, and that names its bytes. */
  ghost predicate LeafReads(s: seq<byte>, gs: seq<seq<Resource>>, k: nat, base: nat)
    requires k < |Flat(gs)|
  {
    && DataOff(gs, k) < 0x8000_0000 && Sub(IdDirOff(gs, k)) == 0x8000_0000 + IdDirOff(gs, k)
    && ReadDir(s, IdDirOff(gs, k)) == Some([(Flat(gs)[k].lang, DataOff(gs, k))])
    && ReadData(s, DataOff(gs, k), base) == Some(Flat(gs)[k].data)
  }

  ghost predicate LeavesRead(s: seq<byte>, gs: seq<seq<Resource>>, base: nat) {
    forall k: nat :: k < |Flat(gs)| ==> LeafReads(s, gs, k, base)
  }

  lemma LeafReadsBack(s: seq<byte>, gs: seq<seq<Resource>>, k: nat, base: nat)
    requires Placed(s, gs, |Flat(gs)|, base) && InRange(gs, base) && k < |Flat(gs)|
    ensures LeafReads(s, gs, k, base)
  {
    LeafOf(s, gs, |Flat(gs)|, base, |Flat(gs)|, k);
    IdDirReadsBack(s, gs, k);
    DataEntryReadsBack(s, gs, k, base);
    OffsetsFit(gs, k, base);
  }

  lemma TypeListFrom(gs: seq<seq<Resource>>, j: nat, i: nat)
    requires j < |gs| && i < |gs[j]|
    ensures TypeList(gs, j)[i..][0] == (gs[j][i].id, Sub(IdDirOff(gs, Start(gs, j) + i)))
    ensures TypeList(gs, j)[i..][1..] == TypeList(gs, j)[i + 1..]
  {
  }

  lemma OneId(s: seq<byte>, es: seq<(u32, u32)>, r: Resource, dir: nat, e: u32, rest: seq<Resource>, base: nat)
    requires es != [] && dir < 0x8000_0000 && es[0] == (r.id, 0x8000_0000 + dir) && e < 0x8000_0000
    requires ReadDir(s, dir) == Some([(r.lang, e)]) && ReadData(s, e, base) == Some(r.data)
    requires ReadIds(s, es[1..], r.typ, base) == Some(rest)
    ensures ReadIds(s, es, r.typ, base) == Some([r] + rest)
  {
    var leaf := [(r.lang, e)];
    assert leaf[1..] == [] && ReadLangs(s, [], r.typ, r.id, base) == Some([]);
    assert [r] + [] == [r];
    assert ReadLangs(s, leaf, r.typ, r.id, base) == Some([r]);
  }

  lemma IdReadsBack(s: seq<byte>, gs: seq<seq<Resource>>, j: nat, i: nat, rest: seq<Resource>, base: nat)
    requires LeavesRead(s, gs, base) && j < |gs| && i < |gs[j]|
    requires ReadIds(s, TypeList(gs, j)[i + 1..], gs[j][i].typ, base) == Some(rest)
    ensures ReadIds(s, TypeList(gs, j)[i..], gs[j][i].typ, base) == Some([gs[j][i]] + rest)
  {
    FlatIndex(gs, j, i);
    var k := Start(gs, j) + i;
    assert LeafReads(s, gs, k, base);
    TypeListFrom(gs, j, i);
    OneId(s, TypeList(gs, j)[i..], gs[j][i], IdDirOff(gs, k), DataOff(gs, k), rest, base);
  }

  lemma {:induction false} IdsReadBack(s: seq<byte>, gs: seq<seq<Resource>>, j: nat, i: nat, base: nat)
    requires LeavesRead(s, gs, base) && Uniform(gs) && j < |gs| && i <= |gs[j]|
    ensures ReadIds(s, TypeList(gs, j)[i..], gs[j][0].typ, base) == Some(gs[j][i..])
    decreases |gs[j]| - i
  {
    if i < |gs[j]| {
      IdsReadBack(s, gs, j, i + 1, base);
      assert gs[j][i].typ == gs[j][0].typ;
      IdReadsBack(s, gs, j, i, gs[j][i + 1..], base);
      assert [gs[j][i]] + gs[j][i + 1..] == gs[j][i..];
    } else {
      assert TypeList(gs, j)[i..] == [] && gs[j][i..] == [];
    }
  }

  lemma RootListFrom(gs: seq<seq<Resource>>, j: nat)
    requires j < |gs| && gs[j] != []
    ensures RootList(gs)[j..][0] == (gs[j][0].typ, Sub(TypeDirOff(gs, j)))
    ensures RootList(gs)[j..][1..] == RootList(gs)[j + 1..]
    ensures Flat(gs[j..]) == gs[j] + Flat(gs[j + 1..])
  {
    assert gs[j..][0] == gs[j] && gs[j..][1..] == gs[j + 1..];
  }

  lemma OneType(s: seq<byte>, es: seq<(u32, u32)>, dir: nat, ids: seq<(u32, u32)>, rs: seq<Resource>, rest: seq<Resource>, base: nat)
    requires es != [] && dir < 0x8000_0000 && es[0].1 == 0x8000_0000 + dir
    requires ReadDir(s, dir) == Some(ids) && ReadIds(s, ids, es[0].0, base) == Some(rs)
    requires ReadTypes(s, es[1..], base) == Some(rest)
    ensures ReadTypes(s, es, base) == Some(rs + rest)
  {
  }

  lemma {:induction false} TypesReadBack(s: seq<byte>, gs: seq<seq<Resource>>, j: nat, base: nat)
    requires Placed(s, gs, |Flat(gs)|, base) && InRange(gs, base) && Uniform(gs) && j <= |gs|
    ensures ReadTypes(s, RootList(gs)[j..], base) == Some(Flat(gs[j..]))
    decreases |gs| - j
  {
    if j < |gs| {
      TypesReadBack(s, gs, j + 1, base);
      TypeOf(s, gs, |gs|, j);
      TypeDirFits(gs, j, base);
      TypeDirReadsBack(s, gs, j);
      forall k: nat | k < |Flat(gs)| ensures LeafReads(s, gs, k, base) {
        LeafReadsBack(s, gs, k, base);
      }
      IdsReadBack(s, gs, j, 0, base);
      RootListFrom(gs, j);
      assert TypeList(gs, j)[0..] == TypeList(gs, j) && gs[j][0..] == gs[j];
      OneType(s, RootList(gs)[j..], TypeDirOff(gs, j), TypeList(gs, j), gs[j], Flat(gs[j + 1..]), base);
    }
  }

  /** A reader of a placed tree finds exactly the grouped resources, each with its own bytes. */
  lemma TreeReadsBack(s: seq<byte>, gs: seq<seq<Resource>>, base: nat)
    requires Placed(s, gs, |Flat(gs)|, base) && InRange(gs, base) && Uniform(gs)
    ensures ReadTree(s, base) == Some(Flat(gs))
  {
    DirReadsBack(s, 0, RootList(gs));
    TypesReadBack(s, gs, 0, base);
    assert RootList(gs)[0..] == RootList(gs) && gs[0..] == gs;
  }

  // ---- Loading at an address ----

  /** What a linker does with the section's relocations: each adds base to the 32 bits it aims at. */
  function Relocate(s: seq<byte>, relocs: seq<nat>, base: nat): (r: seq<byte>)
    ensures |r| == |s|
  {
    if relocs == [] then s
    else
      var t, at := Relocate(s, relocs[..|relocs| - 1], base), relocs[|relocs| - 1];
      if at + 4 > |t| then t else Bump(t, at, base)
  }

  function Bump(t: seq<byte>, at: nat, base: nat): (r: seq<byte>)
    requires at + 4 <= |t|
    ensures |r| == |t|
  {
    Overwrite(t, at, Bytes32(ToU32(U32(t, at) + base)))
  }

  lemma EntryRelocated(s: seq<byte>, e: nat, x: u32, y: u32, z: u32)
    requires HasAt(s, e, DataFields(x, y))
    ensures HasAt(Overwrite(s, e, Bytes32(z)), e, DataFields(z, y))
  {
    assert DataFields(x, y) == Bytes32(x) + (Bytes32(y) + Zeros(8));
    Replaced(s, e, Bytes32(x), Bytes32(y) + Zeros(8), Bytes32(z));
    assert DataFields(z, y) == Bytes32(z) + (Bytes32(y) + Zeros(8));
  }

  lemma TypeDirEnds(gs: seq<seq<Resource>>, j: nat)
    requires j < |gs|
    ensures TypeDirOff(gs, j) + 16 + 8 * |gs[j]| <= DataOff(gs, 0)
  {
    FlatSplit(gs, j + 1);
    assert gs[..j + 1] == gs[..j] + [gs[j]];
    FlatSnoc(gs[..j], gs[j]);
  }

  /** Relocating the m-th data entry adds base to the address it holds. */
  lemma BumpIs(s: seq<byte>, gs: seq<seq<Resource>>, m: nat, base: nat)
    requires InRange(gs, base) && m < |Flat(gs)| && HasAt(s, DataOff(gs, m), DataEntry(gs, m, 0))
    ensures Bump(s, DataOff(gs, m), base) == Overwrite(s, DataOff(gs, m), Bytes32(ToU32(BlobOff(gs, m) + base)))
  {
    FieldsFit(gs, m, 0);
    FieldsFit(gs, m, base);
    DataFieldsRead(s, DataOff(gs, m), BlobOff(gs, m), |Flat(gs)[m].data|);
  }

  lemma EntryMoves(s: seq<byte>, gs: seq<seq<Resource>>, m: nat, base: nat)
    requires InRange(gs, base) && m < |Flat(gs)| && HasAt(s, DataOff(gs, m), DataEntry(gs, m, 0))
    ensures HasAt(Overwrite(s, DataOff(gs, m), Bytes32(ToU32(BlobOff(gs, m) + base))), DataOff(gs, m), DataEntry(gs, m, base))
  {
    FieldsFit(gs, m, 0);
    FieldsFit(gs, m, base);
    EntryRelocated(s, DataOff(gs, m), BlobOff(gs, m), |Flat(gs)[m].data|, ToU32(BlobOff(gs, m) + base));
  }

  lemma RootUntouched(s: seq<byte>, gs: seq<seq<Resource>>, m: nat, z: seq<byte>)
    requires HasAt(s, 0, Dir(RootList(gs))) && |z| == 4 && DataOff(gs, m) + 4 <= |s|
    ensures HasAt(Overwrite(s, DataOff(gs, m), z), 0, Dir(RootList(gs)))
  {
    Untouched(s, DataOff(gs, m), z, 0, Dir(RootList(gs)));
  }

  lemma {:induction false} TypesUntouched(s: seq<byte>, gs: seq<seq<Resource>>, m: nat, z: seq<byte>, n: nat)
    requires n <= |gs| && TypesPlaced(s, gs, n) && |z| == 4 && DataOff(gs, m) + 4 <= |s|
    ensures TypesPlaced(Overwrite(s, DataOff(gs, m), z), gs, n)
  {
    if n > 0 {
      TypesUntouched(s, gs, m, z, n - 1);
      TypeDirEnds(gs, n - 1);
      Untouched(s, DataOff(gs, m), z, TypeDirOff(gs, n - 1), Dir(TypeList(gs, n - 1)));
    }
  }

  lemma LeafUntouched(s: seq<byte>, gs: seq<seq<Resource>>, m: nat, z: seq<byte>, base: nat, k: nat)
    requires k < |Flat(gs)| && m < |Flat(gs)| && LeafPlaced(s, gs, base, k) && |z| == 4 && DataOff(gs, m) + 4 <= |s|
    ensures HasAt(Overwrite(s, DataOff(gs, m), z), IdDirOff(gs, k), IdDir(gs, k))
    ensures k != m ==> HasAt(Overwrite(s, DataOff(gs, m), z), DataOff(gs, k), DataEntry(gs, k, base))
    ensures HasAt(Overwrite(s, DataOff(gs, m), z), BlobOff(gs, k), Flat(gs)[k].data)
  {
    Untouched(s, DataOff(gs, m), z, IdDirOff(gs, k), IdDir(gs, k));
    if k != m {
      Untouched(s, DataOff(gs, m), z, DataOff(gs, k), DataEntry(gs, k, base));
    }
    Untouched(s, DataOff(gs, m), z, BlobOff(gs, k), Flat(gs)[k].data);
  }

  lemma {:induction false} LeavesRelocated(s: seq<byte>, gs: seq<seq<Resource>>, m: nat, base: nat, z: seq<byte>, n: nat)
    requires m < |Flat(gs)| && n <= |Flat(gs)| && LeavesPlaced(s, gs, m, base, n)
    requires |z| == 4 && DataOff(gs, m) + 4 <= |s|
    requires HasAt(Overwrite(s, DataOff(gs, m), z), DataOff(gs, m), DataEntry(gs, m, base))
    ensures LeavesPlaced(Overwrite(s, DataOff(gs, m), z), gs, m + 1, base, n)
  {
    if n > 0 {
      LeavesRelocated(s, gs, m, base, z, n - 1);
      LeafUntouched(s, gs, m, z, if n - 1 < m then base else 0, n - 1);
    }
  }

  /** Relocating the m-th data entry changes that entry and nothing else. */
  lemma RelocateOne(s: seq<byte>, gs: seq<seq<Resource>>, m: nat, base: nat)
    requires Placed(s, gs, m, base) && InRange(gs, base) && m < |Flat(gs)|
    ensures DataOff(gs, m) + 4 <= |s|
    ensures Placed(Bump(s, DataOff(gs, m), base), gs, m + 1, base)
  {
    LeafOf(s, gs, m, base, |Flat(gs)|, m);
    FieldsFit(gs, m, base);
    BumpIs(s, gs, m, base);
    EntryMoves(s, gs, m, base);
    EntryWritten(s, gs, m, base, Bytes32(ToU32(BlobOff(gs, m) + base)));
  }

  lemma EntryWritten(s: seq<byte>, gs: seq<seq<Resource>>, m: nat, base: nat, z: seq<byte>)
    requires Placed(s, gs, m, base) && m < |Flat(gs)| && |z| == 4 && DataOff(gs, m) + 4 <= |s|
    requires HasAt(Overwrite(s, DataOff(gs, m), z), DataOff(gs, m), DataEntry(gs, m, base))
    ensures Placed(Overwrite(s, DataOff(gs, m), z), gs, m + 1, base)
  {
    RootUntouched(s, gs, m, z);
    TypesUntouched(s, gs, m, z, |gs|);
    LeavesRelocated(s, gs, m, base, z, |Flat(gs)|);
  }

  lemma RelocateLast(s: seq<byte>, gs: seq<seq<Resource>>, m: nat, base: nat)
    requires DataOff(gs, m) + 4 <= |s|
    ensures Relocate(s, Relocs(gs, m + 1), base) == Bump(Relocate(s, Relocs(gs, m), base), DataOff(gs, m), base)
  {
    assert Relocs(gs, m + 1)[..m] == Relocs(gs, m);
  }

  lemma {:induction false} RelocationsPlace(s: seq<byte>, gs: seq<seq<Resource>>, m: nat, base: nat)
    requires Placed(s, gs, 0, base) && InRange(gs, base) && m <= |Flat(gs)|
    ensures Placed(Relocate(s, Relocs(gs, m), base), gs, m, base)
  {
    if m == 0 {
      assert Relocs(gs, 0) == [];
    } else {
      RelocationsPlace(s, gs, m - 1, base);
      RelocateOne(Relocate(s, Relocs(gs, m - 1), base), gs, m - 1, base);
      RelocateLast(s, gs, m - 1, base);
    }
  }

  /**
   The section and its relocations do their job: loaded at any address, the tree yields exactly the resources.
   */
  lemma LoadedTreeReadsBack(gs: seq<seq<Resource>>, base: nat)
    requires InRange(gs, base) && Uniform(gs)
    ensures ReadTree(Relocate(Section(gs), Relocs(gs, |Flat(gs)|), base), base) == Some(Flat(gs))
  {
    SectionPlaces(gs, base);
    RelocationsPlace(Section(gs), gs, |Flat(gs)|, base);
    TreeReadsBack(Relocate(Section(gs), Relocs(gs, |Flat(gs)|), base), gs, base);
  }
}
