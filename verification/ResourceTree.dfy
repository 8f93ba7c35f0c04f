/**
 The resource section mksyso writes (tools/mksyso/main.go, buildSyso): a three-level directory tree of
 type, id and language, the data entries and the data, each at the place computed for it.
 */
module ResourceTree {
  import opened Basics
  import opened LittleEndian

  datatype Resource = Resource(typ: u32, id: u32, lang: u32, data: seq<byte>)

  /** A Go conversion of an offset or length to a narrower type. */
  function ToU32(n: nat): u32 { n % 0x1_0000_0000 }
  function ToU16(n: nat): u16 { n % 0x1_0000 }

  /** An offset with the subdirectory flag set. */
  function Sub(n: nat): u32 { n % 0x8000_0000 + 0x8000_0000 }

  // ---- Order and grouping ----

  function KeyOf(r: Resource): (u32, u32) { (r.typ, r.id) }

  predicate Before(a: Resource, b: Resource) {
    a.typ < b.typ || (a.typ == b.typ && a.id < b.id)
  }

  predicate Ascending(rs: seq<Resource>) {
    forall i, j :: 0 <= i < j < |rs| ==> Before(rs[i], rs[j])
  }

  /** No two resources share type and id: the tree has one language per pair. */
  predicate Distinct(rs: seq<Resource>) {
    forall i, j :: 0 <= i < j < |rs| ==> KeyOf(rs[i]) != KeyOf(rs[j])
  }

  function Flat(gs: seq<seq<Resource>>): seq<Resource> {
    if gs == [] then [] else gs[0] + Flat(gs[1..])
  }

  /** One more resource joins the last group if it has its type, and starts a group otherwise. */
  function Join(gs: seq<seq<Resource>>, r: Resource): seq<seq<Resource>> {
    if gs != [] && gs[|gs| - 1] != [] && gs[|gs| - 1][0].typ == r.typ
    then gs[..|gs| - 1] + [gs[|gs| - 1] + [r]]
    else gs + [[r]]
  }

  /** The maximal runs of one type. */
  function Groups(rs: seq<Resource>): seq<seq<Resource>> {
    if rs == [] then [] else Join(Groups(rs[..|rs| - 1]), rs[|rs| - 1])
  }

  ghost predicate Uniform(gs: seq<seq<Resource>>) {
    forall j :: 0 <= j < |gs| ==> gs[j] != [] && forall i :: 0 <= i < |gs[j]| ==> gs[j][i].typ == gs[j][0].typ
  }

  lemma {:induction false} FlatSplit(gs: seq<seq<Resource>>, j: nat)
    requires j <= |gs|
    ensures Flat(gs) == Flat(gs[..j]) + Flat(gs[j..])
  {
    if j == 0 {
      assert gs[..0] == [] && gs[0..] == gs;
    } else {
      FlatSplit(gs[1..], j - 1);
      assert gs[..j][1..] == gs[1..][..j - 1] && gs[1..][j - 1..] == gs[j..];
    }
  }

  lemma FlatSnoc(gs: seq<seq<Resource>>, g: seq<Resource>)
    ensures Flat(gs + [g]) == Flat(gs) + g
  {
    FlatSplit(gs + [g], |gs|);
    assert (gs + [g])[..|gs|] == gs && (gs + [g])[|gs|..] == [g];
    assert Flat([g]) == g + Flat([]);
  }

  lemma JoinFlattens(gs: seq<seq<Resource>>, r: Resource)
    ensures Flat(Join(gs, r)) == Flat(gs) + [r]
  {
    if gs != [] && gs[|gs| - 1] != [] && gs[|gs| - 1][0].typ == r.typ {
      var init, last := gs[..|gs| - 1], gs[|gs| - 1];
      assert gs == init + [last];
      FlatSnoc(init, last);
      FlatSnoc(init, last + [r]);
      assert Flat(init) + (last + [r]) == (Flat(init) + last) + [r];
    } else {
      FlatSnoc(gs, [r]);
    }
  }

  /** The types of the groups, in order; in ascending order if they ascend. */
  ghost predicate TypesAscend(gs: seq<seq<Resource>>) {
    Uniform(gs) && forall i, j :: 0 <= i < j < |gs| ==> gs[i][0].typ < gs[j][0].typ
  }

  lemma JoinKeepsRuns(gs: seq<seq<Resource>>, r: Resource)
    requires Uniform(gs)
    ensures Uniform(Join(gs, r)) && |Join(gs, r)| <= |gs| + 1
    ensures Join(gs, r) != [] && Join(gs, r)[|Join(gs, r)| - 1][0].typ == r.typ
    ensures TypesAscend(gs) && (gs == [] || gs[|gs| - 1][0].typ <= r.typ) ==> TypesAscend(Join(gs, r))
  {
  }

  lemma {:induction false} GroupsAreRuns(rs: seq<Resource>)
    ensures Uniform(Groups(rs)) && Flat(Groups(rs)) == rs && |Groups(rs)| <= |rs|
    ensures rs != [] ==> Groups(rs) != [] && Groups(rs)[|Groups(rs)| - 1][0].typ == rs[|rs| - 1].typ
  {
    if rs != [] {
      var was := rs[..|rs| - 1];
      GroupsAreRuns(was);
      assert rs == was + [rs[|rs| - 1]];
      JoinFlattens(Groups(was), rs[|rs| - 1]);
      JoinKeepsRuns(Groups(was), rs[|rs| - 1]);
    }
  }

  lemma {:induction false} GroupTypesAscend(rs: seq<Resource>)
    requires Ascending(rs)
    ensures TypesAscend(Groups(rs))
  {
    if rs != [] {
      var was := rs[..|rs| - 1];
      GroupTypesAscend(was);
      GroupsAreRuns(was);
      assert was != [] ==> Before(was[|was| - 1], rs[|rs| - 1]);
      JoinKeepsRuns(Groups(was), rs[|rs| - 1]);
    }
  }

  // ---- Layout ----

  function Start(gs: seq<seq<Resource>>, j: nat): nat
    requires j <= |gs|
  {
    |Flat(gs[..j])|
  }

  function Size(rs: seq<Resource>): nat {
    if rs == [] then 0 else Size(rs[..|rs| - 1]) + |rs[|rs| - 1].data|
  }

  function TypeDirOff(gs: seq<seq<Resource>>, j: nat): nat
    requires j <= |gs|
  {
    16 + 8 * |gs| + 16 * j + 8 * Start(gs, j)
  }

  function IdDirOff(gs: seq<seq<Resource>>, k: nat): nat {
    16 + 24 * |gs| + 8 * |Flat(gs)| + 24 * k
  }

  function DataOff(gs: seq<seq<Resource>>, k: nat): nat {
    IdDirOff(gs, |Flat(gs)|) + 16 * k
  }

  function BlobOff(gs: seq<seq<Resource>>, k: nat): nat
    requires k <= |Flat(gs)|
  {
    DataOff(gs, |Flat(gs)|) + Size(Flat(gs)[..k])
  }

  function SectionSize(gs: seq<seq<Resource>>): nat {
    BlobOff(gs, |Flat(gs)|)
  }

  // ---- Content ----

  function Pairs(es: seq<(u32, u32)>): (r: seq<byte>)
    ensures |r| == 8 * |es|
  {
    if es == [] then [] else Pairs(es[..|es| - 1]) + Bytes32(es[|es| - 1].0) + Bytes32(es[|es| - 1].1)
  }

  /** Characteristics, time, version and the count of named entries are zero; only the count of id entries is not. */
  function DirHeader(n: nat): (r: seq<byte>)
    ensures |r| == 16
  {
    Zeros(14) + Bytes16(ToU16(n))
  }

  function Dir(es: seq<(u32, u32)>): (r: seq<byte>)
    ensures |r| == 16 + 8 * |es|
  {
    DirHeader(|es|) + Pairs(es)
  }

  function RootList(gs: seq<seq<Resource>>): (r: seq<(u32, u32)>)
    ensures |r| == |gs|
  {
    seq(|gs|, j requires 0 <= j < |gs| => (if gs[j] != [] then gs[j][0].typ else 0, Sub(TypeDirOff(gs, j))))
  }

  function TypeList(gs: seq<seq<Resource>>, j: nat): (r: seq<(u32, u32)>)
    requires j < |gs|
    ensures |r| == |gs[j]|
  {
    seq(|gs[j]|, i requires 0 <= i < |gs[j]| => (gs[j][i].id, Sub(IdDirOff(gs, Start(gs, j) + i))))
  }

  function IdDir(gs: seq<seq<Resource>>, k: nat): (r: seq<byte>)
    requires k < |Flat(gs)|
    ensures |r| == 24
  {
    Dir([(Flat(gs)[k].lang, ToU32(DataOff(gs, k)))])
  }

  function DataFields(at: u32, size: u32): (r: seq<byte>)
    ensures |r| == 16
  {
    Bytes32(at) + Bytes32(size) + Zeros(8)
  }

  /** Where a resource's bytes lie, counted from base, and how many they are. The file has base 0. */
  function DataEntry(gs: seq<seq<Resource>>, k: nat, base: nat): (r: seq<byte>)
    requires k < |Flat(gs)|
    ensures |r| == 16
  {
    DataFields(ToU32(BlobOff(gs, k) + base), ToU32(|Flat(gs)[k].data|))
  }

  function TypeDirs(gs: seq<seq<Resource>>, j: nat): seq<byte>
    requires j <= |gs|
  {
    if j == 0 then [] else TypeDirs(gs, j - 1) + Dir(TypeList(gs, j - 1))
  }

  function IdDirs(gs: seq<seq<Resource>>, k: nat): (r: seq<byte>)
    requires k <= |Flat(gs)|
    ensures |r| == 24 * k
  {
    if k == 0 then [] else IdDirs(gs, k - 1) + IdDir(gs, k - 1)
  }

  function DataEntries(gs: seq<seq<Resource>>, k: nat): (r: seq<byte>)
    requires k <= |Flat(gs)|
    ensures |r| == 16 * k
  {
    if k == 0 then [] else DataEntries(gs, k - 1) + DataEntry(gs, k - 1, 0)
  }

  function Blobs(rs: seq<Resource>): (r: seq<byte>)
    ensures |r| == Size(rs)
  {
    if rs == [] then [] else Blobs(rs[..|rs| - 1]) + rs[|rs| - 1].data
  }

  /** The section is exactly its five regions, one after the other. */
  function Section(gs: seq<seq<Resource>>): seq<byte> {
    var n := |Flat(gs)|;
    Dir(RootList(gs)) + TypeDirs(gs, |gs|) + IdDirs(gs, n) + DataEntries(gs, n) + Blobs(Flat(gs))
  }

  /** One relocation per data entry, aimed at its first field. */
  function Relocs(gs: seq<seq<Resource>>, n: nat): (r: seq<nat>)
    ensures |r| == n
  {
    seq(n, k requires 0 <= k < n => DataOff(gs, k))
  }

  lemma {:induction false} TypeDirsLength(gs: seq<seq<Resource>>, j: nat)
    requires j <= |gs|
    ensures |TypeDirs(gs, j)| == 16 * j + 8 * Start(gs, j)
  {
    if j > 0 {
      TypeDirsLength(gs, j - 1);
      assert gs[..j] == gs[..j - 1] + [gs[j - 1]];
      FlatSnoc(gs[..j - 1], gs[j - 1]);
    }
  }

  /** The five regions lie in s at their offsets. */
  ghost predicate Laid(s: seq<byte>, gs: seq<seq<Resource>>) {
    && |s| == SectionSize(gs)
    && HasAt(s, 0, Dir(RootList(gs)))
    && HasAt(s, TypeDirOff(gs, 0), TypeDirs(gs, |gs|))
    && HasAt(s, IdDirOff(gs, 0), IdDirs(gs, |Flat(gs)|))
    && HasAt(s, DataOff(gs, 0), DataEntries(gs, |Flat(gs)|))
    && HasAt(s, BlobOff(gs, 0), Blobs(Flat(gs)))
  }

  /** Each region begins where the one before it ends, and the last ends the section. */
  lemma RegionsAdjoin(gs: seq<seq<Resource>>)
    ensures |Dir(RootList(gs))| == TypeDirOff(gs, 0)
    ensures TypeDirOff(gs, 0) + |TypeDirs(gs, |gs|)| == TypeDirOff(gs, |gs|) == IdDirOff(gs, 0)
    ensures IdDirOff(gs, 0) + |IdDirs(gs, |Flat(gs)|)| == IdDirOff(gs, |Flat(gs)|) == DataOff(gs, 0)
    ensures DataOff(gs, 0) + |DataEntries(gs, |Flat(gs)|)| == DataOff(gs, |Flat(gs)|) == BlobOff(gs, 0)
    ensures BlobOff(gs, 0) + |Blobs(Flat(gs))| == SectionSize(gs)
  {
    TypeDirsLength(gs, |gs|);
    assert gs[..|gs|] == gs && gs[..0] == [] && Flat(gs)[..0] == [] && Flat(gs)[..|Flat(gs)|] == Flat(gs);
  }

  /** The regions fill the section: nothing overlaps and nothing is left over. */
  lemma RegionsTile(gs: seq<seq<Resource>>)
    ensures Laid(Section(gs), gs)
  {
    RegionsAdjoin(gs);
    var n := |Flat(gs)|;
    Tile(gs, Dir(RootList(gs)), TypeDirs(gs, |gs|), IdDirs(gs, n), DataEntries(gs, n), Blobs(Flat(gs)));
  }

  lemma Tile(gs: seq<seq<Resource>>, a: seq<byte>, b: seq<byte>, c: seq<byte>, d: seq<byte>, e: seq<byte>)
    requires |a| == TypeDirOff(gs, 0) && |a| + |b| == IdDirOff(gs, 0) && |a| + |b| + |c| == DataOff(gs, 0)
    requires |a| + |b| + |c| + |d| == BlobOff(gs, 0)
    ensures HasAt(a + b + c + d + e, 0, a) && HasAt(a + b + c + d + e, TypeDirOff(gs, 0), b)
    ensures HasAt(a + b + c + d + e, IdDirOff(gs, 0), c) && HasAt(a + b + c + d + e, DataOff(gs, 0), d)
    ensures HasAt(a + b + c + d + e, BlobOff(gs, 0), e)
  {
    FivePieces(a, b, c, d, e);
  }

  lemma FivePieces(a: seq<byte>, b: seq<byte>, c: seq<byte>, d: seq<byte>, e: seq<byte>)
    ensures HasAt(a + b + c + d + e, 0, a) && HasAt(a + b + c + d + e, |a|, b)
    ensures HasAt(a + b + c + d + e, |a| + |b|, c)
    ensures HasAt(a + b + c + d + e, |a| + |b| + |c|, d)
    ensures HasAt(a + b + c + d + e, |a| + |b| + |c| + |d|, e)
  {
    FourPieces(a, b, c, d);
    var p := a + b + c + d;
    Joined(p, e);
    Within(p + e, 0, p, 0, a);
    Within(p + e, 0, p, |a|, b);
    Within(p + e, 0, p, |a| + |b|, c);
    Within(p + e, 0, p, |a| + |b| + |c|, d);
  }

  lemma FourPieces(a: seq<byte>, b: seq<byte>, c: seq<byte>, d: seq<byte>)
    ensures HasAt(a + b + c + d, 0, a) && HasAt(a + b + c + d, |a|, b)
    ensures HasAt(a + b + c + d, |a| + |b|, c)
    ensures HasAt(a + b + c + d, |a| + |b| + |c|, d)
  {
    var p := a + b;
    Joined(a, b);
    Joined(p, c);
    Joined(p + c, d);
    Within(p + c + d, 0, p + c, |p|, c);
    Within(p + c + d, 0, p + c, 0, p);
    Within(p + c + d, 0, p, 0, a);
    Within(p + c + d, 0, p, |a|, b);
  }

  // ---- Every piece at its offset ----

  lemma TypeDirsGrow(gs: seq<seq<Resource>>, m: nat, o: nat, d: seq<byte>)
    requires 0 < m <= |gs|
    ensures HasAt(TypeDirs(gs, m), |TypeDirs(gs, m - 1)|, Dir(TypeList(gs, m - 1)))
    ensures HasAt(TypeDirs(gs, m - 1), o, d) ==> HasAt(TypeDirs(gs, m), o, d)
  {
    Joined(TypeDirs(gs, m - 1), Dir(TypeList(gs, m - 1)));
    if HasAt(TypeDirs(gs, m - 1), o, d) {
      Extended(TypeDirs(gs, m - 1), Dir(TypeList(gs, m - 1)), o, d);
    }
  }

  lemma {:induction false} TypeDirAt(gs: seq<seq<Resource>>, j: nat, m: nat)
    requires j < m <= |gs|
    ensures HasAt(TypeDirs(gs, m), |TypeDirs(gs, j)|, Dir(TypeList(gs, j)))
  {
    TypeDirsGrow(gs, m, |TypeDirs(gs, j)|, Dir(TypeList(gs, j)));
    if j < m - 1 {
      TypeDirAt(gs, j, m - 1);
    }
  }

  lemma {:induction false} IdDirAt(gs: seq<seq<Resource>>, k: nat, n: nat)
    requires k < n <= |Flat(gs)|
    ensures HasAt(IdDirs(gs, n), 24 * k, IdDir(gs, k))
  {
    Joined(IdDirs(gs, n - 1), IdDir(gs, n - 1));
    if k < n - 1 {
      IdDirAt(gs, k, n - 1);
      Extended(IdDirs(gs, n - 1), IdDir(gs, n - 1), 24 * k, IdDir(gs, k));
    }
  }

  lemma {:induction false} DataEntryAt(gs: seq<seq<Resource>>, k: nat, n: nat)
    requires k < n <= |Flat(gs)|
    ensures HasAt(DataEntries(gs, n), 16 * k, DataEntry(gs, k, 0))
  {
    Joined(DataEntries(gs, n - 1), DataEntry(gs, n - 1, 0));
    if k < n - 1 {
      DataEntryAt(gs, k, n - 1);
      Extended(DataEntries(gs, n - 1), DataEntry(gs, n - 1, 0), 16 * k, DataEntry(gs, k, 0));
    }
  }

  lemma {:induction false} BlobAt(rs: seq<Resource>, k: nat)
    requires k < |rs|
    ensures HasAt(Blobs(rs), Size(rs[..k]), rs[k].data) && Size(rs[..k]) + |rs[k].data| <= Size(rs)
  {
    var was := rs[..|rs| - 1];
    Joined(Blobs(was), rs[|rs| - 1].data);
    if k < |rs| - 1 {
      BlobAt(was, k);
      assert was[..k] == rs[..k];
      Extended(Blobs(was), rs[|rs| - 1].data, Size(rs[..k]), rs[k].data);
    }
  }

  lemma IdDirPlaced(s: seq<byte>, gs: seq<seq<Resource>>, k: nat)
    requires HasAt(s, IdDirOff(gs, 0), IdDirs(gs, |Flat(gs)|)) && k < |Flat(gs)|
    ensures HasAt(s, IdDirOff(gs, k), IdDir(gs, k))
  {
    IdDirAt(gs, k, |Flat(gs)|);
    Within(s, IdDirOff(gs, 0), IdDirs(gs, |Flat(gs)|), 24 * k, IdDir(gs, k));
  }

  lemma DataEntryPlaced(s: seq<byte>, gs: seq<seq<Resource>>, k: nat)
    requires HasAt(s, DataOff(gs, 0), DataEntries(gs, |Flat(gs)|)) && k < |Flat(gs)|
    ensures HasAt(s, DataOff(gs, k), DataEntry(gs, k, 0))
  {
    DataEntryAt(gs, k, |Flat(gs)|);
    Within(s, DataOff(gs, 0), DataEntries(gs, |Flat(gs)|), 16 * k, DataEntry(gs, k, 0));
  }

  lemma BlobPlaced(s: seq<byte>, gs: seq<seq<Resource>>, k: nat)
    requires HasAt(s, BlobOff(gs, 0), Blobs(Flat(gs))) && k < |Flat(gs)|
    ensures HasAt(s, BlobOff(gs, k), Flat(gs)[k].data)
  {
    BlobAt(Flat(gs), k);
    assert Flat(gs)[..0] == [];
    Within(s, BlobOff(gs, 0), Blobs(Flat(gs)), Size(Flat(gs)[..k]), Flat(gs)[k].data);
  }

  lemma TypeDirPlaced(s: seq<byte>, gs: seq<seq<Resource>>, j: nat)
    requires HasAt(s, TypeDirOff(gs, 0), TypeDirs(gs, |gs|)) && j < |gs|
    ensures HasAt(s, TypeDirOff(gs, j), Dir(TypeList(gs, j)))
  {
    TypeDirAt(gs, j, |gs|);
    PlaceAt(s, TypeDirOff(gs, 0), TypeDirs(gs, |gs|), |TypeDirs(gs, j)|, Dir(TypeList(gs, j)), TypeDirOff(gs, j)) by {
      TypeDirsLength(gs, j);
      assert gs[..0] == [];
    }
  }

  lemma PlaceAt(s: seq<byte>, o: nat, c: seq<byte>, i: nat, d: seq<byte>, at: nat)
    requires HasAt(s, o, c) && HasAt(c, i, d) && at == o + i
    ensures HasAt(s, at, d)
  {
    Within(s, o, c, i, d);
  }

  ghost predicate TypesPlaced(s: seq<byte>, gs: seq<seq<Resource>>, n: nat)
    requires n <= |gs|
  {
    n == 0 || (TypesPlaced(s, gs, n - 1) && HasAt(s, TypeDirOff(gs, n - 1), Dir(TypeList(gs, n - 1))))
  }

  ghost predicate LeafPlaced(s: seq<byte>, gs: seq<seq<Resource>>, base: nat, k: nat)
    requires k < |Flat(gs)|
  {
    && HasAt(s, IdDirOff(gs, k), IdDir(gs, k))
    && HasAt(s, DataOff(gs, k), DataEntry(gs, k, base))
    && HasAt(s, BlobOff(gs, k), Flat(gs)[k].data)
  }

  ghost predicate LeavesPlaced(s: seq<byte>, gs: seq<seq<Resource>>, m: nat, base: nat, n: nat)
    requires n <= |Flat(gs)|
  {
    n == 0 || (LeavesPlaced(s, gs, m, base, n - 1) && LeafPlaced(s, gs, if n - 1 < m then base else 0, n - 1))
  }

  /** Every piece of the tree lies in s at its own offset, the first m data entries counting from base. */
  ghost predicate Placed(s: seq<byte>, gs: seq<seq<Resource>>, m: nat, base: nat) {
    && |s| == SectionSize(gs)
    && HasAt(s, 0, Dir(RootList(gs)))
    && TypesPlaced(s, gs, |gs|)
    && LeavesPlaced(s, gs, m, base, |Flat(gs)|)
  }

  lemma {:induction false} TypeOf(s: seq<byte>, gs: seq<seq<Resource>>, n: nat, j: nat)
    requires j < n <= |gs| && TypesPlaced(s, gs, n)
    ensures HasAt(s, TypeDirOff(gs, j), Dir(TypeList(gs, j)))
  {
    if j < n - 1 {
      TypeOf(s, gs, n - 1, j);
    }
  }

  lemma {:induction false} LeafOf(s: seq<byte>, gs: seq<seq<Resource>>, m: nat, base: nat, n: nat, k: nat)
    requires k < n <= |Flat(gs)| && LeavesPlaced(s, gs, m, base, n)
    ensures LeafPlaced(s, gs, if k < m then base else 0, k)
  {
    if k < n - 1 {
      LeafOf(s, gs, m, base, n - 1, k);
    }
  }

  lemma SectionPlaces(gs: seq<seq<Resource>>, base: nat)
    ensures Placed(Section(gs), gs, 0, base)
  {
    RegionsTile(gs);
    LaidPlacesTypes(Section(gs), gs, |gs|);
    LaidPlacesLeaves(Section(gs), gs, base, |Flat(gs)|);
  }

  lemma {:induction false} LaidPlacesTypes(s: seq<byte>, gs: seq<seq<Resource>>, n: nat)
    requires HasAt(s, TypeDirOff(gs, 0), TypeDirs(gs, |gs|)) && n <= |gs|
    ensures TypesPlaced(s, gs, n)
  {
    if n > 0 {
      LaidPlacesTypes(s, gs, n - 1);
      TypeDirPlaced(s, gs, n - 1);
    }
  }

  lemma {:induction false} LaidPlacesLeaves(s: seq<byte>, gs: seq<seq<Resource>>, base: nat, n: nat)
    requires HasAt(s, IdDirOff(gs, 0), IdDirs(gs, |Flat(gs)|)) && HasAt(s, DataOff(gs, 0), DataEntries(gs, |Flat(gs)|))
    requires HasAt(s, BlobOff(gs, 0), Blobs(Flat(gs))) && n <= |Flat(gs)|
    ensures LeavesPlaced(s, gs, 0, base, n)
  {
    if n > 0 {
      LaidPlacesLeaves(s, gs, base, n - 1);
      IdDirPlaced(s, gs, n - 1);
      DataEntryPlaced(s, gs, n - 1);
      BlobPlaced(s, gs, n - 1);
    }
  }

  lemma FlatIndex(gs: seq<seq<Resource>>, j: nat, i: nat)
    requires j < |gs| && i < |gs[j]|
    ensures Start(gs, j) + i < |Flat(gs)| && Flat(gs)[Start(gs, j) + i] == gs[j][i]
  {
    FlatSplit(gs, j);
    assert gs[j..][0] == gs[j];
  }
}
