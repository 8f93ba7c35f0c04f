/**
 buildSyso's section (tools/mksyso/main.go): resources are sorted and grouped by type, every piece gets an offset
 in a first pass, and a second pass writes the pieces in place into a zeroed array.
 */
module ResourceWriter {
  import opened Basics
  import opened LittleEndian
  import opened ResourceTree
  import Sorting

  // ---- Sorting and grouping ----

  predicate NotAfter(a: Resource, b: Resource) {
    a.typ < b.typ || (a.typ == b.typ && a.id <= b.id)
  }

  function Sorted(res: seq<Resource>): seq<Resource> {
    Sorting.Sort(res, NotAfter)
  }

  lemma {:induction false} DistinctCountsOnce(rs: seq<Resource>, r: Resource)
    requires Distinct(rs)
    ensures multiset(rs)[r] <= 1
  {
    if rs != [] {
      DistinctCountsOnce(rs[1..], r);
      assert rs == [rs[0]] + rs[1..];
      if rs[0] == r {
        assert forall i :: 0 <= i < |rs[1..]| ==> rs[1..][i] == rs[i + 1];
        assert r !in rs[1..];
      }
    }
  }

  /** The order is total, and with distinct pairs strict: sorting leaves one possible result. */
  lemma SortedAscends(res: seq<Resource>)
    requires Distinct(res)
    ensures Ascending(Sorted(res)) && multiset(Sorted(res)) == multiset(res) && |Sorted(res)| == |res|
  {
    var s := Sorted(res);
    Sorting.SortSorts(res, NotAfter);
    forall i, j | 0 <= i < j < |s| ensures Before(s[i], s[j]) {
      assert s[i] in multiset(s) && s[j] in multiset(s);
      assert s[i] in res && s[j] in res;
      if s[i] == s[j] {
        Sorting.EqualPairCountsTwice(s, i, j);
        DistinctCountsOnce(res, s[i]);
      }
    }
  }

  lemma AscendingIsDistinct(rs: seq<Resource>)
    requires Ascending(rs)
    ensures Distinct(rs)
  {
    forall i, j | 0 <= i < j < |rs| ensures KeyOf(rs[i]) != KeyOf(rs[j]) {
      assert Before(rs[i], rs[j]);
    }
  }

  /** byType holds the groups, in the order of types. */
  ghost predicate Members(types: seq<u32>, byType: map<u32, seq<Resource>>, gs: seq<seq<Resource>>) {
    |types| == |gs| && forall j :: 0 <= j < |gs| ==> types[j] in byType && byType[types[j]] == gs[j]
  }

  /** types lists the groups' types, in ascending order, and byType their members. */
  ghost predicate Grouped(types: seq<u32>, byType: map<u32, seq<Resource>>, gs: seq<seq<Resource>>) {
    && Members(types, byType, gs) && TypesAscend(gs)
    && (forall j :: 0 <= j < |gs| ==> types[j] == gs[j][0].typ)
    && (forall t :: t in byType ==> t in types)
  }

  /** Appending one more resource to its type's list, which is new or the last, is Join. */
  lemma GroupedJoin(types: seq<u32>, byType: map<u32, seq<Resource>>, gs: seq<seq<Resource>>, r: Resource)
    requires Grouped(types, byType, gs) && (gs == [] || gs[|gs| - 1][0].typ <= r.typ)
    ensures r.typ in byType ==> Grouped(types, byType[r.typ := byType[r.typ] + [r]], Join(gs, r))
    ensures r.typ !in byType ==> Grouped(types + [r.typ], byType[r.typ := [] + [r]], Join(gs, r))
  {
    JoinKeepsRuns(gs, r);
    if r.typ in byType {
      var j :| 0 <= j < |types| && types[j] == r.typ;
      assert j == |gs| - 1;
    } else {
      assert gs != [] ==> types[|gs| - 1] in byType;
    }
  }

  lemma GroupsStep(rs: seq<Resource>, i: nat)
    requires Ascending(rs) && i < |rs|
    ensures Groups(rs[..i + 1]) == Join(Groups(rs[..i]), rs[i])
    ensures var gs := Groups(rs[..i]); gs == [] || (gs[|gs| - 1] != [] && gs[|gs| - 1][0].typ <= rs[i].typ)
  {
    assert rs[..i + 1][..i] == rs[..i];
    GroupsAreRuns(rs[..i]);
    assert i > 0 ==> Before(rs[i - 1], rs[i]);
  }

  method GroupByType(rs: seq<Resource>) returns (types: seq<u32>, byType: map<u32, seq<Resource>>)
    requires Ascending(rs)
    ensures Grouped(types, byType, Groups(rs))
  {
    types, byType := [], map[];
    for i := 0 to |rs|
      invariant Grouped(types, byType, Groups(rs[..i]))
    {
      var r := rs[i];
      GroupsStep(rs, i);
      GroupedJoin(types, byType, Groups(rs[..i]), r);
      var members := [];
      if r.typ in byType {
        members := byType[r.typ];
      } else {
        types := types + [r.typ];
      }
      byType := byType[r.typ := members + [r]];
    }
    assert rs[..|rs|] == rs;
  }

  // ---- First pass: offsets ----

  lemma StartNext(gs: seq<seq<Resource>>, j: nat)
    requires j < |gs|
    ensures Start(gs, j + 1) == Start(gs, j) + |gs[j]| <= |Flat(gs)|
  {
    assert gs[..j + 1] == gs[..j] + [gs[j]];
    FlatSnoc(gs[..j], gs[j]);
    FlatSplit(gs, j + 1);
  }

  lemma StartBounds(gs: seq<seq<Resource>>)
    ensures Start(gs, 0) == 0 && Start(gs, |gs|) == |Flat(gs)|
  {
    assert gs[..|gs|] == gs && gs[..0] == [];
  }

  method PlaceTypeDirs(types: seq<u32>, byType: map<u32, seq<Resource>>, start: nat, ghost gs: seq<seq<Resource>>)
    returns (at: map<u32, nat>, off: nat)
    requires Grouped(types, byType, gs) && start == TypeDirOff(gs, 0)
    ensures off == TypeDirOff(gs, |gs|)
    ensures forall j: nat :: j < |gs| ==> types[j] in at && at[types[j]] == TypeDirOff(gs, j)
  {
    at, off := map[], start;
    for n := 0 to |types|
      invariant off == TypeDirOff(gs, n)
      invariant forall j: nat :: j < n ==> types[j] in at && at[types[j]] == TypeDirOff(gs, j)
    {
      StartNext(gs, n);
      at := at[types[n] := off];
      off := off + 16 + |byType[types[n]]| * 8;
    }
  }

  function Total(step: Resource -> nat, rs: seq<Resource>): nat {
    if rs == [] then 0 else Total(step, rs[..|rs| - 1]) + step(rs[|rs| - 1])
  }

  lemma {:induction false} TotalOfConstant(step: Resource -> nat, c: nat, rs: seq<Resource>)
    requires forall r :: step(r) == c
    ensures Total(step, rs) == |rs| * c
  {
    if rs != [] {
      TotalOfConstant(step, c, rs[..|rs| - 1]);
    }
  }

  lemma {:induction false} TotalOfSizes(step: Resource -> nat, rs: seq<Resource>)
    requires forall r :: step(r) == |r.data|
    ensures Total(step, rs) == Size(rs)
  {
    if rs != [] {
      TotalOfSizes(step, rs[..|rs| - 1]);
    }
  }

  /** The first n resources have their offsets: start plus the steps of those before. */
  ghost predicate PlacesFirst(at: map<(u32, u32), nat>, rs: seq<Resource>, start: nat, step: Resource -> nat, n: nat)
    requires n <= |rs|
  {
    n == 0 || (PlacesFirst(at, rs, start, step, n - 1) && KeyOf(rs[n - 1]) in at
               && at[KeyOf(rs[n - 1])] == start + Total(step, rs[..n - 1]))
  }

  lemma {:induction false} PlaceOf(at: map<(u32, u32), nat>, rs: seq<Resource>, start: nat, step: Resource -> nat, n: nat, k: nat)
    requires k < n <= |rs| && PlacesFirst(at, rs, start, step, n)
    ensures KeyOf(rs[k]) in at && at[KeyOf(rs[k])] == start + Total(step, rs[..k])
  {
    if k < n - 1 {
      PlaceOf(at, rs, start, step, n - 1, k);
    }
  }

  /** A later resource's offset does not displace an earlier one: their keys differ. */
  lemma {:induction false} PlaceKeeps(at: map<(u32, u32), nat>, rs: seq<Resource>, start: nat, step: Resource -> nat,
                                      n: nat, m: nat, off: nat)
    requires n <= m < |rs| && Distinct(rs) && PlacesFirst(at, rs, start, step, n)
    ensures PlacesFirst(at[KeyOf(rs[m]) := off], rs, start, step, n)
  {
    if n > 0 {
      PlaceKeeps(at, rs, start, step, n - 1, m, off);
    }
  }

  lemma PlaceNext(at: map<(u32, u32), nat>, rs: seq<Resource>, start: nat, step: Resource -> nat, n: nat, r: Resource, off: nat)
    requires n < |rs| && Distinct(rs) && PlacesFirst(at, rs, start, step, n)
    requires r == rs[n] && off == start + Total(step, rs[..n])
    ensures PlacesFirst(at[KeyOf(r) := off], rs, start, step, n + 1)
    ensures start + Total(step, rs[..n + 1]) == off + step(r)
  {
    PlaceKeeps(at, rs, start, step, n, n, off);
    assert rs[..n + 1][..n] == rs[..n];
  }

  /** After n resources: each has its own offset, and off is where the next one goes. */
  ghost predicate PlacedTo(at: map<(u32, u32), nat>, off: nat, rs: seq<Resource>, start: nat, step: Resource -> nat, n: nat)
    requires n <= |rs|
  {
    PlacesFirst(at, rs, start, step, n) && off == start + Total(step, rs[..n])
  }

  /** One of the passes over all resources, by type: each gets the running offset, and step moves it on. */
  method PlaceEach(types: seq<u32>, byType: map<u32, seq<Resource>>, start: nat, step: Resource -> nat,
                   ghost gs: seq<seq<Resource>>)
    returns (at: map<(u32, u32), nat>, off: nat)
    requires Members(types, byType, gs) && Distinct(Flat(gs))
    ensures PlacesFirst(at, Flat(gs), start, step, |Flat(gs)|)
    ensures off == start + Total(step, Flat(gs))
  {
    at, off := map[], start;
    StartBounds(gs);
    ghost var k, rs := 0, Flat(gs);
    for j := 0 to |types|
      invariant k == Start(gs, j) <= |rs|
      invariant PlacedTo(at, off, rs, start, step, k)
    {
      StartNext(gs, j);
      GroupLies(gs, j);
      at, off := PlaceGroup(byType[types[j]], at, off, start, step, rs, k);
      k := Start(gs, j + 1);
    }
    assert rs[..|rs|] == rs;
  }

  lemma GroupLies(gs: seq<seq<Resource>>, j: nat)
    requires j < |gs|
    ensures Start(gs, j) + |gs[j]| <= |Flat(gs)| && Flat(gs)[Start(gs, j)..Start(gs, j) + |gs[j]|] == gs[j]
  {
    StartNext(gs, j);
    forall i | 0 <= i < |gs[j]| ensures Flat(gs)[Start(gs, j) + i] == gs[j][i] {
      FlatIndex(gs, j, i);
    }
  }

  method PlaceGroup(group: seq<Resource>, was: map<(u32, u32), nat>, from: nat, ghost start: nat, step: Resource -> nat,
                    ghost rs: seq<Resource>, ghost k: nat)
    returns (at: map<(u32, u32), nat>, off: nat)
    requires k + |group| <= |rs| && rs[k..k + |group|] == group
    requires Distinct(rs) && PlacedTo(was, from, rs, start, step, k)
    ensures PlacedTo(at, off, rs, start, step, k + |group|)
  {
    at, off := was, from;
    for i := 0 to |group|
      invariant PlacesFirst(at, rs, start, step, k + i) && off == start + Total(step, rs[..k + i])
    {
      var r := group[i];
      PlaceNext(at, rs, start, step, k + i, r, off);
      at := at[KeyOf(r) := off];
      off := off + step(r);
    }
  }

  // ---- Second pass: bytes ----

  ghost predicate Blank(s: seq<byte>, lo: nat, hi: nat) {
    lo <= hi && HasAt(s, lo, Zeros(hi - lo))
  }

  /** One id or type entry of the directory at base. */
  method Entry(sec: array<byte>, base: nat, idx: nat, id: u32, target: u32)
    requires base + 16 + 8 * (idx + 1) <= sec.Length
    modifies sec
    ensures sec[..] == Overwrite(old(sec[..]), base + 16 + 8 * idx, Bytes32(id) + Bytes32(target))
  {
    ghost var was := sec[..];
    Put(sec, base + 16 + 8 * idx, Bytes32(id));
    Put(sec, base + 16 + 8 * idx + 4, Bytes32(target));
    OverwriteAppend(was, base + 16 + 8 * idx, Bytes32(id), Bytes32(target));
  }

  /** The count at offset 14 is all of a directory's header that is not zero. */
  method Header(sec: array<byte>, d: nat, n: nat)
    requires Blank(sec[..], d, d + 16)
    modifies sec
    ensures sec[..] == Overwrite(old(sec[..]), d, DirHeader(n))
  {
    ghost var was := sec[..];
    Put(sec, d + 14, Bytes16(ToU16(n)));
    BlankInside(was, d, d + 16, d, d + 14);
    HasAtIsSlice(was, d, Zeros(14));
    OverwriteSame(was, d, Zeros(14), Bytes16(ToU16(n)), []);
    assert Zeros(14) + Bytes16(ToU16(n)) + [] == DirHeader(n);
  }

  lemma BlankInside(s: seq<byte>, lo: nat, hi: nat, from: nat, to: nat)
    requires Blank(s, lo, hi) && lo <= from <= to <= hi
    ensures Blank(s, from, to)
  {
    HasAtIsSlice(Zeros(hi - lo), from - lo, Zeros(to - from));
    Within(s, lo, Zeros(hi - lo), from - lo, Zeros(to - from));
  }

  lemma PairsNext(es: seq<(u32, u32)>, i: nat)
    requires i < |es|
    ensures Pairs(es[..i + 1]) == Pairs(es[..i]) + (Bytes32(es[i].0) + Bytes32(es[i].1))
  {
    assert es[..i + 1][..i] == es[..i];
  }

  /** A directory whose first i entries are written. */
  ghost function Partial(was: seq<byte>, d: nat, es: seq<(u32, u32)>, i: nat): (r: seq<byte>)
    requires i <= |es| && d + 16 + 8 * |es| <= |was|
    ensures |r| == |was|
  {
    Overwrite(was, d, DirHeader(|es|) + Pairs(es[..i]))
  }

  lemma PartialEnds(was: seq<byte>, d: nat, es: seq<(u32, u32)>)
    requires d + 16 + 8 * |es| <= |was|
    ensures Partial(was, d, es, 0) == Overwrite(was, d, DirHeader(|es|))
    ensures Partial(was, d, es, |es|) == Overwrite(was, d, Dir(es))
  {
    assert es[..0] == [] && es[..|es|] == es;
    assert DirHeader(|es|) + Pairs([]) == DirHeader(|es|);
  }

  lemma PartialNext(was: seq<byte>, d: nat, es: seq<(u32, u32)>, i: nat)
    requires i < |es| && d + 16 + 8 * |es| <= |was|
    ensures Overwrite(Partial(was, d, es, i), d + 16 + 8 * i, Bytes32(es[i].0) + Bytes32(es[i].1)) == Partial(was, d, es, i + 1)
  {
    var h, pair := DirHeader(|es|), Bytes32(es[i].0) + Bytes32(es[i].1);
    OverwriteAppend(was, d, h + Pairs(es[..i]), pair);
    PairsNext(es, i);
    assert h + Pairs(es[..i]) + pair == h + Pairs(es[..i + 1]);
  }

  /** The root directory: one entry per type, naming that type's directory. */
  method WriteRoot(sec: array<byte>, offRoot: nat, types: seq<u32>, offTypeDir: map<u32, nat>, ghost es: seq<(u32, u32)>)
    requires |es| == |types| && Blank(sec[..], offRoot, offRoot + 16) && offRoot + 16 + 8 * |types| <= sec.Length
    requires forall i :: 0 <= i < |types| ==> types[i] in offTypeDir && es[i] == (types[i], Sub(offTypeDir[types[i]]))
    modifies sec
    ensures sec[..] == Overwrite(old(sec[..]), offRoot, Dir(es))
  {
    ghost var was := sec[..];
    PartialEnds(was, offRoot, es);
    Header(sec, offRoot, |types|);
    for i := 0 to |types|
      invariant sec[..] == Partial(was, offRoot, es, i)
    {
      Entry(sec, offRoot, i, types[i], Sub(offTypeDir[types[i]]));
      PartialNext(was, offRoot, es, i);
    }
  }

  /** A type's directory: one entry per resource, naming that resource's directory. */
  method WriteTypeDir(sec: array<byte>, d: nat, typ: u32, group: seq<Resource>, offIDDir: map<(u32, u32), nat>, ghost es: seq<(u32, u32)>)
    requires |es| == |group| && Blank(sec[..], d, d + 16) && d + 16 + 8 * |group| <= sec.Length
    requires forall i :: 0 <= i < |group| ==>
      (typ, group[i].id) in offIDDir && es[i] == (group[i].id, Sub(offIDDir[(typ, group[i].id)]))
    modifies sec
    ensures sec[..] == Overwrite(old(sec[..]), d, Dir(es))
  {
    ghost var was := sec[..];
    PartialEnds(was, d, es);
    Header(sec, d, |group|);
    for i := 0 to |group|
      invariant sec[..] == Partial(was, d, es, i)
    {
      Entry(sec, d, i, group[i].id, Sub(offIDDir[(typ, group[i].id)]));
      PartialNext(was, d, es, i);
    }
  }

  ghost predicate Apart(s: seq<byte>, o: nat, a: seq<byte>, p: nat, b: seq<byte>, q: nat, c: seq<byte>) {
    o + |a| <= p && p + |b| <= q && q + |c| <= |s|
  }

  ghost function ThreeOver(s: seq<byte>, o: nat, a: seq<byte>, p: nat, b: seq<byte>, q: nat, c: seq<byte>): (r: seq<byte>)
    requires Apart(s, o, a, p, b, q, c)
    ensures |r| == |s|
  {
    Overwrite(Overwrite(Overwrite(s, o, a), p, b), q, c)
  }

  /** A resource's language directory at d, its data entry at de and its bytes at blob. */
  ghost function LeafAt(s: seq<byte>, d: nat, de: nat, blob: nat, r: Resource): (t: seq<byte>)
    requires d + 24 <= de && de + 16 <= blob && blob + |r.data| <= |s|
    ensures |t| == |s|
  {
    ThreeOver(s, d, Dir([(r.lang, ToU32(de))]), de, DataFields(ToU32(blob), ToU32(|r.data|)), blob, r.data)
  }

  method WriteLeaf(sec: array<byte>, d: nat, de: nat, blob: nat, r: Resource)
    requires d + 24 <= de && de + 16 <= blob && blob + |r.data| <= sec.Length
    requires Blank(sec[..], d, d + 24) && Blank(sec[..], de, de + 16)
    modifies sec
    ensures sec[..] == LeafAt(old(sec[..]), d, de, blob, r)
  {
    ghost var was := sec[..];
    WriteLangDir(sec, d, r.lang, ToU32(de), [(r.lang, ToU32(de))]);
    Untouched(was, d, Dir([(r.lang, ToU32(de))]), de, Zeros(16));
    WriteDataEntry(sec, de, ToU32(blob), ToU32(|r.data|));
    Put(sec, blob, r.data);
  }

  method WriteDataEntry(sec: array<byte>, de: nat, at: u32, size: u32)
    requires de + 16 <= sec.Length && Blank(sec[..], de, de + 16)
    modifies sec
    ensures sec[..] == Overwrite(old(sec[..]), de, DataFields(at, size))
  {
    ghost var was := sec[..];
    Put(sec, de, Bytes32(at));
    Put(sec, de + 4, Bytes32(size));
    OverwriteAppend(was, de, Bytes32(at), Bytes32(size));
    BlankInside(was, de, de + 16, de + 8, de + 16);
    HasAtIsSlice(was, de + 8, Zeros(8));
    OverwriteSame(was, de, [], Bytes32(at) + Bytes32(size), Zeros(8));
    assert [] + (Bytes32(at) + Bytes32(size)) + Zeros(8) == DataFields(at, size);
  }

  method WriteLangDir(sec: array<byte>, d: nat, lang: u32, target: u32, ghost es: seq<(u32, u32)>)
    requires d + 24 <= sec.Length && Blank(sec[..], d, d + 24) && |es| == 1 && es[0] == (lang, target)
    modifies sec
    ensures sec[..] == Overwrite(old(sec[..]), d, Dir(es))
  {
    ghost var was := sec[..];
    PartialEnds(was, d, es);
    BlankInside(was, d, d + 24, d, d + 16);
    Header(sec, d, 1);
    Entry(sec, d, 0, lang, target);
    PartialNext(was, d, es, 0);
  }

  /** The offsets of the type directories and of the id directories they name. */
  ghost predicate DirOffsets(gs: seq<seq<Resource>>, types: seq<u32>, offTypeDir: map<u32, nat>, offIDDir: map<(u32, u32), nat>) {
    && |types| == |gs|
    && forall j: nat :: j < |gs| ==> types[j] in offTypeDir && offTypeDir[types[j]] == TypeDirOff(gs, j) && ListsIds(gs, j, offIDDir)
  }

  /** The id directories of a group's members are where its type directory says. */
  ghost predicate ListsIds(gs: seq<seq<Resource>>, j: nat, offIDDir: map<(u32, u32), nat>)
    requires j < |gs|
  {
    forall i: nat :: i < |gs[j]| ==>
      KeyOf(gs[j][i]) in offIDDir && offIDDir[KeyOf(gs[j][i])] == IdDirOff(gs, Start(gs, j) + i)
  }

  lemma TypeDirFitsIn(gs: seq<seq<Resource>>, j: nat)
    requires j < |gs|
    ensures TypeDirOff(gs, j) + 16 + 8 * |gs[j]| == TypeDirOff(gs, j + 1) <= TypeDirOff(gs, |gs|)
  {
    StartNext(gs, j);
    StartBounds(gs);
  }

  lemma TypeDirsEnd(gs: seq<seq<Resource>>, j: nat)
    requires j <= |gs|
    ensures TypeDirOff(gs, 0) + |TypeDirs(gs, j)| == TypeDirOff(gs, j) <= TypeDirOff(gs, |gs|)
  {
    StartBounds(gs);
    TypeDirsLength(gs, j);
    if j < |gs| {
      TypeDirFitsIn(gs, j);
    }
  }

  /** The section before each type directory is written, and at the end. */
  ghost predicate TypeStages(ss: seq<seq<byte>>, gs: seq<seq<Resource>>) {
    && |ss| == |gs| + 1 && TypeDirOff(gs, |gs|) <= |ss[0]|
    && forall j: nat {:trigger TypeStage(ss[j], ss[0], gs, j)} :: j < |ss| ==> TypeStage(ss[j], ss[0], gs, j)
  }

  ghost predicate TypeStage(s: seq<byte>, was: seq<byte>, gs: seq<seq<Resource>>, j: nat) {
    && j <= |gs| && |s| == |was| && TypeDirOff(gs, 0) + |TypeDirs(gs, j)| <= |was|
    && s == Overwrite(was, TypeDirOff(gs, 0), TypeDirs(gs, j))
    && Blank(s, TypeDirOff(gs, j), |s|)
  }

  lemma BlankAfter(s: seq<byte>, o: nat, a: seq<byte>, t: seq<byte>, e: nat)
    requires Blank(s, o, |s|) && o + |a| <= |s| && t == Overwrite(s, o, a) && e == o + |a|
    ensures Blank(t, e, |t|)
  {
    BlankInside(s, o, |s|, e, |s|);
    Untouched(s, o, a, e, Zeros(|s| - e));
  }

  lemma TypeStagesOf(was: seq<byte>, gs: seq<seq<Resource>>) returns (ss: seq<seq<byte>>)
    requires TypeDirOff(gs, |gs|) <= |was| && Blank(was, TypeDirOff(gs, 0), |was|)
    ensures TypeStages(ss, gs) && ss[0] == was
  {
    forall j: nat | j <= |gs| ensures TypeDirOff(gs, 0) + |TypeDirs(gs, j)| == TypeDirOff(gs, j) <= |was| {
      TypeDirsEnd(gs, j);
    }
    ss := seq(|gs| + 1, j requires 0 <= j <= |gs| => Overwrite(was, TypeDirOff(gs, 0), TypeDirs(gs, j)));
    assert ss[0] == was;
    forall j: nat | j < |ss| ensures TypeStage(ss[j], ss[0], gs, j) {
      BlankAfter(was, TypeDirOff(gs, 0), TypeDirs(gs, j), ss[j], TypeDirOff(gs, j));
    }
  }

  lemma StageGrows(was: seq<byte>, s: seq<byte>, t: seq<byte>, gs: seq<seq<Resource>>, j: nat)
    requires j < |gs| && TypeStage(s, was, gs, j) && TypeStage(t, was, gs, j + 1)
    ensures TypeDirOff(gs, j) + 16 + 8 * |gs[j]| <= |s| && Blank(s, TypeDirOff(gs, j), TypeDirOff(gs, j) + 16)
    ensures t == Overwrite(s, TypeDirOff(gs, j), Dir(TypeList(gs, j)))
  {
    TypeDirsEnd(gs, j);
    TypeDirsEnd(gs, j + 1);
    BlankInside(s, TypeDirOff(gs, j), |s|, TypeDirOff(gs, j), TypeDirOff(gs, j) + 16);
    OverwriteAppend(was, TypeDirOff(gs, 0), TypeDirs(gs, j), Dir(TypeList(gs, j)));
  }

  /** All that writing the j-th type directory needs, and where it leads. */
  lemma TypeDirReady(ss: seq<seq<byte>>, types: seq<u32>, byType: map<u32, seq<Resource>>, gs: seq<seq<Resource>>, j: nat,
                     offTypeDir: map<u32, nat>, offIDDir: map<(u32, u32), nat>)
    returns (es: seq<(u32, u32)>)
    requires Grouped(types, byType, gs) && j < |gs| && DirOffsets(gs, types, offTypeDir, offIDDir) && TypeStages(ss, gs)
    ensures types[j] in byType && byType[types[j]] == gs[j] && |es| == |gs[j]|
    ensures types[j] in offTypeDir && offTypeDir[types[j]] + 16 + 8 * |gs[j]| <= |ss[j]|
    ensures Blank(ss[j], offTypeDir[types[j]], offTypeDir[types[j]] + 16)
    ensures forall i :: 0 <= i < |gs[j]| ==>
      (types[j], gs[j][i].id) in offIDDir && es[i] == (gs[j][i].id, Sub(offIDDir[(types[j], gs[j][i].id)]))
    ensures ss[j + 1] == Overwrite(ss[j], offTypeDir[types[j]], Dir(es))
  {
    es := TypeList(gs, j);
    assert TypeStage(ss[j], ss[0], gs, j) && TypeStage(ss[j + 1], ss[0], gs, j + 1);
    StageGrows(ss[0], ss[j], ss[j + 1], gs, j);
    IdsListed(types, gs, j, offIDDir);
  }

  lemma IdsListed(types: seq<u32>, gs: seq<seq<Resource>>, j: nat, offIDDir: map<(u32, u32), nat>)
    requires j < |gs| == |types| && ListsIds(gs, j, offIDDir) && forall i :: 0 <= i < |gs[j]| ==> gs[j][i].typ == types[j]
    ensures forall i :: 0 <= i < |gs[j]| ==>
      (types[j], gs[j][i].id) in offIDDir && TypeList(gs, j)[i] == (gs[j][i].id, Sub(offIDDir[(types[j], gs[j][i].id)]))
  {
    forall i: nat | i < |gs[j]|
      ensures (types[j], gs[j][i].id) in offIDDir && TypeList(gs, j)[i] == (gs[j][i].id, Sub(offIDDir[(types[j], gs[j][i].id)]))
    {
      assert KeyOf(gs[j][i]) == (types[j], gs[j][i].id);
    }
  }

  method WriteTypeDirs(sec: array<byte>, types: seq<u32>, byType: map<u32, seq<Resource>>, offTypeDir: map<u32, nat>,
                       offIDDir: map<(u32, u32), nat>, ghost ss: seq<seq<byte>>, ghost gs: seq<seq<Resource>>)
    requires Grouped(types, byType, gs) && TypeStages(ss, gs) && sec[..] == ss[0]
    requires DirOffsets(gs, types, offTypeDir, offIDDir)
    modifies sec
    ensures sec[..] == ss[|gs|]
  {
    for j := 0 to |types|
      invariant sec[..] == ss[j]
    {
      var t := types[j];
      ghost var es := TypeDirReady(ss, types, byType, gs, j, offTypeDir, offIDDir);
      WriteTypeDir(sec, offTypeDir[t], t, byType[t], offIDDir, es);
    }
  }

  /** The three offsets of the k-th resource. */
  ghost predicate LeafOffsets(gs: seq<seq<Resource>>, offIDDir: map<(u32, u32), nat>, offDataEntry: map<(u32, u32), nat>,
                              offBlob: map<(u32, u32), nat>, k: nat)
    requires k < |Flat(gs)|
  {
    var key := KeyOf(Flat(gs)[k]);
    && key in offIDDir && offIDDir[key] == IdDirOff(gs, k)
    && key in offDataEntry && offDataEntry[key] == DataOff(gs, k)
    && key in offBlob && offBlob[key] == BlobOff(gs, k)
  }

  lemma LeafFitsIn(gs: seq<seq<Resource>>, k: nat)
    requires k < |Flat(gs)|
    ensures BlobOff(gs, 0) + Size(Flat(gs)[..k]) == BlobOff(gs, k)
    ensures BlobOff(gs, k) + |Flat(gs)[k].data| == BlobOff(gs, k + 1) <= SectionSize(gs)
    ensures Blobs(Flat(gs)[..k + 1]) == Blobs(Flat(gs)[..k]) + Flat(gs)[k].data
    ensures Size(Flat(gs)[..k + 1]) == Size(Flat(gs)[..k]) + |Flat(gs)[k].data|
  {
    assert Flat(gs)[..0] == [];
    assert Flat(gs)[..k + 1][..k] == Flat(gs)[..k];
    BlobAt(Flat(gs), k);
    assert Flat(gs)[..|Flat(gs)|] == Flat(gs);
  }

  /** What writing the k-th resource does to the section. */
  ghost function LeafOver(s: seq<byte>, gs: seq<seq<Resource>>, k: nat): (r: seq<byte>)
    requires k < |Flat(gs)| && |s| == SectionSize(gs)
    ensures |r| == |s|
  {
    LeafFitsIn(gs, k);
    LeafAt(s, IdDirOff(gs, k), DataOff(gs, k), BlobOff(gs, k), Flat(gs)[k])
  }

  ghost function Leaves(s: seq<byte>, gs: seq<seq<Resource>>, k: nat): (r: seq<byte>)
    requires k <= |Flat(gs)| && |s| == SectionSize(gs)
    ensures |r| == |s|
  {
    if k == 0 then s else LeafOver(Leaves(s, gs, k - 1), gs, k - 1)
  }

  ghost predicate RegionsFit(s: seq<byte>, gs: seq<seq<Resource>>, k: nat)
    requires k <= |Flat(gs)|
  {
    Apart(s, IdDirOff(gs, 0), IdDirs(gs, k), DataOff(gs, 0), DataEntries(gs, k), BlobOff(gs, 0), Blobs(Flat(gs)[..k]))
  }

  /** The first k resources' part of each region, written region by region. */
  ghost function RegionsOver(s: seq<byte>, gs: seq<seq<Resource>>, k: nat): (r: seq<byte>)
    requires k <= |Flat(gs)| && RegionsFit(s, gs, k)
    ensures |r| == |s|
  {
    ThreeOver(s, IdDirOff(gs, 0), IdDirs(gs, k), DataOff(gs, 0), DataEntries(gs, k), BlobOff(gs, 0), Blobs(Flat(gs)[..k]))
  }

  /** Resource by resource or region by region, the same bytes are written. */
  lemma LeavesAreRegions(s: seq<byte>, gs: seq<seq<Resource>>, k: nat)
    requires k <= |Flat(gs)| && |s| == SectionSize(gs)
    ensures RegionsFit(s, gs, k) && Leaves(s, gs, k) == RegionsOver(s, gs, k)
  {
    AgreeUpTo(s, gs, k);
  }

  ghost predicate Agree(s: seq<byte>, gs: seq<seq<Resource>>, k: nat)
    requires k <= |Flat(gs)| && |s| == SectionSize(gs)
  {
    RegionsFit(s, gs, k) && Leaves(s, gs, k) == RegionsOver(s, gs, k)
  }

  lemma {:induction false} AgreeUpTo(s: seq<byte>, gs: seq<seq<Resource>>, k: nat)
    requires k <= |Flat(gs)| && |s| == SectionSize(gs)
    ensures Agree(s, gs, k)
  {
    if k == 0 {
      NoneWritten(s, gs);
    } else {
      AgreeUpTo(s, gs, k - 1);
      AgreeNext(s, gs, k - 1, k);
    }
  }

  lemma AgreeNext(s: seq<byte>, gs: seq<seq<Resource>>, k: nat, next: nat)
    requires next == k + 1 && k < |Flat(gs)| && |s| == SectionSize(gs) && Agree(s, gs, k)
    ensures Agree(s, gs, next)
  {
    RegionsGrow(s, Leaves(s, gs, k), Leaves(s, gs, next), gs, k, next);
  }

  lemma NoneWritten(s: seq<byte>, gs: seq<seq<Resource>>)
    requires |s| == SectionSize(gs)
    ensures RegionsFit(s, gs, 0) && RegionsOver(s, gs, 0) == s
  {
    RegionsAdjoin(gs);
    assert Blobs(Flat(gs)[..0]) == [];
    NothingOver(s, IdDirOff(gs, 0), DataOff(gs, 0), BlobOff(gs, 0));
  }

  lemma NothingOver(s: seq<byte>, o: nat, p: nat, q: nat)
    requires o <= p <= q <= |s|
    ensures ThreeOver(s, o, [], p, [], q, []) == s
  {
    assert Overwrite(s, o, []) == s && Overwrite(s, p, []) == s && Overwrite(s, q, []) == s;
  }

  lemma RegionsGrow(s: seq<byte>, t: seq<byte>, u: seq<byte>, gs: seq<seq<Resource>>, k: nat, next: nat)
    requires next == k + 1 && k < |Flat(gs)| && |s| == SectionSize(gs) && RegionsFit(s, gs, k)
    requires t == RegionsOver(s, gs, k) && u == LeafOver(t, gs, k)
    ensures RegionsFit(s, gs, next) && u == RegionsOver(s, gs, next)
  {
    LeafFitsIn(gs, k);
    LeafGrows(s, t, IdDirOff(gs, 0), IdDirs(gs, k), IdDir(gs, k),
              DataOff(gs, 0), DataEntries(gs, k), DataEntry(gs, k, 0), BlobOff(gs, 0), Blobs(Flat(gs)[..k]), Flat(gs)[k].data,
              IdDirOff(gs, k), DataOff(gs, k), BlobOff(gs, k), u);
  }

  lemma LeafGrows(s: seq<byte>, t: seq<byte>, o: nat, a: seq<byte>, x: seq<byte>, p: nat, b: seq<byte>, y: seq<byte>,
                  q: nat, c: seq<byte>, z: seq<byte>, o1: nat, p1: nat, q1: nat, u: seq<byte>)
    requires Apart(s, o, a + x, p, b + y, q, c + z) && o1 == o + |a| && p1 == p + |b| && q1 == q + |c|
    requires t == ThreeOver(s, o, a, p, b, q, c) && u == ThreeOver(t, o1, x, p1, y, q1, z)
    ensures u == ThreeOver(s, o, a + x, p, b + y, q, c + z)
  {
    ThreeGrow(s, o, a, x, p, b, y, q, c, z);
  }

  lemma LeafBlank(was: seq<byte>, gs: seq<seq<Resource>>, k: nat)
    requires k < |Flat(gs)| && |was| == SectionSize(gs) && Blank(was, IdDirOff(gs, 0), |was|)
    ensures Blank(Leaves(was, gs, k), IdDirOff(gs, k), IdDirOff(gs, k) + 24)
    ensures Blank(Leaves(was, gs, k), DataOff(gs, k), DataOff(gs, k) + 16)
  {
    LeavesAreRegions(was, gs, k);
    BlankStays(was, IdDirOff(gs, 0), IdDirs(gs, k), DataOff(gs, 0), DataEntries(gs, k), BlobOff(gs, 0), Blobs(Flat(gs)[..k]),
               IdDirOff(gs, 0), IdDirOff(gs, k), IdDirOff(gs, k) + 24);
    BlankStays(was, IdDirOff(gs, 0), IdDirs(gs, k), DataOff(gs, 0), DataEntries(gs, k), BlobOff(gs, 0), Blobs(Flat(gs)[..k]),
               IdDirOff(gs, 0), DataOff(gs, k), DataOff(gs, k) + 16);
  }

  lemma BlankStays(s: seq<byte>, o: nat, a: seq<byte>, p: nat, b: seq<byte>, q: nat, c: seq<byte>, lo: nat, from: nat, to: nat)
    requires Apart(s, o, a, p, b, q, c) && Blank(s, lo, |s|) && lo <= from <= to <= |s|
    requires (o + |a| <= from && to <= p) || (p + |b| <= from && to <= q)
    ensures Blank(ThreeOver(s, o, a, p, b, q, c), from, to)
  {
    var z := Zeros(to - from);
    BlankInside(s, lo, |s|, from, to);
    Untouched(s, o, a, from, z);
    Untouched(Overwrite(s, o, a), p, b, from, z);
    Untouched(Overwrite(Overwrite(s, o, a), p, b), q, c, from, z);
  }

  ghost predicate AllOffsets(gs: seq<seq<Resource>>, offIDDir: map<(u32, u32), nat>, offDataEntry: map<(u32, u32), nat>,
                             offBlob: map<(u32, u32), nat>) {
    forall k: nat :: k < |Flat(gs)| ==> LeafOffsets(gs, offIDDir, offDataEntry, offBlob, k)
  }

  /** The section before each resource is written, and at the end. */
  ghost predicate Stages(ss: seq<seq<byte>>, gs: seq<seq<Resource>>) {
    && |ss| == |Flat(gs)| + 1 && |ss[0]| == SectionSize(gs)
    && forall k: nat {:trigger Stage(ss[k], gs, k)} :: k < |ss| ==> Stage(ss[k], gs, k) && ss[k] == Leaves(ss[0], gs, k)
  }

  /** Fit to have the k-th resource written next. */
  ghost predicate Stage(s: seq<byte>, gs: seq<seq<Resource>>, k: nat) {
    && |s| == SectionSize(gs)
    && (k < |Flat(gs)| ==> Blank(s, IdDirOff(gs, k), IdDirOff(gs, k) + 24) && Blank(s, DataOff(gs, k), DataOff(gs, k) + 16))
  }

  lemma StagesOf(was: seq<byte>, gs: seq<seq<Resource>>) returns (ss: seq<seq<byte>>)
    requires |was| == SectionSize(gs) && Blank(was, IdDirOff(gs, 0), |was|)
    ensures Stages(ss, gs) && ss[0] == was && ss[|Flat(gs)|] == Leaves(was, gs, |Flat(gs)|)
  {
    ss := seq(|Flat(gs)| + 1, k requires 0 <= k <= |Flat(gs)| => Leaves(was, gs, k));
    forall k: nat | k < |ss| ensures Stage(ss[k], gs, k) {
      if k < |Flat(gs)| {
        LeafBlank(was, gs, k);
      }
    }
  }

  /** All that writing the k-th resource r needs, and where it leads. */
  lemma LeafReady(ss: seq<seq<byte>>, gs: seq<seq<Resource>>, offIDDir: map<(u32, u32), nat>, offDataEntry: map<(u32, u32), nat>,
                  offBlob: map<(u32, u32), nat>, k: nat, r: Resource)
    requires AllOffsets(gs, offIDDir, offDataEntry, offBlob) && k < |Flat(gs)| && r == Flat(gs)[k] && Stages(ss, gs)
    ensures KeyOf(r) in offIDDir && KeyOf(r) in offDataEntry && KeyOf(r) in offBlob
    ensures var d, de, blob := offIDDir[KeyOf(r)], offDataEntry[KeyOf(r)], offBlob[KeyOf(r)];
            && d + 24 <= de && de + 16 <= blob && blob + |r.data| <= |ss[k]|
            && Blank(ss[k], d, d + 24) && Blank(ss[k], de, de + 16)
            && ss[k + 1] == LeafAt(ss[k], d, de, blob, r)
            && Relocs(gs, k + 1) == Relocs(gs, k) + [de]
  {
    assert LeafOffsets(gs, offIDDir, offDataEntry, offBlob, k);
    assert Stage(ss[k], gs, k) && Stage(ss[k + 1], gs, k + 1);
    LeafFitsIn(gs, k);
    LeavesNext(ss[0], gs, k);
  }

  lemma LeavesNext(was: seq<byte>, gs: seq<seq<Resource>>, k: nat)
    requires k < |Flat(gs)| && |was| == SectionSize(gs)
    ensures Leaves(was, gs, k + 1) == LeafOver(Leaves(was, gs, k), gs, k)
    ensures Relocs(gs, k + 1) == Relocs(gs, k) + [DataOff(gs, k)]
  {
  }

  /** One type's resources, by their offsets; the relocations aim at the data entries. */
  method WriteGroup(sec: array<byte>, typ: u32, group: seq<Resource>, offIDDir: map<(u32, u32), nat>,
                    offDataEntry: map<(u32, u32), nat>, offBlob: map<(u32, u32), nat>, from: seq<nat>,
                    ghost ss: seq<seq<byte>>, ghost gs: seq<seq<Resource>>, ghost k: nat)
    returns (relocs: seq<nat>)
    requires k + |group| <= |Flat(gs)| && Flat(gs)[k..k + |group|] == group
    requires forall i :: 0 <= i < |group| ==> group[i].typ == typ
    requires AllOffsets(gs, offIDDir, offDataEntry, offBlob) && Stages(ss, gs)
    requires sec[..] == ss[k] && from == Relocs(gs, k)
    modifies sec
    ensures sec[..] == ss[k + |group|] && relocs == Relocs(gs, k + |group|)
  {
    relocs := from;
    for i := 0 to |group|
      invariant sec[..] == ss[k + i] && relocs == Relocs(gs, k + i)
    {
      var r := group[i];
      LeafReady(ss, gs, offIDDir, offDataEntry, offBlob, k + i, r) by {
        assert group[i] == Flat(gs)[k + i];
      }
      var de := offDataEntry[(typ, r.id)];
      WriteLeaf(sec, offIDDir[(typ, r.id)], de, offBlob[(typ, r.id)], r);
      relocs := relocs + [de];
    }
  }

  lemma GroupReady(types: seq<u32>, byType: map<u32, seq<Resource>>, gs: seq<seq<Resource>>, j: nat)
    requires Grouped(types, byType, gs) && j < |gs|
    ensures types[j] in byType && byType[types[j]] == gs[j]
    ensures forall i :: 0 <= i < |gs[j]| ==> gs[j][i].typ == types[j]
    ensures Start(gs, j + 1) == Start(gs, j) + |gs[j]| <= |Flat(gs)|
    ensures Flat(gs)[Start(gs, j)..Start(gs, j) + |gs[j]|] == gs[j]
  {
    StartNext(gs, j);
    GroupLies(gs, j);
  }

  method WriteLeaves(sec: array<byte>, types: seq<u32>, byType: map<u32, seq<Resource>>, offIDDir: map<(u32, u32), nat>,
                     offDataEntry: map<(u32, u32), nat>, offBlob: map<(u32, u32), nat>, ghost gs: seq<seq<Resource>>)
    returns (relocs: seq<nat>)
    requires Grouped(types, byType, gs) && sec.Length == SectionSize(gs) && Blank(sec[..], IdDirOff(gs, 0), sec.Length)
    requires AllOffsets(gs, offIDDir, offDataEntry, offBlob)
    modifies sec
    ensures sec[..] == Leaves(old(sec[..]), gs, |Flat(gs)|)
    ensures relocs == Relocs(gs, |Flat(gs)|)
  {
    ghost var ss := StagesOf(sec[..], gs);
    relocs := WriteStages(sec, types, byType, offIDDir, offDataEntry, offBlob, ss, gs);
  }

  method WriteStages(sec: array<byte>, types: seq<u32>, byType: map<u32, seq<Resource>>, offIDDir: map<(u32, u32), nat>,
                     offDataEntry: map<(u32, u32), nat>, offBlob: map<(u32, u32), nat>,
                     ghost ss: seq<seq<byte>>, ghost gs: seq<seq<Resource>>)
    returns (relocs: seq<nat>)
    requires Grouped(types, byType, gs) && Stages(ss, gs) && sec[..] == ss[0]
    requires AllOffsets(gs, offIDDir, offDataEntry, offBlob)
    modifies sec
    ensures sec[..] == ss[|Flat(gs)|] && relocs == Relocs(gs, |Flat(gs)|)
  {
    relocs := [];
    ghost var k := 0;
    StartBounds(gs);
    for j := 0 to |types|
      invariant k == Start(gs, j) <= |Flat(gs)|
      invariant sec[..] == ss[k] && relocs == Relocs(gs, k)
    {
      GroupReady(types, byType, gs, j);
      var t := types[j];
      relocs := WriteGroup(sec, t, byType[t], offIDDir, offDataEntry, offBlob, relocs, ss, gs, k);
      k := k + |byType[t]|;
    }
  }

  // ---- The whole section ----

  function DirStep(r: Resource): nat { 16 + 8 }
  function EntryStep(r: Resource): nat { 16 }
  function DataStep(r: Resource): nat { |r.data| }

  lemma {:induction false} PassPlaces(at: map<(u32, u32), nat>, gs: seq<seq<Resource>>, start: nat, step: Resource -> nat, k: nat)
    requires k < |Flat(gs)| && PlacesFirst(at, Flat(gs), start, step, |Flat(gs)|)
    ensures KeyOf(Flat(gs)[k]) in at
    ensures (forall r :: step(r) == 24) && start == IdDirOff(gs, 0) ==> at[KeyOf(Flat(gs)[k])] == IdDirOff(gs, k)
    ensures (forall r :: step(r) == 16) && start == DataOff(gs, 0) ==> at[KeyOf(Flat(gs)[k])] == DataOff(gs, k)
    ensures (forall r :: step(r) == |r.data|) && start == BlobOff(gs, 0) ==> at[KeyOf(Flat(gs)[k])] == BlobOff(gs, k)
  {
    PlaceOf(at, Flat(gs), start, step, |Flat(gs)|, k);
    var before := Flat(gs)[..k];
    if forall r :: step(r) == 24 {
      TotalOfConstant(step, 24, before);
    }
    if forall r :: step(r) == 16 {
      TotalOfConstant(step, 16, before);
    }
    if forall r :: step(r) == |r.data| {
      TotalOfSizes(step, before);
      assert Flat(gs)[..0] == [];
    }
  }

  lemma PassEnds(gs: seq<seq<Resource>>)
    ensures TypeDirOff(gs, |gs|) == IdDirOff(gs, 0)
    ensures IdDirOff(gs, 0) + Total(DirStep, Flat(gs)) == DataOff(gs, 0)
    ensures DataOff(gs, 0) + Total(EntryStep, Flat(gs)) == BlobOff(gs, 0)
    ensures BlobOff(gs, 0) + Total(DataStep, Flat(gs)) == SectionSize(gs)
  {
    RegionsAdjoin(gs);
    TotalOfConstant(DirStep, 24, Flat(gs));
    TotalOfConstant(EntryStep, 16, Flat(gs));
    TotalOfSizes(DataStep, Flat(gs));
  }

  lemma PassesPlaceAll(types: seq<u32>, byType: map<u32, seq<Resource>>, gs: seq<seq<Resource>>, offTypeDir: map<u32, nat>,
                       ids: map<(u32, u32), nat>, datas: map<(u32, u32), nat>, blobs: map<(u32, u32), nat>)
    requires Grouped(types, byType, gs)
    requires forall j: nat :: j < |gs| ==> types[j] in offTypeDir && offTypeDir[types[j]] == TypeDirOff(gs, j)
    requires PlacesFirst(ids, Flat(gs), IdDirOff(gs, 0), DirStep, |Flat(gs)|)
    requires PlacesFirst(datas, Flat(gs), DataOff(gs, 0), EntryStep, |Flat(gs)|)
    requires PlacesFirst(blobs, Flat(gs), BlobOff(gs, 0), DataStep, |Flat(gs)|)
    ensures DirOffsets(gs, types, offTypeDir, ids) && AllOffsets(gs, ids, datas, blobs)
  {
    forall k: nat | k < |Flat(gs)| ensures LeafOffsets(gs, ids, datas, blobs, k) {
      PassPlaces(ids, gs, IdDirOff(gs, 0), DirStep, k);
      PassPlaces(datas, gs, DataOff(gs, 0), EntryStep, k);
      PassPlaces(blobs, gs, BlobOff(gs, 0), DataStep, k);
    }
    forall j: nat | j < |gs| ensures ListsIds(gs, j, ids) {
      forall i: nat | i < |gs[j]| ensures KeyOf(gs[j][i]) in ids && ids[KeyOf(gs[j][i])] == IdDirOff(gs, Start(gs, j) + i) {
        FlatIndex(gs, j, i);
        PassPlaces(ids, gs, IdDirOff(gs, 0), DirStep, Start(gs, j) + i);
      }
    }
  }

  lemma AllBlank(s: seq<byte>)
    requires forall i :: 0 <= i < |s| ==> s[i] == 0
    ensures Blank(s, 0, |s|)
  {
    HasAtIsSlice(s, 0, Zeros(|s|));
  }

  /** Root, type directories and leaves, written one after the other into zeros, are the section. */
  lemma WritesMakeSection(zero: seq<byte>, one: seq<byte>, two: seq<byte>, gs: seq<seq<Resource>>)
    requires |zero| == SectionSize(gs) && |Dir(RootList(gs))| <= |zero| && one == Overwrite(zero, 0, Dir(RootList(gs)))
    requires TypeStage(two, one, gs, |gs|)
    ensures Leaves(two, gs, |Flat(gs)|) == Section(gs)
  {
    var n := |Flat(gs)|;
    var a, b, c, d, e := Dir(RootList(gs)), TypeDirs(gs, |gs|), IdDirs(gs, n), DataEntries(gs, n), Blobs(Flat(gs));
    RegionsAdjoin(gs);
    LeavesAreRegions(two, gs, n);
    assert Flat(gs)[..n] == Flat(gs);
    FiveOver(zero, a, b, c, d, e);
  }

  lemma FiveOver(s: seq<byte>, a: seq<byte>, b: seq<byte>, c: seq<byte>, d: seq<byte>, e: seq<byte>)
    requires |s| == |a| + |b| + |c| + |d| + |e|
    ensures ThreeOver(Overwrite(Overwrite(s, 0, a), |a|, b), |a| + |b|, c, |a| + |b| + |c|, d, |a| + |b| + |c| + |d|, e)
            == a + b + c + d + e
  {
    OverwriteAppend(s, 0, a, b);
    OverwriteAppend(s, 0, a + b, c);
    OverwriteAppend(s, 0, a + b + c, d);
    OverwriteAppend(s, 0, a + b + c + d, e);
  }

  /** The section for a list of resources, and the offsets its relocations aim at. */
  method BuildSection(res: seq<Resource>) returns (sec: array<byte>, relocs: seq<nat>)
    requires Distinct(res)
    ensures fresh(sec) && sec[..] == Section(Groups(Sorted(res)))
    ensures relocs == Relocs(Groups(Sorted(res)), |res|)
  {
    var rs := Sorted(res);
    SortedAscends(res);
    AscendingIsDistinct(rs);
    GroupsAreRuns(rs);
    ghost var gs := Groups(rs);
    var types, byType := GroupByType(rs);

    var offTypeDir, offIDDir, offDataEntry, offBlob, secSize := PlaceAll(types, byType, gs);
    sec := new byte[secSize](i => 0);
    relocs := WriteSection(sec, types, byType, offTypeDir, offIDDir, offDataEntry, offBlob, gs);
  }

  /** The first pass: the running offset goes through the five regions. */
  method PlaceAll(types: seq<u32>, byType: map<u32, seq<Resource>>, ghost gs: seq<seq<Resource>>)
    returns (offTypeDir: map<u32, nat>, offIDDir: map<(u32, u32), nat>, offDataEntry: map<(u32, u32), nat>,
             offBlob: map<(u32, u32), nat>, off: nat)
    requires Grouped(types, byType, gs) && Distinct(Flat(gs))
    ensures DirOffsets(gs, types, offTypeDir, offIDDir) && AllOffsets(gs, offIDDir, offDataEntry, offBlob)
    ensures off == SectionSize(gs)
  {
    off := 16 + |types| * 8;
    StartBounds(gs);
    offTypeDir, off := PlaceTypeDirs(types, byType, off, gs);
    offIDDir, offDataEntry, offBlob, off := PlaceLeaves(types, byType, off, gs);
    PassesPlaceAll(types, byType, gs, offTypeDir, offIDDir, offDataEntry, offBlob);
  }

  method PlaceLeaves(types: seq<u32>, byType: map<u32, seq<Resource>>, start: nat, ghost gs: seq<seq<Resource>>)
    returns (offIDDir: map<(u32, u32), nat>, offDataEntry: map<(u32, u32), nat>, offBlob: map<(u32, u32), nat>, off: nat)
    requires Members(types, byType, gs) && Distinct(Flat(gs)) && start == TypeDirOff(gs, |gs|)
    ensures PlacesFirst(offIDDir, Flat(gs), IdDirOff(gs, 0), DirStep, |Flat(gs)|)
    ensures PlacesFirst(offDataEntry, Flat(gs), DataOff(gs, 0), EntryStep, |Flat(gs)|)
    ensures PlacesFirst(offBlob, Flat(gs), BlobOff(gs, 0), DataStep, |Flat(gs)|)
    ensures off == SectionSize(gs)
  {
    PassEnds(gs);
    offIDDir, off := PlaceEach(types, byType, start, DirStep, gs);
    offDataEntry, off := PlaceEach(types, byType, off, EntryStep, gs);
    offBlob, off := PlaceEach(types, byType, off, DataStep, gs);
  }

  method WriteSection(sec: array<byte>, types: seq<u32>, byType: map<u32, seq<Resource>>, offTypeDir: map<u32, nat>,
                      offIDDir: map<(u32, u32), nat>, offDataEntry: map<(u32, u32), nat>, offBlob: map<(u32, u32), nat>,
                      ghost gs: seq<seq<Resource>>)
    returns (relocs: seq<nat>)
    requires Grouped(types, byType, gs) && DirOffsets(gs, types, offTypeDir, offIDDir)
    requires AllOffsets(gs, offIDDir, offDataEntry, offBlob)
    requires sec.Length == SectionSize(gs) && forall i :: 0 <= i < sec.Length ==> sec[i] == 0
    modifies sec
    ensures sec[..] == Section(gs) && relocs == Relocs(gs, |Flat(gs)|)
  {
    ghost var zero := sec[..];
    AllBlank(zero);
    RegionsAdjoin(gs);
    RootReady(zero, types, byType, gs, offTypeDir, offIDDir);
    WriteRoot(sec, 0, types, offTypeDir, RootList(gs));
    ghost var one := sec[..];
    BlankAfter(zero, 0, Dir(RootList(gs)), one, TypeDirOff(gs, 0));
    ghost var ss := TypeStagesOf(one, gs);
    WriteTypeDirs(sec, types, byType, offTypeDir, offIDDir, ss, gs);
    ghost var two := sec[..];
    assert TypeStage(two, one, gs, |gs|);
    relocs := WriteLeaves(sec, types, byType, offIDDir, offDataEntry, offBlob, gs);
    WritesMakeSection(zero, one, two, gs);
  }

  lemma RootReady(zero: seq<byte>, types: seq<u32>, byType: map<u32, seq<Resource>>, gs: seq<seq<Resource>>,
                  offTypeDir: map<u32, nat>, offIDDir: map<(u32, u32), nat>)
    requires Grouped(types, byType, gs) && DirOffsets(gs, types, offTypeDir, offIDDir)
    requires |zero| == SectionSize(gs) && Blank(zero, 0, |zero|)
    ensures Blank(zero, 0, 16) && 16 + 8 * |types| <= |zero|
    ensures forall i :: 0 <= i < |types| ==> types[i] in offTypeDir && RootList(gs)[i] == (types[i], Sub(offTypeDir[types[i]]))
  {
    RegionsAdjoin(gs);
    BlankInside(zero, 0, |zero|, 0, 16);
  }
}
