/**
 The icons mksyso embeds (parseICO, buildGroup and main in tools/mksyso/main.go): an .ico file is cut into images, and
 each image becomes a resource that the icon group names by id.
 */
module Icons {
  import opened Basics
  import opened LittleEndian
  import opened ResourceTree
  import opened ResourceWriter
  import opened ObjectFile

  const RT_ICON: u32 := 3
  const RT_GROUP_ICON: u32 := 14
  const RT_MANIFEST: u32 := 24
  const LANG: u32 := 0x0409

  datatype Icon = Icon(width: byte, height: byte, colorCount: byte, reserved: byte, planes: u16, bitCount: u16,
                       bytesInRes: u32, imageOffset: u32, data: seq<byte>)

  // ---- Parsing ----

  /**
   The directory entry lies in the file and its image in the buffer. Offset and size are added in 32 bits, and the
   slice may reach past the file's n bytes into what the read buffer has beyond them.
   */
  predicate EntryFits(buf: seq<byte>, n: nat, i: nat)
    requires n <= |buf|
  {
    var o := 6 + 16 * i;
    && o + 16 <= n
    && U32(buf, o + 12) <= (U32(buf, o + 12) + U32(buf, o + 8)) % 0x1_0000_0000 <= |buf|
  }

  function EntryOf(buf: seq<byte>, n: nat, i: nat): Icon
    requires n <= |buf| && EntryFits(buf, n, i)
  {
    var o := 6 + 16 * i;
    var size, at := U32(buf, o + 8), U32(buf, o + 12);
    Icon(buf[o], buf[o + 1], buf[o + 2], buf[o + 3], U16(buf, o + 4), U16(buf, o + 6), size, at,
         buf[at..(at + size) % 0x1_0000_0000])
  }

  /** An icon file: its type field is 1, and every entry it counts fits. */
  predicate IsIco(buf: seq<byte>, n: nat)
    requires n <= |buf|
  {
    n >= 6 && U16(buf, 2) == 1 && forall i: nat :: i < U16(buf, 4) ==> EntryFits(buf, n, i)
  }

  function Parsed(buf: seq<byte>, n: nat): (r: Option<seq<Icon>>)
    requires n <= |buf|
  {
    if IsIco(buf, n) then Some(seq(U16(buf, 4), i requires 0 <= i < U16(buf, 4) => EntryOf(buf, n, i))) else None
  }

  /** None where the program stops: not an icon file, or an index or slice out of range. */
  method ParseICO(buf: seq<byte>, n: nat) returns (r: Option<seq<Icon>>)
    requires n <= |buf|
    ensures r == Parsed(buf, n)
  {
    if n < 6 || U16(buf, 2) != 1 {
      return None;
    }
    var count := U16(buf, 4);
    var out := [];
    for i := 0 to count
      invariant |out| == i
      invariant forall k: nat :: k < i ==> EntryFits(buf, n, k) && out[k] == EntryOf(buf, n, k)
    {
      var e := ParseEntry(buf, n, i);
      if e.None? {
        return None;
      }
      out := out + [e.value];
    }
    assert Parsed(buf, n).value == out;
    return Some(out);
  }

  method ParseEntry(buf: seq<byte>, n: nat, i: nat) returns (e: Option<Icon>)
    requires n <= |buf|
    ensures e == if EntryFits(buf, n, i) then Some(EntryOf(buf, n, i)) else None
  {
    var o := 6 + i * 16;
    if o + 16 > n {
      return None;
    }
    var bytesInRes, imageOffset := U32(buf, o + 8), U32(buf, o + 12);
    var end := (imageOffset + bytesInRes) % 0x1_0000_0000;
    if imageOffset > end || end > |buf| {
      return None;
    }
    return Some(Icon(buf[o], buf[o + 1], buf[o + 2], buf[o + 3], U16(buf, o + 4), U16(buf, o + 6), bytesInRes, imageOffset,
                     buf[imageOffset..end]));
  }

  /** A parsed image has exactly the size its entry gives: a sum that wraps around is below the offset, and refused. */
  lemma ImagesHaveTheirSize(buf: seq<byte>, n: nat, i: nat)
    requires n <= |buf| && IsIco(buf, n) && i < U16(buf, 4)
    ensures var e := Parsed(buf, n).value[i];
            && |e.data| == e.bytesInRes && e.imageOffset + e.bytesInRes <= |buf|
            && e.data == buf[e.imageOffset..e.imageOffset + e.bytesInRes]
  {
    assert EntryFits(buf, n, i);
    var o := 6 + 16 * i;
    WrapIsBelow(U32(buf, o + 12), U32(buf, o + 8));
  }

  lemma WrapIsBelow(x: u32, y: u32)
    ensures x <= (x + y) % 0x1_0000_0000 ==> (x + y) % 0x1_0000_0000 == x + y
  {
  }

  /** Sixteen bytes an entry: the i-th lies in the file, and the image it describes in the buffer. */
  predicate Describes(buf: seq<byte>, n: nat, i: nat)
    requires n <= |buf|
  {
    var o := 6 + 16 * i;
    o + 16 <= n && U32(buf, o + 12) + U32(buf, o + 8) < 0x1_0000_0000 && U32(buf, o + 12) + U32(buf, o + 8) <= |buf|
  }

  /**
   Which files the tool takes, in plain arithmetic: those whose bytes 2 and 3 say icon, and whose directory lies in the file
   and describes images that lie in the buffer.
   */
  lemma AcceptedIff(buf: seq<byte>, n: nat)
    requires n <= |buf|
    ensures Parsed(buf, n).Some? <==>
              n >= 6 && buf[2] == 1 && buf[3] == 0
              && forall i: nat :: i < buf[4] as int + 0x100 * buf[5] as int ==> Describes(buf, n, i)
  {
    if n >= 6 {
      forall i: nat ensures EntryFits(buf, n, i) <==> Describes(buf, n, i) {
        if 6 + 16 * i + 16 <= n {
          WrapIsBelow(U32(buf, 6 + 16 * i + 12), U32(buf, 6 + 16 * i + 8));
        }
      }
      IsIcoMeans(buf, n);
    }
  }

  lemma IsIcoMeans(buf: seq<byte>, n: nat)
    requires 6 <= n <= |buf|
    ensures U16(buf, 4) == buf[4] as int + 0x100 * buf[5] as int && (U16(buf, 2) == 1 <==> buf[2] == 1 && buf[3] == 0)
  {
  }

  // ---- The group ----

  function GroupEntryBytes(e: Icon, id: u16): (r: seq<byte>)
    ensures |r| == 14
  {
    [e.width, e.height, e.colorCount, e.reserved] + Bytes16(e.planes) + Bytes16(e.bitCount) + Bytes32(e.bytesInRes) + Bytes16(id)
  }

  function GroupEntries(es: seq<Icon>): (r: seq<byte>)
    ensures |r| == 14 * |es|
  {
    if es == [] then [] else GroupEntries(es[..|es| - 1]) + GroupEntryBytes(es[|es| - 1], ToU16(|es|))
  }

  function GroupHeader(n: nat): (r: seq<byte>)
    ensures |r| == 6
  {
    Bytes16(0) + Bytes16(1) + Bytes16(ToU16(n))
  }

  function Group(es: seq<Icon>): seq<byte> {
    GroupHeader(|es|) + GroupEntries(es)
  }

  method BuildGroup(es: seq<Icon>) returns (buf: seq<byte>)
    ensures buf == Group(es)
  {
    buf := Bytes16(0);
    buf := buf + Bytes16(1);
    buf := buf + Bytes16(ToU16(|es|));
    for i := 0 to |es|
      invariant buf == GroupHeader(|es|) + GroupEntries(es[..i])
    {
      var e := es[i];
      assert es[..i + 1][..i] == es[..i];
      buf := buf + ([e.width, e.height, e.colorCount, e.reserved] + Bytes16(e.planes) + Bytes16(e.bitCount)
                    + Bytes32(e.bytesInRes) + Bytes16(ToU16(i + 1)));
    }
    assert es[..|es|] == es;
  }

  /** What a group tells of one image: its size in bytes and the id of the resource that holds it. */
  datatype Named = Named(bytes: u32, id: u16)

  function NamedAt(g: seq<byte>, i: nat): Named
    requires 6 + 14 * (i + 1) <= |g|
  {
    Named(U32(g, 6 + 14 * i + 8), U16(g, 6 + 14 * i + 12))
  }

  function ReadGroup(g: seq<byte>): Option<seq<Named>> {
    if |g| < 6 || U16(g, 2) != 1 || 6 + 14 * U16(g, 4) > |g| then None
    else Some(seq(U16(g, 4), i requires 0 <= i < U16(g, 4) => NamedAt(g, i)))
  }

  lemma EntryFields(a: seq<byte>, b: seq<byte>, c: seq<byte>, d: seq<byte>, e: seq<byte>, s: seq<byte>)
    requires |a| == 4 && |b| == 2 && |c| == 2 && |d| == 4 && |e| == 2 && s == a + b + c + d + e
    ensures HasAt(s, 8, d) && HasAt(s, 12, e)
  {
    Follows(s, a + b + c, 8, d);
    Follows(s, a + b + c + d, 12, e);
  }

  lemma GroupHeaderReads(g: seq<byte>, n: u16)
    requires HasAt(g, 0, GroupHeader(n))
    ensures |g| >= 6 && U16(g, 2) == 1 && U16(g, 4) == n
  {
    var s := GroupHeader(n);
    HasAtIsSlice(s, 2, Bytes16(1));
    HasAtIsSlice(s, 4, Bytes16(n));
    Field16(g, 0, s, 2, 1);
    Field16(g, 0, s, 4, n);
  }

  lemma {:induction false} GroupEntryAt(es: seq<Icon>, i: nat)
    requires i < |es|
    ensures HasAt(GroupEntries(es), 14 * i, GroupEntryBytes(es[i], ToU16(i + 1)))
  {
    var was := es[..|es| - 1];
    var last := GroupEntryBytes(es[|es| - 1], ToU16(|es|));
    Joined(GroupEntries(was), last);
    if i < |es| - 1 {
      GroupEntryAt(was, i);
      Extended(GroupEntries(was), last, 14 * i, GroupEntryBytes(es[i], ToU16(i + 1)));
    }
  }

  lemma EntryReads(g: seq<byte>, i: nat, e: Icon, id: u16)
    requires HasAt(g, 6 + 14 * i, GroupEntryBytes(e, id))
    ensures NamedAt(g, i) == Named(e.bytesInRes, id)
  {
    var s := GroupEntryBytes(e, id);
    EntryFields([e.width, e.height, e.colorCount, e.reserved], Bytes16(e.planes), Bytes16(e.bitCount), Bytes32(e.bytesInRes), Bytes16(id), s);
    Field32(g, 6 + 14 * i, s, 8, e.bytesInRes);
    Field16(g, 6 + 14 * i, s, 12, id);
  }

  function NamedBy(es: seq<Icon>): (r: seq<Named>)
    requires |es| < 0x1_0000
    ensures |r| == |es|
  {
    seq(|es|, i requires 0 <= i < |es| => Named(es[i].bytesInRes, i + 1))
  }

  /** The i-th group entry names resource i + 1. */
  lemma GroupReadsBack(es: seq<Icon>)
    requires |es| < 0x1_0000
    ensures ReadGroup(Group(es)) == Some(NamedBy(es))
  {
    Joined(GroupHeader(|es|), GroupEntries(es));
    GroupReads(Group(es), es, GroupEntries(es));
  }

  lemma GroupReads(g: seq<byte>, es: seq<Icon>, p: seq<byte>)
    requires |es| < 0x1_0000 && p == GroupEntries(es) && HasAt(g, 0, GroupHeader(|es|)) && HasAt(g, 6, p)
    ensures ReadGroup(g) == Some(NamedBy(es))
  {
    GroupHeaderReads(g, |es|);
    forall i: nat | i < |es| ensures NamedAt(g, i) == NamedBy(es)[i] {
      GroupEntryPlaced(g, es, p, i);
      EntryReads(g, i, es[i], i + 1);
    }
    assert ReadGroup(g).value == NamedBy(es);
  }

  lemma GroupEntryPlaced(g: seq<byte>, es: seq<Icon>, p: seq<byte>, i: nat)
    requires |es| < 0x1_0000 && i < |es| && p == GroupEntries(es) && HasAt(g, 6, p)
    ensures HasAt(g, 6 + 14 * i, GroupEntryBytes(es[i], i + 1))
  {
    assert ToU16(i + 1) == i + 1;
    GroupEntryAt(es, i);
    Within(g, 6, p, 14 * i, GroupEntryBytes(es[i], ToU16(i + 1)));
  }

  lemma Bytes16Back(s: seq<byte>, o: nat)
    requires o + 2 <= |s|
    ensures Bytes16(U16(s, o)) == s[o..o + 2]
  {
  }

  lemma Bytes32Back(s: seq<byte>, o: nat)
    requires o + 4 <= |s|
    ensures Bytes32(U32(s, o)) == s[o..o + 4]
  {
    var v := U32(s, o);
    var low, mid, high, top: int := s[o] as int, s[o + 1] as int, s[o + 2] as int, s[o + 3] as int;
    assert v / 0x100 == mid + 0x100 * (high + 0x100 * top);
    assert v / 0x100 / 0x100 == high + 0x100 * top;
  }

  lemma EntryKeepsBytes(buf: seq<byte>, n: nat, i: nat, id: u16)
    requires n <= |buf| && EntryFits(buf, n, i)
    ensures var o := 6 + 16 * i; GroupEntryBytes(EntryOf(buf, n, i), id) == buf[o..o + 12] + Bytes16(id)
  {
    var o := 6 + 16 * i;
    Bytes16Back(buf, o + 4);
    Bytes16Back(buf, o + 6);
    Bytes32Back(buf, o + 8);
    assert buf[o..o + 12] == [buf[o], buf[o + 1], buf[o + 2], buf[o + 3]] + buf[o + 4..o + 6] + buf[o + 6..o + 8] + buf[o + 8..o + 12];
  }

  /**
   From directory to group, byte for byte: an entry of the group is the twelve bytes of the .ico file's own directory entry
   that describe the image, width to size, followed by the image's number; and the image is cut where that directory says.
   */
  lemma GroupCopiesDirectory(buf: seq<byte>, n: nat, i: nat)
    requires n <= |buf| && IsIco(buf, n) && i < U16(buf, 4)
    ensures EntryFits(buf, n, i)
    ensures var es := Parsed(buf, n).value;
            EntryCopied(buf, 6 + 16 * i, Group(es), i) && CutAt(buf, 6 + 16 * i, es[i].data)
  {
    var es := Parsed(buf, n).value;
    assert EntryFits(buf, n, i) && es[i] == EntryOf(buf, n, i);
    ImagesHaveTheirSize(buf, n, i);
    EntryKeepsBytes(buf, n, i, i + 1);
    EntryInGroup(es, i);
  }

  lemma EntryInGroup(es: seq<Icon>, i: nat)
    requires |es| < 0x1_0000 && i < |es|
    ensures HasAt(Group(es), 6 + 14 * i, GroupEntryBytes(es[i], i + 1))
  {
    Joined(GroupHeader(|es|), GroupEntries(es));
    GroupEntryPlaced(Group(es), es, GroupEntries(es), i);
  }

  ghost predicate EntryCopied(buf: seq<byte>, o: nat, g: seq<byte>, i: nat)
    requires o + 16 <= |buf| && i < 0xFFFF
  {
    HasAt(g, 6 + 14 * i, buf[o..o + 12] + Bytes16(i + 1))
  }

  predicate CutAt(buf: seq<byte>, o: nat, data: seq<byte>)
    requires o + 16 <= |buf|
  {
    var at, size := U32(buf, o + 12), U32(buf, o + 8);
    at + size <= |buf| && data == buf[at..at + size]
  }

  // ---- main's resources ----

  function IconResources(es: seq<Icon>): (r: seq<Resource>)
    ensures |r| == |es|
  {
    seq(|es|, i requires 0 <= i < |es| => Resource(RT_ICON, ToU32(i + 1), LANG, es[i].data))
  }

  function Resources(es: seq<Icon>, manifest: Option<seq<byte>>): seq<Resource> {
    IconResources(es) + [Resource(RT_GROUP_ICON, 1, LANG, Group(es))]
    + (if manifest.Some? then [Resource(RT_MANIFEST, 1, LANG, manifest.value)] else [])
  }

  /** What the tool writes, or None where it stops. */
  method MakeSyso(buf: seq<byte>, n: nat, manifest: Option<seq<byte>>) returns (file: Option<seq<byte>>)
    requires n <= |buf|
    ensures file == if IsIco(buf, n) then Some(Syso(Resources(Parsed(buf, n).value, manifest))) else None
  {
    var entries := ParseICO(buf, n);
    if entries.None? {
      return None;
    }
    var es := entries.value;
    var res := [];
    for i := 0 to |es|
      invariant res == IconResources(es)[..i]
    {
      res := res + [Resource(RT_ICON, ToU32(i + 1), LANG, es[i].data)];
    }
    var group := BuildGroup(es);
    res := res + [Resource(RT_GROUP_ICON, 1, LANG, group)];
    if manifest.Some? {
      res := res + [Resource(RT_MANIFEST, 1, LANG, manifest.value)];
    }
    assert res == Resources(es, manifest);
    ResourcesAreDistinct(es, manifest);
    var out := BuildSyso(res);
    return Some(out);
  }

  /** main never gives buildSyso two resources with one type and id. */
  lemma ResourcesAreDistinct(es: seq<Icon>, manifest: Option<seq<byte>>)
    requires |es| < 0x1_0000
    ensures Distinct(Resources(es, manifest))
  {
    var rs := Resources(es, manifest);
    forall i, j | 0 <= i < j < |rs| ensures KeyOf(rs[i]) != KeyOf(rs[j]) {
      if j < |es| {
        assert rs[i].id == i + 1 && rs[j].id == j + 1;
      }
    }
  }

  /** The bytes of the resource with a type and id. */
  function Find(rs: seq<Resource>, typ: u32, id: u32): Option<seq<byte>> {
    if rs == [] then None else if KeyOf(rs[0]) == (typ, id) then Some(rs[0].data) else Find(rs[1..], typ, id)
  }

  lemma {:induction false} FindsTheOne(rs: seq<Resource>, r: Resource)
    requires Distinct(rs) && r in rs
    ensures Find(rs, r.typ, r.id) == Some(r.data)
  {
    if KeyOf(rs[0]) == KeyOf(r) {
      var i :| 0 <= i < |rs| && rs[i] == r;
      assert i == 0;
    } else {
      FindsTheOne(rs[1..], r);
    }
  }

  /** out holds the given resources, types and ids ascending: what SysoLoads proves of a loaded file. */
  ghost predicate Holds(out: seq<Resource>, res: seq<Resource>) {
    Ascending(out) && multiset(out) == multiset(res)
  }

  lemma FoundIn(out: seq<Resource>, res: seq<Resource>, r: Resource)
    requires Holds(out, res) && r in res
    ensures Find(out, r.typ, r.id) == Some(r.data)
  {
    AscendingIsDistinct(out);
    assert r in multiset(res);
    FindsTheOne(out, r);
  }

  /** The group lists as many images as es, and its i-th entry tells the i-th image's size and the icon resource that holds it. */
  ghost predicate GroupNames(out: seq<Resource>, es: seq<Icon>) {
    && Find(out, RT_GROUP_ICON, 1).Some?
    && var group := ReadGroup(Find(out, RT_GROUP_ICON, 1).value);
    && group.Some? && |group.value| == |es|
    && forall i :: 0 <= i < |es| ==>
         group.value[i].bytes == es[i].bytesInRes && Find(out, RT_ICON, group.value[i].id) == Some(es[i].data)
  }

  lemma GroupNamesItsImages(es: seq<Icon>, manifest: Option<seq<byte>>, out: seq<Resource>)
    requires |es| < 0x1_0000 && Holds(out, Resources(es, manifest))
    ensures GroupNames(out, es)
  {
    GroupReadsBack(es);
    var res := Resources(es, manifest);
    assert res[|es|] == Resource(RT_GROUP_ICON, 1, LANG, Group(es));
    FoundIn(out, res, res[|es|]);
    forall i | 0 <= i < |es| ensures Find(out, RT_ICON, i + 1) == Some(es[i].data) {
      assert res[i] == Resource(RT_ICON, i + 1, LANG, es[i].data);
      FoundIn(out, res, res[i]);
    }
  }

  /** A manifest given to the tool is kept unchanged, and without one there is none. */
  lemma ManifestIsKept(es: seq<Icon>, manifest: Option<seq<byte>>, out: seq<Resource>)
    requires Holds(out, Resources(es, manifest))
    ensures Find(out, RT_MANIFEST, 1) == manifest
  {
    var res := Resources(es, manifest);
    if manifest.Some? {
      assert res[|es| + 1] == Resource(RT_MANIFEST, 1, LANG, manifest.value);
      FoundIn(out, res, res[|es| + 1]);
    } else {
      forall r | r in out ensures r.typ != RT_MANIFEST {
        assert r in multiset(res);
        assert r in res;
      }
      FindsNothing(out, RT_MANIFEST, 1);
    }
  }

  /** All of it is in one language, US English. */
  lemma InOneLanguage(es: seq<Icon>, manifest: Option<seq<byte>>, out: seq<Resource>)
    requires Holds(out, Resources(es, manifest))
    ensures forall r :: r in out ==> r.lang == 0x0409
  {
    var res := Resources(es, manifest);
    forall r | r in out ensures r.lang == 0x0409 {
      assert r in multiset(res);
      assert r in res;
    }
  }

  /** Each image is the slice of the .ico file that its directory entry gives. */
  ghost predicate CutFrom(es: seq<Icon>, buf: seq<byte>) {
    forall i :: 0 <= i < |es| ==>
      && es[i].imageOffset + es[i].bytesInRes <= |buf|
      && es[i].data == buf[es[i].imageOffset..es[i].imageOffset + es[i].bytesInRes]
  }

  lemma ParsedAreCut(buf: seq<byte>, n: nat)
    requires n <= |buf| && IsIco(buf, n)
    ensures |Parsed(buf, n).value| == U16(buf, 4) && CutFrom(Parsed(buf, n).value, buf)
  {
    forall i: nat | i < U16(buf, 4) ensures var e := Parsed(buf, n).value[i];
      e.imageOffset + e.bytesInRes <= |buf| && e.data == buf[e.imageOffset..e.imageOffset + e.bytesInRes]
    {
      ImagesHaveTheirSize(buf, n, i);
    }
  }

  /** Whatever the address, the object yields a group that names each image, and the manifest. */
  lemma ResourcesComeThrough(es: seq<Icon>, manifest: Option<seq<byte>>, res: seq<Resource>, base: nat)
    requires |es| < 0x1_0000 && res == Resources(es, manifest) && Fits(res, base)
    ensures Load(Syso(res), base).Some?
    ensures GroupNames(Load(Syso(res), base).value, es) && Find(Load(Syso(res), base).value, RT_MANIFEST, 1) == manifest
  {
    ResourcesAreDistinct(es, manifest);
    SysoLoads(res, base);
    GroupNamesItsImages(es, manifest, Sorted(res));
    ManifestIsKept(es, manifest, Sorted(res));
  }

  lemma LanguageComesThrough(es: seq<Icon>, manifest: Option<seq<byte>>, res: seq<Resource>, base: nat)
    requires |es| < 0x1_0000 && res == Resources(es, manifest) && Fits(res, base)
    ensures Load(Syso(res), base).Some? && forall r :: r in Load(Syso(res), base).value ==> r.lang == 0x0409
  {
    ResourcesAreDistinct(es, manifest);
    SysoLoads(res, base);
    InOneLanguage(es, manifest, Sorted(res));
  }

  /**
   From .ico file to object file and back: file is what the tool writes and out what it yields when loaded. The images
   are the slices of the .ico file its directory gives, and the i-th entry of the group in out names the icon resource
   that holds the i-th of them.
   */
  lemma IconsComeThrough(buf: seq<byte>, n: nat, es: seq<Icon>, manifest: Option<seq<byte>>, base: nat,
                         file: seq<byte>, out: Option<seq<Resource>>)
    requires n <= |buf| && Parsed(buf, n) == Some(es) && Fits(Resources(es, manifest), base)
    requires file == Syso(Resources(es, manifest)) && out == Load(file, base)
    ensures |es| == U16(buf, 4) && CutFrom(es, buf)
    ensures out.Some? && GroupNames(out.value, es) && Find(out.value, RT_MANIFEST, 1) == manifest
    ensures forall r :: r in out.value ==> r.lang == 0x0409
  {
    ParsedAreCut(buf, n);
    ResourcesComeThrough(es, manifest, Resources(es, manifest), base);
    LanguageComesThrough(es, manifest, Resources(es, manifest), base);
  }

  lemma {:induction false} FindsNothing(rs: seq<Resource>, typ: u32, id: u32)
    requires forall r :: r in rs ==> r.typ != typ
    ensures Find(rs, typ, id) == None
  {
    if rs != [] {
      FindsNothing(rs[1..], typ, id);
    }
  }

  // ---- Too many images ----

  lemma CountOf(res: seq<Resource>)
    requires |Sorted(res)| == |res|
    ensures |Syso(res)| >= 60
    ensures U16(Syso(res), 52) == |res| <==> |res| < 0x1_0000
    ensures |res| == 0x1_0000 ==> U16(Syso(res), 52) == 0
  {
    var gs := Groups(Sorted(res));
    CountIsKeptIff(Section(gs), Relocs(gs, |res|));
  }

  /** The file counts its relocations, one per resource, correctly if and only if images, group and manifest are fewer than 65536. */
  lemma RelocationsCountedIff(es: seq<Icon>, manifest: Option<seq<byte>>)
    requires |es| < 0x1_0000
    ensures var res := Resources(es, manifest);
            && |res| == |es| + (if manifest.Some? then 2 else 1) && |Syso(res)| >= 60
            && (U16(Syso(res), 52) == |res| <==> |es| + (if manifest.Some? then 2 else 1) < 0x1_0000)
  {
    ResourcesAreDistinct(es, manifest);
    SortedAscends(Resources(es, manifest));
    CountOf(Resources(es, manifest));
  }

  /** 65535 empty images: a header that counts them, and an all-zero directory. */
  function LargestIco(): (r: seq<byte>)
    ensures |r| == 6 + 16 * 0xFFFF
  {
    [0, 0, 1, 0, 0xFF, 0xFF] + Zeros(16 * 0xFFFF)
  }

  lemma LargestIcoIsIco()
    ensures IsIco(LargestIco(), |LargestIco()|) && U16(LargestIco(), 4) == 0xFFFF
  {
    var b := LargestIco();
    assert b[2] == 1 && b[3] == 0 && b[4] == 0xFF && b[5] == 0xFF;
    forall i: nat | i < 0xFFFF ensures EntryFits(b, |b|, i) {
      ZeroEntry(b, 6 + 16 * i);
    }
  }

  lemma ZeroEntry(b: seq<byte>, o: nat)
    requires b == LargestIco() && 6 <= o && o + 16 <= |b|
    ensures U32(b, o + 8) == 0 && U32(b, o + 12) == 0
  {
    assert forall k :: 6 <= k < |b| ==> b[k] == 0;
  }

  /** The tool takes that file, and the object it writes for it has 65536 relocations and counts none. */
  lemma LargestIcoLosesRelocations()
    ensures var b := LargestIco();
            && IsIco(b, |b|)
            && var res := Resources(Parsed(b, |b|).value, None);
               && |Relocs(Groups(Sorted(res)), |res|)| == 0x1_0000 && |Syso(res)| >= 60 && U16(Syso(res), 52) == 0
  {
    var b := LargestIco();
    LargestIcoIsIco();
    ParsedAreCut(b, |b|);
    NoneCounted(Parsed(b, |b|).value);
  }

  lemma NoneCounted(es: seq<Icon>)
    requires |es| == 0xFFFF
    ensures var res := Resources(es, None); |res| == 0x1_0000 && |Syso(res)| >= 60 && U16(Syso(res), 52) == 0
  {
    ResourcesAreDistinct(es, None);
    SortedAscends(Resources(es, None));
    CountOf(Resources(es, None));
  }
}
