/** Little-endian fields in byte strings, and placing a piece of bytes inside a longer string. */
module LittleEndian {
  import opened Basics

  type u16 = x: int | 0 <= x < 0x1_0000
  type u32 = x: int | 0 <= x < 0x1_0000_0000

  function Bytes16(v: u16): (r: seq<byte>)
    ensures |r| == 2
  {
    [v % 0x100, v / 0x100]
  }

  function Bytes32(v: u32): (r: seq<byte>)
    ensures |r| == 4
  {
    var w := v / 0x100;
    var x := w / 0x100;
    [v % 0x100, w % 0x100, x % 0x100, x / 0x100]
  }

  function U16(s: seq<byte>, o: nat): u16
    requires o + 2 <= |s|
  {
    s[o] as int + 0x100 * s[o + 1] as int
  }

  function U32(s: seq<byte>, o: nat): u32
    requires o + 4 <= |s|
  {
    s[o] as int + 0x100 * s[o + 1] as int + 0x1_0000 * s[o + 2] as int + 0x100_0000 * s[o + 3] as int
  }

  function Zeros(n: nat): (r: seq<byte>)
    ensures |r| == n && forall i :: 0 <= i < n ==> r[i] == 0
  {
    seq(n, i => 0)
  }

  /** The piece c lies in s at offset o. */
  ghost predicate HasAt(s: seq<byte>, o: nat, c: seq<byte>)
    ensures HasAt(s, o, c) ==> o + |c| <= |s|
    decreases |s|
  {
    if o == 0 then c <= s else s != [] && HasAt(s[1..], o - 1, c)
  }

  lemma {:induction false} HasAtIsSlice(s: seq<byte>, o: nat, c: seq<byte>)
    ensures HasAt(s, o, c) <==> o + |c| <= |s| && s[o..o + |c|] == c
    decreases o
  {
    if o > 0 && s != [] {
      HasAtIsSlice(s[1..], o - 1, c);
      assert o + |c| <= |s| ==> s[1..][o - 1..o - 1 + |c|] == s[o..o + |c|];
    }
  }

  lemma Read16(s: seq<byte>, o: nat, v: u16)
    requires HasAt(s, o, Bytes16(v))
    ensures U16(s, o) == v
  {
    HasAtIsSlice(s, o, Bytes16(v));
    var t := s[o..o + 2];
    assert s[o] == t[0] && s[o + 1] == t[1];
  }

  lemma Read32(s: seq<byte>, o: nat, v: u32)
    requires HasAt(s, o, Bytes32(v))
    ensures U32(s, o) == v
  {
    HasAtIsSlice(s, o, Bytes32(v));
    Quad(s, o);
  }

  lemma Quad(s: seq<byte>, o: nat)
    requires o + 4 <= |s|
    ensures U32(s, o) == U32(s[o..o + 4], 0)
  {
  }

  /** A piece of a piece. */
  lemma Within(s: seq<byte>, o: nat, c: seq<byte>, i: nat, d: seq<byte>)
    requires HasAt(s, o, c) && HasAt(c, i, d)
    ensures HasAt(s, o + i, d)
  {
    HasAtIsSlice(s, o, c);
    HasAtIsSlice(c, i, d);
    HasAtIsSlice(s, o + i, d);
    forall j | 0 <= j < |d| ensures s[o + i..o + i + |d|][j] == d[j] {
      assert s[o..o + |c|][i + j] == c[i + j] && c[i..i + |d|][j] == d[j];
    }
  }

  /** A field of a piece, read where the piece lies. */
  lemma Field32(s: seq<byte>, o: nat, c: seq<byte>, i: nat, v: u32)
    requires HasAt(s, o, c) && HasAt(c, i, Bytes32(v))
    ensures o + i + 4 <= |s| && U32(s, o + i) == v
  {
    Within(s, o, c, i, Bytes32(v));
    Read32(s, o + i, v);
  }

  lemma Field16(s: seq<byte>, o: nat, c: seq<byte>, i: nat, v: u16)
    requires HasAt(s, o, c) && HasAt(c, i, Bytes16(v))
    ensures o + i + 2 <= |s| && U16(s, o + i) == v
  {
    Within(s, o, c, i, Bytes16(v));
    Read16(s, o + i, v);
  }

  lemma Joined(a: seq<byte>, b: seq<byte>)
    ensures HasAt(a + b, 0, a) && HasAt(a + b, |a|, b)
  {
    HasAtIsSlice(a + b, 0, a);
    HasAtIsSlice(a + b, |a|, b);
  }

  /** The piece that follows a prefix. */
  lemma Follows(s: seq<byte>, p: seq<byte>, o: nat, c: seq<byte>)
    requires |p| == o && p + c <= s
    ensures HasAt(s, o, c)
  {
    assert s[o..o + |c|] == (p + c)[o..];
    HasAtIsSlice(s, o, c);
  }

  /** A piece stays where it is when more is written after it. */
  lemma Extended(a: seq<byte>, b: seq<byte>, o: nat, c: seq<byte>)
    requires HasAt(a, o, c)
    ensures HasAt(a + b, o, c)
  {
    Joined(a, b);
    Within(a + b, 0, a, o, c);
  }

  function Overwrite(s: seq<byte>, o: nat, c: seq<byte>): (r: seq<byte>)
    requires o + |c| <= |s|
    ensures |r| == |s|
  {
    s[..o] + c + s[o + |c|..]
  }

  method Put(a: array<byte>, o: nat, c: seq<byte>)
    requires o + |c| <= a.Length
    modifies a
    ensures a[..] == Overwrite(old(a[..]), o, c)
  {
    ghost var was := a[..];
    for i := 0 to |c|
      invariant a[..] == was[..o] + c[..i] + was[o + i..]
    {
      a[o + i] := c[i];
    }
    assert c[..|c|] == c;
  }

  /** Writing a piece leaves everything before and after it alone, and extends what ends where it begins. */
  lemma OverwriteSlices(s: seq<byte>, o: nat, c: seq<byte>, lo: nat, hi: nat)
    requires o + |c| <= |s| && lo <= hi <= |s|
    ensures hi <= o || o + |c| <= lo ==> Overwrite(s, o, c)[lo..hi] == s[lo..hi]
    ensures lo <= o && hi == o + |c| ==> Overwrite(s, o, c)[lo..hi] == s[lo..o] + c
  {
  }

  lemma Untouched(s: seq<byte>, o: nat, c: seq<byte>, o2: nat, d: seq<byte>)
    requires HasAt(s, o2, d) && o + |c| <= |s| && (o2 + |d| <= o || o + |c| <= o2)
    ensures HasAt(Overwrite(s, o, c), o2, d)
  {
    HasAtIsSlice(s, o2, d);
    OverwriteSlices(s, o, c, o2, o2 + |d|);
    HasAtIsSlice(Overwrite(s, o, c), o2, d);
  }

  lemma OverwriteAppend(s: seq<byte>, o: nat, a: seq<byte>, b: seq<byte>)
    requires o + |a| + |b| <= |s|
    ensures Overwrite(Overwrite(s, o, a), o + |a|, b) == Overwrite(s, o, a + b)
  {
  }

  lemma OverwriteSwap(s: seq<byte>, o: nat, a: seq<byte>, p: nat, b: seq<byte>)
    requires o + |a| <= p && p + |b| <= |s|
    ensures Overwrite(Overwrite(s, o, a), p, b) == Overwrite(Overwrite(s, p, b), o, a)
  {
    var x, y := Overwrite(Overwrite(s, o, a), p, b), Overwrite(Overwrite(s, p, b), o, a);
    var z := s[..o] + a + s[o + |a|..p] + b + s[p + |b|..];
    assert x == z;
    assert y == z;
  }

  /** Three areas, one after the other, each grow by a piece. */
  lemma ThreeGrow(s: seq<byte>, o: nat, a: seq<byte>, x: seq<byte>, p: nat, b: seq<byte>, y: seq<byte>,
                  q: nat, c: seq<byte>, z: seq<byte>)
    requires o + |a| + |x| <= p && p + |b| + |y| <= q && q + |c| + |z| <= |s|
    ensures var t := Overwrite(Overwrite(Overwrite(s, o, a), p, b), q, c);
            Overwrite(Overwrite(Overwrite(t, o + |a|, x), p + |b|, y), q + |c|, z)
            == Overwrite(Overwrite(Overwrite(s, o, a + x), p, b + y), q, c + z)
  {
    var s1 := Overwrite(s, o, a);
    var s2 := Overwrite(s1, p, b);
    OverwriteSwap(s2, o + |a|, x, q, c);
    OverwriteSwap(s1, o + |a|, x, p, b);
    OverwriteAppend(s, o, a, x);
    var t1 := Overwrite(s, o, a + x);
    var t2 := Overwrite(t1, p, b);
    OverwriteSwap(t2, p + |b|, y, q, c);
    OverwriteAppend(t1, p, b, y);
    OverwriteAppend(Overwrite(t1, p, b + y), q, c, z);
  }

  /** Writing what is there already. */
  lemma OverwriteSame(s: seq<byte>, o: nat, a: seq<byte>, b: seq<byte>, c: seq<byte>)
    requires o + |a| + |b| + |c| <= |s|
    requires s[o..o + |a|] == a && s[o + |a| + |b|..o + |a| + |b| + |c|] == c
    ensures Overwrite(s, o + |a|, b) == Overwrite(s, o, a + b + c)
  {
    assert s == s[..o] + a + s[o + |a|..o + |a| + |b|] + c + s[o + |a| + |b| + |c|..];
  }

  /** Overwriting the beginning of a piece. */
  lemma Replaced(s: seq<byte>, o: nat, a: seq<byte>, b: seq<byte>, c: seq<byte>)
    requires HasAt(s, o, a + b) && |c| == |a|
    ensures HasAt(Overwrite(s, o, c), o, c + b)
  {
    HasAtIsSlice(s, o, a + b);
    var r := Overwrite(s, o, c);
    forall i | 0 <= i < |c + b| ensures r[o..o + |c + b|][i] == (c + b)[i] {
      assert s[o..o + |a + b|][i] == (a + b)[i];
    }
    HasAtIsSlice(r, o, c + b);
  }
}
