/** The string operations the program applies to names, rules and cached lines, on ASCII. */
module Text {
  function LowerChar(c: char): char {
    if 'A' <= c <= 'Z' then c - 'A' + 'a' else c
  }

  function Lower(s: string): (r: string)
    ensures |r| == |s|
  {
    seq(|s|, i requires 0 <= i < |s| => LowerChar(s[i]))
  }

  predicate IsUpper(c: char) {
    'A' <= c <= 'Z'
  }

  /** Equal but for the case of a letter. */
  predicate SameLetter(c: char, d: char) {
    || c == d
    || (IsUpper(c) && 'a' <= d <= 'z' && d - 'a' == c - 'A')
    || (IsUpper(d) && 'a' <= c <= 'z' && c - 'a' == d - 'A')
  }

  predicate SameLetters(s: string, t: string) {
    |s| == |t| && forall i :: 0 <= i < |s| ==> SameLetter(s[i], t[i])
  }

  predicate NoUpper(s: string) {
    forall i :: 0 <= i < |s| ==> !IsUpper(s[i])
  }

  /** Lower-casing forgets case and nothing else. */
  lemma LowerForgetsCase(s: string, t: string)
    ensures Lower(s) == Lower(t) <==> SameLetters(s, t)
    ensures NoUpper(Lower(s)) && SameLetters(Lower(s), s) && (NoUpper(s) ==> Lower(s) == s)
  {
    if Lower(s) == Lower(t) {
      forall i | 0 <= i < |s| ensures SameLetter(s[i], t[i]) {
        assert Lower(s)[i] == Lower(t)[i];
      }
    }
  }

  predicate IsSpace(c: char) {
    c == ' ' || '\t' <= c <= '\r'
  }

  function TrimLeft(s: string): (r: string)
    ensures r == [] || !IsSpace(r[0])
    ensures |r| <= |s| && r == s[|s| - |r|..]
  {
    if s != [] && IsSpace(s[0]) then TrimLeft(s[1..]) else s
  }

  function TrimRight(s: string): (r: string)
    ensures r == [] || !IsSpace(r[|r| - 1])
    ensures r <= s
  {
    if s != [] && IsSpace(s[|s| - 1]) then TrimRight(s[..|s| - 1]) else s
  }

  function TrimSpace(s: string): (r: string)
    ensures r == [] || (!IsSpace(r[0]) && !IsSpace(r[|r| - 1]))
  {
    TrimRight(TrimLeft(s))
  }

  predicate Spaces(s: string) {
    forall i :: 0 <= i < |s| ==> IsSpace(s[i])
  }

  predicate Trimmed(s: string) {
    s == "" || (!IsSpace(s[0]) && !IsSpace(s[|s| - 1]))
  }

  /** s is t between white space, and nothing more can be taken off t. */
  predicate Pads(s: string, a: string, t: string, b: string) {
    s == a + t + b && Spaces(a) && Spaces(b) && Trimmed(t)
  }

  lemma {:induction false} TrimLeftDrops(a: string, r: string)
    requires Spaces(a) && (r == "" || !IsSpace(r[0]))
    ensures TrimLeft(a + r) == r
  {
    if a == "" {
      assert a + r == r;
    } else {
      assert (a + r)[1..] == a[1..] + r;
      TrimLeftDrops(a[1..], r);
    }
  }

  lemma {:induction false} TrimRightDrops(r: string, b: string)
    requires Spaces(b) && (r == "" || !IsSpace(r[|r| - 1]))
    ensures TrimRight(r + b) == r
  {
    if b == "" {
      assert r + b == r;
    } else {
      assert (r + b)[..|r + b| - 1] == r + b[..|b| - 1];
      TrimRightDrops(r, b[..|b| - 1]);
    }
  }

  lemma {:induction false} TrimLeftSplits(s: string) returns (a: string)
    ensures s == a + TrimLeft(s) && Spaces(a)
  {
    if s != [] && IsSpace(s[0]) {
      a := TrimLeftSplits(s[1..]);
      a := [s[0]] + a;
    } else {
      a := "";
    }
  }

  lemma {:induction false} TrimRightSplits(s: string) returns (b: string)
    ensures s == TrimRight(s) + b && Spaces(b)
  {
    if s != [] && IsSpace(s[|s| - 1]) {
      b := TrimRightSplits(s[..|s| - 1]);
      b := b + [s[|s| - 1]];
    } else {
      b := "";
    }
  }

  /** The text between the white space is what trimming leaves, and it always leaves such a text. */
  lemma TrimIsTheMiddle(s: string, t: string)
    ensures TrimSpace(s) == t <==> exists a, b :: Pads(s, a, t, b)
  {
    var c, d := TrimPads(s);
    forall a, b | Pads(s, a, t, b) ensures TrimSpace(s) == t {
      PaddedTrims(s, a, t, b);
    }
  }

  lemma TrimPads(s: string) returns (a: string, b: string)
    ensures Pads(s, a, TrimSpace(s), b)
  {
    a := TrimLeftSplits(s);
    b := TrimRightSplits(TrimLeft(s));
  }

  lemma PaddedTrims(s: string, a: string, t: string, b: string)
    requires Pads(s, a, t, b)
    ensures TrimSpace(s) == t
  {
    if t == "" {
      assert s == (a + b) + "";
      TrimLeftDrops(a + b, "");
    } else {
      assert s == a + (t + b);
      TrimLeftDrops(a, t + b);
      TrimRightDrops(t, b);
    }
  }

  predicate HasPrefix(s: string, p: string) {
    p <= s
  }

  predicate HasSuffix(s: string, p: string) {
    |p| <= |s| && s[|s| - |p|..] == p
  }

  predicate OccursAt(s: string, p: string, i: nat) {
    i + |p| <= |s| && s[i..i + |p|] == p
  }

  predicate Contains(s: string, p: string) {
    exists i: nat :: i <= |s| && OccursAt(s, p, i)
  }

  lemma ContainsMeans(s: string, p: string)
    ensures Contains(s, p) <==> exists a: string, b: string :: s == a + p + b
  {
    if Contains(s, p) {
      var i: nat :| i <= |s| && OccursAt(s, p, i);
      assert s == s[..i] + p + s[i + |p|..];
    }
    forall a: string, b: string | s == a + p + b ensures Contains(s, p) {
      assert OccursAt(s, p, |a|);
    }
  }

  predicate IsDigit(c: char) {
    '0' <= c <= '9'
  }

  /** The number a string of decimal digits stands for. */
  function Value(s: string): nat
    requires forall i :: 0 <= i < |s| ==> IsDigit(s[i])
  {
    if s == "" then 0
    else
      assert IsDigit(s[|s| - 1]);
      Value(s[..|s| - 1]) * 10 + (s[|s| - 1] as int - '0' as int)
  }

  function Digits(n: nat): (r: string)
    ensures r != "" && forall i :: 0 <= i < |r| ==> IsDigit(r[i])
  {
    var last := [(n % 10) as char + '0'];
    if n < 10 then last else Digits(n / 10) + last
  }

  lemma {:induction false} DigitsReadBack(n: nat)
    ensures Value(Digits(n)) == n
  {
    if n >= 10 {
      DigitsReadBack(n / 10);
      var r := Digits(n);
      assert r[..|r| - 1] == Digits(n / 10);
    }
  }
}
