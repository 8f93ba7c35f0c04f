/** Version comparison (internal/selfupdate/selfupdate.go) and what the installer makes of it (cmd/fortochka/install.go). */
module Versions {
  import opened Text

  function Split(s: string): (r: seq<string>)
    ensures |r| > 0
  {
    if s == "" then [""]
    else
      var rest := Split(s[1..]);
      if s[0] == '.' then [""] + rest else [[s[0]] + rest[0]] + rest[1..]
  }

  function TrimToDigits(s: string): string {
    if s == "" then s
    else if !IsDigit(s[0]) then TrimToDigits(s[1..])
    else if !IsDigit(s[|s| - 1]) then TrimToDigits(s[..|s| - 1])
    else s
  }

  const MAX_INT := 0x7FFF_FFFF_FFFF_FFFF

  /** Field i as a number; a missing, non-numeric or oversized field counts as zero. */
  function Field(parts: seq<string>, i: nat): nat {
    if i >= |parts| then 0
    else
      var t := TrimToDigits(parts[i]);
      if t == "" || (exists j :: 0 <= j < |t| && !IsDigit(t[j])) then 0
      else if Value(t) > MAX_INT then 0
      else Value(t)
  }

  method Newer(a: string, b: string) returns (r: bool)
    ensures r <==> Later(a, b)
  {
    var x, y := Split(a), Split(b);
    var i := 0;
    while i < |x| || i < |y|
      invariant 0 <= i
      invariant forall j :: 0 <= j < i ==> Field(x, j) == Field(y, j)
      decreases |x| + |y| - i
    {
      if Field(x, i) != Field(y, i) {
        assert DecidesAt(a, b, i) || DecidesAt(b, a, i);
        LaterIsAsymmetric(a, b);
        return Field(x, i) > Field(y, i);
      }
      i := i + 1;
    }
    return false;
  }

  /** At field i the versions first differ, in a's favour. */
  predicate DecidesAt(a: string, b: string, i: nat) {
    && (forall j :: 0 <= j < i ==> Field(Split(a), j) == Field(Split(b), j))
    && Field(Split(a), i) > Field(Split(b), i)
  }

  /** a is numerically later than b, missing fields counting as zero. */
  ghost predicate Later(a: string, b: string) {
    exists i: nat :: DecidesAt(a, b, i)
  }

  lemma LaterIsAsymmetric(a: string, b: string)
    ensures !(Later(a, b) && Later(b, a))
  {
    forall i: nat, j: nat ensures !(DecidesAt(a, b, i) && DecidesAt(b, a, j)) {
    }
  }

  lemma LaterIsTransitive(a: string, b: string, c: string)
    requires Later(a, b) && Later(b, c)
    ensures Later(a, c)
  {
    var i: nat :| DecidesAt(a, b, i);
    var j: nat :| DecidesAt(b, c, j);
    assert DecidesAt(a, c, if i < j then i else j);
  }

  /** Two versions neither of which is later agree in every field, however many fields either has. */
  lemma {:induction false} NeitherLaterMeansEqual(a: string, b: string, i: nat)
    requires !Later(a, b) && !Later(b, a)
    ensures Field(Split(a), i) == Field(Split(b), i)
  {
    forall j: nat | j < i ensures Field(Split(a), j) == Field(Split(b), j) {
      NeitherLaterMeansEqual(a, b, j);
    }
    assert !DecidesAt(a, b, i) && !DecidesAt(b, a, i);
  }

  // ---- Versions as they are written ----

  predicate NoDigits(s: string) {
    forall i :: 0 <= i < |s| ==> !IsDigit(s[i])
  }

  predicate AllDigits(s: string) {
    s != "" && forall i :: 0 <= i < |s| ==> IsDigit(s[i])
  }

  /** One field: what counts, core, and anything but digits around it. */
  datatype Part = Part(before: string, core: string, after: string) {
    function Written(): string {
      before + core + after
    }

    predicate Valid() {
      && NoDigits(before) && NoDigits(after) && '.' !in Written()
      && (core == "" || (IsDigit(core[0]) && IsDigit(core[|core| - 1])))
    }

    /** The number it stands for, zero if there is none or it is too large. */
    function Number(): nat {
      if AllDigits(core) && Value(core) <= MAX_INT then Value(core) else 0
    }
  }

  function Version(ps: seq<Part>): string
    requires ps != []
  {
    if |ps| == 1 then ps[0].Written() else ps[0].Written() + "." + Version(ps[1..])
  }

  function NumberAt(ps: seq<Part>, i: nat): nat {
    if i < |ps| then ps[i].Number() else 0
  }

  lemma {:induction false} SplitWord(w: string)
    requires '.' !in w
    ensures Split(w) == [w]
  {
    if w != "" {
      SplitWord(w[1..]);
      assert w == [w[0]] + w[1..];
    }
  }

  lemma {:induction false} SplitAtDot(w: string, rest: string)
    requires '.' !in w
    ensures Split(w + "." + rest) == [w] + Split(rest)
  {
    var s := w + "." + rest;
    if w == "" {
      assert s[1..] == rest;
    } else {
      assert s[1..] == w[1..] + "." + rest;
      SplitAtDot(w[1..], rest);
      assert w == [w[0]] + w[1..];
    }
  }

  lemma {:induction false} SplitReadsBack(ps: seq<Part>)
    requires ps != [] && forall i :: 0 <= i < |ps| ==> ps[i].Valid()
    ensures |Split(Version(ps))| == |ps| && forall i :: 0 <= i < |ps| ==> Split(Version(ps))[i] == ps[i].Written()
  {
    if |ps| == 1 {
      SplitWord(ps[0].Written());
    } else {
      SplitAtDot(ps[0].Written(), Version(ps[1..]));
      SplitReadsBack(ps[1..]);
    }
  }

  lemma {:induction false} TrimsToCore(before: string, core: string, after: string)
    requires NoDigits(before) && NoDigits(after) && (core == "" || (IsDigit(core[0]) && IsDigit(core[|core| - 1])))
    ensures TrimToDigits(before + core + after) == core
    decreases |before| + |after|
  {
    var s := before + core + after;
    if before != "" {
      assert s[1..] == before[1..] + core + after;
      TrimsToCore(before[1..], core, after);
    } else if core == "" && after != "" {
      assert s == after && s[1..] == "" + "" + after[1..];
      TrimsToCore("", "", after[1..]);
    } else if after != "" {
      assert s[..|s| - 1] == "" + core + after[..|after| - 1];
      TrimsToCore("", core, after[..|after| - 1]);
    } else {
      assert s == core;
    }
  }

  /** Field i of a written version is the number written there, and zero beyond the last. */
  lemma FieldReadsBack(ps: seq<Part>, i: nat)
    requires ps != [] && forall k :: 0 <= k < |ps| ==> ps[k].Valid()
    ensures Field(Split(Version(ps)), i) == NumberAt(ps, i)
  {
    SplitReadsBack(ps);
    if i < |ps| {
      FieldOfPart(Split(Version(ps)), i, ps[i]);
    }
  }

  lemma FieldOfPart(parts: seq<string>, i: nat, p: Part)
    requires i < |parts| && parts[i] == p.Written() && p.Valid()
    ensures Field(parts, i) == p.Number()
  {
    TrimsToCore(p.before, p.core, p.after);
  }

  /** The numbers first differ at field i, and there a has the larger one. */
  predicate LargerAt(a: seq<Part>, b: seq<Part>, i: nat) {
    NumberAt(a, i) > NumberAt(b, i) && forall j :: 0 <= j < i ==> NumberAt(a, j) == NumberAt(b, j)
  }

  /** Versions compare by their numbers, field by field, whatever is written around them. */
  lemma LaterComparesNumbers(a: seq<Part>, b: seq<Part>)
    requires a != [] && forall k :: 0 <= k < |a| ==> a[k].Valid()
    requires b != [] && forall k :: 0 <= k < |b| ==> b[k].Valid()
    ensures Later(Version(a), Version(b)) <==> exists i: nat :: LargerAt(a, b, i)
  {
    forall i: nat ensures DecidesAt(Version(a), Version(b), i) <==> LargerAt(a, b, i) {
      forall j: nat | j <= i
        ensures Field(Split(Version(a)), j) == NumberAt(a, j) && Field(Split(Version(b)), j) == NumberAt(b, j)
      {
        FieldReadsBack(a, j);
        FieldReadsBack(b, j);
      }
    }
    if Later(Version(a), Version(b)) {
      var i: nat :| DecidesAt(Version(a), Version(b), i);
      assert LargerAt(a, b, i);
    }
  }

  /** A number written plainly is that number. */
  lemma PlainNumber(n: nat)
    ensures Part("", Digits(n), "").Number() == if n <= MAX_INT then n else 0
  {
    DigitsReadBack(n);
  }

  /** The copy already installed. */
  datatype Installed = Installed(exists_: bool, same: bool, version: string)

  ghost predicate NeedsInstall(own: string, c: Installed) {
    if !c.exists_ then true
    else if c.same then false
    else if c.version != "" && Later(c.version, own) then false
    else true
  }

  ghost predicate ShouldHandOff(own: string, c: Installed) {
    c.exists_ && (c.same || (c.version != "" && Later(c.version, own)))
  }

  /** A launch either installs itself or hands over to the installed copy: always one, never both. */
  lemma InstallsOrHandsOff(own: string, c: Installed)
    ensures NeedsInstall(own, c) <==> !ShouldHandOff(own, c)
  {
  }

  /** Two different builds never hand over to each other. */
  lemma NoHandOffLoop(own: string, other: string)
    ensures !(ShouldHandOff(own, Installed(true, false, other)) && ShouldHandOff(other, Installed(true, false, own)))
  {
    LaterIsAsymmetric(other, own);
  }

  /**
   When a launch hands over, in terms of the numbers: never if nothing is installed, always to an identical copy, and to a
   different one exactly if that has a version with the larger numbers.
   */
  lemma HandsOffIff(own: seq<Part>, installed: seq<Part>)
    requires own != [] && forall k :: 0 <= k < |own| ==> own[k].Valid()
    requires installed != [] && forall k :: 0 <= k < |installed| ==> installed[k].Valid()
    ensures !ShouldHandOff(Version(own), Installed(false, false, Version(installed)))
    ensures ShouldHandOff(Version(own), Installed(true, true, Version(installed)))
    ensures !ShouldHandOff(Version(own), Installed(true, false, ""))
    ensures Version(installed) != "" ==>
              (ShouldHandOff(Version(own), Installed(true, false, Version(installed)))
               <==> exists i: nat :: LargerAt(installed, own, i))
  {
    LaterComparesNumbers(installed, own);
  }
}
