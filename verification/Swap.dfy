/**
 Replacing the program's own binary (cmd/fortochka/install.go, placeBinary; internal/selfupdate/selfupdate.go,
 install). Every filesystem call may fail, and the process may stop after any of them: the disk keeps a record
 of every state it has been in.
 */
module Swap {
  import opened Basics

  type Content = seq<byte>

  /** The binary's path, its staging copy (.new), the places it is moved aside to (.old, .old-<time>), and where a new one comes from. */
  datatype Path = Target | Staged | Aside | AsideStamped | Source

  type Files = map<Path, Content>

  datatype Removal = Removed | Missing | Refused

  class Disk {
    var files: Files
    ghost var past: seq<Files>
    const faults: nat -> bool
    var calls: nat

    constructor (files: Files, faults: nat -> bool)
      ensures this.files == files && past == [files] && this.faults == faults && calls == 0
    {
      this.files, this.past, this.faults, this.calls := files, [files], faults, 0;
    }

    /** Whether the next call fails. */
    method Fault() returns (f: bool)
      modifies this`calls
      ensures f == faults(old(calls)) && calls == old(calls) + 1
    {
      f := faults(calls);
      calls := calls + 1;
    }

    method Remove(p: Path) returns (r: Removal)
      modifies this
      ensures past == old(past) + [files]
      ensures r == Removed ==> p in old(files) && files == old(files) - {p}
      ensures r == Missing ==> p !in old(files)
      ensures r != Removed ==> files == old(files)
      ensures (r == Refused <==> faults(old(calls))) && calls == old(calls) + 1
    {
      var f := Fault();
      if f {
        r := Refused;
      } else if p !in files {
        r := Missing;
      } else {
        files := files - {p};
        r := Removed;
      }
      past := past + [files];
    }

    /** Moves a file in one step, replacing what was there. */
    method Rename(a: Path, b: Path) returns (ok: bool)
      requires a != b
      modifies this
      ensures past == old(past) + [files]
      ensures ok ==> a in old(files) && files == old(files)[b := old(files)[a]] - {a}
      ensures !ok ==> files == old(files)
      ensures ok <==> !faults(old(calls)) && a in old(files)
      ensures calls == old(calls) + 1
    {
      var f := Fault();
      ok := !f && a in files;
      if ok {
        files := files[b := files[a]] - {a};
      }
      past := past + [files];
    }

    method Stat(p: Path) returns (ok: bool)
      modifies this`calls
      ensures ok <==> !faults(old(calls)) && p in files
      ensures calls == old(calls) + 1
    {
      var f := Fault();
      ok := !f && p in files;
    }

    /** Creates the file, or empties it. */
    method Create(p: Path) returns (ok: bool)
      modifies this
      ensures past == old(past) + [files]
      ensures files == if ok then old(files)[p := []] else old(files)
      ensures ok <==> !faults(old(calls))
      ensures calls == old(calls) + 1
    {
      var f := Fault();
      ok := !f;
      if ok {
        files := files[p := []];
      }
      past := past + [files];
    }

    /** Appends to the file; a failed write may have stored any part of the chunk. */
    method Write(p: Path, chunk: Content, stored: nat) returns (ok: bool)
      requires p in files
      modifies this
      ensures past == old(past) + [files]
      ensures files.Keys == old(files).Keys && SameBut(old(files), files, p)
      ensures ok ==> files[p] == old(files)[p] + chunk
      ensures ok <==> !faults(old(calls))
      ensures calls == old(calls) + 1
    {
      var f := Fault();
      ok := !f;
      var part := if ok then chunk else if stored <= |chunk| then chunk[..stored] else [];
      files := files[p := files[p] + part];
      past := past + [files];
    }

    /** Writes a fresh file in chunks; a true result means the whole content is there. */
    method WriteFile(p: Path, chunks: seq<Content>, stored: nat) returns (ok: bool)
      modifies this
      ensures |past| > |old(past)| && SameBut(old(files), files, p)
      ensures OnlyTouched(past, |old(past)|, old(files), p)
      ensures ok ==> p in files && files[p] == Joined(chunks)
      ensures old(calls) < calls <= old(calls) + |chunks| + 3
      ensures ok <==> NoFault(faults, old(calls), calls)
      ensures ok ==> calls == old(calls) + |chunks| + 3
    {
      ok := Create(p);
      if !ok {
        return;
      }
      ghost var was, now := files, past;
      ok := WriteChunks(p, chunks, stored);
      SameButTwice(old(files), was, files, p);
      OnlyTouchedTwice(now, past, |old(past)|, old(files), was, p);
      if !ok {
        return;
      }
      var synced := Fault();
      var closed := Fault();
      ok := !synced && !closed;
    }

    method WriteChunks(p: Path, chunks: seq<Content>, stored: nat) returns (ok: bool)
      requires p in files && files[p] == []
      modifies this
      ensures |past| >= |old(past)| && past[..|old(past)|] == old(past) && SameBut(old(files), files, p)
      ensures OnlyTouched(past, |old(past)|, old(files), p)
      ensures ok ==> p in files && files[p] == Joined(chunks)
      ensures old(calls) <= calls <= old(calls) + |chunks| && (ok ==> calls == old(calls) + |chunks|)
      ensures ok <==> NoFault(faults, old(calls), calls)
    {
      ok := true;
      var i := 0;
      while i < |chunks|
        invariant 0 <= i <= |chunks| && ok
        invariant calls == old(calls) + i && NoFault(faults, old(calls), calls)
        invariant p in files && files[p] == Joined(chunks[..i])
        invariant |past| >= |old(past)| && past[..|old(past)|] == old(past) && SameBut(old(files), files, p)
        invariant OnlyTouched(past, |old(past)|, old(files), p)
      {
        JoinedSnoc(chunks, i);
        ghost var was := files;
        ok := Write(p, chunks[i], stored);
        SameButTwice(old(files), was, files, p);
        if !ok {
          return;
        }
        i := i + 1;
      }
      assert chunks[..|chunks|] == chunks;
    }
  }

  ghost predicate SameBut(f: Files, g: Files, p: Path) {
    forall q :: q != p ==> (q in f <==> q in g) && (q in f ==> f[q] == g[q])
  }

  /** In every state the disk has been in since, it differed from f at p only. */
  ghost predicate OnlyTouched(past: seq<Files>, from: nat, f: Files, p: Path) {
    forall i :: from <= i < |past| ==> SameBut(f, past[i], p)
  }

  lemma OnlyTouchedTwice(past: seq<Files>, longer: seq<Files>, from: nat, f: Files, g: Files, p: Path)
    requires OnlyTouched(past, from, f, p) && SameBut(f, g, p)
    requires |past| <= |longer| && longer[..|past|] == past && OnlyTouched(longer, |past|, g, p)
    ensures OnlyTouched(longer, from, f, p)
  {
    forall i | from <= i < |longer| ensures SameBut(f, longer[i], p) {
      if i < |past| {
        assert longer[i] == past[i];
      } else {
        SameButTwice(f, g, longer[i], p);
      }
    }
  }

  lemma SameButTwice(f: Files, g: Files, h: Files, p: Path)
    requires SameBut(f, g, p) && SameBut(g, h, p)
    ensures SameBut(f, h, p)
  {
  }

  function Joined(chunks: seq<Content>): Content {
    if chunks == [] then [] else Joined(chunks[..|chunks| - 1]) + chunks[|chunks| - 1]
  }

  lemma JoinedSnoc(chunks: seq<Content>, i: nat)
    requires i < |chunks|
    ensures Joined(chunks[..i + 1]) == Joined(chunks[..i]) + chunks[i]
  {
    assert chunks[..i + 1][..i] == chunks[..i];
  }

  // ---- What must hold in every state of the disk ----

  function At(f: Files, p: Path): Option<Content> {
    if p in f then Some(f[p]) else None
  }

  /**
   No version is ever lost or torn: the target is absent, the previous binary in full, or the new one in full,
   and the previous binary is in full somewhere until the new one is in place.
   */
  ghost predicate Safe(before: Option<Content>, new_: Content, f: Files) {
    && (Target in f ==> At(f, Target) == before || f[Target] == new_)
    && (before.Some? ==>
          || At(f, Target) == before
          || At(f, Aside) == before
          || At(f, AsideStamped) == before
          || At(f, Target) == Some(new_))
  }

  ghost predicate SafeSince(past: seq<Files>, from: nat, before: Option<Content>, new_: Content) {
    forall i :: from <= i < |past| ==> Safe(before, new_, past[i])
  }

  lemma StagingIsSafe(past: seq<Files>, from: nat, f: Files, before: Option<Content>, new_: Content)
    requires OnlyTouched(past, from, f, Staged)
    requires At(f, Target) == before
    ensures SafeSince(past, from, before, new_)
  {
    forall i | from <= i < |past| ensures Safe(before, new_, past[i]) {
      assert SameBut(f, past[i], Staged);
      assert Target in f <==> Target in past[i];
    }
  }

  /** No call between the two counts failed. */
  ghost predicate NoFault(faults: nat -> bool, from: nat, to: nat) {
    forall i: nat :: from <= i < to ==> !faults(i)
  }

  /** At least two calls between the two counts failed. */
  ghost predicate TwoFaults(faults: nat -> bool, from: nat, to: nat) {
    exists i: nat, j: nat :: from <= i < j < to && faults(i) && faults(j)
  }

  /** At most one particular call failed. */
  ghost predicate NoFaultBut(faults: nat -> bool, from: nat, to: nat, at: nat) {
    forall i: nat :: from <= i < to && i != at ==> !faults(i)
  }

  /** The previous binary is at the usual place for it or, when clearing that was refused, at the other one. */
  ghost predicate MovedAside(f: Files, g: Files, refused: bool) {
    if refused then At(g, AsideStamped) == At(f, Target) && At(g, Aside) == At(f, Aside) else At(g, Aside) == At(f, Target)
  }

  // ---- placeBinary ----

  datatype Outcome = Unchanged | Placed | Failed

  /**
   Puts a copy of the source at the target. compared, made and readable are the outcomes of reading the two files, of
   creating the directory and of opening the source, when there is one; restored says that nothing was moved aside, or
   that it was moved back. The calls are counted: copying makes |chunks| + 3, the next asks for the target, and the one
   after that clears the usual place for the previous binary.
   */
  method PlaceBinary(d: Disk, chunks: seq<Content>, stored: nat, compared: bool, made: bool, readable: bool)
    returns (r: Outcome, restored: bool)
    requires Source in d.files ==> d.files[Source] == Joined(chunks)
    modifies d
    ensures SafeSince(d.past, |old(d.past)|, At(old(d.files), Target), Joined(chunks))
    ensures At(d.files, Source) == At(old(d.files), Source)
    ensures r != Failed ==> At(d.files, Target) == At(d.files, Source) == Some(Joined(chunks))
    ensures r == Unchanged <==> compared && Source in old(d.files) && At(old(d.files), Target) == At(old(d.files), Source)
    ensures r == Unchanged ==> d.files == old(d.files)
    ensures made && readable && Source in old(d.files) && NoFault(d.faults, old(d.calls), d.calls) ==> r != Failed
    ensures made && readable && Source in old(d.files) && Target in old(d.files)
            ==> NoFaultBut(d.faults, old(d.calls), d.calls, old(d.calls) + |chunks| + 4) ==> r != Failed
    ensures r == Placed && Target in old(d.files) && !d.faults(old(d.calls) + |chunks| + 3)
            ==> MovedAside(old(d.files), d.files, d.faults(old(d.calls) + |chunks| + 4))
    ensures r == Failed && restored ==> At(d.files, Target) == At(old(d.files), Target)
    ensures r == Failed && !restored ==> TwoFaults(d.faults, old(d.calls), d.calls)
    ensures r == Failed && Staged in d.files ==> !made || (d.calls > 0 && d.faults(d.calls - 1))
  {
    ghost var before := At(d.files, Target);
    ghost var from := |d.past|;
    if compared && Source in d.files && Target in d.files && d.files[Source] == d.files[Target] {
      return Unchanged, true;
    }
    if !made {
      return Failed, true;
    }
    var copied := StageCopy(d, chunks, stored, readable, before);
    if !copied {
      return Failed, true;
    }
    r, restored := PutInPlace(d, from, before, Joined(chunks));
  }

  /** Copies the source beside the target; a copy that fails is removed again. */
  method StageCopy(d: Disk, chunks: seq<Content>, stored: nat, readable: bool, ghost before: Option<Content>) returns (ok: bool)
    requires At(d.files, Target) == before
    modifies d
    ensures |d.past| >= |old(d.past)| && SafeSince(d.past, |old(d.past)|, before, Joined(chunks))
    ensures SameBut(old(d.files), d.files, Staged) && At(d.files, Target) == before
    ensures At(d.files, Source) == At(old(d.files), Source)
    ensures ok ==> At(d.files, Staged) == Some(Joined(chunks)) && d.calls == old(d.calls) + |chunks| + 3 && Source in old(d.files)
    ensures !ok && Staged in d.files ==> d.calls > 0 && d.faults(d.calls - 1)
    ensures readable && Source in old(d.files) ==> ok || FaultIn(d.faults, old(d.calls), d.calls, |chunks| + 3)
    ensures d.calls > old(d.calls) && (ok ==> NoFault(d.faults, old(d.calls), d.calls))
  {
    ghost var from := |d.past|;
    ghost var start := d.files;
    if !readable || Source !in d.files {
      var _ := d.Remove(Staged);
      StagingIsSafe(d.past, from, start, before, Joined(chunks));
      return false;
    }
    ok := d.WriteFile(Staged, chunks, stored);
    if !ok {
      assert FaultIn(d.faults, old(d.calls), d.calls, |chunks| + 3);
      var _ := d.Remove(Staged);
    }
    StagingIsSafe(d.past, from, start, before, Joined(chunks));
  }

  /** One of the first n of these calls failed. */
  ghost predicate FaultIn(faults: nat -> bool, from: nat, to: nat, n: nat) {
    exists i: nat :: from <= i < to && i < from + n && faults(i)
  }

  /** Puts the staged copy in the target's place, moving what is there aside. */
  method PutInPlace(d: Disk, ghost from: nat, ghost before: Option<Content>, ghost new_: Content)
    returns (r: Outcome, restored: bool)
    requires At(d.files, Staged) == Some(new_) && At(d.files, Target) == before
    requires from <= |d.past| && SafeSince(d.past, from, before, new_)
    modifies d
    ensures |d.past| >= |old(d.past)| && SafeSince(d.past, from, before, new_)
    ensures At(d.files, Source) == At(old(d.files), Source)
    ensures Exchanged(d.files, d.faults, old(d.calls), d.calls, before, new_, r, restored)
    ensures NoFault(d.faults, old(d.calls), d.calls) ==> r == Placed
    ensures before.Some? && NoFaultBut(d.faults, old(d.calls), d.calls, old(d.calls) + 1) ==> r == Placed
    ensures r == Placed && before.Some? && !d.faults(old(d.calls)) ==> MovedAside(old(d.files), d.files, d.faults(old(d.calls) + 1))
  {
    var present := d.Stat(Target);
    if present {
      r, restored := MoveAsideAndReplace(d, from, before, new_);
      return;
    }
    r, restored := Failed, true;
    var moved := d.Rename(Staged, Target);
    if !moved {
      var _ := d.Remove(Staged);
      return;
    }
    r := Placed;
  }

  /** Moves the previous binary aside, under a fresh name if the usual one is taken for good, and puts the staged one in its place. */
  method MoveAsideAndReplace(d: Disk, ghost from: nat, ghost before: Option<Content>, ghost new_: Content)
    returns (r: Outcome, restored: bool)
    requires At(d.files, Staged) == Some(new_) && before.Some? && At(d.files, Target) == before
    requires from <= |d.past| && SafeSince(d.past, from, before, new_)
    modifies d
    ensures |d.past| >= |old(d.past)| && SafeSince(d.past, from, before, new_)
    ensures At(d.files, Source) == At(old(d.files), Source)
    ensures Exchanged(d.files, d.faults, old(d.calls), d.calls, before, new_, r, restored)
    ensures NoFaultBut(d.faults, old(d.calls), d.calls, old(d.calls)) ==> r == Placed
    ensures r == Placed ==> MovedAside(old(d.files), d.files, d.faults(old(d.calls)))
  {
    var aside := Aside;
    var removal := d.Remove(aside);
    if removal == Refused {
      aside := AsideStamped;
    }
    r, restored := Exchange(d, aside, from, before, new_);
  }

  /** How moving the target aside and the staged file in can end. */
  ghost predicate Exchanged(f: Files, faults: nat -> bool, from: nat, to: nat, before: Option<Content>, new_: Content,
                            r: Outcome, restored: bool)
  {
    && from < to && r != Unchanged
    && (r == Placed ==> At(f, Target) == Some(new_))
    && (r == Failed && restored ==> At(f, Target) == before)
    && (r == Failed && !restored ==> TwoFaults(faults, from, to))
    && (r == Failed && Staged in f ==> faults(to - 1))
  }

  /** The other place for the previous binary is left alone. */
  ghost predicate OthersStay(f: Files, g: Files, aside: Path) {
    forall p :: (p == Aside || p == AsideStamped) && p != aside ==> At(g, p) == At(f, p)
  }

  method Exchange(d: Disk, aside: Path, ghost from: nat, ghost before: Option<Content>, ghost new_: Content)
    returns (r: Outcome, restored: bool)
    requires aside == Aside || aside == AsideStamped
    requires At(d.files, Staged) == Some(new_) && before.Some? && At(d.files, Target) == before
    requires from <= |d.past| && SafeSince(d.past, from, before, new_)
    modifies d
    ensures |d.past| >= |old(d.past)| && SafeSince(d.past, from, before, new_)
    ensures At(d.files, Source) == At(old(d.files), Source)
    ensures Exchanged(d.files, d.faults, old(d.calls), d.calls, before, new_, r, restored)
    ensures NoFault(d.faults, old(d.calls), d.calls) ==> r == Placed
    ensures r == Placed ==> At(d.files, aside) == before && OthersStay(old(d.files), d.files, aside)
  {
    var moved := d.Rename(Target, aside);
    if !moved {
      var _ := d.Remove(Staged);
      return Failed, true;
    }
    r, restored := Replace(d, aside, from, before, new_);
  }

  /** Puts the staged binary in the place the previous one has left, which comes back if that fails. */
  method Replace(d: Disk, aside: Path, ghost from: nat, ghost before: Option<Content>, ghost new_: Content)
    returns (r: Outcome, restored: bool)
    requires aside == Aside || aside == AsideStamped
    requires At(d.files, Staged) == Some(new_) && before.Some? && At(d.files, aside) == before && Target !in d.files
    requires from <= |d.past| && SafeSince(d.past, from, before, new_)
    modifies d
    ensures |d.past| >= |old(d.past)| && SafeSince(d.past, from, before, new_)
    ensures At(d.files, Source) == At(old(d.files), Source)
    ensures Exchanged(d.files, d.faults, old(d.calls), d.calls, before, new_, r, restored)
    ensures NoFault(d.faults, old(d.calls), d.calls) ==> r == Placed
    ensures r == Placed ==> At(d.files, aside) == before && OthersStay(old(d.files), d.files, aside)
  {
    r, restored := Failed, true;
    var placed := d.Rename(Staged, Target);
    if !placed {
      restored := d.Rename(aside, Target);
      assert restored || (d.faults(d.calls - 2) && d.faults(d.calls - 1));
      var _ := d.Remove(Staged);
      return;
    }
    r := Placed;
  }

  // ---- install ----

  /**
   Downloads the new binary beside the running one and swaps it in; expected is the content the published
   checksum stands for.
   */
  method Install(d: Disk, chunks: seq<Content>, stored: nat, expected: Content) returns (r: Outcome, restored: bool)
    requires Target in d.files
    modifies d
    ensures SafeSince(d.past, |old(d.past)|, At(old(d.files), Target), expected)
    ensures r == Placed ==> At(d.files, Target) == Some(expected) && Joined(chunks) == expected
    ensures Joined(chunks) == expected && NoFault(d.faults, old(d.calls), d.calls) ==> r == Placed
    ensures r == Placed ==> At(d.files, Aside) == At(old(d.files), Target)
    ensures r != Placed && restored ==> At(d.files, Target) == At(old(d.files), Target)
    ensures r != Placed && !restored ==> TwoFaults(d.faults, old(d.calls), d.calls)
    ensures r != Placed && Staged in d.files ==> d.calls > 0 && d.faults(d.calls - 1)
  {
    ghost var before := At(d.files, Target);
    ghost var from := |d.past|;
    ghost var start := d.files;
    r, restored := Failed, true;
    var got := d.WriteFile(Staged, chunks, stored);
    StagingIsSafe(d.past, from, start, before, expected);
    assert SameBut(start, d.files, Staged);
    assert At(d.files, Target) == before;
    if !got || d.files[Staged] != expected {
      var _ := d.Remove(Staged);
      return;
    }
    var _ := d.Remove(Aside);
    r, restored := Exchange(d, Aside, from, before, expected);
  }
}
