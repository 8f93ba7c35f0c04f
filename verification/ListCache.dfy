/**
 The downloaded rule lists and their on-disk copy (internal/lists/refilter.go): what a download makes of its
 lines, how the rules are printed, and how the copy is read back.
 */
module ListCache {
  import opened Basics
  import opened Rules
  import opened Text

  // ---- Line scanning ----

  /** The scanner's buffer: a line and its terminator must fit. */
  const LIMIT := 1_048_576

  function NewlineAt(s: string): (i: nat)
    ensures i <= |s| && (i < |s| ==> s[i] == '\n')
    ensures forall j :: 0 <= j < i ==> s[j] != '\n'
  {
    if s == "" || s[0] == '\n' then 0 else 1 + NewlineAt(s[1..])
  }

  function DropCR(s: string): string {
    if s != "" && s[|s| - 1] == '\r' then s[..|s| - 1] else s
  }

  /** The lines before the first one that does not fit, and whether that was all of them. */
  datatype Scanned = Scanned(lines: seq<string>, complete: bool)

  function Rest(s: string): (r: string)
    ensures s != "" ==> |r| < |s|
  {
    if NewlineAt(s) < |s| then s[NewlineAt(s) + 1..] else ""
  }

  function Scan(s: string): Scanned
    decreases |s|
  {
    if s == "" then Scanned([], true)
    else if NewlineAt(s) >= LIMIT then Scanned([], false)
    else
      var rest := Scan(Rest(s));
      Scanned([DropCR(s[..NewlineAt(s)])] + rest.lines, rest.complete)
  }

  lemma ScanLine(line: string, rest: string)
    requires '\n' !in line
    ensures Scan(line + "\n" + rest) ==
              if |line| >= LIMIT then Scanned([], false) else Scanned([DropCR(line)] + Scan(rest).lines, Scan(rest).complete)
  {
    var s := line + "\n" + rest;
    LineEnds(line, rest);
    assert s[..|line|] == line && s[|line| + 1..] == rest;
  }

  /** A line that ends as on Windows reads as the one that does not. */
  lemma CRLFLine(line: string, marked: string, rest: string)
    requires '\n' !in line && (line == "" || line[|line| - 1] != '\r') && |line| + 1 < LIMIT && marked == line + "\r"
    ensures Scan(marked + "\n" + rest) == Scan(line + "\n" + rest)
  {
    ReturnIsDropped(line, marked);
    ScanLine(line, rest);
    ScanLine(marked, rest);
  }

  lemma ReturnIsDropped(line: string, marked: string)
    requires '\n' !in line && (line == "" || line[|line| - 1] != '\r') && marked == line + "\r"
    ensures DropCR(line) == DropCR(marked) == line && '\n' !in marked
  {
  }

  lemma LineEnds(line: string, rest: string)
    requires '\n' !in line
    ensures NewlineAt(line + "\n" + rest) == |line|
  {
    var s := line + "\n" + rest;
    assert s[|line|] == '\n';
    assert forall j :: 0 <= j < |line| ==> s[j] == line[j];
  }

  lemma {:induction false} ScannedLinesAreSingle(s: string, i: nat)
    requires i < |Scan(s).lines|
    ensures '\n' !in Scan(s).lines[i]
    decreases |s|
  {
    if i > 0 {
      ScannedLinesAreSingle(Rest(s), i - 1);
    }
  }

  // ---- Line by line ----

  function FlatMap<A, B>(f: A -> seq<B>, xs: seq<A>): seq<B> {
    if xs == [] then [] else f(xs[0]) + FlatMap(f, xs[1..])
  }

  lemma {:induction false} FlatMapNext<A, B>(f: A -> seq<B>, xs: seq<A>, i: nat)
    requires i < |xs|
    ensures FlatMap(f, xs[..i + 1]) == FlatMap(f, xs[..i]) + f(xs[i])
  {
    if i == 0 {
      assert xs[..1] == [xs[0]];
    } else {
      FlatMapNext(f, xs[1..], i - 1);
      assert xs[..i + 1][1..] == xs[1..][..i] && xs[..i][1..] == xs[1..][..i - 1];
    }
  }

  lemma FlatMapEnds<A, B>(f: A -> seq<B>, xs: seq<A>)
    ensures FlatMap(f, xs[..0]) == [] && FlatMap(f, xs[..|xs|]) == FlatMap(f, xs)
  {
    assert xs[..|xs|] == xs;
  }

  lemma HeadAndTail<A>(x: A, xs: seq<A>)
    ensures [x] + xs != [] && ([x] + xs)[0] == x && ([x] + xs)[1..] == xs
  {
  }

  lemma FlatMapCons<A, B>(f: A -> seq<B>, x: A, xs: seq<A>)
    ensures FlatMap(f, [x] + xs) == f(x) + FlatMap(f, xs)
  {
    assert ([x] + xs)[1..] == xs;
  }

  // ---- Decimal numbers ----

  function Decimal(n: int): string {
    if n < 0 then "-" + Digits(-n) else Digits(n)
  }

  predicate InRange(n: int) {
    -0x8000_0000_0000_0000 <= n < 0x8000_0000_0000_0000
  }

  function ParseInt(s: string): Option<int> {
    var signed := s != "" && (s[0] == '-' || s[0] == '+');
    var digits := if signed then s[1..] else s;
    if digits == "" || exists i :: 0 <= i < |digits| && !IsDigit(digits[i]) then None
    else
      var n: int := if signed && s[0] == '-' then -(Value(digits) as int) else Value(digits);
      if InRange(n) then Some(n) else None
  }

  lemma DecimalReadsBack(n: int)
    requires InRange(n)
    ensures ParseInt(Decimal(n)) == Some(n)
  {
    var digits := Digits(if n < 0 then -n else n);
    DigitsReadBack(if n < 0 then -n else n);
    assert IsDigit(digits[0]);
    if n < 0 {
      assert Decimal(n)[1..] == digits;
    }
  }

  lemma {:induction false} TrimKeeps(s: string)
    requires s != "" && !IsSpace(s[0]) && !IsSpace(s[|s| - 1])
    ensures TrimSpace(s) == s
  {
  }

  lemma {:induction false} DigitsAreShort(n: nat, width: nat)
    requires width > 0 && n < Power(width)
    ensures |Digits(n)| <= width
  {
    if n >= 10 {
      DigitsAreShort(n / 10, width - 1);
    }
  }

  function Power(width: nat): nat {
    if width == 0 then 1 else 10 * Power(width - 1)
  }

  lemma RangeIsShort(n: nat)
    requires n <= 0x8000_0000_0000_0000
    ensures n < Power(19)
  {
    assert Power(4) == 10_000;
    assert Power(8) == 100_000_000;
    assert Power(12) == 1_000_000_000_000;
    assert Power(16) == 10_000_000_000_000_000;
  }

  lemma HeaderIsPlain(n: int)
    requires InRange(n)
    ensures var h := Decimal(n); '\n' !in h && |h| <= 20 && DropCR(h) == h && TrimSpace(h) == h
  {
    var m: nat := if n < 0 then -n else n;
    RangeIsShort(m);
    DigitsAreShort(m, 19);
    DecimalChars(n);
    NumeralIsPlain(Decimal(n));
  }

  lemma DecimalChars(n: int)
    ensures Decimal(n) != "" && forall i :: 0 <= i < |Decimal(n)| ==> Decimal(n)[i] == '-' || IsDigit(Decimal(n)[i])
  {
  }

  lemma NumeralIsPlain(h: string)
    requires h != "" && forall i :: 0 <= i < |h| ==> h[i] == '-' || IsDigit(h[i])
    ensures '\n' !in h && DropCR(h) == h && TrimSpace(h) == h
  {
    assert !IsSpace(h[0]) && !IsSpace(h[|h| - 1]);
    TrimKeeps(h);
  }

  // ---- The copy ----

  function Entry(r: Rule): string {
    if r.suffix != "" then "d " + r.suffix + "\n"
    else if r.cidr != "" then "i " + r.cidr + "\n"
    else ""
  }

  function Body(rs: seq<Rule>): string {
    FlatMap(Entry, rs)
  }

  method SaveCache(rs: seq<Rule>, at: int) returns (text: string)
    ensures text == Decimal(at) + "\n" + Body(rs)
  {
    var header := Decimal(at) + "\n";
    var body := "";
    var i := 0;
    FlatMapEnds(Entry, rs);
    while i < |rs|
      invariant 0 <= i <= |rs|
      invariant body == FlatMap(Entry, rs[..i])
    {
      FlatMapNext(Entry, rs, i);
      var r := rs[i];
      if r.suffix != "" {
        body := body + ("d " + r.suffix + "\n");
      } else if r.cidr != "" {
        body := body + ("i " + r.cidr + "\n");
      }
      i := i + 1;
    }
    text := header + body;
  }

  /** What reading the copy yields: nothing usable, or its rules and time, and whether the scan got to the end. */
  datatype Loaded = Unusable | Cache(rules: seq<Rule>, at: int, complete: bool)

  function ParseLine(line: string): seq<Rule> {
    if |line| < 3 then []
    else if line[0] == 'd' then [Rule(line[2..], "", "", WG)]
    else if line[0] == 'i' then [Rule("", "", line[2..], WG)]
    else []
  }

  function ParseLines(lines: seq<string>): seq<Rule> {
    FlatMap(ParseLine, lines)
  }

  function Load(text: string): Loaded {
    FromScan(Scan(text))
  }

  function FromScan(scanned: Scanned): Loaded {
    if scanned.lines == [] then Unusable
    else match ParseInt(TrimSpace(scanned.lines[0]))
      case None => Unusable
      case Some(at) => Cache(ParseLines(scanned.lines[1..]), at, scanned.complete)
  }

  method LoadCache(text: string) returns (r: Loaded)
    ensures r == Load(text)
  {
    var scanned := Scan(text);
    if scanned.lines == [] {
      return Unusable;
    }
    var at := ParseInt(TrimSpace(scanned.lines[0]));
    if at.None? {
      return Unusable;
    }
    var lines := scanned.lines[1..];
    var out: seq<Rule> := [];
    var i := 0;
    FlatMapEnds(ParseLine, lines);
    while i < |lines|
      invariant 0 <= i <= |lines|
      invariant out == FlatMap(ParseLine, lines[..i])
    {
      FlatMapNext(ParseLine, lines, i);
      var line := lines[i];
      if |line| >= 3 {
        if line[0] == 'd' {
          out := out + [Rule(line[2..], "", "", WG)];
        } else if line[0] == 'i' {
          out := out + [Rule("", "", line[2..], WG)];
        }
      }
      i := i + 1;
    }
    return Cache(out, at.value, scanned.complete);
  }

  // ---- Downloads ----

  /** The entry a downloaded line carries: none if it is blank or a comment. */
  function EntryOf(raw: string): seq<string> {
    var line := TrimSpace(raw);
    if line == "" || line[0] == '#' then [] else [line]
  }

  function Entries(lines: seq<string>): seq<string> {
    FlatMap(EntryOf, lines)
  }

  function WithLength(ip: string): string {
    if '/' in ip then ip else ip + "/32"
  }

  function DomainRules(lines: seq<string>): seq<Rule> {
    seq(|lines|, i requires 0 <= i < |lines| => Rule(lines[i], "", "", WG))
  }

  function AddressRules(lines: seq<string>): seq<Rule> {
    seq(|lines|, i requires 0 <= i < |lines| => Rule("", "", WithLength(lines[i]), WG))
  }

  /** The rules fetched from the two lists, or none if either has a line the scanner cannot hold. */
  function Fetched(domains: string, ips: string): Option<seq<Rule>> {
    var d, i := Scan(domains), Scan(ips);
    if !d.complete || !i.complete then None
    else Some(DomainRules(Entries(d.lines)) + AddressRules(Entries(i.lines)))
  }

  method AddEntry(lines: seq<string>, raw: string) returns (r: seq<string>)
    ensures r == lines + EntryOf(raw)
  {
    r := lines;
    var line := TrimSpace(raw);
    if line != "" && line[0] != '#' {
      r := r + [line];
    }
  }

  method AddEntries(all: seq<string>) returns (lines: seq<string>)
    ensures lines == Entries(all)
  {
    lines := [];
    var i := 0;
    FlatMapEnds(EntryOf, all);
    while i < |all|
      invariant 0 <= i <= |all|
      invariant lines == FlatMap(EntryOf, all[..i])
    {
      FlatMapNext(EntryOf, all, i);
      lines := AddEntry(lines, all[i]);
      i := i + 1;
    }
  }

  method Download(body: string) returns (lines: seq<string>, ok: bool)
    ensures ok == Scan(body).complete && lines == Entries(Scan(body).lines)
  {
    var scanned := Scan(body);
    lines := AddEntries(scanned.lines);
    ok := scanned.complete;
  }

  method AddDomains(lines: seq<string>) returns (out: seq<Rule>)
    ensures out == DomainRules(lines)
  {
    out := [];
    for i := 0 to |lines|
      invariant |out| == i && forall j :: 0 <= j < i ==> out[j] == Rule(lines[j], "", "", WG)
    {
      out := out + [Rule(lines[i], "", "", WG)];
    }
  }

  method AddAddresses(lines: seq<string>) returns (out: seq<Rule>)
    ensures out == AddressRules(lines)
  {
    out := [];
    for i := 0 to |lines|
      invariant |out| == i && forall j :: 0 <= j < i ==> out[j] == Rule("", "", WithLength(lines[j]), WG)
    {
      var ip := lines[i];
      if '/' !in ip {
        ip := ip + "/32";
      }
      out := out + [Rule("", "", ip, WG)];
    }
  }

  method Fetch(domains: string, ips: string) returns (r: Option<seq<Rule>>)
    ensures r == Fetched(domains, ips)
  {
    var lines, ok := Download(domains);
    if !ok {
      return None;
    }
    var out := AddDomains(lines);
    lines, ok := Download(ips);
    if !ok {
      return None;
    }
    var more := AddAddresses(lines);
    return Some(out + more);
  }

  // ---- The round trip ----

  /** A field that survives a line of its own. */
  predicate Plain(s: string) {
    s != "" && '\n' !in s && s[|s| - 1] != '\r'
  }

  /** A rule the copy can hold: one plain field and the tunnel action. */
  predicate Cacheable(r: Rule) {
    && r.keyword == "" && r.action == WG
    && ((r.suffix == "" && Plain(r.cidr)) || (r.cidr == "" && Plain(r.suffix)))
  }

  /** The rule's printed line fits the scanner when it is read back. */
  predicate Fits(r: Rule) {
    2 + |r.suffix| + |r.cidr| < LIMIT
  }

  function LineOf(r: Rule): string {
    if r.suffix != "" then "d " + r.suffix else "i " + r.cidr
  }

  lemma EntryIsLine(r: Rule, rest: string)
    requires Cacheable(r)
    ensures Entry(r) + rest == LineOf(r) + "\n" + rest && |LineOf(r)| == 2 + |r.suffix| + |r.cidr|
  {
  }

  lemma LineIsPlain(mark: string, field: string)
    requires |mark| == 2 && '\n' !in mark && Plain(field)
    ensures '\n' !in mark + field && DropCR(mark + field) == mark + field
  {
    assert (mark + field)[|mark + field| - 1] == field[|field| - 1];
  }

  lemma LineParses(r: Rule)
    requires Cacheable(r)
    ensures ParseLine(LineOf(r)) == [r]
  {
    if r.suffix != "" {
      assert ("d " + r.suffix)[2..] == r.suffix;
    } else {
      assert ("i " + r.cidr)[2..] == r.cidr;
    }
  }

  /** What the two marks of the copy stand for. */
  lemma MarksAreRead(field: string)
    requires field != ""
    ensures ParseLine("d " + field) == [Rule(field, "", "", WG)] && ParseLine("i " + field) == [Rule("", "", field, WG)]
  {
    assert ("d " + field)[2..] == field && ("i " + field)[2..] == field;
  }

  lemma PrintedLineReadsBack(r: Rule, rest: string)
    requires Cacheable(r)
    ensures Scan(Entry(r) + rest) ==
              if Fits(r) then Scanned([LineOf(r)] + Scan(rest).lines, Scan(rest).complete) else Scanned([], false)
  {
    LineIsPlain(if r.suffix != "" then "d " else "i ", if r.suffix != "" then r.suffix else r.cidr);
    EntryIsLine(r, rest);
    ScanLine(LineOf(r), rest);
  }

  ghost predicate AllFit(rs: seq<Rule>) {
    forall i :: 0 <= i < |rs| ==> Fits(rs[i])
  }

  lemma AllFitCons(rs: seq<Rule>)
    requires rs != []
    ensures AllFit(rs) <==> Fits(rs[0]) && AllFit(rs[1..])
  {
    if Fits(rs[0]) && AllFit(rs[1..]) {
      forall i | 0 <= i < |rs| ensures Fits(rs[i]) {
        assert i == 0 || rs[i] == rs[1..][i - 1];
      }
    }
  }

  lemma {:induction false} BodyReadsBack(rs: seq<Rule>)
    requires forall i :: 0 <= i < |rs| ==> Cacheable(rs[i])
    ensures var r := Scan(Body(rs));
            (r.complete <==> AllFit(rs)) && (r.complete ==> ParseLines(r.lines) == rs) && ParseLines(r.lines) <= rs
  {
    if rs != [] {
      PrintedLineReadsBack(rs[0], Body(rs[1..]));
      LineParses(rs[0]);
      BodyReadsBack(rs[1..]);
      AllFitCons(rs);
      FlatMapCons(ParseLine, LineOf(rs[0]), Scan(Body(rs[1..])).lines);
      assert rs == [rs[0]] + rs[1..];
    }
  }

  /**
   Reading back what was printed returns the same rules, in order, and the same time, if and only if every
   printed line fits the scanner. Otherwise the read is marked incomplete and returns a prefix of the rules.
   */
  lemma CacheRoundTrip(rs: seq<Rule>, at: int)
    requires InRange(at) && forall i :: 0 <= i < |rs| ==> Cacheable(rs[i])
    ensures Load(Decimal(at) + "\n" + Body(rs)) == Cache(rs, at, true) <==> AllFit(rs)
    ensures var r := Load(Decimal(at) + "\n" + Body(rs));
            r.Cache? && r.at == at && r.rules <= rs && (r.complete <==> AllFit(rs))
  {
    HeaderIsPlain(at);
    DecimalReadsBack(at);
    LoadReads(Decimal(at), at, Body(rs));
    BodyReadsBack(rs);
  }

  lemma LoadReads(header: string, at: int, body: string)
    requires '\n' !in header && |header| < LIMIT && DropCR(header) == header && TrimSpace(header) == header
    requires ParseInt(header) == Some(at)
    ensures Load(header + "\n" + body) == Cache(ParseLines(Scan(body).lines), at, Scan(body).complete)
  {
    ScanLine(header, body);
    FromScanReads(header, at, Scan(body));
  }

  lemma FromScanReads(header: string, at: int, rest: Scanned)
    requires TrimSpace(header) == header && ParseInt(header) == Some(at)
    ensures FromScan(Scanned([header] + rest.lines, rest.complete)) == Cache(ParseLines(rest.lines), at, rest.complete)
  {
    HeadAndTail(header, rest.lines);
  }

  lemma TrimmedIsPlain(s: string)
    requires '\n' !in s && TrimSpace(s) != ""
    ensures Plain(TrimSpace(s))
  {
    var l := TrimLeft(s);
    var t := TrimSpace(s);
    assert forall i :: 0 <= i < |t| ==> t[i] == l[i] && l[i] == s[|s| - |l| + i];
  }

  lemma {:induction false} EntriesArePlain(lines: seq<string>, e: string)
    requires forall i :: 0 <= i < |lines| ==> '\n' !in lines[i]
    requires e in Entries(lines)
    ensures Plain(e)
  {
    if e == TrimSpace(lines[0]) && e != "" {
      TrimmedIsPlain(lines[0]);
    } else {
      EntriesArePlain(lines[1..], e);
    }
  }

  /** Every rule a fetch produces can be held by the copy. */
  lemma FetchedAreCacheable(domains: string, ips: string)
    requires Fetched(domains, ips).Some?
    ensures var rs := Fetched(domains, ips).value; forall i :: 0 <= i < |rs| ==> Cacheable(rs[i])
  {
    DownloadedArePlain(domains);
    DownloadedArePlain(ips);
    PlainLinesMakeCacheable(Entries(Scan(domains).lines), Entries(Scan(ips).lines));
  }

  lemma PlainLinesMakeCacheable(domains: seq<string>, ips: seq<string>)
    requires forall i :: 0 <= i < |domains| ==> Plain(domains[i])
    requires forall i :: 0 <= i < |ips| ==> Plain(ips[i])
    ensures var rs := DomainRules(domains) + AddressRules(ips); forall i :: 0 <= i < |rs| ==> Cacheable(rs[i])
  {
  }

  lemma DownloadedArePlain(body: string)
    ensures forall i :: 0 <= i < |Entries(Scan(body).lines)| ==> Plain(Entries(Scan(body).lines)[i])
  {
    var lines := Scan(body).lines;
    forall i | 0 <= i < |lines| ensures '\n' !in lines[i] {
      ScannedLinesAreSingle(body, i);
    }
    forall i | 0 <= i < |Entries(lines)| ensures Plain(Entries(lines)[i]) {
      EntriesArePlain(lines, Entries(lines)[i]);
    }
  }

  /** Download, print and read back: the lists come back unchanged if and only if every printed line fits. */
  lemma FetchedListsSurvive(domains: string, ips: string, at: int)
    requires InRange(at) && Fetched(domains, ips).Some?
    ensures var rs := Fetched(domains, ips).value;
            Load(Decimal(at) + "\n" + Body(rs)) == Cache(rs, at, true) <==> AllFit(rs)
  {
    FetchedAreCacheable(domains, ips);
    CacheRoundTrip(Fetched(domains, ips).value, at);
  }

  lemma {:induction false} NoNewlineAt(line: string)
    requires '\n' !in line
    ensures NewlineAt(line) == |line|
  {
  }

  lemma ScanOneLine(line: string)
    requires '\n' !in line && line != "" && |line| < LIMIT
    ensures Scan(line) == Scanned([DropCR(line)], true)
  {
    NoNewlineAt(line);
    assert line[..|line|] == line;
    assert Scan(Rest(line)) == Scanned([], true);
  }

  /** A line the download accepts can be two characters too long for the copy, which is then incomplete. */
  lemma LongestLineIsLost(line: string, at: int)
    requires InRange(at) && |line| == LIMIT - 1 && forall i :: 0 <= i < |line| ==> 'a' <= line[i] <= 'z'
    ensures Fetched(line, "") == Some([Rule(line, "", "", WG)])
    ensures var r := Load(Decimal(at) + "\n" + Body([Rule(line, "", "", WG)])); r.Cache? && !r.complete
  {
    assert 'a' <= line[0] <= 'z' && 'a' <= line[|line| - 1] <= 'z';
    ScanOneLine(line);
    TrimKeeps(line);
    FlatMapCons(EntryOf, line, []);
    assert [line] + [] == [line] && Entries([line]) == [line];
    var rs := [Rule(line, "", "", WG)];
    assert DomainRules([line]) + AddressRules([]) == rs;
    assert !Fits(rs[0]);
    CacheRoundTrip(rs, at);
  }
}
