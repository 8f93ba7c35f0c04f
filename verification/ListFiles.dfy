/**
 The lists as they are published: a text of one entry a line, with comments, blank lines and any white space around
 (internal/lists/refilter.go, download and fetch). They are written here, and what a fetch makes of them is proved.
 */
module ListFiles {
  import opened Basics
  import opened Rules
  import opened Text
  import opened ListCache

  datatype Line = Item(before: string, field: string, after: string) | Comment(before: string, text: string) | Blank(space: string)

  function LineText(l: Line): string {
    match l
    case Item(before, field, after) => before + field + after
    case Comment(before, text) => before + "#" + text
    case Blank(space) => space
  }

  predicate WellFormed(l: Line) {
    && '\n' !in LineText(l)
    && match l
       case Item(before, field, after) => Pads(LineText(l), before, field, after) && field != "" && field[0] != '#'
       case Comment(before, _) => Spaces(before)
       case Blank(space) => Spaces(space)
  }

  ghost predicate AllWellFormed(ls: seq<Line>) {
    forall i :: 0 <= i < |ls| ==> WellFormed(ls[i])
  }

  function ListText(ls: seq<Line>): string {
    if ls == [] then "" else LineText(ls[0]) + "\n" + ListText(ls[1..])
  }

  function ItemOf(l: Line): seq<string> {
    if l.Item? then [l.field] else []
  }

  function Items(ls: seq<Line>): seq<string> {
    FlatMap(ItemOf, ls)
  }

  /** Every line fits the scanner's buffer. */
  ghost predicate AllFitScanner(ls: seq<Line>) {
    forall i :: 0 <= i < |ls| ==> |LineText(ls[i])| < LIMIT
  }

  lemma CRIsTrimmed(s: string)
    ensures TrimSpace(DropCR(s)) == TrimSpace(s)
  {
    if s != "" && s[|s| - 1] == '\r' {
      var t := TrimSpace(DropCR(s));
      TrimIsTheMiddle(DropCR(s), t);
      var a, b :| Pads(DropCR(s), a, t, b);
      assert s == DropCR(s) + "\r";
      assert Pads(s, a, t, b + "\r");
      TrimIsTheMiddle(s, t);
    }
  }

  lemma SomethingStays(s: string)
    requires s != "" && !IsSpace(s[0])
    ensures TrimRight(s) != "" && TrimRight(s)[0] == s[0]
  {
    var b := TrimRightSplits(s);
    assert s[0] == (TrimRight(s) + b)[0];
  }

  lemma CommentIsSkipped(before: string, text: string)
    requires Spaces(before)
    ensures EntryOf(before + "#" + text) == []
  {
    assert before + "#" + text == before + ("#" + text);
    TrimLeftDrops(before, "#" + text);
    SomethingStays("#" + text);
  }

  lemma LineIsRead(l: Line)
    requires WellFormed(l)
    ensures EntryOf(DropCR(LineText(l))) == ItemOf(l)
  {
    CRIsDropped(LineText(l));
    match l
    case Item(before, field, after) => ItemIsRead(LineText(l), before, field, after);
    case Comment(before, text) => CommentIsSkipped(before, text);
    case Blank(space) => BlankIsSkipped(space);
  }

  lemma CRIsDropped(s: string)
    ensures EntryOf(DropCR(s)) == EntryOf(s)
  {
    CRIsTrimmed(s);
  }

  lemma ItemIsRead(s: string, before: string, field: string, after: string)
    requires Pads(s, before, field, after) && field != "" && field[0] != '#'
    ensures EntryOf(s) == [field]
  {
    PaddedTrims(s, before, field, after);
  }

  lemma BlankIsSkipped(s: string)
    requires Spaces(s)
    ensures EntryOf(s) == []
  {
    assert Pads(s, s, "", "");
    PaddedTrims(s, s, "", "");
  }

  lemma {:induction false} ScanOfList(ls: seq<Line>)
    requires AllWellFormed(ls)
    ensures var r := Scan(ListText(ls));
            (r.complete <==> AllFitScanner(ls)) && (r.complete ==> Entries(r.lines) == Items(ls))
  {
    if ls != [] {
      ScanLine(LineText(ls[0]), ListText(ls[1..]));
      ScanOfList(ls[1..]);
      FitCons(ls);
      LineIsRead(ls[0]);
      FlatMapCons(EntryOf, DropCR(LineText(ls[0])), Scan(ListText(ls[1..])).lines);
    }
  }

  lemma FitCons(ls: seq<Line>)
    requires ls != []
    ensures AllFitScanner(ls) <==> |LineText(ls[0])| < LIMIT && AllFitScanner(ls[1..])
  {
    if |LineText(ls[0])| < LIMIT && AllFitScanner(ls[1..]) {
      forall i | 0 <= i < |ls| ensures |LineText(ls[i])| < LIMIT {
        assert i == 0 || ls[i] == ls[1..][i - 1];
      }
    }
  }

  /** An address, or a prefix with its length. */
  datatype Address = Single(ip: string) | Range(ip: string, length: nat)

  function AddressText(a: Address): string {
    match a
    case Single(ip) => ip
    case Range(ip, length) => ip + "/" + Digits(length)
  }

  function LengthOf(a: Address): nat {
    if a.Single? then 32 else a.length
  }

  lemma AddressGetsLength(a: Address)
    requires '/' !in a.ip
    ensures WithLength(AddressText(a)) == a.ip + "/" + Digits(LengthOf(a))
  {
    assert Digits(3) == "3" && Digits(32) == Digits(3) + "2";
    assert a.Range? ==> AddressText(a)[|a.ip|] == '/';
  }

  /** The items of the address list are the texts of these addresses. */
  ghost predicate Lists(items: seq<string>, addresses: seq<Address>) {
    && |items| == |addresses|
    && forall i :: 0 <= i < |items| ==> '/' !in addresses[i].ip && items[i] == AddressText(addresses[i])
  }

  /** One tunnel rule for each domain, then one for each address, in their order; an address without a length stands for itself. */
  ghost predicate RulesFor(rs: seq<Rule>, domains: seq<string>, addresses: seq<Address>) {
    && |rs| == |domains| + |addresses|
    && (forall i :: 0 <= i < |domains| ==> rs[i] == Rule(domains[i], "", "", WG))
    && (forall i :: 0 <= i < |addresses| ==>
          rs[|domains| + i] == Rule("", "", addresses[i].ip + "/" + Digits(LengthOf(addresses[i])), WG))
  }

  /**
   What a fetch makes of two published lists: nothing at all if some line of either is too long, and otherwise exactly the
   rules for the domains and the addresses written there.
   */
  lemma FetchReadsLists(domains: seq<Line>, ips: seq<Line>, addresses: seq<Address>)
    requires AllWellFormed(domains) && AllWellFormed(ips) && Lists(Items(ips), addresses)
    ensures Fetched(ListText(domains), ListText(ips)).Some? <==> AllFitScanner(domains) && AllFitScanner(ips)
    ensures Fetched(ListText(domains), ListText(ips)).Some? ==>
              RulesFor(Fetched(ListText(domains), ListText(ips)).value, Items(domains), addresses)
  {
    ScanOfList(domains);
    ScanOfList(ips);
    var d, i, ds, items := ListText(domains), ListText(ips), Items(domains), Items(ips);
    FetchOfScans(d, i, ds, items, AllFitScanner(domains) && AllFitScanner(ips));
    RulesOfItems(ds, items, addresses);
  }

  lemma FetchOfScans(d: string, i: string, ds: seq<string>, items: seq<string>, fit: bool)
    requires fit <==> Scan(d).complete && Scan(i).complete
    requires fit ==> Entries(Scan(d).lines) == ds && Entries(Scan(i).lines) == items
    ensures Fetched(d, i) == if fit then Some(DomainRules(ds) + AddressRules(items)) else None
  {
  }

  lemma RulesOfItems(ds: seq<string>, items: seq<string>, addresses: seq<Address>)
    requires Lists(items, addresses)
    ensures RulesFor(DomainRules(ds) + AddressRules(items), ds, addresses)
  {
    forall i | 0 <= i < |addresses|
      ensures WithLength(items[i]) == addresses[i].ip + "/" + Digits(LengthOf(addresses[i]))
    {
      AddressGetsLength(addresses[i]);
    }
  }
}
