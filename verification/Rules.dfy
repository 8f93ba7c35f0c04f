/**
 The destination rules (internal/rules/engine.go): a list of rules is compiled into an index, and the index
 must answer as a scan of the list would.
 Address literals and prefixes are parsed by the network library; they appear as whatever it returns.
 */
module Rules {
  import opened Basics
  import opened Text

  datatype Action = Direct | WG

  /** One condition; the first non-empty field is the one that counts. */
  datatype Rule = Rule(suffix: string, keyword: string, cidr: string, action: Action)

  type Addr = nat
  type Prefix = nat

  datatype Net = Net(parseAddr: string -> Option<Addr>, parsePrefix: string -> Option<Prefix>, contains: (Prefix, Addr) -> bool)

  datatype Matcher = Matcher(suffixes: map<string, Action>, keywords: seq<Rule>, cidrs: seq<(Prefix, Action)>)

  function Key(suffix: string): string {
    Lower(if HasPrefix(suffix, ".") then suffix[1..] else suffix)
  }

  // ---- The index ----

  function Add(net: Net, m: Matcher, r: Rule): Matcher {
    if r.suffix != "" then
      if Key(r.suffix) in m.suffixes then m else m.(suffixes := m.suffixes[Key(r.suffix) := r.action])
    else if r.keyword != "" then
      m.(keywords := m.keywords + [r])
    else if r.cidr != "" && net.parsePrefix(r.cidr).Some? then
      m.(cidrs := m.cidrs + [(net.parsePrefix(r.cidr).value, r.action)])
    else m
  }

  function Compile(net: Net, rs: seq<Rule>): Matcher {
    if rs == [] then Matcher(map[], [], []) else Add(net, Compile(net, rs[..|rs| - 1]), rs[|rs| - 1])
  }

  method CompileRules(net: Net, rs: seq<Rule>) returns (m: Matcher)
    ensures m == Compile(net, rs)
  {
    m := Matcher(map[], [], []);
    var i := 0;
    while i < |rs|
      invariant 0 <= i <= |rs|
      invariant m == Compile(net, rs[..i])
    {
      assert rs[..i + 1][..i] == rs[..i];
      var r := rs[i];
      if r.suffix != "" {
        var key := Key(r.suffix);
        if key !in m.suffixes {
          m := m.(suffixes := m.suffixes[key := r.action]);
        }
      } else if r.keyword != "" {
        m := m.(keywords := m.keywords + [r]);
      } else if r.cidr != "" {
        var p := net.parsePrefix(r.cidr);
        if p.Some? {
          m := m.(cidrs := m.cidrs + [(p.value, r.action)]);
        }
      }
      i := i + 1;
    }
    assert rs[..|rs|] == rs;
  }

  /** The position of the first dot, or the length. */
  function DotAt(name: string): (i: nat)
    ensures i <= |name| && (i < |name| ==> name[i] == '.')
    ensures forall j :: 0 <= j < i ==> name[j] != '.'
  {
    if name == "" || name[0] == '.' then 0 else 1 + DotAt(name[1..])
  }

  /** The answer for the longest of name's suffixes at a dot that the index holds. */
  function LookUp(suffixes: map<string, Action>, name: string): Option<Action>
    decreases |name|
  {
    if name == "" then None
    else if name in suffixes then Some(suffixes[name])
    else if DotAt(name) == |name| then None
    else LookUp(suffixes, name[DotAt(name) + 1..])
  }

  function FirstKeyword(keywords: seq<Rule>, host: string): Option<Action> {
    if keywords == [] then None
    else if Contains(host, keywords[0].keyword) then Some(keywords[0].action)
    else FirstKeyword(keywords[1..], host)
  }

  function FirstPrefix(net: Net, cidrs: seq<(Prefix, Action)>, ip: Addr): Option<Action> {
    if cidrs == [] then None
    else if net.contains(cidrs[0].0, ip) then Some(cidrs[0].1)
    else FirstPrefix(net, cidrs[1..], ip)
  }

  function Answer(net: Net, m: Matcher, host: string): Option<Action> {
    match net.parseAddr(host)
    case Some(ip) => FirstPrefix(net, m.cidrs, ip)
    case None =>
      var bySuffix := LookUp(m.suffixes, host);
      if bySuffix.Some? then bySuffix else FirstKeyword(m.keywords, host)
  }

  method Match(net: Net, m: Matcher, host: string) returns (r: Option<Action>)
    ensures r == Answer(net, m, host)
  {
    var ip := net.parseAddr(host);
    if ip.Some? {
      var i := 0;
      while i < |m.cidrs|
        invariant 0 <= i <= |m.cidrs|
        invariant FirstPrefix(net, m.cidrs, ip.value) == FirstPrefix(net, m.cidrs[i..], ip.value)
      {
        if net.contains(m.cidrs[i].0, ip.value) {
          return Some(m.cidrs[i].1);
        }
        i := i + 1;
      }
      return None;
    }
    var name := host;
    while name != ""
      invariant LookUp(m.suffixes, host) == LookUp(m.suffixes, name)
      decreases |name|
    {
      if name in m.suffixes {
        return Some(m.suffixes[name]);
      }
      var i := DotAt(name);
      if i == |name| {
        break;
      }
      name := name[i + 1..];
    }
    var i := 0;
    while i < |m.keywords|
      invariant 0 <= i <= |m.keywords|
      invariant FirstKeyword(m.keywords, host) == FirstKeyword(m.keywords[i..], host)
    {
      if Contains(host, m.keywords[i].keyword) {
        return Some(m.keywords[i].action);
      }
      i := i + 1;
    }
    return None;
  }

  // ---- The list, read naively ----

  /** key is all of host, or what follows one of its dots. */
  predicate AtDot(key: string, host: string) {
    && key != "" && HasSuffix(host, key)
    && (|key| == |host| || host[|host| - |key| - 1] == '.')
  }

  predicate CoversDomain(r: Rule, host: string) {
    r.suffix != "" && AtDot(Key(r.suffix), host)
  }

  /** The longest covering suffix wins; among equal ones, the earliest rule. */
  ghost predicate SuffixWinner(rs: seq<Rule>, host: string, i: nat) {
    && i < |rs| && CoversDomain(rs[i], host)
    && forall j :: 0 <= j < |rs| && CoversDomain(rs[j], host) ==>
                     || |Key(rs[j].suffix)| < |Key(rs[i].suffix)|
                     || (|Key(rs[j].suffix)| == |Key(rs[i].suffix)| && i <= j)
  }

  predicate KeywordHits(r: Rule, host: string) {
    r.suffix == "" && r.keyword != "" && Contains(host, r.keyword)
  }

  predicate CidrHits(net: Net, r: Rule, ip: Addr) {
    && r.suffix == "" && r.keyword == "" && r.cidr != ""
    && net.parsePrefix(r.cidr).Some? && net.contains(net.parsePrefix(r.cidr).value, ip)
  }

  ghost predicate First(rs: seq<Rule>, hits: Rule -> bool, i: nat) {
    i < |rs| && hits(rs[i]) && forall j :: 0 <= j < i ==> !hits(rs[j])
  }

  /** Rule i of the list decides host. */
  ghost predicate Winner(net: Net, rs: seq<Rule>, host: string, i: nat) {
    match net.parseAddr(host)
    case Some(ip) => First(rs, r => CidrHits(net, r, ip), i)
    case None =>
      || SuffixWinner(rs, host, i)
      || ((forall j :: 0 <= j < |rs| ==> !CoversDomain(rs[j], host)) && First(rs, r => KeywordHits(r, host), i))
  }

  lemma WinnerIsUnique(net: Net, rs: seq<Rule>, host: string, i: nat, j: nat)
    requires Winner(net, rs, host, i) && Winner(net, rs, host, j)
    ensures i == j
  {
  }

  // ---- Refinement ----

  predicate HasKey(r: Rule, key: string) {
    r.suffix != "" && Key(r.suffix) == key
  }

  /** Rule i is the earliest with the key. */
  predicate FirstWithKey(rs: seq<Rule>, key: string, i: nat) {
    i < |rs| && HasKey(rs[i], key) && forall j :: 0 <= j < i ==> !HasKey(rs[j], key)
  }

  lemma FirstStaysFirst(rs: seq<Rule>, key: string, i: nat)
    requires rs != [] && FirstWithKey(rs[..|rs| - 1], key, i)
    ensures FirstWithKey(rs, key, i) && rs[i] == rs[..|rs| - 1][i]
  {
    assert forall j :: 0 <= j <= i ==> rs[j] == rs[..|rs| - 1][j];
  }

  lemma SuffixAdded(net: Net, m: Matcher, r: Rule, key: string)
    ensures var s := Add(net, m, r).suffixes;
            && (key in s <==> key in m.suffixes || HasKey(r, key))
            && (key in s ==> s[key] == if key in m.suffixes then m.suffixes[key] else r.action)
  {
  }

  /** The key's entry comes from the earliest rule with that key. */
  lemma {:induction false} SuffixEntries(net: Net, rs: seq<Rule>, key: string)
    ensures var s := Compile(net, rs).suffixes;
            && (key in s ==> exists i: nat :: FirstWithKey(rs, key, i) && s[key] == rs[i].action)
            && (key !in s ==> forall i :: 0 <= i < |rs| ==> !HasKey(rs[i], key))
  {
    if rs != [] {
      var was, r := rs[..|rs| - 1], rs[|rs| - 1];
      SuffixEntries(net, was, key);
      SuffixAdded(net, Compile(net, was), r, key);
      if key in Compile(net, was).suffixes {
        var i: nat :| FirstWithKey(was, key, i) && Compile(net, was).suffixes[key] == was[i].action;
        FirstStaysFirst(rs, key, i);
      } else {
        assert forall j :: 0 <= j < |was| ==> rs[j] == was[j];
        assert HasKey(r, key) ==> FirstWithKey(rs, key, |was|);
      }
    }
  }

  lemma {:induction false} KeywordAppended(ks: seq<Rule>, k: Rule, host: string)
    ensures FirstKeyword(ks + [k], host) ==
              if FirstKeyword(ks, host).Some? then FirstKeyword(ks, host)
              else if Contains(host, k.keyword) then Some(k.action) else None
  {
    if ks == [] {
      assert ks + [k] == [k];
    } else {
      assert (ks + [k])[1..] == ks[1..] + [k];
      KeywordAppended(ks[1..], k, host);
    }
  }

  lemma {:induction false} PrefixAppended(net: Net, cs: seq<(Prefix, Action)>, c: (Prefix, Action), ip: Addr)
    ensures FirstPrefix(net, cs + [c], ip) ==
              if FirstPrefix(net, cs, ip).Some? then FirstPrefix(net, cs, ip)
              else if net.contains(c.0, ip) then Some(c.1) else None
  {
    if cs == [] {
      assert cs + [c] == [c];
    } else {
      assert (cs + [c])[1..] == cs[1..] + [c];
      PrefixAppended(net, cs[1..], c, ip);
    }
  }

  /** r is the action of the first rule that hits, if any does. */
  ghost predicate ScanResult(rs: seq<Rule>, hits: Rule -> bool, r: Option<Action>) {
    && (r.Some? ==> exists i: nat :: First(rs, hits, i) && rs[i].action == r.value)
    && (r.None? ==> forall i :: 0 <= i < |rs| ==> !hits(rs[i]))
  }

  lemma ScanExtends(rs: seq<Rule>, hits: Rule -> bool, r: Option<Action>)
    requires rs != [] && ScanResult(rs[..|rs| - 1], hits, r)
    ensures ScanResult(rs, hits, if r.Some? then r else if hits(rs[|rs| - 1]) then Some(rs[|rs| - 1].action) else None)
  {
    var was := rs[..|rs| - 1];
    assert forall j :: 0 <= j < |was| ==> rs[j] == was[j];
    if r.Some? {
      var i: nat :| First(was, hits, i) && was[i].action == r.value;
      assert First(rs, hits, i);
    } else if hits(rs[|rs| - 1]) {
      assert First(rs, hits, |rs| - 1);
    }
  }

  lemma {:induction false} KeywordsScan(net: Net, rs: seq<Rule>, host: string)
    ensures ScanResult(rs, r => KeywordHits(r, host), FirstKeyword(Compile(net, rs).keywords, host))
  {
    if rs != [] {
      KeywordsScan(net, rs[..|rs| - 1], host);
      var m := Compile(net, rs[..|rs| - 1]);
      ScanExtends(rs, r => KeywordHits(r, host), FirstKeyword(m.keywords, host));
      KeywordAppended(m.keywords, rs[|rs| - 1], host);
    }
  }

  lemma {:induction false} PrefixesScan(net: Net, rs: seq<Rule>, ip: Addr)
    ensures ScanResult(rs, r => CidrHits(net, r, ip), FirstPrefix(net, Compile(net, rs).cidrs, ip))
  {
    if rs != [] {
      PrefixesScan(net, rs[..|rs| - 1], ip);
      var m := Compile(net, rs[..|rs| - 1]);
      var r := rs[|rs| - 1];
      ScanExtends(rs, r => CidrHits(net, r, ip), FirstPrefix(net, m.cidrs, ip));
      if r.cidr != "" && net.parsePrefix(r.cidr).Some? {
        PrefixAppended(net, m.cidrs, (net.parsePrefix(r.cidr).value, r.action), ip);
      }
    }
  }

  /** Below the first dot nothing is lost: every proper suffix at a dot is one of what follows the first dot. */
  lemma ShorterKeysSurvive(key: string, name: string)
    requires AtDot(key, name) && key != name
    ensures DotAt(name) < |name| && AtDot(key, name[DotAt(name) + 1..])
  {
    var d := |name| - |key| - 1;
    assert name[d] == '.';
    var rest := name[DotAt(name) + 1..];
    assert rest[|rest| - |key|..] == name[|name| - |key|..];
  }

  lemma RestKeyIsKey(name: string, d: nat, key: string)
    requires d <= |name| && AtDot(key, name[d..])
    requires d > 0 ==> name[d - 1] == '.'
    ensures AtDot(key, name)
  {
    var rest := name[d..];
    assert name[|name| - |key|..] == rest[|rest| - |key|..];
  }

  /** The lookup finds the longest key of the index at a dot of the name. */
  lemma {:induction false} LookUpFindsLongest(suffixes: map<string, Action>, name: string)
    ensures var r := LookUp(suffixes, name);
            && (r.Some? ==> exists key :: key in suffixes && AtDot(key, name) && suffixes[key] == r.value
                             && forall k :: k in suffixes && AtDot(k, name) ==> |k| <= |key|)
            && (r.None? ==> forall k :: k in suffixes ==> !AtDot(k, name))
    decreases |name|
  {
    if name == "" {
    } else if name in suffixes {
      assert AtDot(name, name);
    } else {
      forall k | k in suffixes && AtDot(k, name)
        ensures DotAt(name) < |name| && AtDot(k, name[DotAt(name) + 1..])
      {
        ShorterKeysSurvive(k, name);
      }
      if DotAt(name) < |name| {
        LookUpFindsLongest(suffixes, name[DotAt(name) + 1..]);
        forall k | AtDot(k, name[DotAt(name) + 1..]) ensures AtDot(k, name) {
          RestKeyIsKey(name, DotAt(name) + 1, k);
        }
      }
    }
  }

  lemma SameLengthSameKey(a: string, b: string, host: string)
    requires AtDot(a, host) && AtDot(b, host) && |a| == |b|
    ensures a == b
  {
  }

  /** For domains: the suffix index answers as the scan for the longest covering suffix. */
  lemma SuffixesScan(net: Net, rs: seq<Rule>, host: string)
    ensures var r := LookUp(Compile(net, rs).suffixes, host);
            && (r.Some? ==> exists i: nat :: SuffixWinner(rs, host, i) && rs[i].action == r.value)
            && (r.None? ==> forall i :: 0 <= i < |rs| ==> !CoversDomain(rs[i], host))
  {
    var s := Compile(net, rs).suffixes;
    LookUpFindsLongest(s, host);
    forall i | 0 <= i < |rs| && CoversDomain(rs[i], host) ensures Key(rs[i].suffix) in s {
      SuffixEntries(net, rs, Key(rs[i].suffix));
      assert HasKey(rs[i], Key(rs[i].suffix));
    }
    if LookUp(s, host).Some? {
      var key :| key in s && AtDot(key, host) && s[key] == LookUp(s, host).value
                 && forall k :: k in s && AtDot(k, host) ==> |k| <= |key|;
      SuffixEntries(net, rs, key);
      var i: nat :| FirstWithKey(rs, key, i) && s[key] == rs[i].action;
      forall j | 0 <= j < |rs| && CoversDomain(rs[j], host) && |Key(rs[j].suffix)| == |key| ensures i <= j {
        SameLengthSameKey(Key(rs[j].suffix), key, host);
        assert HasKey(rs[j], key);
      }
      assert SuffixWinner(rs, host, i);
    }
  }

  /** The index answers exactly as the list does: with the winning rule's action, or not at all when no rule wins. */
  lemma IndexRefinesScan(net: Net, rs: seq<Rule>, host: string)
    ensures var r := Answer(net, Compile(net, rs), host);
            && (r.Some? ==> exists i: nat :: Winner(net, rs, host, i) && rs[i].action == r.value)
            && (r.None? ==> forall i: nat :: !Winner(net, rs, host, i))
  {
    match net.parseAddr(host)
    case Some(ip) => PrefixesScan(net, rs, ip);
    case None =>
      SuffixesScan(net, rs, host);
      KeywordsScan(net, rs, host);
  }

  // ---- The engine ----

  function Normalized(host: string): string {
    Lower(if HasSuffix(host, ".") then host[..|host| - 1] else host)
  }

  /** The host is the domain, or what follows one of its dots is; case does not matter. */
  predicate InDomain(host: string, d: string) {
    || SameLetters(host, d)
    || (|host| > |d| && host[|host| - |d| - 1] == '.' && SameLetters(host[|host| - |d|..], d))
  }

  lemma LowerSuffix(s: string, i: nat)
    requires i <= |s|
    ensures Lower(s)[i..] == Lower(s[i..])
  {
  }

  lemma DotsStay(s: string, i: int)
    ensures 0 <= i < |s| ==> (Lower(s)[i] == '.' <==> s[i] == '.')
  {
  }

  lemma AtDotMeansInDomain(d: string, host: string)
    requires d != ""
    ensures AtDot(Lower(d), Lower(host)) <==> InDomain(host, d)
  {
    if |host| >= |d| {
      var end := host[|host| - |d|..];
      LowerSuffix(host, |host| - |d|);
      LowerForgetsCase(end, d);
      DotsStay(host, |host| - |d| - 1);
      assert |host| == |d| ==> end == host;
    }
  }

  /**
   What a domain rule covers, as the user writes it: with or without a dot in front, in any case, it covers the domain
   itself and every name below it, and no other; the host may end with the root's dot.
   */
  lemma DomainRuleCovers(r: Rule, d: string, host: string, raw: string)
    requires d != "" && d[0] != '.' && (r.suffix == d || r.suffix == "." + d)
    requires !HasSuffix(host, ".") && (raw == host || raw == host + ".")
    ensures CoversDomain(r, Normalized(raw)) <==> InDomain(host, d)
  {
    assert ("." + d)[1..] == d;
    assert HasPrefix("." + d, ".");
    assert d <= d && !HasPrefix(d, ".");
    assert raw == host + "." ==> raw[..|raw| - 1] == host && HasSuffix(raw, ".");
    assert Key(r.suffix) == Lower(d) && Normalized(raw) == Lower(host);
    AtDotMeansInDomain(d, host);
  }

  /** The rule of the list that decides, if any. */
  ghost predicate Decided(net: Net, rs: seq<Rule>, host: string, a: Action) {
    exists i: nat :: Winner(net, rs, host, i) && rs[i].action == a
  }

  /** A manual rule answers before any fetched one, whatever its shape, and the default answers last. */
  ghost predicate RightDecision(net: Net, manual: seq<Rule>, list: seq<Rule>, def: Action, host: string, a: Action) {
    || Decided(net, manual, host, a)
    || ((forall i: nat :: !Winner(net, manual, host, i)) && Decided(net, list, host, a))
    || ((forall i: nat :: !Winner(net, manual, host, i)) && (forall i: nat :: !Winner(net, list, host, i)) && a == def)
  }

  lemma OneRightDecision(net: Net, manual: seq<Rule>, list: seq<Rule>, def: Action, host: string, a: Action, b: Action)
    requires RightDecision(net, manual, list, def, host, a) && RightDecision(net, manual, list, def, host, b)
    ensures a == b
  {
    forall i: nat, j: nat | Winner(net, manual, host, i) && Winner(net, manual, host, j) ensures i == j {
      WinnerIsUnique(net, manual, host, i, j);
    }
    forall i: nat, j: nat | Winner(net, list, host, i) && Winner(net, list, host, j) ensures i == j {
      WinnerIsUnique(net, list, host, i, j);
    }
  }

  /** The rules in force, and the compiled pair that deciding reads. */
  class Engine {
    const net: Net
    const def: Action
    var manual: seq<Rule>
    var list: seq<Rule>
    var current: (Matcher, Matcher)

    ghost predicate Valid()
      reads this
    {
      current == (Compile(net, manual), Compile(net, list))
    }

    constructor (net: Net, def: Action)
      ensures Valid() && this.net == net && this.def == def && manual == [] && list == []
    {
      this.net, this.def := net, def;
      manual, list := [], [];
      current := (Matcher(map[], [], []), Matcher(map[], [], []));
    }

    /** Publishes what the current rules compile to, whatever was published before. */
    method Rebuild()
      modifies this`current
      ensures Valid()
    {
      var m := CompileRules(net, manual);
      var l := CompileRules(net, list);
      current := (m, l);
    }

    method SetManual(r: seq<Rule>)
      modifies this`manual, this`current
      ensures Valid() && manual == r
    {
      manual := r;
      Rebuild();
    }

    method SetList(r: seq<Rule>)
      modifies this`list, this`current
      ensures Valid() && list == r
    {
      list := r;
      Rebuild();
    }

    method Decide(host: string) returns (a: Action)
      requires Valid()
      ensures RightDecision(net, manual, list, def, Normalized(host), a)
    {
      var h := Normalized(host);
      IndexRefinesScan(net, manual, h);
      IndexRefinesScan(net, list, h);
      var r := Match(net, current.0, h);
      if r.Some? {
        return r.value;
      }
      r := Match(net, current.1, h);
      if r.Some? {
        return r.value;
      }
      return def;
    }
  }

  // ---- Publishing under a lock ----

  /** Setters store their rules in one critical section and rebuild in another; pending are those in between. */
  datatype Shared = Shared(manual: seq<Rule>, list: seq<Rule>, published: (seq<Rule>, seq<Rule>), pending: set<nat>)

  datatype Section = StoreManual(t: nat, r: seq<Rule>) | StoreList(t: nat, r: seq<Rule>) | Publish(t: nat)

  function Run(s: Shared, secs: seq<Section>): Shared {
    if secs == [] then s
    else
      var was := Run(s, secs[..|secs| - 1]);
      match secs[|secs| - 1]
      case StoreManual(t, r) => was.(manual := r, pending := was.pending + {t})
      case StoreList(t, r) => was.(list := r, pending := was.pending + {t})
      case Publish(t) => was.(published := (was.manual, was.list), pending := was.pending - {t})
  }

  /** However setters interleave, once none is in between its two sections the published rules are the latest. */
  lemma {:induction false} LatestIsPublished(s: Shared, secs: seq<Section>)
    requires s.published == (s.manual, s.list) && s.pending == {}
    ensures Run(s, secs).pending == {} ==> Run(s, secs).published == (Run(s, secs).manual, Run(s, secs).list)
  {
    if secs != [] {
      LatestIsPublished(s, secs[..|secs| - 1]);
      var was := Run(s, secs[..|secs| - 1]);
      match secs[|secs| - 1]
      case StoreManual(t, _) => assert t in Run(s, secs).pending;
      case StoreList(t, _) => assert t in Run(s, secs).pending;
      case Publish(_) =>
    }
  }
}
