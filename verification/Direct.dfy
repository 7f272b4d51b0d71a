/** The hosts sent around the proxy, directly: which names a list of domains
    covers, how the list grows, and which hosts a page calls for. */
module Direct {
  import opened Wrappers
  import opened Text

  /** How many domains are kept. */
  const KEPT: nat := 1024

  // ------------------------------------------------------------- which names a domain covers

  function TrimDots(s: string): string {
    if s != "" && s[|s| - 1] == '.' then TrimDots(s[..|s| - 1]) else s
  }

  function Normal(name: string): string {
    Lower(TrimDots(name))
  }

  predicate Covered(host: string, domain: string) {
    var h, d := Normal(host), Normal(domain);
    d != "" && (h == d || (|h| > |d| && h[|h| - |d|..] == d && h[|h| - |d| - 1] == '.'))
  }

  /** A name's labels, the parts its dots divide it into. */
  function Labels(name: string): seq<string> {
    Split(Normal(name), '.')
  }

  predicate EndsWith(labels: seq<string>, last: seq<string>) {
    |last| <= |labels| && labels[|labels| - |last|..] == last
  }

  lemma {:induction false} JoinTwo(a: seq<string>, b: seq<string>, d: char)
    requires a != [] && b != []
    ensures Join(a + b, d) == Join(a, d) + [d] + Join(b, d)
  {
    if |a| == 1 {
      assert (a + b)[1..] == b;
    } else {
      JoinTwo(a[1..], b, d);
      assert (a + b)[1..] == a[1..] + b;
    }
  }

  /** A domain covers exactly the names whose last labels are its labels. */
  lemma CoveredIsLabels(host: string, domain: string)
    ensures Covered(host, domain) <==> Normal(domain) != "" && EndsWith(Labels(host), Labels(domain))
  {
    var h, d := Normal(host), Normal(domain);
    if Covered(host, domain) && h != d {
      var before := h[..|h| - |d| - 1];
      assert h == before + ['.'] + d;
      SplitAt(before, d, '.');
    }
    if d != "" && EndsWith(Labels(host), Labels(domain)) {
      var n := |Labels(host)| - |Labels(domain)|;
      var before := Labels(host)[..n];
      assert Labels(host) == before + Labels(domain);
      JoinSplit(h, '.');
      JoinSplit(d, '.');
      if n == 0 {
        assert Labels(host) == Labels(domain);
      } else {
        JoinTwo(before, Labels(domain), '.');
        assert h == Join(before, '.') + ['.'] + d;
      }
    }
  }

  /** Two names written alike, but for the case of their ASCII letters. */
  predicate SameButCase(a: string, b: string) {
    |a| == |b| &&
    forall i | 0 <= i < |a| ::
      || a[i] == b[i]
      || ('A' <= a[i] <= 'Z' && b[i] as int == a[i] as int + 32)
      || ('A' <= b[i] <= 'Z' && a[i] as int == b[i] as int + 32)
  }

  lemma {:induction false} SameTrimmed(a: string, b: string)
    requires SameButCase(a, b)
    ensures SameButCase(TrimDots(a), TrimDots(b))
    decreases |a|
  {
    if a != "" && a[|a| - 1] == '.' {
      SameTrimmed(a[..|a| - 1], b[..|b| - 1]);
    }
  }

  lemma SameLower(a: string, b: string)
    requires SameButCase(a, b)
    ensures Lower(a) == Lower(b)
  {
  }

  /** Names that differ only in case, or in dots after them, are one name. */
  lemma CaseAndDots(a: string, b: string)
    requires SameButCase(a, b)
    ensures Normal(a) == Normal(b) == Normal(a + ".")
  {
    SameTrimmed(a, b);
    SameLower(TrimDots(a), TrimDots(b));
    assert (a + ".")[..|a|] == a;
  }

  /** So a domain covers a host however either is written. */
  lemma CoveredHoweverWritten(host: string, other: string, domain: string, same: string)
    requires SameButCase(host, other) && SameButCase(domain, same)
    ensures Covered(host, domain) == Covered(other, same) == Covered(host + ".", domain) == Covered(host, domain + ".")
  {
    CaseAndDots(host, other);
    CaseAndDots(domain, same);
  }

  /** As with these; and a host that only ends in the same letters is not
      covered. */
  lemma CoveredAs()
    ensures Covered("W.EX.", "ex") && !Covered("wex", "ex")
  {
    CaseAndDots("W.EX", "w.ex");
    assert "W.EX" + "." == "W.EX.";
    PlainName("w.ex");
    PlainName("wex");
    PlainName("ex");
    assert "w.ex"[2..] == "ex" && "wex"[1..] == "ex";
  }

  lemma PlainName(name: string)
    requires name != "" && name[|name| - 1] != '.' && forall i | 0 <= i < |name| :: !('A' <= name[i] <= 'Z')
    ensures Normal(name) == name
  {
  }

  lemma CoversItself(name: string)
    ensures Covered(name, name) <==> Normal(name) != ""
  {
  }

  /** What covers a domain covers every name it covers. */
  lemma CoveredTransitive(a: string, b: string, c: string)
    requires Covered(a, b) && Covered(b, c)
    ensures Covered(a, c)
  {
    CoveredIsLabels(a, b);
    CoveredIsLabels(b, c);
    CoveredIsLabels(a, c);
    var x, y, z := Labels(a), Labels(b), Labels(c);
    assert x[|x| - |z|..] == x[|x| - |y|..][|y| - |z|..];
  }

  predicate SentDirect(host: string, direct: seq<string>) {
    exists i | 0 <= i < |direct| :: Covered(host, direct[i])
  }

  // ------------------------------------------------------------- how the list grows

  /** `direct` with each of `hosts` it does not cover added, while there is
      room. */
  function Added(direct: seq<string>, hosts: seq<string>): seq<string>
    decreases |hosts|
  {
    if hosts == [] then direct
    else Added(AddOne(direct, hosts[0]), hosts[1..])
  }

  lemma MoreCovers(direct: seq<string>, more: seq<string>, host: string)
    requires direct <= more && SentDirect(host, direct)
    ensures SentDirect(host, more)
  {
    var i :| 0 <= i < |direct| && Covered(host, direct[i]);
    assert more[i] == direct[i];
  }

  /** `direct`, with the first of `hosts` if it is added. */
  function AddOne(direct: seq<string>, host: string): seq<string> {
    if !SentDirect(host, direct) && |direct| < KEPT then direct + [host] else direct
  }

  lemma {:induction false} AddedKeeps(direct: seq<string>, hosts: seq<string>)
    ensures direct <= Added(direct, hosts) && |Added(direct, hosts)| <= |direct| + |hosts|
    ensures |direct| <= 1024 ==> |Added(direct, hosts)| <= 1024
    decreases |hosts|
  {
    if hosts != [] {
      AddedKeeps(AddOne(direct, hosts[0]), hosts[1..]);
    }
  }

  /** Nothing is added that was not asked for. */
  lemma {:induction false} AddedAsked(direct: seq<string>, hosts: seq<string>, i: nat)
    requires |direct| <= i < |Added(direct, hosts)|
    ensures exists j :: 0 <= j < |hosts| && hosts[j] == Added(direct, hosts)[i]
    decreases |hosts|
  {
    var next := AddOne(direct, hosts[0]);
    AddedKeeps(next, hosts[1..]);
    if i < |next| {
      assert Added(direct, hosts)[i] == next[i] == hosts[0];
    } else {
      AddedAsked(next, hosts[1..], i);
      var j :| 0 <= j < |hosts[1..]| && hosts[1..][j] == Added(next, hosts[1..])[i];
      assert hosts[j + 1] == Added(direct, hosts)[i];
    }
  }

  /** A host is added only if none before it in the list covers it. */
  lemma {:induction false} AddedNew(direct: seq<string>, hosts: seq<string>, i: nat)
    requires |direct| <= i < |Added(direct, hosts)|
    ensures !SentDirect(Added(direct, hosts)[i], Added(direct, hosts)[..i])
    decreases |hosts|
  {
    var next := AddOne(direct, hosts[0]);
    AddedKeeps(next, hosts[1..]);
    if |next| <= i {
      AddedNew(next, hosts[1..], i);
    } else {
      assert Added(direct, hosts)[..i] == direct && Added(direct, hosts)[i] == next[i] == hosts[0];
    }
  }

  /** A host asked for is sent directly, unless the list is full. */
  lemma {:induction false} AskedIsAdded(direct: seq<string>, hosts: seq<string>, j: nat)
    requires j < |hosts| && Normal(hosts[j]) != ""
    ensures SentDirect(hosts[j], Added(direct, hosts)) || |Added(direct, hosts)| >= 1024
    decreases |hosts|
  {
    var next := AddOne(direct, hosts[0]);
    if j == 0 {
      AddedKeeps(next, hosts[1..]);
      CoversItself(hosts[0]);
      if !SentDirect(hosts[0], direct) && |direct| < KEPT {
        assert Covered(hosts[0], next[|direct|]);
      }
      if SentDirect(hosts[0], next) {
        MoreCovers(next, Added(direct, hosts), hosts[0]);
      }
    } else {
      AskedIsAdded(next, hosts[1..], j - 1);
    }
  }

  /** With room for all of them, what is then sent directly is what was, and
      everything the hosts asked for cover: no more, and no less, though those
      already covered are not added. */
  lemma AddedCovers(direct: seq<string>, hosts: seq<string>, name: string)
    requires |direct| + |hosts| <= 1024 || |Added(direct, hosts)| < 1024
    ensures SentDirect(name, Added(direct, hosts)) <==> SentDirect(name, direct) || SentDirect(name, hosts)
  {
    var all := Added(direct, hosts);
    AddedKeeps(direct, hosts);
    if SentDirect(name, all) {
      var i :| 0 <= i < |all| && Covered(name, all[i]);
      if i < |direct| {
        assert direct[i] == all[i];
      } else {
        AddedAsked(direct, hosts, i);
        var j :| 0 <= j < |hosts| && hosts[j] == all[i];
        assert Covered(name, hosts[j]);
      }
    }
    if SentDirect(name, direct) {
      MoreCovers(direct, all, name);
    }
    if SentDirect(name, hosts) {
      var j :| 0 <= j < |hosts| && Covered(name, hosts[j]);
      AskedIsAdded(direct, hosts, j);
      if |direct| + |hosts| <= KEPT {
        FullOnlyWhenAllAdded(direct, hosts, j);
      }
      var i :| 0 <= i < |all| && Covered(hosts[j], all[i]);
      CoveredTransitive(name, hosts[j], all[i]);
    }
  }

  /** A host left out though there was room for all is one that was there. */
  lemma {:induction false} FullOnlyWhenAllAdded(direct: seq<string>, hosts: seq<string>, j: nat)
    requires j < |hosts| && Normal(hosts[j]) != "" && |direct| + |hosts| <= 1024
    ensures SentDirect(hosts[j], Added(direct, hosts))
    decreases |hosts|
  {
    var next := AddOne(direct, hosts[0]);
    if j == 0 {
      AddedKeeps(next, hosts[1..]);
      CoversItself(hosts[0]);
      if !SentDirect(hosts[0], direct) {
        assert Covered(hosts[0], next[|direct|]);
      }
      MoreCovers(next, Added(direct, hosts), hosts[0]);
    } else {
      FullOnlyWhenAllAdded(next, hosts[1..], j - 1);
    }
  }

  /** The application's list, and whether it can browse at all. */
  class App {
    var browsing: bool
    var direct: seq<string>

    constructor (browsing: bool)
      ensures this.browsing == browsing && direct == []
    {
      this.browsing, direct := browsing, [];
    }

    /** Send `hosts` directly from now on; `works` is whether WebKit took the
        longer list. Without it, nothing changes. */
    method SendDirect(hosts: seq<string>, works: bool) returns (sent: bool)
      modifies `direct
      ensures sent == (old(browsing) && works)
      ensures direct == if sent then Added(old(direct), hosts) else old(direct)
    {
      if !browsing {
        return false;
      }
      var more := direct;
      for i := 0 to |hosts|
        invariant Added(more, hosts[i..]) == Added(direct, hosts)
      {
        assert hosts[i..][1..] == hosts[i + 1..];
        if !SentDirect(hosts[i], more) && |more| < KEPT {
          more := more + [hosts[i]];
        }
      }
      if works {
        direct := more;
      }
      return works;
    }
  }

  // ------------------------------------------------------------- the hosts a page calls for

  /** Earlier in the order of strings, code point by code point. */
  predicate Less(a: string, b: string) {
    b != "" && (a == "" || a[0] < b[0] || (a[0] == b[0] && Less(a[1..], b[1..])))
  }

  lemma {:induction false} LessTotal(a: string, b: string)
    ensures a == b || Less(a, b) || Less(b, a)
    ensures !(Less(a, b) && Less(b, a)) && !Less(a, a)
  {
    if a != "" {
      LessTotal(a[1..], a[1..]);
      if b != "" && a[0] == b[0] {
        LessTotal(a[1..], b[1..]);
        assert a == [a[0]] + a[1..] && b == [b[0]] + b[1..];
      }
    }
  }

  lemma {:induction false} LessTransitive(a: string, b: string, c: string)
    requires Less(a, b) && Less(b, c)
    ensures Less(a, c)
  {
    if a != "" && a[0] == b[0] && b[0] == c[0] {
      LessTransitive(a[1..], b[1..], c[1..]);
    }
  }

  /** In order, each no earlier than the one before. */
  predicate InOrder(s: seq<string>) {
    forall i, j | 0 <= i < j < |s| :: !Less(s[j], s[i])
  }

  /** In order, each once. */
  predicate Ascending(s: seq<string>) {
    forall i, j | 0 <= i < j < |s| :: Less(s[i], s[j])
  }

  function Insert(x: string, s: seq<string>): seq<string> {
    if s == [] || !Less(s[0], x) then [x] + s else [s[0]] + Insert(x, s[1..])
  }

  function Sort(s: seq<string>): seq<string> {
    if s == [] then [] else Insert(s[0], Sort(s[1..]))
  }

  /** Without those equal to the one before. */
  function Dedup(s: seq<string>): seq<string> {
    if |s| < 2 then s
    else if s[0] == s[1] then Dedup(s[1..]) else [s[0]] + Dedup(s[1..])
  }

  lemma {:induction false} InsertIs(x: string, s: seq<string>)
    requires InOrder(s)
    ensures InOrder(Insert(x, s)) && forall y :: y in Insert(x, s) <==> y == x || y in s
  {
    if s != [] && Less(s[0], x) {
      InsertIs(x, s[1..]);
      var more := Insert(x, s[1..]);
      assert s == [s[0]] + s[1..];
      LessTotal(s[0], x);
      forall j | 0 <= j < |more|
        ensures !Less(more[j], s[0])
      {
        assert more[j] in more;
        if more[j] != x {
          var k :| 0 <= k < |s[1..]| && s[1..][k] == more[j];
          assert s[k + 1] == more[j];
        }
      }
    } else if s != [] {
      forall j | 0 <= j < |s|
        ensures !Less(s[j], x)
      {
        if Less(s[j], x) {
          LessTotal(s[0], s[j]);
          LessTotal(s[0], x);
          if j > 0 && s[0] != s[j] {
            LessTransitive(s[0], s[j], x);
          }
        }
      }
    }
  }

  lemma {:induction false} SortIs(s: seq<string>)
    ensures InOrder(Sort(s)) && forall y :: y in Sort(s) <==> y in s
  {
    if s != [] {
      SortIs(s[1..]);
      InsertIs(s[0], Sort(s[1..]));
      assert s == [s[0]] + s[1..];
    }
  }

  lemma {:induction false} DedupIs(s: seq<string>)
    requires InOrder(s)
    ensures Ascending(Dedup(s)) && forall y :: y in Dedup(s) <==> y in s
    ensures s != [] ==> Dedup(s) != [] && Dedup(s)[0] == s[0]
  {
    if |s| >= 2 {
      DedupIs(s[1..]);
      assert s == [s[0]] + s[1..];
      var more := Dedup(s[1..]);
      if s[0] != s[1] {
        LessTotal(s[0], s[1]);
        assert Less(s[0], s[1]);
        forall j | 0 <= j < |more|
          ensures Less(s[0], more[j])
        {
          if j > 0 {
            LessTransitive(s[0], more[0], more[j]);
          }
        }
      }
    }
  }

  function Those(hosts: seq<string>, keep: string -> bool): seq<string> {
    if hosts == [] then []
    else (if keep(hosts[0]) then [hosts[0]] else []) + Those(hosts[1..], keep)
  }

  lemma {:induction false} ThoseAre(hosts: seq<string>, keep: string -> bool)
    ensures forall y :: y in Those(hosts, keep) <==> y in hosts && keep(y)
  {
    if hosts != [] {
      ThoseAre(hosts[1..], keep);
      assert hosts == [hosts[0]] + hosts[1..];
    }
  }

  /** The hosts a page's window sends directly once it has loaded. */
  function ToSendDirect(vouched: seq<string>, refused: seq<string>, pinned: seq<string>, direct: seq<string>): seq<string> {
    Dedup(Sort(Those(Those(vouched, h => h in refused) + pinned, h => !SentDirect(h, direct))))
  }

  /** Those it vouched for that were refused, and those macOS pinned, not sent
      directly yet: each once, in order. */
  lemma ToSendDirectIs(vouched: seq<string>, refused: seq<string>, pinned: seq<string>, direct: seq<string>)
    ensures var hosts := ToSendDirect(vouched, refused, pinned, direct);
            && Ascending(hosts)
            && forall h :: h in hosts <==> ((h in vouched && h in refused) || h in pinned) && !SentDirect(h, direct)
  {
    ThoseAre(vouched, h => h in refused);
    var all := Those(vouched, h => h in refused) + pinned;
    ThoseAre(all, h => !SentDirect(h, direct));
    SortIs(Those(all, h => !SentDirect(h, direct)));
    DedupIs(Sort(Those(all, h => !SentDirect(h, direct))));
  }

  lemma CoveredNamed(host: string, domain: string)
    requires Covered(host, domain)
    ensures Normal(host) != ""
  {
  }

  /** Which of the hosts asked for are sent directly then, when there was room:
      all but those with no name. */
  lemma SentUnlessNameless(direct: seq<string>, hosts: seq<string>, h: string)
    requires |direct| + |hosts| <= 1024 || |Added(direct, hosts)| < 1024
    requires h in hosts
    ensures SentDirect(h, Added(direct, hosts)) <==> Normal(h) != ""
  {
    AddedCovers(direct, hosts, h);
    CoversItself(h);
    if SentDirect(h, Added(direct, hosts)) {
      var i :| 0 <= i < |Added(direct, hosts)| && Covered(h, Added(direct, hosts)[i]);
      CoveredNamed(h, Added(direct, hosts)[i]);
    }
    if Normal(h) != "" {
      var j :| 0 <= j < |hosts| && hosts[j] == h;
      assert Covered(h, hosts[j]);
    }
  }

  /** Once they are sent directly, with room, the same page calls for no more of
      them, unless some has no name at all: that one it would call for again. */
  lemma NothingMoreToSend(vouched: seq<string>, refused: seq<string>, pinned: seq<string>, direct: seq<string>)
    requires var hosts := ToSendDirect(vouched, refused, pinned, direct);
             |direct| + |hosts| <= 1024 || |Added(direct, hosts)| < 1024
    ensures var hosts := ToSendDirect(vouched, refused, pinned, direct);
            var more := ToSendDirect(vouched, refused, pinned, Added(direct, hosts));
            && (forall h :: h in more <==> h in hosts && Normal(h) == "")
            && (more == [] <==> forall h | h in hosts :: Normal(h) != "")
  {
    var hosts := ToSendDirect(vouched, refused, pinned, direct);
    var all := Added(direct, hosts);
    var more := ToSendDirect(vouched, refused, pinned, all);
    ToSendDirectIs(vouched, refused, pinned, direct);
    ToSendDirectIs(vouched, refused, pinned, all);
    AddedKeeps(direct, hosts);
    forall h
      ensures h in more <==> h in hosts && Normal(h) == ""
    {
      if h in hosts {
        SentUnlessNameless(direct, hosts, h);
      } else if SentDirect(h, direct) {
        MoreCovers(direct, all, h);
      }
    }
    if more != [] {
      FirstIn(more);
    }
  }

  lemma FirstIn(s: seq<string>)
    requires s != []
    ensures s[0] in s
  {
  }

  /** A page that calls for hosts makes the list longer, unless it is full. */
  lemma {:induction false} SendingGrows(direct: seq<string>, hosts: seq<string>)
    requires hosts != [] && forall h | h in hosts :: !SentDirect(h, direct)
    ensures |Added(direct, hosts)| > |direct| || |direct| >= 1024
  {
    if |direct| < KEPT {
      assert hosts[0] in hosts;
      AddedKeeps(direct + [hosts[0]], hosts[1..]);
    }
  }
}
