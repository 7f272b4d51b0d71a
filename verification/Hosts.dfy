/** The hosts a window remembers: the latest 64, by when each was last named. */
module Hosts {
  import opened Lists

  const KEPT: nat := 64

  /** Every host of a history, each once, by when it was last named. */
  function Recent(history: seq<string>): seq<string>
    decreases |history|
  {
    if history == [] then []
    else Without(Recent(history[..|history| - 1]), history[|history| - 1]) + [history[|history| - 1]]
  }

  function Last(list: seq<string>, n: nat): seq<string> {
    if |list| <= n then list else list[|list| - n..]
  }

  // ------------------------------------------------------------- what the order is

  /** When `host` was last named: how many names there were by then, 0 if never. */
  function LastNamed(history: seq<string>, host: string): nat
    decreases |history|
  {
    if history == [] then 0
    else if history[|history| - 1] == host then |history| else LastNamed(history[..|history| - 1], host)
  }

  /** By when each was last named, the latest last. */
  predicate ByLastNamed(list: seq<string>, history: seq<string>) {
    forall i, j | 0 <= i < j < |list| :: LastNamed(history, list[i]) < LastNamed(history, list[j])
  }

  lemma {:induction false} WithoutKeepsOrder(list: seq<string>, history: seq<string>, host: string)
    requires ByLastNamed(list, history)
    ensures ByLastNamed(Without(list, host), history)
  {
    if list != [] {
      assert forall j | 0 <= j < |list[1..]| :: list[1..][j] == list[j + 1];
      WithoutKeepsOrder(list[1..], history, host);
      WithoutIs(list[1..], host);
      var rest := Without(list[1..], host);
      forall j | 0 <= j < |rest|
        ensures LastNamed(history, list[0]) < LastNamed(history, rest[j])
      {
        assert rest[j] in rest;
        var k :| 0 <= k < |list[1..]| && list[1..][k] == rest[j];
      }
    }
  }

  lemma {:induction false} NamedBy(history: seq<string>, host: string)
    ensures LastNamed(history, host) <= |history|
  {
    if history != [] {
      NamedBy(history[..|history| - 1], host);
    }
  }

  /** `Recent` is what it says: each host named, once, by when it was last. */
  lemma {:induction false} RecentIs(history: seq<string>)
    ensures forall y :: y in Recent(history) <==> y in history
    ensures ByLastNamed(Recent(history), history)
    decreases |history|
  {
    if history != [] {
      var before, last := history[..|history| - 1], history[|history| - 1];
      RecentIs(before);
      WithoutIs(Recent(before), last);
      WithoutKeepsOrder(Recent(before), before, last);
      assert history == before + [last];
      var rest := Without(Recent(before), last);
      forall i | 0 <= i < |rest|
        ensures LastNamed(history, rest[i]) == LastNamed(before, rest[i]) < |history|
      {
        assert rest[i] in rest;
        NamedBy(before, rest[i]);
      }
    }
  }

  // ------------------------------------------------------------- what is kept

  lemma LastPart(front: seq<string>, back: seq<string>)
    requires |back| == KEPT
    ensures Last(front + back, KEPT) == back
  {
    assert (front + back)[|front|..] == back;
    assert front == [] ==> front + back == back;
  }

  /** One more name, when the list kept is full and names it. */
  lemma KeptNamed(gone: seq<string>, kept: seq<string>, host: string)
    requires |kept| == KEPT - 1
    ensures Last(kept + [host], KEPT) == Last((gone + kept) + [host], KEPT)
  {
    Regrouped(gone, kept, [host]);
    LastPart(gone, kept + [host]);
  }

  /** One more name, when the list kept is full and does not name it. */
  lemma KeptUnnamed(gone: seq<string>, kept: seq<string>, host: string)
    requires |kept| == KEPT
    ensures Last(kept + [host], KEPT) == Last((gone + kept) + [host], KEPT)
  {
    var back := kept[1..] + [host];
    assert kept + [host] == [kept[0]] + back;
    LastPart([kept[0]], back);
    assert (gone + kept) + [host] == (gone + [kept[0]]) + back;
    LastPart(gone + [kept[0]], back);
  }

  /** One more name, from the list kept or from the whole of it: the same is
      kept. */
  lemma KeptAlike(all: seq<string>, host: string)
    requires Distinct(all)
    ensures Last(Without(Last(all, KEPT), host) + [host], KEPT) == Last(Without(all, host) + [host], KEPT)
  {
    if |all| > KEPT {
      var n := |all| - KEPT;
      DistinctParts(all, n);
      WithoutAppend(all[..n], all[n..], host);
      WithoutLength(all[n..], host);
      if host in all[n..] {
        KeptNamed(Without(all[..n], host), Without(all[n..], host), host);
      } else {
        KeptUnnamed(Without(all[..n], host), Without(all[n..], host), host);
      }
    }
  }

  lemma DistinctRecent(history: seq<string>)
    ensures Distinct(Recent(history))
  {
    RecentIs(history);
  }

  /** What `Remembered` keeps, of a history with a name in it: the last 64 of all
      the hosts named, or all of them, and last the one named last. */
  lemma LatestKept(history: seq<string>, hosts: seq<string>)
    requires history != [] && hosts == Last(Recent(history), KEPT)
    ensures var all := Recent(history);
            && 0 < |hosts| <= 64 && |hosts| <= |all| && hosts == all[|all| - |hosts|..]
            && (|hosts| < 64 ==> hosts == all) && hosts[|hosts| - 1] == history[|history| - 1]
  {
  }

  class Remembered {
    var hosts: seq<string>
    ghost var history: seq<string>

    /** The hosts kept are the last of all those named, though each update saw
        only those kept. */
    ghost predicate Valid()
      reads this
    {
      hosts == Last(Recent(history), KEPT)
    }

    constructor ()
      ensures Valid() && history == []
    {
      hosts, history := [], [];
    }

    method Retain(host: string)
      modifies `hosts
      ensures hosts == Without(old(hosts), host)
    {
      var kept: seq<string> := [];
      for i := 0 to |hosts|
        invariant hosts == old(hosts) && kept + Without(hosts[i..], host) == Without(hosts, host)
      {
        WithoutOn(hosts, i, host, kept);
        if hosts[i] != host {
          kept := kept + [hosts[i]];
        }
      }
      hosts := kept;
    }

    /** Put `host` last, once, keeping the latest. */
    method Remember(host: string)
      requires Valid()
      modifies this
      ensures Valid() && history == old(history) + [host]
    {
      DistinctRecent(history);
      KeptAlike(Recent(history), host);
      KeptLength(Recent(history), host);
      Retain(host);
      hosts := hosts + [host];
      if |hosts| > KEPT {
        hosts := hosts[1..];
      }
      assert (history + [host])[..|history|] == history;
      history := history + [host];
    }
  }

  lemma KeptLength(all: seq<string>, host: string)
    requires Distinct(all)
    ensures |Without(Last(all, KEPT), host)| <= KEPT
  {
    DistinctParts(all, if |all| > KEPT then |all| - KEPT else 0);
    WithoutLength(Last(all, KEPT), host);
  }
}
