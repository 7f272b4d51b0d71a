/** Pages loaded again by themselves: once macOS refused their host, or parts of
    them, through the proxy, and those hosts have been sent directly. A window
    does this without anyone asking, so what matters is that it stops. */
module Reloads {
  import opened Wrappers
  import opened Direct

  /** What happened in a window: a page started, or was loaded again; then, with
      how many domains were sent directly before and after, and whether it had
      finished. */
  datatype Happening = Started(address: string) | Reloaded(address: string, finished: bool, had: nat, has: nat)

  /** The address last loaded again, until another starts. */
  function LastReloaded(trace: seq<Happening>): Option<string>
    decreases |trace|
  {
    if trace == [] then None
    else
      var last, before := trace[|trace| - 1], LastReloaded(trace[..|trace| - 1]);
      match last
      case Reloaded(address, _, _, _) => Some(address)
      case Started(address) => if before == Some(address) then before else None
  }

  /** Nothing from the reload at `i` on is of another address. */
  predicate ReloadedAt(trace: seq<Happening>, i: nat, address: string) {
    i < |trace| && trace[i].Reloaded? && forall j | i <= j < |trace| :: trace[j].address == address
  }

  lemma ReloadedNext(before: seq<Happening>, last: Happening, i: nat, address: string)
    requires i < |before|
    ensures ReloadedAt(before + [last], i, address) <==> ReloadedAt(before, i, address) && last.address == address
  {
    var trace := before + [last];
    assert trace[|before|] == last && forall j | 0 <= j < |before| :: trace[j] == before[j];
  }

  /** It is that of a reload since which no other address was started or loaded
      again; so once one was, that address may be again. */
  lemma {:induction false} LastReloadedIs(trace: seq<Happening>, address: string)
    ensures LastReloaded(trace) == Some(address) <==> exists i: nat :: ReloadedAt(trace, i, address)
    decreases |trace|
  {
    if trace != [] {
      var n := |trace| - 1;
      var before, last := trace[..n], trace[n];
      assert trace == before + [last];
      LastReloadedIs(before, address);
      forall i: nat | i < n
        ensures ReloadedAt(trace, i, address) <==> ReloadedAt(before, i, address) && last.address == address
      {
        ReloadedNext(before, last, i, address);
      }
      assert ReloadedAt(trace, n, address) <==> last.Reloaded? && last.address == address;
      if LastReloaded(before) == Some(address) && last.address == address {
        var i: nat :| ReloadedAt(before, i, address);
        assert ReloadedAt(trace, i, address);
      }
    }
  }

  /** No page is loaded again that was the last to be; and one loaded again
      after it finished made the list longer, unless it was full. */
  predicate Fair(trace: seq<Happening>)
    decreases |trace|
  {
    trace == [] ||
    var last, before := trace[|trace| - 1], trace[..|trace| - 1];
    Fair(before) && FairReload(before, last)
  }

  /** How many pages were loaded again after they had finished, with room left
      in the list. */
  function Growths(trace: seq<Happening>): nat
    decreases |trace|
  {
    if trace == [] then 0
    else
      var last := trace[|trace| - 1];
      Growths(trace[..|trace| - 1]) + if last.Reloaded? && last.finished && last.had < KEPT then 1 else 0
  }

  lemma Then(trace: seq<Happening>, last: Happening)
    ensures var after := trace + [last];
            && LastReloaded(after) == (if last.Reloaded? then Some(last.address)
                                       else if LastReloaded(trace) == Some(last.address) then Some(last.address) else None)
            && (Fair(after) <==> Fair(trace) && FairReload(trace, last))
            && Growths(after) == Growths(trace) + if last.Reloaded? && last.finished && last.had < KEPT then 1 else 0
  {
    assert (trace + [last])[..|trace + [last]| - 1] == trace;
  }

  class Window {
    const app: App
    var retried: Option<string>
    var vouched: seq<string>
    var pinned: seq<string>
    ghost var trace: seq<Happening>

    ghost predicate Valid()
      reads this, app
    {
      retried == LastReloaded(trace) && Fair(trace) && Growths(trace) <= |app.direct| <= KEPT
    }

    constructor (app: App)
      requires |app.direct| <= KEPT
      ensures Valid() && trace == [] && this.app == app
    {
      this.app := app;
      retried, vouched, pinned, trace := None, [], [], [];
    }

    /** A page started: another than the one last loaded again may be, once. */
    method DidStart(now: string)
      requires Valid()
      modifies this`retried, this`trace
      ensures Valid() && trace == old(trace) + [Started(now)]
    {
      Then(trace, Started(now));
      if retried != Some(now) {
        retried := None;
      }
      trace := trace + [Started(now)];
    }

    /** Load `address` again, if it can be read. */
    method LoadAgain(address: string, readable: bool, ghost finished: bool, ghost had: nat)
      requires retried == LastReloaded(trace) && Fair(trace) && retried != Some(address)
      requires Growths(trace) <= had <= |app.direct| <= KEPT
      requires finished ==> had < |app.direct| || had >= KEPT
      modifies this`retried, this`trace
      ensures Valid()
      ensures trace == old(trace) + if readable then [Reloaded(address, finished, had, |app.direct|)] else []
    {
      if !readable {
        assert trace + [] == trace;
        return;
      }
      Then(trace, Reloaded(address, finished, had, |app.direct|));
      retried := Some(address);
      trace := trace + [Reloaded(address, finished, had, |app.direct|)];
    }

    /** macOS refused the page's main document: `refused` is whether this was
        such a refusal, for `host`. Whether it was answered. */
    method RetryDirect(address: string, host: Option<string>, refused: bool, works: bool, readable: bool)
      returns (answered: bool)
      requires Valid()
      modifies this`retried, this`trace, app`direct
      ensures Valid()
      ensures answered <==> host.Some? && refused && old(retried) != Some(address)
      ensures trace == old(trace) + if answered && app.browsing && works && readable
                                    then [Reloaded(address, false, |old(app.direct)|, |app.direct|)] else []
      ensures answered && app.browsing && works && Normal(host.value) != "" ==>
                SentDirect(host.value, app.direct) || |app.direct| == KEPT
    {
      assert trace + [] == trace;
      if host.None? || !refused || retried == Some(address) {
        return false;
      }
      ghost var had := |app.direct|;
      var sent := app.SendDirect([host.value], works);
      AddedKeeps(old(app.direct), [host.value]);
      AskedIsAddedFirst(old(app.direct), host.value);
      if sent {
        LoadAgain(address, readable, false, had);
      }
      return true;
    }

    /** A page finished: send what it called for directly, and load it again,
        once. Whether to look again in a moment. */
    method SendRefusedPartsDirect(address: string, refused: seq<string>, again: bool, works: bool, readable: bool)
      returns (lookAgain: bool)
      requires Valid()
      modifies this`retried, this`trace, app`direct
      ensures Valid()
      ensures var due := address != "" && old(retried) != Some(address);
              var hosts := ToSendDirect(vouched, refused, pinned, old(app.direct));
              && (lookAgain <==> due && hosts == [] && !again)
              && trace == old(trace) + if due && hosts != [] && app.browsing && works && readable
                                       then [Reloaded(address, true, |old(app.direct)|, |app.direct|)] else []
    {
      assert trace + [] == trace;
      if address == "" || retried == Some(address) {
        return false;
      }
      var hosts := ToSendDirect(vouched, refused, pinned, app.direct);
      ToSendDirectIs(vouched, refused, pinned, app.direct);
      if hosts == [] {
        return !again;
      }
      ghost var had := |app.direct|;
      SendingGrows(app.direct, hosts);
      AddedKeeps(app.direct, hosts);
      var sent := app.SendDirect(hosts, works);
      if sent {
        LoadAgain(address, readable, true, had);
      }
      return false;
    }
  }

  lemma AskedIsAddedFirst(direct: seq<string>, host: string)
    ensures SentDirect(host, Added(direct, [host])) || |Added(direct, [host])| >= KEPT || Normal(host) == ""
  {
    if Normal(host) != "" {
      AskedIsAdded(direct, [host], 0);
    }
  }

  /** An automatic reload, as of when it happened. */
  predicate FairReload(before: seq<Happening>, last: Happening) {
    last.Reloaded? ==>
      && LastReloaded(before) != Some(last.address) && last.had <= last.has
      && (last.finished ==> last.had < last.has || last.had >= KEPT)
  }

  lemma {:induction false} FairAt(trace: seq<Happening>, i: nat)
    requires Fair(trace) && i < |trace|
    ensures FairReload(trace[..i], trace[i])
    decreases |trace|
  {
    var n := |trace| - 1;
    if i < n {
      FairAt(trace[..n], i);
      assert trace[..n][..i] == trace[..i];
    } else {
      assert trace[..i] == trace[..n];
    }
  }

  /** Something else happened after entry `i`: another address started, or was
      loaded again. */
  predicate OtherAfter(trace: seq<Happening>, i: nat, address: string) {
    exists k | i < k < |trace| :: trace[k].address != address
  }

  lemma {:induction false} SameUntilOther(trace: seq<Happening>, i: nat)
    requires i < |trace| && trace[i].Reloaded?
    ensures LastReloaded(trace) == Some(trace[i].address) || OtherAfter(trace, i, trace[i].address)
    decreases |trace|
  {
    var n := |trace| - 1;
    if i < n {
      SameUntilOther(trace[..n], i);
      if OtherAfter(trace[..n], i, trace[i].address) {
        var k :| i < k < n && trace[..n][k].address != trace[i].address;
        assert trace[k].address != trace[i].address;
      } else if trace[n].address != trace[i].address {
        assert OtherAfter(trace, i, trace[i].address);
      }
    }
  }

  /** Between two automatic reloads of an address, another address was started,
      or loaded again. */
  lemma NeverTwiceRunning(trace: seq<Happening>, i: nat, j: nat)
    requires Fair(trace) && i < j < |trace| && trace[i].Reloaded? && trace[j].Reloaded?
    requires trace[i].address == trace[j].address
    ensures exists k :: i < k < j && trace[k].address != trace[i].address
  {
    var before := trace[..j];
    FairAt(trace, j);
    SameUntilOther(before, i);
    var k :| i < k < j && before[k].address != before[i].address;
    assert trace[k] == before[k] && trace[i] == before[i];
  }
}
