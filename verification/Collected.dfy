/** Which tabs the session is made of: each of the person's, strip by strip, in
    the order they are shown; and none of an agent's. */
module Collected {
  import opened Wrappers
  import opened Lists
  import opened Address
  import opened SessionText
  import opened Strips
  import opened Relaunch

  // ------------------------------------------------------------- one strip

  /** `at` is where the tabs of `tabs` that are the person's are, in order. */
  predicate PersonsAt(tabs: seq<nat>, agents: set<nat>, at: seq<nat>) {
    && (forall k | 0 <= k < |at| :: at[k] < |tabs| && tabs[at[k]] !in agents)
    && (forall j, k | 0 <= j < k < |at| :: at[j] < at[k])
    && (forall i | 0 <= i < |tabs| && tabs[i] !in agents :: i in at)
  }

  /** `saved` is what `tab` shows, pinned as it is; blank if it shows nothing. */
  predicate IsShown(app: App, strip: Strip, tab: nat, saved: SavedTab) {
    match app.shots(tab)
    case Some(shot) =>
      saved.address == shot.address && saved.title == shot.title && (saved.pinned <==> tab in strip.pinned)
    case None => saved == SavedTab("", "", false)
  }

  predicate AllShown(app: App, strip: Strip, tabs: seq<SavedTab>, at: seq<nat>) {
    |tabs| == |at| && forall k | 0 <= k < |at| :: at[k] < |strip.tabs| && IsShown(app, strip, strip.tabs[at[k]], tabs[k])
  }

  /** In front is the tab in front, if that is one of the person's. */
  predicate FrontShown(strip: Strip, agents: set<nat>, selected: nat, at: seq<nat>) {
    if strip.grouped && strip.front in strip.tabs && strip.front !in agents
    then selected < |at| && at[selected] < |strip.tabs| && strip.tabs[at[selected]] == strip.front
    else selected == 0
  }

  /** `window` is the person's tabs of `strip`, all of them and in order, and the
      one in front in front, if that is one of them. */
  ghost predicate SavedAs(app: App, strip: Strip, window: SavedWindow, at: seq<nat>) {
    && PersonsAt(strip.tabs, app.agents, at) && |at| > 0
    && AllShown(app, strip, window.tabs, at) && FrontShown(strip, app.agents, window.selected, at)
  }

  ghost predicate Saves(app: App, strip: Strip, window: SavedWindow) {
    exists at :: SavedAs(app, strip, window, at)
  }

  /** Some tab of `strip` is the person's. */
  predicate Theirs(app: App, strip: Strip) {
    exists i | 0 <= i < |strip.tabs| :: strip.tabs[i] !in app.agents
  }

  lemma {:induction false} OutsideAppend(tabs: seq<nat>, last: nat, agents: set<nat>)
    ensures Outside(tabs + [last], agents) == Outside(tabs, agents) + if last in agents then [] else [last]
  {
    if tabs == [] {
      assert tabs + [last] == [last];
    } else {
      OutsideAppend(tabs[1..], last, agents);
      assert (tabs + [last])[0] == tabs[0] && (tabs + [last])[1..] == tabs[1..] + [last];
      Regrouped(if tabs[0] in agents then [] else [tabs[0]], Outside(tabs[1..], agents), if last in agents then [] else [last]);
    }
  }

  /** `picked` is what is at `at`. */
  predicate PickedAt(tabs: seq<nat>, picked: seq<nat>, at: seq<nat>) {
    |picked| == |at| && forall k | 0 <= k < |at| :: at[k] < |tabs| && picked[k] == tabs[at[k]]
  }

  lemma {:induction false} OutsideAt(tabs: seq<nat>, agents: set<nat>) returns (at: seq<nat>)
    ensures PersonsAt(tabs, agents, at) && PickedAt(tabs, Outside(tabs, agents), at)
    decreases |tabs|
  {
    if tabs == [] {
      at := [];
    } else {
      var n := |tabs| - 1;
      var before := OutsideAt(tabs[..n], agents);
      assert tabs == tabs[..n] + [tabs[n]];
      OutsideAppend(tabs[..n], tabs[n], agents);
      at := before + if tabs[n] in agents then [] else [n];
      LastPerson(tabs, n, agents, before, at);
      LastPicked(tabs, n, agents, before, at);
    }
  }

  lemma LastPerson(tabs: seq<nat>, n: nat, agents: set<nat>, before: seq<nat>, at: seq<nat>)
    requires |tabs| == n + 1 && PersonsAt(tabs[..n], agents, before)
    requires at == before + if tabs[n] in agents then [] else [n]
    ensures PersonsAt(tabs, agents, at)
  {
    forall i | 0 <= i < |tabs| && tabs[i] !in agents
      ensures i in at
    {
      if i < n {
        assert tabs[..n][i] == tabs[i];
        assert i in before;
      } else {
        assert at[|before|] == n;
      }
    }
  }

  lemma LastPicked(tabs: seq<nat>, n: nat, agents: set<nat>, before: seq<nat>, at: seq<nat>)
    requires |tabs| == n + 1 && PickedAt(tabs[..n], Outside(tabs[..n], agents), before)
    requires at == before + if tabs[n] in agents then [] else [n]
    requires Outside(tabs, agents) == Outside(tabs[..n], agents) + if tabs[n] in agents then [] else [tabs[n]]
    ensures PickedAt(tabs, Outside(tabs, agents), at)
  {
  }

  /** What is saved of a strip: one window of the person's tabs, or nothing if it
      has none. */
  lemma SavedIs(app: App, strip: Strip)
    ensures if Theirs(app, strip)
            then |SavedOf(app, strip)| == 1 && Saves(app, strip, SavedOf(app, strip)[0])
            else SavedOf(app, strip) == []
  {
    var at := OutsideAt(strip.tabs, app.agents);
    if |at| > 0 {
      assert strip.tabs[at[0]] !in app.agents;
      FrontSaved(app, strip, at);
      assert SavedAs(app, strip, SavedOf(app, strip)[0], at);
    } else {
      assert forall i | 0 <= i < |strip.tabs| && strip.tabs[i] !in app.agents :: i in at;
    }
  }

  lemma FrontSaved(app: App, strip: Strip, at: seq<nat>)
    requires PersonsAt(strip.tabs, app.agents, at) && PickedAt(strip.tabs, Outside(strip.tabs, app.agents), at) && |at| > 0
    ensures |SavedOf(app, strip)| == 1 && SavedAs(app, strip, SavedOf(app, strip)[0], at)
  {
    var tabs := Outside(strip.tabs, app.agents);
    ShownAt(app, strip, tabs, at);
    OutsideAre(strip.tabs, app.agents);
    FrontAt(strip, app.agents, tabs, at);
  }

  lemma ShownAt(app: App, strip: Strip, tabs: seq<nat>, at: seq<nat>)
    requires PickedAt(strip.tabs, tabs, at)
    ensures AllShown(app, strip, SavedTabs(app, strip, tabs), at)
  {
  }

  lemma FrontAt(strip: Strip, agents: set<nat>, tabs: seq<nat>, at: seq<nat>)
    requires PickedAt(strip.tabs, tabs, at) && forall t :: t in tabs <==> t in strip.tabs && t !in agents
    ensures FrontShown(strip, agents, if strip.grouped && strip.front in tabs then IndexOf(tabs, strip.front) else 0, at)
  {
    if strip.front in tabs {
      IndexIs(tabs, strip.front);
    }
  }

  // ------------------------------------------------------------- every strip, once

  /** The strips the windows are in, each when its first window comes. */
  function Visited(strips: seq<Strip>, windows: seq<nat>, seen: set<nat>): seq<Strip> {
    if windows == [] then []
    else if windows[0] in seen then Visited(strips, windows[1..], seen)
    else
      var strip := StripWith(strips, windows[0]);
      [strip] + Visited(strips, windows[1..], seen + Numbers(strip.tabs))
  }

  /** `window` is in one of `strips`. */
  predicate InOne(strips: seq<Strip>, window: nat) {
    exists i | 0 <= i < |strips| :: window in strips[i].tabs
  }

  /** Each of `visited` is the strip of the window at its place in `at`. */
  predicate StripsAt(strips: seq<Strip>, windows: seq<nat>, visited: seq<Strip>, at: seq<nat>) {
    |at| == |visited| && forall i | 0 <= i < |at| :: at[i] < |windows| && visited[i] == StripWith(strips, windows[at[i]])
  }

  /** In order, each at a window that is in none before it. */
  predicate EachNew(windows: seq<nat>, visited: seq<Strip>, at: seq<nat>) {
    |at| == |visited| && (forall i | 0 <= i < |at| :: at[i] < |windows|)
    && forall i, j | 0 <= i < j < |at| :: at[i] < at[j] && windows[at[j]] !in visited[i].tabs
  }

  /** Every window is in one of them. */
  predicate AllIn(windows: seq<nat>, visited: seq<Strip>) {
    forall k | 0 <= k < |windows| :: InOne(visited, windows[k])
  }

  /** `visited` is the strip of each window, once, when its first window comes:
      at `at`. */
  predicate FirstAt(strips: seq<Strip>, windows: seq<nat>, visited: seq<Strip>, at: seq<nat>) {
    StripsAt(strips, windows, visited, at) && EachNew(windows, visited, at) && AllIn(windows, visited)
  }

  lemma {:induction false} StripHolds(strips: seq<Strip>, window: nat)
    ensures window in StripWith(strips, window).tabs
  {
    if strips != [] && window !in strips[0].tabs {
      StripHolds(strips[1..], window);
    }
  }

  lemma InOneMore(strip: Strip, strips: seq<Strip>, window: nat)
    ensures InOne([strip] + strips, window) <==> window in strip.tabs || InOne(strips, window)
    ensures InOne(strips + [strip], window) <==> window in strip.tabs || InOne(strips, window)
  {
    var first, last := [strip] + strips, strips + [strip];
    assert first[0] == strip && last[|strips|] == strip;
    if InOne(strips, window) {
      var i :| 0 <= i < |strips| && window in strips[i].tabs;
      assert first[i + 1] == strips[i] && last[i] == strips[i];
    }
    if InOne(first, window) && window !in strip.tabs {
      var i :| 0 <= i < |first| && window in first[i].tabs;
      assert strips[i - 1] == first[i];
    }
  }

  lemma {:induction false} VisitedLast(strips: seq<Strip>, windows: seq<nat>, last: nat, seen: set<nat>)
    ensures var visited := Visited(strips, windows, seen);
            Visited(strips, windows + [last], seen) ==
            visited + if last in seen || InOne(visited, last) then [] else [StripWith(strips, last)]
  {
    var all := windows + [last];
    if windows == [] {
      assert all[0] == last && all[1..] == [];
    } else {
      assert all[0] == windows[0] && all[1..] == windows[1..] + [last];
      if windows[0] in seen {
        VisitedLast(strips, windows[1..], last, seen);
      } else {
        var strip := StripWith(strips, windows[0]);
        var more := seen + Numbers(strip.tabs);
        var rest := Visited(strips, windows[1..], more);
        VisitedLast(strips, windows[1..], last, more);
        InOneMore(strip, rest, last);
        Regrouped([strip], rest, if last in more || InOne(rest, last) then [] else [StripWith(strips, last)]);
      }
    }
  }

  lemma VisitedGrows(strips: seq<Strip>, windows: seq<nat>, n: nat)
    requires |windows| == n + 1
    ensures var visited := Visited(strips, windows[..n], {});
            Visited(strips, windows, {}) ==
            visited + if InOne(visited, windows[n]) then [] else [StripWith(strips, windows[n])]
  {
    assert windows == windows[..n] + [windows[n]];
    VisitedLast(strips, windows[..n], windows[n], {});
  }

  /** Each window's strip is visited, once, when the first of its windows comes. */
  lemma {:induction false} VisitedIs(strips: seq<Strip>, windows: seq<nat>) returns (at: seq<nat>)
    ensures FirstAt(strips, windows, Visited(strips, windows, {}), at)
    decreases |windows|
  {
    if windows == [] {
      at := [];
    } else {
      var n := |windows| - 1;
      var visited := Visited(strips, windows[..n], {});
      var before := VisitedIs(strips, windows[..n]);
      VisitedGrows(strips, windows, n);
      at := if InOne(visited, windows[n]) then before else before + [n];
      NextFirst(strips, windows, n, visited, Visited(strips, windows, {}), before, at);
    }
  }

  lemma NextFirst(strips: seq<Strip>, windows: seq<nat>, n: nat, visited: seq<Strip>, all: seq<Strip>, before: seq<nat>,
                  at: seq<nat>)
    requires |windows| == n + 1 && FirstAt(strips, windows[..n], visited, before)
    requires all == visited + if InOne(visited, windows[n]) then [] else [StripWith(strips, windows[n])]
    requires at == if InOne(visited, windows[n]) then before else before + [n]
    ensures FirstAt(strips, windows, all, at)
  {
    if InOne(visited, windows[n]) {
      assert all == visited;
      StillFirst(strips, windows, n, visited, at);
    } else {
      StripHolds(strips, windows[n]);
      OneMoreFirst(strips, windows, n, visited, before);
    }
  }

  lemma LastIn(windows: seq<nat>, n: nat, visited: seq<Strip>, all: seq<Strip>)
    requires |windows| == n + 1 && AllIn(windows[..n], visited) && InOne(all, windows[n])
    requires forall w | InOne(visited, w) :: InOne(all, w)
    ensures AllIn(windows, all)
  {
    forall k | 0 <= k < |windows|
      ensures InOne(all, windows[k])
    {
      if k < n {
        assert windows[..n][k] == windows[k];
      }
    }
  }

  lemma StillFirst(strips: seq<Strip>, windows: seq<nat>, n: nat, visited: seq<Strip>, at: seq<nat>)
    requires |windows| == n + 1 && FirstAt(strips, windows[..n], visited, at) && InOne(visited, windows[n])
    ensures FirstAt(strips, windows, visited, at)
  {
    LastIn(windows, n, visited, visited);
    MoreWindows(strips, windows, n, visited, at);
  }

  lemma MoreWindows(strips: seq<Strip>, windows: seq<nat>, n: nat, visited: seq<Strip>, at: seq<nat>)
    requires |windows| == n + 1 && StripsAt(strips, windows[..n], visited, at) && EachNew(windows[..n], visited, at)
    ensures StripsAt(strips, windows, visited, at) && EachNew(windows, visited, at)
  {
    assert forall i | 0 <= i < |at| :: windows[..n][at[i]] == windows[at[i]];
  }

  lemma OneMoreFirst(strips: seq<Strip>, windows: seq<nat>, n: nat, visited: seq<Strip>, at: seq<nat>)
    requires |windows| == n + 1 && FirstAt(strips, windows[..n], visited, at) && !InOne(visited, windows[n])
    requires windows[n] in StripWith(strips, windows[n]).tabs
    ensures FirstAt(strips, windows, visited + [StripWith(strips, windows[n])], at + [n])
  {
    var strip := StripWith(strips, windows[n]);
    forall w
      ensures InOne(visited + [strip], w) <==> w in strip.tabs || InOne(visited, w)
    {
      InOneMore(strip, visited, w);
    }
    LastIn(windows, n, visited, visited + [strip]);
    assert forall i | 0 <= i < |at| :: at[i] < n;
    MoreWindows(strips, windows, n, visited, at);
  }

  // ------------------------------------------------------------- the whole session

  function WithTheirs(app: App, strips: seq<Strip>): seq<Strip> {
    if strips == [] then []
    else (if Theirs(app, strips[0]) then [strips[0]] else []) + WithTheirs(app, strips[1..])
  }

  /** Window by window, what is collected is the strips' that have a tab of the
      person's. */
  ghost predicate AllSavedAs(app: App, strips: seq<Strip>, session: Session) {
    |session| == |strips| && forall i | 0 <= i < |strips| :: Saves(app, strips[i], session[i])
  }

  lemma {:induction false} CollectIs(app: App, windows: seq<nat>, seen: set<nat>)
    ensures AllSavedAs(app, WithTheirs(app, Visited(app.strips, windows, seen)), Collect(app, windows, seen))
  {
    if windows != [] {
      if windows[0] in seen {
        CollectIs(app, windows[1..], seen);
      } else {
        var strip := StripWith(app.strips, windows[0]);
        var more := seen + Numbers(strip.tabs);
        CollectIs(app, windows[1..], more);
        var theirs := WithTheirs(app, Visited(app.strips, windows[1..], more));
        var rest := Collect(app, windows[1..], more);
        SavedIs(app, strip);
        TheirsFirst(app, strip, Visited(app.strips, windows[1..], more));
        if Theirs(app, strip) {
          var saved := SavedOf(app, strip)[0];
          PutSaved(app, strip, saved, theirs, rest);
          assert SavedOf(app, strip) == [saved];
        } else {
          assert [] + theirs == theirs && [] + rest == rest;
        }
      }
    }
  }

  lemma TheirsFirst(app: App, strip: Strip, strips: seq<Strip>)
    ensures WithTheirs(app, [strip] + strips) == (if Theirs(app, strip) then [strip] else []) + WithTheirs(app, strips)
  {
    assert ([strip] + strips)[0] == strip && ([strip] + strips)[1..] == strips;
  }

  lemma PutSaved(app: App, strip: Strip, window: SavedWindow, strips: seq<Strip>, session: Session)
    requires AllSavedAs(app, strips, session) && Saves(app, strip, window)
    ensures AllSavedAs(app, [strip] + strips, [window] + session)
  {
    var all, windows := [strip] + strips, [window] + session;
    forall i | 0 <= i < |all|
      ensures Saves(app, all[i], windows[i])
    {
      if i > 0 {
        assert all[i] == strips[i - 1] && windows[i] == session[i - 1];
      }
    }
  }

  /** For any windows, any of them agents': the session is collected from each
      strip that has a tab of the person's, once, in the order its first window
      is in; of such a strip it has the person's tabs, all of them and in order,
      as they are shown, and no other; and in front the person's tab in front,
      where there is one. */
  lemma CollectedAre(app: App) returns (at: seq<nat>)
    ensures var visited := Visited(app.strips, app.windows, {});
            && FirstAt(app.strips, app.windows, visited, at)
            && AllSavedAs(app, WithTheirs(app, visited), Collect(app, app.windows, {}))
  {
    at := VisitedIs(app.strips, app.windows);
    CollectIs(app, app.windows, {});
  }

  /** The same windows in the same strips, showing the same but for agents'. */
  ghost predicate SameButAgents(app: App, other: App) {
    && other.windows == app.windows && other.strips == app.strips && other.agents == app.agents
    && forall tab: nat | tab !in app.agents :: other.shots(tab) == app.shots(tab)
  }

  lemma SavedAlike(app: App, other: App, strip: Strip)
    requires SameButAgents(app, other)
    ensures SavedOf(other, strip) == SavedOf(app, strip)
  {
    var tabs := Outside(strip.tabs, app.agents);
    OutsideAre(strip.tabs, app.agents);
    assert forall i | 0 <= i < |tabs| :: tabs[i] in tabs;
    assert SavedTabs(other, strip, tabs) == SavedTabs(app, strip, tabs);
  }

  lemma {:induction false} CollectedAlike(app: App, other: App, windows: seq<nat>, seen: set<nat>)
    requires SameButAgents(app, other)
    ensures Collect(other, windows, seen) == Collect(app, windows, seen)
  {
    if windows != [] {
      var strip := StripWith(app.strips, windows[0]);
      SavedAlike(app, other, strip);
      CollectedAlike(app, other, windows[1..], seen);
      CollectedAlike(app, other, windows[1..], seen + Numbers(strip.tabs));
    }
  }

  /** Nothing an agent's windows show is in the session, its text, or what is
      opened from it: whatever else they showed, those would be the same. */
  lemma AgentsUnseen(parse: Parser, app: App, other: App, lone: nat -> bool)
    requires SameButAgents(app, other)
    ensures SessionOf(parse, other) == SessionOf(parse, app)
    ensures ToText(SessionOf(parse, other)) == ToText(SessionOf(parse, app))
    ensures Relaunched(parse, other, lone) == Relaunched(parse, app, lone)
  {
    CollectedAlike(app, other, app.windows, {});
  }
}
