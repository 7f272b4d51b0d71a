/** Quitting and launching again: the session collected from the windows, kept
    as text, read back, and opened tab by tab. */
module Relaunch {
  import opened Wrappers
  import opened Lists
  import opened Address
  import opened SessionText
  import opened Strips
  import Text

  // ------------------------------------------------------------- a window opened again

  /** The numbers, from `first` on, of the tabs pinned, or of those that are not. */
  function Marked(flags: seq<bool>, first: nat, pin: bool): seq<nat> {
    if flags == [] then []
    else
      var n := |flags| - 1;
      Marked(flags[..n], first, pin) + if flags[n] == pin then [first + n] else []
  }

  /** The strip a saved window opens as, whatever order its tabs were in: those
      pinned, in their order, then the rest in theirs. `lone` is whether macOS
      makes a tab group even of one tab. */
  function Restored(flags: seq<bool>, first: nat, selected: nat, lone: bool): Strip {
    var pinned := Marked(flags, first, true);
    Strip(pinned + Marked(flags, first, false), Numbers(pinned),
          first + (if selected < |flags| then selected else 0), lone || |flags| > 1)
  }

  lemma {:induction false} MarkedAre(flags: seq<bool>, first: nat, pin: bool)
    ensures forall t :: t in Marked(flags, first, pin) <==> first <= t < first + |flags| && flags[t - first] == pin
  {
    if flags != [] {
      var n := |flags| - 1;
      MarkedAre(flags[..n], first, pin);
      forall t
        ensures t in Marked(flags, first, pin) <==> first <= t < first + |flags| && flags[t - first] == pin
      {
        if first <= t < first + n {
          assert flags[..n][t - first] == flags[t - first];
        }
      }
    }
  }

  lemma {:induction false} MarkedInOrder(flags: seq<bool>, first: nat, pin: bool)
    ensures forall i, j | 0 <= i < j < |Marked(flags, first, pin)| ::
              Marked(flags, first, pin)[i] < Marked(flags, first, pin)[j]
  {
    if flags != [] {
      var before := Marked(flags[..|flags| - 1], first, pin);
      MarkedInOrder(flags[..|flags| - 1], first, pin);
      MarkedAre(flags[..|flags| - 1], first, pin);
      assert forall i | 0 <= i < |before| :: before[i] in before;
    }
  }

  /** In increasing order. */
  predicate Increasing(tabs: seq<nat>) {
    forall i, j | 0 <= i < j < |tabs| :: tabs[i] < tabs[j]
  }

  /** What a saved window opens as: its pinned tabs in their order, then the rest
      in theirs, all of them and each once; and in front the one that was, or the
      first saved if that is not there. */
  lemma RestoredIs(flags: seq<bool>, first: nat, selected: nat, lone: bool) returns (pinned: seq<nat>, rest: seq<nat>)
    ensures var s := Restored(flags, first, selected, lone);
            && s.tabs == pinned + rest && Increasing(pinned) && Increasing(rest)
            && (forall t :: t in pinned <==> first <= t < first + |flags| && flags[t - first])
            && (forall t :: t in rest <==> first <= t < first + |flags| && !flags[t - first])
            && (forall t :: t in s.pinned <==> t in pinned)
            && s.front == (if selected < |flags| then first + selected else first)
  {
    pinned, rest := Marked(flags, first, true), Marked(flags, first, false);
    MarkedAre(flags, first, true);
    MarkedAre(flags, first, false);
    MarkedInOrder(flags, first, true);
    MarkedInOrder(flags, first, false);
  }

  lemma {:induction false} CountParts(a: seq<nat>, b: seq<nat>, pinned: set<nat>)
    requires (forall i | 0 <= i < |a| :: a[i] in pinned) && (forall i | 0 <= i < |b| :: b[i] !in pinned)
    ensures Count(a + b, pinned) == |a|
  {
    if a != [] {
      assert (a + b)[1..] == a[1..] + b;
      assert forall i | 0 <= i < |a[1..]| :: a[1..][i] == a[i + 1];
      CountParts(a[1..], b, pinned);
    } else {
      assert a + b == b;
      NonePinned(b, pinned);
    }
  }

  lemma {:induction false} NonePinned(b: seq<nat>, pinned: set<nat>)
    requires forall i | 0 <= i < |b| :: b[i] !in pinned
    ensures Count(b, pinned) == 0
  {
    if b != [] {
      assert forall i | 0 <= i < |b[1..]| :: b[1..][i] == b[i + 1];
      NonePinned(b[1..], pinned);
    }
  }

  lemma InsertBetween(a: seq<nat>, b: seq<nat>, tab: nat)
    ensures Insert(a + b, tab, |a|) == (a + [tab]) + b && Insert(a + b, tab, |a + b|) == a + (b + [tab])
  {
    Halves(a, b);
    assert (a + b)[..|a + b|] == a + b && (a + b)[|a + b|..] == [];
  }

  /** A new tab placed last. */
  lemma PlacedLast(s: Strip, tab: nat)
    requires Orderly(s) && tab !in s.tabs
    ensures var n := Placed(s, tab, |s.tabs|);
            Orderly(n) && n.tabs == s.tabs + [tab] && n.pinned == s.pinned && n.grouped && n.front == s.front
  {
    WithoutNone(s.tabs, tab);
    CountIsPrefix(s.tabs, s.pinned);
    InsertBetween(s.tabs, [], tab);
    assert s.tabs + [] == s.tabs && s.tabs + ([] + [tab]) == s.tabs + [tab];
    InsertIs(s.tabs, tab, |s.tabs|);
    InsertOrderly(s.tabs, s.pinned, tab, |s.tabs|);
  }

  /** A strip of pinned tabs `a`, then others `b`. */
  ghost predicate Halved(s: Strip, a: seq<nat>, b: seq<nat>) {
    Orderly(s) && s.tabs == a + b && s.pinned == Numbers(a) && forall t | t in b :: t !in a
  }

  lemma HalvedCount(s: Strip, a: seq<nat>, b: seq<nat>)
    requires Halved(s, a, b)
    ensures Count(a + b, s.pinned) == |a|
  {
    assert forall k | 0 <= k < |a| :: a[k] in a;
    assert forall k | 0 <= k < |b| :: b[k] in b;
    CountParts(a, b, s.pinned);
  }

  lemma PlacedHalved(s: Strip, a: seq<nat>, b: seq<nat>, tab: nat, index: nat)
    requires Halved(s, a, b) && tab !in s.tabs && index == |s.tabs|
    ensures var n := Placed(s, tab, index);
            Halved(n, a, b + [tab]) && tab in n.tabs && n.grouped
  {
    PlacedLast(s, tab);
    Regrouped(a, b, [tab]);
  }

  lemma PinnedTabs(s: Strip, a: seq<nat>, b: seq<nat>, tab: nat)
    requires Orderly(s) && s.tabs == (a + b) + [tab] && tab !in a + b && Count(a + b, s.pinned) == |a|
    ensures PinSet(s, tab, true).tabs == (a + [tab]) + b && PinSet(s, tab, true).pinned == s.pinned + {tab}
    ensures Orderly(PinSet(s, tab, true))
  {
    PinSetIs(s, tab, true);
    WithoutAppended(a + b, tab);
    InsertBetween(a, b, tab);
  }

  lemma PinnedHalved(s: Strip, a: seq<nat>, b: seq<nat>, tab: nat)
    requires Halved(s, a, b + [tab]) && tab !in a + b
    ensures Halved(PinSet(s, tab, true), a + [tab], b) && tab in s.tabs
  {
    Regrouped(a, b, [tab]);
    HalvedSoFar(s, a, b, tab);
    PinnedTabs(s, a, b, tab);
    NumbersMore(a, tab);
    assert forall t | t in b :: t in b + [tab] && t in a + b;
  }

  lemma NumbersMore(a: seq<nat>, tab: nat)
    ensures Numbers(a + [tab]) == Numbers(a) + {tab}
  {
  }

  lemma HalvedSoFar(s: Strip, a: seq<nat>, b: seq<nat>, tab: nat)
    requires Halved(s, a, b + [tab])
    ensures Count(a + b, s.pinned) == |a|
  {
    assert forall k | 0 <= k < |a| :: a[k] in a;
    assert forall k | 0 <= k < |b| :: b[k] == (b + [tab])[k];
    CountParts(a, b, s.pinned);
  }

  /** The tabs of the first `i` saved, pinned or not, by number. */
  function FirstMarked(flags: seq<bool>, first: nat, i: nat, pin: bool): seq<nat>
    requires i <= |flags|
  {
    Marked(flags[..i], first, pin)
  }

  lemma MarkedNext(flags: seq<bool>, first: nat, i: nat, pin: bool, tab: nat, next: nat)
    requires i < |flags| && tab == first + i && next == i + 1
    ensures FirstMarked(flags, first, next, pin) == FirstMarked(flags, first, i, pin) + if flags[i] == pin then [tab] else []
  {
    assert flags[..next][..i] == flags[..i];
  }

  /** What is opened so far of a saved window. */
  ghost predicate OpenedSoFar(s: Strip, flags: seq<bool>, first: nat, i: nat) {
    i <= |flags| && Halved(s, FirstMarked(flags, first, i, true), FirstMarked(flags, first, i, false))
  }

  lemma SoFarIs(s: Strip, flags: seq<bool>, first: nat, i: nat, tab: nat)
    requires i < |flags| && OpenedSoFar(s, flags, first, i) && tab == first + i
    ensures tab !in s.tabs && |s.tabs| == i
  {
    MarkedAre(flags[..i], first, true);
    MarkedAre(flags[..i], first, false);
    MarkedCount(flags[..i], first);
  }

  lemma OpenedNext(s: Strip, flags: seq<bool>, first: nat, i: nat, tab: nat, next: nat)
    requires i < |flags| && OpenedSoFar(s, flags, first, i) && tab == first + i && next == i + 1
    ensures var n := Placed(s, tab, i);
            && Orderly(n) && tab in n.tabs && n.grouped
            && OpenedSoFar(if flags[i] then PinSet(n, tab, true) else n, flags, first, next)
  {
    var a, b := FirstMarked(flags, first, i, true), FirstMarked(flags, first, i, false);
    SoFarIs(s, flags, first, i, tab);
    MarkedNext(flags, first, i, true, tab, next);
    MarkedNext(flags, first, i, false, tab, next);
    PlacedHalved(s, a, b, tab, i);
    if flags[i] {
      PinnedHalved(Placed(s, tab, i), a, b, tab);
      assert b + [] == b;
    } else {
      assert a + [] == a;
    }
  }

  lemma WithoutAppended(tabs: seq<nat>, tab: nat)
    requires tab !in tabs
    ensures Without(tabs + [tab], tab) == tabs
  {
    WithoutBetween(tabs, tab, []);
    assert tabs + [tab] + [] == tabs + [tab] && tabs + [] == tabs;
  }

  lemma {:induction false} MarkedCount(flags: seq<bool>, first: nat)
    ensures |Marked(flags, first, true)| + |Marked(flags, first, false)| == |flags|
  {
    if flags != [] {
      MarkedCount(flags[..|flags| - 1], first);
    }
  }

  /** Open a saved window's tabs, one by one, pinning those that were; then bring
      forward the one that was in front. */
  method OpenWindow(flags: seq<bool>, first: nat, selected: nat, lone: bool) returns (group: TabGroup)
    requires flags != []
    ensures fresh(group) && group.Valid() && group.View() == Restored(flags, first, selected, lone)
  {
    group := OpenFirst(flags, first, lone);
    for i := 1 to |flags|
      invariant fresh(group) && OpenedSoFar(group.View(), flags, first, i)
      invariant group.grouped == (lone || i > 1)
    {
      OpenNext(group, flags, first, i, first + i, i + 1);
    }
    BringForward(group, flags, first, selected, lone);
  }

  method BringForward(group: TabGroup, flags: seq<bool>, first: nat, selected: nat, lone: bool)
    requires flags != [] && OpenedSoFar(group.View(), flags, first, |flags|) && group.grouped == (lone || |flags| > 1)
    modifies group`front
    ensures group.Valid() && group.View() == Restored(flags, first, selected, lone)
  {
    var chosen := first + if selected < |flags| then selected else 0;
    AllOpened(group.View(), flags, first, selected, chosen);
    group.front := chosen;
  }

  method OpenFirst(flags: seq<bool>, first: nat, lone: bool) returns (group: TabGroup)
    requires flags != []
    ensures fresh(group) && OpenedSoFar(group.View(), flags, first, 1) && group.grouped == lone
  {
    group := new TabGroup(first, lone);
    FirstOpened(flags, first, lone);
    if flags[0] {
      group.SetPinned(first, true);
    }
  }

  method OpenNext(group: TabGroup, flags: seq<bool>, first: nat, i: nat, tab: nat, ghost next: nat)
    requires i < |flags| && OpenedSoFar(group.View(), flags, first, i) && tab == first + i && next == i + 1
    modifies group
    ensures OpenedSoFar(group.View(), flags, first, next) && group.grouped
  {
    OpenedNext(group.View(), flags, first, i, tab, next);
    group.Place(tab, i);
    if flags[i] {
      group.SetPinned(tab, true);
    }
  }

  lemma AllOpened(s: Strip, flags: seq<bool>, first: nat, selected: nat, chosen: nat)
    requires flags != [] && OpenedSoFar(s, flags, first, |flags|)
    requires chosen == first + (if selected < |flags| then selected else 0)
    ensures Orderly(s.(front := chosen))
    ensures s.(front := chosen) == Restored(flags, first, selected, s.grouped && |flags| == 1).(grouped := s.grouped)
  {
    assert flags[..|flags|] == flags;
    MarkedAre(flags, first, true);
    MarkedAre(flags, first, false);
  }

  lemma FirstOpened(flags: seq<bool>, first: nat, lone: bool)
    requires flags != []
    ensures var s := Strip([first], {}, first, lone);
            && Orderly(s)
            && OpenedSoFar(if flags[0] then PinSet(s, first, true) else s, flags, first, 1)
  {
    var s := Strip([first], {}, first, lone);
    MarkedNext(flags, first, 0, true, first, 1);
    MarkedNext(flags, first, 0, false, first, 1);
    assert flags[..0] == [];
    WithoutAppended([], first);
    assert [] + [first] == [first];
  }

  // ------------------------------------------------------------- in the order it was saved

  function Range(first: nat, n: nat): (r: seq<nat>)
    ensures |r| == n && forall i | 0 <= i < n :: r[i] == first + i
  {
    if n == 0 then [] else Range(first, n - 1) + [first + (n - 1)]
  }

  predicate PinsFirst(tabs: seq<SavedTab>) {
    forall i, j | 0 <= i < j < |tabs| && tabs[j].pinned :: tabs[i].pinned
  }

  predicate FlagsFirst(flags: seq<bool>) {
    forall i, j | 0 <= i < j < |flags| && flags[j] :: flags[i]
  }

  function Flags(tabs: seq<SavedTab>): seq<bool> {
    seq(|tabs|, i requires 0 <= i < |tabs| => tabs[i].pinned)
  }

  lemma {:induction false} NoneMarked(flags: seq<bool>, first: nat)
    requires forall i | 0 <= i < |flags| :: flags[i]
    ensures Marked(flags, first, false) == []
  {
    if flags != [] {
      NoneMarked(flags[..|flags| - 1], first);
    }
  }

  lemma RangeNext(first: nat, n: nat, tab: nat, next: nat)
    requires tab == first + n && next == n + 1
    ensures Range(first, next) == Range(first, n) + [tab] && tab !in Range(first, n)
  {
  }

  /** A window whose pinned tabs came first opens in the order it was saved. */
  lemma {:induction false} RestoredInOrder(flags: seq<bool>, first: nat)
    requires FlagsFirst(flags)
    ensures Marked(flags, first, true) + Marked(flags, first, false) == Range(first, |flags|)
  {
    if flags != [] {
      var n := |flags| - 1;
      var a, b := Marked(flags[..n], first, true), Marked(flags[..n], first, false);
      RestoredInOrder(flags[..n], first);
      RangeNext(first, n, first + n, |flags|);
      if flags[n] {
        NoneMarked(flags[..n], first);
        assert a + [] == a;
        assert (a + [first + n]) + [] == a + [first + n];
      } else {
        Regrouped(a, b, [first + n]);
        assert a + [] == a;
      }
    }
  }

  // ------------------------------------------------------------- the application's windows

  /** Windows in the order they were opened, the strips they are tabbed in, those
      that are an agent's, and the address and title each tab shows, if any. */
  datatype App = App(windows: seq<nat>, strips: seq<Strip>, agents: set<nat>, shots: nat -> Option<Shot>)

  datatype Shot = Shot(address: string, title: string)

  /** The strip `window` is in. */
  function StripWith(strips: seq<Strip>, window: nat): Strip {
    if strips == [] then Strip([window], {}, window, false)
    else if window in strips[0].tabs then strips[0] else StripWith(strips[1..], window)
  }

  function SavedTabOf(app: App, strip: Strip, tab: nat): SavedTab {
    match app.shots(tab)
    case Some(shot) => SavedTab(shot.address, shot.title, tab in strip.pinned)
    case None => SavedTab("", "", false)
  }

  function SavedTabs(app: App, strip: Strip, tabs: seq<nat>): seq<SavedTab> {
    seq(|tabs|, i requires 0 <= i < |tabs| => SavedTabOf(app, strip, tabs[i]))
  }

  /** A strip's tabs as the session has them, an agent's left out; nothing if
      none is left. */
  function SavedOf(app: App, strip: Strip): Session {
    var tabs := Outside(strip.tabs, app.agents);
    if tabs == [] then []
    else [SavedWindow(SavedTabs(app, strip, tabs),
                      if strip.grouped && strip.front in tabs then IndexOf(tabs, strip.front) else 0)]
  }

  /** Each window not seen yet, with those tabbed with it. */
  function Collect(app: App, windows: seq<nat>, seen: set<nat>): Session {
    if windows == [] then []
    else if windows[0] in seen then Collect(app, windows[1..], seen)
    else
      var strip := StripWith(app.strips, windows[0]);
      SavedOf(app, strip) + Collect(app, windows[1..], seen + Numbers(strip.tabs))
  }

  /** Every browser window's tabs, as the session keeps them. */
  function SessionOf(parse: Parser, app: App): Session {
    Kept(parse, Collect(app, app.windows, {}))
  }

  // ------------------------------------------------------------- opened again

  /** What tab `tab` shows, once a session's windows are opened from `first` on. */
  function ShotOf(session: Session, first: nat, tab: nat): Option<Shot> {
    if session == [] || tab < first then None
    else
      var tabs := session[0].tabs;
      if tab < first + |tabs| then Some(Shot(tabs[tab - first].address, tabs[tab - first].title))
      else ShotOf(session[1..], first + |tabs|, tab)
  }

  function WindowsOf(session: Session, first: nat): seq<nat> {
    if session == [] then []
    else Range(first, |session[0].tabs|) + WindowsOf(session[1..], first + |session[0].tabs|)
  }

  function StripsOf(session: Session, first: nat, lone: nat -> bool): seq<Strip> {
    if session == [] then []
    else
      [Restored(Flags(session[0].tabs), first, session[0].selected, lone(first))]
      + StripsOf(session[1..], first + |session[0].tabs|, lone)
  }

  /** The application with a session's windows opened, the tabs numbered in
      order; `lone` says whether a tab alone is given a tab group. */
  function OpenedApp(session: Session, lone: nat -> bool): App {
    App(WindowsOf(session, 0), StripsOf(session, 0, lone), {}, (tab: nat) => ShotOf(session, 0, tab))
  }

  /** A window that opens again as it was saved. */
  predicate Openable(window: SavedWindow) {
    window.selected < |window.tabs| && PinsFirst(window.tabs)
  }

  lemma {:induction false} OutsideNone(tabs: seq<nat>)
    ensures Outside(tabs, {}) == tabs
  {
    if tabs != [] {
      OutsideNone(tabs[1..]);
    }
  }

  lemma {:induction false} IndexInRange(first: nat, n: nat, k: nat, tab: nat)
    requires k < n && tab == first + k
    ensures tab in Range(first, n) && IndexOf(Range(first, n), tab) == k
    decreases k
  {
    var all := Range(first, n);
    assert all[k] == tab;
    if k > 0 {
      assert all[1..] == Range(first + 1, n - 1);
      IndexInRange(first + 1, n - 1, k - 1, tab);
    }
  }

  /** The tabs from `first` on show what `tabs` says. */
  predicate Shows(app: App, tabs: seq<SavedTab>, first: nat) {
    forall i | 0 <= i < |tabs| :: app.shots(first + i) == Some(Shot(tabs[i].address, tabs[i].title))
  }

  lemma OpenedInOrder(tabs: seq<SavedTab>, first: nat, selected: nat, lone: bool)
    requires PinsFirst(tabs)
    ensures Restored(Flags(tabs), first, selected, lone).tabs == Range(first, |tabs|)
    ensures forall i | 0 <= i < |tabs| ::
              first + i in Restored(Flags(tabs), first, selected, lone).pinned <==> tabs[i].pinned
  {
    RestoredInOrder(Flags(tabs), first);
    MarkedAre(Flags(tabs), first, true);
  }

  lemma SavedAsShown(app: App, strip: Strip, tabs: seq<SavedTab>, first: nat)
    requires strip.tabs == Range(first, |tabs|) && Shows(app, tabs, first)
    requires forall i | 0 <= i < |tabs| :: first + i in strip.pinned <==> tabs[i].pinned
    ensures SavedTabs(app, strip, strip.tabs) == tabs
  {
    forall i | 0 <= i < |tabs|
      ensures SavedTabs(app, strip, strip.tabs)[i] == tabs[i]
    {
      assert strip.tabs[i] == first + i;
    }
  }

  /** A window opened again is saved again as it was. */
  lemma OpenedIsSaved(app: App, window: SavedWindow, first: nat, lone: bool)
    requires Openable(window) && app.agents == {} && Shows(app, window.tabs, first)
    ensures SavedOf(app, Restored(Flags(window.tabs), first, window.selected, lone)) == [window]
  {
    var strip := Restored(Flags(window.tabs), first, window.selected, lone);
    OpenedInOrder(window.tabs, first, window.selected, lone);
    SavedAsShown(app, strip, window.tabs, first);
    OutsideNone(strip.tabs);
    IndexInRange(first, |window.tabs|, window.selected, strip.front);
    assert |Flags(window.tabs)| == |window.tabs| == |strip.tabs|;
    assert window == SavedWindow(window.tabs, window.selected);
  }

  // ------------------------------------------------------------- the whole session, opened and collected

  lemma {:induction false} SkipSeen(app: App, these: seq<nat>, more: seq<nat>, seen: set<nat>)
    requires forall i | 0 <= i < |these| :: these[i] in seen
    ensures Collect(app, these + more, seen) == Collect(app, more, seen)
  {
    if these == [] {
      assert these + more == more;
    } else {
      assert (these + more)[1..] == these[1..] + more;
      assert forall i | 0 <= i < |these[1..]| :: these[1..][i] == these[i + 1];
      SkipSeen(app, these[1..], more, seen);
    }
  }

  lemma {:induction false} StripAfter(before: seq<Strip>, strip: Strip, after: seq<Strip>, window: nat)
    requires window in strip.tabs && forall i | 0 <= i < |before| :: window !in before[i].tabs
    ensures StripWith(before + [strip] + after, window) == strip
  {
    var all := before + [strip] + after;
    if before == [] {
      assert all[0] == strip;
    } else {
      assert all[0] == before[0] && all[1..] == before[1..] + [strip] + after;
      assert forall i | 0 <= i < |before[1..]| :: before[1..][i] == before[i + 1];
      StripAfter(before[1..], strip, after, window);
    }
  }

  /** Where the windows opened so far are all numbered below `first`. */
  predicate Below(strips: seq<Strip>, first: nat) {
    forall i | 0 <= i < |strips| :: forall t | t in strips[i].tabs :: t < first
  }

  /** The first of the windows opened from `first` on. */
  lemma WindowCollected(app: App, window: SavedWindow, first: nat, lone: bool, before: seq<Strip>, after: seq<Strip>,
                        more: seq<nat>, seen: set<nat>)
    requires Openable(window) && app.agents == {} && Shows(app, window.tabs, first)
    requires app.strips == before + [Restored(Flags(window.tabs), first, window.selected, lone)] + after
    requires Below(before, first) && forall t | t in seen :: t < first
    ensures Collect(app, Range(first, |window.tabs|) + more, seen)
            == [window] + Collect(app, more, seen + Numbers(Range(first, |window.tabs|)))
  {
    var strip := Restored(Flags(window.tabs), first, window.selected, lone);
    var these := Range(first, |window.tabs|);
    OpenedInOrder(window.tabs, first, window.selected, lone);
    assert these[0] == first && first in strip.tabs;
    StripAfter(before, strip, after, first);
    OpenedIsSaved(app, window, first, lone);
    FirstCollected(app, these, more, seen, strip);
    SkipSeen(app, these[1..], more, seen + Numbers(these));
  }

  lemma ShownFirst(app: App, session: Session, first: nat, next: nat)
    requires session != [] && next == first + |session[0].tabs|
    requires forall tab: nat | first <= tab :: app.shots(tab) == ShotOf(session, first, tab)
    ensures Shows(app, session[0].tabs, first)
    ensures forall tab: nat | next <= tab :: app.shots(tab) == ShotOf(session[1..], next, tab)
  {
  }

  lemma BelowNext(before: seq<Strip>, strip: Strip, first: nat, next: nat, n: nat)
    requires Below(before, first) && strip.tabs == Range(first, n) && next == first + n
    ensures Below(before + [strip], next)
  {
  }

  /** What is collected from windows opened from `first` on. */
  lemma {:induction false} CollectOpened(app: App, session: Session, first: nat, lone: nat -> bool, before: seq<Strip>, seen: set<nat>)
    requires forall i | 0 <= i < |session| :: Openable(session[i])
    requires app.agents == {} && app.strips == before + StripsOf(session, first, lone)
    requires Below(before, first) && forall t | t in seen :: t < first
    requires forall tab: nat | first <= tab :: app.shots(tab) == ShotOf(session, first, tab)
    ensures Collect(app, WindowsOf(session, first), seen) == session
    decreases |session|
  {
    if session != [] {
      var window, n := session[0], |session[0].tabs|;
      var next := first + n;
      var strip := Restored(Flags(window.tabs), first, window.selected, lone(first));
      var after := StripsOf(session[1..], next, lone);
      Regrouped(before, [strip], after);
      ShownFirst(app, session, first, next);
      WindowCollected(app, window, first, lone(first), before, after, WindowsOf(session[1..], next), seen);
      OpenedInOrder(window.tabs, first, window.selected, lone(first));
      BelowNext(before, strip, first, next, n);
      CollectOpened(app, session[1..], next, lone, before + [strip], seen + Numbers(Range(first, n)));
    }
  }

  lemma FirstCollected(app: App, these: seq<nat>, more: seq<nat>, seen: set<nat>, strip: Strip)
    requires these != [] && these[0] !in seen && StripWith(app.strips, these[0]) == strip
    ensures Collect(app, these + more, seen) == SavedOf(app, strip) + Collect(app, these[1..] + more, seen + Numbers(strip.tabs))
  {
    assert (these + more)[1..] == these[1..] + more;
  }

  // ------------------------------------------------------------- pinned tabs come first in the session too

  /** Of the tabs that may be saved, the pinned ones come first. */
  predicate KeptPinsFirst(tabs: seq<SavedTab>, keep: SavedTab -> bool) {
    forall i, j | 0 <= i < j < |tabs| && keep(tabs[i]) && keep(tabs[j]) && tabs[j].pinned :: tabs[i].pinned
  }

  lemma {:induction false} ThosePinsFirst(tabs: seq<SavedTab>, keep: SavedTab -> bool)
    requires KeptPinsFirst(tabs, keep)
    ensures PinsFirst(Those(tabs, keep))
  {
    if tabs != [] {
      var rest := tabs[1..];
      assert forall i | 0 <= i < |rest| :: rest[i] == tabs[i + 1];
      ThosePinsFirst(rest, keep);
      ThoseAre(rest, keep);
      var kept := Those(rest, keep);
      forall j | 0 <= j < |kept| && kept[j].pinned && keep(tabs[0])
        ensures tabs[0].pinned
      {
        assert kept[j] in kept;
        var k :| 0 <= k < |rest| && rest[k] == kept[j];
        assert tabs[k + 1] == kept[j];
      }
    }
  }

  lemma {:induction false} OutsideFirst(tabs: seq<nat>, these: set<nat>, pinned: set<nat>)
    requires PinnedFirst(tabs, pinned)
    ensures PinnedFirst(Outside(tabs, these), pinned)
  {
    if tabs != [] {
      var rest := tabs[1..];
      assert forall i | 0 <= i < |rest| :: rest[i] == tabs[i + 1];
      OutsideFirst(rest, these, pinned);
      OutsideAre(rest, these);
      var left := Outside(rest, these);
      forall j | 0 <= j < |left| && left[j] in pinned
        ensures tabs[0] in pinned
      {
        assert left[j] in left;
        var k :| 0 <= k < |rest| && rest[k] == left[j];
        assert tabs[k + 1] == left[j];
      }
    }
  }

  predicate AllKeptPinsFirst(session: Session, keep: SavedTab -> bool) {
    forall i | 0 <= i < |session| :: KeptPinsFirst(session[i].tabs, keep)
  }

  predicate AllPinsFirst(session: Session) {
    forall i | 0 <= i < |session| :: PinsFirst(session[i].tabs)
  }

  predicate AllOrderly(strips: seq<Strip>) {
    forall i | 0 <= i < |strips| :: Orderly(strips[i])
  }

  lemma {:induction false} StripWithOrderly(strips: seq<Strip>, window: nat)
    requires AllOrderly(strips)
    ensures Orderly(StripWith(strips, window)) && window in StripWith(strips, window).tabs
  {
    if strips != [] && window !in strips[0].tabs {
      assert forall i | 0 <= i < |strips[1..]| :: strips[1..][i] == strips[i + 1];
      StripWithOrderly(strips[1..], window);
    }
  }

  lemma SavedPinsFirst(parse: Parser, app: App, strip: Strip)
    requires Orderly(strip)
    ensures AllKeptPinsFirst(SavedOf(app, strip), MaySave(parse))
  {
    var tabs := Outside(strip.tabs, app.agents);
    OutsideFirst(strip.tabs, app.agents, strip.pinned);
    var saved := SavedTabs(app, strip, tabs);
    assert !WrittenAsWeb("");
    assert forall i | 0 <= i < |saved| && Savable(parse, saved[i].address) :: saved[i].pinned <==> tabs[i] in strip.pinned;
  }

  lemma {:induction false} CollectPinsFirst(parse: Parser, app: App, windows: seq<nat>, seen: set<nat>)
    requires AllOrderly(app.strips)
    ensures AllKeptPinsFirst(Collect(app, windows, seen), MaySave(parse))
  {
    if windows != [] {
      var strip := StripWith(app.strips, windows[0]);
      StripWithOrderly(app.strips, windows[0]);
      SavedPinsFirst(parse, app, strip);
      CollectPinsFirst(parse, app, windows[1..], seen);
      CollectPinsFirst(parse, app, windows[1..], seen + Numbers(strip.tabs));
    }
  }

  lemma KeepingPinsFirst(parse: Parser, session: Session)
    requires AllKeptPinsFirst(session, MaySave(parse))
    ensures AllPinsFirst(Kept(parse, session))
  {
    var each, kept := Each(session, MaySave(parse)), Kept(parse, session);
    NotEmptyAre(each);
    forall i | 0 <= i < |kept|
      ensures PinsFirst(kept[i].tabs)
    {
      assert kept[i] in kept;
      var j :| 0 <= j < |each| && each[j] == kept[i];
      ThosePinsFirst(session[j].tabs, MaySave(parse));
    }
  }

  // ------------------------------------------------------------- quitting and launching again

  /** What is read back of a session kept. */
  function KeptInFile(parse: Parser, session: Session): Session {
    FromText(parse, ToText(session))
  }

  /** The application after it quits, keeping its session, and is launched again. */
  function Relaunched(parse: Parser, app: App, lone: nat -> bool): App {
    OpenedApp(KeptInFile(parse, SessionOf(parse, app)), lone)
  }

  /** Its strips are as any steps leave them, and no longer than a `usize`
      counts. */
  predicate Fit(app: App) {
    AllOrderly(app.strips) && forall i | 0 <= i < |app.strips| :: |app.strips[i].tabs| < Text.USIZE
  }

  lemma {:induction false} OutsideShorter(tabs: seq<nat>, these: set<nat>)
    ensures |Outside(tabs, these)| <= |tabs|
  {
    if tabs != [] {
      OutsideShorter(tabs[1..], these);
    }
  }

  lemma {:induction false} CollectCounted(app: App, windows: seq<nat>, seen: set<nat>)
    requires Fit(app)
    ensures forall i | 0 <= i < |Collect(app, windows, seen)| :: |Collect(app, windows, seen)[i].tabs| < Text.USIZE
  {
    if windows != [] {
      var strip := StripWith(app.strips, windows[0]);
      StripWithShort(app.strips, windows[0]);
      OutsideShorter(strip.tabs, app.agents);
      CollectCounted(app, windows[1..], seen);
      CollectCounted(app, windows[1..], seen + Numbers(strip.tabs));
    }
  }

  lemma {:induction false} StripWithShort(strips: seq<Strip>, window: nat)
    requires forall i | 0 <= i < |strips| :: |strips[i].tabs| < Text.USIZE
    ensures |StripWith(strips, window).tabs| < Text.USIZE
  {
    if strips != [] && window !in strips[0].tabs {
      assert forall i | 0 <= i < |strips[1..]| :: strips[1..][i] == strips[i + 1];
      StripWithShort(strips[1..], window);
    }
  }

  /** What a session keeps: windows that may be kept as they are, pinned first. */
  lemma SessionIs(parse: Parser, app: App)
    requires Fit(app)
    ensures var session := SessionOf(parse, app);
            && Kept(parse, session) == session && AllPinsFirst(session)
            && forall i | 0 <= i < |session| :: session[i].selected < |session[i].tabs| < Text.USIZE
  {
    var all := Collect(app, app.windows, {});
    KeptIs(parse, all);
    KeptIs(parse, SessionOf(parse, app));
    CollectPinsFirst(parse, app, app.windows, {});
    KeepingPinsFirst(parse, all);
    CollectCounted(app, app.windows, {});
    KeptShorter(parse, all);
  }

  lemma KeptShorter(parse: Parser, session: Session)
    requires forall i | 0 <= i < |session| :: |session[i].tabs| < Text.USIZE
    ensures forall i | 0 <= i < |Kept(parse, session)| :: |Kept(parse, session)[i].tabs| < Text.USIZE
  {
    var each, kept := Each(session, MaySave(parse)), Kept(parse, session);
    NotEmptyAre(each);
    forall i | 0 <= i < |kept|
      ensures |kept[i].tabs| < Text.USIZE
    {
      assert kept[i] in kept;
      var j :| 0 <= j < |each| && each[j] == kept[i];
      ThoseAre(session[j].tabs, MaySave(parse));
    }
  }

  lemma ReadIsClean(session: Session, keep: SavedTab -> bool)
    requires AllPinsFirst(session)
    ensures var read := Clamp(FirstWindows(CleanAll(session)));
            && AllKeptPinsFirst(read, keep) && WithinLimits(read)
            && forall i | 0 <= i < |read| :: forall tab | tab in read[i].tabs :: exists raw :: tab == CleanTab(raw)
  {
    var read := Clamp(FirstWindows(CleanAll(session)));
    forall i | 0 <= i < |read|
      ensures KeptPinsFirst(read[i].tabs, keep) && |read[i].tabs| <= TABS
      ensures forall tab | tab in read[i].tabs :: exists raw :: tab == CleanTab(raw)
    {
      WindowIsClean(session[i], keep);
      assert read[i].tabs == CleanWindow(session[i]).tabs;
    }
  }

  lemma WindowIsClean(window: SavedWindow, keep: SavedTab -> bool)
    requires PinsFirst(window.tabs)
    ensures var tabs := CleanWindow(window).tabs;
            KeptPinsFirst(tabs, keep) && |tabs| <= TABS && forall tab | tab in tabs :: exists raw :: tab == CleanTab(raw)
  {
    var tabs := CleanWindow(window).tabs;
    forall tab | tab in tabs
      ensures exists raw :: tab == CleanTab(raw)
    {
      var i :| 0 <= i < |tabs| && tabs[i] == tab;
      assert tab == CleanTab(window.tabs[i]);
    }
  }

  /** A session read back of windows pinned first has them pinned first. */
  lemma ReadPinsFirst(parse: Parser, session: Session)
    requires AllPinsFirst(session) && forall i | 0 <= i < |session| :: session[i].selected < Text.USIZE
    ensures AllPinsFirst(KeptInFile(parse, session)) && OnOneLine(KeptInFile(parse, session))
    ensures Kept(parse, KeptInFile(parse, session)) == KeptInFile(parse, session) && WithinLimits(KeptInFile(parse, session))
  {
    var read := Clamp(FirstWindows(CleanAll(session)));
    PrintedReadsBack(parse, session);
    ReadIsClean(session, MaySave(parse));
    KeepingPinsFirst(parse, read);
    KeptIs(parse, read);
    KeptWithinLimits(parse, read);
    KeptOnOneLine(parse, read);
  }

  lemma CleanTwice(text: string)
    ensures OneLine(OneLine(text)) == OneLine(text)
  {
    var once := OneLine(text);
    assert forall i | 0 <= i < |once| :: once[i] in once;
  }

  lemma KeptOnOneLine(parse: Parser, session: Session)
    requires forall i | 0 <= i < |session| :: forall tab | tab in session[i].tabs :: exists raw :: tab == CleanTab(raw)
    ensures OnOneLine(Kept(parse, session))
  {
    var each, kept := Each(session, MaySave(parse)), Kept(parse, session);
    NotEmptyAre(each);
    forall i, j | 0 <= i < |kept| && 0 <= j < |kept[i].tabs|
      ensures OneLine(kept[i].tabs[j].address) == kept[i].tabs[j].address
      ensures OneLine(kept[i].tabs[j].title) == kept[i].tabs[j].title
    {
      assert kept[i] in kept;
      var k :| 0 <= k < |each| && each[k] == kept[i];
      ThoseAre(session[k].tabs, MaySave(parse));
      assert kept[i].tabs[j] in kept[i].tabs;
      var raw :| kept[i].tabs[j] == CleanTab(raw);
      CleanTwice(raw.address);
      CleanTwice(raw.title);
    }
  }

  /** A session opened again is collected again as it was. */
  lemma OpenedRoundTrip(parse: Parser, session: Session, lone: nat -> bool)
    requires Kept(parse, session) == session && AllPinsFirst(session)
    ensures SessionOf(parse, OpenedApp(session, lone)) == session
  {
    KeptIs(parse, session);
    CollectOpened(OpenedApp(session, lone), session, 0, lone, [], {});
  }

  /** Quitting and launching again: what is then kept is what was kept, its
      first windows and tabs, each on one line. Kept again it is just the same,
      however often; and if it was on one line and within the limits to begin
      with, it is just what it was: every window, its order, its pins, and the
      tab in front, or the first just like it. */
  lemma QuitAndRelaunch(parse: Parser, app: App, lone: nat -> bool)
    requires Fit(app)
    ensures var first := SessionOf(parse, app);
            var second := SessionOf(parse, Relaunched(parse, app, lone));
            && second == Kept(parse, Clamp(FirstWindows(CleanAll(first))))
            && SessionOf(parse, Relaunched(parse, Relaunched(parse, app, lone), lone)) == second
            && (OnOneLine(first) && WithinLimits(first) ==> second == first)
  {
    var first := SessionOf(parse, app);
    SessionIs(parse, app);
    ReadPinsFirst(parse, first);
    PrintedReadsBack(parse, first);
    var second := KeptInFile(parse, first);
    OpenedRoundTrip(parse, second, lone);
    KeptRoundTrip(parse, second);
    if OnOneLine(first) && WithinLimits(first) {
      KeptRoundTrip(parse, first);
    }
  }

  // ------------------------------------------------------------- step by step

  lemma StripsOn(session: Session, i: nat, first: nat, lone: nat -> bool, strips: seq<Strip>, next: nat)
    requires i < |session| && next == first + |session[i].tabs|
    ensures strips + StripsOf(session[i..], first, lone)
            == (strips + [Restored(Flags(session[i].tabs), first, session[i].selected, lone(first))])
               + StripsOf(session[i + 1..], next, lone)
  {
    assert session[i..][1..] == session[i + 1..];
    Regrouped(strips, [Restored(Flags(session[i].tabs), first, session[i].selected, lone(first))],
                    StripsOf(session[i + 1..], next, lone));
  }

  /** Each group's strip as it now is. */
  ghost predicate Views(groups: seq<TabGroup>, strips: seq<Strip>)
    reads groups
  {
    |groups| == |strips| && forall i | 0 <= i < |groups| :: groups[i].View() == strips[i]
  }

  /** Open a session's windows, one after another. */
  method OpenSession(session: Session, lone: nat -> bool) returns (groups: seq<TabGroup>)
    requires forall i | 0 <= i < |session| :: session[i].tabs != []
    ensures forall group | group in groups :: fresh(group)
    ensures Views(groups, OpenedApp(session, lone).strips)
  {
    groups := [];
    var first: nat := 0;
    ghost var strips: seq<Strip> := [];
    ghost var all := StripsOf(session, 0, lone);
    for i := 0 to |session|
      invariant forall group | group in groups :: fresh(group)
      invariant Views(groups, strips)
      invariant strips + StripsOf(session[i..], first, lone) == all
    {
      var window := session[i];
      var next := first + |window.tabs|;
      StripsOn(session, i, first, lone, strips, next);
      var group := OpenWindow(Flags(window.tabs), first, window.selected, lone(first));
      groups, strips := groups + [group], strips + [group.View()];
      first := next;
    }
    assert strips + [] == strips && session[|session|..] == [];
  }

  lemma CollectOn(app: App, windows: seq<nat>, i: nat, seen: set<nat>, done: Session)
    requires i < |windows|
    ensures done + Collect(app, windows[i..], seen) ==
            if windows[i] in seen then done + Collect(app, windows[i + 1..], seen)
            else
              var strip := StripWith(app.strips, windows[i]);
              (done + SavedOf(app, strip)) + Collect(app, windows[i + 1..], seen + Numbers(strip.tabs))
  {
    assert windows[i..][1..] == windows[i + 1..];
    if windows[i] !in seen {
      var strip := StripWith(app.strips, windows[i]);
      Regrouped(done, SavedOf(app, strip), Collect(app, windows[i + 1..], seen + Numbers(strip.tabs)));
    }
  }

  /** Collect the session from the windows, in the order they were opened, each
      strip once; then keep what can be opened again. */
  method CollectSession(parse: Parser, app: App) returns (session: Session)
    ensures session == SessionOf(parse, app)
  {
    var seen: set<nat> := {};
    var done: Session := [];
    for i := 0 to |app.windows|
      invariant done + Collect(app, app.windows[i..], seen) == Collect(app, app.windows, {})
    {
      CollectOn(app, app.windows, i, seen, done);
      if app.windows[i] !in seen {
        var strip := StripWith(app.strips, app.windows[i]);
        done := done + SavedOf(app, strip);
        seen := seen + Numbers(strip.tabs);
      }
    }
    assert done + [] == done && app.windows[|app.windows|..] == [];
    session := Keep(parse, done);
  }

  // ------------------------------------------------------------- pinned tabs alone

  /** The start page in front, and so many pinned tabs before it. */
  ghost predicate PinnedBefore(s: Strip, page: nat, first: nat, i: nat) {
    Halved(s, Range(first, i), [page])
  }

  /** A tab put between the pinned and the rest, or last, beside a tab alone. */
  lemma PlacedBetween(s: Strip, a: seq<nat>, b: seq<nat>, tab: nat, index: nat)
    requires Halved(s, a, b) && tab !in s.tabs && index == |a|
    ensures var n := Placed(s, tab, index);
            Orderly(n) && tab in n.tabs && Without(n.tabs, tab) == a + b && n.pinned == s.pinned
  {
    WithoutNone(s.tabs, tab);
    if s.grouped {
      HalvedCount(s, a, b);
      InsertIs(s.tabs, tab, index);
      InsertOrderly(s.tabs, s.pinned, tab, index);
    } else {
      PlacedLast(s, tab);
      assert Placed(s, tab, index) == Placed(s, tab, |s.tabs|);
      WithoutAppended(s.tabs, tab);
    }
  }

  lemma PinBetween(n: Strip, a: seq<nat>, b: seq<nat>, tab: nat)
    requires Orderly(n) && tab in n.tabs && Without(n.tabs, tab) == a + b && n.pinned == Numbers(a)
    requires tab !in a + b && forall t | t in b :: t !in a
    ensures Halved(PinSet(n, tab, true), a + [tab], b)
  {
    assert forall k | 0 <= k < |a| :: a[k] in a;
    assert forall k | 0 <= k < |b| :: b[k] in b;
    CountParts(a, b, n.pinned);
    PinSetIs(n, tab, true);
    InsertBetween(a, b, tab);
    NumbersMore(a, tab);
    assert forall t | t in b :: t in a + b;
  }

  lemma PlacedBefore(s: Strip, page: nat, first: nat, i: nat, tab: nat, next: nat)
    requires PinnedBefore(s, page, first, i) && tab == first + i && next == i + 1 && page < first
    ensures var n := Placed(s, tab, i);
            Orderly(n) && tab in n.tabs && PinnedBefore(PinSet(n, tab, true), page, first, next)
  {
    var a := Range(first, i);
    RangeNext(first, i, tab, next);
    PlacedBetween(s, a, [page], tab, i);
    PinBetween(Placed(s, tab, i), a, [page], tab);
  }

  /** At launch, when windows are not kept: the pinned tabs, in order, then the
      start page, which is in front. */
  method OpenPinned(page: nat, first: nat, count: nat, lone: bool) returns (group: TabGroup)
    requires page < first
    ensures fresh(group) && group.Valid() && group.tabs == Range(first, count) + [page]
    ensures group.pinned == Numbers(Range(first, count)) && group.front == page
  {
    group := new TabGroup(page, lone);
    assert Range(first, 0) + [page] == [page];
    for i := 0 to count
      invariant fresh(group) && PinnedBefore(group.View(), page, first, i)
    {
      PinNext(group, page, first, i, first + i, i + 1);
    }
    group.front := page;
  }

  method PinNext(group: TabGroup, page: nat, first: nat, i: nat, tab: nat, ghost next: nat)
    requires PinnedBefore(group.View(), page, first, i) && tab == first + i && next == i + 1 && page < first
    modifies group
    ensures PinnedBefore(group.View(), page, first, next)
  {
    PlacedBefore(group.View(), page, first, i, tab, next);
    group.Place(tab, i);
    group.SetPinned(tab, true);
  }
}
