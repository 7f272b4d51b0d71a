/** A window's tabs, as its strip has them: where a new one goes, what pinning
    and unpinning move, and what closing closes. Pinned tabs come first, after
    any of these. */
module Strips {
  import opened Wrappers
  import opened Lists

  /** A strip: its tabs in order, by number; those that are pinned; the one in
      front; and whether macOS has made a tab group of it, as it need not have
      for a tab alone. */
  datatype Strip = Strip(tabs: seq<nat>, pinned: set<nat>, front: nat, grouped: bool)

  predicate PinnedFirst(tabs: seq<nat>, pinned: set<nat>) {
    forall i, j | 0 <= i < j < |tabs| && tabs[j] in pinned :: tabs[i] in pinned
  }

  predicate Sound(s: Strip) {
    && Distinct(s.tabs) && s.front in s.tabs && (forall t | t in s.pinned :: t in s.tabs)
    && (!s.grouped ==> |s.tabs| == 1)
  }

  predicate Orderly(s: Strip) {
    Sound(s) && PinnedFirst(s.tabs, s.pinned)
  }

  function Count(tabs: seq<nat>, pinned: set<nat>): nat {
    if tabs == [] then 0 else (if tabs[0] in pinned then 1 else 0) + Count(tabs[1..], pinned)
  }

  /** Where `tab` is, the strip's start if it is not there. */
  function IndexOf(tabs: seq<nat>, tab: nat): nat {
    if tabs == [] || tabs[0] == tab then 0
    else if tab !in tabs then 0 else 1 + IndexOf(tabs[1..], tab)
  }

  function Insert(tabs: seq<nat>, tab: nat, index: nat): seq<nat> {
    var k := if index < |tabs| then index else |tabs|;
    tabs[..k] + [tab] + tabs[k..]
  }

  /** `tab`, a new one or the strip's, at `index` among the strip's others. */
  function Placed(s: Strip, tab: nat, index: nat): Strip {
    if !s.grouped then s.(tabs := s.tabs + [tab], grouped := true)
    else s.(tabs := Insert(Without(s.tabs, tab), tab, index))
  }

  /** A new tab, after `after`, but never among the pinned ones; in front, or
      behind `parent`. */
  function Opened(s: Strip, tab: nat, after: nat, front: nat): Strip {
    var pinned := Count(s.tabs, s.pinned);
    var wanted := IndexOf(s.tabs, after) + 1;
    Placed(s, tab, if wanted < pinned then pinned else wanted).(front := front)
  }

  /** `tab` pinned, or unpinned. */
  function PinSet(s: Strip, tab: nat, pin: bool): Strip {
    var pinned := if pin then s.pinned + {tab} else s.pinned - {tab};
    var others := Without(s.tabs, tab);
    var at := Count(others, pinned);
    if others == [] || IndexOf(s.tabs, tab) == at then s.(pinned := pinned)
    else Placed(s.(pinned := pinned), tab, at).(front := tab)
  }

  function Closed(s: Strip, tab: nat, front: nat): Strip {
    s.(tabs := Without(s.tabs, tab), pinned := s.pinned - {tab}, front := front)
  }

  function OthersToClose(s: Strip, tab: nat): seq<nat> {
    Outside(Without(s.tabs, tab), s.pinned)
  }

  /** Those of `tabs` that are none of `these`. */
  function Outside(tabs: seq<nat>, these: set<nat>): seq<nat> {
    if tabs == [] then []
    else (if tabs[0] in these then [] else [tabs[0]]) + Outside(tabs[1..], these)
  }

  // ------------------------------------------------------------- the pinned come first

  /** Pinned first: the first `Count`, and no others. */
  lemma {:induction false} CountIsPrefix(tabs: seq<nat>, pinned: set<nat>)
    requires PinnedFirst(tabs, pinned)
    ensures Count(tabs, pinned) <= |tabs|
    ensures forall i | 0 <= i < |tabs| :: tabs[i] in pinned <==> i < Count(tabs, pinned)
  {
    if tabs != [] {
      var rest := tabs[1..];
      assert forall i | 0 <= i < |rest| :: rest[i] == tabs[i + 1];
      CountIsPrefix(rest, pinned);
      assert tabs[0] !in pinned ==> Count(rest, pinned) == 0 by {
        assert tabs[0] !in pinned && rest != [] ==> rest[0] !in pinned;
      }
      forall i | 0 <= i < |tabs|
        ensures tabs[i] in pinned <==> i < Count(tabs, pinned)
      {
        if i > 0 {
          assert tabs[i] == rest[i - 1];
        }
      }
    }
  }

  lemma {:induction false} CountAlike(tabs: seq<nat>, pinned: set<nat>, more: set<nat>)
    requires forall i | 0 <= i < |tabs| :: tabs[i] in pinned <==> tabs[i] in more
    ensures Count(tabs, pinned) == Count(tabs, more)
  {
    if tabs != [] {
      assert forall i | 0 <= i < |tabs[1..]| :: tabs[1..][i] == tabs[i + 1];
      CountAlike(tabs[1..], pinned, more);
    }
  }

  lemma {:induction false} WithoutFirst(tabs: seq<nat>, pinned: set<nat>, tab: nat)
    requires PinnedFirst(tabs, pinned)
    ensures PinnedFirst(Without(tabs, tab), pinned)
  {
    if tabs != [] {
      var rest := tabs[1..];
      assert forall i | 0 <= i < |rest| :: rest[i] == tabs[i + 1];
      WithoutFirst(rest, pinned, tab);
      var left := Without(rest, tab);
      WithoutIs(rest, tab);
      forall j | 0 <= j < |left| && left[j] in pinned
        ensures tabs[0] in pinned
      {
        assert left[j] in rest;
        var k :| 0 <= k < |rest| && rest[k] == left[j];
        assert tabs[k + 1] in pinned;
      }
    }
  }

  /** A tab put in among others keeps their order, and loses none of them. */
  lemma InsertIs(tabs: seq<nat>, tab: nat, index: nat)
    requires Distinct(tabs) && tab !in tabs
    ensures Distinct(Insert(tabs, tab, index)) && Without(Insert(tabs, tab, index), tab) == tabs
    ensures forall t :: t in Insert(tabs, tab, index) <==> t == tab || t in tabs
  {
    var k := if index < |tabs| then index else |tabs|;
    var a, b := tabs[..k], tabs[k..];
    DistinctParts(tabs, k);
    assert forall t :: t in tabs <==> t in a || t in b;
    WithoutBetween(a, tab, b);
    InsertDistinct(a, tab, b);
  }

  lemma InsertDistinct(a: seq<nat>, tab: nat, b: seq<nat>)
    requires Distinct(a + b) && tab !in a && tab !in b
    ensures Distinct(a + [tab] + b)
  {
    var all := a + [tab] + b;
    forall i, j | 0 <= i < j < |all|
      ensures all[i] != all[j]
    {
      var x := if i < |a| then i else i - 1;
      var y := if j < |a| then j else j - 1;
      assert i < |a| ==> all[i] == a[i] == (a + b)[x];
      assert i > |a| ==> all[i] == b[i - |a| - 1] == (a + b)[x];
      assert j < |a| ==> all[j] == a[j] == (a + b)[y];
      assert j > |a| ==> all[j] == b[j - |a| - 1] == (a + b)[y];
      assert all[|a|] == tab;
    }
  }

  /** A tab pinned goes last of the pinned; one that is not, after them all. */
  lemma InsertOrderly(tabs: seq<nat>, pinned: set<nat>, tab: nat, index: nat)
    requires PinnedFirst(tabs, pinned)
    requires if tab in pinned then index == Count(tabs, pinned) else Count(tabs, pinned) <= index
    ensures PinnedFirst(Insert(tabs, tab, index), pinned)
  {
    CountIsPrefix(tabs, pinned);
    var all := Insert(tabs, tab, index);
    var k := if index < |tabs| then index else |tabs|;
    assert forall j | 0 <= j < |all| :: all[j] == if j < k then tabs[j] else if j == k then tab else tabs[j - 1];
    forall i, j | 0 <= i < j < |all| && all[j] in pinned
      ensures all[i] in pinned
    {
    }
  }

  // ------------------------------------------------------------- each step

  /** Where a new tab goes. */
  function NewIndex(s: Strip, after: nat): nat {
    var pinned, wanted := Count(s.tabs, s.pinned), IndexOf(s.tabs, after) + 1;
    if !s.grouped then 1 else if wanted < pinned then pinned else wanted
  }

  lemma OpenedTabs(s: Strip, tab: nat, after: nat, front: nat)
    requires Orderly(s) && tab !in s.tabs
    ensures Opened(s, tab, after, front).tabs == Insert(s.tabs, tab, NewIndex(s, after))
    ensures Count(s.tabs, s.pinned) <= NewIndex(s, after)
  {
    CountIsPrefix(s.tabs, s.pinned);
    WithoutNone(s.tabs, tab);
    assert !s.grouped ==> Insert(s.tabs, tab, 1) == s.tabs + [tab] + [];
    assert s.tabs + [tab] + [] == s.tabs + [tab];
  }

  /** A new tab opened: nothing else moves, and it is not among the pinned. */
  lemma OpenedIs(s: Strip, tab: nat, after: nat, front: nat)
    requires Orderly(s) && tab !in s.tabs && (front == tab || front in s.tabs)
    ensures var n := Opened(s, tab, after, front);
            && Orderly(n) && Without(n.tabs, tab) == s.tabs && n.pinned == s.pinned && n.front == front
            && (forall t :: t in n.tabs <==> t == tab || t in s.tabs)
  {
    OpenedTabs(s, tab, after, front);
    InsertIs(s.tabs, tab, NewIndex(s, after));
    InsertOrderly(s.tabs, s.pinned, tab, NewIndex(s, after));
  }

  /** Where: just after `after`, or, if that is pinned, first of those that are
      not. */
  lemma OpenedPlace(s: Strip, tab: nat, after: nat, front: nat) returns (p: nat)
    requires Orderly(s) && tab !in s.tabs && after in s.tabs
    ensures var n := Opened(s, tab, after, front);
            && p <= |s.tabs| && n.tabs == s.tabs[..p] + [tab] + s.tabs[p..]
            && (after !in s.pinned ==> p > 0 && s.tabs[p - 1] == after)
            && (after in s.pinned ==> (forall i | 0 <= i < |s.tabs| :: s.tabs[i] in s.pinned <==> i < p))
  {
    OpenedTabs(s, tab, after, front);
    CountIsPrefix(s.tabs, s.pinned);
    IndexIs(s.tabs, after);
    p := NewIndex(s, after);
  }

  lemma {:induction false} IndexIs(tabs: seq<nat>, tab: nat)
    requires tab in tabs
    ensures IndexOf(tabs, tab) < |tabs| && tabs[IndexOf(tabs, tab)] == tab
  {
    if tabs[0] != tab {
      assert tabs == [tabs[0]] + tabs[1..];
      IndexIs(tabs[1..], tab);
    }
  }

  /** A strip's tabs are its others, with the tab where it is among them. */
  lemma OthersAround(tabs: seq<nat>, tab: nat)
    requires Distinct(tabs) && tab in tabs
    ensures Insert(Without(tabs, tab), tab, IndexOf(tabs, tab)) == tabs
    ensures Distinct(Without(tabs, tab)) && tab !in Without(tabs, tab) && |Without(tabs, tab)| == |tabs| - 1
  {
    var k := IndexOf(tabs, tab);
    IndexIs(tabs, tab);
    Around(tabs, k);
    WithoutBetween(tabs[..k], tab, tabs[k + 1..]);
    Halves(tabs[..k], tabs[k + 1..]);
    WithoutIs(tabs, tab);
  }

  function NowPinned(s: Strip, tab: nat, pin: bool): set<nat> {
    if pin then s.pinned + {tab} else s.pinned - {tab}
  }

  lemma OthersStay(s: Strip, tab: nat, pin: bool)
    requires Orderly(s) && tab in s.tabs
    ensures var others := Without(s.tabs, tab);
            && PinnedFirst(others, NowPinned(s, tab, pin)) && Count(others, NowPinned(s, tab, pin)) == Count(others, s.pinned)
  {
    var others := Without(s.tabs, tab);
    OthersAround(s.tabs, tab);
    WithoutFirst(s.tabs, s.pinned, tab);
    assert forall i | 0 <= i < |others| :: others[i] in others;
    CountAlike(others, s.pinned, NowPinned(s, tab, pin));
  }

  lemma PinSetMoves(s: Strip, tab: nat, pin: bool)
    requires Orderly(s) && tab in s.tabs
    ensures var others := Without(s.tabs, tab);
            PinSet(s, tab, pin).tabs == Insert(others, tab, Count(others, s.pinned))
  {
    var others := Without(s.tabs, tab);
    OthersAround(s.tabs, tab);
    OthersStay(s, tab, pin);
    if others == [] {
      assert IndexOf(s.tabs, tab) == Count(others, s.pinned) == 0;
    }
  }

  /** A tab pinned goes last among the pinned, one unpinned first among the
      rest; no other moves, and no tab is lost or doubled. */
  lemma PinSetIs(s: Strip, tab: nat, pin: bool)
    requires Orderly(s) && tab in s.tabs
    ensures var n := PinSet(s, tab, pin);
            var others := Without(s.tabs, tab);
            && Orderly(n) && Without(n.tabs, tab) == others && (forall t :: t in n.tabs <==> t in s.tabs)
            && n.tabs == Insert(others, tab, Count(others, s.pinned))
            && n.pinned == NowPinned(s, tab, pin) && n.front in {s.front, tab}
  {
    var others := Without(s.tabs, tab);
    PinSetMoves(s, tab, pin);
    PinSetMembers(s, tab);
    PinSetOrder(s, tab, pin);
  }

  /** Who is there. */
  lemma PinSetMembers(s: Strip, tab: nat)
    requires Orderly(s) && tab in s.tabs
    ensures var others := Without(s.tabs, tab);
            var tabs := Insert(others, tab, Count(others, s.pinned));
            Distinct(tabs) && Without(tabs, tab) == others && |tabs| == |s.tabs| && forall t :: t in tabs <==> t in s.tabs
  {
    var others := Without(s.tabs, tab);
    OthersAround(s.tabs, tab);
    InsertIs(others, tab, Count(others, s.pinned));
    WithoutIs(s.tabs, tab);
  }

  /** In which order. */
  lemma PinSetOrder(s: Strip, tab: nat, pin: bool)
    requires Orderly(s) && tab in s.tabs
    ensures var others := Without(s.tabs, tab);
            PinnedFirst(Insert(others, tab, Count(others, s.pinned)), NowPinned(s, tab, pin))
  {
    var others := Without(s.tabs, tab);
    OthersStay(s, tab, pin);
    InsertOrderly(others, NowPinned(s, tab, pin), tab, Count(others, s.pinned));
  }

  lemma InsertParts(others: seq<nat>, tab: nat, p: nat, tabs: seq<nat>)
    requires p <= |others| && tabs == Insert(others, tab, p)
    ensures |tabs| == |others| + 1 && tabs[p] == tab && tabs[..p] == others[..p] && tabs[p + 1..] == others[p..]
    ensures others == tabs[..p] + tabs[p + 1..]
  {
  }

  /** `p` is where the first of `tabs` that is not pinned is. */
  predicate PinnedUpTo(tabs: seq<nat>, pinned: set<nat>, p: nat) {
    p <= |tabs| && forall i | 0 <= i < |tabs| :: tabs[i] in pinned <==> i < p
  }

  /** Where: after the other pinned tabs, and before the rest, which keep their
      order; and in front if it had to be moved there. */
  lemma PinSetPlace(s: Strip, tab: nat, pin: bool) returns (p: nat)
    requires Orderly(s) && tab in s.tabs
    ensures var n, others := PinSet(s, tab, pin), Without(s.tabs, tab);
            && PinnedUpTo(others, s.pinned, p)
            && p < |n.tabs| && n.tabs[p] == tab && others == n.tabs[..p] + n.tabs[p + 1..]
            && n.front == if n.tabs == s.tabs then s.front else tab
  {
    var others := Without(s.tabs, tab);
    p := Count(others, s.pinned);
    WithoutFirst(s.tabs, s.pinned, tab);
    CountIsPrefix(others, s.pinned);
    PinSetMoves(s, tab, pin);
    PinSetFront(s, tab, pin, p);
    InsertParts(others, tab, p, PinSet(s, tab, pin).tabs);
  }

  lemma PinSetFront(s: Strip, tab: nat, pin: bool, p: nat)
    requires Orderly(s) && tab in s.tabs && p == Count(Without(s.tabs, tab), s.pinned) <= |Without(s.tabs, tab)|
    ensures var n := PinSet(s, tab, pin); n.front == if n.tabs == s.tabs then s.front else tab
  {
    var others := Without(s.tabs, tab);
    OthersAround(s.tabs, tab);
    OthersStay(s, tab, pin);
    PinSetMoves(s, tab, pin);
    if IndexOf(s.tabs, tab) != p {
      IndexIs(s.tabs, tab);
      assert Insert(others, tab, p)[p] == tab;
    }
  }

  lemma ClosedIs(s: Strip, tab: nat, front: nat)
    requires Orderly(s) && front in s.tabs && front != tab && tab in s.tabs
    ensures var n := Closed(s, tab, front);
            Orderly(n) && n.tabs == Without(s.tabs, tab) && (forall t :: t in n.tabs <==> t in s.tabs && t != tab)
  {
    WithoutIs(s.tabs, tab);
    WithoutFirst(s.tabs, s.pinned, tab);
    WithoutLength(s.tabs, tab);
    var left := Without(s.tabs, tab);
    assert forall i | 0 <= i < |left| :: left[i] in left;
  }

  lemma {:induction false} OutsideAre(tabs: seq<nat>, pinned: set<nat>)
    ensures forall t :: t in Outside(tabs, pinned) <==> t in tabs && t !in pinned
  {
    if tabs != [] {
      OutsideAre(tabs[1..], pinned);
      assert tabs == [tabs[0]] + tabs[1..];
    }
  }

  /** Close Other Tabs closes every other tab that is not pinned, and no other. */
  lemma OthersClosedAre(s: Strip, tab: nat)
    ensures forall t :: t in OthersToClose(s, tab) <==> t in s.tabs && t != tab && t !in s.pinned
  {
    WithoutIs(s.tabs, tab);
    OutsideAre(Without(s.tabs, tab), s.pinned);
  }

  // ------------------------------------------------------------- closing others

  function Only(tabs: seq<nat>, keep: set<nat>): seq<nat> {
    if tabs == [] then []
    else (if tabs[0] in keep then [tabs[0]] else []) + Only(tabs[1..], keep)
  }

  lemma {:induction false} OnlyAll(tabs: seq<nat>, keep: set<nat>)
    requires forall i | 0 <= i < |tabs| :: tabs[i] in keep
    ensures Only(tabs, keep) == tabs
  {
    if tabs != [] {
      OnlyAll(tabs[1..], keep);
    }
  }

  lemma {:induction false} OnlyWithout(tabs: seq<nat>, keep: set<nat>, tab: nat)
    ensures Without(Only(tabs, keep), tab) == Only(tabs, keep - {tab})
  {
    if tabs != [] {
      OnlyWithout(tabs[1..], keep, tab);
      var first := if tabs[0] in keep then [tabs[0]] else [];
      WithoutAppend(first, Only(tabs[1..], keep), tab);
      WithoutLength(first, tab);
      assert [tabs[0]][1..] == [];
    }
  }

  lemma {:induction false} OnlyAlike(tabs: seq<nat>, keep: set<nat>, more: set<nat>)
    requires forall i | 0 <= i < |tabs| :: tabs[i] in keep <==> tabs[i] in more
    ensures Only(tabs, keep) == Only(tabs, more)
  {
    if tabs != [] {
      assert forall i | 0 <= i < |tabs[1..]| :: tabs[1..][i] == tabs[i + 1];
      OnlyAlike(tabs[1..], keep, more);
    }
  }

  function Numbers(tabs: seq<nat>): set<nat> {
    set t | t in tabs
  }

  lemma LeftNext(all: set<nat>, closing: seq<nat>, i: nat)
    requires i < |closing|
    ensures all - Numbers(closing[..i]) - {closing[i]} == all - Numbers(closing[..i + 1])
  {
    assert closing[..i + 1] == closing[..i] + [closing[i]];
  }

  lemma LeftAtEnd(tabs: seq<nat>, closing: seq<nat>, pinned: set<nat>, tab: nat)
    requires forall t :: t in closing <==> t in tabs && t != tab && t !in pinned
    ensures Only(tabs, Numbers(tabs) - Numbers(closing[..|closing|])) == Only(tabs, pinned + {tab})
  {
    assert closing[..|closing|] == closing;
    OnlyAlike(tabs, Numbers(tabs) - Numbers(closing), pinned + {tab});
  }

  // ------------------------------------------------------------- the strip, step by step

  // ------------------------------------------------------------- any steps at all

  function Reopened(s: Strip, tab: nat, pin: bool): Strip {
    var beside := Opened(s, tab, s.front, tab);
    if pin then PinSet(beside, tab, true) else beside
  }

  /** Every other tab that is not pinned closed, and what macOS brings in front. */
  function OthersClosed(s: Strip, tab: nat, front: nat): Strip {
    s.(tabs := Only(s.tabs, s.pinned + {tab}), front := front)
  }

  datatype Step =
    | Opens(tab: nat, after: nat, front: nat)
    | Reopens(tab: nat, pin: bool)
    | Pins(tab: nat, pin: bool)
    | Closes(tab: nat, front: nat)
    | ClosesOthers(tab: nat, front: nat)

  function Do(s: Strip, step: Step): Strip {
    match step
    case Opens(tab, after, front) => Opened(s, tab, after, front)
    case Reopens(tab, pin) => Reopened(s, tab, pin)
    case Pins(tab, pin) => PinSet(s, tab, pin)
    case Closes(tab, front) => Closed(s, tab, front)
    case ClosesOthers(tab, front) => OthersClosed(s, tab, front)
  }

  /** A tab opened is a new one; any other is the strip's, and a tab left is in
      front. */
  predicate CanDo(s: Strip, step: Step) {
    match step
    case Opens(tab, _, front) => tab !in s.tabs && (front == tab || front in s.tabs)
    case Reopens(tab, _) => tab !in s.tabs
    case Pins(tab, _) => tab in s.tabs
    case Closes(tab, front) => tab in s.tabs && front in s.tabs && front != tab
    case ClosesOthers(tab, front) => tab in s.tabs && front in s.tabs && front in s.pinned + {tab}
  }

  function Run(s: Strip, steps: seq<Step>): Strip
    decreases |steps|
  {
    if steps == [] then s else Run(Do(s, steps[0]), steps[1..])
  }

  predicate CanRun(s: Strip, steps: seq<Step>)
    decreases |steps|
  {
    steps == [] || (CanDo(s, steps[0]) && CanRun(Do(s, steps[0]), steps[1..]))
  }

  /** What there is, and what of it is pinned, whatever the order. */
  datatype Ledger = Ledger(tabs: set<nat>, pinned: set<nat>)

  function Noted(l: Ledger, step: Step): Ledger {
    match step
    case Opens(tab, _, _) => l.(tabs := l.tabs + {tab})
    case Reopens(tab, pin) => Ledger(l.tabs + {tab}, if pin then l.pinned + {tab} else l.pinned)
    case Pins(tab, pin) => l.(pinned := if pin then l.pinned + {tab} else l.pinned - {tab})
    case Closes(tab, _) => Ledger(l.tabs - {tab}, l.pinned - {tab})
    case ClosesOthers(tab, _) => l.(tabs := l.tabs * (l.pinned + {tab}))
  }

  function AllNoted(l: Ledger, steps: seq<Step>): Ledger
    decreases |steps|
  {
    if steps == [] then l else AllNoted(Noted(l, steps[0]), steps[1..])
  }

  function LedgerOf(s: Strip): Ledger {
    Ledger(Numbers(s.tabs), s.pinned)
  }

  lemma {:induction false} OnlyAre(tabs: seq<nat>, keep: set<nat>)
    ensures forall t :: t in Only(tabs, keep) <==> t in tabs && t in keep
    ensures Distinct(tabs) ==> Distinct(Only(tabs, keep))
  {
    if tabs != [] {
      var rest := tabs[1..];
      OnlyAre(rest, keep);
      assert tabs == [tabs[0]] + rest;
      if Distinct(tabs) {
        assert forall j | 0 <= j < |rest| :: rest[j] == tabs[j + 1];
        assert Distinct(rest) && tabs[0] !in rest;
        assert forall j | 0 <= j < |Only(rest, keep)| :: Only(rest, keep)[j] in Only(rest, keep);
      }
    }
  }

  lemma {:induction false} OnlyFirst(tabs: seq<nat>, keep: set<nat>, pinned: set<nat>)
    requires PinnedFirst(tabs, pinned)
    ensures PinnedFirst(Only(tabs, keep), pinned)
  {
    if tabs != [] {
      var rest := tabs[1..];
      assert forall j | 0 <= j < |rest| :: rest[j] == tabs[j + 1];
      OnlyFirst(rest, keep, pinned);
      OnlyAre(rest, keep);
      var kept := Only(rest, keep);
      forall j | 0 <= j < |kept| && kept[j] in pinned
        ensures tabs[0] in pinned
      {
        assert kept[j] in rest;
      }
    }
  }

  lemma OthersClosedIs(s: Strip, tab: nat, front: nat)
    requires Orderly(s) && tab in s.tabs && front in s.tabs && front in s.pinned + {tab}
    ensures var n := OthersClosed(s, tab, front);
            Orderly(n) && forall t :: t in n.tabs <==> t in s.tabs && (t == tab || t in s.pinned)
  {
    var keep := s.pinned + {tab};
    OnlyAre(s.tabs, keep);
    OnlyFirst(s.tabs, keep, s.pinned);
    if !s.grouped {
      assert s.tabs == [s.tabs[0]];
      OnlyAll(s.tabs, keep);
    }
  }

  lemma ReopenedIs(s: Strip, tab: nat, pin: bool)
    requires Orderly(s) && tab !in s.tabs
    ensures var n := Reopened(s, tab, pin);
            && Orderly(n) && Without(n.tabs, tab) == s.tabs
            && n.pinned == (if pin then s.pinned + {tab} else s.pinned)
            && forall t :: t in n.tabs <==> t == tab || t in s.tabs
  {
    OpenedIs(s, tab, s.front, tab);
    if pin {
      PinSetIs(Opened(s, tab, s.front, tab), tab, true);
    }
  }

  /** One step keeps the pinned first, and changes what there is and what of it
      is pinned by just what it says. */
  lemma StepIs(s: Strip, step: Step)
    requires Orderly(s) && CanDo(s, step)
    ensures Orderly(Do(s, step)) && LedgerOf(Do(s, step)) == Noted(LedgerOf(s), step)
  {
    match step
    case Opens(_, _, _) => AddsIs(s, step);
    case Reopens(_, _) => AddsIs(s, step);
    case Pins(_, _) => PinsIs(s, step);
    case Closes(_, _) => ClosesIs(s, step);
    case ClosesOthers(_, _) => ClosesIs(s, step);
  }

  lemma AddsIs(s: Strip, step: Step)
    requires Orderly(s) && CanDo(s, step) && (step.Opens? || step.Reopens?)
    ensures Orderly(Do(s, step)) && LedgerOf(Do(s, step)) == Noted(LedgerOf(s), step)
  {
    var n := Do(s, step);
    if step.Opens? {
      OpenedIs(s, step.tab, step.after, step.front);
    } else {
      ReopenedIs(s, step.tab, step.pin);
    }
    MoreNumbers(s.tabs, n.tabs, step.tab);
  }

  lemma SameNumbers(tabs: seq<nat>, after: seq<nat>)
    requires forall t :: t in after <==> t in tabs
    ensures Numbers(after) == Numbers(tabs)
  {
  }

  lemma MoreNumbers(tabs: seq<nat>, after: seq<nat>, tab: nat)
    requires forall t :: t in after <==> t == tab || t in tabs
    ensures Numbers(after) == Numbers(tabs) + {tab}
  {
  }

  lemma PinsIs(s: Strip, step: Step)
    requires Orderly(s) && CanDo(s, step) && step.Pins?
    ensures Orderly(Do(s, step)) && LedgerOf(Do(s, step)) == Noted(LedgerOf(s), step)
  {
    PinSetIs(s, step.tab, step.pin);
    SameNumbers(s.tabs, Do(s, step).tabs);
  }

  lemma ClosesIs(s: Strip, step: Step)
    requires Orderly(s) && CanDo(s, step) && (step.Closes? || step.ClosesOthers?)
    ensures Orderly(Do(s, step)) && LedgerOf(Do(s, step)) == Noted(LedgerOf(s), step)
  {
    if step.Closes? {
      ClosedIs(s, step.tab, step.front);
    } else {
      OthersClosedIs(s, step.tab, step.front);
    }
  }

  /** After any steps the pinned come first, and the tabs there are, each once,
      are just those opened and not closed. */
  lemma {:induction false} RunIs(s: Strip, steps: seq<Step>)
    requires Orderly(s) && CanRun(s, steps)
    ensures Orderly(Run(s, steps)) && LedgerOf(Run(s, steps)) == AllNoted(LedgerOf(s), steps)
    decreases |steps|
  {
    if steps != [] {
      StepIs(s, steps[0]);
      RunIs(Do(s, steps[0]), steps[1..]);
    }
  }

  // ------------------------------------------------------------- tabs left alone keep their order

  /** `step` neither closes nor pins nor unpins any of `still`. */
  predicate LeavesAlone(s: Strip, step: Step, still: set<nat>) {
    match step
    case Opens(_, _, _) => true
    case Reopens(_, _) => true
    case Pins(tab, _) => tab !in still
    case Closes(tab, _) => tab !in still
    case ClosesOthers(tab, _) => still <= s.pinned + {tab}
  }

  predicate AllLeaveAlone(s: Strip, steps: seq<Step>, still: set<nat>)
    decreases |steps|
  {
    steps == [] || (LeavesAlone(s, steps[0], still) && AllLeaveAlone(Do(s, steps[0]), steps[1..], still))
  }

  lemma {:induction false} OnlyOthers(tabs: seq<nat>, tab: nat, keep: set<nat>)
    requires tab !in keep
    ensures Only(Without(tabs, tab), keep) == Only(tabs, keep)
  {
    if tabs != [] {
      OnlyOthers(tabs[1..], tab, keep);
      if tabs[0] != tab {
        assert ([tabs[0]] + Without(tabs[1..], tab))[1..] == Without(tabs[1..], tab);
      } else {
        assert [] + Without(tabs[1..], tab) == Without(tabs[1..], tab);
      }
    }
  }

  lemma {:induction false} OnlySome(tabs: seq<nat>, keep: set<nat>, some: set<nat>)
    requires some <= keep
    ensures Only(Only(tabs, keep), some) == Only(tabs, some)
  {
    if tabs != [] {
      OnlySome(tabs[1..], keep, some);
      if tabs[0] in keep {
        assert ([tabs[0]] + Only(tabs[1..], keep))[1..] == Only(tabs[1..], keep);
      } else {
        assert [] + Only(tabs[1..], keep) == Only(tabs[1..], keep);
      }
    }
  }

  lemma StepKeepsOrder(s: Strip, step: Step, still: set<nat>)
    requires Orderly(s) && CanDo(s, step) && still <= Numbers(s.tabs) && LeavesAlone(s, step, still)
    ensures Only(Do(s, step).tabs, still) == Only(s.tabs, still) && still <= Numbers(Do(s, step).tabs)
  {
    StepIs(s, step);
    if step.ClosesOthers? {
      OnlySome(s.tabs, s.pinned + {step.tab}, still);
    } else {
      var n := Do(s, step);
      OnlyOthers(s.tabs, step.tab, still);
      OnlyOthers(n.tabs, step.tab, still);
      SameOthers(s, step);
    }
  }

  lemma SameOthers(s: Strip, step: Step)
    requires Orderly(s) && CanDo(s, step) && !step.ClosesOthers?
    ensures Without(Do(s, step).tabs, step.tab) == Without(s.tabs, step.tab)
  {
    WithoutLength(s.tabs, step.tab);
    match step
    case Opens(tab, after, front) => OpenedIs(s, tab, after, front);
    case Reopens(tab, pin) => ReopenedIs(s, tab, pin);
    case Pins(tab, pin) => PinSetIs(s, tab, pin);
    case Closes(tab, front) =>
      WithoutIs(s.tabs, tab);
      WithoutLength(Without(s.tabs, tab), tab);
  }

  /** Whatever is opened, pinned and closed around them, tabs that no step closes,
      pins or unpins are there in the end, in the order they were in. */
  lemma {:induction false} RunKeepsOrder(s: Strip, steps: seq<Step>, still: set<nat>)
    requires Orderly(s) && CanRun(s, steps) && still <= Numbers(s.tabs) && AllLeaveAlone(s, steps, still)
    ensures Only(Run(s, steps).tabs, still) == Only(s.tabs, still) && still <= Numbers(Run(s, steps).tabs)
    decreases |steps|
  {
    if steps != [] {
      StepIs(s, steps[0]);
      StepKeepsOrder(s, steps[0], still);
      RunKeepsOrder(Do(s, steps[0]), steps[1..], still);
    }
  }

  class TabGroup {
    var tabs: seq<nat>
    var pinned: set<nat>
    var front: nat
    var grouped: bool

    ghost function View(): Strip
      reads this
    {
      Strip(tabs, pinned, front, grouped)
    }

    ghost predicate Valid()
      reads this
    {
      Orderly(View())
    }

    constructor (tab: nat, grouped: bool)
      ensures Valid() && View() == Strip([tab], {}, tab, grouped)
    {
      tabs, pinned, front, this.grouped := [tab], {}, tab, grouped;
    }

    /** Put `tab`, a new one or the strip's, at `index`, counted without it. */
    method Place(tab: nat, index: nat)
      modifies this
      ensures View() == Placed(old(View()), tab, index)
    {
      if !grouped {
        tabs, grouped := tabs + [tab], true;
        return;
      }
      tabs := Without(tabs, tab);
      var at := if index < |tabs| then index else |tabs|;
      tabs := tabs[..at] + [tab] + tabs[at..];
    }

    /** A new tab, in front or behind `parent`: never among the pinned. */
    method Open(tab: nat, after: nat, parent: nat, behind: bool)
      requires Valid() && tab !in tabs && parent in tabs
      modifies this
      ensures Valid() && View() == Opened(old(View()), tab, after, if behind then parent else tab)
      ensures Without(tabs, tab) == old(tabs)
    {
      ghost var s := View();
      var chosen := if behind then parent else tab;
      var count := Count(tabs, pinned);
      var wanted := IndexOf(tabs, after) + 1;
      Place(tab, if wanted < count then count else wanted);
      front := chosen;
      assert View() == Opened(s, tab, after, chosen);
      OpenedIs(s, tab, after, chosen);
    }

    /** A closed tab opened again, beside the one in front, pinned if it was. */
    method Reopen(tab: nat, pin: bool)
      requires Valid() && tab !in tabs
      modifies this
      ensures Valid() && View() == Reopened(old(View()), tab, pin)
      ensures Without(tabs, tab) == old(tabs) && (tab in pinned <==> pin)
    {
      OpenedIs(View(), tab, front, tab);
      Open(tab, front, front, false);
      if pin {
        SetPinned(tab, true);
      }
    }

    method SetPinned(tab: nat, pin: bool)
      requires Valid() && tab in tabs
      modifies this
      ensures Valid() && View() == PinSet(old(View()), tab, pin)
      ensures Without(tabs, tab) == Without(old(tabs), tab) && (tab in pinned <==> pin)
    {
      ghost var s := View();
      PinSetIs(s, tab, pin);
      pinned := if pin then pinned + {tab} else pinned - {tab};
      var others := Without(tabs, tab);
      var at := Count(others, pinned);
      if others != [] && IndexOf(tabs, tab) != at {
        Place(tab, at);
        front := tab;
      }
      assert View() == PinSet(s, tab, pin);
    }

    /** A tab closed, and the one macOS then brings in front, if that was it. */
    method Close(tab: nat, next: nat)
      requires Valid() && tab in tabs && next in tabs && next != tab
      modifies this
      ensures Valid() && View() == Closed(old(View()), tab, if old(front) == tab then next else old(front))
      ensures tabs == Without(old(tabs), tab)
    {
      ClosedIs(View(), tab, if front == tab then next else front);
      tabs := Without(tabs, tab);
      pinned := pinned - {tab};
      if front == tab {
        front := next;
      }
    }

    /** Close a tab that is not pinned, if it is still there. */
    method CloseOther(tab: nat, chosen: nat)
      requires Valid() && tab !in pinned && chosen in tabs && chosen != tab
      modifies this
      ensures Valid() && tabs == Without(old(tabs), tab) && pinned == old(pinned) && chosen in tabs
      ensures grouped == old(grouped)
    {
      WithoutIs(tabs, tab);
      WithoutLength(tabs, tab);
      if tab in tabs {
        Close(tab, chosen);
      }
    }

    /** Close every other tab that is not pinned: what is left is `tab` and the
        pinned ones, in the order they were in. */
    method CloseOthers(tab: nat)
      requires Valid() && tab in tabs
      modifies this
      ensures Valid() && tab in tabs && View() == OthersClosed(old(View()), tab, front)
    {
      var closing := OthersToClose(Strip(tabs, pinned, front, grouped), tab);
      OthersClosedAre(View(), tab);
      ghost var all := Numbers(tabs);
      OnlyAll(tabs, all);
      ghost var left := all;
      for i := 0 to |closing|
        invariant Valid() && pinned == old(pinned) && tab in tabs && grouped == old(grouped)
        invariant left == all - Numbers(closing[..i]) && tabs == Only(old(tabs), left)
      {
        LeftNext(all, closing, i);
        OnlyWithout(old(tabs), left, closing[i]);
        assert closing[i] in closing;
        CloseOther(closing[i], tab);
        left := left - {closing[i]};
      }
      LeftAtEnd(old(tabs), closing, old(pinned), tab);
    }
  }
}
