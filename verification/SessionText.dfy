/** The session kept from one launch to the next: which tabs are kept, how they
    are printed, and what any text at all is read back as. */
module SessionText {
  import opened Wrappers
  import opened Lists
  import opened Text
  import opened Address

  const HEADER := "syndeo-session 1"

  /** The most windows, and tabs in each, read back. */
  const WINDOWS: nat := 50
  const TABS: nat := 500

  datatype SavedTab = SavedTab(address: string, title: string, pinned: bool)

  datatype SavedWindow = SavedWindow(tabs: seq<SavedTab>, selected: nat)

  type Session = seq<SavedWindow>

  // ------------------------------------------------------------- what is kept

  function Those(tabs: seq<SavedTab>, keep: SavedTab -> bool): seq<SavedTab> {
    if tabs == [] then []
    else (if keep(tabs[0]) then [tabs[0]] else []) + Those(tabs[1..], keep)
  }

  /** Where the first tab like `tab` is. */
  function Position(tabs: seq<SavedTab>, tab: SavedTab): (at: Option<nat>)
    ensures at.Some? ==> at.value < |tabs| && tabs[at.value] == tab && forall i | 0 <= i < at.value :: tabs[i] != tab
    ensures at.None? ==> tab !in tabs
  {
    if tabs == [] then None
    else if tabs[0] == tab then Some(0)
    else
      var later := Position(tabs[1..], tab);
      if later.Some? then Some(later.value + 1) else None
  }

  /** A window with those of its tabs `keep` keeps, the one in front kept in
      front where it is still there: the first like it. */
  function KeptWindow(window: SavedWindow, keep: SavedTab -> bool): SavedWindow {
    var tabs := Those(window.tabs, keep);
    var at := if window.selected < |window.tabs| then Position(tabs, window.tabs[window.selected]) else None;
    SavedWindow(tabs, if at.Some? then at.value else 0)
  }

  function NotEmpty(windows: Session): Session {
    if windows == [] then []
    else (if windows[0].tabs != [] then [windows[0]] else []) + NotEmpty(windows[1..])
  }

  function Each(windows: Session, keep: SavedTab -> bool): Session {
    seq(|windows|, i requires 0 <= i < |windows| => KeptWindow(windows[i], keep))
  }

  function MaySave(parse: Parser): SavedTab -> bool {
    (tab: SavedTab) => Savable(parse, tab.address)
  }

  /** Only what can be opened again. */
  function Kept(parse: Parser, session: Session): Session {
    NotEmpty(Each(session, MaySave(parse)))
  }

  function IsUnpinned(): SavedTab -> bool {
    (tab: SavedTab) => !tab.pinned
  }

  /** What is kept to open again of a session whose pinned tabs are opened. */
  function WithoutPinned(parse: Parser, session: Session): Session {
    Kept(parse, Each(session, IsUnpinned()))
  }

  lemma {:induction false} ThoseAre(tabs: seq<SavedTab>, keep: SavedTab -> bool)
    ensures forall tab :: tab in Those(tabs, keep) <==> tab in tabs && keep(tab)
    ensures |Those(tabs, keep)| <= |tabs|
  {
    if tabs != [] {
      ThoseAre(tabs[1..], keep);
      assert tabs == [tabs[0]] + tabs[1..];
    }
  }

  lemma {:induction false} ThoseAll(tabs: seq<SavedTab>, keep: SavedTab -> bool)
    requires forall i | 0 <= i < |tabs| :: keep(tabs[i])
    ensures Those(tabs, keep) == tabs
  {
    if tabs != [] {
      ThoseAll(tabs[1..], keep);
    }
  }

  lemma {:induction false} NotEmptyAre(windows: Session)
    ensures forall window :: window in NotEmpty(windows) <==> window in windows && window.tabs != []
    ensures |NotEmpty(windows)| <= |windows|
  {
    if windows != [] {
      NotEmptyAre(windows[1..]);
      assert windows == [windows[0]] + windows[1..];
    }
  }

  lemma {:induction false} NotEmptyAll(windows: Session)
    requires forall i | 0 <= i < |windows| :: windows[i].tabs != []
    ensures NotEmpty(windows) == windows
  {
    if windows != [] {
      NotEmptyAll(windows[1..]);
    }
  }

  /** A window that may be kept as it is: tabs, all of which may be saved, and the
      one in front the first like it. */
  predicate Keepable(parse: Parser, window: SavedWindow) {
    && window.selected < |window.tabs|
    && (forall i | 0 <= i < |window.tabs| :: Savable(parse, window.tabs[i].address))
    && (forall i | 0 <= i < window.selected :: window.tabs[i] != window.tabs[window.selected])
  }

  lemma KeptWindowIs(parse: Parser, window: SavedWindow)
    ensures var kept := KeptWindow(window, MaySave(parse));
            kept.tabs != [] ==> Keepable(parse, kept)
    ensures Keepable(parse, window) ==> KeptWindow(window, MaySave(parse)) == window
  {
    var keep := MaySave(parse);
    ThoseAre(window.tabs, keep);
    var tabs := Those(window.tabs, keep);
    forall i | 0 <= i < |tabs|
      ensures Savable(parse, tabs[i].address)
    {
      assert tabs[i] in tabs;
    }
    if Keepable(parse, window) {
      ThoseAll(window.tabs, keep);
      assert window.tabs[window.selected] in window.tabs;
    }
  }

  /** What is kept is exactly the sessions made of windows that may be kept as
      they are: so keeping what was kept changes nothing, though the tab in front
      is found again by what it is like. */
  lemma KeptIs(parse: Parser, session: Session)
    ensures forall i | 0 <= i < |Kept(parse, session)| :: Keepable(parse, Kept(parse, session)[i])
    ensures Kept(parse, session) == session <==> forall i | 0 <= i < |session| :: Keepable(parse, session[i])
    ensures Kept(parse, Kept(parse, session)) == Kept(parse, session)
  {
    KeptAreKeepable(parse, session);
    KeepableAreKept(parse, Kept(parse, session));
    if forall i | 0 <= i < |session| :: Keepable(parse, session[i]) {
      KeepableAreKept(parse, session);
    }
  }

  lemma KeptAreKeepable(parse: Parser, session: Session)
    ensures forall i | 0 <= i < |Kept(parse, session)| :: Keepable(parse, Kept(parse, session)[i])
  {
    var each, kept := Each(session, MaySave(parse)), Kept(parse, session);
    NotEmptyAre(each);
    forall i | 0 <= i < |kept|
      ensures Keepable(parse, kept[i])
    {
      assert kept[i] in kept;
      var j :| 0 <= j < |each| && each[j] == kept[i];
      KeptWindowIs(parse, session[j]);
    }
  }

  lemma KeepableAreKept(parse: Parser, session: Session)
    requires forall i | 0 <= i < |session| :: Keepable(parse, session[i])
    ensures Kept(parse, session) == session
  {
    var each := Each(session, MaySave(parse));
    forall i | 0 <= i < |session|
      ensures each[i] == session[i]
    {
      KeptWindowIs(parse, session[i]);
    }
    assert each == session;
    NotEmptyAll(session);
  }

  // ------------------------------------------------------------- the pinned tabs, and the rest

  /** Every tab of a session, window by window. */
  function AllTabs(session: Session): seq<SavedTab> {
    if session == [] then [] else session[0].tabs + AllTabs(session[1..])
  }

  /** Its pinned tabs alone, as one window. */
  function PinnedTabs(session: Session): seq<SavedTab> {
    Those(AllTabs(session), (tab: SavedTab) => tab.pinned)
  }

  lemma {:induction false} ThoseAppend(a: seq<SavedTab>, b: seq<SavedTab>, keep: SavedTab -> bool)
    ensures Those(a + b, keep) == Those(a, keep) + Those(b, keep)
  {
    if a == [] {
      assert a + b == b;
    } else {
      var first := if keep(a[0]) then [a[0]] else [];
      ThoseAppend(a[1..], b, keep);
      assert (a + b)[0] == a[0] && (a + b)[1..] == a[1..] + b;
      Regrouped(first, Those(a[1..], keep), Those(b, keep));
    }
  }

  /** Windows with none left are left out, and no tab with them. */
  lemma {:induction false} EachTabs(session: Session, keep: SavedTab -> bool)
    ensures AllTabs(NotEmpty(Each(session, keep))) == Those(AllTabs(session), keep) == AllTabs(Each(session, keep))
  {
    if session != [] {
      assert Each(session, keep)[1..] == Each(session[1..], keep);
      EachTabs(session[1..], keep);
      ThoseAppend(session[0].tabs, AllTabs(session[1..]), keep);
      FirstNotEmpty(Each(session, keep));
    }
  }

  lemma FirstNotEmpty(windows: Session)
    requires windows != []
    ensures AllTabs(NotEmpty(windows)) == windows[0].tabs + AllTabs(NotEmpty(windows[1..]))
  {
    var rest := NotEmpty(windows[1..]);
    if windows[0].tabs == [] {
      assert NotEmpty(windows) == [] + rest == rest;
    } else {
      assert ([windows[0]] + rest)[1..] == rest;
    }
  }

  /** A tab in front that is kept stays in front. */
  lemma FrontStays(window: SavedWindow, keep: SavedTab -> bool)
    requires window.selected < |window.tabs| && keep(window.tabs[window.selected])
    ensures var kept := KeptWindow(window, keep);
            kept.selected < |kept.tabs| && kept.tabs[kept.selected] == window.tabs[window.selected]
  {
    ThoseAre(window.tabs, keep);
    assert window.tabs[window.selected] in Those(window.tabs, keep);
  }

  lemma AroundFront(tabs: seq<SavedTab>, i: nat, keep: SavedTab -> bool)
    requires i < |tabs| && keep(tabs[i])
    ensures Those(tabs, keep) == Those(tabs[..i], keep) + ([tabs[i]] + Those(tabs[i + 1..], keep))
  {
    var rest := tabs[i..];
    assert tabs == tabs[..i] + rest && rest[0] == tabs[i] && rest[1..] == tabs[i + 1..];
    ThoseAppend(tabs[..i], rest, keep);
  }

  lemma FirstPosition(a: seq<SavedTab>, tab: SavedTab, b: seq<SavedTab>)
    ensures var at := Position(a + ([tab] + b), tab);
            at.Some? && at.value <= |a| && (at.value == |a| <==> tab !in a)
  {
    var all := a + ([tab] + b);
    assert all[|a|] == tab;
    var at := Position(all, tab);
    if tab in a {
      var k :| 0 <= k < |a| && a[k] == tab;
      assert all[k] == tab;
    } else {
      assert forall k | 0 <= k < |a| :: all[k] == a[k];
    }
  }

  /** The very tab that was in front is in front of what is kept, and not only
      one equal to it, exactly if it is kept and no tab before it equals it. It
      is found again by what it is like, so of two equal tabs the first is put
      in front. */
  lemma FrontItself(window: SavedWindow, keep: SavedTab -> bool)
    requires window.selected < |window.tabs|
    ensures var i := window.selected;
            (keep(window.tabs[i]) && KeptWindow(window, keep).selected == |Those(window.tabs[..i], keep)|)
            <==> (keep(window.tabs[i]) && forall j | 0 <= j < i :: window.tabs[j] != window.tabs[i])
  {
    var i := window.selected;
    var front, before := window.tabs[i], window.tabs[..i];
    if keep(front) {
      AroundFront(window.tabs, i, keep);
      FirstPosition(Those(before, keep), front, Those(window.tabs[i + 1..], keep));
      ThoseAre(before, keep);
      if j: nat :| j < i && window.tabs[j] == front {
        assert before[j] == front;
      }
    }
  }

  /** As with two equal tabs and the second in front. */
  lemma EqualTabsMove(tab: SavedTab, keep: SavedTab -> bool)
    requires keep(tab)
    ensures KeptWindow(SavedWindow([tab, tab], 1), keep) == SavedWindow([tab, tab], 0)
  {
    ThoseAll([tab, tab], keep);
  }

  lemma {:induction false} Apart(tabs: seq<SavedTab>, keep: SavedTab -> bool, other: SavedTab -> bool)
    requires forall tab | tab in tabs :: keep(tab) <==> !other(tab)
    ensures multiset(tabs) == multiset(Those(tabs, keep)) + multiset(Those(tabs, other))
  {
    if tabs != [] {
      assert tabs == [tabs[0]] + tabs[1..];
      Apart(tabs[1..], keep, other);
    }
  }

  /** A session kept, its pinned tabs taken to open at once: every tab is either
      one of them or left to open later, never both, none lost, and what is left
      may be kept as it is. */
  lemma PinnedApart(parse: Parser, session: Session)
    requires Kept(parse, session) == session
    ensures var rest := WithoutPinned(parse, session);
            && Kept(parse, rest) == rest
            && AllTabs(rest) == Those(AllTabs(session), IsUnpinned())
            && multiset(AllTabs(session)) == multiset(PinnedTabs(session)) + multiset(AllTabs(rest))
  {
    var all, unpinned := AllTabs(session), Each(session, IsUnpinned());
    KeptIs(parse, unpinned);
    EachTabs(session, IsUnpinned());
    EachTabs(unpinned, MaySave(parse));
    EachTabs(session, MaySave(parse));
    AllMaySave(parse, all, Those(all, IsUnpinned()));
    Apart(all, (tab: SavedTab) => tab.pinned, IsUnpinned());
  }

  lemma AllMaySave(parse: Parser, all: seq<SavedTab>, some: seq<SavedTab>)
    requires all == Those(all, MaySave(parse)) && some == Those(all, IsUnpinned())
    ensures Those(some, MaySave(parse)) == some
  {
    ThoseAre(all, MaySave(parse));
    ThoseAre(all, IsUnpinned());
    assert forall i | 0 <= i < |some| :: some[i] in some;
    ThoseAll(some, MaySave(parse));
  }

  // ------------------------------------------------------------- lines

  /** A line break at a line's end, and a carriage return before it, are not the
      line's. */
  function StripReturn(line: string): string {
    if line != "" && line[|line| - 1] == '\r' then line[..|line| - 1] else line
  }

  function Lines(text: string): seq<string>
    decreases |text|
  {
    if text == "" then []
    else
      var line := Until(text, {'\n'});
      UntilShorter(text, {'\n'});
      if |line| == |text| then [text] else [StripReturn(line)] + Lines(text[|line| + 1..])
  }

  lemma {:induction false} UntilShorter(s: string, stops: set<char>)
    ensures Until(s, stops) <= s && (|Until(s, stops)| < |s| ==> s[|Until(s, stops)|] in stops)
  {
    if s != "" && s[0] !in stops {
      UntilShorter(s[1..], stops);
    }
  }

  function Unlines(lines: seq<string>): string {
    if lines == [] then "" else lines[0] + "\n" + Unlines(lines[1..])
  }

  /** A line that is read as it was written. */
  predicate Plain(line: string) {
    (forall c | c in line :: c != '\n') && (line != "" ==> line[|line| - 1] != '\r')
  }

  lemma LineOf(line: string, rest: string)
    requires Plain(line)
    ensures Lines(line + "\n" + rest) == [line] + Lines(rest)
  {
    var text := line + "\n" + rest;
    assert text == line + ("\n" + rest);
    UntilStop(line, "\n" + rest, {'\n'});
    assert text[|line| + 1..] == rest;
  }

  lemma {:induction false} LinesBack(lines: seq<string>)
    requires forall i | 0 <= i < |lines| :: Plain(lines[i])
    ensures Lines(Unlines(lines)) == lines
  {
    if lines != [] {
      LinesBack(lines[1..]);
      LineOf(lines[0], Unlines(lines[1..]));
    }
  }

  lemma {:induction false} UnlinesAppend(lines: seq<string>, last: string)
    ensures Unlines(lines + [last]) == Unlines(lines) + (last + "\n")
  {
    if lines == [] {
      assert lines + [last] == [last];
      assert Unlines([last]) == last + "\n" + "";
    } else {
      UnlinesAppend(lines[1..], last);
      assert (lines + [last])[1..] == lines[1..] + [last];
      Regrouped(lines[0] + "\n", Unlines(lines[1..]), last + "\n");
    }
  }

  // ------------------------------------------------------------- printing

  /** One line of text: no tab, line break or other control character. */
  function OneLine(text: string): (r: string)
    ensures |r| == |text| && forall c | c in r :: !IsControl(c)
    ensures forall i | 0 <= i < |text| :: r[i] == if IsControl(text[i]) then ' ' else text[i]
  {
    seq(|text|, i requires 0 <= i < |text| => if IsControl(text[i]) then ' ' else text[i])
  }

  function PinField(pinned: bool): string {
    if pinned then "pinned" else "-"
  }

  function TabLine(tab: SavedTab): string {
    Join(["tab", PinField(tab.pinned), OneLine(tab.address), OneLine(tab.title)], '\t')
  }

  function TabLines(tabs: seq<SavedTab>): seq<string> {
    seq(|tabs|, i requires 0 <= i < |tabs| => TabLine(tabs[i]))
  }

  function WindowLine(window: SavedWindow): string {
    Join(["window", Print(window.selected)], '\t')
  }

  function WindowLines(windows: Session): seq<string> {
    if windows == [] then []
    else [WindowLine(windows[0])] + TabLines(windows[0].tabs) + WindowLines(windows[1..])
  }

  function ToText(session: Session): string {
    Unlines([HEADER] + WindowLines(session))
  }

  /** The file, line by line: its header, then for each window the place of its
      tab in front, then for each of its tabs whether it is pinned, its address
      and its title, fields apart by tabs. */
  lemma LinesAre(window: SavedWindow, tab: SavedTab, more: Session)
    ensures WindowLine(window) == "window\t" + Print(window.selected)
    ensures TabLine(tab) == "tab\t" + (if tab.pinned then "pinned" else "-") + "\t" + OneLine(tab.address)
                            + "\t" + OneLine(tab.title)
    ensures ToText([]) == "syndeo-session 1\n"
    ensures WindowLines([window] + more) == [WindowLine(window)] + TabLines(window.tabs) + WindowLines(more)
  {
    JoinedTwo("window", Print(window.selected));
    JoinedFour("tab", PinField(tab.pinned), OneLine(tab.address), OneLine(tab.title));
    assert Unlines([HEADER]) == HEADER + "\n" + Unlines([]);
    assert [HEADER] + WindowLines([]) == [HEADER];
    assert ([window] + more)[1..] == more;
  }

  lemma JoinedTwo(a: string, b: string)
    ensures Join([a, b], '\t') == a + "\t" + b
  {
    assert [a, b][1..] == [b];
  }

  lemma JoinedFour(a: string, b: string, c: string, d: string)
    ensures Join([a, b, c, d], '\t') == a + "\t" + b + "\t" + c + "\t" + d
  {
    assert [a, b, c, d][1..] == [b, c, d] && [b, c, d][1..] == [c, d];
    JoinedTwo(c, d);
    assert Join([b, c, d], '\t') == b + "\t" + (c + "\t" + d);
  }

  // ------------------------------------------------------------- reading

  /** What has been read, and whether the rest is not. */
  datatype Reading = Reading(windows: Session, stopped: bool)

  function AddTab(windows: Session, tab: SavedTab): Session {
    if windows == [] then windows
    else
      var last := windows[|windows| - 1];
      if |last.tabs| < TABS then windows[..|windows| - 1] + [last.(tabs := last.tabs + [tab])] else windows
  }

  function ReadLine(reading: Reading, line: string): Reading {
    var fields := Split(line, '\t');
    if |fields| == 2 && fields[0] == "window" then
      if |reading.windows| == WINDOWS then reading.(stopped := true)
      else
        var selected := ParseUsize(fields[1]);
        reading.(windows := reading.windows + [SavedWindow([], if selected.Some? then selected.value else 0)])
    else if |fields| == 4 && fields[0] == "tab" && (fields[1] == "pinned" || fields[1] == "-") then
      reading.(windows := AddTab(reading.windows, SavedTab(fields[2], fields[3], fields[1] == "pinned")))
    else reading
  }

  function ReadLines(reading: Reading, lines: seq<string>): Reading
    decreases |lines|
  {
    if lines == [] || reading.stopped then reading else ReadLines(ReadLine(reading, lines[0]), lines[1..])
  }

  function ClampOne(window: SavedWindow): SavedWindow {
    if window.selected >= |window.tabs| then window.(selected := 0) else window
  }

  function Clamp(windows: Session): Session {
    seq(|windows|, i requires 0 <= i < |windows| => ClampOne(windows[i]))
  }

  function FromText(parse: Parser, text: string): Session {
    var lines := Lines(text);
    if lines == [] || lines[0] != HEADER then []
    else Kept(parse, Clamp(ReadLines(Reading([], false), lines[1..]).windows))
  }

  // ------------------------------------------------------------- any text at all

  predicate WithinLimits(windows: Session) {
    |windows| <= 50 && forall i | 0 <= i < |windows| :: |windows[i].tabs| <= 500
  }

  lemma {:induction false} ReadWithinLimits(reading: Reading, lines: seq<string>)
    requires WithinLimits(reading.windows)
    ensures WithinLimits(ReadLines(reading, lines).windows)
    decreases |lines|
  {
    if lines != [] && !reading.stopped {
      ReadWithinLimits(ReadLine(reading, lines[0]), lines[1..]);
    }
  }

  /** Whatever a session's file holds, what is read of it is at most 50 windows,
      of one to 500 tabs each, with a tab in front that is there, and only
      addresses another application could ask to open; and it is what would be
      kept. */
  lemma AnyText(parse: Parser, text: string)
    requires Lawful(parse)
    ensures var session := FromText(parse, text);
            && |session| <= 50 && Kept(parse, session) == session
            && forall i | 0 <= i < |session| ::
                 && 1 <= |session[i].tabs| <= 500 && session[i].selected < |session[i].tabs|
                 && forall j | 0 <= j < |session[i].tabs| :: Ask(parse, session[i].tabs[j].address).Open?
  {
    var lines := Lines(text);
    if lines != [] && lines[0] == HEADER {
      var read := Clamp(ReadLines(Reading([], false), lines[1..]).windows);
      ReadWithinLimits(Reading([], false), lines[1..]);
      KeptIs(parse, read);
      KeptWithinLimits(parse, read);
      forall address | Savable(parse, address)
        ensures Ask(parse, address).Open?
      {
        SavableIsAsked(parse, address);
      }
    }
  }

  lemma KeptWithinLimits(parse: Parser, session: Session)
    requires WithinLimits(session)
    ensures WithinLimits(Kept(parse, session))
  {
    var each, kept := Each(session, MaySave(parse)), Kept(parse, session);
    NotEmptyAre(each);
    forall i | 0 <= i < |kept|
      ensures |kept[i].tabs| <= TABS
    {
      assert kept[i] in kept;
      var j :| 0 <= j < |each| && each[j] == kept[i];
      ThoseAre(session[j].tabs, MaySave(parse));
    }
  }

  // ------------------------------------------------------------- printed and read back

  function CleanTab(tab: SavedTab): SavedTab {
    tab.(address := OneLine(tab.address), title := OneLine(tab.title))
  }

  /** The first tabs of a window, each on one line: as many as are read back. */
  function CleanWindow(window: SavedWindow): SavedWindow {
    var n := if |window.tabs| < TABS then |window.tabs| else TABS;
    window.(tabs := seq(n, i requires 0 <= i < n => CleanTab(window.tabs[i])))
  }

  function CleanAll(windows: Session): Session {
    seq(|windows|, i requires 0 <= i < |windows| => CleanWindow(windows[i]))
  }

  function FirstWindows(windows: Session): Session {
    if |windows| <= WINDOWS then windows else windows[..WINDOWS]
  }

  lemma {:induction false} JoinHolds(parts: seq<string>, d: char, c: char)
    requires c in Join(parts, d)
    ensures c == d || exists k :: 0 <= k < |parts| && c in parts[k]
  {
    if |parts| > 1 && c !in parts[0] && c != d {
      assert c in Join(parts[1..], d);
      JoinHolds(parts[1..], d, c);
      var k :| 0 <= k < |parts[1..]| && c in parts[1..][k];
      assert c in parts[k + 1];
    }
  }

  /** Fields that hold no control character make a line that is read back. */
  lemma FieldsRead(fields: seq<string>)
    requires fields != [] && forall k | 0 <= k < |fields| :: forall c | c in fields[k] :: !IsControl(c)
    ensures Plain(Join(fields, '\t')) && Split(Join(fields, '\t'), '\t') == fields
  {
    var line := Join(fields, '\t');
    forall c | c in line
      ensures c != '\n' && c != '\r'
    {
      JoinHolds(fields, '\t', c);
    }
    SplitJoin(fields, '\t');
    if line != "" {
      assert line[|line| - 1] in line;
    }
  }

  lemma WindowLineRead(window: SavedWindow)
    requires window.selected < USIZE
    ensures Plain(WindowLine(window))
    ensures Split(WindowLine(window), '\t') == ["window", Print(window.selected)]
    ensures ParseUsize(Print(window.selected)) == Some(window.selected)
  {
    FieldsRead(["window", Print(window.selected)]);
    ParsePrint(window.selected);
  }

  lemma TabLineRead(tab: SavedTab)
    ensures Plain(TabLine(tab))
    ensures Split(TabLine(tab), '\t') == ["tab", PinField(tab.pinned), OneLine(tab.address), OneLine(tab.title)]
  {
    FieldsRead(["tab", PinField(tab.pinned), OneLine(tab.address), OneLine(tab.title)]);
  }

  /** Tabs added to the last of `windows`, while there is room. */
  lemma {:induction false} TabsRead(before: Session, window: SavedWindow, tabs: seq<SavedTab>, rest: seq<string>, n: nat)
    requires |window.tabs| == n <= TABS
    ensures var more := if n + |tabs| <= TABS then tabs else tabs[..TABS - n];
            ReadLines(Reading(before + [window], false), TabLines(tabs) + rest) ==
            ReadLines(Reading(before + [window.(tabs := window.tabs + CleanTabs(more))], false), rest)
    decreases |tabs|
  {
    if tabs == [] {
      assert TabLines(tabs) + rest == rest;
      assert window.tabs + CleanTabs([]) == window.tabs;
    } else {
      var reading := Reading(before + [window], false);
      var lines := TabLines(tabs) + rest;
      TabLineRead(tabs[0]);
      assert lines[0] == TabLine(tabs[0]) && lines[1..] == TabLines(tabs[1..]) + rest;
      if n < TABS {
        var next := window.(tabs := window.tabs + [CleanTab(tabs[0])]);
        assert ReadLine(reading, lines[0]) == Reading(before + [next], false);
        TabsRead(before, next, tabs[1..], rest, n + 1);
        CleanNext(window.tabs, tabs, TABS - n);
      } else {
        assert ReadLine(reading, lines[0]) == reading;
        TabsRead(before, window, tabs[1..], rest, n);
      }
    }
  }

  function CleanTabs(tabs: seq<SavedTab>): seq<SavedTab> {
    seq(|tabs|, i requires 0 <= i < |tabs| => CleanTab(tabs[i]))
  }

  lemma CleanNext(done: seq<SavedTab>, tabs: seq<SavedTab>, room: nat)
    requires tabs != [] && room > 0
    ensures var more := if |tabs| <= room then tabs else tabs[..room];
            var later := if |tabs[1..]| <= room - 1 then tabs[1..] else tabs[1..][..room - 1];
            (done + [CleanTab(tabs[0])]) + CleanTabs(later) == done + CleanTabs(more)
  {
  }

  /** One window, read back after those read already, and before what follows. */
  lemma WindowRead(done: Session, window: SavedWindow, later: seq<string>)
    requires |done| < WINDOWS && window.selected < USIZE
    ensures ReadLines(Reading(done, false), [WindowLine(window)] + (TabLines(window.tabs) + later))
            == ReadLines(Reading(done + [CleanWindow(window)], false), later)
  {
    var empty := SavedWindow([], window.selected);
    var lines := [WindowLine(window)] + (TabLines(window.tabs) + later);
    WindowLineRead(window);
    assert ReadLine(Reading(done, false), lines[0]) == Reading(done + [empty], false);
    assert lines[1..] == TabLines(window.tabs) + later;
    TabsRead(done, empty, window.tabs, later, 0);
    CleanIs(window);
  }

  lemma TooMany(done: Session, window: SavedWindow, lines: seq<string>)
    requires |done| == WINDOWS && window.selected < USIZE && lines != [] && lines[0] == WindowLine(window)
    ensures ReadLines(Reading(done, false), lines).windows == done
  {
    WindowLineRead(window);
  }

  lemma CleanFirst(done: Session, windows: Session)
    requires windows != []
    ensures (done + [CleanWindow(windows[0])]) + CleanAll(windows[1..]) == done + CleanAll(windows)
  {
  }

  lemma WindowLinesFirst(windows: Session)
    requires windows != []
    ensures WindowLines(windows) == [WindowLine(windows[0])] + (TabLines(windows[0].tabs) + WindowLines(windows[1..]))
  {
  }

  /** The windows written, read back after those read already. */
  lemma {:induction false} WindowsRead(done: Session, windows: Session)
    requires |done| <= WINDOWS && forall i | 0 <= i < |windows| :: windows[i].selected < USIZE
    ensures ReadLines(Reading(done, false), WindowLines(windows)).windows == FirstWindows(done + CleanAll(windows))
    decreases |windows|
  {
    if windows == [] {
      assert done + CleanAll([]) == done;
    } else {
      WindowLinesFirst(windows);
      if |done| == WINDOWS {
        TooMany(done, windows[0], WindowLines(windows));
        assert (done + CleanAll(windows))[..WINDOWS] == done;
      } else {
        WindowRead(done, windows[0], WindowLines(windows[1..]));
        WindowsRead(done + [CleanWindow(windows[0])], windows[1..]);
        CleanFirst(done, windows);
      }
    }
  }

  lemma CleanIs(window: SavedWindow)
    ensures var more := if |window.tabs| <= TABS then window.tabs else window.tabs[..TABS];
            CleanWindow(window) == SavedWindow([] + CleanTabs(more), window.selected)
  {
  }

  lemma {:induction false} WindowLinesPlain(windows: Session)
    requires forall i | 0 <= i < |windows| :: windows[i].selected < USIZE
    ensures forall i | 0 <= i < |WindowLines(windows)| :: Plain(WindowLines(windows)[i])
  {
    if windows != [] {
      WindowLineRead(windows[0]);
      forall i | 0 <= i < |windows[0].tabs|
        ensures Plain(TabLine(windows[0].tabs[i]))
      {
        TabLineRead(windows[0].tabs[i]);
      }
      WindowLinesPlain(windows[1..]);
    }
  }

  /** Any session printed, read back: its first windows and their first tabs,
      each on one line, those that can be opened again. */
  lemma PrintedReadsBack(parse: Parser, session: Session)
    requires forall i | 0 <= i < |session| :: session[i].selected < USIZE
    ensures FromText(parse, ToText(session)) == Kept(parse, Clamp(FirstWindows(CleanAll(session))))
  {
    var lines := [HEADER] + WindowLines(session);
    WindowLinesPlain(session);
    assert Plain(HEADER);
    LinesBack(lines);
    assert lines[1..] == WindowLines(session);
    WindowsRead([], session);
    assert [] + CleanAll(session) == CleanAll(session);
  }

  /** Nothing on more than one line. */
  predicate OnOneLine(session: Session) {
    forall i | 0 <= i < |session| :: forall j | 0 <= j < |session[i].tabs| ::
      OneLine(session[i].tabs[j].address) == session[i].tabs[j].address
      && OneLine(session[i].tabs[j].title) == session[i].tabs[j].title
  }

  lemma CleanedAlready(session: Session)
    requires OnOneLine(session) && WithinLimits(session)
    requires forall i | 0 <= i < |session| :: session[i].selected < |session[i].tabs|
    ensures Clamp(FirstWindows(CleanAll(session))) == session
  {
    forall i | 0 <= i < |session|
      ensures CleanWindow(session[i]) == session[i] && ClampOne(session[i]) == session[i]
    {
      var tabs := session[i].tabs;
      assert forall j | 0 <= j < |tabs| :: CleanTab(tabs[j]) == tabs[j];
      assert CleanWindow(session[i]).tabs == tabs;
    }
    assert CleanAll(session) == session;
  }

  /** A session kept, on one line and within the limits, is read back as it was
      printed. */
  lemma KeptRoundTrip(parse: Parser, session: Session)
    requires Kept(parse, session) == session && OnOneLine(session) && WithinLimits(session)
    ensures FromText(parse, ToText(session)) == session
  {
    KeptIs(parse, session);
    PrintedReadsBack(parse, session);
    CleanedAlready(session);
  }

  // ------------------------------------------------------------- step by step

  lemma ThoseOn(tabs: seq<SavedTab>, i: nat, keep: SavedTab -> bool, kept: seq<SavedTab>)
    requires i < |tabs|
    ensures kept + Those(tabs[i..], keep)
            == (if keep(tabs[i]) then kept + [tabs[i]] else kept) + Those(tabs[i + 1..], keep)
  {
    assert tabs[i..][1..] == tabs[i + 1..];
  }

  lemma NotEmptyOn(windows: Session, i: nat, kept: Session)
    requires i < |windows|
    ensures kept + NotEmpty(windows[i..])
            == (if windows[i].tabs != [] then kept + [windows[i]] else kept) + NotEmpty(windows[i + 1..])
  {
    assert windows[i..][1..] == windows[i + 1..];
  }

  method Retain(tabs: seq<SavedTab>, keep: SavedTab -> bool) returns (kept: seq<SavedTab>)
    ensures kept == Those(tabs, keep)
  {
    kept := [];
    for i := 0 to |tabs|
      invariant kept + Those(tabs[i..], keep) == Those(tabs, keep)
    {
      ThoseOn(tabs, i, keep, kept);
      if keep(tabs[i]) {
        kept := kept + [tabs[i]];
      }
    }
  }

  method KeepWindow(window: SavedWindow, keep: SavedTab -> bool) returns (kept: SavedWindow)
    ensures kept == KeptWindow(window, keep)
  {
    var tabs := Retain(window.tabs, keep);
    var selected := 0;
    if window.selected < |window.tabs| {
      var at := Position(tabs, window.tabs[window.selected]);
      if at.Some? {
        selected := at.value;
      }
    }
    return SavedWindow(tabs, selected);
  }

  /** Each window's tabs that can be opened again; then its windows that have
      any. */
  method Keep(parse: Parser, session: Session) returns (kept: Session)
    ensures kept == Kept(parse, session)
  {
    var keep := MaySave(parse);
    var windows := session;
    for i := 0 to |session|
      invariant |windows| == |session|
      invariant forall k | 0 <= k < i :: windows[k] == KeptWindow(session[k], keep)
      invariant forall k | i <= k < |session| :: windows[k] == session[k]
    {
      var window := KeepWindow(windows[i], keep);
      windows := windows[i := window];
    }
    assert windows == Each(session, keep);
    kept := [];
    for i := 0 to |windows|
      invariant kept + NotEmpty(windows[i..]) == NotEmpty(windows)
    {
      NotEmptyOn(windows, i, kept);
      if windows[i].tabs != [] {
        kept := kept + [windows[i]];
      }
    }
  }

  lemma LinesOn(text: string, lines: seq<string>, last: string)
    requires text == Unlines(lines)
    ensures text + (last + "\n") == Unlines(lines + [last])
  {
    UnlinesAppend(lines, last);
  }

  lemma WindowLinesOn(windows: Session, i: nat, before: seq<string>)
    requires i < |windows|
    ensures before + WindowLines(windows[i..])
            == ((before + [WindowLine(windows[i])]) + TabLines(windows[i].tabs)) + WindowLines(windows[i + 1..])
  {
    assert windows[i..][1..] == windows[i + 1..];
  }

  /** A header, then for each window a line, then one for each of its tabs. */
  method PrintSession(session: Session) returns (text: string)
    ensures text == ToText(session)
  {
    text := HEADER + "\n";
    ghost var lines := [HEADER];
    UnlinesAppend([], HEADER);
    assert [] + [HEADER] == [HEADER] && Unlines([]) + (HEADER + "\n") == HEADER + "\n";
    for i := 0 to |session|
      invariant text == Unlines(lines) && lines + WindowLines(session[i..]) == [HEADER] + WindowLines(session)
    {
      WindowLinesOn(session, i, lines);
      text, lines := PrintWindow(session[i], text, lines);
    }
    assert lines + WindowLines([]) == lines;
    assert session[|session|..] == [];
  }

  method PrintWindow(window: SavedWindow, before: string, ghost lines: seq<string>) returns (text: string, ghost more: seq<string>)
    requires before == Unlines(lines)
    ensures text == Unlines(more) && more == (lines + [WindowLine(window)]) + TabLines(window.tabs)
  {
    LinesOn(before, lines, WindowLine(window));
    text, more := before + (WindowLine(window) + "\n"), lines + [WindowLine(window)];
    ghost var first := more;
    for j := 0 to |window.tabs|
      invariant text == Unlines(more) && more == first + TabLines(window.tabs)[..j]
    {
      LinesOn(text, more, TabLine(window.tabs[j]));
      text, more := text + (TabLine(window.tabs[j]) + "\n"), more + [TabLine(window.tabs[j])];
    }
    assert TabLines(window.tabs)[..|window.tabs|] == TabLines(window.tabs);
  }

  lemma ReadOn(reading: Reading, lines: seq<string>, i: nat)
    requires i < |lines| && !reading.stopped
    ensures ReadLines(reading, lines[i..]) == ReadLines(ReadLine(reading, lines[i]), lines[i + 1..])
  {
    assert lines[i..][1..] == lines[i + 1..];
  }

  /** Line by line, until there are too many windows; then each window's tab in
      front put right, and what cannot be opened left out. */
  method ReadSession(parse: Parser, text: string) returns (session: Session)
    ensures session == FromText(parse, text)
  {
    var lines := Lines(text);
    if lines == [] || lines[0] != HEADER {
      return [];
    }
    var windows := ReadWindows(lines);
    for i := 0 to |windows|
      invariant |windows| == |ReadLines(Reading([], false), lines[1..]).windows|
      invariant forall k | 0 <= k < i :: windows[k] == ClampOne(ReadLines(Reading([], false), lines[1..]).windows[k])
      invariant forall k | i <= k < |windows| :: windows[k] == ReadLines(Reading([], false), lines[1..]).windows[k]
    {
      if windows[i].selected >= |windows[i].tabs| {
        windows := windows[i := windows[i].(selected := 0)];
      }
    }
    assert windows == Clamp(ReadLines(Reading([], false), lines[1..]).windows);
    session := Keep(parse, windows);
  }

  method ReadWindows(lines: seq<string>) returns (windows: Session)
    requires lines != []
    ensures windows == ReadLines(Reading([], false), lines[1..]).windows
  {
    var reading := Reading([], false);
    ghost var all := ReadLines(reading, lines[1..]);
    for i := 1 to |lines|
      invariant ReadLines(reading, lines[i..]) == all
    {
      if reading.stopped {
        return reading.windows;
      }
      ReadOn(reading, lines, i);
      reading := ReadLine(reading, lines[i]);
    }
    return reading.windows;
  }
}
