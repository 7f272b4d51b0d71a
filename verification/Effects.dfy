/** What each step does, all of it: who is taken back, who is introduced and
    forgotten, which windows open and close and whose they are, how long a tab
    stays an agent's, and what Recently Closed holds. */
module Effects {
  import opened Wrappers
  import opened Lists
  import opened Scopes
  import opened Requests
  import opened Machine
  import opened Structure
  import opened Ownership
  import opened Leave
  import opened Gate

  // ------------------------------------------------------------- taking back

  /** `n` is `s` with everything of `keys` gone, and nothing else. */
  ghost predicate AllGone(s: State, n: State, keys: set<Key>) {
    && (forall c :: c in n.conns <==> c in s.conns && s.conns[c].agent !in keys)
    && (forall c | c in n.conns :: n.conns[c] == s.conns[c])
    && (forall t :: t in n.tabs <==> t in s.tabs && s.tabs[t].agent !in keys)
    && (forall t | t in n.tabs :: n.tabs[t] == s.tabs[t])
    && (forall k :: k in n.agents <==> k in s.agents && k !in keys)
    && (forall k | k in n.agents :: n.agents[k] == s.agents[k])
    && n.showing == s.showing && n.waiting == s.waiting && n.denied == s.denied
    && n.windows == s.windows && n.recent == s.recent
    && n.log == s.log + [TakenBack(keys)]
  }

  lemma RevokeIs(s: State, keys: set<Key>)
    ensures AllGone(s, Revoke(s, keys), keys)
    ensures Revoke(s, keys).serving == s.serving && Revoke(s, keys).kept == s.kept
  {
  }

  /** Stop, pressed in an agent's tab, takes back all that is that agent's, and
      nothing of any other's; a number no agent has takes back nothing. */
  lemma StopIs(s: State, number: nat)
    requires Sound(s)
    ensures var n := Machine.Step(s, StopPressed(number));
            && (forall key | key in s.agents && s.agents[key].number == number :: AllGone(s, n, {key}))
            && ((forall key | key in s.agents :: s.agents[key].number != number) ==> n == s)
  {
    forall key | key in s.agents && s.agents[key].number == number
      ensures AllGone(s, OnStop(s, number), {key})
    {
      assert Numbered(s, number) == {key};
      RevokeIs(s, {key});
    }
    if forall key | key in s.agents :: s.agents[key].number != number {
      assert Numbered(s, number) == {};
    }
  }

  /** Revoke All takes back every agent's; the switch does too, and no connection
      is then taken until it is on again. */
  lemma RevokeAllIs(s: State)
    ensures AllGone(s, Machine.Step(s, RevokeAll), s.agents.Keys)
  {
    RevokeIs(s, s.agents.Keys);
  }

  lemma ServingIs(s: State)
    requires Sound(s)
    ensures var off := StopServing(s);
            && !off.serving && off.kept == s.kept && AllGone(s, off, s.agents.Keys)
            && off.conns == map[] && off.agents == map[] && off.tabs == map[]
  {
    RevokeIs(s, s.agents.Keys);
    StopServingKeeps(s);
  }

  lemma SwitchIs(s: State, up: bool)
    requires Sound(s)
    ensures var off := Machine.Step(s, SwitchedOff);
            && !off.serving && off.kept == s.kept && AllGone(s, off, s.agents.Keys)
            && off.conns == map[] && off.agents == map[] && off.tabs == map[]
    ensures Machine.Step(s, SwitchedOn(up)) == s.(serving := s.serving || up)
  {
    ServingIs(s);
  }

  /** Quitting does what the switch does, after the session is kept. */
  lemma QuitIs(s: State, browsing: bool)
    requires Sound(s)
    ensures var n := OnQuits(s, browsing);
            && !n.serving && AllGone(s, n, s.agents.Keys)
            && n.conns == map[] && n.agents == map[] && n.tabs == map[]
            && (n.kept == if browsing then Some(Persons(s.windows, AgentWindows(s))) else s.kept)
  {
    ServingIs(if browsing then s.(kept := Some(Persons(s.windows, AgentWindows(s)))) else s);
  }

  // ------------------------------------------------------------- connections

  /** Only a peer with an agent is connected, and only while the switch is on; it
      has no leave of its own yet, and its agent, if new, the next number. */
  lemma ConnectedIs(s: State, conn: nat, peer: Option<Key>)
    requires conn !in s.conns
    ensures var n := Machine.Step(s, Connected(conn, peer));
            && (conn in n.conns <==> s.serving && peer.Some?)
            && (conn in n.conns ==>
                  && n.conns[conn].agent == peer.value && !n.conns[conn].allowed && n.conns[conn].once == {}
                  && n.agents == if peer.value in s.agents then s.agents
                                 else s.agents[peer.value := Agent(s.nextAgent, {})])
            && (conn !in n.conns ==> n.agents == s.agents && n.log == s.log)
            && (forall c | c != conn :: c in n.conns <==> c in s.conns)
            && (forall c | c in s.conns :: n.conns[c] == s.conns[c])
            && n.tabs == s.tabs && n.serving == s.serving
  {
  }

  /** What the person allowed `key` for the session, and has not taken back. */
  ghost predicate HeldForSession(log: seq<Entry>, key: Key) {
    exists j: nat :: j < |log| && log[j].Allowed? && log[j].agent == key && log[j].session && log[j].scopes != {}
                     && NotTakenBackSince(log, j, key)
  }

  lemma {:induction false} SessionMeans(log: seq<Entry>, key: Key)
    ensures SessionOf(log, key) != {} <==> HeldForSession(log, key)
    decreases |log|
  {
    if log != [] {
      var n := |log| - 1;
      var before := log[..n];
      SessionMeans(before, key);
      if log[n].Allowed? && log[n].agent == key && log[n].session && log[n].scopes != {} {
        assert NotTakenBackSince(log, n, key);
      }
      if HeldForSession(before, key) && !(log[n].TakenBack? && key in log[n].agents) {
        var j: nat :| j < n && before[j].Allowed? && before[j].agent == key && before[j].session
                      && before[j].scopes != {} && NotTakenBackSince(before, j, key);
        assert log[j] == before[j] && forall i | j < i < n :: log[i] == before[i];
        assert NotTakenBackSince(log, j, key);
      }
      if HeldForSession(log, key) {
        var j: nat :| j < |log| && log[j].Allowed? && log[j].agent == key && log[j].session
                      && log[j].scopes != {} && NotTakenBackSince(log, j, key);
        if j < n {
          assert before[j] == log[j] && forall i | j < i < n :: before[i] == log[i];
          assert NotTakenBackSince(before, j, key);
        }
      }
    }
  }

  /** `conn` is its agent's last connection, and nothing is allowed that agent
      for the session. */
  ghost predicate LastOfAgent(s: State, conn: nat) {
    && conn in s.conns
    && (forall c | c in s.conns && s.conns[c].agent == s.conns[conn].agent :: c == conn)
    && !HeldForSession(s.log, s.conns[conn].agent)
  }

  lemma LastIs(s: State, conn: nat)
    requires Sound(s) && Honest(s) && conn in s.conns
    ensures var key := s.conns[conn].agent;
            LastOfAgent(s, conn) <==> !HasConnection(s.conns - {conn}, key) && s.agents[key].session == {}
  {
    var key, left := s.conns[conn].agent, s.conns - {conn};
    SessionMeans(s.log, key);
    assert s.agents[key].session == SessionOf(s.log, key);
    if HasConnection(left, key) {
      var c :| c in left && left[c].agent == key;
      assert c in s.conns && c != conn;
    } else {
      forall c | c in s.conns && s.conns[c].agent == key
        ensures c == conn
      {
        assert c in left <==> c != conn;
      }
    }
  }

  /** A connection closed is gone; its agent is forgotten, and its tabs the
      person's, exactly if that was the last of it and nothing is allowed it for
      the session. No other connection, agent or tab changes. */
  lemma ClosedIs(s: State, conn: nat)
    requires Sound(s) && Honest(s) && conn in s.conns
    ensures var n, key := OnClosed(s, conn), s.conns[conn].agent;
            && n.conns == s.conns - {conn}
            && n.agents == (if LastOfAgent(s, conn) then s.agents - {key} else s.agents)
            && (forall t :: t in n.tabs <==> t in s.tabs && !(LastOfAgent(s, conn) && s.tabs[t].agent == key))
            && (forall t | t in n.tabs :: n.tabs[t] == s.tabs[t])
            && n.log == s.log && n.windows == s.windows && n.recent == s.recent
  {
    LastIs(s, conn);
  }

  // ------------------------------------------------------------- windows

  /** One window more, the last, of `owner`; every other window as it was. */
  ghost predicate OneMore(s: State, n: State, opener: Opener, owner: Option<Key>) {
    && n.windows == s.windows + [s.nextWindow] && s.nextWindow !in s.windows
    && OwnerOf(n, s.nextWindow) == owner
    && (forall w | w in s.windows :: OwnerOf(n, w) == OwnerOf(s, w))
    && n.conns == s.conns && n.agents == s.agents && n.kept == s.kept
    && n.log == s.log + [Opened(s.nextWindow, opener)]
  }

  lemma NewOwner(s: State, opener: Opener)
    requires Sound(s)
    ensures OneMore(s, NewWindow(s, opener), opener, None)
    ensures NewWindow(s, opener).tabs == s.tabs && NewWindow(s, opener).recent == s.recent
  {
    var n := NewWindow(s, opener);
    NewWindowKeeps(s, opener);
    SameOwners(s, n);
    assert forall t | t in s.tabs :: s.tabs[t].window in s.windows;
  }

  lemma SameOwners(s: State, n: State)
    requires Sound(s) && Sound(n) && n.tabs == s.tabs
    ensures forall w :: OwnerOf(n, w) == OwnerOf(s, w)
  {
    forall w
      ensures OwnerOf(n, w) == OwnerOf(s, w)
    {
      if w in AgentWindows(s) {
        var t :| t in s.tabs && s.tabs[t].window == w;
        OwnerFound(s, t);
        OwnerFound(n, t);
      }
    }
  }

  lemma AdoptedOwner(s: State, opener: Opener, key: Key)
    requires Sound(s) && key in s.agents
    ensures OneMore(s, Adopt(NewWindow(s, opener), key, s.nextWindow), opener, Some(key))
  {
    var n := Adopt(NewWindow(s, opener), key, s.nextWindow);
    OpensKeeps(s, opener, key);
    OwnerFound(n, s.nextTab);
    forall w | w in s.windows
      ensures OwnerOf(n, w) == OwnerOf(s, w)
    {
      OtherOwner(s, n, Tab(key, s.nextWindow), w);
    }
  }

  lemma OtherOwner(s: State, n: State, made: Tab, w: nat)
    requires Sound(s) && Sound(n) && n.tabs == s.tabs[s.nextTab := made] && w != made.window
    ensures OwnerOf(n, w) == OwnerOf(s, w)
  {
    if w in AgentWindows(s) {
      var t :| t in s.tabs && s.tabs[t].window == w;
      OwnerFound(s, t);
      OwnerFound(n, t);
    } else {
      assert w !in AgentWindows(n);
    }
  }

  /** A page opens a window that is the agent's whose tab the page is in, if it is
      one's and the window browses; and the person's otherwise. */
  lemma PageOpensIs(s: State, parent: nat, browses: bool)
    requires Sound(s)
    ensures OneMore(s, OnPageOpens(s, parent, browses), ByPage(parent), if browses then OwnerOf(s, parent) else None)
  {
    if OwnerOf(s, parent).Some? && browses {
      var t :| t in s.tabs && s.tabs[t].window == parent;
      OwnerFound(s, t);
      AdoptedOwner(s, ByPage(parent), OwnerOf(s, parent).value);
    } else {
      NewOwner(s, ByPage(parent));
    }
  }

  /** What an agent opens is that agent's. */
  lemma OpenIs(s: State, conn: nat, c: Command, now: Time)
    requires Sound(s) && Honest(s) && c.Open? && Through(s, conn, c)
    ensures OwnerOf(OnRequest(s, s.nextReply, conn, c, true, now), s.nextWindow) == Some(s.conns[conn].agent)
  {
    var n, key := OnRequest(s, s.nextReply, conn, c, true, now), s.conns[conn].agent;
    OpenLine(s, conn, c, true, now);
    AdoptedOwner(s, ByAgent(key), key);
    var made := Adopt(NewWindow(s, ByAgent(key)), key, s.nextWindow);
    OpensKeeps(s, ByAgent(key), key);
    RequestKeeps(s, s.nextReply, conn, c, true, now);
    SameOwners(made, n);
  }

  /** What the person opens is the person's. */
  lemma PersonOpensIs(s: State)
    requires Sound(s)
    ensures OneMore(s, Machine.Step(s, PersonOpens), ByPerson, None)
  {
    NewOwner(s, ByPerson);
  }

  /** Recently Closed with one tab more in front, and the last 25 kept. */
  predicate PutFirst(recent: seq<nat>, after: seq<nat>, window: nat) {
    && |after| == (if |recent| < 25 then |recent| + 1 else 25)
    && after[0] == window && forall i | 1 <= i < |after| :: after[i] == recent[i - 1]
  }

  /** A window closed is gone from the windows, and from its agent's tabs if it
      was one's; and, if it was the person's and browsed, is put first in Recently
      Closed. */
  lemma WindowClosesIs(s: State, window: nat, browsed: bool)
    requires Sound(s) && |s.recent| <= 25
    ensures var n := Machine.Step(s, WindowCloses(window, browsed));
            && (forall w :: w in n.windows <==> w in s.windows && w != window)
            && (forall t :: t in n.tabs <==> t in s.tabs && s.tabs[t].window != window)
            && (forall t | t in n.tabs :: n.tabs[t] == s.tabs[t])
            && (if browsed && OwnerOf(s, window).None? then PutFirst(s.recent, n.recent, window) else n.recent == s.recent)
            && n.conns == s.conns && n.agents == s.agents && n.kept == s.kept && n.log == s.log
  {
    WithoutIs(s.windows, window);
  }

  /** An entry of Recently Closed is opened as the person's own window, and taken
      out; one that is not there opens nothing. */
  lemma ReopensIs(s: State, index: nat)
    requires Sound(s)
    ensures var n := OnReopens(s, index);
            if index < |s.recent| then
              && OneMore(s, n, ByPerson, None)
              && n.recent == s.recent[..index] + s.recent[index + 1..]
            else n == s
  {
    if index < |s.recent| {
      var m := s.(recent := s.recent[..index] + s.recent[index + 1..]);
      NewOwner(m, ByPerson);
      SameOwners(s, m);
    }
  }

  /** At most 25 are ever kept. */
  lemma {:induction false} RecentAtMost(events: seq<Event>)
    ensures |Run(Initial, events).recent| <= 25
    decreases |events|
  {
    if events != [] {
      var before := events[..|events| - 1];
      RecentAtMost(before);
      RecentStep(Run(Initial, before), events[|events| - 1]);
    }
  }

  lemma RecentStep(s: State, e: Event)
    requires |s.recent| <= 25
    ensures |Machine.Step(s, e).recent| <= 25
  {
    if !e.WindowCloses? && !e.Reopens? && !e.Quits? {
      OtherStepsKept(s, e);
    }
  }

  /** The person's windows are collected in the order they are in. */
  lemma {:induction false} PersonsInOrder(a: seq<nat>, window: nat, b: seq<nat>, agents: set<nat>)
    ensures Persons(a + [window] + b, agents) ==
            Persons(a, agents) + (if window in agents then [] else [window]) + Persons(b, agents)
  {
    var all := a + [window] + b;
    if a == [] {
      assert all[0] == window && all[1..] == b;
    } else {
      assert all[0] == a[0] && all[1..] == a[1..] + [window] + b;
      PersonsInOrder(a[1..], window, b, agents);
    }
  }

  // ------------------------------------------------------------- probes

  /** A probe reaches its tab exactly when its connection was allowed and holds
      what the probe needs, and the tab is its agent's; otherwise nothing
      happens. */
  lemma ProbeIs(s: State, conn: nat, tab: nat, needs: Option<Scope>)
    requires Sound(s) && Honest(s)
    ensures var n := OnProbe(s, conn, tab, needs);
            if && conn in s.conns && s.conns[conn].allowed
               && (needs.Some? ==> Held(s.log, conn, s.conns[conn].agent, needs.value))
               && tab in s.tabs && s.tabs[tab].agent == s.conns[conn].agent
            then n == s.(log := s.log + [Probed(conn, s.conns[conn].agent, needs, {s.tabs[tab].window})])
            else n == s
  {
    if conn in s.conns {
      HeldIs(s.log, conn, s.conns[conn].agent);
    }
  }

  // ------------------------------------------------------------- how long a tab is an agent's

  /** `e` ends that tab `t` is its agent's: its window closes, by the person or by
      a Close its agent had leave for; its agent is taken back; or its agent's
      last connection closes, with nothing allowed for the session. */
  ghost predicate Ends(s: State, e: Event, t: nat) {
    t in s.tabs &&
    var Tab(key, window) := s.tabs[t];
    match e
    case WindowCloses(w, _) => w == window
    case Line(conn, read, works, _) =>
      read == Ok(Close(t)) && works && Through(s, conn, Close(t)) && s.conns[conn].agent == key
    case StopPressed(number) => key in s.agents && number == s.agents[key].number
    case RevokeAll => true
    case SwitchedOff => true
    case Quits(_) => true
    case Closed(conn) => LastOfAgent(s, conn) && s.conns[conn].agent == key
    case _ => false
  }

  ghost predicate StaysUnless(s: State, e: Event, t: nat, tabs: map<nat, Tab>) {
    (t in tabs <==> !Ends(s, e, t)) && (t in tabs ==> t in s.tabs && tabs[t] == s.tabs[t])
  }

  lemma LineEnds(s: State, e: Event, t: nat, n: State)
    requires Sound(s) && Honest(s) && e.Line? && t in s.tabs
    requires n == OnRead(s, s.nextReply, e.conn, e.read, e.works, e.now)
    ensures StaysUnless(s, e, t, n.tabs)
  {
    if e.read.Ok? && !e.read.value.Bye? {
      RequestEnds(s, e, t, OnRequest(s, s.nextReply, e.conn, e.read.value, e.works, e.now).tabs);
    }
  }

  lemma RequestEnds(s: State, e: Event, t: nat, tabs: map<nat, Tab>)
    requires Sound(s) && Honest(s) && e.Line? && e.read.Ok? && !e.read.value.Bye? && t in s.tabs
    requires tabs == OnRequest(s, s.nextReply, e.conn, e.read.value, e.works, e.now).tabs
    ensures StaysUnless(s, e, t, tabs)
  {
    var c := e.read.value;
    if c.Hello? || c.Request? {
      AskingTabs(s, s.nextReply, e.conn, c, e.works, e.now);
    } else if Through(s, e.conn, c) && InOneTab(c) {
      InTabEnds(s, e, t, tabs);
    } else {
      ElsewhereEnds(s, e, t, tabs);
    }
  }

  lemma ElsewhereEnds(s: State, e: Event, t: nat, tabs: map<nat, Tab>)
    requires Sound(s) && Honest(s) && e.Line? && e.read.Ok? && Plain(e.read.value) && t in s.tabs
    requires !(Through(s, e.conn, e.read.value) && InOneTab(e.read.value))
    requires tabs == OnRequest(s, s.nextReply, e.conn, e.read.value, e.works, e.now).tabs
    ensures StaysUnless(s, e, t, tabs)
  {
    var c := e.read.value;
    if !Through(s, e.conn, c) {
      RefusedLine(s, e.conn, c, e.works, e.now);
    } else if c.Open? {
      OpenLine(s, e.conn, c, e.works, e.now);
    } else {
      ListLine(s, e.conn, c, e.works, e.now);
    }
  }

  lemma InTabEnds(s: State, e: Event, t: nat, tabs: map<nat, Tab>)
    requires Sound(s) && Honest(s) && e.Line? && e.read.Ok? && InOneTab(e.read.value) && t in s.tabs
    requires Through(s, e.conn, e.read.value)
    requires tabs == OnRequest(s, s.nextReply, e.conn, e.read.value, e.works, e.now).tabs
    ensures StaysUnless(s, e, t, tabs)
  {
    InTabLine(s, e.conn, e.read.value, e.works, e.now);
  }

  lemma AskingTabs(s: State, id: nat, conn: nat, c: Command, works: bool, now: Time)
    requires c.Hello? || c.Request?
    ensures OnRequest(s, id, conn, c, works, now).tabs == s.tabs
  {
    if c.Hello? {
      AskOnlyLeave(s, Ask(id, conn, c.scopes, true), now);
    } else {
      AskOnlyLeave(s, Ask(id, conn, {c.scope}, false), now);
    }
  }

  lemma TakesBackEnds(s: State, e: Event, t: nat)
    requires Sound(s) && t in s.tabs && (e.StopPressed? || e.RevokeAll? || e.SwitchedOff? || e.Quits?)
    ensures StaysUnless(s, e, t, Machine.Step(s, e).tabs)
  {
    if e.StopPressed? {
      StopEnds(s, e.number, t, OnStop(s, e.number).tabs);
    } else if e.RevokeAll? {
      RevokeIs(s, s.agents.Keys);
    } else if e.SwitchedOff? {
      ServingIs(s);
    } else {
      QuitIs(s, e.browsing);
    }
  }

  lemma StopEnds(s: State, number: nat, t: nat, tabs: map<nat, Tab>)
    requires Sound(s) && t in s.tabs && tabs == OnStop(s, number).tabs
    ensures StaysUnless(s, StopPressed(number), t, tabs)
  {
    var key := s.tabs[t].agent;
    assert key in Numbered(s, number) <==> key in s.agents && s.agents[key].number == number;
  }

  lemma ClosesEnds(s: State, e: Event, t: nat)
    requires Sound(s) && Honest(s) && t in s.tabs && (e.Closed? || e.WindowCloses?)
    ensures StaysUnless(s, e, t, Machine.Step(s, e).tabs)
  {
    if e.Closed? && e.conn in s.conns {
      ClosedIs(s, e.conn);
    }
  }

  /** A step ends that a tab is its agent's if and only if it is one of those. */
  lemma StepEnds(s: State, e: Event, t: nat)
    requires Sound(s) && Honest(s) && Feasible(s, e) && t in s.tabs
    ensures StaysUnless(s, e, t, Machine.Step(s, e).tabs)
  {
    if e.Line? {
      LineEnds(s, e, t, OnRead(s, s.nextReply, e.conn, e.read, e.works, e.now));
    } else if e.Answered? {
      AnsweredOnlyLeave(s, e.answer, e.now);
    } else if e.PageOpens? {
      PageTabs(s, e.parent, e.browses, t);
    } else if e.Closed? || e.WindowCloses? {
      ClosesEnds(s, e, t);
    } else if e.StopPressed? || e.RevokeAll? || e.SwitchedOff? || e.Quits? {
      TakesBackEnds(s, e, t);
    } else {
      QuietAdopts(s, e);
    }
  }

  lemma PageTabs(s: State, parent: nat, browses: bool, t: nat)
    requires Sound(s) && t in s.tabs
    ensures var n := OnPageOpens(s, parent, browses); t in n.tabs && n.tabs[t] == s.tabs[t]
  {
  }

  /** No event from `m` on ends that `t` is its agent's. */
  ghost predicate NoneEnds(events: seq<Event>, m: nat, t: nat) {
    forall i | m <= i < |events| :: !Ends(Run(Initial, events[..i]), events[i], t)
  }

  lemma NoneEndsNext(events: seq<Event>, m: nat, t: nat, before: seq<Event>, e: Event)
    requires m < |events| && before == events[..|events| - 1] && e == events[|events| - 1]
    ensures NoneEnds(events, m, t) <==> NoneEnds(before, m, t) && !Ends(Run(Initial, before), e, t)
  {
    forall i | m <= i < |before|
      ensures before[..i] == events[..i] && before[i] == events[i]
    {
    }
    if NoneEnds(before, m, t) && !Ends(Run(Initial, before), e, t) {
      forall i | m <= i < |events|
        ensures !Ends(Run(Initial, events[..i]), events[i], t)
      {
        if i < |before| {
          assert !Ends(Run(Initial, before[..i]), before[i], t);
        }
      }
    }
    if NoneEnds(events, m, t) {
      assert !Ends(Run(Initial, events[..|before|]), events[|before|], t);
    }
  }

  /** `tab` is what `t` is in `n` if nothing ended it, and it is numbered below
      the next. */
  predicate StillIs(n: State, t: nat, tab: Tab, none: bool) {
    t < n.nextTab && (t in n.tabs <==> none) && (t in n.tabs ==> n.tabs[t] == tab)
  }

  lemma StillNext(b: State, e: Event, t: nat, tab: Tab, none: bool)
    requires Sound(b) && Honest(b) && Feasible(b, e) && StillIs(b, t, tab, none)
    ensures StillIs(Machine.Step(b, e), t, tab, none && !Ends(b, e, t))
  {
    StepLater(b, e);
    if t in b.tabs {
      StepEnds(b, e, t);
    }
  }

  /** Over any run, a tab that an agent has after its first `m` events is that
      agent's in the end if and only if no event since was one of those. */
  lemma {:induction false} TabStays(events: seq<Event>, m: nat, t: nat)
    requires FeasibleRun(Initial, events) && m <= |events| && t in Run(Initial, events[..m]).tabs
    ensures StillIs(Run(Initial, events), t, Run(Initial, events[..m]).tabs[t], NoneEnds(events, m, t))
    decreases |events|
  {
    if m == |events| {
      assert events[..m] == events;
      RunIsHonest(events);
    } else {
      var k := |events| - 1;
      var before, e := events[..k], events[k];
      assert before[..m] == events[..m];
      TabStays(before, m, t);
      RunIsHonest(before);
      NoneEndsNext(events, m, t, before, e);
      StillNext(Run(Initial, before), e, t, Run(Initial, events[..m]).tabs[t], NoneEnds(before, m, t));
      RunStep(Initial, events);
    }
  }
}
