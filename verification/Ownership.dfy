/** What later steps cannot undo: numbers are never used again, and windows
    pass from agents to the person, never back. */
module Ownership {
  import opened Wrappers
  import opened Scopes
  import opened Requests
  import opened Machine
  import opened Structure

  predicate AgentsLater(agents: map<Key, Agent>, next: nat, after: map<Key, Agent>, thenNext: nat) {
    && next <= thenNext
    && (forall k | k in after && after[k].number < next :: k in agents && agents[k].number == after[k].number)
  }

  predicate ConnsLater(conns: map<nat, Conn>, seen: set<nat>, after: map<nat, Conn>, thenSeen: set<nat>) {
    && seen <= thenSeen
    && (forall c | c in after && c in seen :: c in conns && conns[c].agent == after[c].agent)
  }

  predicate TabsLater(tabs: map<nat, Tab>, next: nat, nextWindow: nat, after: map<nat, Tab>, thenNext: nat, thenNextWindow: nat) {
    && next <= thenNext && nextWindow <= thenNextWindow
    && (forall t | t in after && t < next :: t in tabs && tabs[t] == after[t])
    && (forall t | t in after && next <= t :: nextWindow <= after[t].window)
  }

  /** What is in `n`, some steps after `s`, that `s` already had a number for,
      was there in `s` and is the same. */
  predicate Later(s: State, n: State) {
    && AgentsLater(s.agents, s.nextAgent, n.agents, n.nextAgent)
    && ConnsLater(s.conns, s.seen, n.conns, n.seen)
    && TabsLater(s.tabs, s.nextTab, s.nextWindow, n.tabs, n.nextTab, n.nextWindow)
  }

  lemma LaterTransitive(a: State, b: State, c: State)
    requires Later(a, b) && Later(b, c)
    ensures Later(a, c)
  {
  }

  // ------------------------------------------------------------- asking changes no tab

  predicate SameAgents(agents: map<Key, Agent>, after: map<Key, Agent>) {
    && agents.Keys == after.Keys
    && (forall k | k in agents :: agents[k].number == after[k].number && agents[k].session <= after[k].session)
  }

  predicate SameConns(conns: map<nat, Conn>, after: map<nat, Conn>) {
    && conns.Keys == after.Keys
    && (forall c | c in conns :: conns[c].agent == after[c].agent && conns[c].once <= after[c].once)
  }

  /** Asking and answering adds to what is allowed, and touches no connection,
      agent, tab or window otherwise. */
  predicate OnlyLeave(s: State, n: State) {
    && SameAgents(s.agents, n.agents) && SameConns(s.conns, n.conns)
    && n.tabs == s.tabs && n.nextTab == s.nextTab && n.nextAgent == s.nextAgent && n.seen == s.seen
    && n.windows == s.windows && n.nextWindow == s.nextWindow && n.recent == s.recent && n.kept == s.kept
  }

  lemma MarkAllowedOnlyLeave(s: State, ask: Ask)
    ensures OnlyLeave(s, MarkAllowed(s, ask))
  {
  }

  lemma TakeOnlyLeave(s: State, turn: Turn, now: Time)
    requires s.waiting != []
    ensures OnlyLeave(s, Take(s, turn, now))
  {
    MarkAllowedOnlyLeave(s, s.waiting[0]);
  }

  lemma {:induction false} DrainOnlyLeave(s: State, now: Time)
    ensures OnlyLeave(s, Drain(s, now))
    decreases |s.waiting|
  {
    if s.showing.None? && s.waiting != [] {
      TakeOnlyLeave(s, TurnOf(s, s.waiting[0], now), now);
      DrainOnlyLeave(TakeOne(s, now), now);
    }
  }

  lemma AskOnlyLeave(s: State, ask: Ask, now: Time)
    ensures OnlyLeave(s, OnAsk(s, ask, now))
  {
    if ask.conn in s.conns && ask.scopes <= GrantedTo(s, s.conns[ask.conn]) {
      MarkAllowedOnlyLeave(s, ask);
    } else {
      DrainOnlyLeave(Note(s.(waiting := s.waiting + [ask]), Queued(ask.id)), now);
    }
  }

  lemma GivenOnlyLeave(s: State, ask: Ask, key: Key, answer: Answer)
    requires ask.conn in s.conns
    ensures OnlyLeave(s, GivenTo(s, ask, key, answer))
  {
    if answer == Session {
      GivenSessionOnlyLeave(s, ask, key);
    } else {
      GivenOnceOnlyLeave(s, ask, key, answer);
    }
  }

  lemma GivenSessionOnlyLeave(s: State, ask: Ask, key: Key)
    requires ask.conn in s.conns
    ensures OnlyLeave(s, GivenTo(s, ask, key, Session))
  {
  }

  lemma GivenOnceOnlyLeave(s: State, ask: Ask, key: Key, answer: Answer)
    requires ask.conn in s.conns && answer != Session
    ensures OnlyLeave(s, GivenTo(s, ask, key, answer))
  {
  }

  lemma ResolveOnlyLeave(s: State, answer: Answer, now: Time)
    requires s.showing.Some?
    ensures OnlyLeave(s, Resolve(s, answer, now))
  {
    var Showing(ask, key) := s.showing.value;
    if ask.conn in s.conns && answer != Deny {
      GivenOnlyLeave(s, ask, key, answer);
      MarkAllowedOnlyLeave(GivenTo(s, ask, key, answer), ask);
    }
  }

  lemma AnsweredOnlyLeave(s: State, answer: Answer, now: Time)
    ensures OnlyLeave(s, OnAnswered(s, answer, now))
  {
    if s.showing.Some? {
      ResolveOnlyLeave(s, answer, now);
      DrainOnlyLeave(Resolve(s, answer, now), now);
    }
  }

  lemma OnlyLeaveIsLater(s: State, n: State)
    requires Sound(s) && OnlyLeave(s, n)
    ensures Later(s, n)
  {
  }

  // ------------------------------------------------------------- every step is later

  lemma RunInTabLater(s: State, id: nat, conn: nat, key: Key, command: Command, tab: nat, works: bool)
    requires Sound(s)
    ensures Later(s, RunInTab(s, id, conn, key, command, tab, works))
  {
  }

  lemma RunLater(s: State, id: nat, conn: nat, key: Key, command: Command, works: bool)
    requires Sound(s)
    ensures Later(s, RunCommand(s, id, conn, key, command, works))
  {
    if TabIn(command).Some? {
      RunInTabLater(s, id, conn, key, command, TabIn(command).value, works);
    }
  }

  lemma RequestLater(s: State, id: nat, conn: nat, command: Command, works: bool, now: Time)
    requires Sound(s)
    ensures Later(s, OnRequest(s, id, conn, command, works, now))
  {
    if command.Hello? {
      AskOnlyLeave(s, Ask(id, conn, command.scopes, true), now);
      OnlyLeaveIsLater(s, OnAsk(s, Ask(id, conn, command.scopes, true), now));
    } else if command.Request? {
      AskOnlyLeave(s, Ask(id, conn, {command.scope}, false), now);
      OnlyLeaveIsLater(s, OnAsk(s, Ask(id, conn, {command.scope}, false), now));
    } else if Refusal(s, conn, command.Needs()).None? {
      RunLater(s, id, conn, s.conns[conn].agent, command, works);
    }
  }

  lemma ReadLater(s: State, id: nat, conn: nat, read: Result<Command, Code>, works: bool, now: Time)
    requires Sound(s)
    ensures Later(s, OnRead(s, id, conn, read, works, now))
  {
    if read.Ok? && !read.value.Bye? {
      RequestLater(s, id, conn, read.value, works, now);
    }
  }

  lemma ClosedLater(s: State, conn: nat)
    requires Sound(s)
    ensures Later(s, OnClosed(s, conn))
  {
  }

  lemma JoinLater(s: State, met: State, conn: nat, key: Key)
    requires Later(s, met) && met.conns == s.conns && met.seen == s.seen && conn !in s.seen
    ensures Later(s, Join(met, conn, key))
  {
  }

  lemma IntroduceLater(s: State, key: Key)
    requires Sound(s)
    ensures Later(s, Introduce(s, key))
  {
  }

  lemma ConnectedLater(s: State, conn: nat, peer: Option<Key>)
    requires Sound(s) && conn !in s.seen
    ensures Later(s, OnConnected(s, conn, peer))
  {
    if peer.Some? && s.serving {
      IntroduceLater(s, peer.value);
      JoinLater(s, Introduce(s, peer.value), conn, peer.value);
    }
  }

  lemma PageOpensLater(s: State, parent: nat, browses: bool)
    requires Sound(s)
    ensures Later(s, OnPageOpens(s, parent, browses))
  {
  }

  lemma RevokeLater(s: State, keys: set<Key>)
    requires Sound(s)
    ensures Later(s, Revoke(s, keys))
  {
  }

  lemma NewWindowLater(s: State, opener: Opener)
    requires Sound(s)
    ensures Later(s, NewWindow(s, opener))
  {
  }

  lemma ForgetLater(s: State, window: nat, browsed: bool)
    requires Sound(s)
    ensures Later(s, Forget(s, window, browsed))
  {
  }

  lemma ReopensLater(s: State, index: nat)
    requires Sound(s)
    ensures Later(s, OnReopens(s, index))
  {
  }

  lemma StopLater(s: State, number: nat)
    requires Sound(s)
    ensures Later(s, OnStop(s, number))
  {
    RevokeLater(s, Numbered(s, number));
  }

  lemma StopServingLater(s: State)
    requires Sound(s)
    ensures Later(s, StopServing(s))
  {
    RevokeLater(s, s.agents.Keys);
  }

  lemma QuitsLater(s: State, browsing: bool)
    requires Sound(s)
    ensures Later(s, OnQuits(s, browsing))
  {
    StopServingLater(s);
  }

  lemma AnsweredLater(s: State, answer: Answer, now: Time)
    requires Sound(s)
    ensures Later(s, OnAnswered(s, answer, now).(clock := now))
  {
    AnsweredOnlyLeave(s, answer, now);
    OnlyLeaveIsLater(s, OnAnswered(s, answer, now));
  }

  lemma LineLater(s: State, conn: nat, read: Result<Command, Code>, works: bool, now: Time)
    requires Sound(s)
    ensures Later(s, OnRead(s, s.nextReply, conn, read, works, now).(clock := now, nextReply := s.nextReply + 1))
  {
    ReadLater(s, s.nextReply, conn, read, works, now);
  }

  lemma QuietLater(s: State, e: Event)
    requires Sound(s) && (e.Probe? || e.SwitchedOn?)
    ensures Later(s, Machine.Step(s, e))
  {
  }

  lemma StepLater(s: State, e: Event)
    requires Sound(s) && Feasible(s, e)
    ensures Later(s, Machine.Step(s, e))
  {
    match e {
      case Connected(conn, peer) => ConnectedLater(s, conn, peer);
      case Line(conn, read, works, now) => LineLater(s, conn, read, works, now);
      case Answered(answer, now) => AnsweredLater(s, answer, now);
      case Closed(conn) => ClosedLater(s, conn);
      case StopPressed(number) => StopLater(s, number);
      case RevokeAll => RevokeLater(s, s.agents.Keys);
      case SwitchedOff => StopServingLater(s);
      case Quits(browsing) => QuitsLater(s, browsing);
      case PersonOpens => NewWindowLater(s, ByPerson);
      case PageOpens(parent, browses) => PageOpensLater(s, parent, browses);
      case WindowCloses(window, browsed) => ForgetLater(s, window, browsed);
      case Reopens(index) => ReopensLater(s, index);
      case Probe(_, _, _) => QuietLater(s, e);
      case SwitchedOn(_) => QuietLater(s, e);
    }
  }

  // ------------------------------------------------------------- over runs

  lemma {:induction false} RunLaterThan(s: State, events: seq<Event>)
    requires Sound(s) && FeasibleRun(s, events)
    ensures Sound(Run(s, events)) && Later(s, Run(s, events))
  {
    if events != [] {
      var before := events[..|events| - 1];
      RunLaterThan(s, before);
      var m := Run(s, before);
      StepKeeps(m, events[|events| - 1]);
      StepLater(m, events[|events| - 1]);
      assert Run(s, events) == Machine.Step(m, events[|events| - 1]);
      LaterTransitive(s, m, Run(s, events));
    }
  }

  /** A window that is not an agent's never becomes one's, whatever happens
      next; one that is an agent's stays that agent's or becomes the
      person's. */
  lemma OwnershipOneWay(s: State, events: seq<Event>, window: nat)
    requires Sound(s) && FeasibleRun(s, events) && window < s.nextWindow
    ensures window in AgentWindows(Run(s, events)) ==> window in AgentWindows(s)
    ensures window in AgentWindows(Run(s, events)) ==> OwnerOf(Run(s, events), window) == OwnerOf(s, window)
  {
    RunLaterThan(s, events);
    var n := Run(s, events);
    if window in AgentWindows(n) {
      var t :| t in n.tabs && n.tabs[t].window == window;
      assert t in s.tabs && s.tabs[t] == n.tabs[t];
    }
  }

  /** An agent that was taken back or forgotten is nobody's number again: a
      Stop button still showing its number takes back nothing. */
  lemma StaleStop(s: State, events: seq<Event>, number: nat)
    requires Sound(s) && FeasibleRun(s, events) && number < s.nextAgent && Numbered(s, number) == {}
    ensures Machine.Step(Run(s, events), StopPressed(number)) == Run(s, events)
  {
    RunLaterThan(s, events);
    assert Numbered(Run(s, events), number) <= Numbered(s, number);
  }

  /** A Stop button takes back exactly the agent it was made for, while that
      agent is still known, and nobody once it is not. */
  lemma StopIsItsAgents(s: State, events: seq<Event>, key: Key)
    requires Sound(s) && FeasibleRun(s, events) && key in s.agents
    ensures Numbered(Run(s, events), s.agents[key].number) <= {key}
  {
    RunLaterThan(s, events);
  }

  /** A tab's number means the same tab for as long as it means any. */
  lemma TabNumbersKept(s: State, events: seq<Event>, tab: nat)
    requires Sound(s) && FeasibleRun(s, events) && tab < s.nextTab
    ensures tab in Run(s, events).tabs ==> tab in s.tabs && s.tabs[tab] == Run(s, events).tabs[tab]
  {
    RunLaterThan(s, events);
  }

  // ------------------------------------------------------------- what an agent reaches

  /** What `entry`, noted in a step from `b`, says was reached: only tabs that
      were then that agent's, or the one it opened. */
  predicate Rightful(b: State, entry: Entry) {
    match entry
    case Ran(_, conn, agent, command, touched) =>
      && conn in b.conns && b.conns[conn].agent == agent
      && (forall w | w in touched :: w in WindowsOf(b, agent) || (command.Open? && w == b.nextWindow))
    case Probed(conn, agent, _, touched) =>
      && conn in b.conns && b.conns[conn].agent == agent
      && (forall w | w in touched :: w in WindowsOf(b, agent))
    case _ => true
  }

  predicate AllRightful(b: State, log: seq<Entry>, after: seq<Entry>) {
    log <= after && forall k | |log| <= k < |after| :: Rightful(b, after[k])
  }

  lemma NoteRightful(b: State, log: seq<Entry>, entry: Entry)
    requires Rightful(b, entry)
    ensures AllRightful(b, log, log + [entry])
  {
  }

  lemma RightfulThen(b: State, first: seq<Entry>, second: seq<Entry>, third: seq<Entry>)
    requires AllRightful(b, first, second) && AllRightful(b, second, third)
    ensures AllRightful(b, first, third)
  {
  }

  lemma TakeRightful(b: State, s: State, turn: Turn, now: Time)
    requires s.waiting != []
    ensures AllRightful(b, s.log, Take(s, turn, now).log)
  {
    var ask := s.waiting[0];
    match turn {
      case Opens(key) => NoteRightful(b, s.log, Prompted(ask.id, key, ask.scopes, now));
      case Covered(granted) => NoteRightful(b, s.log, Settled(ask.id, Granted(granted)));
      case Fails(code) => NoteRightful(b, s.log, Settled(ask.id, Failed(code)));
    }
  }

  lemma {:induction false} DrainRightful(b: State, s: State, now: Time)
    ensures AllRightful(b, s.log, Drain(s, now).log)
    decreases |s.waiting|
  {
    if s.showing.None? && s.waiting != [] {
      var t := TakeOne(s, now);
      TakeRightful(b, s, TurnOf(s, s.waiting[0], now), now);
      DrainRightful(b, t, now);
      RightfulThen(b, s.log, t.log, Drain(t, now).log);
    }
  }

  lemma AskRightful(b: State, s: State, ask: Ask, now: Time)
    ensures AllRightful(b, s.log, OnAsk(s, ask, now).log)
  {
    if ask.conn in s.conns && ask.scopes <= GrantedTo(s, s.conns[ask.conn]) {
      NoteRightful(b, s.log, Replied(ask.id, Granted(GrantedTo(s, s.conns[ask.conn]))));
    } else {
      var q := Note(s.(waiting := s.waiting + [ask]), Queued(ask.id));
      NoteRightful(b, s.log, Queued(ask.id));
      DrainRightful(b, q, now);
      RightfulThen(b, s.log, q.log, Drain(q, now).log);
    }
  }

  lemma GivenRightful(b: State, s: State, ask: Ask, key: Key, answer: Answer)
    requires ask.conn in s.conns
    ensures AllRightful(b, s.log, SettleGranted(GivenTo(s, ask, key, answer), ask).log)
  {
    var given := GivenTo(s, ask, key, answer);
    NoteRightful(b, s.log, Allowed(ask.conn, key, ask.scopes, answer == Session));
    NoteRightful(b, given.log, Settled(ask.id, Granted(GrantedTo(given, given.conns[ask.conn]))));
    RightfulThen(b, s.log, given.log, SettleGranted(given, ask).log);
  }

  lemma DenyRightful(b: State, s: State, ask: Ask, key: Key, now: Time)
    ensures AllRightful(b, s.log, DenyTo(s, ask, key, now).log)
  {
    NoteRightful(b, s.log, Denied(key, now));
    NoteRightful(b, s.log + [Denied(key, now)], Settled(ask.id, Failed(DeniedCode)));
    RightfulThen(b, s.log, s.log + [Denied(key, now)], DenyTo(s, ask, key, now).log);
  }

  lemma ResolveRightful(b: State, s: State, answer: Answer, now: Time)
    requires s.showing.Some?
    ensures AllRightful(b, s.log, Resolve(s, answer, now).log)
  {
    var Showing(ask, key) := s.showing.value;
    if ask.conn !in s.conns {
      NoteRightful(b, s.log, Settled(ask.id, Failed(Code.Revoked)));
    } else if answer == Deny {
      DenyRightful(b, s, ask, key, now);
    } else {
      GivenRightful(b, s, ask, key, answer);
    }
  }

  lemma AnsweredRightful(b: State, s: State, answer: Answer, now: Time)
    ensures AllRightful(b, s.log, OnAnswered(s, answer, now).log)
  {
    if s.showing.Some? {
      var r := Resolve(s, answer, now);
      ResolveRightful(b, s, answer, now);
      DrainRightful(b, r, now);
      RightfulThen(b, s.log, r.log, Drain(r, now).log);
    }
  }

  lemma RunInTabRightful(s: State, id: nat, conn: nat, key: Key, command: Command, tab: nat, works: bool)
    requires conn in s.conns && s.conns[conn].agent == key
    ensures AllRightful(s, s.log, RunInTab(s, id, conn, key, command, tab, works).log)
  {
    if Owns(s, key, tab) {
      NoteRightful(s, s.log, Ran(id, conn, key, command, {s.tabs[tab].window}));
    } else {
      NoteRightful(s, s.log, Replied(id, Failed(NoSuchTab)));
    }
  }

  lemma RunOpenRightful(s: State, id: nat, conn: nat, key: Key, command: Command, works: bool)
    requires conn in s.conns && s.conns[conn].agent == key && command.Open?
    ensures AllRightful(s, s.log, RunOpen(s, id, conn, key, command, works).log)
  {
    if works {
      var made := s.log + [Opened(s.nextWindow, ByAgent(key))];
      var ran := Ran(id, conn, key, command, {s.nextWindow});
      NoteRightful(s, s.log, Opened(s.nextWindow, ByAgent(key)));
      NoteRightful(s, made, ran);
      RightfulThen(s, s.log, made, made + [ran]);
    } else {
      NoteRightful(s, s.log, Replied(id, Failed(Code.Refused)));
    }
  }

  lemma RunRightful(s: State, id: nat, conn: nat, key: Key, command: Command, works: bool)
    requires conn in s.conns && s.conns[conn].agent == key
    ensures AllRightful(s, s.log, RunCommand(s, id, conn, key, command, works).log)
  {
    if TabIn(command).Some? {
      RunInTabRightful(s, id, conn, key, command, TabIn(command).value, works);
    } else if command.Open? {
      RunOpenRightful(s, id, conn, key, command, works);
    } else {
      NoteRightful(s, s.log, Ran(id, conn, key, command, if command.Tabs? then WindowsOf(s, key) else {}));
    }
  }

  lemma RequestRightful(s: State, id: nat, conn: nat, command: Command, works: bool, now: Time)
    ensures AllRightful(s, s.log, OnRequest(s, id, conn, command, works, now).log)
  {
    if command.Hello? {
      AskRightful(s, s, Ask(id, conn, command.scopes, true), now);
      NoteRightful(s, s.log, Replied(id, Failed(if conn in s.conns then BadRequest else Code.Revoked)));
    } else {
      var refused := Refusal(s, conn, if command.Request? then None else command.Needs());
      if refused.Some? {
        NoteRightful(s, s.log, Replied(id, Failed(refused.value)));
      } else if command.Request? {
        AskRightful(s, s, Ask(id, conn, {command.scope}, false), now);
      } else {
        RunRightful(s, id, conn, s.conns[conn].agent, command, works);
      }
    }
  }

  lemma ReadRightful(s: State, id: nat, conn: nat, read: Result<Command, Code>, works: bool, now: Time)
    ensures AllRightful(s, s.log, OnRead(s, id, conn, read, works, now).log)
  {
    if read.Err? {
      NoteRightful(s, s.log, Replied(id, Failed(read.error)));
    } else if read.value.Bye? {
      NoteRightful(s, s.log, Replied(id, Said));
    } else {
      RequestRightful(s, id, conn, read.value, works, now);
    }
  }

  lemma ProbeRightful(s: State, conn: nat, tab: nat, needs: Option<Scope>)
    ensures AllRightful(s, s.log, OnProbe(s, conn, tab, needs).log)
  {
    if Refusal(s, conn, needs).None? && Owns(s, s.conns[conn].agent, tab) {
      NoteRightful(s, s.log, Probed(conn, s.conns[conn].agent, needs, {s.tabs[tab].window}));
    }
  }

  lemma ConnectedRightful(s: State, conn: nat, peer: Option<Key>)
    ensures AllRightful(s, s.log, OnConnected(s, conn, peer).log)
  {
    if peer.Some? && s.serving && peer.value !in s.agents {
      NoteRightful(s, s.log, Introduced(peer.value, s.nextAgent));
    }
  }

  lemma RevokeRightful(s: State, e: Event)
    requires e.StopPressed? || e.RevokeAll? || e.SwitchedOff? || e.Quits?
    ensures AllRightful(s, s.log, Machine.Step(s, e).log)
  {
    NoteRightful(s, s.log, TakenBack(if e.StopPressed? then Numbered(s, e.number) else s.agents.Keys));
  }

  lemma OpensRightful(s: State, e: Event)
    requires e.PersonOpens? || e.PageOpens? || e.Reopens?
    ensures AllRightful(s, s.log, Machine.Step(s, e).log)
  {
    NoteRightful(s, s.log, Opened(s.nextWindow, if e.PageOpens? then ByPage(e.parent) else ByPerson));
  }

  /** A step's commands and probes reach only their own agent's tabs, as they
      are when it begins, and one that it opens. */
  lemma StepRightful(s: State, e: Event)
    ensures AllRightful(s, s.log, Machine.Step(s, e).log)
  {
    if e.Line? {
      ReadRightful(s, s.nextReply, e.conn, e.read, e.works, e.now);
    } else if e.Answered? {
      AnsweredRightful(s, s, e.answer, e.now);
    } else if e.Probe? {
      ProbeRightful(s, e.conn, e.tab, e.needs);
    } else if e.Connected? {
      ConnectedRightful(s, e.conn, e.peer);
    } else if e.StopPressed? || e.RevokeAll? || e.SwitchedOff? || e.Quits? {
      RevokeRightful(s, e);
    } else if e.PersonOpens? || e.PageOpens? || e.Reopens? {
      OpensRightful(s, e);
    }
  }

  /** Entry `k` of the history was noted by event `i` of the run. */
  ghost predicate NotedBy(events: seq<Event>, i: nat, k: nat) {
    i < |events| && |Run(Initial, events[..i]).log| <= k < |Run(Initial, events[..i + 1]).log|
  }

  /** In every run, each command and each probe reached only tabs that were its
      own agent's at that moment, or the one it opened: not one the agent once
      had, nor one it had not yet. */
  lemma {:induction false} CommandsReachOwn(events: seq<Event>, k: nat)
    requires FeasibleRun(Initial, events)
    ensures var log := Run(Initial, events).log;
            k < |log| ==> exists i: nat :: NotedBy(events, i, k) && Rightful(Run(Initial, events[..i]), log[k])
    decreases |events|
  {
    if events != [] && k < |Run(Initial, events).log| {
      var n := |events| - 1;
      var before := events[..n];
      StepRightful(Run(Initial, before), events[n]);
      assert events[..n + 1] == events;
      if k < |Run(Initial, before).log| {
        CommandsReachOwn(before, k);
        var i: nat :| NotedBy(before, i, k) && Rightful(Run(Initial, before[..i]), Run(Initial, before).log[k]);
        assert before[..i] == events[..i] && before[..i + 1] == events[..i + 1];
        assert NotedBy(events, i, k);
      } else {
        assert NotedBy(events, n, k);
      }
    }
  }

  // ------------------------------------------------------------- how a window became an agent's

  /** `e` is a request of `key`'s to open a tab. */
  predicate AgentOpens(s: State, e: Event, key: Key) {
    e.Line? && e.read.Ok? && e.read.value.Open? && e.conn in s.conns && s.conns[e.conn].agent == key
  }

  /** `e` is a page opening a tab, in a window that is `key`'s tab. */
  ghost predicate PageOpensFor(s: State, e: Event, key: Key) {
    e.PageOpens? && OwnerOf(s, e.parent) == Some(key)
  }

  ghost predicate Adopts(s: State, e: Event, key: Key) {
    AgentOpens(s, e, key) || PageOpensFor(s, e, key)
  }

  ghost predicate Adopted(s: State, e: Event, tabs: map<nat, Tab>) {
    forall t | t in tabs ::
      || (t in s.tabs && tabs[t] == s.tabs[t])
      || (tabs[t].window == s.nextWindow && Adopts(s, e, tabs[t].agent))
  }

  predicate NoNewTab(tabs: map<nat, Tab>, left: map<nat, Tab>) {
    forall t | t in left :: t in tabs && left[t] == tabs[t]
  }

  predicate OneNewTab(tabs: map<nat, Tab>, after: map<nat, Tab>, made: Tab) {
    forall t | t in after :: (t in tabs && after[t] == tabs[t]) || after[t] == made
  }

  lemma RunInTabAdopts(s: State, id: nat, conn: nat, key: Key, command: Command, tab: nat, works: bool)
    ensures NoNewTab(s.tabs, RunInTab(s, id, conn, key, command, tab, works).tabs)
  {
  }

  lemma RunAdopts(s: State, id: nat, conn: nat, key: Key, command: Command, works: bool)
    ensures var tabs := RunCommand(s, id, conn, key, command, works).tabs;
            NoNewTab(s.tabs, tabs) || (command.Open? && OneNewTab(s.tabs, tabs, Tab(key, s.nextWindow)))
  {
    if TabIn(command).Some? {
      RunInTabAdopts(s, id, conn, key, command, TabIn(command).value, works);
    }
  }

  lemma RequestAdopts(s: State, id: nat, conn: nat, command: Command, works: bool, now: Time)
    ensures var tabs := OnRequest(s, id, conn, command, works, now).tabs;
            || NoNewTab(s.tabs, tabs)
            || (conn in s.conns && command.Open? && OneNewTab(s.tabs, tabs, Tab(s.conns[conn].agent, s.nextWindow)))
  {
    if command.Hello? {
      AskOnlyLeave(s, Ask(id, conn, command.scopes, true), now);
    } else if command.Request? {
      AskOnlyLeave(s, Ask(id, conn, {command.scope}, false), now);
    } else if Refusal(s, conn, command.Needs()).None? {
      RunAdopts(s, id, conn, s.conns[conn].agent, command, works);
    }
  }

  lemma LineAdopts(s: State, e: Event, n: State)
    requires e.Line? && n == OnRead(s, s.nextReply, e.conn, e.read, e.works, e.now)
    ensures Adopted(s, e, n.tabs)
  {
    if e.read.Ok? && !e.read.value.Bye? {
      RequestAdopts(s, s.nextReply, e.conn, e.read.value, e.works, e.now);
    }
  }

  lemma RevokeAdopts(s: State, e: Event)
    requires e.StopPressed? || e.RevokeAll? || e.SwitchedOff? || e.Quits?
    ensures NoNewTab(s.tabs, Machine.Step(s, e).tabs)
  {
  }

  lemma ClosesAdopts(s: State, e: Event)
    requires e.Closed? || e.WindowCloses?
    ensures NoNewTab(s.tabs, Machine.Step(s, e).tabs)
  {
  }

  lemma PageOpensAdopts(s: State, e: Event)
    requires e.PageOpens?
    ensures Adopted(s, e, OnPageOpens(s, e.parent, e.browses).tabs)
  {
  }

  lemma QuietAdopts(s: State, e: Event)
    requires e.Connected? || e.Probe? || e.SwitchedOn? || e.PersonOpens? || e.Reopens?
    ensures Machine.Step(s, e).tabs == s.tabs
  {
    if e.Connected? {
      ConnectedTabs(s, e.conn, e.peer);
    }
  }

  lemma ConnectedTabs(s: State, conn: nat, peer: Option<Key>)
    ensures OnConnected(s, conn, peer).tabs == s.tabs
  {
  }

  /** A step makes no window an agent's but one that it opens, for that agent's
      own request or a page in that agent's tab. */
  lemma StepAdopts(s: State, e: Event)
    ensures Adopted(s, e, Machine.Step(s, e).tabs)
  {
    if e.Line? {
      LineAdopts(s, e, OnRead(s, s.nextReply, e.conn, e.read, e.works, e.now));
    } else if e.Answered? {
      AnsweredOnlyLeave(s, e.answer, e.now);
    } else if e.PageOpens? {
      PageOpensAdopts(s, e);
    } else if e.Closed? || e.WindowCloses? {
      ClosesAdopts(s, e);
    } else if e.StopPressed? || e.RevokeAll? || e.SwitchedOff? || e.Quits? {
      RevokeAdopts(s, e);
    } else {
      QuietAdopts(s, e);
    }
  }

  /** Event `i` opened `window`, for `key`'s request or a page in a tab that was
      `key`'s as it did. */
  ghost predicate OpenedFor(events: seq<Event>, i: nat, window: nat, key: Key) {
    i < |events| && window == Run(Initial, events[..i]).nextWindow
    && Adopts(Run(Initial, events[..i]), events[i], key)
  }

  /** `window` was `key`'s after every event from `i` on. */
  ghost predicate OwnedSince(events: seq<Event>, i: nat, window: nat, key: Key) {
    forall j | i < j <= |events| :: OwnerOf(Run(Initial, events[..j]), window) == Some(key)
  }

  /** In every run, a window is an agent's only if that agent opened it, or a
      page did in a window that was that agent's tab as it did so; and it has
      been that agent's ever since. The same is true of that page's window, and
      so on back to one the agent opened. */
  lemma {:induction false} OwnersAreOpeners(events: seq<Event>, window: nat)
    requires FeasibleRun(Initial, events)
    ensures var owner := OwnerOf(Run(Initial, events), window);
            owner.Some? ==>
              exists i: nat :: OpenedFor(events, i, window, owner.value) && OwnedSince(events, i, window, owner.value)
    decreases |events|
  {
    var s := Run(Initial, events);
    if events != [] && OwnerOf(s, window).Some? {
      var n := |events| - 1;
      var before, b := events[..n], Run(Initial, events[..n]);
      var t :| t in s.tabs && s.tabs[t].window == window;
      var key := s.tabs[t].agent;
      RunKeeps(events);
      OwnerFound(s, t);
      StepAdopts(b, events[n]);
      RunStep(Initial, events);
      assert s == Machine.Step(b, events[n]);
      if t in b.tabs && b.tabs[t] == s.tabs[t] {
        RunKeeps(before);
        OwnerFound(b, t);
        OwnersAreOpeners(before, window);
        var i: nat :| OpenedFor(before, i, window, key) && OwnedSince(before, i, window, key);
        SoFarOpened(events, before, i, window, key);
      } else {
        LastOpened(events, n, b, window, key);
      }
    }
  }

  lemma LastOpened(events: seq<Event>, n: nat, b: State, window: nat, key: Key)
    requires |events| == n + 1 && b == Run(Initial, events[..n])
    requires window == b.nextWindow && Adopts(b, events[n], key)
    requires OwnerOf(Run(Initial, events), window) == Some(key)
    ensures OpenedFor(events, n, window, key) && OwnedSince(events, n, window, key)
  {
    forall j | n < j <= |events|
      ensures OwnerOf(Run(Initial, events[..j]), window) == Some(key)
    {
      assert events[..j] == events;
    }
  }

  lemma SoFarOpened(events: seq<Event>, before: seq<Event>, i: nat, window: nat, key: Key)
    requires events != [] && before == events[..|events| - 1]
    requires OpenedFor(before, i, window, key) && OwnedSince(before, i, window, key)
    requires OwnerOf(Run(Initial, events), window) == Some(key)
    ensures OpenedFor(events, i, window, key) && OwnedSince(events, i, window, key)
  {
    assert before[..i] == events[..i];
    forall j | i < j <= |events|
      ensures OwnerOf(Run(Initial, events[..j]), window) == Some(key)
    {
      if j < |events| {
        assert before[..j] == events[..j];
      } else {
        assert events[..j] == events;
      }
    }
  }

  // ------------------------------------------------------------- what is kept of closed tabs

  lemma {:induction false} PersonsExact(windows: seq<nat>, agents: set<nat>)
    ensures forall w :: w in Persons(windows, agents) <==> w in windows && w !in agents
  {
    if windows != [] {
      PersonsExact(windows[1..], agents);
      assert windows == [windows[0]] + windows[1..];
    }
  }

  predicate SameKept(s: State, n: State) {
    n.recent == s.recent && n.kept == s.kept
  }

  /** An agent closing its own tab leaves nothing in Recently Closed. */
  lemma RunInTabKept(s: State, id: nat, conn: nat, key: Key, command: Command, tab: nat, works: bool)
    ensures SameKept(s, RunInTab(s, id, conn, key, command, tab, works))
  {
    if Owns(s, key, tab) {
      assert s.tabs[tab].window in AgentWindows(s);
    }
  }

  lemma RunKept(s: State, id: nat, conn: nat, key: Key, command: Command, works: bool)
    ensures SameKept(s, RunCommand(s, id, conn, key, command, works))
  {
    if TabIn(command).Some? {
      RunInTabKept(s, id, conn, key, command, TabIn(command).value, works);
    }
  }

  lemma RequestKept(s: State, id: nat, conn: nat, command: Command, works: bool, now: Time)
    ensures SameKept(s, OnRequest(s, id, conn, command, works, now))
  {
    if command.Hello? || command.Request? {
      AskingKept(s, id, conn, command, works, now);
    } else if Refusal(s, conn, command.Needs()).None? {
      RunKept(s, id, conn, s.conns[conn].agent, command, works);
    }
  }

  lemma AskingKept(s: State, id: nat, conn: nat, command: Command, works: bool, now: Time)
    requires command.Hello? || command.Request?
    ensures SameKept(s, OnRequest(s, id, conn, command, works, now))
  {
    if command.Hello? {
      AskOnlyLeave(s, Ask(id, conn, command.scopes, true), now);
    } else {
      AskOnlyLeave(s, Ask(id, conn, {command.scope}, false), now);
    }
  }

  lemma ReadKept(s: State, id: nat, conn: nat, read: Result<Command, Code>, works: bool, now: Time)
    ensures SameKept(s, OnRead(s, id, conn, read, works, now))
  {
    if read.Ok? && !read.value.Bye? {
      RequestKept(s, id, conn, read.value, works, now);
    }
  }

  lemma RememberIs(recent: seq<nat>, window: nat)
    ensures forall w | w in Remember(recent, window) :: w == window || w in recent
    ensures |Remember(recent, window)| <= KEPT_CLOSED || |Remember(recent, window)| <= |recent|
  {
  }

  lemma OtherStepsKept(s: State, e: Event)
    requires !e.WindowCloses? && !e.Reopens? && !e.Quits?
    ensures SameKept(s, Machine.Step(s, e))
  {
    if e.Line? {
      ReadKept(s, s.nextReply, e.conn, e.read, e.works, e.now);
    } else if e.Answered? {
      AnsweredOnlyLeave(s, e.answer, e.now);
    } else if e.StopPressed? || e.RevokeAll? || e.SwitchedOff? {
      RevokesKept(s, e);
    } else {
      QuietKept(s, e);
    }
  }

  lemma RevokesKept(s: State, e: Event)
    requires e.StopPressed? || e.RevokeAll? || e.SwitchedOff?
    ensures SameKept(s, Machine.Step(s, e))
  {
  }

  lemma QuietKept(s: State, e: Event)
    requires e.Connected? || e.Probe? || e.Closed? || e.SwitchedOn? || e.PersonOpens? || e.PageOpens?
    ensures SameKept(s, Machine.Step(s, e))
  {
  }

  /** What a step puts in Recently Closed is a window the person closed, and
      what it keeps as the session is every window that is not an agent's: as
      they were when the step began, before quitting lets agents go. */
  lemma StepKeepsPersons(s: State, e: Event)
    ensures var n := Machine.Step(s, e);
            && (forall w | w in n.recent && w !in s.recent :: e == WindowCloses(w, true) && w !in AgentWindows(s))
            && (n.kept != s.kept ==> e == Quits(true))
            && (e == Quits(true) ==> n.kept.Some?)
            && (e == Quits(true) ==> forall w :: w in n.kept.value <==> w in s.windows && w !in AgentWindows(s))
  {
    if e.WindowCloses? {
      RememberIs(s.recent, e.window);
    } else if e.Quits? {
      QuitKeeps(s, e.browsing);
    } else if e.Reopens? {
      ReopenKeeps(s, e.index);
    } else {
      OtherStepsKept(s, e);
    }
  }

  lemma QuitKeeps(s: State, browsing: bool)
    ensures var n := OnQuits(s, browsing);
            && n.recent == s.recent && n.kept == (if browsing then Some(Persons(s.windows, AgentWindows(s))) else s.kept)
            && (browsing ==> forall w :: w in n.kept.value <==> w in s.windows && w !in AgentWindows(s))
  {
    PersonsExact(s.windows, AgentWindows(s));
  }

  lemma ReopenKeeps(s: State, index: nat)
    ensures var n := OnReopens(s, index); n.kept == s.kept && forall w | w in n.recent :: w in s.recent
  {
  }

  /** Event `i` closed `window`, a browser window that was no agent's then. */
  ghost predicate ClosedAsPersons(events: seq<Event>, i: nat, window: nat) {
    i < |events| && events[i] == WindowCloses(window, true)
    && window !in AgentWindows(Run(Initial, events[..i]))
  }

  /** Event `i` was the last quit to keep a session, and `kept` is the windows
      there were then that were no agent's. */
  ghost predicate KeptAtQuit(events: seq<Event>, i: nat, kept: seq<nat>) {
    && i < |events| && events[i] == Quits(true)
    && (forall j | i < j < |events| :: events[j] != Quits(true))
    && var b := Run(Initial, events[..i]);
       forall w :: w in kept <==> w in b.windows && w !in AgentWindows(b)
  }

  /** In every run, each window in Recently Closed was no agent's as it closed;
      and the session kept is just the windows that were no agent's as the
      application last quit, before it let agents go. */
  lemma {:induction false} NoAgentsTabKept(events: seq<Event>)
    requires FeasibleRun(Initial, events)
    ensures forall w | w in Run(Initial, events).recent :: exists i: nat :: ClosedAsPersons(events, i, w)
    ensures Run(Initial, events).kept.None? <==> Quits(true) !in events
    ensures Run(Initial, events).kept.Some? ==>
              exists i: nat :: KeptAtQuit(events, i, Run(Initial, events).kept.value)
    decreases |events|
  {
    if events != [] {
      var n := |events| - 1;
      var before, b, s := events[..n], Run(Initial, events[..n]), Run(Initial, events);
      NoAgentsTabKept(before);
      StepKeepsPersons(b, events[n]);
      assert events == before + [events[n]];
      forall w | w in s.recent
        ensures exists i: nat :: ClosedAsPersons(events, i, w)
      {
        if w in b.recent {
          var i: nat :| ClosedAsPersons(before, i, w);
          assert before[..i] == events[..i];
          assert ClosedAsPersons(events, i, w);
        } else {
          assert ClosedAsPersons(events, n, w);
        }
      }
      if events[n] == Quits(true) {
        assert KeptAtQuit(events, n, s.kept.value);
      } else if s.kept.Some? {
        var i: nat :| KeptAtQuit(before, i, s.kept.value);
        assert before[..i] == events[..i];
        assert KeptAtQuit(events, i, s.kept.value);
      }
    }
  }

  /** Quitting keeps the session before it lets agents go. The other way
      round, agents' tabs would be kept exactly when any is open. */
  lemma QuitOrder(s: State)
    requires Sound(s)
    ensures var late := StopServing(s);
            (exists w | w in Persons(late.windows, AgentWindows(late)) :: w in AgentWindows(s))
            <==> s.tabs != map[]
    ensures forall w | w in OnQuits(s, true).kept.value :: w !in AgentWindows(s)
  {
    var late := StopServing(s);
    PersonsExact(late.windows, AgentWindows(late));
    PersonsExact(s.windows, AgentWindows(s));
    StopServingKeeps(s);
    assert AgentWindows(late) == {};
    if s.tabs != map[] {
      var t :| t in s.tabs;
      assert s.tabs[t].window in AgentWindows(s) && s.tabs[t].window in s.windows;
      assert s.tabs[t].window in Persons(late.windows, AgentWindows(late));
    }
  }
}
