/** What every step of the machine keeps: who is known, how agents and tabs
    are numbered, when the Mac is kept awake, and that nothing is left once
    the server is off. */
module Structure {
  import opened Wrappers
  import opened Lists
  import opened Scopes
  import opened Requests
  import opened Machine

  /** Every connection's and every tab's agent is known. */
  predicate Known(conns: map<nat, Conn>, tabs: map<nat, Tab>, agents: map<Key, Agent>) {
    && (forall c | c in conns :: conns[c].agent in agents)
    && (forall t | t in tabs :: tabs[t].agent in agents)
  }

  /** An agent is kept only for a live connection or a session's leave. */
  predicate Needed(conns: map<nat, Conn>, agents: map<Key, Agent>) {
    forall k | k in agents :: HasConnection(conns, k) || agents[k].session != {}
  }

  /** Agents' numbers are their own, and given out in order. */
  predicate AgentsNumbered(agents: map<Key, Agent>, next: nat) {
    && (forall k | k in agents :: agents[k].number < next)
    && (forall j, k | j in agents && k in agents && agents[j].number == agents[k].number :: j == k)
  }

  /** Tabs are numbered in order, each with an open window of its own. */
  predicate TabsNumbered(tabs: map<nat, Tab>, next: nat, windows: seq<nat>, nextWindow: nat) {
    && (forall t | t in tabs :: t < next && tabs[t].window in windows)
    && (forall t, u | t in tabs && u in tabs && tabs[t].window == tabs[u].window :: t == u)
    && (forall w | w in windows :: w < nextWindow)
  }

  /** The keep-awake token is held exactly while a connection exists. */
  predicate Awake(s: State) {
    s.awake <==> s.conns != map[]
  }

  predicate OffIsEmpty(s: State) {
    !s.serving ==> s.conns == map[] && s.agents == map[] && s.tabs == map[]
  }

  /** Every connection was numbered once, and a prompt is for the agent of the
      connection it will answer, if that is still there. */
  predicate PromptKnown(conns: map<nat, Conn>, seen: set<nat>, showing: Option<Showing>, waiting: seq<Ask>) {
    && (forall c | c in conns :: c in seen)
    && (showing.Some? ==>
        && showing.value.ask.conn in seen
        && (showing.value.ask.conn in conns ==> conns[showing.value.ask.conn].agent == showing.value.agent))
    && (forall i | 0 <= i < |waiting| :: waiting[i].conn in seen)
  }

  predicate Sound(s: State) {
    && Known(s.conns, s.tabs, s.agents)
    && Needed(s.conns, s.agents)
    && AgentsNumbered(s.agents, s.nextAgent)
    && TabsNumbered(s.tabs, s.nextTab, s.windows, s.nextWindow)
    && Awake(s)
    && OffIsEmpty(s)
    && PromptKnown(s.conns, s.seen, s.showing, s.waiting)
  }

  /** No two tabs share a window, so whichever is found is the owner's. */
  lemma OwnerFound(s: State, t: nat)
    requires TabsNumbered(s.tabs, s.nextTab, s.windows, s.nextWindow) && t in s.tabs
    ensures OwnerOf(s, s.tabs[t].window) == Some(s.tabs[t].agent)
  {
    assert s.tabs[t].window in AgentWindows(s);
  }

  // ------------------------------------------------------------- each operation

  lemma MoreConnections(conns: map<nat, Conn>, conn: nat, to: Conn, agents: map<Key, Agent>)
    requires Needed(conns, agents)
    requires conn in conns ==> conns[conn].agent == to.agent
    ensures Needed(conns[conn := to], agents)
    ensures HasConnection(conns[conn := to], to.agent)
    ensures conns[conn := to] != map[]
  {
    var more := conns[conn := to];
    assert conn in more;
    forall k | k in agents && HasConnection(conns, k)
      ensures HasConnection(more, k)
    {
      var c :| c in conns && conns[c].agent == k;
      assert c in more && more[c].agent == k;
    }
  }

  lemma IntroducedNumbered(agents: map<Key, Agent>, next: nat, key: Key)
    requires AgentsNumbered(agents, next) && key !in agents
    ensures AgentsNumbered(agents[key := Agent(next, {})], next + 1)
  {
  }

  lemma ConnsJoined(conns: map<nat, Conn>, conn: nat, key: Key, tabs: map<nat, Tab>, agents: map<Key, Agent>, met: map<Key, Agent>)
    requires Known(conns, tabs, agents) && Needed(conns, agents)
    requires conn !in conns && key in met && (met == agents || (key !in agents && met == agents[key := Agent(met[key].number, {})]))
    ensures Known(conns[conn := Conn(key, false, {})], tabs, met) && Needed(conns[conn := Conn(key, false, {})], met)
    ensures conns[conn := Conn(key, false, {})] != map[]
  {
    MoreConnections(conns, conn, Conn(key, false, {}), agents);
  }

  lemma JoinKnown(s: State, conn: nat, key: Key)
    requires Sound(s) && conn !in s.seen && s.serving && key in s.agents
    ensures Sound(Join(s, conn, key))
  {
    ConnsJoined(s.conns, conn, key, s.tabs, s.agents, s.agents);
  }

  lemma JoinNew(s: State, met: State, conn: nat, key: Key)
    requires Sound(s) && conn !in s.seen && s.serving && key !in s.agents
    requires met == s.(agents := s.agents[key := Agent(s.nextAgent, {})], nextAgent := s.nextAgent + 1)
    ensures Sound(Join(met, conn, key))
  {
    ConnsJoined(s.conns, conn, key, s.tabs, s.agents, met.agents);
    IntroducedNumbered(s.agents, s.nextAgent, key);
  }

  lemma JoinKeeps(s: State, conn: nat, key: Key)
    requires Sound(s) && conn !in s.seen && s.serving
    ensures Sound(Join(Introduce(s, key), conn, key))
  {
    if key in s.agents {
      JoinKnown(s, conn, key);
    } else {
      JoinNew(s, s.(agents := s.agents[key := Agent(s.nextAgent, {})], nextAgent := s.nextAgent + 1), conn, key);
    }
  }

  lemma ConnectedKeeps(s: State, conn: nat, peer: Option<Key>)
    requires Sound(s) && conn !in s.seen
    ensures Sound(OnConnected(s, conn, peer))
  {
    if peer.Some? && s.serving {
      JoinKeeps(s, conn, peer.value);
    }
  }

  lemma LessConnections(conns: map<nat, Conn>, left: map<nat, Conn>, key: Key)
    requires HasConnection(conns, key)
    requires forall c | c in conns && conns[c].agent == key :: c in left && left[c].agent == key
    ensures HasConnection(left, key)
  {
    var c :| c in conns && conns[c].agent == key;
    assert c in left;
  }

  lemma ClosedKeeps(s: State, conn: nat)
    requires Sound(s)
    ensures Sound(OnClosed(s, conn))
  {
    if conn in s.conns {
      var gone := s.conns[conn].agent;
      var left := s.conns - {conn};
      forall k | k in s.agents && k != gone && HasConnection(s.conns, k)
        ensures HasConnection(left, k)
      {
        LessConnections(s.conns, left, k);
      }
      forall c | c in left
        ensures HasConnection(left, left[c].agent)
      {
      }
      assert s.conns != map[] by { assert conn in s.conns; }
    }
  }

  lemma RevokeKeeps(s: State, keys: set<Key>)
    requires Sound(s)
    ensures Sound(Revoke(s, keys))
  {
    var left := Revoke(s, keys).conns;
    forall k | k in s.agents && k !in keys && HasConnection(s.conns, k)
      ensures HasConnection(left, k)
    {
      LessConnections(s.conns, left, k);
    }
    if left != map[] {
      var c :| c in left;
      assert c in s.conns;
    }
  }

  lemma StopServingKeeps(s: State)
    requires Sound(s)
    ensures Sound(StopServing(s))
    ensures var n := StopServing(s); n.conns == map[] && n.agents == map[] && n.tabs == map[]
  {
    var r := Revoke(s, s.agents.Keys);
    assert r.agents == map[];
    assert r.tabs == map[];
  }

  lemma ForgetKeeps(s: State, window: nat, browsed: bool)
    requires Sound(s)
    ensures Sound(Forget(s, window, browsed))
  {
    WithoutIs(s.windows, window);
  }

  lemma NewWindowKeeps(s: State, opener: Opener)
    requires Sound(s)
    ensures Sound(NewWindow(s, opener))
  {
  }

  lemma OpensKeeps(s: State, opener: Opener, key: Key)
    requires Sound(s) && key in s.agents
    ensures Sound(Adopt(NewWindow(s, opener), key, s.nextWindow))
  {
    assert s.nextWindow !in s.windows;
    assert s.agents != map[];
  }

  lemma PageOpensKeeps(s: State, parent: nat, browses: bool)
    requires Sound(s)
    ensures Sound(OnPageOpens(s, parent, browses))
  {
    NewWindowKeeps(s, ByPage(parent));
    var owner := OwnerOf(s, parent);
    if owner.Some? {
      OpensKeeps(s, ByPage(parent), owner.value);
    }
  }

  /** Granting something to a connection, or marking it allowed, changes only
      that. */
  lemma UpdateConnKeeps(s: State, conn: nat, to: Conn)
    requires Sound(s) && conn in s.conns && to.agent == s.conns[conn].agent
    ensures Sound(s.(conns := s.conns[conn := to]))
  {
    MoreConnections(s.conns, conn, to, s.agents);
    assert s.conns != map[] by { assert conn in s.conns; }
  }

  lemma UpdateAgentKeeps(s: State, key: Key, session: set<Scope>)
    requires Sound(s) && key in s.agents && s.agents[key].session <= session
    ensures Sound(s.(agents := s.agents[key := s.agents[key].(session := session)]))
  {
    var agents := s.agents[key := s.agents[key].(session := session)];
    assert forall k | k in agents :: k in s.agents && agents[k].number == s.agents[k].number;
    forall k | k in agents
      ensures HasConnection(s.conns, k) || agents[k].session != {}
    {
      if !HasConnection(s.conns, k) && k == key {
        var x :| x in s.agents[k].session;
        assert x in session;
      }
    }
    assert s.agents != map[];
  }

  lemma MarkAllowedKeeps(s: State, ask: Ask)
    requires Sound(s)
    ensures Sound(MarkAllowed(s, ask))
  {
    if ask.hello && ask.conn in s.conns {
      UpdateConnKeeps(s, ask.conn, s.conns[ask.conn].(allowed := true));
    }
  }

  lemma SettleGrantedKeeps(s: State, ask: Ask)
    requires Sound(s) && ask.conn in s.conns
    ensures Sound(SettleGranted(s, ask))
  {
    MarkAllowedKeeps(s, ask);
  }

  lemma RestKnown(conns: map<nat, Conn>, seen: set<nat>, showing: Option<Showing>, waiting: seq<Ask>)
    requires PromptKnown(conns, seen, showing, waiting) && waiting != []
    ensures PromptKnown(conns, seen, showing, waiting[1..])
  {
  }

  lemma TakeOneKeeps(s: State, now: Time)
    requires Sound(s) && s.waiting != [] && s.showing.None?
    ensures Sound(TakeOne(s, now))
  {
    var ask := s.waiting[0];
    RestKnown(s.conns, s.seen, s.showing, s.waiting);
    match TurnOf(s, ask, now) {
      case Opens(key) =>
        assert PromptKnown(s.conns, s.seen, Some(Showing(ask, key)), s.waiting[1..]);
      case Covered(_) =>
        MarkAllowedKeeps(s, ask);
        RestKnown(MarkAllowed(s, ask).conns, s.seen, s.showing, s.waiting);
      case Fails(_) =>
    }
  }

  lemma {:induction false} DrainKeeps(s: State, now: Time)
    requires Sound(s)
    ensures Sound(Drain(s, now))
    decreases |s.waiting|
  {
    if s.showing.None? && s.waiting != [] {
      TakeOneKeeps(s, now);
      DrainKeeps(TakeOne(s, now), now);
    }
  }

  lemma AskKeeps(s: State, ask: Ask, now: Time)
    requires Sound(s) && ask.conn in s.conns
    ensures Sound(OnAsk(s, ask, now))
  {
    if ask.scopes <= GrantedTo(s, s.conns[ask.conn]) {
      MarkAllowedKeeps(s, ask);
    } else {
      var q := Note(s.(waiting := s.waiting + [ask]), Queued(ask.id));
      assert Sound(q);
      DrainKeeps(q, now);
    }
  }

  lemma GivenKeeps(s: State, ask: Ask, key: Key, answer: Answer)
    requires Sound(s) && ask.conn in s.conns && key == s.conns[ask.conn].agent
    ensures Sound(GivenTo(s, ask, key, answer))
  {
    var conn := s.conns[ask.conn];
    UpdateAgentKeeps(s, key, s.agents[key].session + ask.scopes);
    UpdateConnKeeps(s, ask.conn, conn.(once := conn.once + ask.scopes));
  }

  lemma ResolveKeeps(s: State, answer: Answer, now: Time)
    requires Sound(s) && s.showing.Some?
    ensures Sound(Resolve(s, answer, now))
  {
    var Showing(ask, key) := s.showing.value;
    if ask.conn in s.conns && !answer.Deny? {
      GivenKeeps(s, ask, key, answer);
      SettleGrantedKeeps(GivenTo(s, ask, key, answer), ask);
    }
  }

  lemma AnsweredKeeps(s: State, answer: Answer, now: Time)
    requires Sound(s)
    ensures Sound(OnAnswered(s, answer, now))
  {
    if s.showing.Some? {
      ResolveKeeps(s, answer, now);
      DrainKeeps(Resolve(s, answer, now), now);
    }
  }

  lemma RunInTabKeeps(s: State, id: nat, conn: nat, key: Key, command: Command, tab: nat, works: bool)
    requires Sound(s)
    ensures Sound(RunInTab(s, id, conn, key, command, tab, works))
  {
    if Owns(s, key, tab) {
      ForgetKeeps(s, s.tabs[tab].window, true);
    }
  }

  lemma RunCommandKeeps(s: State, id: nat, conn: nat, key: Key, command: Command, works: bool)
    requires Sound(s) && key in s.agents
    ensures Sound(RunCommand(s, id, conn, key, command, works))
  {
    if TabIn(command).Some? {
      RunInTabKeeps(s, id, conn, key, command, TabIn(command).value, works);
    } else if command.Open? {
      OpensKeeps(s, ByAgent(key), key);
    }
  }

  lemma RequestKeeps(s: State, id: nat, conn: nat, command: Command, works: bool, now: Time)
    requires Sound(s)
    ensures Sound(OnRequest(s, id, conn, command, works, now))
  {
    if command.Hello? {
      if conn in s.conns && !s.conns[conn].allowed {
        AskKeeps(s, Ask(id, conn, command.scopes, true), now);
      }
    } else if command.Request? {
      if Refusal(s, conn, None).None? {
        AskKeeps(s, Ask(id, conn, {command.scope}, false), now);
      }
    } else if Refusal(s, conn, command.Needs()).None? {
      RunCommandKeeps(s, id, conn, s.conns[conn].agent, command, works);
    }
  }

  lemma ReadKeeps(s: State, id: nat, conn: nat, read: Result<Command, Code>, works: bool, now: Time)
    requires Sound(s)
    ensures Sound(OnRead(s, id, conn, read, works, now))
  {
    if read.Ok? && !read.value.Bye? {
      RequestKeeps(s, id, conn, read.value, works, now);
    }
  }

  lemma ReopensKeeps(s: State, index: nat)
    requires Sound(s)
    ensures Sound(OnReopens(s, index))
  {
  }

  lemma QuitsKeeps(s: State, browsing: bool)
    requires Sound(s)
    ensures Sound(OnQuits(s, browsing))
  {
    StopServingKeeps(if browsing then s.(kept := Some(Persons(s.windows, AgentWindows(s)))) else s);
  }

  // ------------------------------------------------------------- every step

  lemma LineKeeps(s: State, conn: nat, read: Result<Command, Code>, works: bool, now: Time)
    requires Sound(s)
    ensures Sound(OnRead(s, s.nextReply, conn, read, works, now).(clock := now, nextReply := s.nextReply + 1))
  {
    ReadKeeps(s, s.nextReply, conn, read, works, now);
  }

  lemma AnsweredAtKeeps(s: State, answer: Answer, now: Time)
    requires Sound(s)
    ensures Sound(OnAnswered(s, answer, now).(clock := now))
  {
    AnsweredKeeps(s, answer, now);
  }

  lemma StopKeeps(s: State, number: nat)
    requires Sound(s)
    ensures Sound(OnStop(s, number))
  {
    RevokeKeeps(s, Numbered(s, number));
  }

  lemma QuietKeeps(s: State, e: Event)
    requires Sound(s) && (e.Probe? || e.SwitchedOn?)
    ensures Sound(Machine.Step(s, e))
  {
  }

  /** Each step the world can take keeps all of it. */
  lemma StepKeeps(s: State, e: Event)
    requires Sound(s) && Feasible(s, e)
    ensures Sound(Machine.Step(s, e))
  {
    match e {
      case Connected(conn, peer) => ConnectedKeeps(s, conn, peer);
      case Line(conn, read, works, now) => LineKeeps(s, conn, read, works, now);
      case Probe(_, _, _) => QuietKeeps(s, e);
      case Closed(conn) => ClosedKeeps(s, conn);
      case Answered(answer, now) => AnsweredAtKeeps(s, answer, now);
      case StopPressed(number) => StopKeeps(s, number);
      case RevokeAll => RevokeKeeps(s, s.agents.Keys);
      case SwitchedOn(_) => QuietKeeps(s, e);
      case SwitchedOff => StopServingKeeps(s);
      case PersonOpens => NewWindowKeeps(s, ByPerson);
      case PageOpens(parent, browses) => PageOpensKeeps(s, parent, browses);
      case WindowCloses(window, browsed) => ForgetKeeps(s, window, browsed);
      case Reopens(index) => ReopensKeeps(s, index);
      case Quits(browsing) => QuitsKeeps(s, browsing);
    }
  }

  /** Over any run from the start, every state has it: connections' and tabs'
      agents known, agents needed, numbers distinct, awake exactly while
      connected, and everything empty with the server off. */
  lemma {:induction false} RunKeeps(events: seq<Event>)
    requires FeasibleRun(Initial, events)
    ensures Sound(Run(Initial, events))
  {
    if events != [] {
      var before := events[..|events| - 1];
      RunKeeps(before);
      StepKeeps(Run(Initial, before), events[|events| - 1]);
    }
  }
}
