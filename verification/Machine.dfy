/** The permission machine: what the application keeps of agents, and what
    each thing that happens does to it.

    The prompt is a modal dialog that goes on running the application's other
    jobs, so here an open prompt is part of the state, and anything may happen
    while it is open; `Answered` is the person's answer, after which the queue
    is drained up to the next prompt. `Control` shows that the nested calls of
    the program are runs of this machine.

    `log` is a history nobody reads: what was asked, answered, allowed, run and
    taken back, oldest first. `seen` and `clock` are history too. */
module Machine {
  import opened Wrappers
  import opened Lists
  import opened Scopes
  import opened Requests

  /** Nanoseconds of the monotonic clock. */
  type Time = nat

  /** After the person denies an agent, how long before it may ask again. */
  const AFTER_DENIAL: Time := 10_000_000_000

  /** How many closed tabs are kept to open again. */
  const KEPT_CLOSED: nat := 25

  /** The agent: the process the person is asked about, by its pid, path and
      start, which are one number here: only whether two are the same matters. */
  type Key = nat

  datatype Conn = Conn(agent: Key, allowed: bool, once: set<Scope>)

  datatype Agent = Agent(number: nat, session: set<Scope>)

  datatype Tab = Tab(agent: Key, window: nat)

  /** A prompt waiting its turn; `id` is the request it will answer. */
  datatype Ask = Ask(id: nat, conn: nat, scopes: set<Scope>, hello: bool)

  /** The prompt on screen, and the agent it was opened for. */
  datatype Showing = Showing(ask: Ask, agent: Key)

  datatype Answer = Deny | Once | Session

  datatype Outcome = Granted(scopes: set<Scope>) | Failed(code: Code) | Said

  /** Who opened a window. */
  datatype Opener = ByPerson | ByAgent(agent: Key) | ByPage(parent: nat)

  datatype Entry =
    | Introduced(agent: Key, number: nat)
    | Queued(id: nat)
    | Prompted(id: nat, agent: Key, scopes: set<Scope>, at: Time)
    | Allowed(conn: nat, agent: Key, scopes: set<Scope>, session: bool)
    | Denied(agent: Key, at: Time)
    | Settled(id: nat, outcome: Outcome)
    | Replied(id: nat, outcome: Outcome)
    | Ran(id: nat, conn: nat, agent: Key, command: Command, touched: set<nat>)
    | Probed(conn: nat, agent: Key, needs: Option<Scope>, touched: set<nat>)
    | TakenBack(agents: set<Key>)
    | Opened(window: nat, opener: Opener)

  datatype State = State(
    serving: bool,
    conns: map<nat, Conn>,
    agents: map<Key, Agent>,
    tabs: map<nat, Tab>,
    nextTab: nat,
    nextAgent: nat,
    showing: Option<Showing>,
    waiting: seq<Ask>,
    denied: map<Key, Time>,
    awake: bool,
    // The application's browser windows, Recently Closed, and the windows
    // whose tabs were kept as the session.
    windows: seq<nat>,
    nextWindow: nat,
    recent: seq<nat>,
    kept: Option<seq<nat>>,
    // History.
    nextReply: nat,
    clock: Time,
    seen: set<nat>,
    log: seq<Entry>)

  const Initial := State(
    false, map[], map[], map[], 1, 1, None, [], map[], false,
    [], 0, [], None, 0, 0, {}, [])

  /** What may happen. `Line` is a request line, as its connection's thread read
      it; `works` is whether what the command does in its tab goes through. */
  datatype Event =
    | Connected(conn: nat, peer: Option<Key>)
    | Line(conn: nat, read: Result<Command, Code>, works: bool, now: Time)
    | Probe(conn: nat, tab: nat, needs: Option<Scope>)
    | Closed(conn: nat)
    | Answered(answer: Answer, now: Time)
    | StopPressed(number: nat)
    | RevokeAll
    | SwitchedOn(up: bool)
    | SwitchedOff
    | PersonOpens
    | PageOpens(parent: nat, browses: bool)
    | WindowCloses(window: nat, browsed: bool)
    | Reopens(index: nat)
    | Quits(browsing: bool)

  function Note(s: State, entry: Entry): State {
    s.(log := s.log + [entry])
  }

  // ------------------------------------------------------------- connections

  /** What `conn` may do: what was allowed for it, and for its agent's session. */
  function GrantedTo(s: State, conn: Conn): set<Scope> {
    conn.once + if conn.agent in s.agents then s.agents[conn.agent].session else {}
  }

  /** An agent not known yet is given the next number. */
  function Introduce(s: State, key: Key): State {
    if key in s.agents then s
    else Note(s.(agents := s.agents[key := Agent(s.nextAgent, {})], nextAgent := s.nextAgent + 1),
              Introduced(key, s.nextAgent))
  }

  function Join(s: State, conn: nat, key: Key): State {
    s.(conns := s.conns[conn := Conn(key, false, {})], awake := true, seen := s.seen + {conn})
  }

  function OnConnected(s: State, conn: nat, peer: Option<Key>): State {
    if peer.None? || !s.serving then s.(seen := s.seen + {conn})
    else Join(Introduce(s, peer.value), conn, peer.value)
  }

  predicate HasConnection(conns: map<nat, Conn>, key: Key) {
    exists c | c in conns :: conns[c].agent == key
  }

  function ReleaseTabs(s: State, keys: set<Key>): State {
    s.(tabs := map t | t in s.tabs && s.tabs[t].agent !in keys :: s.tabs[t])
  }

  /** An agent with no connection and nothing allowed for the session is
      forgotten, and its tabs become the person's. */
  function ForgetIfDone(s: State, key: Key): State {
    if !HasConnection(s.conns, key) && !(key in s.agents && s.agents[key].session != {})
    then ReleaseTabs(s, {key}).(agents := s.agents - {key})
    else s
  }

  function OnClosed(s: State, conn: nat): State {
    if conn !in s.conns then s
    else
      var gone := s.conns[conn].agent;
      var left := ForgetIfDone(s.(conns := s.conns - {conn}), gone);
      left.(awake := left.awake && left.conns != map[])
  }

  /** Take back everything `keys` were allowed. */
  function Revoke(s: State, keys: set<Key>): State {
    var conns := map c | c in s.conns && s.conns[c].agent !in keys :: s.conns[c];
    var left := ReleaseTabs(s.(conns := conns), keys);
    Note(left.(agents := s.agents - keys, awake := s.awake && conns != map[]), TakenBack(keys))
  }

  /** The agents with this number: at most one, as `Structure.Sound` says. */
  function Numbered(s: State, number: nat): set<Key> {
    set k | k in s.agents && s.agents[k].number == number
  }

  function OnStop(s: State, number: nat): State {
    var keys := Numbered(s, number);
    if keys == {} then s else Revoke(s, keys)
  }

  /** No socket, no connection, and nothing allowed. */
  function StopServing(s: State): State {
    Revoke(s, s.agents.Keys).(serving := false, conns := map[], awake := false)
  }

  // ------------------------------------------------------------- windows

  function AgentWindows(s: State): set<nat> {
    set t | t in s.tabs :: s.tabs[t].window
  }

  /** The windows of `key`'s tabs. */
  function WindowsOf(s: State, key: Key): set<nat> {
    set t | t in s.tabs && s.tabs[t].agent == key :: s.tabs[t].window
  }

  function NewWindow(s: State, opener: Opener): State {
    Note(s.(windows := s.windows + [s.nextWindow], nextWindow := s.nextWindow + 1), Opened(s.nextWindow, opener))
  }

  /** Make `window` one of `key`'s tabs. */
  function Adopt(s: State, key: Key, window: nat): State {
    s.(tabs := s.tabs[s.nextTab := Tab(key, window)], nextTab := s.nextTab + 1)
  }

  /** The agent whose tab `window` is, if it is one's. */
  ghost function OwnerOf(s: State, window: nat): Option<Key> {
    if window !in AgentWindows(s) then None
    else
      var t :| t in s.tabs && s.tabs[t].window == window;
      Some(s.tabs[t].agent)
  }

  /** A page in `parent` opened a new tab: the agent's whose tab `parent` is. */
  ghost function OnPageOpens(s: State, parent: nat, browses: bool): State {
    var owner := OwnerOf(s, parent);
    var made := NewWindow(s, ByPage(parent));
    if owner.Some? && browses then Adopt(made, owner.value, s.nextWindow) else made
  }

  function Remember(recent: seq<nat>, window: nat): seq<nat> {
    var all := [window] + recent;
    if |all| > KEPT_CLOSED then all[..KEPT_CLOSED] else all
  }

  /** A window closed: no agent's any longer, and put in Recently Closed only
      if it was not an agent's as it closed. */
  function Forget(s: State, window: nat, browsed: bool): State {
    var agents := window in AgentWindows(s);
    s.(tabs := map t | t in s.tabs && s.tabs[t].window != window :: s.tabs[t],
       recent := if browsed && !agents then Remember(s.recent, window) else s.recent,
       windows := Without(s.windows, window))
  }

  function OnReopens(s: State, index: nat): State {
    if index >= |s.recent| then s
    else NewWindow(s.(recent := s.recent[..index] + s.recent[index + 1..]), ByPerson)
  }

  function Persons(windows: seq<nat>, agents: set<nat>): seq<nat> {
    if windows == [] then []
    else (if windows[0] in agents then [] else [windows[0]]) + Persons(windows[1..], agents)
  }

  /** The session is kept first, while an agent's tabs are still known. */
  function OnQuits(s: State, browsing: bool): State {
    StopServing(if browsing then s.(kept := Some(Persons(s.windows, AgentWindows(s)))) else s)
  }

  // ------------------------------------------------------------- the person's leave

  function MarkAllowed(s: State, ask: Ask): State {
    if ask.hello && ask.conn in s.conns
    then s.(conns := s.conns[ask.conn := s.conns[ask.conn].(allowed := true)])
    else s
  }

  /** What becomes of `ask` in its turn: its prompt opens, or it is settled. */
  datatype Turn = Opens(agent: Key) | Covered(granted: set<Scope>) | Fails(code: Code)

  function TurnOf(s: State, ask: Ask, now: Time): Turn {
    if ask.conn !in s.conns then Fails(Code.Revoked)
    else
      var key := s.conns[ask.conn].agent;
      var granted := GrantedTo(s, s.conns[ask.conn]);
      if ask.scopes <= granted then Covered(granted)
      else if key in s.denied && now < s.denied[key] + AFTER_DENIAL then Fails(DeniedCode)
      else if key !in s.agents then Fails(Code.Revoked)
      else Opens(key)
  }

  /** The next ask in the queue, settled or its prompt opened, as `turn` says. */
  function Take(s: State, turn: Turn, now: Time): State
    requires s.waiting != []
  {
    var ask, rest := s.waiting[0], s.waiting[1..];
    match turn
    case Opens(key) =>
      Note(s, Prompted(ask.id, key, ask.scopes, now)).(showing := Some(Showing(ask, key)), waiting := rest)
    case Covered(granted) => Note(MarkAllowed(s, ask), Settled(ask.id, Granted(granted))).(waiting := rest)
    case Fails(code) => Note(s, Settled(ask.id, Failed(code))).(waiting := rest)
  }

  function TakeOne(s: State, now: Time): State
    requires s.waiting != []
  {
    Take(s, TurnOf(s, s.waiting[0], now), now)
  }

  /** Take asks in turn until one opens a prompt, or none is left. */
  function Drain(s: State, now: Time): State
    decreases |s.waiting|
  {
    if s.showing.Some? || s.waiting == [] then s
    else Drain(TakeOne(s, now), now)
  }

  function OnAsk(s: State, ask: Ask, now: Time): State {
    if ask.conn in s.conns && ask.scopes <= GrantedTo(s, s.conns[ask.conn])
    then Note(MarkAllowed(s, ask), Replied(ask.id, Granted(GrantedTo(s, s.conns[ask.conn]))))
    else Drain(Note(s.(waiting := s.waiting + [ask]), Queued(ask.id)), now)
  }

  /** What the person's answer does, before the queue is drained further. */
  function Resolve(s: State, answer: Answer, now: Time): State
    requires s.showing.Some?
  {
    var Showing(ask, key) := s.showing.value;
    (if ask.conn !in s.conns then Note(s, Settled(ask.id, Failed(Code.Revoked)))
     else if answer == Deny then DenyTo(s, ask, key, now)
     else SettleGranted(GivenTo(s, ask, key, answer), ask)).(showing := None)
  }

  function DenyTo(s: State, ask: Ask, key: Key, now: Time): State {
    Note(Note(s.(denied := s.denied[key := now]), Denied(key, now)), Settled(ask.id, Failed(DeniedCode)))
  }

  /** What the person allowed, kept: for the connection, or for the session. */
  function GivenTo(s: State, ask: Ask, key: Key, answer: Answer): State
    requires ask.conn in s.conns
  {
    Note(if answer == Session then
           if key in s.agents
           then s.(agents := s.agents[key := s.agents[key].(session := s.agents[key].session + ask.scopes)])
           else s
         else s.(conns := s.conns[ask.conn := s.conns[ask.conn].(once := s.conns[ask.conn].once + ask.scopes)]),
         Allowed(ask.conn, key, ask.scopes, answer == Session))
  }

  function SettleGranted(s: State, ask: Ask): State
    requires ask.conn in s.conns
  {
    Note(MarkAllowed(s, ask), Settled(ask.id, Granted(GrantedTo(s, s.conns[ask.conn]))))
  }

  function OnAnswered(s: State, answer: Answer, now: Time): State {
    if s.showing.None? then s else Drain(Resolve(s, answer, now), now)
  }

  // ------------------------------------------------------------- requests

  /** Why `conn` may not do what needs `needs`, if it may not. */
  function Refusal(s: State, conn: nat, needs: Option<Scope>): Option<Code> {
    if conn !in s.conns then Some(Code.Revoked)
    else if !s.conns[conn].allowed then Some(NotApproved)
    else if needs.Some? && needs.value !in GrantedTo(s, s.conns[conn]) then Some(NotGranted)
    else None
  }

  predicate Owns(s: State, key: Key, tab: nat) {
    tab in s.tabs && s.tabs[tab].agent == key
  }

  /** The tab a command works in, for those that work in one. */
  function TabIn(command: Command): Option<nat> {
    match command
    case ReadPage(tab, _) => Some(tab)
    case Snapshot(tab, _) => Some(tab)
    case Screenshot(tab) => Some(tab)
    case Wait(tab, _) => Some(tab)
    case Goto(tab, _, _, _) => Some(tab)
    case History(tab, _, _, _) => Some(tab)
    case Select(tab) => Some(tab)
    case Close(tab) => Some(tab)
    case Click(tab, _) => Some(tab)
    case Type(tab, _, _, _) => Some(tab)
    case Scroll(tab, _, _, _) => Some(tab)
    case Eval(tab, _) => Some(tab)
    case _ => None
  }

  /** A command in one of the agent's own tabs. */
  function RunInTab(s: State, id: nat, conn: nat, key: Key, command: Command, tab: nat, works: bool): State {
    if !Owns(s, key, tab) then Note(s, Replied(id, Failed(NoSuchTab)))
    else
      var window := s.tabs[tab].window;
      Note(if command.Close? && works then Forget(s, window, true) else s,
           Ran(id, conn, key, command, {window}))
  }

  /** A new tab of the agent's own. */
  function RunOpen(s: State, id: nat, conn: nat, key: Key, command: Command, works: bool): State {
    if !works then Note(s, Replied(id, Failed(Code.Refused)))
    else Note(Adopt(NewWindow(s, ByAgent(key)), key, s.nextWindow), Ran(id, conn, key, command, {s.nextWindow}))
  }

  /** A command `conn`'s agent may run. */
  function RunCommand(s: State, id: nat, conn: nat, key: Key, command: Command, works: bool): State {
    var tab := TabIn(command);
    if tab.Some? then RunInTab(s, id, conn, key, command, tab.value, works)
    else if command.Open? then RunOpen(s, id, conn, key, command, works)
    else Note(s, Ran(id, conn, key, command, if command.Tabs? then WindowsOf(s, key) else {}))
  }

  function OnProbe(s: State, conn: nat, tab: nat, needs: Option<Scope>): State {
    if Refusal(s, conn, needs).Some? || !Owns(s, s.conns[conn].agent, tab) then s
    else Note(s, Probed(conn, s.conns[conn].agent, needs, {s.tabs[tab].window}))
  }

  function OnRequest(s: State, id: nat, conn: nat, command: Command, works: bool, now: Time): State {
    match command
    case Hello(_, scopes) =>
      if conn !in s.conns then Note(s, Replied(id, Failed(Code.Revoked)))
      else if s.conns[conn].allowed then Note(s, Replied(id, Failed(BadRequest)))
      else OnAsk(s, Ask(id, conn, scopes, true), now)
    case Request(scope) =>
      var refused := Refusal(s, conn, None);
      if refused.Some? then Note(s, Replied(id, Failed(refused.value)))
      else OnAsk(s, Ask(id, conn, {scope}, false), now)
    case _ =>
      var refused := Refusal(s, conn, command.Needs());
      if refused.Some? then Note(s, Replied(id, Failed(refused.value)))
      else RunCommand(s, id, conn, s.conns[conn].agent, command, works)
  }

  /** What a line read as: answered by its thread if it is no request or a
      goodbye, and otherwise on the main thread. */
  function OnRead(s: State, id: nat, conn: nat, read: Result<Command, Code>, works: bool, now: Time): State {
    if read.Err? then Note(s, Replied(id, Failed(read.error)))
    else if read.value.Bye? then Note(s, Replied(id, Said))
    else OnRequest(s, id, conn, read.value, works, now)
  }

  // ------------------------------------------------------------- steps and runs

  ghost function Step(s: State, e: Event): State {
    match e
    case Connected(conn, peer) => OnConnected(s, conn, peer)
    case Line(conn, read, works, now) =>
      OnRead(s, s.nextReply, conn, read, works, now).(clock := now, nextReply := s.nextReply + 1)
    case Probe(conn, tab, needs) => OnProbe(s, conn, tab, needs)
    case Closed(conn) => OnClosed(s, conn)
    case Answered(answer, now) => OnAnswered(s, answer, now).(clock := now)
    case StopPressed(number) => OnStop(s, number)
    case RevokeAll => Revoke(s, s.agents.Keys)
    case SwitchedOn(up) => s.(serving := s.serving || up)
    case SwitchedOff => StopServing(s)
    case PersonOpens => NewWindow(s, ByPerson)
    case PageOpens(parent, browses) => OnPageOpens(s, parent, browses)
    case WindowCloses(window, browsed) => Forget(s, window, browsed)
    case Reopens(index) => OnReopens(s, index)
    case Quits(browsing) => OnQuits(s, browsing)
  }

  /** What the world cannot do: number two connections alike, turn the
      monotonic clock back, read from a line what no line holds, or open from
      or close a window that is not there. */
  predicate Possible(seen: set<nat>, clock: Time, windows: seq<nat>, e: Event) {
    match e
    case Connected(conn, _) => conn !in seen
    case Line(_, read, _, now) => clock <= now && (read.Ok? ==> WellFormed(read.value))
    case Answered(_, now) => clock <= now
    case PageOpens(parent, _) => parent in windows
    case WindowCloses(window, _) => window in windows
    case _ => true
  }

  predicate Feasible(s: State, e: Event) {
    Possible(s.seen, s.clock, s.windows, e)
  }

  ghost function Run(s: State, events: seq<Event>): State
    decreases |events|, 1
  {
    if events == [] then s else RunLast(s, events)
  }

  ghost function RunLast(s: State, events: seq<Event>): State
    requires events != []
    decreases |events|, 0
  {
    Step(Run(s, events[..|events| - 1]), events[|events| - 1])
  }

  ghost predicate FeasibleRun(s: State, events: seq<Event>)
    decreases |events|, 1
  {
    events == [] || FeasibleLast(s, events)
  }

  ghost predicate FeasibleLast(s: State, events: seq<Event>)
    requires events != []
    decreases |events|, 0
  {
    var before := events[..|events| - 1];
    FeasibleRun(s, before) && Feasible(Run(s, before), events[|events| - 1])
  }

  lemma RunStep(s: State, events: seq<Event>)
    requires events != []
    ensures var before := events[..|events| - 1];
            && Run(s, events) == Step(Run(s, before), events[|events| - 1])
            && (FeasibleRun(s, events) <==> FeasibleRun(s, before) && Feasible(Run(s, before), events[|events| - 1]))
  {
  }

  /** Every line is feasible as it is read, and every command `Feasible` lets
      in is read from some line. */
  lemma LinesFeasible(s: State, conn: nat, line: Option<Json>, command: Command, works: bool)
    ensures Feasible(s, Line(conn, ParseRequest(line), works, s.clock))
    ensures Feasible(s, Line(conn, Ok(command), works, s.clock)) ==>
              exists written :: ParseRequest(written) == Ok(command)
  {
    ReadWithinLimits(line);
    if WellFormed(command) {
      RequestRoundTrip(command, {});
      assert Written(command) - {} == Written(command);
    }
  }

  lemma {:induction false} RunAppend(s: State, a: seq<Event>, b: seq<Event>)
    ensures Run(s, a + b) == Run(Run(s, a), b)
    decreases |b|
  {
    if b == [] {
      assert a + b == a;
    } else {
      RunAppend(s, a, b[..|b| - 1]);
      assert (a + b)[..|a + b| - 1] == a + b[..|b| - 1];
    }
  }
}
