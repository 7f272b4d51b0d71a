/** The program that runs the machine: its fields, changed in place, and the
    loop that takes prompts in turn.

    A prompt is a modal dialog: while it is open the run loop goes on, so jobs
    are handled inside the call that opened it, and may change anything the call
    had read. `script` is what the world does meanwhile, prompt by prompt, and
    how each is answered; once it ends, prompts are denied at once. `trace` is
    everything that happened, in the order it took effect. What is proved is
    that the nested calls are a run of the machine: `View` is always what
    `Machine.Run` makes of `trace`, whatever the script. */
module Control {
  import opened Wrappers
  import opened Lists
  import opened Scopes
  import opened Requests
  import opened Machine
  import opened Structure
  import Leave
  import Prompts

  /** What happens while a prompt is open, how the person answers it, and how
      long after the last thing that happened. */
  datatype Modal = Modal(during: seq<Event>, answer: Answer, took: Time)

  // ------------------------------------------------------------- when things happened

  /** The same state, at another time and with other request lines read. */
  function Stamped(s: State, clock: Time, nextReply: nat): State {
    s.(clock := clock, nextReply := nextReply)
  }

  lemma MarkAllowedStamped(s: State, ask: Ask, c: Time, n: nat)
    ensures Machine.MarkAllowed(Stamped(s, c, n), ask) == Stamped(Machine.MarkAllowed(s, ask), c, n)
  {
  }

  lemma NoteStamped(s: State, entry: Entry, c: Time, n: nat)
    ensures Note(Stamped(s, c, n), entry) == Stamped(Note(s, entry), c, n)
  {
  }

  lemma TakeStamped(s: State, turn: Turn, now: Time, c: Time, n: nat)
    requires s.waiting != []
    ensures Take(Stamped(s, c, n), turn, now) == Stamped(Take(s, turn, now), c, n)
  {
    var ask := s.waiting[0];
    match turn {
      case Opens(key) => NoteStamped(s, Prompted(ask.id, key, ask.scopes, now), c, n);
      case Covered(granted) =>
        MarkAllowedStamped(s, ask, c, n);
        NoteStamped(Machine.MarkAllowed(s, ask), Settled(ask.id, Granted(granted)), c, n);
      case Fails(code) => NoteStamped(s, Settled(ask.id, Failed(code)), c, n);
    }
  }

  lemma {:induction false} DrainStamped(s: State, now: Time, c: Time, n: nat)
    ensures Drain(Stamped(s, c, n), now) == Stamped(Drain(s, now), c, n)
    decreases |s.waiting|
  {
    if s.showing.None? && s.waiting != [] {
      var turn := TurnOf(s, s.waiting[0], now);
      assert TurnOf(Stamped(s, c, n), s.waiting[0], now) == turn;
      TakeStamped(s, turn, now, c, n);
      DrainStamped(Take(s, turn, now), now, c, n);
    }
  }

  // ------------------------------------------------------------- what happened, one by one

  lemma RunThen(events: seq<Event>, e: Event)
    ensures Run(Initial, events + [e]) == Machine.Step(Run(Initial, events), e)
    ensures FeasibleRun(Initial, events + [e]) <==>
            FeasibleRun(Initial, events) && Feasible(Run(Initial, events), e)
  {
    var after := events + [e];
    assert after[..|after| - 1] == events;
  }

  /** The person's answers among what happened. */
  function AnswersIn(events: seq<Event>): seq<Answer>
    decreases |events|
  {
    if events == [] then []
    else
      var last := events[|events| - 1];
      AnswersIn(events[..|events| - 1]) + if last.Answered? then [last.answer] else []
  }

  lemma AnswersThen(events: seq<Event>, e: Event)
    ensures AnswersIn(events + [e]) == AnswersIn(events) + if e.Answered? then [e.answer] else []
  {
    var after := events + [e];
    assert after[..|after| - 1] == events;
  }

  /** How prompt `i` is answered: denied, once the script has ended. */
  function Ending(script: seq<Modal>, i: nat): Modal {
    if i < |script| then script[i] else Modal([], Deny, 0)
  }

  function Endings(script: seq<Modal>, n: nat): seq<Answer> {
    seq(n, i requires 0 <= i < n => Ending(script, i).answer)
  }

  /** `s` is what the machine makes of `events`, which the world could do, and in
      which each prompt was answered as the script says. */
  ghost predicate Tells(events: seq<Event>, script: seq<Modal>, modals: nat, s: State) {
    && FeasibleRun(Initial, events) && s == Run(Initial, events)
    && AnswersIn(events) == Endings(script, modals)
  }

  lemma TellsNext(events: seq<Event>, script: seq<Modal>, modals: nat, s: State, e: Event)
    requires Tells(events, script, modals, s) && Feasible(s, e) && !e.Answered?
    ensures Tells(events + [e], script, modals, Machine.Step(s, e))
  {
    RunThen(events, e);
    AnswersThen(events, e);
  }

  lemma TellsAnswer(events: seq<Event>, script: seq<Modal>, modals: nat, s: State, now: Time)
    requires Tells(events, script, modals, s) && s.clock <= now && s.showing.Some?
    ensures var answer := Ending(script, modals).answer;
            Tells(events + [Answered(answer, now)], script, modals + 1,
                  Drain(Resolve(s, answer, now).(clock := now), now))
  {
    var answer := Ending(script, modals).answer;
    RunThen(events, Answered(answer, now));
    AnswersThen(events, Answered(answer, now));
    var r := Resolve(s, answer, now);
    DrainStamped(r, now, now, r.nextReply);
    Prompts.DrainSameReply(r, now);
  }

  lemma TellsSound(events: seq<Event>, script: seq<Modal>, modals: nat, s: State)
    requires Tells(events, script, modals, s)
    ensures Sound(s)
  {
    RunKeeps(events);
  }

  predicate AtRest(s: State) {
    s.showing.Some? || s.waiting == []
  }

  /** `s` with `ask` granted at once. */
  function AtOnce(s: State, ask: Ask, now: Time): State
    requires ask.conn in s.conns
  {
    Stamped(Note(Machine.MarkAllowed(s, ask), Replied(ask.id, Granted(GrantedTo(s, s.conns[ask.conn])))), now, ask.id + 1)
  }

  /** `s` with `ask` at the end of the queue. */
  function Pushed(s: State, ask: Ask, now: Time): State {
    Stamped(Note(s.(waiting := s.waiting + [ask]), Queued(ask.id)), now, ask.id + 1)
  }

  lemma AskCovered(s: State, ask: Ask, now: Time)
    requires AtRest(s) && ask.conn in s.conns && ask.scopes <= GrantedTo(s, s.conns[ask.conn])
    ensures Drain(AtOnce(s, ask, now), now) == Stamped(OnAsk(s, ask, now), now, ask.id + 1)
  {
  }

  lemma AskQueued(s: State, ask: Ask, now: Time)
    requires !(ask.conn in s.conns && ask.scopes <= GrantedTo(s, s.conns[ask.conn]))
    ensures Drain(Pushed(s, ask, now), now) == Stamped(OnAsk(s, ask, now), now, ask.id + 1)
  {
    DrainStamped(Note(s.(waiting := s.waiting + [ask]), Queued(ask.id)), now, now, ask.id + 1);
  }

  /** `s` with the prompt for `ask` just opened. */
  function PromptOpened(s: State, ask: Ask, key: Key): State {
    Note(s, Prompted(ask.id, key, ask.scopes, s.clock)).(showing := Some(Showing(ask, key)))
  }

  /** `v` is `s` with its next ask taken off the queue: its turn is what is left
      to do. */
  lemma TakesTurn(s: State, v: State, ask: Ask, turn: Turn)
    requires v.showing.None? && s == v.(waiting := [ask] + v.waiting) && turn == TurnOf(s, ask, v.clock)
    ensures Drain(s, v.clock) ==
            if turn.Opens? then PromptOpened(v, ask, turn.agent) else Drain(Take(s, turn, v.clock), v.clock)
  {
    assert s.waiting[1..] == v.waiting;
    assert Drain(s, v.clock) == Drain(Take(s, turn, v.clock), v.clock);
  }

  lemma SameOwner(s: State, n: State, window: nat)
    requires TabsNumbered(s.tabs, s.nextTab, s.windows, s.nextWindow) && n.tabs == s.tabs
    requires TabsNumbered(n.tabs, n.nextTab, n.windows, n.nextWindow)
    ensures OwnerOf(n, window) == OwnerOf(s, window)
  {
    if t :| t in s.tabs && s.tabs[t].window == window {
      OwnerFound(s, t);
      OwnerFound(n, t);
    }
  }

  lemma NumberedIs(s: State, key: Key)
    requires AgentsNumbered(s.agents, s.nextAgent) && key in s.agents
    ensures Numbered(s, s.agents[key].number) == {key}
  {
  }

  lemma PersonsSplit(persons: seq<nat>, windows: seq<nat>, i: nat, agents: set<nat>)
    requires i < |windows| && persons + Persons(windows[i..], agents) == Persons(windows, agents)
    ensures (if windows[i] in agents then persons else persons + [windows[i]]) + Persons(windows[i + 1..], agents)
            == Persons(windows, agents)
  {
    assert windows[i..][1..] == windows[i + 1..];
  }

  // ------------------------------------------------------------- what taking agents back leaves

  function ConnsLeft(conns: map<nat, Conn>, keys: set<Key>): map<nat, Conn> {
    map c | c in conns && conns[c].agent !in keys :: conns[c]
  }

  function TabsLeft(tabs: map<nat, Tab>, keys: set<Key>): map<nat, Tab> {
    map t | t in tabs && tabs[t].agent !in keys :: tabs[t]
  }

  lemma LeftMore(conns: map<nat, Conn>, tabs: map<nat, Tab>, agents: map<Key, Agent>, keys: set<Key>, key: Key)
    ensures ConnsLeft(ConnsLeft(conns, keys), {key}) == ConnsLeft(conns, keys + {key})
    ensures TabsLeft(TabsLeft(tabs, keys), {key}) == TabsLeft(tabs, keys + {key})
    ensures agents - keys - {key} == agents - (keys + {key})
  {
  }

  lemma LeftNone(conns: map<nat, Conn>, tabs: map<nat, Tab>, agents: map<Key, Agent>)
    ensures ConnsLeft(conns, {}) == conns && TabsLeft(tabs, {}) == tabs && agents - {} == agents
  {
  }

  lemma RevokeLeaves(s: State, keys: set<Key>)
    ensures var conns := ConnsLeft(s.conns, keys);
            Revoke(s, keys) == Note(s.(conns := conns, tabs := TabsLeft(s.tabs, keys), agents := s.agents - keys,
                                       awake := s.awake && conns != map[]), TakenBack(keys))
  {
  }

  lemma StopIs(s: State, v: State)
    requires v == Revoke(s.(serving := false), s.agents.Keys).(conns := map[], awake := false)
    ensures v == Machine.StopServing(s)
  {
  }

  // ------------------------------------------------------------- the program

  class Control {
    var serving: bool
    var conns: map<nat, Conn>
    var agents: map<Key, Agent>
    var tabs: map<nat, Tab>
    var nextTab: nat
    var nextAgent: nat
    /** A prompt is showing. */
    var asking: bool
    var waiting: seq<Ask>
    var denied: map<Key, Time>
    var awake: bool
    // The application's windows, Recently Closed, and the session it kept.
    var windows: seq<nat>
    var nextWindow: nat
    var recent: seq<nat>
    var kept: Option<seq<nat>>
    // The numbers connections have had, the clock as last read, and how many
    // request lines have been read.
    var seen: set<nat>
    var clock: Time
    var nextReply: nat
    // What the world does while each prompt is open, and how many have been.
    const script: seq<Modal>
    var modals: nat

    ghost var showing: Option<Showing>
    ghost var log: seq<Entry>
    ghost var trace: seq<Event>

    ghost function View(): State
      reads this
    {
      State(serving, conns, agents, tabs, nextTab, nextAgent, showing, waiting, denied, awake,
            windows, nextWindow, recent, kept, nextReply, clock, seen, log)
    }

    /** What has happened makes `s`. */
    ghost predicate Makes(s: State)
      reads this
    {
      Tells(trace, script, modals, s)
    }

    /** Between jobs, or in a prompt's run loop. */
    ghost predicate Ready()
      reads this
    {
      && (asking ==> showing.Some?) && (showing.Some? ==> asking)
      && (!asking ==> waiting == [])
    }

    ghost predicate Valid()
      reads this
    {
      Makes(View()) && Ready()
    }

    /** How many prompts the script has yet to tell of. */
    function Left(): nat
      reads this
    {
      if modals < |script| then |script| - modals else 0
    }

    constructor (script: seq<Modal>)
      ensures Valid() && !asking && trace == [] && this.script == script
    {
      serving, conns, agents, tabs, nextTab, nextAgent := false, map[], map[], map[], 1, 1;
      asking, waiting, denied, awake := false, [], map[], false;
      windows, nextWindow, recent, kept := [], 0, [], None;
      seen, clock, nextReply := {}, 0, 0;
      this.script, modals := script, 0;
      showing, log, trace := None, [], [];
    }

    // ----------------------------------------------------------- connections

    function LeaveOf(conn: Conn): set<Scope>
      reads this
      ensures LeaveOf(conn) == GrantedTo(View(), conn)
    {
      var session := if conn.agent in agents then agents[conn.agent].session else {};
      conn.once + session
    }

    method Awake(on: bool)
      modifies `awake
      ensures awake == on
    {
      if on && !awake {
        awake := true;
      } else if !on && awake {
        awake := false;
      }
    }

    method Introduce(key: Key)
      modifies `agents, `nextAgent, `log
      ensures View() == Machine.Introduce(old(View()), key)
    {
      var number := nextAgent;
      if key !in agents {
        nextAgent := number + 1;
        agents := agents[key := Agent(number, {})];
        log := log + [Introduced(key, number)];
      }
    }

    method Connected(conn: nat, peer: Option<Key>)
      modifies `conns, `agents, `nextAgent, `awake, `seen, `log
      ensures View() == OnConnected(old(View()), conn, peer)
    {
      if peer.None? || !serving {
        seen := seen + {conn};
        return;
      }
      Introduce(peer.value);
      seen := seen + {conn};
      conns := conns[conn := Conn(peer.value, false, {})];
      Awake(true);
    }

    method ReleaseTabs(key: Key)
      modifies `tabs
      ensures tabs == TabsLeft(old(tabs), {key})
    {
      var ids := set t | t in tabs && tabs[t].agent == key;
      while ids != {}
        invariant forall t | t in ids :: t in old(tabs) && old(tabs)[t].agent == key
        invariant tabs.Keys <= old(tabs).Keys && forall t | t in tabs :: tabs[t] == old(tabs)[t]
        invariant forall t | t in old(tabs) :: t in tabs <==> old(tabs)[t].agent != key || t in ids
        decreases |ids|
      {
        var id :| id in ids;
        ids := ids - {id};
        tabs := tabs - {id};
      }
    }

    method ForgetIfDone(key: Key)
      modifies `tabs, `agents
      ensures View() == Machine.ForgetIfDone(old(View()), key)
    {
      var connected := exists c | c in conns :: conns[c].agent == key;
      var session := key in agents && agents[key].session != {};
      if !connected && !session {
        ReleaseTabs(key);
        agents := agents - {key};
      }
    }

    method Closed(conn: nat)
      modifies `conns, `tabs, `agents, `awake
      ensures View() == OnClosed(old(View()), conn)
    {
      if conn !in conns {
        return;
      }
      var gone := conns[conn].agent;
      conns := conns - {conn};
      ForgetIfDone(gone);
      if conns == map[] {
        Awake(false);
      }
    }

    /** Take back everything an agent was allowed: its connections are closed,
        its session's leave is gone, and its tabs become the person's. */
    method Revoke(key: Key)
      modifies `conns, `tabs, `agents, `awake
      ensures conns == ConnsLeft(old(conns), {key})
      ensures tabs == TabsLeft(old(tabs), {key})
      ensures agents == old(agents) - {key}
      ensures awake == (old(awake) && conns != map[])
    {
      var closing := set c | c in conns && conns[c].agent == key;
      while closing != {}
        invariant forall c | c in closing :: c in old(conns) && old(conns)[c].agent == key
        invariant conns.Keys <= old(conns).Keys && forall c | c in conns :: conns[c] == old(conns)[c]
        invariant forall c | c in old(conns) :: c in conns <==> old(conns)[c].agent != key || c in closing
        modifies `conns
        decreases |closing|
      {
        var id :| id in closing;
        closing := closing - {id};
        conns := conns - {id};
      }
      assert conns == ConnsLeft(old(conns), {key});
      ReleaseTabs(key);
      agents := agents - {key};
      if conns == map[] {
        Awake(false);
      }
    }

    /** Each of `keys` taken back, one after another. */
    method RevokeEach(keys: set<Key>)
      requires awake <==> conns != map[]
      modifies `conns, `tabs, `agents, `awake
      ensures conns == ConnsLeft(old(conns), keys) && tabs == TabsLeft(old(tabs), keys) && agents == old(agents) - keys
      ensures awake <==> conns != map[]
    {
      var left := keys;
      ghost var gone := {};
      LeftNone(conns, tabs, agents);
      while left != {}
        invariant gone + left == keys
        invariant conns == ConnsLeft(old(conns), gone) && tabs == TabsLeft(old(tabs), gone) && agents == old(agents) - gone
        invariant awake <==> conns != map[]
        decreases |left|
      {
        var key :| key in left;
        Revoke(key);
        LeftMore(old(conns), old(tabs), old(agents), gone, key);
        gone := gone + {key};
        left := left - {key};
      }
      assert gone == keys;
    }

    method RevokeAll()
      requires awake <==> conns != map[]
      modifies `conns, `tabs, `agents, `awake, `log
      ensures View() == Machine.Revoke(old(View()), old(agents).Keys)
    {
      ghost var keys := agents.Keys;
      RevokeEach(agents.Keys);
      log := log + [TakenBack(keys)];
      RevokeLeaves(old(View()), keys);
    }

    method RevokeOne(key: Key)
      requires awake <==> conns != map[]
      modifies `conns, `tabs, `agents, `awake, `log
      ensures View() == Machine.Revoke(old(View()), {key})
    {
      Revoke(key);
      log := log + [TakenBack({key})];
      RevokeLeaves(old(View()), {key});
    }

    method StopAgent(number: nat)
      requires AgentsNumbered(agents, nextAgent) && (awake <==> conns != map[])
      modifies `conns, `tabs, `agents, `awake, `log
      ensures View() == OnStop(old(View()), number)
    {
      if key :| key in agents && agents[key].number == number {
        NumberedIs(View(), key);
        RevokeOne(key);
      } else {
        assert Numbered(View(), number) == {};
      }
    }

    method StopServing()
      requires awake <==> conns != map[]
      modifies `serving, `conns, `tabs, `agents, `awake, `log
      ensures View() == Machine.StopServing(old(View()))
    {
      ghost var s := View();
      serving := false;
      RevokeAll();
      conns := map[];
      Awake(false);
      StopIs(s, View());
    }

    // ----------------------------------------------------------- windows

    predicate IsAgents(window: nat)
      reads this
      ensures IsAgents(window) <==> window in AgentWindows(View())
    {
      exists t | t in tabs :: tabs[t].window == window
    }

    method NewWindow(opener: Opener) returns (window: nat)
      modifies `windows, `nextWindow, `log
      ensures View() == Machine.NewWindow(old(View()), opener) && window == old(nextWindow)
    {
      window := nextWindow;
      nextWindow := nextWindow + 1;
      windows := windows + [window];
      log := log + [Opened(window, opener)];
    }

    method Adopt(key: Key, window: nat)
      modifies `tabs, `nextTab
      ensures View() == Machine.Adopt(old(View()), key, window)
    {
      var id := nextTab;
      nextTab := id + 1;
      tabs := tabs[id := Tab(key, window)];
    }

    /** A tab a page in `parent` opened: the agent's whose tab `parent` is. */
    method OpenedBeside(parent: nat, window: nat, browses: bool)
      requires TabsNumbered(tabs, nextTab, windows, nextWindow)
      modifies `tabs, `nextTab
      ensures var owner := OwnerOf(old(View()), parent);
              View() == if owner.Some? && browses then Machine.Adopt(old(View()), owner.value, window) else old(View())
    {
      if t :| t in tabs && tabs[t].window == parent {
        OwnerFound(View(), t);
        if browses {
          Adopt(tabs[t].agent, window);
        }
      }
    }

    method PageOpens(parent: nat, browses: bool)
      requires TabsNumbered(tabs, nextTab, windows, nextWindow)
      modifies `windows, `nextWindow, `tabs, `nextTab, `log
      ensures View() == OnPageOpens(old(View()), parent, browses)
    {
      var window := NewWindow(ByPage(parent));
      assert TabsNumbered(tabs, nextTab, windows, nextWindow);
      SameOwner(old(View()), View(), parent);
      OpenedBeside(parent, window, browses);
    }

    method WindowClosed(window: nat)
      modifies `tabs
      ensures tabs == map t | t in old(tabs) && old(tabs)[t].window != window :: old(tabs)[t]
    {
      var gone := set t | t in tabs && tabs[t].window == window;
      while gone != {}
        invariant forall t | t in gone :: t in old(tabs) && old(tabs)[t].window == window
        invariant tabs.Keys <= old(tabs).Keys && forall t | t in tabs :: tabs[t] == old(tabs)[t]
        invariant forall t | t in old(tabs) :: t in tabs <==> old(tabs)[t].window != window || t in gone
        decreases |gone|
      {
        var id :| id in gone;
        gone := gone - {id};
        tabs := tabs - {id};
      }
    }

    method PushClosed(window: nat)
      modifies `recent
      ensures recent == Remember(old(recent), window)
    {
      recent := [window] + recent;
      if |recent| > KEPT_CLOSED {
        recent := recent[..KEPT_CLOSED];
      }
    }

    method Forget(window: nat, browsed: bool)
      modifies `tabs, `recent, `windows
      ensures View() == Machine.Forget(old(View()), window, browsed)
    {
      var agents := IsAgents(window);
      WindowClosed(window);
      if browsed && !agents {
        PushClosed(window);
      }
      DropWindow(window);
    }

    method DropWindow(window: nat)
      modifies `windows
      ensures windows == Without(old(windows), window)
    {
      var left: seq<nat> := [];
      for i := 0 to |windows|
        invariant windows == old(windows) && left + Without(windows[i..], window) == Without(windows, window)
      {
        WithoutOn(windows, i, window, left);
        if windows[i] != window {
          left := left + [windows[i]];
        }
      }
      windows := left;
    }

    method Reopen(index: nat)
      modifies `recent, `windows, `nextWindow, `log
      ensures View() == OnReopens(old(View()), index)
    {
      if index < |recent| {
        recent := recent[..index] + recent[index + 1..];
        var _ := NewWindow(ByPerson);
      }
    }

    /** The person's own windows, an agent's left out. */
    method PersonsWindows() returns (persons: seq<nat>)
      ensures persons == Persons(windows, AgentWindows(View()))
    {
      persons := [];
      ghost var agents := AgentWindows(View());
      for i := 0 to |windows|
        invariant persons + Persons(windows[i..], agents) == Persons(windows, agents)
      {
        PersonsSplit(persons, windows, i, agents);
        if !IsAgents(windows[i]) {
          persons := persons + [windows[i]];
        }
      }
    }

    method KeepSession(browsing: bool)
      modifies `kept
      ensures kept == if browsing then Some(Persons(windows, AgentWindows(old(View())))) else old(kept)
    {
      if browsing {
        var persons := PersonsWindows();
        kept := Some(persons);
      }
    }

    method WillTerminate(browsing: bool)
      requires awake <==> conns != map[]
      modifies `kept, `serving, `conns, `tabs, `agents, `awake, `log
      ensures View() == OnQuits(old(View()), browsing)
    {
      KeepSession(browsing);
      StopServing();
    }

    // ----------------------------------------------------------- the person's leave

    method MarkAllowed(ask: Ask)
      modifies `conns
      ensures View() == Machine.MarkAllowed(old(View()), ask)
    {
      if ask.hello && ask.conn in conns {
        conns := conns[ask.conn := conns[ask.conn].(allowed := true)];
      }
    }

    method Settle(ask: Ask, outcome: Outcome)
      modifies `log
      ensures View() == Note(old(View()), Settled(ask.id, outcome))
    {
      log := log + [Settled(ask.id, outcome)];
    }

    /** What the person's answer does: nothing, if the connection that asked is
        gone by now. */
    method Resolve(ask: Ask, key: Key, answer: Answer, now: Time)
      requires showing == Some(Showing(ask, key))
      modifies `conns, `agents, `denied, `showing, `log
      ensures View() == Machine.Resolve(old(View()), answer, now)
    {
      if ask.conn !in conns {
        Settle(ask, Failed(Code.Revoked));
      } else if answer.Deny? {
        Refuse(ask, key, now);
      } else {
        Allow(ask, key, answer);
      }
      showing := None;
    }

    method Allow(ask: Ask, key: Key, answer: Answer)
      requires ask.conn in conns && !answer.Deny?
      modifies `conns, `agents, `log
      ensures View() == SettleGranted(GivenTo(old(View()), ask, key, answer), ask)
    {
      Give(ask, key, answer);
      var granted := LeaveOf(conns[ask.conn]);
      MarkAllowed(ask);
      Settle(ask, Granted(granted));
    }

    method Refuse(ask: Ask, key: Key, now: Time)
      modifies `denied, `log
      ensures View() == DenyTo(old(View()), ask, key, now)
    {
      denied := denied[key := now];
      log := log + [Denied(key, now)];
      Settle(ask, Failed(DeniedCode));
    }

    method Give(ask: Ask, key: Key, answer: Answer)
      requires ask.conn in conns && !answer.Deny?
      modifies `conns, `agents, `log
      ensures View() == GivenTo(old(View()), ask, key, answer)
    {
      if answer.Once? {
        conns := conns[ask.conn := conns[ask.conn].(once := conns[ask.conn].once + ask.scopes)];
      } else if key in agents {
        agents := agents[key := agents[key].(session := agents[key].session + ask.scopes)];
      }
      log := log + [Allowed(ask.conn, key, ask.scopes, answer.Session?)];
    }

    // ----------------------------------------------------------- requests

    method Probe(conn: nat, tab: nat, needs: Option<Scope>)
      modifies `log
      ensures View() == OnProbe(old(View()), conn, tab, needs)
    {
      if conn !in conns || !conns[conn].allowed {
        return;
      }
      var c := conns[conn];
      if needs.Some? && needs.value !in LeaveOf(c) {
        return;
      }
      if tab in tabs && tabs[tab].agent == c.agent {
        log := log + [Probed(conn, c.agent, needs, {tabs[tab].window})];
      }
    }

    method InTab(id: nat, conn: nat, key: Key, command: Command, tab: nat, works: bool)
      modifies `tabs, `recent, `windows, `log
      ensures View() == RunInTab(old(View()), id, conn, key, command, tab, works)
    {
      if tab !in tabs || tabs[tab].agent != key {
        log := log + [Replied(id, Failed(NoSuchTab))];
        return;
      }
      ghost var window := tabs[tab].window;
      if command.Close? && works {
        Forget(tabs[tab].window, true);
      }
      log := log + [Ran(id, conn, key, command, {window})];
    }

    method Open(id: nat, conn: nat, key: Key, command: Command, works: bool)
      modifies `tabs, `nextTab, `windows, `nextWindow, `log
      ensures View() == RunOpen(old(View()), id, conn, key, command, works)
    {
      if !works {
        log := log + [Replied(id, Failed(Code.Refused))];
        return;
      }
      var window := NewWindow(ByAgent(key));
      Adopt(key, window);
      log := log + [Ran(id, conn, key, command, {window})];
    }

    method Perform(id: nat, conn: nat, key: Key, command: Command, works: bool)
      modifies `tabs, `nextTab, `recent, `windows, `nextWindow, `log
      ensures View() == RunCommand(old(View()), id, conn, key, command, works)
    {
      var tab := TabIn(command);
      if tab.Some? {
        InTab(id, conn, key, command, tab.value, works);
      } else if command.Open? {
        Open(id, conn, key, command, works);
      } else {
        log := log + [Ran(id, conn, key, command, if command.Tabs? then WindowsOf(View(), key) else {})];
      }
    }

    /** The reply to request line `id`, the last read, at `now`. */
    method Reply(id: nat, outcome: Outcome, now: Time)
      modifies `clock, `nextReply, `log
      ensures View() == Stamped(Note(old(View()), Replied(id, outcome)), now, id + 1)
    {
      log := log + [Replied(id, outcome)];
      Stamp(id, now);
    }

    method Stamp(id: nat, now: Time)
      modifies `clock, `nextReply
      ensures View() == Stamped(old(View()), now, id + 1)
    {
      clock, nextReply := now, id + 1;
    }

    /** A request line: done with, or left to ask the person. */
    method Line(conn: nat, read: Result<Command, Code>, works: bool, now: Time) returns (ask: Option<Ask>)
      modifies `conns, `tabs, `nextTab, `recent, `windows, `nextWindow, `clock, `nextReply, `log
      ensures var s, id := old(View()), old(nextReply);
              if ask.None? then View() == Stamped(OnRead(s, id, conn, read, works, now), now, id + 1)
              else View() == s && ask.value.id == id && OnRead(s, id, conn, read, works, now) == OnAsk(s, ask.value, now)
    {
      var id := nextReply;
      ask := None;
      if read.Err? {
        Reply(id, Failed(read.error), now);
      } else if read.value.Bye? {
        Reply(id, Said, now);
      } else {
        ask := Request(id, conn, read.value, works, now);
      }
    }

    method Request(id: nat, conn: nat, command: Command, works: bool, now: Time) returns (ask: Option<Ask>)
      modifies `conns, `tabs, `nextTab, `recent, `windows, `nextWindow, `clock, `nextReply, `log
      ensures var s := old(View());
              if ask.None? then View() == Stamped(OnRequest(s, id, conn, command, works, now), now, id + 1)
              else View() == s && ask.value.id == id && OnRequest(s, id, conn, command, works, now) == OnAsk(s, ask.value, now)
    {
      ask := None;
      var refused := Refused(conn, command);
      if refused.Some? {
        Reply(id, Failed(refused.value), now);
      } else if command.Hello? {
        ask := Some(Ask(id, conn, command.scopes, true));
      } else if command.Request? {
        ask := Some(Ask(id, conn, {command.scope}, false));
      } else {
        Perform(id, conn, conns[conn].agent, command, works);
        Stamp(id, now);
      }
    }

    /** Why a request is answered at once, if it is. */
    method Refused(conn: nat, command: Command) returns (code: Option<Code>)
      ensures code == if command.Hello?
                      then if conn !in conns then Some(Code.Revoked)
                           else if conns[conn].allowed then Some(BadRequest) else None
                      else Refusal(View(), conn, if command.Request? then None else command.Needs())
      ensures code.None? ==> conn in conns
    {
      if conn !in conns {
        return Some(Code.Revoked);
      }
      var c := conns[conn];
      var granted := LeaveOf(c);
      if command.Hello? {
        return if c.allowed then Some(BadRequest) else None;
      }
      if !c.allowed {
        return Some(NotApproved);
      }
      var needs := command.Needs();
      return if !command.Request? && needs.Some? && needs.value !in granted then Some(NotGranted) else None;
    }

    // ----------------------------------------------------------- one prompt at a time

    /** What is already allowed waits for no one's prompt; the rest waits its
        turn. */
    method Queue(ask: Ask, now: Time)
      requires Ready()
      modifies `conns, `waiting, `clock, `nextReply, `log
      ensures Drain(View(), now) == Stamped(OnAsk(old(View()), ask, now), now, ask.id + 1) && clock == now
    {
      ghost var s := View();
      if ask.conn in conns && ask.scopes <= LeaveOf(conns[ask.conn]) {
        AskCovered(s, ask, now);
        Already(ask, now);
      } else {
        AskQueued(s, ask, now);
        Push(ask, now);
      }
    }

    method Already(ask: Ask, now: Time)
      requires ask.conn in conns
      modifies `conns, `clock, `nextReply, `log
      ensures View() == AtOnce(old(View()), ask, now)
    {
      var already := LeaveOf(conns[ask.conn]);
      MarkAllowed(ask);
      Reply(ask.id, Granted(already), now);
    }

    method Push(ask: Ask, now: Time)
      modifies `waiting, `clock, `nextReply, `log
      ensures View() == Pushed(old(View()), ask, now)
    {
      waiting := waiting + [ask];
      log := log + [Queued(ask.id)];
      Stamp(ask.id, now);
    }

    /** Ask the person, in turn: one prompt at a time. */
    method TakeTurns()
      requires !asking && showing.None? && Makes(Drain(View(), clock))
      modifies this
      ensures Valid() && !asking && old(trace) <= trace
      decreases 1, 2
    {
      while waiting != []
        invariant !asking && showing.None? && Makes(Drain(View(), clock)) && old(trace) <= trace
        decreases Left(), |waiting|
      {
        ghost var before := View();
        var next := waiting[0];
        waiting := waiting[1..];
        asking := true;
        AnswerTo(next, before);
        asking := false;
      }
    }

    /** Settle one ask, with a prompt if it takes one. */
    method AnswerTo(ask: Ask, ghost before: State)
      requires asking && showing.None?
      requires before == View().(waiting := [ask] + waiting) && Makes(Drain(before, clock))
      modifies this
      ensures asking && showing.None? && Makes(Drain(View(), clock)) && old(trace) <= trace
      ensures Left() < old(Left()) || (Left() == old(Left()) && waiting == old(waiting))
      decreases 0, 8
    {
      var turn := Turn(ask, before);
      TurnMakes(ask, turn, before);
      if turn.Opens? {
        AskPerson(ask, turn.agent);
      } else {
        Finish(ask, turn, before);
      }
    }

    lemma TurnMakes(ask: Ask, turn: Turn, before: State)
      requires showing.None? && before == View().(waiting := [ask] + waiting) && turn == TurnOf(before, ask, clock)
      requires Makes(Drain(before, clock))
      ensures if turn.Opens? then Makes(PromptOpened(View(), ask, turn.agent))
              else Makes(Drain(Take(before, turn, clock), clock))
    {
      TakesTurn(before, View(), ask, turn);
    }

    /** What becomes of `ask` in its turn. */
    method Turn(ask: Ask, ghost before: State) returns (turn: Turn)
      requires before == View().(waiting := [ask] + waiting)
      ensures turn == TurnOf(before, ask, clock)
    {
      if ask.conn !in conns {
        return Fails(Code.Revoked);
      }
      var key := conns[ask.conn].agent;
      var already := LeaveOf(conns[ask.conn]);
      if ask.scopes <= already {
        return Covered(already);
      }
      if key in denied && clock < denied[key] + AFTER_DENIAL {
        return Fails(DeniedCode);
      }
      return if key in agents then Opens(key) else Fails(Code.Revoked);
    }

    method Finish(ask: Ask, turn: Turn, ghost before: State)
      requires before == View().(waiting := [ask] + waiting) && !turn.Opens?
      modifies `conns, `log
      ensures View() == Take(before, turn, clock)
    {
      assert before.waiting[1..] == waiting;
      if turn.Covered? {
        MarkAllowed(ask);
        Settle(ask, Granted(turn.granted));
      } else {
        Settle(ask, Failed(turn.code));
      }
    }

    /** A prompt, and what the person answers does. */
    method AskPerson(ask: Ask, key: Key)
      requires asking && showing.None? && Makes(PromptOpened(View(), ask, key))
      modifies this
      ensures asking && showing.None? && Makes(Drain(View(), clock)) && old(trace) <= trace
      ensures Left() < old(Left()) || (Left() == old(Left()) && waiting == old(waiting))
      decreases 0, 7
    {
      var answer, now := Prompt(ask, key);
      // The person may have stopped it, or turned agents off, meanwhile.
      Resolve(ask, key, answer, now);
      clock := now;
    }

    /** The prompt, and all that happens until it is answered. */
    method Prompt(ask: Ask, key: Key) returns (answer: Answer, now: Time)
      requires asking && showing.None? && Makes(PromptOpened(View(), ask, key))
      modifies this
      ensures asking && showing == Some(Showing(ask, key)) && old(trace) <= trace
      ensures Makes(Drain(Machine.Resolve(View(), answer, now).(clock := now), now))
      ensures Left() < old(Left()) || (Left() == old(Left()) && waiting == old(waiting))
      decreases 0, 7, 0
    {
      Show(ask, key);
      Meanwhile(Ending(script, modals).during);
      answer, now := Hear();
    }

    method Show(ask: Ask, key: Key)
      requires asking && Makes(PromptOpened(View(), ask, key))
      modifies `log, `showing
      ensures Valid() && showing == Some(Showing(ask, key))
    {
      log := log + [Prompted(ask.id, key, ask.scopes, clock)];
      showing := Some(Showing(ask, key));
    }

    /** The person's answer, when it comes. */
    method Hear() returns (answer: Answer, now: Time)
      requires Valid() && asking
      modifies `trace, `modals
      ensures Makes(Drain(Machine.Resolve(View(), answer, now).(clock := now), now))
      ensures old(trace) <= trace && modals == old(modals) + 1
    {
      var modal := Ending(script, modals);
      answer, now := modal.answer, clock + modal.took;
      TellsAnswer(trace, script, modals, View(), now);
      trace := trace + [Answered(answer, now)];
      modals := modals + 1;
    }

    /** The run loop, while a prompt is open. */
    method Meanwhile(during: seq<Event>)
      requires Valid() && asking
      modifies this
      ensures Valid() && asking && showing == old(showing) && modals == old(modals) && old(trace) <= trace
      ensures during == [] ==> waiting == old(waiting)
      decreases 0, 6
    {
      for i := 0 to |during|
        invariant Valid() && asking && showing == old(showing) && modals == old(modals) && old(trace) <= trace
        invariant i == 0 ==> waiting == old(waiting)
      {
        var e := during[i];
        if !e.Answered? && Possible(seen, clock, windows, e) {
          Handle(e);
        }
      }
    }

    // ----------------------------------------------------------- jobs

    /** Anything but a request line. */
    method Job(e: Event)
      requires Sound(View()) && !e.Line? && !e.Answered?
      modifies `serving, `conns, `agents, `tabs, `nextTab, `nextAgent, `awake, `windows, `nextWindow, `recent, `kept, `seen, `log
      ensures View() == Machine.Step(old(View()), e)
    {
      match e {
        case Connected(conn, peer) => Connected(conn, peer);
        case Probe(conn, tab, needs) => Probe(conn, tab, needs);
        case Closed(conn) => Closed(conn);
        case StopPressed(number) => StopAgent(number);
        case RevokeAll => RevokeAll();
        case SwitchedOn(up) => serving := serving || up;
        case SwitchedOff => StopServing();
        case Quits(browsing) => WillTerminate(browsing);
        case PersonOpens => WindowJob(e);
        case PageOpens(_, _) => WindowJob(e);
        case WindowCloses(_, _) => WindowJob(e);
        case Reopens(_) => WindowJob(e);
      }
    }

    method WindowJob(e: Event)
      requires Sound(View()) && (e.PersonOpens? || e.PageOpens? || e.WindowCloses? || e.Reopens?)
      modifies `tabs, `nextTab, `windows, `nextWindow, `recent, `log
      ensures View() == Machine.Step(old(View()), e)
    {
      match e {
        case PersonOpens => var _ := NewWindow(ByPerson);
        case PageOpens(parent, browses) => PageOpens(parent, browses);
        case WindowCloses(window, browsed) => Forget(window, browsed);
        case Reopens(index) => Reopen(index);
      }
    }

    method Read(conn: nat, read: Result<Command, Code>, works: bool, now: Time)
      requires Ready()
      modifies `conns, `tabs, `nextTab, `recent, `windows, `nextWindow, `waiting, `clock, `nextReply, `log
      ensures var s, id := old(View()), old(nextReply);
              Drain(View(), now) == Stamped(OnRead(s, id, conn, read, works, now), now, id + 1) && clock == now
    {
      var ask := Line(conn, read, works, now);
      if ask.Some? {
        Queue(ask.value, now);
      }
    }

    /** Do `e`, all but taking turns to ask the person. */
    method Begin(e: Event)
      requires Sound(View()) && Ready() && !e.Answered?
      modifies `serving, `conns, `agents, `tabs, `nextTab, `nextAgent, `awake, `windows, `nextWindow, `recent, `kept,
               `seen, `waiting, `clock, `nextReply, `log
      ensures Drain(View(), clock) == Machine.Step(old(View()), e)
    {
      if e.Line? {
        Read(e.conn, e.read, e.works, e.now);
      } else {
        Job(e);
      }
    }

    /** Whatever happens next, between prompts or while one is open. However
        the prompts it leads to turn out, and whatever happens meanwhile, what
        there is afterwards is what the machine makes of it all; every prompt
        was answered, in order, as the script says; and none is left open. */
    method Handle(e: Event)
      requires Valid() && !e.Answered? && Feasible(View(), e)
      modifies this
      ensures Valid() && asking == old(asking) && old(trace) + [e] <= trace
      ensures old(asking) ==> showing == old(showing) && modals == old(modals) && trace == old(trace) + [e]
      decreases if asking then 0 else 1, 5
    {
      Happen(e);
      if !asking {
        TakeTurns();
      }
    }

    /** `e`, with what it leads to still in the queue. */
    method Happen(e: Event)
      requires Valid() && !e.Answered? && Feasible(View(), e)
      modifies `serving, `conns, `agents, `tabs, `nextTab, `nextAgent, `awake, `windows, `nextWindow, `recent, `kept,
               `seen, `waiting, `clock, `nextReply, `log, `trace
      ensures Makes(Drain(View(), clock)) && trace == old(trace) + [e]
    {
      ToldNext(e);
      Begin(e);
      trace := trace + [e];
    }

    lemma ToldNext(e: Event)
      requires Valid() && !e.Answered? && Feasible(View(), e)
      ensures Sound(View()) && Tells(trace + [e], script, modals, Machine.Step(View(), e))
    {
      TellsSound(trace, script, modals, View());
      TellsNext(trace, script, modals, View(), e);
    }

    // ----------------------------------------------------------- what it all comes to

    /** Whatever ran while prompts were open, a command or a probe that needed a
        scope had the person's leave, not taken back since. */
    lemma LeaveWasGiven(i: nat)
      requires Valid() && i < |log| && (log[i].Ran? || log[i].Probed?) && Leave.NeedsIn(log[i]).Some?
      ensures exists j: nat ::
                Leave.AllowsAt(log[..i], j, log[i].conn, log[i].agent, Leave.NeedsIn(log[i]).value)
                && Leave.NotTakenBackSince(log[..i], j, log[i].agent)
    {
      Leave.CommandsHadLeave(trace, i);
    }

    /** Between jobs no prompt is open and no ask waits: every request line has
        been given exactly one answer. */
    lemma AllAnswered(id: nat)
      requires Valid() && !asking
      ensures Prompts.AnsweredIds(log)[id] == if id < nextReply then 1 else 0
    {
      Prompts.AnsweredOnceInOrder(trace, id);
    }
  }
}
