/** The person's leave: what a program may do is exactly what the history says
    the person allowed it, and has not taken back since. */
module Leave {
  import opened Wrappers
  import opened Scopes
  import opened Requests
  import opened Machine
  import opened Structure
  import opened Ownership

  // ------------------------------------------------------------- what the history allows

  /** What `entry` makes of what was allowed once, for `conn` of `key`. */
  function OnceNext(once: set<Scope>, entry: Entry, conn: nat, key: Key): set<Scope> {
    match entry
    case Allowed(c, k, scopes, session) => once + if c == conn && k == key && !session then scopes else {}
    case TakenBack(keys) => if key in keys then {} else once
    case _ => once
  }

  /** What was allowed once, for connection `conn` of `key` alone, since `key`
      was last taken back. */
  function OnceOf(log: seq<Entry>, conn: nat, key: Key): set<Scope>
    decreases |log|
  {
    if log == [] then {}
    else OnceNext(OnceOf(log[..|log| - 1], conn, key), log[|log| - 1], conn, key)
  }

  /** What `entry` makes of what was allowed `key` for the session. */
  function SessionNext(session: set<Scope>, entry: Entry, key: Key): set<Scope> {
    match entry
    case Allowed(_, k, scopes, forSession) => session + if k == key && forSession then scopes else {}
    case TakenBack(keys) => if key in keys then {} else session
    case _ => session
  }

  /** What was allowed `key` for the session, since it was last taken back. */
  function SessionOf(log: seq<Entry>, key: Key): set<Scope>
    decreases |log|
  {
    if log == [] then {}
    else SessionNext(SessionOf(log[..|log| - 1], key), log[|log| - 1], key)
  }

  function LeaveOf(log: seq<Entry>, conn: nat, key: Key): set<Scope> {
    OnceOf(log, conn, key) + SessionOf(log, key)
  }

  /** Nothing from entry `i` on takes `key` back. */
  predicate NotTakenBackSince(log: seq<Entry>, i: nat, key: Key) {
    forall j | i < j < |log| :: log[j].TakenBack? ==> key !in log[j].agents
  }

  /** Entry `i` is the person allowing `scope` to `conn` once, or to its agent
      `key` for the session. */
  predicate AllowsAt(log: seq<Entry>, i: nat, conn: nat, key: Key, scope: Scope) {
    && i < |log| && log[i].Allowed? && log[i].agent == key && scope in log[i].scopes
    && (log[i].session || log[i].conn == conn)
  }

  /** The leave the history gives is what it seems: the person allowed that
      scope, to that connection or to its agent for the session, and has not
      taken that agent back since. */
  lemma {:induction false} LeaveMeans(log: seq<Entry>, conn: nat, key: Key, scope: Scope)
    ensures scope in LeaveOf(log, conn, key) <==>
            exists i: nat :: AllowsAt(log, i, conn, key, scope) && NotTakenBackSince(log, i, key)
    decreases |log|
  {
    if log != [] {
      var n := |log| - 1;
      var before := log[..n];
      LeaveMeans(before, conn, key, scope);
      if AllowsAt(log, n, conn, key, scope) {
        assert NotTakenBackSince(log, n, key);
      }
      forall i: nat | i < n
        ensures AllowsAt(log, i, conn, key, scope) <==> AllowsAt(before, i, conn, key, scope)
        ensures NotTakenBackSince(log, i, key) <==>
                NotTakenBackSince(before, i, key) && (log[n].TakenBack? ==> key !in log[n].agents)
      {
        assert log[i] == before[i];
        if NotTakenBackSince(log, i, key) {
          assert forall j | i < j < n :: before[j] == log[j];
        }
        if NotTakenBackSince(before, i, key) && (log[n].TakenBack? ==> key !in log[n].agents) {
          assert forall j | i < j < n :: log[j] == before[j];
        }
      }
      if scope in LeaveOf(before, conn, key) && !(log[n].TakenBack? && key in log[n].agents) {
        var i: nat :| AllowsAt(before, i, conn, key, scope) && NotTakenBackSince(before, i, key);
        assert AllowsAt(log, i, conn, key, scope) && NotTakenBackSince(log, i, key);
      }
      if exists i: nat :: AllowsAt(log, i, conn, key, scope) && NotTakenBackSince(log, i, key) {
        var i: nat :| AllowsAt(log, i, conn, key, scope) && NotTakenBackSince(log, i, key);
        if i < n {
          assert AllowsAt(before, i, conn, key, scope) && NotTakenBackSince(before, i, key);
        }
      }
    }
  }

  // ------------------------------------------------------------- what every state keeps

  /** Every grant kept is the history's, and the history gives none but to the
      agents and connections that are there. */
  ghost predicate GrantsTold(conns: map<nat, Conn>, agents: map<Key, Agent>, seen: set<nat>, log: seq<Entry>) {
    && (forall c | c in conns :: conns[c].once == OnceOf(log, c, conns[c].agent))
    && (forall k | k in agents :: agents[k].session == SessionOf(log, k))
    && (forall k | k !in agents :: SessionOf(log, k) == {})
    && (forall c, k | c !in seen :: OnceOf(log, c, k) == {})
  }

  /** A connection that said hello was given some leave. */
  predicate HelloesGiven(conns: map<nat, Conn>, agents: map<Key, Agent>) {
    forall c | c in conns && conns[c].allowed ::
      conns[c].once != {} || (conns[c].agent in agents && agents[conns[c].agent].session != {})
  }

  /** Whatever is asked for is some scopes, and script only by itself. */
  predicate AsksProper(showing: Option<Showing>, waiting: seq<Ask>) {
    && (showing.Some? ==> Proper(showing.value.ask.scopes))
    && (forall i | 0 <= i < |waiting| :: Proper(waiting[i].scopes))
  }

  /** Each command and each probe ran with leave, and each prompt and each leave was for some
      scopes, script only by itself: as of when it happened. */
  ghost predicate LogProper(log: seq<Entry>)
    decreases |log|
  {
    log == [] ||
    var last, before := log[|log| - 1], log[..|log| - 1];
    LogProper(before) && EntryProper(before, last)
  }

  /** Something was allowed, and `needs` is of it. */
  ghost predicate HasLeave(log: seq<Entry>, conn: nat, key: Key, needs: Option<Scope>) {
    && LeaveOf(log, conn, key) != {}
    && (needs.Some? ==> needs.value in LeaveOf(log, conn, key))
  }

  ghost predicate EntryProper(before: seq<Entry>, last: Entry) {
    match last
    case Ran(_, conn, agent, command, _) => HasLeave(before, conn, agent, command.Needs())
    case Probed(conn, agent, needs, _) => HasLeave(before, conn, agent, needs)
    case Prompted(_, _, scopes, _) => Proper(scopes)
    case Allowed(_, _, scopes, _) => Proper(scopes)
    case _ => true
  }

  ghost predicate Honest(s: State) {
    && GrantsTold(s.conns, s.agents, s.seen, s.log)
    && HelloesGiven(s.conns, s.agents)
    && AsksProper(s.showing, s.waiting)
    && LogProper(s.log)
  }

  // ------------------------------------------------------------- entries that give no leave

  ghost predicate SameLeave(log: seq<Entry>, after: seq<Entry>) {
    && (forall c, k :: OnceOf(after, c, k) == OnceOf(log, c, k))
    && (forall k :: SessionOf(after, k) == SessionOf(log, k))
  }

  lemma ProperThen(log: seq<Entry>, entry: Entry)
    requires LogProper(log) && EntryProper(log, entry)
    ensures LogProper(log + [entry])
  {
    assert (log + [entry])[..|log + [entry]| - 1] == log;
  }

  lemma OnceThen(log: seq<Entry>, entry: Entry, conn: nat, key: Key)
    ensures OnceOf(log + [entry], conn, key) == OnceNext(OnceOf(log, conn, key), entry, conn, key)
  {
    assert (log + [entry])[..|log + [entry]| - 1] == log;
  }

  lemma SessionThen(log: seq<Entry>, entry: Entry, key: Key)
    ensures SessionOf(log + [entry], key) == SessionNext(SessionOf(log, key), entry, key)
  {
    assert (log + [entry])[..|log + [entry]| - 1] == log;
  }

  lemma NoteLeave(log: seq<Entry>, entry: Entry)
    requires LogProper(log) && EntryProper(log, entry)
    requires !entry.Allowed? && !entry.TakenBack?
    ensures SameLeave(log, log + [entry]) && LogProper(log + [entry])
  {
    ProperThen(log, entry);
    forall c, k
      ensures OnceOf(log + [entry], c, k) == OnceOf(log, c, k)
    {
      OnceThen(log, entry, c, k);
    }
    forall k
      ensures SessionOf(log + [entry], k) == SessionOf(log, k)
    {
      SessionThen(log, entry, k);
    }
  }

  lemma NoteAllowed(log: seq<Entry>, conn: nat, key: Key, scopes: set<Scope>, session: bool)
    requires LogProper(log) && Proper(scopes)
    ensures var after := log + [Allowed(conn, key, scopes, session)];
            && LogProper(after)
            && (forall c, k :: OnceOf(after, c, k) ==
                  OnceOf(log, c, k) + if c == conn && k == key && !session then scopes else {})
            && (forall k :: SessionOf(after, k) == SessionOf(log, k) + if k == key && session then scopes else {})
  {
    var entry := Allowed(conn, key, scopes, session);
    ProperThen(log, entry);
    forall c, k
      ensures OnceOf(log + [entry], c, k) ==
              OnceOf(log, c, k) + if c == conn && k == key && !session then scopes else {}
    {
      OnceThen(log, entry, c, k);
    }
    forall k
      ensures SessionOf(log + [entry], k) == SessionOf(log, k) + if k == key && session then scopes else {}
    {
      SessionThen(log, entry, k);
    }
  }

  lemma NoteTakenBack(log: seq<Entry>, keys: set<Key>)
    requires LogProper(log)
    ensures var after := log + [TakenBack(keys)];
            && LogProper(after)
            && (forall c, k :: OnceOf(after, c, k) == if k in keys then {} else OnceOf(log, c, k))
            && (forall k :: SessionOf(after, k) == if k in keys then {} else SessionOf(log, k))
  {
    ProperThen(log, TakenBack(keys));
    forall c, k
      ensures OnceOf(log + [TakenBack(keys)], c, k) == if k in keys then {} else OnceOf(log, c, k)
    {
      OnceThen(log, TakenBack(keys), c, k);
    }
    forall k
      ensures SessionOf(log + [TakenBack(keys)], k) == if k in keys then {} else SessionOf(log, k)
    {
      SessionThen(log, TakenBack(keys), k);
    }
  }

  // ------------------------------------------------------------- each operation

  lemma MarkAllowedHonest(s: State, ask: Ask)
    requires Honest(s)
    requires ask.conn in s.conns ==> GrantedTo(s, s.conns[ask.conn]) != {}
    ensures Honest(MarkAllowed(s, ask))
  {
  }

  lemma NoteHonest(s: State, entry: Entry)
    requires Honest(s) && EntryProper(s.log, entry) && !entry.Allowed? && !entry.TakenBack?
    ensures Honest(Note(s, entry)) && SameLeave(s.log, Note(s, entry).log)
  {
    NoteLeave(s.log, entry);
  }

  lemma TakeHonest(s: State, turn: Turn, now: Time)
    requires Honest(s) && s.waiting != []
    requires turn.Covered? && s.waiting[0].conn in s.conns ==> GrantedTo(s, s.conns[s.waiting[0].conn]) != {}
    ensures Honest(Take(s, turn, now)) && SameLeave(s.log, Take(s, turn, now).log)
  {
    var ask := s.waiting[0];
    match turn {
      case Opens(key) => NoteHonest(s, Prompted(ask.id, key, ask.scopes, now));
      case Covered(granted) =>
        MarkAllowedHonest(s, ask);
        NoteHonest(MarkAllowed(s, ask), Settled(ask.id, Granted(granted)));
      case Fails(code) => NoteHonest(s, Settled(ask.id, Failed(code)));
    }
  }

  /** Only scopes that are some scopes are covered, so what covers them is. */
  lemma CoveredIsSome(s: State, ask: Ask, now: Time)
    requires TurnOf(s, ask, now).Covered? && Proper(ask.scopes)
    ensures ask.conn in s.conns && GrantedTo(s, s.conns[ask.conn]) != {}
  {
    var x :| x in ask.scopes;
    assert x in GrantedTo(s, s.conns[ask.conn]);
  }

  lemma {:induction false} DrainHonest(s: State, now: Time)
    requires Honest(s)
    ensures Honest(Drain(s, now)) && SameLeave(s.log, Drain(s, now).log)
    decreases |s.waiting|
  {
    if s.showing.None? && s.waiting != [] {
      var turn := TurnOf(s, s.waiting[0], now);
      if turn.Covered? {
        CoveredIsSome(s, s.waiting[0], now);
      }
      TakeHonest(s, turn, now);
      DrainHonest(Take(s, turn, now), now);
    }
  }

  lemma AskHonest(s: State, ask: Ask, now: Time)
    requires Honest(s) && Proper(ask.scopes) && ask.conn in s.conns
    ensures Honest(OnAsk(s, ask, now)) && SameLeave(s.log, OnAsk(s, ask, now).log)
  {
    var granted := GrantedTo(s, s.conns[ask.conn]);
    if ask.scopes <= granted {
      var x :| x in ask.scopes;
      assert x in granted;
      MarkAllowedHonest(s, ask);
      NoteHonest(MarkAllowed(s, ask), Replied(ask.id, Granted(granted)));
    } else {
      NoteHonest(s, Queued(ask.id));
      var q := Note(s.(waiting := s.waiting + [ask]), Queued(ask.id));
      assert Honest(q);
      DrainHonest(q, now);
    }
  }

  lemma OnceTold(conns: map<nat, Conn>, agents: map<Key, Agent>, seen: set<nat>, log: seq<Entry>, conn: nat, scopes: set<Scope>)
    requires GrantsTold(conns, agents, seen, log) && LogProper(log) && Proper(scopes)
    requires conn in conns && conn in seen
    ensures var to := conns[conn].(once := conns[conn].once + scopes);
            GrantsTold(conns[conn := to], agents, seen, log + [Allowed(conn, to.agent, scopes, false)])
  {
    NoteAllowed(log, conn, conns[conn].agent, scopes, false);
  }

  lemma SessionTold(conns: map<nat, Conn>, agents: map<Key, Agent>, seen: set<nat>, log: seq<Entry>, conn: nat, key: Key, scopes: set<Scope>)
    requires GrantsTold(conns, agents, seen, log) && LogProper(log) && Proper(scopes) && key in agents
    ensures var to := agents[key].(session := agents[key].session + scopes);
            GrantsTold(conns, agents[key := to], seen, log + [Allowed(conn, key, scopes, true)])
  {
    NoteAllowed(log, conn, key, scopes, true);
  }

  lemma GivenOnceHonest(s: State, ask: Ask, key: Key)
    requires PromptKnown(s.conns, s.seen, s.showing, s.waiting) && Honest(s) && Proper(ask.scopes)
    requires ask.conn in s.conns && s.conns[ask.conn].agent == key
    ensures Honest(GivenTo(s, ask, key, Once))
  {
    OnceTold(s.conns, s.agents, s.seen, s.log, ask.conn, ask.scopes);
    NoteAllowed(s.log, ask.conn, key, ask.scopes, false);
  }

  lemma GivenSessionHonest(s: State, ask: Ask, key: Key)
    requires Known(s.conns, s.tabs, s.agents) && Honest(s) && Proper(ask.scopes)
    requires ask.conn in s.conns && s.conns[ask.conn].agent == key
    ensures Honest(GivenTo(s, ask, key, Session))
  {
    SessionTold(s.conns, s.agents, s.seen, s.log, ask.conn, key, ask.scopes);
    NoteAllowed(s.log, ask.conn, key, ask.scopes, true);
  }

  lemma GivenHonest(s: State, ask: Ask, key: Key, answer: Answer)
    requires Sound(s) && Honest(s) && Proper(ask.scopes) && answer != Deny
    requires ask.conn in s.conns && s.conns[ask.conn].agent == key
    ensures var n := GivenTo(s, ask, key, answer);
            Honest(n) && GrantedTo(n, n.conns[ask.conn]) >= ask.scopes
  {
    if answer == Session {
      GivenSessionHonest(s, ask, key);
    } else {
      GivenOnceHonest(s, ask, key);
    }
  }

  lemma ResolveHonest(s: State, answer: Answer, now: Time)
    requires Sound(s) && Honest(s) && s.showing.Some?
    ensures Honest(Resolve(s, answer, now))
  {
    var Showing(ask, key) := s.showing.value;
    if ask.conn !in s.conns {
      NoteHonest(s, Settled(ask.id, Failed(Code.Revoked)));
    } else if answer == Deny {
      NoteHonest(s, Denied(key, now));
      NoteHonest(Note(s, Denied(key, now)), Settled(ask.id, Failed(DeniedCode)));
    } else {
      var given := GivenTo(s, ask, key, answer);
      GivenHonest(s, ask, key, answer);
      var x :| x in ask.scopes;
      MarkAllowedHonest(given, ask);
      NoteHonest(MarkAllowed(given, ask), Settled(ask.id, Granted(GrantedTo(given, given.conns[ask.conn]))));
    }
  }

  lemma AnsweredHonest(s: State, answer: Answer, now: Time)
    requires Sound(s) && Honest(s)
    ensures Honest(OnAnswered(s, answer, now))
  {
    if s.showing.Some? {
      ResolveHonest(s, answer, now);
      DrainHonest(Resolve(s, answer, now), now);
    }
  }

  lemma RevokeHonest(s: State, keys: set<Key>)
    requires Honest(s)
    ensures Honest(Revoke(s, keys))
  {
    NoteTakenBack(s.log, keys);
  }

  lemma LeftHonest(s: State, conn: nat)
    requires Honest(s)
    ensures Honest(s.(conns := s.conns - {conn}))
  {
  }

  lemma ForgottenHonest(s: State, key: Key)
    requires Honest(s)
    ensures Honest(ForgetIfDone(s, key))
  {
  }

  lemma ClosedHonest(s: State, conn: nat)
    requires Honest(s)
    ensures Honest(OnClosed(s, conn))
  {
    if conn in s.conns {
      LeftHonest(s, conn);
      ForgottenHonest(s.(conns := s.conns - {conn}), s.conns[conn].agent);
    }
  }

  lemma IntroduceHonest(s: State, key: Key)
    requires Honest(s)
    ensures Honest(Introduce(s, key))
  {
    if key !in s.agents {
      NoteLeave(s.log, Introduced(key, s.nextAgent));
    }
  }

  lemma JoinHonest(s: State, conn: nat, key: Key)
    requires Honest(s) && conn !in s.seen
    ensures Honest(Join(s, conn, key))
  {
  }

  lemma ConnectedHonest(s: State, conn: nat, peer: Option<Key>)
    requires Honest(s) && conn !in s.seen
    ensures Honest(OnConnected(s, conn, peer))
  {
    if peer.Some? && s.serving {
      IntroduceHonest(s, peer.value);
      JoinHonest(Introduce(s, peer.value), conn, peer.value);
    }
  }

  /** What is refused, and what is not, is what the history allows: exactly. */
  lemma RefusalExact(s: State, conn: nat, scope: Scope)
    requires Sound(s) && Honest(s)
    ensures Refusal(s, conn, Some(scope)).None? <==>
            conn in s.conns && s.conns[conn].allowed && scope in LeaveOf(s.log, conn, s.conns[conn].agent)
  {
  }

  /** What is not refused has leave. */
  lemma LetThroughHasLeave(s: State, conn: nat, needs: Option<Scope>)
    requires Sound(s) && Honest(s) && Refusal(s, conn, needs).None?
    ensures HasLeave(s.log, conn, s.conns[conn].agent, needs)
  {
    var key := s.conns[conn].agent;
    assert LeaveOf(s.log, conn, key) == GrantedTo(s, s.conns[conn]);
  }

  lemma RunInTabHonest(s: State, id: nat, conn: nat, key: Key, command: Command, tab: nat, works: bool)
    requires Honest(s)
    requires HasLeave(s.log, conn, key, command.Needs())
    ensures Honest(RunInTab(s, id, conn, key, command, tab, works))
  {
    if Owns(s, key, tab) {
      NoteHonest(s, Ran(id, conn, key, command, {s.tabs[tab].window}));
    } else {
      NoteHonest(s, Replied(id, Failed(NoSuchTab)));
    }
  }

  lemma RunOpenHonest(s: State, id: nat, conn: nat, key: Key, command: Command, works: bool)
    requires Honest(s)
    requires HasLeave(s.log, conn, key, command.Needs())
    ensures Honest(RunOpen(s, id, conn, key, command, works))
  {
    if works {
      var made := Note(s, Opened(s.nextWindow, ByAgent(key)));
      NoteHonest(s, Opened(s.nextWindow, ByAgent(key)));
      assert LeaveOf(made.log, conn, key) == LeaveOf(s.log, conn, key);
      NoteHonest(made, Ran(id, conn, key, command, {s.nextWindow}));
    } else {
      NoteHonest(s, Replied(id, Failed(Code.Refused)));
    }
  }

  lemma RunHonest(s: State, id: nat, conn: nat, key: Key, command: Command, works: bool)
    requires Honest(s)
    requires HasLeave(s.log, conn, key, command.Needs())
    ensures Honest(RunCommand(s, id, conn, key, command, works))
  {
    if TabIn(command).Some? {
      RunInTabHonest(s, id, conn, key, command, TabIn(command).value, works);
    } else if command.Open? {
      RunOpenHonest(s, id, conn, key, command, works);
    } else {
      NoteHonest(s, Ran(id, conn, key, command, if command.Tabs? then WindowsOf(s, key) else {}));
    }
  }

  lemma RequestHonest(s: State, id: nat, conn: nat, command: Command, works: bool, now: Time)
    requires Sound(s) && Honest(s)
    requires command.Hello? ==> Proper(command.scopes)
    ensures Honest(OnRequest(s, id, conn, command, works, now))
  {
    if command.Hello? {
      if conn in s.conns && !s.conns[conn].allowed {
        AskHonest(s, Ask(id, conn, command.scopes, true), now);
      } else {
        NoteHonest(s, Replied(id, Failed(if conn in s.conns then BadRequest else Code.Revoked)));
      }
    } else {
      var refused := Refusal(s, conn, if command.Request? then None else command.Needs());
      if refused.Some? {
        NoteHonest(s, Replied(id, Failed(refused.value)));
      } else if command.Request? {
        AskHonest(s, Ask(id, conn, {command.scope}, false), now);
      } else {
        LetThroughHasLeave(s, conn, command.Needs());
        RunHonest(s, id, conn, s.conns[conn].agent, command, works);
      }
    }
  }

  lemma ReadHonest(s: State, id: nat, conn: nat, read: Result<Command, Code>, works: bool, now: Time)
    requires Sound(s) && Honest(s)
    requires read.Ok? && read.value.Hello? ==> Proper(read.value.scopes)
    ensures Honest(OnRead(s, id, conn, read, works, now))
  {
    if read.Err? {
      NoteHonest(s, Replied(id, Failed(read.error)));
    } else if read.value.Bye? {
      NoteHonest(s, Replied(id, Said));
    } else {
      RequestHonest(s, id, conn, read.value, works, now);
    }
  }

  lemma ProbeHonest(s: State, conn: nat, tab: nat, needs: Option<Scope>)
    requires Sound(s) && Honest(s)
    ensures Honest(OnProbe(s, conn, tab, needs))
  {
    if Refusal(s, conn, needs).None? && Owns(s, s.conns[conn].agent, tab) {
      LetThroughHasLeave(s, conn, needs);
      NoteHonest(s, Probed(conn, s.conns[conn].agent, needs, {s.tabs[tab].window}));
    }
  }

  /** Revoking, then what the switch and quitting do besides. */
  lemma RevokesHonest(s: State, keys: set<Key>, n: State)
    requires Honest(s)
    requires var r := Revoke(s, keys);
             && n.log == r.log && n.seen == r.seen && n.agents == r.agents
             && n.showing == r.showing && n.waiting == r.waiting && (n.conns == r.conns || n.conns == map[])
    ensures Honest(n)
  {
    RevokeHonest(s, keys);
  }

  lemma StopHonest(s: State, number: nat)
    requires Honest(s)
    ensures Honest(OnStop(s, number))
  {
    RevokeHonest(s, Numbered(s, number));
  }

  lemma StopServingHonest(s: State)
    requires Honest(s)
    ensures Honest(StopServing(s))
  {
    RevokesHonest(s, s.agents.Keys, StopServing(s));
  }

  lemma QuitsHonest(s: State, browsing: bool)
    requires Honest(s)
    ensures Honest(OnQuits(s, browsing))
  {
    StopServingHonest(if browsing then s.(kept := Some(Persons(s.windows, AgentWindows(s)))) else s);
  }

  lemma NewWindowHonest(s: State, opener: Opener)
    requires Honest(s)
    ensures Honest(NewWindow(s, opener))
  {
    NoteHonest(s, Opened(s.nextWindow, opener));
  }

  lemma PageOpensHonest(s: State, parent: nat, browses: bool)
    requires Honest(s)
    ensures Honest(OnPageOpens(s, parent, browses))
  {
    NewWindowHonest(s, ByPage(parent));
  }

  lemma ReopensHonest(s: State, index: nat)
    requires Honest(s)
    ensures Honest(OnReopens(s, index))
  {
    if index < |s.recent| {
      NewWindowHonest(s.(recent := s.recent[..index] + s.recent[index + 1..]), ByPerson);
    }
  }

  lemma LineHonest(s: State, conn: nat, read: Result<Command, Code>, works: bool, now: Time)
    requires Sound(s) && Honest(s) && (read.Ok? ==> WellFormed(read.value))
    ensures Honest(OnRead(s, s.nextReply, conn, read, works, now).(clock := now, nextReply := s.nextReply + 1))
  {
    ReadHonest(s, s.nextReply, conn, read, works, now);
  }

  lemma AnsweredAtHonest(s: State, answer: Answer, now: Time)
    requires Sound(s) && Honest(s)
    ensures Honest(OnAnswered(s, answer, now).(clock := now))
  {
    AnsweredHonest(s, answer, now);
  }

  lemma QuietHonest(s: State, e: Event)
    requires Honest(s) && (e.SwitchedOn? || e.WindowCloses?)
    ensures Honest(Machine.Step(s, e))
  {
  }

  lemma StepHonest(s: State, e: Event)
    requires Sound(s) && Honest(s) && Feasible(s, e)
    ensures Honest(Machine.Step(s, e))
  {
    match e {
      case Connected(conn, peer) => ConnectedHonest(s, conn, peer);
      case Line(conn, read, works, now) => LineHonest(s, conn, read, works, now);
      case Probe(conn, tab, needs) => ProbeHonest(s, conn, tab, needs);
      case Closed(conn) => ClosedHonest(s, conn);
      case Answered(answer, now) => AnsweredAtHonest(s, answer, now);
      case StopPressed(number) => StopHonest(s, number);
      case RevokeAll => RevokeHonest(s, s.agents.Keys);
      case SwitchedOff => StopServingHonest(s);
      case Quits(browsing) => QuitsHonest(s, browsing);
      case PersonOpens => NewWindowHonest(s, ByPerson);
      case PageOpens(parent, browses) => PageOpensHonest(s, parent, browses);
      case Reopens(index) => ReopensHonest(s, index);
      case SwitchedOn(_) => QuietHonest(s, e);
      case WindowCloses(_, _) => QuietHonest(s, e);
    }
  }

  lemma {:induction false} RunIsHonest(events: seq<Event>)
    requires FeasibleRun(Initial, events)
    ensures Sound(Run(Initial, events)) && Honest(Run(Initial, events))
  {
    if events != [] {
      var before := events[..|events| - 1];
      RunIsHonest(before);
      StepKeeps(Run(Initial, before), events[|events| - 1]);
      StepHonest(Run(Initial, before), events[|events| - 1]);
    }
  }

  // ------------------------------------------------------------- over every run

  lemma {:induction false} ProperAt(log: seq<Entry>, i: nat)
    requires LogProper(log) && i < |log|
    ensures EntryProper(log[..i], log[i])
    decreases |log|
  {
    var n := |log| - 1;
    if i < n {
      ProperAt(log[..n], i);
      assert log[..n][..i] == log[..i];
    }
  }

  /** The scope that what `entry` says was done needed, if it needed one. */
  function NeedsIn(entry: Entry): Option<Scope> {
    match entry
    case Ran(_, _, _, command, _) => command.Needs()
    case Probed(_, _, needs, _) => needs
    case _ => None
  }

  /** In every run, whatever happened while prompts were open, or between the
      probes of one wait: a command, or a probe, that needs a scope was done for
      a connection only if the person had allowed that scope to that very
      connection, or to its agent for the session, and had not taken the agent
      back since. */
  lemma CommandsHadLeave(events: seq<Event>, i: nat)
    requires FeasibleRun(Initial, events)
    ensures var log := Run(Initial, events).log;
            i < |log| && (log[i].Ran? || log[i].Probed?) && NeedsIn(log[i]).Some? ==>
              exists j: nat :: AllowsAt(log[..i], j, log[i].conn, log[i].agent, NeedsIn(log[i]).value)
                               && NotTakenBackSince(log[..i], j, log[i].agent)
  {
    RunIsHonest(events);
    var log := Run(Initial, events).log;
    if i < |log| && (log[i].Ran? || log[i].Probed?) && NeedsIn(log[i]).Some? {
      ProperAt(log, i);
      LeaveMeans(log[..i], log[i].conn, log[i].agent, NeedsIn(log[i]).value);
    }
  }

  /** In every run, nothing was done for a connection, not even what needs no
      scope, that nothing had been allowed to, or to its agent for the session,
      and not taken back since. */
  lemma DoneHadSomeLeave(events: seq<Event>, i: nat)
    requires FeasibleRun(Initial, events)
    ensures var log := Run(Initial, events).log;
            i < |log| && (log[i].Ran? || log[i].Probed?) ==>
              exists scope, j: nat :: AllowsAt(log[..i], j, log[i].conn, log[i].agent, scope)
                                      && NotTakenBackSince(log[..i], j, log[i].agent)
  {
    RunIsHonest(events);
    var log := Run(Initial, events).log;
    if i < |log| && (log[i].Ran? || log[i].Probed?) {
      ProperAt(log, i);
      var scope :| scope in LeaveOf(log[..i], log[i].conn, log[i].agent);
      LeaveMeans(log[..i], log[i].conn, log[i].agent, scope);
    }
  }

  /** In every run, script was only ever asked for, and allowed, by itself. */
  lemma ScriptAlone(events: seq<Event>, i: nat)
    requires FeasibleRun(Initial, events)
    ensures var log := Run(Initial, events).log;
            i < |log| && (log[i].Allowed? || log[i].Prompted?) && Script in log[i].scopes ==> log[i].scopes == {Script}
  {
    RunIsHonest(events);
    var log := Run(Initial, events).log;
    if i < |log| {
      ProperAt(log, i);
    }
  }

  /** In every run, a connection counts as allowed only if the person allowed
      something to it, or to its agent for the session, not taken back since. */
  lemma AllowedWasGiven(events: seq<Event>, conn: nat)
    requires FeasibleRun(Initial, events)
    ensures var s := Run(Initial, events);
            conn in s.conns && s.conns[conn].allowed ==>
              exists scope, i: nat :: AllowsAt(s.log, i, conn, s.conns[conn].agent, scope)
                                      && NotTakenBackSince(s.log, i, s.conns[conn].agent)
  {
    RunIsHonest(events);
    var s := Run(Initial, events);
    if conn in s.conns && s.conns[conn].allowed {
      var key := s.conns[conn].agent;
      var scope :| scope in LeaveOf(s.log, conn, key);
      LeaveMeans(s.log, conn, key, scope);
    }
  }

  // ------------------------------------------------------------- what one answer gives

  predicate SameGrants(s: State, n: State) {
    && n.agents == s.agents && n.conns.Keys == s.conns.Keys
    && (forall c | c in s.conns :: n.conns[c].agent == s.conns[c].agent && n.conns[c].once == s.conns[c].once)
  }

  lemma TakeSameGrants(s: State, turn: Turn, now: Time)
    requires s.waiting != []
    ensures SameGrants(s, Take(s, turn, now))
  {
  }

  lemma {:induction false} DrainSameGrants(s: State, now: Time)
    ensures SameGrants(s, Drain(s, now))
    decreases |s.waiting|
  {
    if s.showing.None? && s.waiting != [] {
      var turn := TurnOf(s, s.waiting[0], now);
      TakeSameGrants(s, turn, now);
      DrainSameGrants(Take(s, turn, now), now);
    }
  }

  /** The scopes an answer adds to what connection `c` may do. */
  function Adds(s: State, answer: Answer, c: nat): set<Scope>
    requires s.showing.Some? && c in s.conns
  {
    var Showing(ask, key) := s.showing.value;
    if ask.conn in s.conns
       && ((answer == Once && c == ask.conn) || (answer == Session && s.conns[c].agent == key))
    then ask.scopes else {}
  }

  lemma GivenAdds(s: State, answer: Answer, c: nat)
    requires Known(s.conns, s.tabs, s.agents) && PromptKnown(s.conns, s.seen, s.showing, s.waiting)
    requires s.showing.Some? && c in s.conns && s.showing.value.ask.conn in s.conns && answer != Deny
    ensures var n := GivenTo(s, s.showing.value.ask, s.showing.value.agent, answer);
            c in n.conns && n.conns.Keys == s.conns.Keys && n.conns[c].agent == s.conns[c].agent
            && GrantedTo(n, n.conns[c]) == GrantedTo(s, s.conns[c]) + Adds(s, answer, c)
  {
  }

  lemma SameGranted(s: State, n: State, c: nat)
    requires SameGrants(s, n) && c in s.conns
    ensures c in n.conns && n.conns[c].agent == s.conns[c].agent && GrantedTo(n, n.conns[c]) == GrantedTo(s, s.conns[c])
  {
  }

  lemma SettleSameGrants(s: State, ask: Ask)
    requires ask.conn in s.conns
    ensures SameGrants(s, SettleGranted(s, ask).(showing := None))
  {
  }

  lemma ResolveAdds(s: State, answer: Answer, now: Time, c: nat)
    requires Known(s.conns, s.tabs, s.agents) && PromptKnown(s.conns, s.seen, s.showing, s.waiting)
    requires s.showing.Some? && c in s.conns
    ensures var r := Resolve(s, answer, now);
            c in r.conns && r.conns[c].agent == s.conns[c].agent
            && GrantedTo(r, r.conns[c]) == GrantedTo(s, s.conns[c]) + Adds(s, answer, c)
  {
    var Showing(ask, key) := s.showing.value;
    if ask.conn in s.conns && answer != Deny {
      GivenAdds(s, answer, c);
      var given := GivenTo(s, ask, key, answer);
      SettleSameGrants(given, ask);
      SameGranted(given, SettleGranted(given, ask).(showing := None), c);
    } else {
      SameGranted(s, Resolve(s, answer, now), c);
    }
  }

  /** What an answer changes: allowed once, the scopes asked for go to the
      connection that asked and to no other; for the session, to every
      connection of its agent; denied, or once the connection that asked is
      gone, to nobody. */
  lemma AnswerAdds(s: State, answer: Answer, now: Time, c: nat)
    requires Sound(s) && s.showing.Some? && c in s.conns
    ensures var n := OnAnswered(s, answer, now);
            c in n.conns && n.conns[c].agent == s.conns[c].agent
            && GrantedTo(n, n.conns[c]) == GrantedTo(s, s.conns[c]) + Adds(s, answer, c)
  {
    var r := Resolve(s, answer, now);
    ResolveAdds(s, answer, now, c);
    DrainSameGrants(r, now);
    SameGranted(r, Drain(r, now), c);
  }

  // ------------------------------------------------------------- a revoke while a prompt is open

  lemma AskShowing(s: State, ask: Ask, now: Time)
    requires s.showing.Some?
    ensures OnAsk(s, ask, now).showing == s.showing
  {
  }

  lemma AskingShowing(s: State, id: nat, conn: nat, command: Command, works: bool, now: Time)
    requires s.showing.Some? && (command.Hello? || command.Request?)
    ensures OnRequest(s, id, conn, command, works, now).showing == s.showing
  {
    AskShowing(s, Ask(id, conn, if command.Hello? then command.scopes else {command.scope}, command.Hello?), now);
  }

  lemma RequestShowing(s: State, id: nat, conn: nat, command: Command, works: bool, now: Time)
    requires s.showing.Some?
    ensures OnRequest(s, id, conn, command, works, now).showing == s.showing
  {
    if command.Hello? || command.Request? {
      AskingShowing(s, id, conn, command, works, now);
    } else if Refusal(s, conn, command.Needs()).None? {
      RunShowing(s, id, conn, s.conns[conn].agent, command, works);
    }
  }

  lemma ReadShowing(s: State, id: nat, conn: nat, read: Result<Command, Code>, works: bool, now: Time)
    requires s.showing.Some?
    ensures OnRead(s, id, conn, read, works, now).showing == s.showing
  {
    if read.Ok? && !read.value.Bye? {
      RequestShowing(s, id, conn, read.value, works, now);
    }
  }

  lemma RunInTabShowing(s: State, id: nat, conn: nat, key: Key, command: Command, tab: nat, works: bool)
    ensures RunInTab(s, id, conn, key, command, tab, works).showing == s.showing
  {
  }

  lemma RunShowing(s: State, id: nat, conn: nat, key: Key, command: Command, works: bool)
    ensures RunCommand(s, id, conn, key, command, works).showing == s.showing
  {
    if TabIn(command).Some? {
      RunInTabShowing(s, id, conn, key, command, TabIn(command).value, works);
    }
  }

  lemma StepShowing(s: State, e: Event)
    requires s.showing.Some? && !e.Answered?
    ensures Machine.Step(s, e).showing == s.showing
  {
    if e.Line? {
      ReadShowing(s, s.nextReply, e.conn, e.read, e.works, e.now);
    }
  }

  lemma {:induction false} RunShowingStays(s: State, events: seq<Event>)
    requires s.showing.Some? && forall i | 0 <= i < |events| :: !events[i].Answered?
    ensures Run(s, events).showing == s.showing
  {
    if events != [] {
      var before := events[..|events| - 1];
      RunShowingStays(s, before);
      StepShowing(Run(s, before), events[|events| - 1]);
    }
  }

  /** A prompt stays open until it is answered, whatever else happens; and if
      its agent is taken back meanwhile, the answer, whatever it is and however
      much later, gives nobody anything. */
  lemma RevokedPromptGivesNothing(s: State, keys: set<Key>, events: seq<Event>, answer: Answer, now: Time)
    requires Sound(s) && s.showing.Some? && s.showing.value.agent in keys
    requires FeasibleRun(Revoke(s, keys), events) && forall i | 0 <= i < |events| :: !events[i].Answered?
    ensures var m := Run(Revoke(s, keys), events);
            && m.showing == s.showing
            && forall c | c in m.conns ::
                 c in OnAnswered(m, answer, now).conns
                 && GrantedTo(OnAnswered(m, answer, now), OnAnswered(m, answer, now).conns[c]) == GrantedTo(m, m.conns[c])
  {
    var t := Revoke(s, keys);
    var m := Run(t, events);
    RevokeKeeps(s, keys);
    RunShowingStays(t, events);
    RunLaterThan(t, events);
    var ask := s.showing.value.ask;
    assert ask.conn in t.seen && ask.conn !in t.conns;
    assert ask.conn !in m.conns;
    forall c | c in m.conns
      ensures c in OnAnswered(m, answer, now).conns
      ensures GrantedTo(OnAnswered(m, answer, now), OnAnswered(m, answer, now).conns[c]) == GrantedTo(m, m.conns[c])
    {
      AnswerAdds(m, answer, now, c);
    }
  }
}
