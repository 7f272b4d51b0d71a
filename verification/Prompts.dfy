/** The queue of prompts: one at a time, in order, each ask answered exactly
    once, and no agent asked again within ten seconds of being denied. */
module Prompts {
  import opened Wrappers
  import opened Lists
  import opened Scopes
  import opened Requests
  import opened Machine
  import opened Structure

  // ------------------------------------------------------------- what the history says

  /** The requests that were queued, in order. */
  function QueuedIds(log: seq<Entry>): seq<nat>
    decreases |log|
  {
    if log == [] then []
    else QueuedIds(log[..|log| - 1]) + if log[|log| - 1].Queued? then [log[|log| - 1].id] else []
  }

  /** The queued requests that were settled, in order. */
  function SettledIds(log: seq<Entry>): seq<nat>
    decreases |log|
  {
    if log == [] then []
    else SettledIds(log[..|log| - 1]) + if log[|log| - 1].Settled? then [log[|log| - 1].id] else []
  }

  /** Every answer given to a request, once for each time it was given. */
  function AnsweredIds(log: seq<Entry>): multiset<nat>
    decreases |log|
  {
    if log == [] then multiset{}
    else
      var last := log[|log| - 1];
      AnsweredIds(log[..|log| - 1]) +
      if last.Settled? || last.Replied? || last.Ran? then multiset{last.id} else multiset{}
  }

  /** When `key` was last denied. */
  function LastDenial(log: seq<Entry>, key: Key): Option<Time>
    decreases |log|
  {
    if log == [] then None
    else
      var last := log[|log| - 1];
      if last.Denied? && last.agent == key then Some(last.at) else LastDenial(log[..|log| - 1], key)
  }

  /** A prompt: the request it is for, whose agent, and for what. */
  datatype Prompt = Prompt(id: nat, agent: Key, scopes: set<Scope>)

  /** The prompt that is open: the last opened, until a request is settled. */
  function OpenPrompt(log: seq<Entry>): Option<Prompt>
    decreases |log|
  {
    if log == [] then None
    else
      match log[|log| - 1]
      case Prompted(id, agent, scopes, _) => Some(Prompt(id, agent, scopes))
      case Settled(_, _) => None
      case _ => OpenPrompt(log[..|log| - 1])
  }

  /** How an entry follows what came before it: a prompt opens only when none
      is open, and never within ten seconds of its agent's last denial; and the
      person's answers are to the prompt that is open, for what it asked. */
  predicate Follows(before: seq<Entry>, last: Entry) {
    match last
    case Prompted(_, agent, _, at) =>
      && OpenPrompt(before).None?
      && (LastDenial(before, agent).Some? ==> LastDenial(before, agent).value + AFTER_DENIAL <= at)
    case Allowed(_, agent, scopes, _) =>
      OpenPrompt(before).Some? && OpenPrompt(before).value.agent == agent && OpenPrompt(before).value.scopes == scopes
    case Denied(agent, at) =>
      && OpenPrompt(before).Some? && OpenPrompt(before).value.agent == agent
      && (LastDenial(before, agent).Some? ==> LastDenial(before, agent).value <= at)
    case _ => true
  }

  predicate InOrder(log: seq<Entry>)
    decreases |log|
  {
    log == [] || (InOrder(log[..|log| - 1]) && Follows(log[..|log| - 1], log[|log| - 1]))
  }

  // ------------------------------------------------------------- what every state keeps

  function Ids(asks: seq<Ask>): seq<nat> {
    seq(|asks|, i requires 0 <= i < |asks| => asks[i].id)
  }

  /** The requests not yet answered: the one whose prompt is open, and those
      waiting behind it. */
  function Pending(showing: Option<Showing>, waiting: seq<Ask>): seq<nat> {
    (if showing.Some? then [showing.value.ask.id] else []) + Ids(waiting)
  }

  /** What was queued is what was settled, then what is pending: in order. */
  predicate Fifo(showing: Option<Showing>, waiting: seq<Ask>, log: seq<Entry>) {
    QueuedIds(log) == SettledIds(log) + Pending(showing, waiting)
  }

  predicate PromptTold(showing: Option<Showing>, log: seq<Entry>) {
    OpenPrompt(log) ==
    if showing.None? then None
    else Some(Prompt(showing.value.ask.id, showing.value.agent, showing.value.ask.scopes))
  }

  ghost predicate DenialsTold(denied: map<Key, Time>, clock: Time, log: seq<Entry>) {
    forall k ::
      && (k in denied <==> LastDenial(log, k).Some?)
      && (k in denied ==> LastDenial(log, k) == Some(denied[k]) && denied[k] <= clock)
  }

  /** All of it, `until` being a time no denial is later than. */
  ghost predicate Ledger(s: State, until: Time) {
    && Fifo(s.showing, s.waiting, s.log)
    && PromptTold(s.showing, s.log)
    && DenialsTold(s.denied, until, s.log)
    && InOrder(s.log)
  }

  /** Every request's answers, given and to come. */
  function Owed(s: State): multiset<nat> {
    AnsweredIds(s.log) + multiset(Pending(s.showing, s.waiting))
  }

  // ------------------------------------------------------------- entries

  ghost predicate Quiet(entry: Entry) {
    !entry.Queued? && !entry.Settled? && !entry.Denied? && !entry.Prompted?
  }

  lemma NoteQuiet(log: seq<Entry>, entry: Entry)
    requires InOrder(log) && Follows(log, entry) && Quiet(entry)
    ensures var after := log + [entry];
            && InOrder(after) && QueuedIds(after) == QueuedIds(log) && SettledIds(after) == SettledIds(log)
            && OpenPrompt(after) == OpenPrompt(log) && (forall k :: LastDenial(after, k) == LastDenial(log, k))
            && AnsweredIds(after) ==
               AnsweredIds(log) + if entry.Replied? || entry.Ran? then multiset{entry.id} else multiset{}
  {
    assert (log + [entry])[..|log + [entry]| - 1] == log;
  }

  lemma NoteSettled(log: seq<Entry>, id: nat, outcome: Outcome)
    requires InOrder(log)
    ensures var after := log + [Settled(id, outcome)];
            && InOrder(after) && QueuedIds(after) == QueuedIds(log) && SettledIds(after) == SettledIds(log) + [id]
            && OpenPrompt(after) == None && (forall k :: LastDenial(after, k) == LastDenial(log, k))
            && AnsweredIds(after) == AnsweredIds(log) + multiset{id}
  {
    var after := log + [Settled(id, outcome)];
    assert after[..|after| - 1] == log;
  }

  lemma NoteQueued(log: seq<Entry>, id: nat)
    requires InOrder(log)
    ensures var after := log + [Queued(id)];
            && InOrder(after) && QueuedIds(after) == QueuedIds(log) + [id] && SettledIds(after) == SettledIds(log)
            && OpenPrompt(after) == OpenPrompt(log) && (forall k :: LastDenial(after, k) == LastDenial(log, k))
            && AnsweredIds(after) == AnsweredIds(log)
  {
    var after := log + [Queued(id)];
    assert after[..|after| - 1] == log;
  }

  lemma NotePrompted(log: seq<Entry>, id: nat, agent: Key, scopes: set<Scope>, at: Time)
    requires InOrder(log) && Follows(log, Prompted(id, agent, scopes, at))
    ensures var after := log + [Prompted(id, agent, scopes, at)];
            && InOrder(after) && QueuedIds(after) == QueuedIds(log) && SettledIds(after) == SettledIds(log)
            && OpenPrompt(after) == Some(Prompt(id, agent, scopes))
            && (forall k :: LastDenial(after, k) == LastDenial(log, k))
            && AnsweredIds(after) == AnsweredIds(log)
  {
    var after := log + [Prompted(id, agent, scopes, at)];
    assert after[..|after| - 1] == log;
  }

  lemma NoteDenied(log: seq<Entry>, agent: Key, at: Time)
    requires InOrder(log) && Follows(log, Denied(agent, at))
    ensures var after := log + [Denied(agent, at)];
            && InOrder(after) && QueuedIds(after) == QueuedIds(log) && SettledIds(after) == SettledIds(log)
            && OpenPrompt(after) == OpenPrompt(log)
            && (forall k :: LastDenial(after, k) == if k == agent then Some(at) else LastDenial(log, k))
            && AnsweredIds(after) == AnsweredIds(log)
  {
    var after := log + [Denied(agent, at)];
    assert after[..|after| - 1] == log;
  }

  // ------------------------------------------------------------- taking turns

  /** A turn the queue may take now. */
  predicate Due(s: State, turn: Turn, now: Time) {
    turn.Opens? ==> turn.agent in s.denied ==> s.denied[turn.agent] + AFTER_DENIAL <= now
  }

  lemma TurnDue(s: State, ask: Ask, now: Time)
    ensures Due(s, TurnOf(s, ask, now), now)
  {
  }

  lemma IdsHead(waiting: seq<Ask>)
    requires waiting != []
    ensures Ids(waiting) == [waiting[0].id] + Ids(waiting[1..])
  {
  }

  lemma TakeOpens(s: State, until: Time, key: Key, now: Time)
    requires Ledger(s, until) && s.waiting != [] && s.showing.None? && Due(s, Opens(key), now)
    ensures Ledger(Take(s, Opens(key), now), until) && Owed(Take(s, Opens(key), now)) == Owed(s)
  {
    var ask, rest := s.waiting[0], s.waiting[1..];
    IdsHead(s.waiting);
    NotePrompted(s.log, ask.id, key, ask.scopes, now);
    assert Pending(None, s.waiting) == Pending(Some(Showing(ask, key)), rest);
  }

  lemma TakeSettles(s: State, until: Time, outcome: Outcome)
    requires Ledger(s, until) && s.waiting != [] && s.showing.None?
    ensures var n := Note(s, Settled(s.waiting[0].id, outcome)).(waiting := s.waiting[1..]);
            Ledger(n, until) && Owed(n) == Owed(s)
  {
    var id, rest := s.waiting[0].id, s.waiting[1..];
    IdsHead(s.waiting);
    NoteSettled(s.log, id, outcome);
    assert Pending(None, s.waiting) == [id] + Pending(None, rest);
    assert SettledIds(s.log) + ([id] + Pending(None, rest)) == (SettledIds(s.log) + [id]) + Pending(None, rest);
  }

  lemma TakeLedger(s: State, until: Time, turn: Turn, now: Time)
    requires Ledger(s, until) && s.waiting != [] && s.showing.None? && Due(s, turn, now)
    ensures Ledger(Take(s, turn, now), until) && Owed(Take(s, turn, now)) == Owed(s)
  {
    match turn {
      case Opens(key) => TakeOpens(s, until, key, now);
      case Covered(granted) => TakeSettles(s, until, Granted(granted));
      case Fails(code) => TakeSettles(s, until, Failed(code));
    }
  }

  lemma {:induction false} DrainLedger(s: State, until: Time, now: Time)
    requires Ledger(s, until)
    ensures Ledger(Drain(s, now), until) && Owed(Drain(s, now)) == Owed(s)
    ensures Drain(s, now).waiting != [] ==> Drain(s, now).showing.Some?
    decreases |s.waiting|
  {
    if s.showing.None? && s.waiting != [] {
      var turn := TurnOf(s, s.waiting[0], now);
      TurnDue(s, s.waiting[0], now);
      TakeLedger(s, until, turn, now);
      DrainLedger(Take(s, turn, now), until, now);
    }
  }

  /** No prompt is waited for that is not open. */
  predicate Prompting(s: State) {
    s.waiting != [] ==> s.showing.Some?
  }

  lemma QueueLedger(s: State, until: Time, ask: Ask)
    requires Ledger(s, until)
    ensures var q := Note(s.(waiting := s.waiting + [ask]), Queued(ask.id));
            Ledger(q, until) && Owed(q) == Owed(s) + multiset{ask.id}
  {
    var pending := Pending(s.showing, s.waiting);
    NoteQueued(s.log, ask.id);
    PendingLast(s.showing, s.waiting, ask);
    Regrouped(SettledIds(s.log), pending, [ask.id]);
    OwedOneMore(AnsweredIds(s.log), pending, ask.id);
  }

  lemma PendingLast(showing: Option<Showing>, waiting: seq<Ask>, ask: Ask)
    ensures Pending(showing, waiting + [ask]) == Pending(showing, waiting) + [ask.id]
  {
    Regrouped(if showing.Some? then [showing.value.ask.id] else [], Ids(waiting), [ask.id]);
    assert Ids(waiting + [ask]) == Ids(waiting) + [ask.id];
  }

  lemma OwedOneMore(answered: multiset<nat>, pending: seq<nat>, id: nat)
    ensures answered + multiset(pending + [id]) == (answered + multiset(pending)) + multiset{id}
    ensures (answered + multiset{id}) + multiset(pending) == (answered + multiset(pending)) + multiset{id}
  {
  }

  lemma AskLedger(s: State, until: Time, ask: Ask, now: Time)
    requires Ledger(s, until) && Prompting(s)
    ensures var n := OnAsk(s, ask, now); Ledger(n, until) && Prompting(n) && Owed(n) == Owed(s) + multiset{ask.id}
  {
    if ask.conn in s.conns && ask.scopes <= GrantedTo(s, s.conns[ask.conn]) {
      var granted := Granted(GrantedTo(s, s.conns[ask.conn]));
      RepliedLedger(s, until, Note(MarkAllowed(s, ask), Replied(ask.id, granted)), Replied(ask.id, granted));
    } else {
      QueueLedger(s, until, ask);
      DrainLedger(Note(s.(waiting := s.waiting + [ask]), Queued(ask.id)), until, now);
    }
  }

  lemma PendingHead(showing: Option<Showing>, waiting: seq<Ask>)
    requires showing.Some?
    ensures Pending(showing, waiting) == [showing.value.ask.id] + Pending(None, waiting)
  {
  }

  /** Settling the open prompt's request, with what was noted before it. */
  lemma SettleLedger(s: State, until: Time, m: State, outcome: Outcome)
    requires Ledger(s, until) && s.showing.Some?
    requires m.showing == s.showing && m.waiting == s.waiting
    requires InOrder(m.log) && QueuedIds(m.log) == QueuedIds(s.log) && SettledIds(m.log) == SettledIds(s.log)
    requires DenialsTold(m.denied, until, m.log) && AnsweredIds(m.log) == AnsweredIds(s.log)
    ensures var n := Note(m, Settled(s.showing.value.ask.id, outcome)).(showing := None);
            Ledger(n, until) && Owed(n) == Owed(s)
  {
    var id := s.showing.value.ask.id;
    NoteSettled(m.log, id, outcome);
    PendingHead(s.showing, s.waiting);
    assert SettledIds(s.log) + ([id] + Pending(None, s.waiting)) == (SettledIds(s.log) + [id]) + Pending(None, s.waiting);
  }

  lemma DenyLedger(s: State, until: Time, now: Time)
    requires Ledger(s, until) && s.showing.Some? && until == now
    ensures var n := DenyTo(s, s.showing.value.ask, s.showing.value.agent, now).(showing := None);
            Ledger(n, until) && Owed(n) == Owed(s)
  {
    var Showing(ask, key) := s.showing.value;
    NoteDenied(s.log, key, now);
    SettleLedger(s, until, Note(s.(denied := s.denied[key := now]), Denied(key, now)), Failed(DeniedCode));
  }

  lemma GivenLedger(s: State, until: Time, answer: Answer)
    requires Ledger(s, until) && s.showing.Some? && s.showing.value.ask.conn in s.conns
    ensures var Showing(ask, key) := s.showing.value;
            var n := SettleGranted(GivenTo(s, ask, key, answer), ask).(showing := None);
            Ledger(n, until) && Owed(n) == Owed(s)
  {
    var Showing(ask, key) := s.showing.value;
    var entry := Allowed(ask.conn, key, ask.scopes, answer == Session);
    var given := GivenTo(s, ask, key, answer);
    NoteQuiet(s.log, entry);
    GivenNotes(s, ask, key, answer, MarkAllowed(given, ask));
    SettleLedger(s, until, MarkAllowed(given, ask), Granted(GrantedTo(given, given.conns[ask.conn])));
  }

  lemma GivenNotes(s: State, ask: Ask, key: Key, answer: Answer, m: State)
    requires ask.conn in s.conns && m == MarkAllowed(GivenTo(s, ask, key, answer), ask)
    ensures m.showing == s.showing && m.waiting == s.waiting && m.denied == s.denied
    ensures m.log == s.log + [Allowed(ask.conn, key, ask.scopes, answer == Session)]
  {
  }

  lemma ResolveLedger(s: State, until: Time, answer: Answer, now: Time)
    requires Ledger(s, until) && s.showing.Some? && until == now
    ensures Ledger(Resolve(s, answer, now), until) && Owed(Resolve(s, answer, now)) == Owed(s)
  {
    var ask := s.showing.value.ask;
    if ask.conn !in s.conns {
      SettleLedger(s, until, s, Failed(Code.Revoked));
    } else if answer == Deny {
      DenyLedger(s, until, now);
    } else {
      GivenLedger(s, until, answer);
    }
  }

  lemma AnsweredLedger(s: State, until: Time, answer: Answer, now: Time)
    requires Ledger(s, until) && Prompting(s) && until == now
    ensures var n := OnAnswered(s, answer, now); Ledger(n, until) && Prompting(n) && Owed(n) == Owed(s)
  {
    if s.showing.Some? {
      ResolveLedger(s, until, answer, now);
      DrainLedger(Resolve(s, answer, now), until, now);
    }
  }

  // ------------------------------------------------------------- every other step

  /** Entries of no concern to the queue. */
  predicate Aside(entry: Entry) {
    entry.Introduced? || entry.Probed? || entry.TakenBack? || entry.Opened?
  }

  predicate SameQueue(s: State, n: State) {
    n.showing == s.showing && n.waiting == s.waiting && n.denied == s.denied
    && n.clock == s.clock && n.nextReply == s.nextReply
  }

  /** `n` is `s` after a step of no concern to the queue, which noted `noted`. */
  ghost predicate Notes(s: State, n: State, noted: seq<Entry>) {
    SameQueue(s, n) && n.log == s.log + noted && |noted| <= 1 && forall x | x in noted :: Aside(x)
  }

  lemma NotesOne(s: State, n: State, entry: Entry)
    requires SameQueue(s, n) && n.log == s.log + [entry] && Aside(entry)
    ensures Notes(s, n, [entry])
  {
  }

  lemma NotesNone(s: State, n: State)
    requires SameQueue(s, n) && n.log == s.log
    ensures Notes(s, n, [])
  {
    assert s.log + [] == s.log;
  }

  lemma OtherNotes(s: State, e: Event, n: State) returns (noted: seq<Entry>)
    requires !e.Line? && !e.Answered? && n == Machine.Step(s, e)
    ensures Notes(s, n, noted)
  {
    match e {
      case Connected(conn, peer) => noted := ConnectedNotes(s, conn, peer, n);
      case Probe(conn, tab, needs) => noted := ProbeNotes(s, conn, tab, needs, n);
      case StopPressed(_) => noted := TakesBackNotes(s, e, n);
      case RevokeAll => noted := TakesBackNotes(s, e, n);
      case SwitchedOff => noted := TakesBackNotes(s, e, n);
      case Quits(_) => noted := TakesBackNotes(s, e, n);
      case Closed(conn) => noted := ClosedNotes(s, conn, n);
      case SwitchedOn(_) => noted := NoNotes(s, e, n);
      case PersonOpens => noted := WindowNotes(s, e, n);
      case PageOpens(_, _) => noted := WindowNotes(s, e, n);
      case WindowCloses(_, _) => noted := WindowNotes(s, e, n);
      case Reopens(_) => noted := WindowNotes(s, e, n);
    }
  }

  lemma TakesBackNotes(s: State, e: Event, n: State) returns (noted: seq<Entry>)
    requires (e.StopPressed? || e.RevokeAll? || e.SwitchedOff? || e.Quits?) && n == Machine.Step(s, e)
    ensures Notes(s, n, noted)
  {
    match e {
      case StopPressed(number) => noted := StopNotes(s, number, n);
      case RevokeAll => noted := RevokeNotes(s, s.agents.Keys, n);
      case SwitchedOff => noted := ServingNotes(s, s, n);
      case Quits(browsing) => noted := QuitNotes(s, browsing, n);
    }
  }

  lemma WindowNotes(s: State, e: Event, n: State) returns (noted: seq<Entry>)
    requires (e.PersonOpens? || e.PageOpens? || e.Reopens? || e.WindowCloses?) && n == Machine.Step(s, e)
    ensures Notes(s, n, noted)
  {
    match e {
      case PersonOpens => noted := OpenNotes(s, ByPerson, n);
      case PageOpens(parent, browses) => noted := PageNotes(s, parent, browses, n);
      case Reopens(index) => noted := ReopenNotes(s, index, n);
      case WindowCloses(_, _) => noted := NoNotes(s, e, n);
    }
  }

  lemma ConnectedNotes(s: State, conn: nat, peer: Option<Key>, n: State) returns (noted: seq<Entry>)
    requires n == OnConnected(s, conn, peer)
    ensures Notes(s, n, noted)
  {
    if peer.Some? && s.serving && peer.value !in s.agents {
      noted := [Introduced(peer.value, s.nextAgent)];
      NotesOne(s, n, noted[0]);
    } else {
      noted := [];
      NotesNone(s, n);
    }
  }

  lemma ProbeNotes(s: State, conn: nat, tab: nat, needs: Option<Scope>, n: State) returns (noted: seq<Entry>)
    requires n == OnProbe(s, conn, tab, needs)
    ensures Notes(s, n, noted)
  {
    if Refusal(s, conn, needs).None? && Owns(s, s.conns[conn].agent, tab) {
      noted := [Probed(conn, s.conns[conn].agent, needs, {s.tabs[tab].window})];
      NotesOne(s, n, noted[0]);
    } else {
      noted := [];
      NotesNone(s, n);
    }
  }

  lemma ClosedNotes(s: State, conn: nat, n: State) returns (noted: seq<Entry>)
    requires n == OnClosed(s, conn)
    ensures Notes(s, n, noted)
  {
    noted := [];
    NotesNone(s, n);
  }

  lemma RevokeNotes(s: State, keys: set<Key>, n: State) returns (noted: seq<Entry>)
    requires n == Revoke(s, keys)
    ensures Notes(s, n, noted)
  {
    noted := [TakenBack(keys)];
    NotesOne(s, n, noted[0]);
  }

  lemma StopNotes(s: State, number: nat, n: State) returns (noted: seq<Entry>)
    requires n == OnStop(s, number)
    ensures Notes(s, n, noted)
  {
    if Numbered(s, number) == {} {
      noted := [];
      NotesNone(s, n);
    } else {
      noted := RevokeNotes(s, Numbered(s, number), n);
    }
  }

  /** Serving stops, from `m`, which is `s` with its session kept. */
  lemma ServingNotes(s: State, m: State, n: State) returns (noted: seq<Entry>)
    requires m == s.(kept := m.kept) && n == StopServing(m)
    ensures Notes(s, n, noted)
  {
    noted := [TakenBack(s.agents.Keys)];
    NotesOne(s, n, noted[0]);
  }

  lemma QuitNotes(s: State, browsing: bool, n: State) returns (noted: seq<Entry>)
    requires n == OnQuits(s, browsing)
    ensures Notes(s, n, noted)
  {
    var kept := if browsing then Some(Persons(s.windows, AgentWindows(s))) else s.kept;
    noted := ServingNotes(s, s.(kept := kept), n);
  }

  lemma NoNotes(s: State, e: Event, n: State) returns (noted: seq<Entry>)
    requires (e.WindowCloses? || e.SwitchedOn?) && n == Machine.Step(s, e)
    ensures Notes(s, n, noted)
  {
    noted := [];
    NotesNone(s, n);
  }

  lemma OpenNotes(s: State, opener: Opener, n: State) returns (noted: seq<Entry>)
    requires n == NewWindow(s, opener)
    ensures Notes(s, n, noted)
  {
    noted := [Opened(s.nextWindow, opener)];
    NotesOne(s, n, noted[0]);
  }

  lemma PageNotes(s: State, parent: nat, browses: bool, n: State) returns (noted: seq<Entry>)
    requires n == OnPageOpens(s, parent, browses)
    ensures Notes(s, n, noted)
  {
    noted := [Opened(s.nextWindow, ByPage(parent))];
    NotesOne(s, n, noted[0]);
  }

  lemma ReopenNotes(s: State, index: nat, n: State) returns (noted: seq<Entry>)
    requires n == OnReopens(s, index)
    ensures Notes(s, n, noted)
  {
    if index < |s.recent| {
      noted := [Opened(s.nextWindow, ByPerson)];
      NotesOne(s, n, noted[0]);
    } else {
      noted := [];
      NotesNone(s, n);
    }
  }

  /** What a step notes, if it leaves the queue alone. */
  lemma NotedLedger(s: State, until: Time, n: State, noted: seq<Entry>)
    requires Ledger(s, until) && n.log == s.log + noted
    requires n.showing == s.showing && n.waiting == s.waiting && n.denied == s.denied
    requires |noted| <= 1 && forall x | x in noted :: Aside(x)
    ensures Ledger(n, until) && Owed(n) == Owed(s)
  {
    if noted == [] {
      SameLedger(s, until, n);
    } else {
      assert noted == [noted[0]];
      AsideLedger(s, until, n, noted[0]);
    }
  }

  lemma SameLedger(s: State, until: Time, n: State)
    requires Ledger(s, until) && n.log == s.log + []
    requires n.showing == s.showing && n.waiting == s.waiting && n.denied == s.denied
    ensures Ledger(n, until) && Owed(n) == Owed(s)
  {
    assert n.log == s.log;
  }

  lemma AsideLedger(s: State, until: Time, n: State, entry: Entry)
    requires Ledger(s, until) && n.log == s.log + [entry] && Aside(entry)
    requires n.showing == s.showing && n.waiting == s.waiting && n.denied == s.denied
    ensures Ledger(n, until) && Owed(n) == Owed(s)
  {
    NoteQuiet(s.log, entry);
  }

  /** What a step notes, if it answers request `id` and leaves the queue alone. */
  lemma RepliedLedger(s: State, until: Time, n: State, last: Entry)
    requires Ledger(s, until) && (last.Replied? || last.Ran?) && n.log == s.log + [last]
    requires n.showing == s.showing && n.waiting == s.waiting && n.denied == s.denied
    ensures Ledger(n, until) && Owed(n) == Owed(s) + multiset{last.id}
  {
    NoteQuiet(s.log, last);
    OwedOneMore(AnsweredIds(s.log), Pending(s.showing, s.waiting), last.id);
  }

  /** `n` is `s` after request `id`, answered: perhaps a window opened first. */
  ghost predicate Answers(s: State, n: State, id: nat, first: seq<Entry>, last: Entry) {
    && n.showing == s.showing && n.waiting == s.waiting && n.denied == s.denied
    && n.log == (s.log + first) + [last] && (last.Replied? || last.Ran?) && last.id == id
    && |first| <= 1 && forall x | x in first :: Aside(x)
  }

  lemma RunInTabNotes(s: State, id: nat, conn: nat, key: Key, command: Command, tab: nat, works: bool)
    returns (last: Entry)
    ensures Answers(s, RunInTab(s, id, conn, key, command, tab, works), id, [], last)
  {
    assert s.log + [] == s.log;
    last := if Owns(s, key, tab) then Ran(id, conn, key, command, {s.tabs[tab].window}) else Replied(id, Failed(NoSuchTab));
  }

  lemma RunOpenNotes(s: State, id: nat, conn: nat, key: Key, command: Command, works: bool)
    returns (first: seq<Entry>, last: Entry)
    ensures Answers(s, RunOpen(s, id, conn, key, command, works), id, first, last)
  {
    assert s.log + [] == s.log;
    if works {
      first, last := [Opened(s.nextWindow, ByAgent(key))], Ran(id, conn, key, command, {s.nextWindow});
    } else {
      first, last := [], Replied(id, Failed(Code.Refused));
    }
  }

  lemma RunNotes(s: State, id: nat, conn: nat, key: Key, command: Command, works: bool, n: State)
    returns (first: seq<Entry>, last: Entry)
    requires n == RunCommand(s, id, conn, key, command, works)
    ensures Answers(s, n, id, first, last)
  {
    var tab := TabIn(command);
    first := [];
    if tab.Some? {
      last := RunInTabNotes(s, id, conn, key, command, tab.value, works);
    } else if command.Open? {
      first, last := RunOpenNotes(s, id, conn, key, command, works);
    } else {
      assert s.log + [] == s.log;
      last := Ran(id, conn, key, command, if command.Tabs? then WindowsOf(s, key) else {});
    }
  }

  lemma RunLedger(s: State, until: Time, id: nat, conn: nat, key: Key, command: Command, works: bool)
    requires Ledger(s, until) && Prompting(s)
    ensures var n := RunCommand(s, id, conn, key, command, works); Ledger(n, until) && Prompting(n) && Owed(n) == Owed(s) + multiset{id}
  {
    var n := RunCommand(s, id, conn, key, command, works);
    var first, last := RunNotes(s, id, conn, key, command, works, n);
    var m := s.(log := s.log + first);
    NotedLedger(s, until, m, first);
    RepliedLedger(m, until, n, last);
  }

  lemma RequestLedger(s: State, until: Time, id: nat, conn: nat, command: Command, works: bool, now: Time)
    requires Ledger(s, until) && Prompting(s)
    ensures var n := OnRequest(s, id, conn, command, works, now); Ledger(n, until) && Prompting(n) && Owed(n) == Owed(s) + multiset{id}
  {
    if command.Hello? {
      if conn in s.conns && !s.conns[conn].allowed {
        AskLedger(s, until, Ask(id, conn, command.scopes, true), now);
      } else {
        RepliedLedger(s, until, OnRequest(s, id, conn, command, works, now),
                      Replied(id, Failed(if conn in s.conns then BadRequest else Code.Revoked)));
      }
    } else {
      var refused := Refusal(s, conn, if command.Request? then None else command.Needs());
      if refused.Some? {
        RepliedLedger(s, until, OnRequest(s, id, conn, command, works, now), Replied(id, Failed(refused.value)));
      } else if command.Request? {
        AskLedger(s, until, Ask(id, conn, {command.scope}, false), now);
      } else {
        RunLedger(s, until, id, conn, s.conns[conn].agent, command, works);
      }
    }
  }

  /** A request line is owed exactly one answer: given at once, or to come. */
  lemma ReadLedger(s: State, until: Time, id: nat, conn: nat, read: Result<Command, Code>, works: bool, now: Time)
    requires Ledger(s, until) && Prompting(s)
    ensures var n := OnRead(s, id, conn, read, works, now); Ledger(n, until) && Prompting(n) && Owed(n) == Owed(s) + multiset{id}
  {
    if read.Err? {
      RepliedLedger(s, until, OnRead(s, id, conn, read, works, now), Replied(id, Failed(read.error)));
    } else if read.value.Bye? {
      RepliedLedger(s, until, OnRead(s, id, conn, read, works, now), Replied(id, Said));
    } else {
      RequestLedger(s, until, id, conn, read.value, works, now);
    }
  }

  lemma OtherLedger(s: State, e: Event, n: State)
    requires Ledger(s, s.clock) && Prompting(s) && !e.Line? && !e.Answered? && n == Machine.Step(s, e)
    ensures Ledger(n, n.clock) && Prompting(n) && Owed(n) == Owed(s) && n.nextReply == s.nextReply
  {
    var noted := OtherNotes(s, e, n);
    NotedLedger(s, s.clock, n, noted);
  }

  /** Each step keeps the queue's order and gives each request line exactly one
      answer, then or later. */
  lemma StepLedger(s: State, e: Event, n: State)
    requires Ledger(s, s.clock) && Prompting(s) && Feasible(s, e) && n == Machine.Step(s, e)
    ensures Ledger(n, n.clock) && Prompting(n)
    ensures Owed(n) == Owed(s) + (if e.Line? then multiset{s.nextReply} else multiset{})
    ensures n.nextReply == s.nextReply + (if e.Line? then 1 else 0)
  {
    if e.Line? {
      LaterClock(s, e.now);
      ReadLedger(s, e.now, s.nextReply, e.conn, e.read, e.works, e.now);
    } else if e.Answered? {
      LaterClock(s, e.now);
      AnsweredLedger(s, e.now, e.answer, e.now);
      AnsweredSameReply(s, e.answer, e.now);
    } else {
      OtherLedger(s, e, n);
    }
  }

  lemma LaterClock(s: State, now: Time)
    requires Ledger(s, s.clock) && s.clock <= now
    ensures Ledger(s, now)
  {
  }

  lemma {:induction false} DrainSameReply(s: State, now: Time)
    ensures Drain(s, now).nextReply == s.nextReply
    decreases |s.waiting|
  {
    if s.showing.None? && s.waiting != [] {
      DrainSameReply(TakeOne(s, now), now);
    }
  }

  lemma AnsweredSameReply(s: State, answer: Answer, now: Time)
    ensures OnAnswered(s, answer, now).nextReply == s.nextReply
  {
    if s.showing.Some? {
      DrainSameReply(Resolve(s, answer, now), now);
    }
  }

  // ------------------------------------------------------------- over every run

  function UpTo(n: nat): multiset<nat> {
    if n == 0 then multiset{} else UpTo(n - 1) + multiset{n - 1}
  }

  lemma {:induction false} UpToIs(n: nat)
    ensures forall id: nat :: UpTo(n)[id] == if id < n then 1 else 0
  {
    if n > 0 {
      UpToIs(n - 1);
    }
  }

  lemma UpToNext(before: multiset<nat>, after: multiset<nat>, n: nat, line: bool)
    requires before == UpTo(n) && after == before + if line then multiset{n} else multiset{}
    ensures after == UpTo(n + if line then 1 else 0)
  {
  }

  /** Every request line so far is owed one answer, in the queue's order. */
  ghost predicate Balanced(s: State) {
    Ledger(s, s.clock) && Prompting(s) && OwedUpTo(s, s.nextReply)
  }

  ghost predicate OwedUpTo(s: State, n: nat) {
    Owed(s) == UpTo(n)
  }

  lemma OwedAt(s: State, n: nat, id: nat)
    requires OwedUpTo(s, n)
    ensures AnsweredIds(s.log)[id] + multiset(Pending(s.showing, s.waiting))[id] == if id < n then 1 else 0
  {
    UpToIs(n);
    assert Owed(s)[id] == UpTo(n)[id];
  }

  lemma InitialBalanced()
    ensures Balanced(Initial)
  {
    assert Ids([]) == [];
  }

  lemma StillBalanced(s: State, n: State, line: bool)
    requires Balanced(s) && Ledger(n, n.clock) && Prompting(n)
    requires Owed(n) == Owed(s) + if line then multiset{s.nextReply} else multiset{}
    requires n.nextReply == s.nextReply + if line then 1 else 0
    ensures Balanced(n)
  {
    UpToNext(Owed(s), Owed(n), s.nextReply, line);
  }

  lemma {:induction false} RunBalanced(events: seq<Event>)
    requires FeasibleRun(Initial, events)
    ensures Balanced(Run(Initial, events))
  {
    if events == [] {
      InitialBalanced();
    } else {
      var before := events[..|events| - 1];
      RunBalanced(before);
      var s, e, n := Run(Initial, before), events[|events| - 1], Run(Initial, events);
      RunStep(Initial, events);
      StepLedger(s, e, n);
      StillBalanced(s, n, e.Line?);
    }
  }

  /** In every run: a queue waits only behind an open prompt; the asks queued
      were settled in the order they were queued, all but those still pending;
      and every request line has been given exactly one answer, or is the one
      pending and is still owed exactly one, whatever was taken back while it
      waited. */
  lemma AnsweredOnceInOrder(events: seq<Event>, id: nat)
    requires FeasibleRun(Initial, events)
    ensures var s := Run(Initial, events);
            && (s.waiting != [] ==> s.showing.Some?)
            && QueuedIds(s.log) == SettledIds(s.log) + Pending(s.showing, s.waiting)
            && AnsweredIds(s.log)[id] + multiset(Pending(s.showing, s.waiting))[id] ==
               (if id < s.nextReply then 1 else 0)
  {
    RunBalanced(events);
    var s := Run(Initial, events);
    OwedAt(s, s.nextReply, id);
  }

  lemma {:induction false} FollowsAt(log: seq<Entry>, i: nat)
    requires InOrder(log) && i < |log|
    ensures InOrder(log[..i]) && Follows(log[..i], log[i])
    decreases |log|
  {
    var n := |log| - 1;
    if i < n {
      FollowsAt(log[..n], i);
      assert log[..n][..i] == log[..i];
    } else {
      assert log[..i] == log[..n];
    }
  }

  lemma {:induction false} DenialsGrow(log: seq<Entry>, i: nat, key: Key)
    requires InOrder(log) && i < |log| && log[i].Denied? && log[i].agent == key
    ensures LastDenial(log, key).Some? && log[i].at <= LastDenial(log, key).value
    decreases |log|
  {
    var n := |log| - 1;
    if i < n {
      DenialsGrow(log[..n], i, key);
    }
  }

  /** In every run, no agent is prompted for within ten seconds of any denial
      of it the application noted. */
  lemma NotAskedAgainSoon(events: seq<Event>, i: nat, j: nat)
    requires FeasibleRun(Initial, events)
    ensures var log := Run(Initial, events).log;
            i < j < |log| && log[i].Denied? && log[j].Prompted? && log[i].agent == log[j].agent ==>
              log[i].at + 10_000_000_000 <= log[j].at
  {
    RunBalanced(events);
    var log := Run(Initial, events).log;
    if i < j < |log| && log[i].Denied? && log[j].Prompted? && log[i].agent == log[j].agent {
      FollowsAt(log, j);
      assert log[..j][i] == log[i];
      DenialsGrow(log[..j], i, log[i].agent);
    }
  }

  /** A denial is noted exactly when the connection that asked is still there:
      one closed while its prompt was open may ask again at once. */
  lemma DenialNoted(s: State, now: Time)
    requires Ledger(s, s.clock) && s.showing.Some? && s.clock <= now
    ensures var Showing(ask, key) := s.showing.value;
            LastDenial(OnAnswered(s, Deny, now).log, key) ==
            if ask.conn in s.conns then Some(now) else LastDenial(s.log, key)
  {
    var Showing(ask, key) := s.showing.value;
    var r := Resolve(s, Deny, now);
    LaterClock(s, now);
    ResolveLedger(s, now, Deny, now);
    if ask.conn in s.conns {
      NoteDenied(s.log, key, now);
      NoteSettled(s.log + [Denied(key, now)], ask.id, Failed(DeniedCode));
    } else {
      NoteSettled(s.log, ask.id, Failed(Code.Revoked));
    }
    DrainSameDenials(r, now, now, key);
  }

  lemma TakeSameDenials(s: State, until: Time, turn: Turn, now: Time, key: Key)
    requires Ledger(s, until) && s.waiting != [] && s.showing.None? && Due(s, turn, now)
    ensures LastDenial(Take(s, turn, now).log, key) == LastDenial(s.log, key)
  {
    var ask := s.waiting[0];
    match turn {
      case Opens(agent) => NotePrompted(s.log, ask.id, agent, ask.scopes, now);
      case Covered(granted) => NoteSettled(s.log, ask.id, Granted(granted));
      case Fails(code) => NoteSettled(s.log, ask.id, Failed(code));
    }
  }

  lemma {:induction false} DrainSameDenials(s: State, until: Time, now: Time, key: Key)
    requires Ledger(s, until)
    ensures LastDenial(Drain(s, now).log, key) == LastDenial(s.log, key)
    decreases |s.waiting|
  {
    if s.showing.None? && s.waiting != [] {
      var turn := TurnOf(s, s.waiting[0], now);
      TurnDue(s, s.waiting[0], now);
      TakeLedger(s, until, turn, now);
      TakeSameDenials(s, until, turn, now, key);
      DrainSameDenials(Take(s, turn, now), until, now, key);
    }
  }

  /** In every run, whatever the person allowed or denied was an answer to the
      one prompt open then: for that agent, and for exactly those scopes. */
  lemma AnswersArePrompts(events: seq<Event>, i: nat)
    requires FeasibleRun(Initial, events)
    ensures var log := Run(Initial, events).log;
            i < |log| ==>
              var open := OpenPrompt(log[..i]);
              && (log[i].Prompted? ==> open.None?)
              && (log[i].Allowed? ==> open.Some? && open.value.agent == log[i].agent && open.value.scopes == log[i].scopes)
              && (log[i].Denied? ==> open.Some? && open.value.agent == log[i].agent)
  {
    RunBalanced(events);
    var log := Run(Initial, events).log;
    if i < |log| {
      FollowsAt(log, i);
    }
  }
}
