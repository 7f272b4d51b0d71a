/** What is let through, kind by kind: which leave each command takes, what each
    request line is answered, when the person is asked and when not, and what
    each ask is settled with, all in terms of the history of the person's
    answers. */
module Gate {
  import opened Wrappers
  import opened Scopes
  import opened Requests
  import opened Machine
  import opened Structure
  import opened Leave
  import Prompts
  import Lists

  // ------------------------------------------------------------- leave, kind by kind

  /** The person allowed `scope` to `conn` once, or to its agent `key` for the
      session, and has not taken `key` back since. */
  ghost predicate Held(log: seq<Entry>, conn: nat, key: Key, scope: Scope) {
    exists j: nat :: AllowsAt(log, j, conn, key, scope) && NotTakenBackSince(log, j, key)
  }

  /** The leave each kind of command takes: script to run a program's own
      JavaScript, act to click, type and scroll, navigate to open, go, choose and
      close, read to see; a status takes none. */
  ghost predicate LeaveFor(log: seq<Entry>, conn: nat, key: Key, c: Command) {
    && (c.Eval? ==> Held(log, conn, key, Script))
    && (c.Click? || c.Type? || c.Scroll? ==> Held(log, conn, key, Act))
    && (c.Open? || c.Goto? || c.History? || c.Select? || c.Close? ==> Held(log, conn, key, Navigate))
    && (c.Tabs? || c.ReadPage? || c.Snapshot? || c.Screenshot? || c.Wait? ==> Held(log, conn, key, Read))
  }

  /** All the leave there is. */
  ghost function AllHeld(log: seq<Entry>, conn: nat, key: Key): set<Scope> {
    set scope | scope in {Read, Navigate, Act, Script} && Held(log, conn, key, scope)
  }

  lemma HeldIs(log: seq<Entry>, conn: nat, key: Key)
    ensures forall scope :: Held(log, conn, key, scope) <==> scope in LeaveOf(log, conn, key)
    ensures AllHeld(log, conn, key) == LeaveOf(log, conn, key)
  {
    forall scope: Scope
      ensures Held(log, conn, key, scope) <==> scope in LeaveOf(log, conn, key)
    {
      LeaveMeans(log, conn, key, scope);
    }
    forall scope | scope in LeaveOf(log, conn, key)
      ensures scope in AllHeld(log, conn, key)
    {
      OneOfFour(scope);
    }
  }

  lemma OneOfFour(scope: Scope)
    ensures scope in {Read, Navigate, Act, Script}
  {
    match scope case Read => case Navigate => case Act => case Script =>
  }

  lemma NeedsHeld(log: seq<Entry>, conn: nat, key: Key, c: Command)
    ensures (c.Needs().Some? ==> c.Needs().value in LeaveOf(log, conn, key)) <==> LeaveFor(log, conn, key, c)
  {
    HeldIs(log, conn, key);
  }

  /** In every run, each command that ran had the leave its kind takes, as the
      history was then. */
  lemma RanHadLeave(events: seq<Event>, i: nat)
    requires FeasibleRun(Initial, events)
    ensures var log := Run(Initial, events).log;
            i < |log| && log[i].Ran? ==> LeaveFor(log[..i], log[i].conn, log[i].agent, log[i].command)
  {
    RunIsHonest(events);
    var log := Run(Initial, events).log;
    if i < |log| && log[i].Ran? {
      ProperAt(log, i);
      NeedsHeld(log[..i], log[i].conn, log[i].agent, log[i].command);
    }
  }

  // ------------------------------------------------------------- commands

  /** The kinds of command that work in one tab. */
  predicate InOneTab(c: Command) {
    || c.ReadPage? || c.Snapshot? || c.Screenshot? || c.Wait? || c.Goto? || c.History?
    || c.Select? || c.Close? || c.Click? || c.Type? || c.Scroll? || c.Eval?
  }

  predicate Plain(c: Command) {
    InOneTab(c) || c.Open? || c.Tabs? || c.Status?
  }

  /** `conn` was allowed, and holds the leave for `c`. */
  ghost predicate Through(s: State, conn: nat, c: Command) {
    conn in s.conns && s.conns[conn].allowed && LeaveFor(s.log, conn, s.conns[conn].agent, c)
  }

  /** Why `c` is not let through: its connection is gone, was not allowed, or has
      no leave for that kind. */
  lemma RefusalIs(s: State, conn: nat, c: Command)
    requires Sound(s) && Honest(s)
    ensures var r := Refusal(s, conn, c.Needs());
            && (r.None? <==> Through(s, conn, c))
            && (r == Some(Code.Revoked) <==> conn !in s.conns)
            && (r == Some(NotApproved) <==> conn in s.conns && !s.conns[conn].allowed)
            && (r == Some(NotGranted) <==> conn in s.conns && s.conns[conn].allowed && !Through(s, conn, c))
  {
    if conn in s.conns {
      var key := s.conns[conn].agent;
      NeedsHeld(s.log, conn, key, c);
      assert LeaveOf(s.log, conn, key) == GrantedTo(s, s.conns[conn]);
    }
  }

  /** Why it is refused, if it is, and that is all that happens. */
  lemma RefusedLine(s: State, conn: nat, c: Command, works: bool, now: Time)
    requires Sound(s) && Honest(s) && Plain(c) && !Through(s, conn, c)
    ensures var n := OnRequest(s, s.nextReply, conn, c, works, now);
            && n.windows == s.windows && n.tabs == s.tabs && n.conns == s.conns
            && n.log == s.log + [Replied(s.nextReply, Failed(
                                   if conn !in s.conns then Code.Revoked
                                   else if !s.conns[conn].allowed then NotApproved else NotGranted))]
  {
    RefusalIs(s, conn, c);
  }

  /** `c` in a tab: only in one that is the agent's, and it reaches that tab's
      window, which a Close takes away. */
  lemma InTabLine(s: State, conn: nat, c: Command, works: bool, now: Time)
    requires Sound(s) && Honest(s) && InOneTab(c) && Through(s, conn, c)
    ensures var n, key := OnRequest(s, s.nextReply, conn, c, works, now), s.conns[conn].agent;
            && n.conns == s.conns
            && if c.tab in s.tabs && s.tabs[c.tab].agent == key then
                 var window := s.tabs[c.tab].window;
                 && n.log == s.log + [Ran(s.nextReply, conn, key, c, {window})]
                 && (!(c.Close? && works) ==> n.tabs == s.tabs && n.windows == s.windows)
                 && (c.Close? && works ==>
                       n.tabs == s.tabs - {c.tab} && forall w :: w in n.windows <==> w in s.windows && w != window)
               else
                 n.tabs == s.tabs && n.windows == s.windows
                 && n.log == s.log + [Replied(s.nextReply, Failed(NoSuchTab))]
  {
    var key := s.conns[conn].agent;
    RefusalIs(s, conn, c);
    assert TabIn(c) == Some(c.tab);
    assert OnRequest(s, s.nextReply, conn, c, works, now) == RunInTab(s, s.nextReply, conn, key, c, c.tab, works);
    if c.tab in s.tabs && c.Close? && works {
      ClosedTab(s, c.tab);
    }
  }

  lemma ClosedTab(s: State, t: nat)
    requires Sound(s) && t in s.tabs
    ensures var n := Forget(s, s.tabs[t].window, true);
            n.tabs == s.tabs - {t} && forall w :: w in n.windows <==> w in s.windows && w != s.tabs[t].window
  {
    Lists.WithoutIs(s.windows, s.tabs[t].window);
  }

  /** An agent's own tab opened, in a window of its own; or refused. */
  lemma OpenLine(s: State, conn: nat, c: Command, works: bool, now: Time)
    requires Sound(s) && Honest(s) && c.Open? && Through(s, conn, c)
    ensures var n, key := OnRequest(s, s.nextReply, conn, c, works, now), s.conns[conn].agent;
            && n.conns == s.conns
            && if works then
                 && n.log == s.log + [Opened(s.nextWindow, ByAgent(key)), Ran(s.nextReply, conn, key, c, {s.nextWindow})]
                 && n.windows == s.windows + [s.nextWindow] && n.tabs == s.tabs[s.nextTab := Tab(key, s.nextWindow)]
               else
                 n.tabs == s.tabs && n.windows == s.windows
                 && n.log == s.log + [Replied(s.nextReply, Failed(Code.Refused))]
  {
    RefusalIs(s, conn, c);
  }

  /** A list of tabs is of the agent's own, all of them; a status is of none. */
  lemma ListLine(s: State, conn: nat, c: Command, works: bool, now: Time)
    requires Sound(s) && Honest(s) && (c.Tabs? || c.Status?) && Through(s, conn, c)
    ensures var n, key := OnRequest(s, s.nextReply, conn, c, works, now), s.conns[conn].agent;
            var own := set t | t in s.tabs && s.tabs[t].agent == key :: s.tabs[t].window;
            && n.conns == s.conns && n.tabs == s.tabs && n.windows == s.windows
            && n.log == s.log + [Ran(s.nextReply, conn, key, c, if c.Tabs? then own else {})]
  {
    RefusalIs(s, conn, c);
  }

  /** `last` is what `c` is answered, as the leave of its connection has it. */
  ghost predicate AnsweredAsHeld(s: State, conn: nat, c: Command, works: bool, last: Entry) {
    && (last.Ran? && last.id == s.nextReply <==>
          && Through(s, conn, c)
          && (InOneTab(c) ==> c.tab in s.tabs && s.tabs[c.tab].agent == s.conns[conn].agent)
          && (c.Open? ==> works))
    && (last == Replied(s.nextReply, Failed(NotGranted)) <==>
          conn in s.conns && s.conns[conn].allowed && !LeaveFor(s.log, conn, s.conns[conn].agent, c))
  }

  /** And that is the last a line saying `c` leaves in the history. */
  ghost predicate LineAnsweredAsHeld(s: State, conn: nat, c: Command, works: bool, now: Time) {
    var log := Machine.Step(s, Line(conn, Ok(c), works, now)).log;
    log != [] && AnsweredAsHeld(s, conn, c, works, log[|log| - 1])
  }

  lemma LastOf(log: seq<Entry>, first: seq<Entry>, last: Entry)
    requires log == first + [last]
    ensures log != [] && log[|log| - 1] == last
  {
  }

  lemma RequestAnswered(s: State, conn: nat, c: Command, works: bool, now: Time, log: seq<Entry>)
    requires Sound(s) && Honest(s) && Plain(c) && log == OnRequest(s, s.nextReply, conn, c, works, now).log
    ensures log != [] && AnsweredAsHeld(s, conn, c, works, log[|log| - 1])
  {
    if !Through(s, conn, c) {
      RefusedAnswered(s, conn, c, works, now, log);
    } else if InOneTab(c) {
      InTabAnswered(s, conn, c, works, now, log);
    } else if c.Open? {
      OpenLine(s, conn, c, works, now);
      var key := s.conns[conn].agent;
      if works {
        var ran := Ran(s.nextReply, conn, key, c, {s.nextWindow});
        assert log == (s.log + [Opened(s.nextWindow, ByAgent(key))]) + [ran];
        LastOf(log, s.log + [Opened(s.nextWindow, ByAgent(key))], ran);
      } else {
        LastOf(log, s.log, Replied(s.nextReply, Failed(Code.Refused)));
      }
    } else {
      ListLine(s, conn, c, works, now);
    }
  }

  lemma RefusedAnswered(s: State, conn: nat, c: Command, works: bool, now: Time, log: seq<Entry>)
    requires Sound(s) && Honest(s) && Plain(c) && log == OnRequest(s, s.nextReply, conn, c, works, now).log
    requires !Through(s, conn, c)
    ensures log != [] && AnsweredAsHeld(s, conn, c, works, log[|log| - 1])
  {
    RefusedLine(s, conn, c, works, now);
  }

  lemma InTabAnswered(s: State, conn: nat, c: Command, works: bool, now: Time, log: seq<Entry>)
    requires Sound(s) && Honest(s) && InOneTab(c) && log == OnRequest(s, s.nextReply, conn, c, works, now).log
    requires Through(s, conn, c)
    ensures log != [] && AnsweredAsHeld(s, conn, c, works, log[|log| - 1])
  {
    InTabLine(s, conn, c, works, now);
  }

  lemma PlainStep(s: State, conn: nat, c: Command, works: bool, now: Time)
    requires Plain(c)
    ensures Machine.Step(s, Line(conn, Ok(c), works, now)).log == OnRequest(s, s.nextReply, conn, c, works, now).log
  {
  }

  /** In every run, a command is done if and only if its connection was allowed
      and holds the leave its kind takes, the tab it works in is its agent's, and
      it could be opened; and it is answered that it was not granted exactly when
      the connection was allowed without that leave. */
  lemma CommandAnswered(events: seq<Event>, conn: nat, c: Command, works: bool, now: Time)
    requires FeasibleRun(Initial, events) && Plain(c)
    ensures LineAnsweredAsHeld(Run(Initial, events), conn, c, works, now)
  {
    RunIsHonest(events);
    StepAnswered(Run(Initial, events), conn, c, works, now);
  }

  lemma StepAnswered(s: State, conn: nat, c: Command, works: bool, now: Time)
    requires Sound(s) && Honest(s) && Plain(c)
    ensures LineAnsweredAsHeld(s, conn, c, works, now)
  {
    PlainStep(s, conn, c, works, now);
    RequestAnswered(s, conn, c, works, now, OnRequest(s, s.nextReply, conn, c, works, now).log);
  }

  /** A line that is no request is answered why, and a goodbye said, and nothing
      else happens. */
  lemma NoRequest(s: State, conn: nat, read: Result<Command, Code>, works: bool, now: Time)
    requires read.Err? || read.value.Bye?
    ensures Machine.Step(s, Line(conn, read, works, now)) ==
            s.(clock := now, nextReply := s.nextReply + 1,
               log := s.log + [Replied(s.nextReply, if read.Err? then Failed(read.error) else Said)])
  {
  }

  // ------------------------------------------------------------- asks

  /** All `scopes` are held already. */
  ghost predicate AllOf(log: seq<Entry>, conn: nat, key: Key, scopes: set<Scope>) {
    forall scope | scope in scopes :: Held(log, conn, key, scope)
  }

  /** The person denied `key` less than ten seconds before `now`. */
  ghost predicate DeniedLately(log: seq<Entry>, key: Key, now: Time) {
    Prompts.LastDenial(log, key).Some? && now < Prompts.LastDenial(log, key).value + 10_000_000_000
  }

  /** Connections as they were, but for `conn` allowed if `hello`. */
  predicate OnlyAllows(conns: map<nat, Conn>, after: map<nat, Conn>, conn: nat, hello: bool) {
    && after.Keys == conns.Keys
    && (forall c | c in conns :: after[c].agent == conns[c].agent && after[c].once == conns[c].once)
    && (forall c | c in conns :: after[c].allowed <==> conns[c].allowed || (hello && c == conn))
  }

  lemma CoveredIs(s: State, conn: nat, scopes: set<Scope>)
    requires Sound(s) && Honest(s) && conn in s.conns
    ensures var key := s.conns[conn].agent;
            && (scopes <= GrantedTo(s, s.conns[conn]) <==> AllOf(s.log, conn, key, scopes))
            && GrantedTo(s, s.conns[conn]) == AllHeld(s.log, conn, key)
  {
    HeldIs(s.log, conn, s.conns[conn].agent);
  }

  lemma LatelyIs(s: State, until: Time, key: Key, now: Time)
    requires Prompts.Ledger(s, until)
    ensures key in s.denied && now < s.denied[key] + AFTER_DENIAL <==> DeniedLately(s.log, key, now)
  {
  }

  /** What becomes of the ask at the head of the queue when no prompt is open. Its
      prompt opens if and only if its connection is there, it asks for something
      not held already, and its agent was not denied in the last ten seconds;
      otherwise it is settled: revoked if its connection is gone, granted, with
      all that is held, if that is all it asks, and denied if it was lately. */
  lemma HeadOpens(s: State, until: Time, now: Time)
    requires Sound(s) && Honest(s) && Prompts.Ledger(s, until) && s.showing.None? && s.waiting != []
    ensures var ask, n := s.waiting[0], TakeOne(s, now);
            && n.waiting == s.waiting[1..]
            && if ask.conn !in s.conns then
                 n.showing.None? && n.conns == s.conns && n.log == s.log + [Settled(ask.id, Failed(Code.Revoked))]
               else
                 var key := s.conns[ask.conn].agent;
                 if AllOf(s.log, ask.conn, key, ask.scopes) then
                   && n.showing.None? && OnlyAllows(s.conns, n.conns, ask.conn, ask.hello)
                   && n.log == s.log + [Settled(ask.id, Granted(AllHeld(s.log, ask.conn, key)))]
                 else if DeniedLately(s.log, key, now) then
                   n.showing.None? && n.conns == s.conns && n.log == s.log + [Settled(ask.id, Failed(DeniedCode))]
                 else
                   && n.showing == Some(Showing(ask, key)) && n.conns == s.conns
                   && n.log == s.log + [Prompted(ask.id, key, ask.scopes, now)]
  {
    var ask := s.waiting[0];
    if ask.conn in s.conns {
      CoveredIs(s, ask.conn, ask.scopes);
      LatelyIs(s, until, s.conns[ask.conn].agent, now);
    }
  }

  /** An ask with all it asks for held already waits for no one's prompt. */
  lemma HeldAtOnce(s: State, ask: Ask, now: Time)
    requires Sound(s) && Honest(s) && ask.conn in s.conns
    requires AllOf(s.log, ask.conn, s.conns[ask.conn].agent, ask.scopes)
    ensures var n := OnAsk(s, ask, now);
            && n.showing == s.showing && n.waiting == s.waiting && OnlyAllows(s.conns, n.conns, ask.conn, ask.hello)
            && n.log == s.log + [Replied(ask.id, Granted(AllHeld(s.log, ask.conn, s.conns[ask.conn].agent)))]
  {
    CoveredIs(s, ask.conn, ask.scopes);
  }

  /** Any other waits behind an open prompt. */
  lemma WaitsBehind(s: State, ask: Ask, now: Time)
    requires Sound(s) && Honest(s) && ask.conn in s.conns && s.showing.Some?
    requires !AllOf(s.log, ask.conn, s.conns[ask.conn].agent, ask.scopes)
    ensures var n := OnAsk(s, ask, now);
            && n.showing == s.showing && n.waiting == s.waiting + [ask] && n.conns == s.conns
            && n.log == s.log + [Queued(ask.id)]
  {
    CoveredIs(s, ask.conn, ask.scopes);
  }

  /** And with none open, is asked of the person at once, unless its agent was
      denied in the last ten seconds. */
  lemma AskedAtOnce(s: State, until: Time, ask: Ask, now: Time)
    requires Sound(s) && Honest(s) && Prompts.Ledger(s, until) && s.showing.None? && s.waiting == []
    requires ask.conn in s.conns && !AllOf(s.log, ask.conn, s.conns[ask.conn].agent, ask.scopes)
    ensures var n, key := OnAsk(s, ask, now), s.conns[ask.conn].agent;
            && n.waiting == [] && n.conns == s.conns
            && if DeniedLately(s.log, key, now) then
                 n.showing.None? && n.log == (s.log + [Queued(ask.id)]) + [Settled(ask.id, Failed(DeniedCode))]
               else
                 && n.showing == Some(Showing(ask, key))
                 && n.log == (s.log + [Queued(ask.id)]) + [Prompted(ask.id, key, ask.scopes, now)]
  {
    CoveredIs(s, ask.conn, ask.scopes);
    LatelyIs(s, until, s.conns[ask.conn].agent, now);
    var q := Note(s.(waiting := [ask]), Queued(ask.id));
    assert s.waiting + [ask] == [ask];
    assert OnAsk(s, ask, now) == Drain(q, now);
    var t := TakeOne(q, now);
    assert t.waiting == [];
    assert Drain(q, now) == Drain(t, now) == t;
  }

  /** Which lines ask the person, and for what; why the others are refused. */
  lemma WhoMayAsk(s: State, id: nat, conn: nat, c: Command, works: bool, now: Time)
    requires c.Hello? || c.Request?
    ensures var n := OnRequest(s, id, conn, c, works, now);
            if conn !in s.conns then n == Note(s, Replied(id, Failed(Code.Revoked)))
            else if c.Hello? && s.conns[conn].allowed then n == Note(s, Replied(id, Failed(BadRequest)))
            else if c.Request? && !s.conns[conn].allowed then n == Note(s, Replied(id, Failed(NotApproved)))
            else n == OnAsk(s, Ask(id, conn, if c.Hello? then c.scopes else {c.scope}, c.Hello?), now)
  {
  }

  /** What `c` asks for, if it asks. */
  function AskedFor(c: Command): set<Scope>
    requires c.Hello? || c.Request?
  {
    if c.Hello? then c.scopes else {c.scope}
  }

  /** A prompt for what `c` asks is due. */
  ghost predicate PromptDue(s: State, conn: nat, c: Command, now: Time)
    requires c.Hello? || c.Request?
  {
    && conn in s.conns && (c.Hello? <==> !s.conns[conn].allowed)
    && !AllOf(s.log, conn, s.conns[conn].agent, AskedFor(c)) && !DeniedLately(s.log, s.conns[conn].agent, now)
  }

  lemma DueOpens(s: State, until: Time, conn: nat, c: Command, works: bool, now: Time, showing: Option<Showing>)
    requires Sound(s) && Honest(s) && Prompts.Ledger(s, until) && s.showing.None? && s.waiting == []
    requires (c.Hello? || c.Request?) && showing == OnRequest(s, s.nextReply, conn, c, works, now).showing
    ensures showing.Some? <==> PromptDue(s, conn, c, now)
    ensures showing.Some? ==>
              showing == Some(Showing(Ask(s.nextReply, conn, AskedFor(c), c.Hello?), s.conns[conn].agent))
  {
    WhoMayAsk(s, s.nextReply, conn, c, works, now);
    if conn in s.conns && (c.Hello? <==> !s.conns[conn].allowed) {
      var ask := Ask(s.nextReply, conn, AskedFor(c), c.Hello?);
      if AllOf(s.log, conn, s.conns[conn].agent, ask.scopes) {
        HeldAtOnce(s, ask, now);
      } else {
        AskedAtOnce(s, until, ask, now);
      }
    }
  }

  lemma AskStep(s: State, conn: nat, c: Command, works: bool, now: Time)
    requires c.Hello? || c.Request?
    ensures Machine.Step(s, Line(conn, Ok(c), works, now)).showing
            == OnRequest(s, s.nextReply, conn, c, works, now).showing
  {
  }

  /** In every run, a hello not said before, or a request from a connection
      allowed, opens a prompt for just what it asks if and only if none is open,
      some of it is not held, and its agent was not denied in the last ten
      seconds. */
  lemma PromptOpensWhenDue(events: seq<Event>, conn: nat, c: Command, works: bool, now: Time)
    requires FeasibleRun(Initial, events) && (c.Hello? || c.Request?) && Run(Initial, events).showing.None?
    ensures var s := Run(Initial, events);
            var showing := Machine.Step(s, Line(conn, Ok(c), works, now)).showing;
            && (showing.Some? <==> PromptDue(s, conn, c, now))
            && (showing.Some? ==>
                  showing == Some(Showing(Ask(s.nextReply, conn, AskedFor(c), c.Hello?), s.conns[conn].agent)))
  {
    var s := Run(Initial, events);
    RunIsHonest(events);
    Prompts.RunBalanced(events);
    AskStep(s, conn, c, works, now);
    DueOpens(s, s.clock, conn, c, works, now, OnRequest(s, s.nextReply, conn, c, works, now).showing);
  }

  // ------------------------------------------------------------- answers

  /** No answer helps an asker that is gone; and a denial is noted as it settles. */
  lemma RefusalSettles(s: State, answer: Answer, now: Time)
    requires s.showing.Some? && (s.showing.value.ask.conn !in s.conns || answer == Deny)
    ensures var Showing(ask, key) := s.showing.value;
            var r := Resolve(s, answer, now);
            && r.showing.None? && r.waiting == s.waiting && r.conns == s.conns
            && r.log == if ask.conn !in s.conns then s.log + [Settled(ask.id, Failed(Code.Revoked))]
                        else (s.log + [Denied(key, now)]) + [Settled(ask.id, Failed(DeniedCode))]
  {
  }

  /** An answer that allows settles the open prompt's ask as granted, with all
      that was held and what was asked; and a hello so granted, and nothing else,
      allows its connection. */
  lemma GrantSettles(s: State, answer: Answer, now: Time)
    requires Sound(s) && Honest(s) && s.showing.Some? && s.showing.value.ask.conn in s.conns && answer != Deny
    ensures var Showing(ask, key) := s.showing.value;
            var r := Resolve(s, answer, now);
            && r.showing.None? && r.waiting == s.waiting && r.conns.Keys == s.conns.Keys
            && (forall c | c in s.conns :: r.conns[c].allowed <==> s.conns[c].allowed || (ask.hello && c == ask.conn))
            && r.log == (s.log + [Allowed(ask.conn, key, ask.scopes, answer == Session)])
                        + [Settled(ask.id, Granted(AllHeld(s.log, ask.conn, key) + ask.scopes))]
  {
    var Showing(ask, key) := s.showing.value;
    var given := GivenTo(s, ask, key, answer);
    CoveredIs(s, ask.conn, ask.scopes);
    GivenAdds(s, answer, ask.conn);
    GivenAllows(s, ask, key, answer);
    SettledIs(s, given, ask, Allowed(ask.conn, key, ask.scopes, answer == Session));
  }

  lemma SettledIs(s: State, given: State, ask: Ask, entry: Entry)
    requires ask.conn in given.conns && given.log == s.log + [entry]
    ensures var r := SettleGranted(given, ask);
            && r.log == (s.log + [entry]) + [Settled(ask.id, Granted(GrantedTo(given, given.conns[ask.conn])))]
            && r.conns.Keys == given.conns.Keys
            && forall c | c in given.conns :: r.conns[c].allowed <==> given.conns[c].allowed || (ask.hello && c == ask.conn)
  {
  }

  lemma GivenAllows(s: State, ask: Ask, key: Key, answer: Answer)
    requires ask.conn in s.conns
    ensures var g := GivenTo(s, ask, key, answer);
            g.conns.Keys == s.conns.Keys && forall c | c in s.conns :: g.conns[c].allowed == s.conns[c].allowed
  {
  }
}
