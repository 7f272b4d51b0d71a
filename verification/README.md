# Syndeo's browser: agents, tabs, limits and codecs, modelled in Dafny

Syndeo is a macOS browser over a caching proxy. A program of the same user may
ask to drive tabs of its own in it: an *agent*. This project models what the
browser promises about agents, about the tabs it keeps and opens again, about
the limits and lists it keeps, and two byte codecs of its continuous
integration, and proves those promises for every input and every run.

Verify everything with `dafny verify dfyconfig.toml`.

## How it is put together

**The permission protocol.** `Machine` is a state machine: connections, agents,
their tabs, what was allowed to a connection or for the session, the queue of
prompts, denials, Recently Closed and the session kept at quit. Its events are
the jobs of the main thread, the person's answers, Stop and Revoke, the switch,
and windows opening and closing. An open prompt is part of the state, because
the dialog goes on running every other job while it is open. `log` is a history
nobody reads; the safety theorems are about it. `Structure`, `Leave`, `Prompts`
and `Ownership` prove what every run keeps. `Gate` says, in terms of the history
alone, what each request line is answered, when a prompt opens and what each ask
is settled with; `Effects` what every other step does, and for how long a tab
stays an agent's. `Requests` and `Scopes` are the parser and the byte of scopes
that several of those theorems rest on.

`Control` is the program's own object, fields updated in place, with the real
call structure: a job handled calls the drain loop, which opens a prompt, whose
run loop handles further jobs before the person's answer is applied. Its class
invariant says that its state is what the machine makes of the events so far,
so every theorem about runs holds of it. The person is a script of modal
sessions: for each prompt, the jobs that run while it is open, the answer, and
how long it took; the theorems hold for every script. The class's smaller
methods each do one step of the machine, as their contracts say; the table lists
those that do more.

**Tabs, the session and relaunch.** `Strips` is one window's strip of tabs,
pinned first. `SessionText` is what of a session is kept, how it is printed and
how it is read back. `Relaunch` collects a session from the windows, and opens
it tab by tab again; its main theorem runs all of it in a circle. `Collected`
says which tabs a session is made of, and that none is an agent's.

**Limits and lists.** `Bucket` is the rate limit, `Lines` the line reader over
a chunked, interruptible stream, `Address` the address field's rules, `Direct`
the domains sent around the proxy, `Reloads` a window's automatic reloads,
`Routes` the masked address ranges, `Hosts` the hosts a window remembers.

**Codecs.** `Png` reads a picture's first rows (section 6 of RFC 2083), undoing
filters in place; `WebSocket` reads and writes frames and echoes them
(sections 5.2 and 5.3 of RFC 6455).

`Wrappers`, `Lists`, `Text` and `Bytes` hold what these share: options and
results, sequences without an element, splitting, trimming and printing text,
and big-endian numbers.

Code that changes things step by step is a method or a class here, proved
against a function of its inputs or old state; the theorems are lemmas about
that function.

Where the code and its comments differ, the code is followed. Two such places,
each with an input that shows it and what holds instead, for all inputs: a list
of scopes is described as naming none twice, but a scope named twice is read as
once (`TwiceIsRead`, `NamedAgain`); and `kept` is described as keeping the tab
in front in front, but of two equal tabs it puts the first in front
(`EqualTabsMove`), and keeps the very tab in front exactly if no tab before it
equals it (`FrontItself`).

## Model

| member | source | states |
|---|---|---|
| `Gate.RanHadLeave` | crates/syndeo-app/src/agent.rs:367-386 | In every run, each command that ran had, in the history as it was then, an answer allowing what its kind takes and not taken back since: script to run JavaScript; act to click, type or scroll; navigate to open, go, move through history, choose or close; read to list, read, snapshot, picture or wait; a status takes none |
| `Gate.CommandAnswered` | crates/syndeo-app/src/control_macos.rs:794-855 | In every run, a command is done if and only if its connection was allowed and holds what its kind takes, the tab it works in is its agent's, and it could be opened; and it is answered not_granted exactly when its connection was allowed without that leave |
| `Gate.RefusedLine` | crates/syndeo-app/src/control_macos.rs:794-850 | A command not let through is answered why, gone, not allowed or not granted, in that order, and changes nothing else |
| `Gate.InTabLine` | crates/syndeo-app/src/control_macos.rs:1152-1165 | Let through, a command in a tab reaches exactly that tab's window if it is its agent's, and is answered that there is no such tab otherwise; Close, and only Close, takes the tab and its window away |
| `Gate.OpenLine` | crates/syndeo-app/src/control_macos.rs:1314-1339 | Let through, an open that works adds one window and makes it a tab of the agent's, under the next number; one that does not changes nothing |
| `Gate.ListLine` | crates/syndeo-app/src/control_macos.rs:1200-1239 | Let through, a list of tabs reaches exactly its agent's windows, and a status none |
| `Gate.NoRequest` | crates/syndeo-app/src/control_macos.rs:326-411 | A line that is no request is answered why, a goodbye is said, and nothing else changes |
| `Gate.PromptOpensWhenDue` | crates/syndeo-app/src/control_macos.rs:858-908 | In every run with no prompt open, a hello not said before, or a request of an allowed connection, opens a prompt, for its agent and exactly what it asks, if and only if some of that is not held already and the agent was not denied in the ten seconds before |
| `Gate.HeadOpens` | crates/syndeo-app/src/control_macos.rs:877-908 | With no prompt open, the ask at the head of the queue opens its prompt if and only if its connection is there, it asks for something not held, and its agent was not denied in the ten seconds before; it is settled as revoked exactly if its connection is gone, as granted, with all that is held, exactly if that covers it, and as denied exactly if it does not and the denial is that recent |
| `Gate.HeldAtOnce` | crates/syndeo-app/src/control_macos.rs:858-862 | What is held already is answered at once with all that is held, whatever prompt is open, and a hello so answered, and nothing else, allows its connection |
| `Gate.WaitsBehind` | crates/syndeo-app/src/control_macos.rs:863-866 | Any other ask waits last behind the open prompt |
| `Gate.AskedAtOnce` | crates/syndeo-app/src/control_macos.rs:863-908 | With no prompt open it is asked of the person at once, unless its agent was denied in the ten seconds before |
| `Gate.WhoMayAsk` | crates/syndeo-app/src/control_macos.rs:794-834 | Which lines ask, and for what: a hello not said before, for its scopes, and a request of an allowed connection, for its scope; the others are refused, and why |
| `Gate.GrantSettles` | crates/syndeo-app/src/control_macos.rs:928-963 | An answer that allows settles the ask as granted, with all that was held and what was asked; and a hello so granted, and nothing else, allows its connection |
| `Gate.RefusalSettles` | crates/syndeo-app/src/control_macos.rs:911-927 | An asker that is gone is told so, whatever the answer; a denial is noted with its time, and settles as denied |
| `Leave.CommandsHadLeave` | crates/syndeo-app/src/control_macos.rs:785-963 | In every run, whatever happened while prompts were open or between the probes of one wait: a command or a probe that needs a scope and was let through has an earlier answer by the person to a prompt for that agent with that scope, once for this very connection or for the agent's session, and nothing of that agent's was taken back since |
| `Leave.DoneHadSomeLeave` | crates/syndeo-app/src/control_macos.rs:1175-1196 | In every run nothing at all was done for a connection, not even a command or a probe that needs no scope, unless something had been allowed to it or to its agent for the session and not taken back since |
| `Leave.LeaveMeans` | crates/syndeo-app/src/control_macos.rs:785-792 | A scope is in what the history leaves a connection, folded step by step, if and only if some answer allowed it to that connection or its agent's session and no later revoke named the agent |
| `Leave.RefusalExact` | crates/syndeo-app/src/control_macos.rs:794-855 | Between any two steps, a request for a scope is let through if and only if the connection is there, was allowed, and the history leaves it that scope; every other request is refused |
| `Leave.AnswerAdds` | crates/syndeo-app/src/control_macos.rs:877-953 | An answer to the open prompt gives each connection exactly this: Once, the prompt's scopes to the connection that asked; Session, to every connection of the prompted agent; Deny, or an asker gone, nothing to anyone, also through the drain of the queue that follows |
| `Leave.RevokedPromptGivesNothing` | crates/syndeo-app/src/control_macos.rs:877-953 | Revoke the agent whose prompt is open, then let anything happen but an answer: the prompt is still open, and whichever answer comes then gives no connection anything |
| `Leave.ScriptAlone` | crates/syndeo-app/src/agent.rs:191-206 | In every run, any prompt that asks for script and any answer that allows it is for script alone, because no hello that parses holds it |
| `Leave.AllowedWasGiven` | crates/syndeo-app/src/control_macos.rs:807-817 | In every run a connection is allowed only if some scope was allowed to it or its agent and not taken back: no hello is waved through by an empty set of scopes |
| `Leave.RunIsHonest` | crates/syndeo-app/src/control_macos.rs:785-963 | In every run the grants the machine keeps are those its history of answers and revokes leaves |
| `Leave.StepHonest` | crates/syndeo-app/src/control_macos.rs:680-700 | One step of any kind keeps that agreement |
| `Prompts.AnsweredOnceInOrder` | crates/syndeo-app/src/control_macos.rs:858-875 | In every run: if an ask waits then a prompt is open; asks are settled in the order they were queued; and each request line read is answered exactly once or is still pending exactly once, never both, also when its connection is revoked while it waits |
| `Prompts.NotAskedAgainSoon` | crates/syndeo-app/src/control_macos.rs:890-901 | In every run, a prompt for an agent comes at least ten seconds after every denial of that agent before it |
| `Prompts.DenialNoted` | crates/syndeo-app/src/control_macos.rs:921-927 | Denying the open prompt is what sets the agent's last denial to now, through the drain that follows; if the asker is gone meanwhile, no denial is noted |
| `Prompts.AnswersArePrompts` | crates/syndeo-app/src/control_macos.rs:909-953 | In every run at most one prompt is open, and each answer allowed or denied is about the agent and, allowed, exactly the scopes of the prompt open just before it |
| `Prompts.StepLedger` | crates/syndeo-app/src/control_macos.rs:858-953 | Each step keeps the order of the queue, and adds to what is answered or pending exactly the request line it read, if it read one |
| `Structure.RunKeeps` | crates/syndeo-app/src/control_macos.rs:652-781 | In every run: each connection's and tab's agent is known; an agent is kept only with a connection or something allowed for the session; agents' and tabs' numbers are distinct and below the next; no two tabs share a window; the keep-awake token is held exactly while a connection exists; and switched off, connections, agents and tabs are all empty |
| `Structure.StepKeeps` | crates/syndeo-app/src/control_macos.rs:680-781 | Each step the world can take keeps all of that |
| `Structure.StopServingKeeps` | crates/syndeo-app/src/control_macos.rs:663-678 | Switching off, or quitting, leaves no connection, no agent and no tab of one, at any moment, also with a prompt open |
| `Effects.TabStays` | crates/syndeo-app/src/control_macos.rs:1034-1097 | In every run, a tab an agent has after any of its events is that agent's in the end if and only if no event since closed its window, by the person or by a Close the agent had leave for, took the agent back, or closed the agent's last connection with nothing allowed it for the session |
| `Effects.StepEnds` | crates/syndeo-app/src/control_macos.rs:1034-1097 | One step ends that a tab is its agent's if and only if it is one of those |
| `Effects.PageOpensIs` | crates/syndeo-app/src/control_macos.rs:1099-1118 | A page opens one window, last; it is the agent's if and only if the window browses and the page is in that agent's tab; every other window keeps its owner |
| `Effects.OpenIs` | crates/syndeo-app/src/control_macos.rs:1314-1339 | What an agent opens is that agent's |
| `Effects.PersonOpensIs` | crates/syndeo-app/src/app_macos.rs:734-745 | What the person opens is nobody's tab, and no window changes owner |
| `Effects.StopIs` | crates/syndeo-app/src/control_macos.rs:1055-1066 | Stop with an agent's number takes away exactly that agent's connections, tabs and leave, and nothing else; with a number no agent has, nothing |
| `Effects.RevokeAllIs` | crates/syndeo-app/src/control_macos.rs:1809-1818 | Revoke All takes away every agent's |
| `Effects.SwitchIs` | crates/syndeo-app/src/control_macos.rs:1471-1490 | Switched off, every agent's is taken away and none is served; switched on, all is as it was but that it serves, if the socket came up |
| `Effects.QuitIs` | crates/syndeo-app/src/app_macos.rs:417-428 | Quitting does as much, and keeps the session of the windows as they were |
| `Effects.ConnectedIs` | crates/syndeo-app/src/control_macos.rs:721-754 | A peer is connected if and only if it has an agent and the server is on; it begins with no leave of its own, and an agent not known yet is given the next number |
| `Effects.ClosedIs` | crates/syndeo-app/src/control_macos.rs:756-781 | A connection closed is gone; its agent is forgotten and its tabs released if and only if that was its last and nothing is allowed it for the session, by the history; nothing else changes |
| `Effects.SessionMeans` | crates/syndeo-app/src/control_macos.rs:785-792 | Something is left an agent for the session if and only if an answer allowed it so and no later revoke named the agent |
| `Effects.ProbeIs` | crates/syndeo-app/src/control_macos.rs:1175-1196 | A probe reaches its tab exactly if its connection was allowed and holds what it needs, and the tab is its agent's; otherwise nothing happens |
| `Effects.WindowClosesIs` | crates/syndeo-app/src/app_macos.rs:1134-1157 | A window closed is gone, and from its agent's tabs; it is put first in Recently Closed, of which 25 are kept, exactly if it browsed and was nobody's tab |
| `Effects.ReopensIs` | crates/syndeo-app/src/app_macos.rs:468-480 | An entry of Recently Closed opens as the person's own window and is taken out; one not there opens nothing |
| `Effects.RecentAtMost` | crates/syndeo-app/src/tabs.rs:86-115 | In every run Recently Closed holds 25 at most |
| `Effects.PersonsInOrder` | crates/syndeo-app/src/app_macos.rs:985-991 | The person's windows are collected in the order they are in |
| `Ownership.OwnershipOneWay` | crates/syndeo-app/src/control_macos.rs:1071-1149 | Over any run from any sound state, a window there already that is an agent's at the end was that same agent's at the start: it can become the person's, never an agent's or another agent's |
| `Ownership.OwnersAreOpeners` | crates/syndeo-app/src/control_macos.rs:1099-1149 | In every run a window that is an agent's was opened by one event of that run: that agent's own request, or a page in a window that was that agent's tab in the state before that very event; and it has been that agent's after every event since |
| `Ownership.CommandsReachOwn` | crates/syndeo-app/src/control_macos.rs:1152-1196 | In every run each command and each probe was done by one event, for a connection of that agent, and reached only windows that were that agent's tabs in the state before that event, or the one window it opened |
| `Ownership.StepRightful` | crates/syndeo-app/src/control_macos.rs:1152-1196 | One step's commands and probes reach only tabs that are their agent's as it begins, and one it opens |
| `Ownership.StepAdopts` | crates/syndeo-app/src/control_macos.rs:1099-1149 | A step makes no window an agent's but one it opens, for that agent's request or a page in that agent's tab |
| `Ownership.StaleStop` | crates/syndeo-app/src/control_macos.rs:1055-1066 | A Stop with the number of an agent no longer known revokes nobody, then and after any run: numbers are never given again |
| `Ownership.StopIsItsAgents` | crates/syndeo-app/src/control_macos.rs:1055-1066 | Over any run a Stop with an agent's number revokes that agent or nobody |
| `Ownership.TabNumbersKept` | crates/syndeo-app/src/control_macos.rs:1120-1165 | Over any run a tab's number, while it means a tab at all, means the same window of the same agent |
| `Ownership.RunLaterThan` | crates/syndeo-app/src/control_macos.rs:1055-1149 | Any run from a sound state ends in a sound one that numbers agents, tabs and windows on from where it was |
| `Ownership.NoAgentsTabKept` | crates/syndeo-app/src/app_macos.rs:1134-1157 | In every run: each window in Recently Closed was closed by an event before which it was no agent's tab; a session is kept exactly if the application quit while it could browse; and it is exactly the windows that were no agent's in the state before the last such quit |
| `Ownership.StepKeepsPersons` | crates/syndeo-app/src/app_macos.rs:1134-1157 | Exactly what a step may add to Recently Closed and to the session kept: a closing window that is not an agent's; at quit, exactly the open windows that are not an agent's |
| `Ownership.QuitOrder` | crates/syndeo-app/src/app_macos.rs:417-428 | Quitting keeps no agent's window; with the two steps the other way round it would keep one if and only if some agent has a tab open |
| `Ownership.PersonsExact` | crates/syndeo-app/src/app_macos.rs:985-991 | The windows collected at quit are exactly those that are not an agent's |
| `Machine.RunAppend` | crates/syndeo-app/src/control_macos.rs:680-700 | A run is its first part and then the rest from where that ended |
| `Machine.LinesFeasible` | crates/syndeo-app/src/agent.rs:410-428 | Every line there can be reads as what a run allows a line to be, and what a run lets a line say is what some line says |
| `Control.Control.Handle` | crates/syndeo-app/src/control_macos.rs:680-700 | Whatever job comes, with no prompt open or inside the run loop of one: afterwards the application's state is what the machine makes of everything that happened, nested jobs included, in the order it happened; prompts are answered in order as the person's script says; and a job done while a prompt is open leaves that prompt alone |
| `Control.Control.TakeTurns` | crates/syndeo-app/src/control_macos.rs:858-875 | The loop that drains the queue, re-entered by every prompt it opens, ends with the queue empty, no prompt open, and the machine's state |
| `Control.Control.AnswerTo` | crates/syndeo-app/src/control_macos.rs:877-953 | One ask settled, with a prompt if it takes one, and all that happens while that is open: what is left to drain is what the machine has left |
| `Control.Control.Turn` | crates/syndeo-app/src/control_macos.rs:877-908 | What becomes of an ask in its turn: gone, covered, denied moments ago, no longer known, or asked, in that order of precedence |
| `Control.Control.AskPerson` | crates/syndeo-app/src/control_macos.rs:909-953 | A prompt shown, jobs run meanwhile and its answer applied come to the machine's state after that answer |
| `Control.Control.Prompt` | crates/syndeo-app/src/control_macos.rs:966-1030 | While a prompt is open every other job may run; the prompt, and the flag that one is open, are unchanged when its answer comes |
| `Control.Control.Meanwhile` | crates/syndeo-app/src/control_macos.rs:1020-1030 | Any jobs run while a prompt is open leave it open, its state the machine's |
| `Control.Control.Request` | crates/syndeo-app/src/control_macos.rs:794-855 | A request done or refused as the machine does it, or the ask it makes of the person |
| `Control.Control.Refused` | crates/syndeo-app/src/control_macos.rs:794-855 | Why a request is refused at once, in the source's order: gone, hello twice, not allowed, not granted |
| `Control.Control.Queue` | crates/syndeo-app/src/control_macos.rs:858-866 | An ask already covered is answered at once, whatever prompt is open; any other goes last in the queue |
| `Control.Control.Closed` | crates/syndeo-app/src/control_macos.rs:756-766 | A connection closed, its agent forgotten if done, and the token let go with the last connection |
| `Control.Control.Revoke` | crates/syndeo-app/src/control_macos.rs:1034-1053 | The loop closes exactly the agent's connections, releases exactly its tabs and forgets it |
| `Control.Control.RevokeEach` | crates/syndeo-app/src/control_macos.rs:668-671 | Agents revoked one after another come to all revoked at once |
| `Control.Control.StopServing` | crates/syndeo-app/src/control_macos.rs:663-678 | Off: no server, no connection, no agent, no tab, no token |
| `Control.Control.PageOpens` | crates/syndeo-app/src/app_macos.rs:755-776 | A window a page opens, the person's or the agent's whose tab that page is in |
| `Control.Control.Forget` | crates/syndeo-app/src/app_macos.rs:1134-1157 | Whether a window is an agent's is asked before its tab is forgotten, and decides whether it enters Recently Closed |
| `Control.Control.PersonsWindows` | crates/syndeo-app/src/app_macos.rs:969-991 | The loop gathers exactly the windows that are not an agent's, in order |
| `Control.Control.WillTerminate` | crates/syndeo-app/src/app_macos.rs:417-428 | The session is kept first, while agents' windows are known; then the server stops |
| `Control.Control.LeaveWasGiven` | crates/syndeo-app/src/control_macos.rs:794-963 | What the nested calls let through, commands and probes, with a scope they need, had the person's leave for it, not taken back |
| `Control.Control.AllAnswered` | crates/syndeo-app/src/control_macos.rs:858-875 | Whenever no job is running, every request line read has exactly one answer |
| `Requests.RequestRoundTrip` | crates/syndeo-app/src/agent.rs:410-655 | For every command within its limits, what is written for it reads back as exactly that command, also with any fields left out that say only what leaving them out would |
| `Requests.OmittedAreDefaults` | crates/syndeo-app/src/agent.rs:464-510 | Whatever a request's fields, well-formed or not: leaving out any number of those that give their default changes nothing of how it is read |
| `Requests.LeftOutIsDefault` | crates/syndeo-app/src/agent.rs:464-510 | Leaving out a field that may be left out reads, or is refused, as giving its default is |
| `Requests.NamedAgain` | crates/syndeo-app/src/agent.rs:191-206 | A list that is read may go on to name any scope it may name; it then reads as that much more, and as the same exactly if it had named that scope already: a scope named twice is never refused |
| `Requests.TwiceIsRead` | crates/syndeo-app/src/agent.rs:191-206 | The list read,read is read, as the one scope read |
| `Requests.IdIs` | crates/syndeo-app/src/agent.rs:410-428 | An id changes nothing of what is asked if it is null, a number, or text of 200 bytes at most; any other is refused |
| `Requests.NoCommand` | crates/syndeo-app/src/agent.rs:410-428 | What is not JSON, no object, or has no command known is refused, and how |
| `Requests.HelloSaid` | crates/syndeo-app/src/agent.rs:523-551 | A hello that says no more asks for read, navigate and act |
| `Requests.ReadSaid` | crates/syndeo-app/src/agent.rs:568-571 | A read that says no more is of 100,000 characters |
| `Requests.SnapshotSaid` | crates/syndeo-app/src/agent.rs:572-580 | A snapshot that says no more is of 300 elements |
| `Requests.WaitSaid` | crates/syndeo-app/src/agent.rs:584-587 | A wait that says no more is of 30 seconds |
| `Requests.OpenSaid` | crates/syndeo-app/src/agent.rs:588-595 | An open that says no more waits, for 30 seconds |
| `Requests.BackSaid` | crates/syndeo-app/src/agent.rs:602-611 | Back waits, if nothing is said of it |
| `Requests.StopSaid` | crates/syndeo-app/src/agent.rs:602-611 | Stop does not |
| `Requests.TabSaid` | crates/syndeo-app/src/agent.rs:453-462 | A tab is a whole number from one up that 64 bits hold, and any other is refused |
| `Requests.EvalSaid` | crates/syndeo-app/src/agent.rs:643-646 | An eval, as a program writes it |
| `Requests.ReadWithinLimits` | crates/syndeo-app/src/agent.rs:410-428 | Whatever the line, a command read is within the limits: no hello without a scope or with script, every number, length, reference and offset in range |
| `Requests.ListExact` | crates/syndeo-app/src/agent.rs:191-206 | A list of scopes is read if and only if each non-empty piece, trimmed, names a scope, none is script where that may not be, and one at least is named; and it reads as exactly those named |
| `Requests.ScopesRoundTrip` | crates/syndeo-app/src/agent.rs:191-206 | Any set of scopes without script, joined with commas, reads back as itself |
| `Scopes.BitsCompare` | crates/syndeo-app/src/agent.rs:167-176 | On the byte: covers is inclusion of the sets, empty is the empty set, and equal bytes are equal sets |
| `Scopes.BitsAdd` | crates/syndeo-app/src/agent.rs:153-159 | On the byte: with and union are the set's own |
| `Scopes.InView` | crates/syndeo-app/src/agent.rs:162-164 | A byte allows a scope if and only if its set has it |
| `Scopes.OfList` | crates/syndeo-app/src/agent.rs:147-151 | A fold over a list gives the set of its members |
| `Bucket.Bucket.constructor` | crates/syndeo-app/src/agent.rs:757-762 | A new bucket is full, with no request before it |
| `Bucket.Bucket.Take` | crates/syndeo-app/src/agent.rs:765-774 | A request at a time not before the last is admitted if and only if every window from an earlier request up to now, this one counted, holds at most 60 and 30 a second of its length |
| `Bucket.LevelFits` | crates/syndeo-app/src/agent.rs:765-774 | One number, the tokens left, decides that condition on the whole history |
| `Bucket.HoldsIs` | crates/syndeo-app/src/agent.rs:749-774 | In whole nanoseconds: a window holds n requests exactly if 1,000,000,000 n is at most 60,000,000,000 and 30 for each nanosecond |
| `Bucket.SixtyAtOnce` | crates/syndeo-app/src/agent.rs:749-774 | Of requests all made at one moment exactly the first sixty are admitted |
| `Bucket.NoWindowExceeds` | crates/syndeo-app/src/agent.rs:749-774 | In any history so admitted, no window up to the last request holds more |
| `Bucket.NoStretchExceeds` | crates/syndeo-app/src/agent.rs:749-774 | Nor does any stretch between two requests, wherever it lies |
| `Bucket.PacedIsAdmitted` | crates/syndeo-app/src/agent.rs:765-774 | A request a thirtieth of a second or more after the last attempt, admitted or not, is always admitted |
| `Bucket.Thirtieth` | crates/syndeo-app/src/agent.rs:765-774 | On a clock of whole nanoseconds that is 33,333,334 of them, and one less is too few |
| `Lines.ReadLine` | crates/syndeo-app/src/agent.rs:792-832 | However the stream is split into buffers and interrupted: exactly the bytes through the next newline are consumed, or through the end; the result is the line's, too long exactly if it has more than max bytes; no more than max are ever kept; an error in the stream ends it with that error |
| `Lines.Gather` | crates/syndeo-app/src/agent.rs:792-824 | The loop ends, with what was read up to the newline, the end or the failure, and with at most max bytes kept at every turn |
| `Lines.ReadPart` | crates/syndeo-app/src/agent.rs:796-823 | One turn reads to the newline in the buffer or all of it, and an interrupted read loses nothing |
| `Lines.Keep` | crates/syndeo-app/src/agent.rs:812-819 | What is kept is the line so far, or nothing of it once it is too long |
| `Lines.ReadLines` | crates/syndeo-app/src/agent.rs:792-832 | Called again and again it gives exactly the stream's lines, to its end or its failure |
| `Lines.ReadIs` | crates/syndeo-app/src/agent.rs:825-831 | A line is too long exactly if it has more bytes than allowed, no text exactly if it is not too long and not UTF-8, and otherwise its text without the carriage returns at its end |
| `Lines.WrittenReadsBack` | crates/syndeo-app/src/agent.rs:792-832 | Lines written with newlines read back one for one, over-long ones refused in their place and the rest unharmed |
| `Lines.NextAhead` | crates/syndeo-app/src/agent.rs:792-832 | The lines ahead are the next one and the lines ahead after it |
| `Lines.TrimEndIs` | crates/syndeo-app/src/agent.rs:828-831 | Text loses exactly its trailing carriage returns |
| `Lines.Reader.FillBuf` | crates/syndeo-app/src/agent.rs:796-800 | A buffered read gives what is buffered, until it is consumed; an interruption or failure comes once |
| `Lines.Reader.Consume` | crates/syndeo-app/src/agent.rs:820-821 | Consuming takes exactly that many bytes off the front of what is ahead |
| `Lines.Position` | crates/syndeo-app/src/agent.rs:806-809 | Where the first newline in a buffer is |
| `SessionText.KeptIs` | crates/syndeo-app/src/tabs.rs:214-228 | What is kept has only tabs that may be saved, no empty window, and the tab in front the first like it; a session is left alone if and only if it is so already; so keeping twice is keeping once |
| `SessionText.KeptWindowIs` | crates/syndeo-app/src/tabs.rs:218-226 | The same of one window |
| `SessionText.FrontStays` | crates/syndeo-app/src/tabs.rs:220-225 | A tab in front that is kept is in front of what is kept |
| `SessionText.FrontItself` | crates/syndeo-app/src/tabs.rs:220-225 | The very tab that was in front, not only one equal to it, is in front of what is kept, if and only if it is kept and no tab before it equals it |
| `SessionText.EqualTabsMove` | crates/syndeo-app/src/tabs.rs:220-225 | Of two equal tabs with the second in front, the first is put in front |
| `SessionText.PinnedApart` | crates/syndeo-app/src/tabs.rs:230-251 | The pinned tabs taken at launch and the rest kept for later are together the session's tabs, each once, and the rest is a session that keeping leaves alone |
| `SessionText.AnyText` | crates/syndeo-app/src/tabs.rs:280-318 | Whatever the text, what is read has at most 50 windows of 1 to 500 tabs, its tab in front in range, only addresses that would be opened if asked for, and keeping leaves it alone |
| `SessionText.PrintedReadsBack` | crates/syndeo-app/src/tabs.rs:256-318 | What any session prints reads back as its first 50 windows with their first 500 tabs, each field on one line, the front index in range, and then kept |
| `SessionText.LinesAre` | crates/syndeo-app/src/tabs.rs:256-275 | The file's header and its lines, as text |
| `SessionText.KeptRoundTrip` | crates/syndeo-app/src/tabs.rs:256-318 | A kept session within the limits, with no control characters, reads back as itself |
| `SessionText.OneLine` | crates/syndeo-app/src/tabs.rs:208-212 | As long as the text, with no control character left |
| `SessionText.Keep` | crates/syndeo-app/src/tabs.rs:218-228 | The loops over windows and tabs keep what the specification keeps |
| `SessionText.Retain` | crates/syndeo-app/src/tabs.rs:221-222 | Those to keep, in order |
| `SessionText.KeepWindow` | crates/syndeo-app/src/tabs.rs:219-226 | A window's tabs kept, and its front found again |
| `SessionText.PrintSession` | crates/syndeo-app/src/tabs.rs:260-275 | The loops print the specification's text |
| `SessionText.ReadSession` | crates/syndeo-app/src/tabs.rs:280-318 | The loop over lines reads what the specification reads |
| `SessionText.ReadWindows` | crates/syndeo-app/src/tabs.rs:285-311 | Lines taken one by one until too many windows come |
| `Strips.CountIsPrefix` | crates/syndeo-app/src/tabs.rs:73-85 | With pinned tabs first, those pinned are exactly the first so many |
| `Strips.OpenedIs` | crates/syndeo-app/src/app_macos.rs:778-791 | A tab opened anywhere, in front or behind, leaves the pinned first, the others in their order, none lost or twice |
| `Strips.PinSetIs` | crates/syndeo-app/src/browser_macos.rs:811-831 | A tab pinned goes last of the pinned and one unpinned first of the rest, wherever it was; the others keep their order |
| `Strips.OpenedPlace` | crates/syndeo-app/src/app_macos.rs:778-791 | Just after the tab it is opened after; or, if that is pinned, first of those that are not |
| `Strips.PinSetPlace` | crates/syndeo-app/src/browser_macos.rs:811-831 | A tab pinned or unpinned stands after all the other pinned tabs and before the rest, and comes in front exactly if it had to be moved |
| `Strips.ClosedIs` | crates/syndeo-app/src/browser_macos.rs:554-561 | A tab closed is the only one gone |
| `Strips.OthersClosedAre` | crates/syndeo-app/src/browser_macos.rs:795-805 | Close Other Tabs closes a tab if and only if it is another and not pinned |
| `Strips.RunIs` | crates/syndeo-app/src/browser_macos.rs:797-831 | After any steps whatever, opening in front or behind, opening again, pinning, unpinning, closing, closing others: the pinned tabs come first, and the tabs there, each once, and those of them pinned, are just what the steps say, none lost and none doubled |
| `Strips.StepIs` | crates/syndeo-app/src/browser_macos.rs:797-831 | One step of any kind does so |
| `Strips.RunKeepsOrder` | crates/syndeo-app/src/tabs_macos.rs:275-285 | Whatever is opened, pinned and closed around them, tabs that no step closes, pins or unpins are all there in the end, in the order they were in |
| `Strips.OthersClosedIs` | crates/syndeo-app/src/browser_macos.rs:563-575 | What Close Other Tabs leaves is exactly this tab and the pinned ones, pinned first |
| `Strips.ReopenedIs` | crates/syndeo-app/src/app_macos.rs:794-812 | A tab opened again comes beside the one in front, last of the pinned if it was pinned, and moves no other |
| `Strips.TabGroup.constructor` | crates/syndeo-app/src/app_macos.rs:734-745 | A window's one tab |
| `Strips.TabGroup.Place` | crates/syndeo-app/src/tabs_macos.rs:275-285 | A tab put at an index counted without it, or last beside a tab that is alone |
| `Strips.TabGroup.Open` | crates/syndeo-app/src/app_macos.rs:748-791 | A new tab keeps the pinned first and the rest in order |
| `Strips.TabGroup.Reopen` | crates/syndeo-app/src/app_macos.rs:794-812 | A tab opened again comes back pinned if it was, with the others as they were |
| `Strips.TabGroup.SetPinned` | crates/syndeo-app/src/browser_macos.rs:813-831 | Pinning and unpinning keep the pinned first, and move nothing else |
| `Strips.TabGroup.Close` | crates/syndeo-app/src/browser_macos.rs:554-561 | Closing keeps the pinned first and takes that tab alone |
| `Strips.TabGroup.CloseOthers` | crates/syndeo-app/src/browser_macos.rs:563-575 | The loop over a list made beforehand leaves exactly this tab and the pinned ones, in order |
| `Relaunch.QuitAndRelaunch` | crates/syndeo-app/src/app_macos.rs:816-844 | Kept at quit, printed, read back, opened tab by tab and collected again: what is collected is the session kept, cut to the limits and put on one line; again and again it is then the same; and if it was within them to begin with, it is identical: windows, order, pins, titles, and the tab in front, or the first equal to it |
| `Relaunch.OpenedRoundTrip` | crates/syndeo-app/src/app_macos.rs:816-844 | A kept session with pinned tabs first, opened and collected, is itself |
| `Relaunch.CollectOpened` | crates/syndeo-app/src/app_macos.rs:969-1016 | The same of windows opened after others, collected with those seen before |
| `Collected.CollectedAre` | crates/syndeo-app/src/app_macos.rs:969-1016 | For any windows and any of them agents': each strip is collected once, when its first window comes; a strip with no tab of the person's gives nothing, and any other one window, of exactly the person's tabs, in order, each as it is shown and pinned as it is, and in front the person's tab in front, where there is one |
| `Collected.SavedIs` | crates/syndeo-app/src/app_macos.rs:985-1014 | The same of one strip |
| `Collected.VisitedIs` | crates/syndeo-app/src/app_macos.rs:977-984 | Every window's strip is visited once, at its first window, in the order of the windows |
| `Collected.AgentsUnseen` | crates/syndeo-app/src/app_macos.rs:985-991 | Whatever agents' windows show, the session, its text and what is opened from it are the same |
| `Relaunch.SessionIs` | crates/syndeo-app/src/app_macos.rs:969-1016 | What is collected is as keeping would have it, pinned tabs first in each window |
| `Relaunch.OpenedIsSaved` | crates/syndeo-app/src/app_macos.rs:816-844 | One window opened again is saved as it was saved |
| `Relaunch.RestoredInOrder` | crates/syndeo-app/src/app_macos.rs:816-844 | Saved with pinned tabs first, a window opens in its saved order, though each pinned tab is moved as it opens |
| `Relaunch.RestoredIs` | crates/syndeo-app/src/app_macos.rs:816-844 | In whatever order it was saved, a window opens with its pinned tabs in their order and then the rest in theirs, all and each once, and the saved one in front, or the first |
| `Relaunch.OpenWindow` | crates/syndeo-app/src/app_macos.rs:818-841 | Opened tab by tab, from any saved order: the pinned in their order, then the rest in theirs, none lost, the saved one in front, or the first |
| `Relaunch.OpenSession` | crates/syndeo-app/src/app_macos.rs:816-844 | The loop over windows opens the specification's strips |
| `Relaunch.CollectSession` | crates/syndeo-app/src/app_macos.rs:969-1016 | The loop over windows, skipping those seen, collects the specification's session |
| `Relaunch.OpenPinned` | crates/syndeo-app/src/app_macos.rs:936-959 | At a launch that opens no windows: the pinned tabs in order, pinned, then the start page, which is in front |
| `Relaunch.SavedPinsFirst` | crates/syndeo-app/src/app_macos.rs:985-1014 | A window's tabs are saved with the pinned ones first |
| `Address.SchemeWritten` | crates/syndeo-app/src/address.rs:359-372 | A valid scheme written before :// is the scheme read, in lower case |
| `Address.ZoneWritten` | crates/syndeo-app/src/address.rs:254-275 | An address with a bracketed host, after any user and before any port and path, has a zone if and only if its host holds a percent sign |
| `Address.ZoneBare` | crates/syndeo-app/src/address.rs:254-275 | The same of an address with no scheme |
| `Address.NoBracketNoZone` | crates/syndeo-app/src/address.rs:254-275 | Without brackets in its authority it has none |
| `Address.SavableIsAsked` | crates/syndeo-app/src/tabs.rs:196-205 | An address may be saved if and only if it is written with http or https and would be opened if asked for, and then typing it opens the same address |
| `Address.AskedIsSavable` | crates/syndeo-app/src/address.rs:338-356 | What would be opened if asked for is exactly what may be saved, spaces aside |
| `Address.TypedBare` | crates/syndeo-app/src/address.rs:277-314 | What is made of text with no scheme, for every text: refused with a zone; loaded over https exactly if it has no space and names an address, localhost, or a name with a dot in it and none after it; and otherwise searched for, or refused with search off |
| `Address.TypedWithScheme` | crates/syndeo-app/src/address.rs:277-314 | What is made of text with a scheme, for every text: the web's loaded exactly if it names a host and has no zone, the blank page, and any other refused |
| `Address.AskedIs` | crates/syndeo-app/src/address.rs:338-356 | What another application asks is opened exactly if it is written with a web scheme, names a host and has no zone; why it is refused otherwise |
| `Address.SchemeIs` | crates/syndeo-app/src/address.rs:359-372 | Text has a scheme exactly if what comes before its first colon is letters, digits and +-. with a letter first, and slashes follow or it is one of the six that need none; and that in lower case is it |
| `Address.TypedOpensTheWeb` | crates/syndeo-app/src/address.rs:277-314 | Whatever is typed, what loads is of the web or the blank page, never with a zone; only words with no scheme are searched for, and only with an engine; and only blanks are nothing |
| `Direct.CoveredHoweverWritten` | crates/syndeo-app/src/address.rs:483-491 | A domain covers a host however the case of either is written, and whatever dots follow them |
| `Direct.CoveredAs` | crates/syndeo-app/src/address.rs:483-491 | As W.EX. is covered by ex, and wex is not |
| `Direct.CoveredIsLabels` | crates/syndeo-app/src/address.rs:483-491 | A domain covers a host if and only if it has a name and its labels are the last of the host's |
| `Direct.CoveredTransitive` | crates/syndeo-app/src/address.rs:483-491 | What covers a domain covers every name under it |
| `Direct.AddedCovers` | crates/syndeo-app/src/app_macos.rs:534-555 | After hosts are added with room to spare, a name is sent directly if and only if it was before or one of those hosts covers it, though hosts already covered were skipped |
| `Direct.AddedNew` | crates/syndeo-app/src/app_macos.rs:534-555 | A host is added only if none before it in the list covers it |
| `Direct.AskedIsAdded` | crates/syndeo-app/src/app_macos.rs:534-555 | A host asked for is sent directly, or the list is full |
| `Direct.FullOnlyWhenAllAdded` | crates/syndeo-app/src/app_macos.rs:534-555 | With room for all asked for, every one is |
| `Direct.AddedKeeps` | crates/syndeo-app/src/app_macos.rs:534-555 | What was sent directly stays so, and the list never passes 1024 |
| `Direct.ToSendDirectIs` | crates/syndeo-app/src/address.rs:502-518 | The hosts to send: exactly those vouched for and refused, or pinned by macOS, not sent directly yet; in ascending order, each once |
| `Direct.NothingMoreToSend` | crates/syndeo-app/src/address.rs:502-518 | Once they are sent, with room, none is left to send if and only if each of them had a name; one with no name is called for again |
| `Direct.SendingGrows` | crates/syndeo-app/src/app_macos.rs:534-555 | Hosts found to send make the list longer, unless it is full |
| `Direct.App.SendDirect` | crates/syndeo-app/src/app_macos.rs:534-555 | The list changes only if the application browses and the change took effect, and is then what adding gives |
| `Reloads.Window.constructor` | crates/syndeo-app/src/browser_macos.rs:305-318 | A window with nothing loaded again |
| `Reloads.Window.DidStart` | crates/syndeo-app/src/browser_macos.rs:305-318 | Starting another address allows one more reload; starting the same one does not |
| `Reloads.Window.LoadAgain` | crates/syndeo-app/src/browser_macos.rs:1190-1196 | An address that can be read is loaded again and remembered |
| `Reloads.Window.RetryDirect` | crates/syndeo-app/src/browser_macos.rs:1117-1150 | A failure is answered if and only if it has a host, is a refusal, and its address was not the one last loaded again; the host is then sent directly, or the list is full; and it is loaded again if that worked |
| `Reloads.Window.SendRefusedPartsDirect` | crates/syndeo-app/src/browser_macos.rs:1156-1186 | A finished page is loaded again only for hosts to send, which then make the list longer unless it is full, so that such reloads while there is room are never more than the list is long; with none it looks again once |
| `Reloads.LastReloadedIs` | crates/syndeo-app/src/browser_macos.rs:305-318 | An address may not be loaded again exactly while nothing else was started or loaded again since its own last reload |
| `Reloads.NeverTwiceRunning` | crates/syndeo-app/src/browser_macos.rs:1117-1196 | In any history, between two reloads of an address another address was started or loaded again |
| `Reloads.FairAt` | crates/syndeo-app/src/browser_macos.rs:1117-1196 | At each reload the address was not the one last loaded again, and after a finished page the list is longer than before while it has room |
| `Hosts.Remembered.Remember` | crates/syndeo-app/src/browser_macos.rs:657-665 | After any history of calls the list is the last 64 of the hosts named, by when each was last named, though each call saw only a list already cut |
| `Hosts.Remembered.Retain` | crates/syndeo-app/src/browser_macos.rs:660-660 | Every entry equal to the host is dropped, the rest kept in order |
| `Hosts.LatestKept` | crates/syndeo-app/src/browser_macos.rs:657-665 | What is kept is the last 64 of all the hosts named, or all of them, the one named last at the end |
| `Hosts.RecentIs` | crates/syndeo-app/src/browser_macos.rs:657-665 | Each host of the history once, in the order of its last naming |
| `Hosts.KeptAlike` | crates/syndeo-app/src/browser_macos.rs:657-665 | Cutting before an update and cutting only after it come to the same |
| `Routes.RangeIsInterval` | crates/syndeo-app/src/address.rs:193-201 | For every prefix length and address of either width, the mask test is membership in an interval of numbers |
| `Routes.LocalV4Is` | crates/syndeo-app/src/address.rs:175-186 | The IPv4 table is exactly the addresses its networks name, first to last |
| `Routes.Loopback` | crates/syndeo-app/src/address.rs:173-173 | 127.0.0.0/8 is exactly 127.0.0.0 to 127.255.255.255 |
| `Routes.V4Disjoint` | crates/syndeo-app/src/address.rs:173-186 | No address is in two of the IPv4 ranges, so their order does not matter |
| `Routes.RouteV4Is` | crates/syndeo-app/src/address.rs:222-239 | The route of any IPv4 address, as intervals; trying the ranges in the other order gives the same |
| `Routes.NamesRoute` | crates/syndeo-app/src/address.rs:222-239 | Of names only localhost, with a dot after it or not, is direct, and none is local; what is not the web's has no route |
| `Routes.Numbers` | crates/syndeo-app/src/address.rs:173-186 | The numbers the addresses are |
| `Routes.LocalV6Is` | crates/syndeo-app/src/address.rs:186-191 | The IPv6 table, as intervals, and disjoint |
| `Routes.RouteV6Is` | crates/syndeo-app/src/address.rs:222-239 | The route of any IPv6 address, as intervals; none in the mapped block is special by itself |
| `Routes.MappedAlike` | crates/syndeo-app/src/address.rs:203-239 | An IPv4 address mapped into IPv6 has its own route: direct exactly in loopback, local exactly in the local ranges |
| `Routes.AnyV6` | crates/syndeo-app/src/address.rs:203-239 | The route of every IPv6 address there is, mapped or not, as intervals of the whole address |
| `Png.UnfilteredIs` | ci/macos-app/luma.py:45-60 | Undoing a filter, each byte is the stored one plus, modulo 256: for filter 1 the byte so many channels before it, 0 at the start; for 2 the byte above; for 3 half their sum, rounded down; for 4 whichever of the two and the byte before the one above is nearest to left + up - corner; and for any other nothing (section 6 of RFC 2083) |
| `Png.OneRow` | ci/macos-app/luma.py:45-60 | No other row fits that |
| `Png.MarksAre` | ci/macos-app/luma.py:20-32 | What does not begin with the eight bytes of a PNG is none; the header and the data are in the chunks so named |
| `Png.PictureIs` | ci/macos-app/luma.py:33-62 | What is refused as unsupported, exactly; and of any other picture its channels by colour type, and how many rows of at most how many bytes are read |
| `Png.HeaderRead` | ci/macos-app/luma.py:28-33 | A header written big-endian reads as its width, height, depth, colour type and interlacing |
| `Png.FilterUndone` | ci/macos-app/luma.py:45-60 | Undoing any of the five filters, for any number of channels, gives back the scanline filtered |
| `Png.UnfilterUndone` | ci/macos-app/luma.py:45-60 | And filtering what was undone gives back what was stored |
| `Png.PaethIsNearest` | ci/macos-app/luma.py:56-59 | The Paeth predictor is whichever of left, up and corner is nearest to left + up - corner; ties go to left, then up (section 6.6 of RFC 2083) |
| `Png.UnfilterInPlace` | ci/macos-app/luma.py:45-60 | The loop that overwrites a line byte by byte leaves exactly that row, stated of every byte, and stops exactly where an index would be out of range |
| `Png.ImageRoundTrip` | ci/macos-app/luma.py:39-61 | Any image, with any filter chosen for each row, is read back; and stopping after any number of rows gives that many of its first |
| `Png.FewerRows` | ci/macos-app/luma.py:39-61 | Of any data at all, fewer rows are the first of more |
| `Png.ReadRow` | ci/macos-app/luma.py:43-61 | One turn of the loop adds the next row, or ends it where the data does |
| `Png.ReadRows` | ci/macos-app/luma.py:39-61 | The loop over rows gives the specification's rows |
| `Png.ChunksRead` | ci/macos-app/luma.py:25-32 | Chunks written one after another are walked one by one, and none is missed |
| `Png.WalkChunks` | ci/macos-app/luma.py:25-32 | The walk by position gives the specification's header and data |
| `Png.ReadPicture` | ci/macos-app/luma.py:20-62 | The whole reader: not a PNG, no header, unsupported forms and short data each refused as they are |
| `Png.PictureRoundTrip` | ci/macos-app/luma.py:20-62 | A file made of any chunks holding a supported header and the filtered, deflated image reads as the image's first rows, its width, height and channels |
| `WebSocket.MaskedIs` | ci/macos-app/realtime-origin.py:302-304 | Byte i of a payload is masked with byte i modulo 4 of the key (section 5.3 of RFC 6455) |
| `WebSocket.HeadIs` | ci/macos-app/realtime-origin.py:292-303 | A frame's bytes before its payload, in each of the three length forms, masked or not (section 5.2 of RFC 6455) |
| `WebSocket.SentIs` | ci/macos-app/realtime-origin.py:306-316 | What is sent for a frame, byte by byte, in each range of lengths |
| `WebSocket.ReplyIs` | ci/macos-app/realtime-origin.py:262-272 | A text is echoed, a ping answered by a pong with what it carried, a close by a close with its first two bytes, and nothing else is answered |
| `Bytes.XorAt` | ci/macos-app/realtime-origin.py:304-304 | A bit of an exclusive or is set exactly if it is set in one of the two and not in both |
| `Bytes.UnpackIs` | ci/macos-app/luma.py:27-27 | Numbers are big-endian |
| `WebSocket.FrameRoundTrip` | ci/macos-app/realtime-origin.py:292-304 | Every frame a client can send, of any opcode, masked or not, its length in any of the three forms that holds it, is read as its opcode and payload, with exactly its bytes consumed (sections 5.2 and 5.3 of RFC 6455) |
| `WebSocket.SentRoundTrip` | ci/macos-app/realtime-origin.py:306-316 | What is sent reads back as the frame sent, its length in the shortest form |
| `WebSocket.WholeIsWire` | ci/macos-app/realtime-origin.py:292-304 | Conversely, any bytes that hold a whole frame are a frame's bytes and what follows, read as that frame |
| `WebSocket.MaskedTwice` | ci/macos-app/realtime-origin.py:302-304 | Masking twice with a key, or once with none, changes nothing |
| `WebSocket.CutShort` | ci/macos-app/realtime-origin.py:292-304 | A frame cut short after any byte: the end, an error, or its payload so far, exactly which the cut decides |
| `WebSocket.EchoesUntilClose` | ci/macos-app/realtime-origin.py:254-274 | Over any frames and then a close: exactly the texts and pongs in order, then one close with the first two bytes of the client's, and nothing read or sent after it |
| `WebSocket.EchoesToTheEnd` | ci/macos-app/realtime-origin.py:254-274 | Over any frames with no close: all answered, and no close sent |
| `WebSocket.EchoesFrames` | ci/macos-app/realtime-origin.py:254-274 | What is answered of frames and then anything is their replies and then what is answered of the rest |
| `WebSocket.SentReadsBack` | ci/macos-app/realtime-origin.py:306-316 | Any frames sent one after another are read back, the same ones |
| `WebSocket.Handler.NextFrame` | ci/macos-app/realtime-origin.py:292-304 | The stream loses what the specification consumes, and gives what it reads |
| `WebSocket.Handler.ReadBody` | ci/macos-app/realtime-origin.py:302-304 | The mask and the payload, read in turn |
| `WebSocket.Handler.SendFrame` | ci/macos-app/realtime-origin.py:306-316 | Exactly the frame's bytes are written after those before |
| `WebSocket.Handler.EchoOne` | ci/macos-app/realtime-origin.py:259-272 | One frame read, one reply at most, as its opcode calls for |
| `WebSocket.Handler.EchoAll` | ci/macos-app/realtime-origin.py:254-274 | The loop writes exactly the replies, counts exactly the texts echoed, and ends for the reason it gives |
| `WebSocket.Unmask` | ci/macos-app/realtime-origin.py:304-304 | The loop over the payload undoes the mask |

## Left out

Of the permission protocol:

- An agent's name and peer, the indicator in its tabs, the Access window, and the text of prompts and replies: wording and display.
- The threads and sockets of the server, its check of the peer's user, and its timeouts: a connection's thread may stop waiting and say so, and the reply it was waiting for then reaches nobody.
- The rate limit and the line reader are proved on their own, not run inside the machine; a line they refuse is an `Err` line there.
- `Wait` and the wait after a navigation: the machine does their first probe as the request and any later ones as `Probe` events, in any number and at any time, each with the scope it needs as an input: Read for a wait's, none after a navigation.
- Machine.LinesFeasible: JSON text is a datatype here; a line that is no JSON is `None`.
- What a failed command replies: that it did not go through is an input, `works`, and `open` then replies one failure where the program has two, for an address refused and for an application that cannot browse.
- Windows that vanish without closing: tabs hold weak references, and here a window is there until it closes.
- Counters are unbounded: connections, tabs and windows are numbered by 64-bit integers, and agents by 32-bit ones.
- One event has one time: the program reads the clock once for each ask it takes from the queue.
- Ownership.NoAgentsTabKept: which window a kept tab is in is what the machine keeps; its address and title are `Relaunch`'s.

Of tabs and the session:

- The person's own drag of a tab, and which tab macOS brings in front when the one in front closes: the latter is given, the former left out.
- Whether AppKit gives a lone tab a tab group is given too, for each window; the theorems hold either way.
- Writing the session file, and reading it as bytes: the text is what is written and read.
- Relaunch.QuitAndRelaunch: a session with control characters in its addresses is covered by the general clause, which says what is read back, not that it is the same; within limits and on one line it is the same.
- Relaunch.OpenPinned: with no start page, where the first pinned tab takes its place; `OpenWindow` covers a window opened of pinned tabs alone.
- Strips.TabGroup.Open: a tab the person opens from an agent's tab, which goes beside the person's own windows.

Of limits, lists and codecs:

- `Url::parse`, UTF-8, zlib and the Unicode tables are functions given from outside. Of the URL parser one law is used: a URL parsed from text written with a web scheme has that scheme, in lower case.
- Bucket.Bucket.Take: tokens are exact reals, not doubles, and times do not go backwards.
- Png.ReadPicture: how many rows a picture's band is comes as a parameter, since the program computes it in floating point; the checks at the end of chunks are skipped, as the program skips them.
- Reloads.Window.RetryDirect: which error codes of macOS are refusals is an input, and other windows share the direct list only between a window's own steps.
- WebSocket.Handler.EchoAll: the handshake before it and the lingering close after it, and any error of the stream other than its end.
- Icons, page-side scripts, screenshots, passkeys, statistics, the sandboxed tool host, the Model Context Protocol server, the proxy and its cache: each is settled by reading a branch, or rests on an engine that is not part of this model.
