/** The requests a program may make, and how a line of JSON becomes one. A
    JSON document is a datatype here: reading its text is left out. */
module Requests {
  import opened Wrappers
  import opened Scopes
  import opened Text

  datatype Num = Whole(n: int) | Fraction

  datatype Json =
    | Null
    | Bool(b: bool)
    | Number(n: Num)
    | Str(s: string)
    | Arr(items: seq<Json>)
    | Obj(fields: map<string, Json>)

  type Fields = map<string, Json>

  /** A failure's code, which is what a program acts on. */
  datatype Code =
    | BadRequest
    | TooLarge
    | UnknownCommand
    | Revoked
    | NotApproved
    | NotGranted
    | DeniedCode
    | NoSuchTab
    | Refused

  const MAX_REQUEST: nat := 1_048_576
  const MAX_TEXT: nat := 100_000
  const MAX_READ: nat := 1_000_000
  const DEFAULT_READ: nat := 100_000
  const MAX_ELEMENTS: nat := 2_000
  const DEFAULT_ELEMENTS: nat := 300
  const MAX_WAIT: nat := 120_000
  const DEFAULT_WAIT: nat := 30_000
  const MAX_URL: nat := 8_192
  const MAX_OFFSET: int := 1_000_000
  const DEFAULT_SCOPES: set<Scope> := {Read, Navigate, Act}

  datatype Move = Back | Forward | Reload | Stop

  datatype Command =
    | Hello(client: string, scopes: set<Scope>)
    | Request(scope: Scope)
    | Status
    | Tabs
    | ReadPage(tab: nat, maxChars: nat)
    | Snapshot(tab: nat, maxElements: nat)
    | Screenshot(tab: nat)
    | Wait(tab: nat, timeout: nat)
    | Open(url: string, wait: bool, timeout: nat)
    | Goto(tab: nat, url: string, wait: bool, timeout: nat)
    | History(tab: nat, step: Move, wait: bool, timeout: nat)
    | Select(tab: nat)
    | Close(tab: nat)
    | Click(tab: nat, element: string)
    | Type(tab: nat, element: string, text: string, submit: bool)
    | Scroll(tab: nat, target: Option<string>, dx: int, dy: int)
    | Eval(tab: nat, script: string)
    | Bye
  {
    /** The scope a request needs, beyond having been allowed at all. */
    function Needs(): Option<Scope> {
      match this
      case Hello(_, _) => None
      case Request(_) => None
      case Status => None
      case Bye => None
      case Tabs => Some(Read)
      case ReadPage(_, _) => Some(Read)
      case Snapshot(_, _) => Some(Read)
      case Screenshot(_) => Some(Read)
      case Wait(_, _) => Some(Read)
      case Open(_, _, _) => Some(Navigate)
      case Goto(_, _, _, _) => Some(Navigate)
      case History(_, _, _, _) => Some(Navigate)
      case Select(_) => Some(Navigate)
      case Close(_) => Some(Navigate)
      case Click(_, _) => Some(Act)
      case Type(_, _, _, _) => Some(Act)
      case Scroll(_, _, _, _) => Some(Act)
      case Eval(_, _) => Some(Script)
    }
  }

  // ------------------------------------------------------------- scopes by name

  function ScopeId(scope: Scope): string {
    match scope
    case Read => "read"
    case Navigate => "navigate"
    case Act => "act"
    case Script => "script"
  }

  /** The scope named `text`, if one is: the first of all of them that is. */
  function ScopeNamed(text: string): Option<Scope> {
    if text == "read" then Some(Read)
    else if text == "navigate" then Some(Navigate)
    else if text == "act" then Some(Act)
    else if text == "script" then Some(Script)
    else None
  }

  function ParseParts(parts: seq<string>, script: bool, found: set<Scope>): Result<set<Scope>, Code> {
    if parts == [] then Ok(found)
    else
      var part := Trim(parts[0]);
      if part == "" then ParseParts(parts[1..], script, found)
      else
        match ScopeNamed(part)
        case None => Err(BadRequest)
        case Some(scope) =>
          if scope == Script && !script then Err(BadRequest)
          else ParseParts(parts[1..], script, found + {scope})
  }

  /** `read,navigate,act`: each a scope; `script` only if `script` is true. */
  function ParseList(text: string, script: bool): Result<set<Scope>, Code> {
    var scopes :- ParseParts(Split(text, ','), script, {});
    if scopes == {} then Err(BadRequest) else Ok(scopes)
  }

  /** What a part of a list may be: blank, or an allowed scope's name. */
  ghost predicate GoodPart(part: string, script: bool) {
    || Trim(part) == ""
    || (ScopeNamed(Trim(part)).Some? && (ScopeNamed(Trim(part)) == Some(Script) ==> script))
  }

  ghost function Named(parts: seq<string>): set<Scope> {
    set p, s | p in parts && s in {Read, Navigate, Act, Script}
            && Trim(p) != "" && ScopeNamed(Trim(p)) == Some(s) :: s
  }

  lemma {:induction false} PartsExact(parts: seq<string>, script: bool, found: set<Scope>)
    ensures var r := ParseParts(parts, script, found);
            && (r.Ok? <==> forall p | p in parts :: GoodPart(p, script))
            && (r.Ok? ==> r.value == found + Named(parts))
  {
    if parts != [] {
      var part := parts[0];
      assert parts == [part] + parts[1..];
      assert forall p :: p in parts <==> p == part || p in parts[1..];
      if GoodPart(part, script) {
        var more := if Trim(part) == "" then found else found + {ScopeNamed(Trim(part)).value};
        PartsExact(parts[1..], script, more);
        forall s: Scope
          ensures s in Named(parts) <==>
                  s in Named(parts[1..]) || (Trim(part) != "" && ScopeNamed(Trim(part)) == Some(s))
        {
          assert s in {Read, Navigate, Act, Script} by {
            match s case Read => case Navigate => case Act => case Script =>
          }
        }
      }
    }
  }

  /** A list parses exactly when every part that is not blank names a scope,
      none of them script unless that was allowed, and one is named; and then
      it is exactly the scopes named. */
  lemma ListExact(text: string, script: bool)
    ensures var r := ParseList(text, script);
            && (r.Ok? <==> (forall p | p in Split(text, ',') :: GoodPart(p, script)) && Named(Split(text, ',')) != {})
            && (r.Ok? ==> r.value == Named(Split(text, ',')))
            && (r.Ok? && !script ==> Script !in r.value)
  {
    PartsExact(Split(text, ','), script, {});
  }

  lemma NamedMore(parts: seq<string>, part: string, scope: Scope)
    requires Trim(part) != "" && ScopeNamed(Trim(part)) == Some(scope)
    ensures Named(parts + [part]) == Named(parts) + {scope}
  {
    var more := parts + [part];
    assert forall p :: p in more <==> p in parts || p == part;
    forall s: Scope
      ensures s in Named(more) <==> s in Named(parts) || s == scope
    {
      assert s in {Read, Navigate, Act, Script} by {
        match s case Read => case Navigate => case Act => case Script =>
      }
      if s == scope {
        assert part in more;
      }
    }
  }

  lemma PartsMore(parts: seq<string>, part: string, script: bool)
    requires (forall p | p in parts :: GoodPart(p, script)) && GoodPart(part, script)
    ensures forall p | p in parts + [part] :: GoodPart(p, script)
  {
  }

  lemma ListMore(text: string, scope: Scope, script: bool)
    requires ParseList(text, script).Ok? && (scope == Script ==> script)
    ensures ParseList(text + [','] + ScopeId(scope), script) == Ok(ParseList(text, script).value + {scope})
  {
    var id, parts := ScopeId(scope), Split(text, ',');
    IdReads(scope);
    SplitAt(text, id, ',');
    SplitWhole(id, ',');
    ListExact(text, script);
    NamedMore(parts, id, scope);
    PartsMore(parts, id, script);
    ListExact(text + [','] + id, script);
  }

  /** A list that is read may go on to name any scope it may name; that changes
      what it reads as exactly if it had not named that scope before. So a scope
      named twice is not refused: it is read as if named once. */
  lemma NamedAgain(text: string, scope: Scope, script: bool)
    requires ParseList(text, script).Ok? && (scope == Script ==> script)
    ensures var before, after := ParseList(text, script).value, ParseList(text + [','] + ScopeId(scope), script);
            && after == Ok(before + {scope})
            && (after == Ok(before) <==> scope in before)
  {
    var before := ParseList(text, script).value;
    ListMore(text, scope, script);
    assert before + {scope} == before <==> scope in before;
  }

  /** As a list that names one scope twice is. */
  lemma TwiceIsRead()
    ensures ParseList("read,read", false) == Ok({Read})
  {
    ScopesRoundTrip({Read});
    assert Names({Read}) == ["read"] && Join(["read"], ',') == "read";
    NamedAgain("read", Read, false);
    assert "read" + [','] + "read" == "read,read";
  }

  // ------------------------------------------------------------- fields

  /** Only these fields, beyond `id` and `cmd`. */
  function Only(fields: Fields, allowed: set<string>): Result<(), Code> {
    if fields.Keys <= allowed + {"id", "cmd"} then Ok(()) else Err(BadRequest)
  }

  function TextOf(fields: Fields, key: string, max: nat): Result<string, Code> {
    if key !in fields then Err(BadRequest)
    else if !fields[key].Str? then Err(BadRequest)
    else if Utf8Length(fields[key].s) <= max then Ok(fields[key].s)
    else Err(TooLarge)
  }

  function TabOf(fields: Fields): Result<nat, Code> {
    if "tab" in fields && fields["tab"].Number? && fields["tab"].n.Whole? && 0 < fields["tab"].n.n < USIZE
    then Ok(fields["tab"].n.n)
    else Err(BadRequest)
  }

  function Flag(fields: Fields, key: string, default: bool): Result<bool, Code> {
    if key !in fields then Ok(default)
    else if fields[key].Bool? then Ok(fields[key].b)
    else Err(BadRequest)
  }

  function Count(fields: Fields, key: string, default: nat, max: nat): Result<nat, Code> {
    if key !in fields then Ok(default)
    else if fields[key].Number? && fields[key].n.Whole? && 0 <= fields[key].n.n <= max
    then Ok(fields[key].n.n)
    else Err(BadRequest)
  }

  function Offset(fields: Fields, key: string): Result<int, Code> {
    if key !in fields then Ok(0)
    else if fields[key].Number? && fields[key].n.Whole? && -MAX_OFFSET <= fields[key].n.n <= MAX_OFFSET
    then Ok(fields[key].n.n)
    else Err(BadRequest)
  }

  /** `e` and a number, as `snapshot` gives an element. */
  predicate IsReference(text: string) {
    |text| >= 2 && text[0] == 'e' && forall k | 1 <= k < |text| :: IsDigit(text[k])
  }

  function Element(fields: Fields): Result<string, Code> {
    var reference :- TextOf(fields, "ref", 16);
    if IsReference(reference) then Ok(reference) else Err(BadRequest)
  }

  function Timeout(fields: Fields): Result<nat, Code> {
    Count(fields, "timeout_ms", DEFAULT_WAIT, MAX_WAIT)
  }

  function TabOnly(fields: Fields, allowed: set<string>): Result<nat, Code> {
    var _ :- Only(fields, allowed);
    TabOf(fields)
  }

  // ------------------------------------------------------------- commands

  /** Every command, by the name `cmd` gives. */
  datatype Verb =
    | AHello | ARequest | AStatus | ATabs | ABye | ARead | ASnapshot | AScreenshot | AWait
    | AOpen | AGoto | AStep(step: Move) | ASelect | AClose | AClick | AType | AScroll | AEval

  function VerbNamed(name: string): Option<Verb> {
    if name == "hello" then Some(AHello)
    else if name == "request" then Some(ARequest)
    else if name == "status" then Some(AStatus)
    else if name == "tabs" then Some(ATabs)
    else if name == "bye" then Some(ABye)
    else if name == "read" then Some(ARead)
    else if name == "snapshot" then Some(ASnapshot)
    else if name == "screenshot" then Some(AScreenshot)
    else if name == "wait" then Some(AWait)
    else if name == "open" then Some(AOpen)
    else if name == "goto" then Some(AGoto)
    else if name == "back" then Some(AStep(Back))
    else if name == "forward" then Some(AStep(Forward))
    else if name == "reload" then Some(AStep(Reload))
    else if name == "stop" then Some(AStep(Stop))
    else if name == "select" then Some(ASelect)
    else if name == "close" then Some(AClose)
    else if name == "click" then Some(AClick)
    else if name == "type" then Some(AType)
    else if name == "scroll" then Some(AScroll)
    else if name == "eval" then Some(AEval)
    else None
  }

  function StringsOf(items: seq<Json>): Result<seq<string>, Code> {
    if items == [] then Ok([])
    else if !items[0].Str? then Err(BadRequest)
    else
      var rest :- StringsOf(items[1..]);
      Ok([items[0].s] + rest)
  }

  function HelloOf(fields: Fields): Result<Command, Code> {
    var _ :- Only(fields, {"client", "scopes"});
    var client :- if "client" !in fields then Ok("")
                  else if fields["client"].Str? && Utf8Length(fields["client"].s) <= 400
                  then Ok(fields["client"].s) else Err(BadRequest);
    var scopes :- if "scopes" !in fields then Ok(DEFAULT_SCOPES)
                  else if !fields["scopes"].Arr? then Err(BadRequest)
                  else
                    match StringsOf(fields["scopes"].items)
                    case Ok(names) => ParseList(Join(names, ','), false)
                    case Err(e) => Err(e);
    Ok(Hello(client, scopes))
  }

  function ScrollOf(fields: Fields): Result<Command, Code> {
    var tab :- TabOnly(fields, {"tab", "ref", "dx", "dy"});
    var target :- if "ref" in fields
                  then match Element(fields) case Ok(e) => Ok(Some(e)) case Err(e) => Err(e)
                  else Ok(None);
    var dx :- Offset(fields, "dx");
    var dy :- Offset(fields, "dy");
    Ok(Scroll(tab, target, dx, dy))
  }

  function CommandOf(verb: Verb, fields: Fields): Result<Command, Code> {
    match verb
    case AHello => HelloOf(fields)
    case ARequest =>
      var _ :- Only(fields, {"scope"});
      var name :- TextOf(fields, "scope", 16);
      (match ScopeNamed(name) case Some(scope) => Ok(Request(scope)) case None => Err(BadRequest))
    case AStatus => var _ :- Only(fields, {}); Ok(Status)
    case ATabs => var _ :- Only(fields, {}); Ok(Tabs)
    case ABye => var _ :- Only(fields, {}); Ok(Bye)
    case ARead =>
      var tab :- TabOnly(fields, {"tab", "max_chars"});
      var max :- Count(fields, "max_chars", DEFAULT_READ, MAX_READ);
      Ok(ReadPage(tab, max))
    case ASnapshot =>
      var tab :- TabOnly(fields, {"tab", "max_elements"});
      var max :- Count(fields, "max_elements", DEFAULT_ELEMENTS, MAX_ELEMENTS);
      Ok(Snapshot(tab, max))
    case AScreenshot => var tab :- TabOnly(fields, {"tab"}); Ok(Screenshot(tab))
    case AWait =>
      var tab :- TabOnly(fields, {"tab", "timeout_ms"});
      var timeout :- Timeout(fields);
      Ok(Wait(tab, timeout))
    case AOpen =>
      var _ :- Only(fields, {"url", "wait", "timeout_ms"});
      var url :- TextOf(fields, "url", MAX_URL);
      var wait :- Flag(fields, "wait", true);
      var timeout :- Timeout(fields);
      Ok(Open(url, wait, timeout))
    case AGoto =>
      var tab :- TabOnly(fields, {"tab", "url", "wait", "timeout_ms"});
      var url :- TextOf(fields, "url", MAX_URL);
      var wait :- Flag(fields, "wait", true);
      var timeout :- Timeout(fields);
      Ok(Goto(tab, url, wait, timeout))
    case AStep(step) =>
      var tab :- TabOnly(fields, {"tab", "wait", "timeout_ms"});
      var wait :- Flag(fields, "wait", step != Stop);
      var timeout :- Timeout(fields);
      Ok(History(tab, step, wait, timeout))
    case ASelect => var tab :- TabOnly(fields, {"tab"}); Ok(Select(tab))
    case AClose => var tab :- TabOnly(fields, {"tab"}); Ok(Close(tab))
    case AClick =>
      var tab :- TabOnly(fields, {"tab", "ref"});
      var element :- Element(fields);
      Ok(Click(tab, element))
    case AType =>
      var tab :- TabOnly(fields, {"tab", "ref", "text", "submit"});
      var element :- Element(fields);
      var text :- TextOf(fields, "text", MAX_TEXT);
      var submit :- Flag(fields, "submit", false);
      Ok(Type(tab, element, text, submit))
    case AScroll => ScrollOf(fields)
    case AEval =>
      var tab :- TabOnly(fields, {"tab", "script"});
      var script :- TextOf(fields, "script", MAX_REQUEST);
      Ok(Eval(tab, script))
  }

  function CommandIn(fields: Fields): Result<Command, Code> {
    if "cmd" !in fields || !fields["cmd"].Str? then Err(BadRequest)
    else
      match VerbNamed(fields["cmd"].s)
      case Some(verb) => CommandOf(verb, fields)
      case None => Err(UnknownCommand)
  }

  /** One request line, read as JSON before this, or none if it was not JSON. */
  function ParseRequest(line: Option<Json>): Result<Command, Code> {
    if line.None? || !line.value.Obj? then Err(BadRequest)
    else
      var fields := line.value.fields;
      var id := if "id" in fields then fields["id"] else Null;
      if !(id.Null? || id.Number? || id.Str?) then Err(BadRequest)
      else if id.Str? && Utf8Length(id.s) > 200 then Err(BadRequest)
      else CommandIn(fields)
  }

  // ------------------------------------------------------------- what is read

  /** Scopes a prompt may ask for: some, and script only by itself. */
  predicate Proper(scopes: set<Scope>) {
    scopes != {} && (Script in scopes ==> scopes == {Script})
  }

  predicate GoodTab(tab: nat) {
    0 < tab < 0x1_0000_0000_0000_0000
  }

  predicate GoodReference(text: string) {
    IsReference(text) && Utf8Length(text) <= 16
  }

  /** The commands the limits allow. */
  predicate WellFormed(c: Command) {
    match c
    case Hello(client, scopes) => Utf8Length(client) <= 400 && scopes != {} && Script !in scopes
    case Request(_) => true
    case Status => true
    case Tabs => true
    case Bye => true
    case ReadPage(tab, max) => GoodTab(tab) && max <= 1_000_000
    case Snapshot(tab, max) => GoodTab(tab) && max <= 2_000
    case Screenshot(tab) => GoodTab(tab)
    case Wait(tab, timeout) => GoodTab(tab) && timeout <= 120_000
    case Open(url, _, timeout) => Utf8Length(url) <= 8_192 && timeout <= 120_000
    case Goto(tab, url, _, timeout) => GoodTab(tab) && Utf8Length(url) <= 8_192 && timeout <= 120_000
    case History(tab, _, _, timeout) => GoodTab(tab) && timeout <= 120_000
    case Select(tab) => GoodTab(tab)
    case Close(tab) => GoodTab(tab)
    case Click(tab, element) => GoodTab(tab) && GoodReference(element)
    case Type(tab, element, text, _) =>
      GoodTab(tab) && GoodReference(element) && Utf8Length(text) <= 100_000
    case Scroll(tab, target, dx, dy) =>
      GoodTab(tab) && (target.Some? ==> GoodReference(target.value))
      && -1_000_000 <= dx <= 1_000_000 && -1_000_000 <= dy <= 1_000_000
    case Eval(tab, script) => GoodTab(tab) && Utf8Length(script) <= 1_048_576
  }

  /** The commands that act on what is in a page. */
  predicate ActsInPage(verb: Verb) {
    verb.AClick? || verb.AType? || verb.AScroll? || verb.AEval?
  }

  lemma CommandWithinLimits(verb: Verb, fields: Fields)
    ensures var r := CommandOf(verb, fields); r.Ok? ==> WellFormed(r.value)
  {
    if verb.AHello? {
      HelloWithinLimits(fields);
    } else if ActsInPage(verb) {
      ActWithinLimits(verb, fields);
    } else {
      TabWithinLimits(verb, fields);
    }
  }

  lemma ActWithinLimits(verb: Verb, fields: Fields)
    requires ActsInPage(verb)
    ensures var r := CommandOf(verb, fields); r.Ok? ==> WellFormed(r.value)
  {
  }

  lemma TabWithinLimits(verb: Verb, fields: Fields)
    requires !ActsInPage(verb) && !verb.AHello?
    ensures var r := CommandOf(verb, fields); r.Ok? ==> WellFormed(r.value)
  {
  }

  /** Whatever the JSON, a command read from it is within its limits; in
      particular a hello asks for some scopes, and never for script. */
  lemma ReadWithinLimits(line: Option<Json>)
    ensures var r := ParseRequest(line); r.Ok? ==> WellFormed(r.value)
  {
    if ParseRequest(line).Ok? {
      var fields := line.value.fields;
      var verb := VerbNamed(fields["cmd"].s);
      assert ParseRequest(line) == CommandOf(verb.value, fields);
      CommandWithinLimits(verb.value, fields);
    }
  }

  lemma HelloWithinLimits(fields: Fields)
    ensures var r := HelloOf(fields); r.Ok? ==> WellFormed(r.value)
  {
    if "scopes" in fields && fields["scopes"].Arr? && StringsOf(fields["scopes"].items).Ok? {
      ListExact(Join(StringsOf(fields["scopes"].items).value, ','), false);
    }
  }

  // ------------------------------------------------------------- writing a request

  function VerbOf(c: Command): Verb {
    match c
    case Hello(_, _) => AHello
    case Request(_) => ARequest
    case Status => AStatus
    case Tabs => ATabs
    case Bye => ABye
    case ReadPage(_, _) => ARead
    case Snapshot(_, _) => ASnapshot
    case Screenshot(_) => AScreenshot
    case Wait(_, _) => AWait
    case Open(_, _, _) => AOpen
    case Goto(_, _, _, _) => AGoto
    case History(_, step, _, _) => AStep(step)
    case Select(_) => ASelect
    case Close(_) => AClose
    case Click(_, _) => AClick
    case Type(_, _, _, _) => AType
    case Scroll(_, _, _, _) => AScroll
    case Eval(_, _) => AEval
  }

  function NameOf(verb: Verb): string {
    match verb
    case AHello => "hello"
    case ARequest => "request"
    case AStatus => "status"
    case ATabs => "tabs"
    case ABye => "bye"
    case ARead => "read"
    case ASnapshot => "snapshot"
    case AScreenshot => "screenshot"
    case AWait => "wait"
    case AOpen => "open"
    case AGoto => "goto"
    case AStep(Back) => "back"
    case AStep(Forward) => "forward"
    case AStep(Reload) => "reload"
    case AStep(Stop) => "stop"
    case ASelect => "select"
    case AClose => "close"
    case AClick => "click"
    case AType => "type"
    case AScroll => "scroll"
    case AEval => "eval"
  }

  /** The fields each command may have. */
  function FieldsOf(verb: Verb): set<string> {
    match verb
    case AHello => {"client", "scopes"}
    case ARequest => {"scope"}
    case AStatus => {}
    case ATabs => {}
    case ABye => {}
    case ARead => {"tab", "max_chars"}
    case ASnapshot => {"tab", "max_elements"}
    case AScreenshot => {"tab"}
    case AWait => {"tab", "timeout_ms"}
    case AOpen => {"url", "wait", "timeout_ms"}
    case AGoto => {"tab", "url", "wait", "timeout_ms"}
    case AStep(_) => {"tab", "wait", "timeout_ms"}
    case ASelect => {"tab"}
    case AClose => {"tab"}
    case AClick => {"tab", "ref"}
    case AType => {"tab", "ref", "text", "submit"}
    case AScroll => {"tab", "ref", "dx", "dy"}
    case AEval => {"tab", "script"}
  }

  function Names(scopes: set<Scope>): seq<string> {
    (if Read in scopes then ["read"] else []) + (if Navigate in scopes then ["navigate"] else [])
    + (if Act in scopes then ["act"] else []) + (if Script in scopes then ["script"] else [])
  }

  function Strs(names: seq<string>): seq<Json> {
    if names == [] then [] else [Str(names[0])] + Strs(names[1..])
  }

  function Int(n: int): Json {
    Number(Whole(n))
  }

  /** The fields of a request for `c`, every one given. */
  function Written(c: Command): Fields {
    var cmd := map["cmd" := Str(NameOf(VerbOf(c)))];
    cmd + match c
          case Hello(client, scopes) => map["client" := Str(client), "scopes" := Arr(Strs(Names(scopes)))]
          case Request(scope) => map["scope" := Str(ScopeId(scope))]
          case Status => map[]
          case Tabs => map[]
          case Bye => map[]
          case ReadPage(tab, max) => map["tab" := Int(tab), "max_chars" := Int(max)]
          case Snapshot(tab, max) => map["tab" := Int(tab), "max_elements" := Int(max)]
          case Screenshot(tab) => map["tab" := Int(tab)]
          case Wait(tab, timeout) => map["tab" := Int(tab), "timeout_ms" := Int(timeout)]
          case Open(url, wait, timeout) => map["url" := Str(url), "wait" := Bool(wait), "timeout_ms" := Int(timeout)]
          case Goto(tab, url, wait, timeout) =>
            map["tab" := Int(tab), "url" := Str(url), "wait" := Bool(wait), "timeout_ms" := Int(timeout)]
          case History(tab, _, wait, timeout) =>
            map["tab" := Int(tab), "wait" := Bool(wait), "timeout_ms" := Int(timeout)]
          case Select(tab) => map["tab" := Int(tab)]
          case Close(tab) => map["tab" := Int(tab)]
          case Click(tab, element) => map["tab" := Int(tab), "ref" := Str(element)]
          case Type(tab, element, text, submit) =>
            map["tab" := Int(tab), "ref" := Str(element), "text" := Str(text), "submit" := Bool(submit)]
          case Scroll(tab, target, dx, dy) =>
            var rest := map["tab" := Int(tab), "dx" := Int(dx), "dy" := Int(dy)];
            (match target case Some(e) => rest["ref" := Str(e)] case None => rest)
          case Eval(tab, script) => map["tab" := Int(tab), "script" := Str(script)]
  }

  lemma VerbRoundTrip(verb: Verb)
    ensures VerbNamed(NameOf(verb)) == Some(verb)
  {
    match verb {
      case AHello => case ARequest => case AStatus => case ATabs => case ABye => case ARead =>
      case ASnapshot => case AScreenshot => case AWait => case AOpen => case AGoto =>
      case AStep(step) => match step { case Back => case Forward => case Reload => case Stop => }
      case ASelect => case AClose => case AClick => case AType => case AScroll => case AEval =>
    }
  }

  lemma IdReads(scope: Scope)
    ensures var id := ScopeId(scope);
            Trim(id) == id && id != "" && ',' !in id && ScopeNamed(id) == Some(scope)
  {
    match scope {
      case Read => TrimTight("read");
      case Navigate => TrimTight("navigate");
      case Act => TrimTight("act");
      case Script => TrimTight("script");
    }
  }

  lemma NamesAreIds(scopes: set<Scope>, n: string)
    requires n in Names(scopes)
    ensures exists s | s in scopes :: n == ScopeId(s)
  {
    if n == "read" {
      assert n == ScopeId(Read);
    } else if n == "navigate" {
      assert n == ScopeId(Navigate);
    } else if n == "act" {
      assert n == ScopeId(Act);
    } else {
      assert n == ScopeId(Script);
    }
  }

  lemma IdsAreNames(scopes: set<Scope>, s: Scope)
    requires s in scopes
    ensures ScopeId(s) in Names(scopes)
  {
    match s case Read => case Navigate => case Act => case Script =>
  }

  lemma NamesRead(scopes: set<Scope>)
    ensures forall n | n in Names(scopes) :: Trim(n) == n && n != "" && ',' !in n && ScopeNamed(n).Some?
    ensures forall n | n in Names(scopes) :: ScopeNamed(n).value in scopes
    ensures forall s | s in scopes :: ScopeId(s) in Names(scopes) && ScopeNamed(ScopeId(s)) == Some(s)
  {
    forall n | n in Names(scopes)
      ensures Trim(n) == n && n != "" && ',' !in n && ScopeNamed(n).Some? && ScopeNamed(n).value in scopes
    {
      NamesAreIds(scopes, n);
      var s :| s in scopes && n == ScopeId(s);
      IdReads(s);
    }
    forall s | s in scopes
      ensures ScopeId(s) in Names(scopes) && ScopeNamed(ScopeId(s)) == Some(s)
    {
      IdReads(s);
      IdsAreNames(scopes, s);
    }
  }

  lemma {:induction false} StringsRoundTrip(names: seq<string>)
    ensures StringsOf(Strs(names)) == Ok(names)
  {
    if names != [] {
      StringsRoundTrip(names[1..]);
      assert Strs(names)[1..] == Strs(names[1..]);
      assert names == [names[0]] + names[1..];
    }
  }

  lemma ScopesRoundTrip(scopes: set<Scope>)
    requires scopes != {} && Script !in scopes
    ensures ParseList(Join(Names(scopes), ','), false) == Ok(scopes)
  {
    var names := Names(scopes);
    NamesRead(scopes);
    var some :| some in scopes;
    assert ScopeId(some) in names;
    SplitJoin(names, ',');
    ListExact(Join(names, ','), false);
    forall s: Scope
      ensures s in Named(names) <==> s in scopes
    {
      assert s in {Read, Navigate, Act, Script} by {
        match s case Read => case Navigate => case Act => case Script =>
      }
      if s in scopes {
        var id := ScopeId(s);
        assert id in names && Trim(id) != "" && ScopeNamed(Trim(id)) == Some(s);
      }
    }
    assert Named(names) == scopes;
    assert forall p | p in names :: GoodPart(p, false);
  }

  lemma HelloRoundTrip(client: string, scopes: set<Scope>)
    requires WellFormed(Hello(client, scopes))
    ensures HelloOf(Written(Hello(client, scopes))) == Ok(Hello(client, scopes))
  {
    var fields := Written(Hello(client, scopes));
    StringsRoundTrip(Names(scopes));
    ScopesRoundTrip(scopes);
    assert fields["client"] == Str(client);
    assert fields["scopes"] == Arr(Strs(Names(scopes)));
    assert Only(fields, {"client", "scopes"}).Ok?;
  }

  /** What a request is written with is what its command may have. */
  lemma WrittenFields(c: Command)
    ensures Only(Written(c), FieldsOf(VerbOf(c))).Ok?
  {
  }

  lemma WrittenName(c: Command)
    ensures "cmd" in Written(c) && Written(c)["cmd"] == Str(NameOf(VerbOf(c))) && "id" !in Written(c)
  {
  }

  lemma PageRoundTrip(c: Command)
    requires WellFormed(c) && (c.ReadPage? || c.Snapshot? || c.Screenshot? || c.Wait? || c.Select? || c.Close?)
    ensures CommandOf(VerbOf(c), Written(c)) == Ok(c)
  {
    WrittenFields(c);
    assert Written(c)["tab"] == Int(c.tab);
  }

  lemma OpenRoundTrip(c: Command)
    requires WellFormed(c) && (c.Open? || c.Goto? || c.History?)
    ensures CommandOf(VerbOf(c), Written(c)) == Ok(c)
  {
    WrittenFields(c);
    assert Written(c)["wait"] == Bool(c.wait) && Written(c)["timeout_ms"] == Int(c.timeout);
  }

  lemma ActRoundTrip(c: Command)
    requires WellFormed(c) && (c.Click? || c.Eval?)
    ensures CommandOf(VerbOf(c), Written(c)) == Ok(c)
  {
    WrittenFields(c);
    assert Written(c)["tab"] == Int(c.tab);
  }

  lemma TypeRoundTrip(c: Command)
    requires WellFormed(c) && c.Type?
    ensures CommandOf(VerbOf(c), Written(c)) == Ok(c)
  {
    WrittenFields(c);
    assert Written(c)["tab"] == Int(c.tab) && Written(c)["ref"] == Str(c.element);
    assert Written(c)["text"] == Str(c.text) && Written(c)["submit"] == Bool(c.submit);
  }

  lemma ScrollRoundTrip(c: Command)
    requires WellFormed(c) && c.Scroll?
    ensures CommandOf(VerbOf(c), Written(c)) == Ok(c)
  {
    WrittenFields(c);
    assert Written(c)["tab"] == Int(c.tab);
    assert Written(c)["dx"] == Int(c.dx) && Written(c)["dy"] == Int(c.dy);
    match c.target {
      case Some(e) => assert Written(c)["ref"] == Str(e);
      case None => assert "ref" !in Written(c);
    }
  }

  lemma CommandRoundTrip(c: Command)
    requires WellFormed(c)
    ensures CommandOf(VerbOf(c), Written(c)) == Ok(c)
  {
    if c.ReadPage? || c.Snapshot? || c.Screenshot? || c.Wait? || c.Select? || c.Close? {
      PageRoundTrip(c);
    } else if c.Open? || c.Goto? || c.History? {
      OpenRoundTrip(c);
    } else if c.Click? || c.Eval? {
      ActRoundTrip(c);
    } else if c.Type? {
      TypeRoundTrip(c);
    } else if c.Scroll? {
      ScrollRoundTrip(c);
    } else if c.Hello? {
      HelloRoundTrip(c.client, c.scopes);
    } else {
      PlainRoundTrip(c);
    }
  }

  lemma PlainRoundTrip(c: Command)
    requires c.Request? || c.Status? || c.Tabs? || c.Bye?
    ensures CommandOf(VerbOf(c), Written(c)) == Ok(c)
  {
    WrittenFields(c);
    if c.Request? {
      IdShort(c.scope);
      IdReads(c.scope);
      assert Written(c)["scope"] == Str(ScopeId(c.scope));
    }
  }

  lemma IdShort(scope: Scope)
    ensures Utf8Length(ScopeId(scope)) <= 16
  {
    match scope {
      case Read => ShortAscii("read");
      case Navigate => ShortAscii("navigate");
      case Act => ShortAscii("act");
      case Script => ShortAscii("script");
    }
  }

  lemma {:induction false} ShortAscii(s: string)
    requires forall c | c in s :: c as int < 0x80
    ensures Utf8Length(s) == |s|
  {
    if s != "" {
      assert s[0] in s;
      assert forall c | c in s[1..] :: c in s;
      ShortAscii(s[1..]);
    }
  }

  // ------------------------------------------------------------- fields left out

  /** What a field of a command means when it is left out, if it may be. */
  function DefaultOf(verb: Verb, key: string): Option<Json> {
    match verb
    case AHello =>
      if key == "client" then Some(Str(""))
      else if key == "scopes" then Some(Arr(Strs(Names(DEFAULT_SCOPES)))) else None
    case ARead => if key == "max_chars" then Some(Int(DEFAULT_READ)) else None
    case ASnapshot => if key == "max_elements" then Some(Int(DEFAULT_ELEMENTS)) else None
    case AWait => WaitDefault(key, None)
    case AOpen => WaitDefault(key, Some(true))
    case AGoto => WaitDefault(key, Some(true))
    case AStep(step) => WaitDefault(key, Some(step != Stop))
    case AType => if key == "submit" then Some(Bool(false)) else None
    case AScroll => if key == "dx" || key == "dy" then Some(Int(0)) else None
    case _ => None
  }

  function WaitDefault(key: string, wait: Option<bool>): Option<Json> {
    if key == "timeout_ms" then Some(Int(DEFAULT_WAIT))
    else if key == "wait" && wait.Some? then Some(Bool(wait.value)) else None
  }

  lemma HelloLeftOut(fields: Fields, key: string, given: Fields)
    requires key !in fields && DefaultOf(AHello, key).Some? && given == fields[key := DefaultOf(AHello, key).value]
    ensures CommandOf(AHello, fields) == CommandOf(AHello, given)
  {
    StringsRoundTrip(Names(DEFAULT_SCOPES));
    ScopesRoundTrip(DEFAULT_SCOPES);
    OnlyAlso(fields, key, given, {"client", "scopes"});
  }

  lemma OnlyAlso(fields: Fields, key: string, given: Fields, allowed: set<string>)
    requires given.Keys == fields.Keys + {key} && key in allowed
    ensures Only(fields, allowed) == Only(given, allowed)
  {
  }

  lemma CountLeftOut(verb: Verb, fields: Fields, key: string, given: Fields)
    requires verb.ARead? || verb.ASnapshot? || verb.AWait?
    requires key !in fields && DefaultOf(verb, key).Some? && given == fields[key := DefaultOf(verb, key).value]
    ensures CommandOf(verb, fields) == CommandOf(verb, given)
  {
    OnlyAlso(fields, key, given, FieldsOf(verb));
  }

  lemma WaitLeftOut(verb: Verb, fields: Fields, key: string, given: Fields)
    requires verb.AOpen? || verb.AGoto? || verb.AStep?
    requires key !in fields && DefaultOf(verb, key).Some? && given == fields[key := DefaultOf(verb, key).value]
    ensures CommandOf(verb, fields) == CommandOf(verb, given)
  {
    OnlyAlso(fields, key, given, FieldsOf(verb));
  }

  lemma ActLeftOut(verb: Verb, fields: Fields, key: string, given: Fields)
    requires verb.AType? || verb.AScroll?
    requires key !in fields && DefaultOf(verb, key).Some? && given == fields[key := DefaultOf(verb, key).value]
    ensures CommandOf(verb, fields) == CommandOf(verb, given)
  {
    OnlyAlso(fields, key, given, FieldsOf(verb));
  }

  /** Whatever a request's fields, well-formed or not: to leave out one that may
      be left out is to give it its default. */
  lemma LeftOutIsDefault(verb: Verb, fields: Fields, key: string)
    requires key !in fields && DefaultOf(verb, key).Some?
    ensures CommandOf(verb, fields) == CommandOf(verb, fields[key := DefaultOf(verb, key).value])
  {
    var given := fields[key := DefaultOf(verb, key).value];
    if verb.AHello? {
      HelloLeftOut(fields, key, given);
    } else if verb.ARead? || verb.ASnapshot? || verb.AWait? {
      CountLeftOut(verb, fields, key, given);
    } else if verb.AOpen? || verb.AGoto? || verb.AStep? {
      WaitLeftOut(verb, fields, key, given);
    } else {
      ActLeftOut(verb, fields, key, given);
    }
  }

  /** Fields that say only what leaving them out would. */
  predicate MayLeaveOut(verb: Verb, fields: Fields, keys: set<string>) {
    forall k | k in keys :: k in fields && DefaultOf(verb, k) == Some(fields[k])
  }

  lemma OneLess(fields: Fields, omitted: set<string>, k: string)
    requires k in omitted && k in fields
    ensures (fields - omitted)[k := fields[k]] == fields - (omitted - {k})
  {
  }

  /** And so for any number of them at once. */
  lemma {:induction false} OmittedAreDefaults(verb: Verb, fields: Fields, omitted: set<string>)
    requires MayLeaveOut(verb, fields, omitted)
    ensures CommandOf(verb, fields - omitted) == CommandOf(verb, fields)
    decreases omitted
  {
    if omitted == {} {
      assert fields - omitted == fields;
    } else {
      var k :| k in omitted;
      OmittedAreDefaults(verb, fields, omitted - {k});
      OneLess(fields, omitted, k);
      LeftOutIsDefault(verb, fields - omitted, k);
    }
  }

  /** Every command within its limits can be asked for: what is written reads
      back as itself, also with any fields left out that say only what leaving
      them out would. With `ReadWithinLimits`, the commands that can be read are
      exactly the well-formed ones. */
  lemma RequestRoundTrip(c: Command, omitted: set<string>)
    requires WellFormed(c) && MayLeaveOut(VerbOf(c), Written(c), omitted)
    ensures ParseRequest(Some(Obj(Written(c) - omitted))) == Ok(c)
  {
    VerbRoundTrip(VerbOf(c));
    WrittenName(c);
    CommandRoundTrip(c);
    OmittedAreDefaults(VerbOf(c), Written(c), omitted);
    assert "cmd" !in omitted by { assert DefaultOf(VerbOf(c), "cmd").None?; }
  }

  /** An id is no part of what is asked, if it is a number, or text of 200 bytes at
      most, or null; any other is refused. */
  lemma IdIs(fields: Fields, id: Json)
    requires "id" !in fields
    ensures ParseRequest(Some(Obj(fields["id" := id]))) ==
            if id == Null || id.Number? || (id.Str? && Utf8Length(id.s) <= 200) then ParseRequest(Some(Obj(fields)))
            else Err(BadRequest)
  {
    var given := fields["id" := id];
    if "cmd" in fields && fields["cmd"].Str? && VerbNamed(fields["cmd"].s).Some? {
      IdAside(VerbNamed(fields["cmd"].s).value, fields, given, id);
    }
  }

  lemma OnlyAside(fields: Fields, given: Fields, allowed: set<string>)
    requires given.Keys == fields.Keys + {"id"}
    ensures Only(given, allowed) == Only(fields, allowed)
  {
  }

  lemma PlainAside(verb: Verb, fields: Fields, given: Fields, id: Json)
    requires given == fields["id" := id]
    requires verb.ARequest? || verb.AStatus? || verb.ATabs? || verb.ABye? || verb.AHello?
    ensures CommandOf(verb, given) == CommandOf(verb, fields)
  {
    OnlyAside(fields, given, FieldsOf(verb));
  }

  lemma PageAside(verb: Verb, fields: Fields, given: Fields, id: Json)
    requires given == fields["id" := id]
    requires verb.ARead? || verb.ASnapshot? || verb.AScreenshot? || verb.AWait? || verb.ASelect? || verb.AClose?
    ensures CommandOf(verb, given) == CommandOf(verb, fields)
  {
    OnlyAside(fields, given, FieldsOf(verb));
  }

  lemma OpenAside(verb: Verb, fields: Fields, given: Fields, id: Json)
    requires given == fields["id" := id]
    requires verb.AOpen? || verb.AGoto? || verb.AStep?
    ensures CommandOf(verb, given) == CommandOf(verb, fields)
  {
    OnlyAside(fields, given, FieldsOf(verb));
  }

  lemma ActAside(verb: Verb, fields: Fields, given: Fields, id: Json)
    requires given == fields["id" := id]
    requires verb.AClick? || verb.AType? || verb.AScroll? || verb.AEval?
    ensures CommandOf(verb, given) == CommandOf(verb, fields)
  {
    OnlyAside(fields, given, FieldsOf(verb));
  }

  lemma IdAside(verb: Verb, fields: Fields, given: Fields, id: Json)
    requires given == fields["id" := id]
    ensures CommandOf(verb, given) == CommandOf(verb, fields)
  {
    if verb.ARequest? || verb.AStatus? || verb.ATabs? || verb.ABye? || verb.AHello? {
      PlainAside(verb, fields, given, id);
    } else if verb.AOpen? || verb.AGoto? || verb.AStep? {
      OpenAside(verb, fields, given, id);
    } else if verb.AClick? || verb.AType? || verb.AScroll? || verb.AEval? {
      ActAside(verb, fields, given, id);
    } else {
      PageAside(verb, fields, given, id);
    }
  }

  /** What cannot be a request: what is not JSON, or no object, or has no known
      command. */
  lemma NoCommand(line: Option<Json>)
    ensures line.None? || !line.value.Obj? ==> ParseRequest(line) == Err(BadRequest)
    ensures line.Some? && line.value.Obj? && "id" !in line.value.fields ==>
              && ("cmd" !in line.value.fields || !line.value.fields["cmd"].Str? ==> ParseRequest(line) == Err(BadRequest))
              && ("cmd" in line.value.fields && line.value.fields["cmd"].Str? && VerbNamed(line.value.fields["cmd"].s).None?
                  ==> ParseRequest(line) == Err(UnknownCommand))
  {
  }

  /** What is said by `fields` is `c`, written without some of what need not be. */
  lemma Says(c: Command, omitted: set<string>, fields: Fields)
    requires WellFormed(c) && MayLeaveOut(VerbOf(c), Written(c), omitted) && fields == Written(c) - omitted
    ensures ParseRequest(Some(Obj(fields))) == Ok(c)
  {
    RequestRoundTrip(c, omitted);
  }

  /** The names, as a program writes them, and what is meant by saying no more. */
  lemma ReadSaid(tab: nat)
    requires 0 < tab < USIZE
    ensures ParseRequest(Some(Obj(map["cmd" := Str("read"), "tab" := Int(tab)]))) == Ok(ReadPage(tab, 100_000))
  {
    Says(ReadPage(tab, 100_000), {"max_chars"}, map["cmd" := Str("read"), "tab" := Int(tab)]);
  }

  lemma HelloSaid()
    ensures ParseRequest(Some(Obj(map["cmd" := Str("hello")]))) == Ok(Hello("", {Read, Navigate, Act}))
  {
    var c := Hello("", {Read, Navigate, Act});
    assert Written(c) - {"client", "scopes"} == map["cmd" := Str("hello")];
    Says(c, {"client", "scopes"}, map["cmd" := Str("hello")]);
  }

  lemma SnapshotSaid(tab: nat)
    requires 0 < tab < USIZE
    ensures ParseRequest(Some(Obj(map["cmd" := Str("snapshot"), "tab" := Int(tab)]))) == Ok(Snapshot(tab, 300))
  {
    Says(Snapshot(tab, 300), {"max_elements"}, map["cmd" := Str("snapshot"), "tab" := Int(tab)]);
  }

  lemma WaitSaid(tab: nat)
    requires 0 < tab < USIZE
    ensures ParseRequest(Some(Obj(map["cmd" := Str("wait"), "tab" := Int(tab)]))) == Ok(Wait(tab, 30_000))
  {
    Says(Wait(tab, 30_000), {"timeout_ms"}, map["cmd" := Str("wait"), "tab" := Int(tab)]);
  }

  lemma OpenSaid(url: string)
    requires Utf8Length(url) <= 8192
    ensures ParseRequest(Some(Obj(map["cmd" := Str("open"), "url" := Str(url)]))) == Ok(Open(url, true, 30_000))
  {
    OpenWritten(url);
    Says(Open(url, true, 30_000), {"wait", "timeout_ms"}, map["cmd" := Str("open"), "url" := Str(url)]);
  }

  lemma OpenWritten(url: string)
    ensures Written(Open(url, true, 30_000)) - {"wait", "timeout_ms"} == map["cmd" := Str("open"), "url" := Str(url)]
    ensures MayLeaveOut(AOpen, Written(Open(url, true, 30_000)), {"wait", "timeout_ms"})
  {
  }

  lemma BackSaid(tab: nat)
    requires 0 < tab < USIZE
    ensures ParseRequest(Some(Obj(map["cmd" := Str("back"), "tab" := Int(tab)]))) == Ok(History(tab, Back, true, 30_000))
  {
    Says(History(tab, Back, true, 30_000), {"wait", "timeout_ms"}, map["cmd" := Str("back"), "tab" := Int(tab)]);
  }

  lemma StopSaid(tab: nat)
    requires 0 < tab < USIZE
    ensures ParseRequest(Some(Obj(map["cmd" := Str("stop"), "tab" := Int(tab)]))) == Ok(History(tab, Stop, false, 30_000))
  {
    Says(History(tab, Stop, false, 30_000), {"wait", "timeout_ms"}, map["cmd" := Str("stop"), "tab" := Int(tab)]);
  }

  /** A tab is a number from one up that 64 bits hold. */
  lemma TabSaid(n: int)
    ensures ParseRequest(Some(Obj(map["cmd" := Str("select"), "tab" := Int(n)]))) ==
            if 0 < n < 18_446_744_073_709_551_616 then Ok(Select(n)) else Err(BadRequest)
  {
    var fields := map["cmd" := Str("select"), "tab" := Int(n)];
    assert fields["tab"] == Int(n) && fields["cmd"] == Str("select");
    assert Only(fields, {"tab"}).Ok?;
    assert ParseRequest(Some(Obj(fields))) == CommandOf(ASelect, fields);
  }

  lemma EvalSaid(tab: nat, script: string)
    requires 0 < tab < USIZE && Utf8Length(script) <= 1_048_576
    ensures ParseRequest(Some(Obj(map["cmd" := Str("eval"), "tab" := Int(tab), "script" := Str(script)])))
            == Ok(Eval(tab, script))
  {
    EvalWritten(tab, script);
    Says(Eval(tab, script), {}, Written(Eval(tab, script)) - {});
  }

  lemma EvalWritten(tab: nat, script: string)
    ensures Written(Eval(tab, script)) - {} == map["cmd" := Str("eval"), "tab" := Int(tab), "script" := Str(script)]
  {
  }

  /** A request with a field its command does not have is refused, never
      guessed at. */
  lemma UnknownFieldRefused(verb: Verb, fields: Fields, key: string)
    requires key in fields && key != "id" && key != "cmd" && key !in FieldsOf(verb)
    ensures CommandOf(verb, fields) == Err(BadRequest)
  {
    assert !(fields.Keys <= FieldsOf(verb) + {"id", "cmd"}) by {
      assert key in fields.Keys && key !in FieldsOf(verb) + {"id", "cmd"};
    }
  }
}
