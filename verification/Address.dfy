/** What the address field makes of what was typed, and what is opened when
    another application asks, or a session is read back. Parsing a URL is a
    function given from outside; all that is asked of it is that the scheme it
    finds is the one written, in lower case. */
module Address {
  import opened Wrappers
  import opened Text

  datatype Host = Domain(name: string) | V4(ip: nat) | V6(ip: nat)

  datatype Url = Url(scheme: string, host: Option<Host>, rest: string)

  type Parser = string -> Option<Url>

  /** Where words typed are sent: nowhere, when search is off. */
  datatype Search = Off | Engine(id: string)

  datatype Why = Zoned | NotWeb | OtherScheme(scheme: string) | SearchIsOff

  datatype Typed = Load(url: Url) | Searched(engine: string, words: string) | Empty | Refused(why: Why)

  datatype Asked = Open(url: Url) | AskRefused(why: Why)

  const OPAQUE: set<string> := {"about", "javascript", "data", "file", "mailto", "blob"}

  // ------------------------------------------------------------- pieces of text

  predicate StartsWith(s: string, prefix: string) {
    prefix <= s
  }

  /** Where `pattern` first is in `s`. */
  function Find(s: string, pattern: string): (at: Option<nat>)
    ensures at.Some? ==> at.value <= |s| && pattern <= s[at.value..]
  {
    if StartsWith(s, pattern) then Some(0)
    else if s == "" then None
    else
      var later := Find(s[1..], pattern);
      if later.Some? then Some(later.value + 1) else None
  }

  lemma {:induction false} FindAt(s: string, pattern: string, n: nat)
    requires pattern != "" && n <= |s| && pattern <= s[n..] && forall i | 0 <= i < n :: s[i] != pattern[0]
    ensures Find(s, pattern) == Some(n)
    decreases n
  {
    if n > 0 {
      var rest := s[1..];
      assert rest[n - 1..] == s[n..];
      FindAt(rest, pattern, n - 1);
      FindLater(s, pattern, rest);
    } else {
      assert s[0..] == s;
    }
  }

  lemma FindFirst(a: string, pattern: string, b: string)
    requires pattern != "" && forall c | c in a :: c != pattern[0]
    ensures Find(a + pattern + b, pattern) == Some(|a|)
  {
    var s := a + pattern + b;
    assert s[|a|..] == pattern + b;
    assert forall i | 0 <= i < |a| :: s[i] == a[i] && a[i] in a;
    FindAt(s, pattern, |a|);
  }

  lemma FindLater(s: string, pattern: string, rest: string)
    requires s != "" && pattern != "" && s[0] != pattern[0] && s[1..] == rest
    ensures Find(s, pattern) == if Find(rest, pattern).Some? then Some(Find(rest, pattern).value + 1) else None
  {
  }

  lemma {:induction false} FindNone(s: string, pattern: string)
    requires pattern != "" && forall c | c in s :: c != pattern[0]
    ensures Find(s, pattern) == None
  {
    if s != "" {
      assert s[0] in s && forall c | c in s[1..] :: c in s;
      FindNone(s[1..], pattern);
    }
  }

  /** Up to the first of `stops`, or all. */
  function Until(s: string, stops: set<char>): string {
    if s == "" || s[0] in stops then "" else [s[0]] + Until(s[1..], stops)
  }

  lemma {:induction false} UntilStop(a: string, b: string, stops: set<char>)
    requires forall c | c in a :: c !in stops
    requires b == "" || b[0] in stops
    ensures Until(a + b, stops) == a
  {
    if a != "" {
      assert (a + b)[1..] == a[1..] + b;
      UntilStop(a[1..], b, stops);
    } else {
      assert a + b == b;
    }
  }

  // ------------------------------------------------------------- schemes and zones

  predicate SchemeChar(c: char) {
    IsAlphanumeric(c) || c == '+' || c == '-' || c == '.'
  }

  predicate ValidScheme(s: string) {
    s != "" && IsAlphabetic(s[0]) && forall i | 0 <= i < |s| :: SchemeChar(s[i])
  }

  /** The scheme of `text`, when it plainly has one. */
  function ExplicitScheme(text: string): Option<string> {
    var colon := Find(text, ":");
    if colon.None? then None
    else
      var scheme, rest := text[..colon.value], text[colon.value + 1..];
      if !ValidScheme(scheme) then None
      else if StartsWith(rest, "//") || Lower(scheme) in OPAQUE then Some(Lower(scheme)) else None
  }

  /** Whether an address names an IPv6 host with a zone. */
  function HasZone(address: string): bool {
    var mark := Find(address, "://");
    var rest := if mark.Some? then address[mark.value + 3..] else address;
    var authority := Until(rest, {'/', '?', '#'});
    var open := Find(authority, "[");
    open.Some? && '%' in Until(authority[open.value + 1..], {']'})
  }

  lemma NoColon(scheme: string)
    requires ValidScheme(scheme)
    ensures forall c | c in scheme :: c != ':'
  {
  }

  /** Letters, digits and `+-.`, a letter first. */
  predicate WellNamed(scheme: string) {
    scheme != "" && ('a' <= scheme[0] <= 'z' || 'A' <= scheme[0] <= 'Z') &&
    forall i | 0 <= i < |scheme| ::
      || 'a' <= scheme[i] <= 'z' || 'A' <= scheme[i] <= 'Z' || '0' <= scheme[i] <= '9'
      || scheme[i] == '+' || scheme[i] == '-' || scheme[i] == '.'
  }

  /** Of the schemes written without slashes. */
  predicate Slashless(scheme: string) {
    || scheme == "about" || scheme == "javascript" || scheme == "data" || scheme == "file"
    || scheme == "mailto" || scheme == "blob"
  }

  /** `scheme` is what text has before its first colon, and it is plainly a
      scheme: slashes follow, or it is one that needs none. */
  predicate PlainScheme(text: string, scheme: string) {
    && WellNamed(scheme) && |text| > |scheme| && text[..|scheme|] == scheme && text[|scheme|] == ':'
    && ((|text| >= |scheme| + 3 && text[|scheme| + 1] == '/' && text[|scheme| + 2] == '/') || Slashless(Lower(scheme)))
  }

  /** Text has a scheme exactly if it plainly does, and that, in lower case, is
      it. */
  lemma SchemeIs(text: string, scheme: string)
    ensures PlainScheme(text, scheme) ==> ExplicitScheme(text) == Some(Lower(scheme))
    ensures ExplicitScheme(text).Some? ==>
              exists written :: PlainScheme(text, written) && ExplicitScheme(text) == Some(Lower(written))
  {
    if PlainScheme(text, scheme) {
      var rest := text[|scheme| + 1..];
      assert text == scheme + ":" + rest;
      assert ValidScheme(scheme);
      NoColon(scheme);
      FindFirst(scheme, ":", rest);
      assert text[..|scheme|] == scheme;
      SlashesFollow(rest);
    }
    if ExplicitScheme(text).Some? {
      var colon := Find(text, ":").value;
      SlashesFollow(text[colon + 1..]);
      assert PlainScheme(text, text[..colon]);
    }
  }

  lemma SlashesFollow(rest: string)
    ensures StartsWith(rest, "//") <==> |rest| >= 2 && rest[0] == '/' && rest[1] == '/'
  {
  }

  /** A scheme written is a scheme read, in lower case. */
  lemma SchemeWritten(scheme: string, rest: string)
    requires ValidScheme(scheme)
    ensures ExplicitScheme(scheme + "://" + rest) == Some(Lower(scheme))
  {
    NoColon(scheme);
    var text := scheme + "://" + rest;
    assert text == scheme + ":" + ("//" + rest);
    FindFirst(scheme, ":", "//" + rest);
    assert text[..|scheme|] == scheme && text[|scheme| + 1..] == "//" + rest;
  }

  /** The host in brackets of an address as it is written: what comes before it
      (a user's name), in it, and after it (a port), and then a path, a query or
      a fragment. An address has a zone exactly when that host has a `%`. */
  lemma ZoneWritten(scheme: string, user: string, host: string, port: string, tail: string)
    requires ValidScheme(scheme)
    requires forall c | c in user :: c !in {'[', '/', '?', '#'}
    requires forall c | c in host :: c !in {']', '/', '?', '#'}
    requires forall c | c in port :: c !in {'/', '?', '#'}
    requires tail == "" || tail[0] in {'/', '?', '#'}
    ensures HasZone(scheme + "://" + (user + "[" + (host + ("]" + port)) + tail)) <==> '%' in host
  {
    NoColon(scheme);
    var authority := user + "[" + (host + ("]" + port));
    var address := scheme + "://" + (authority + tail);
    FindFirst(scheme, "://", authority + tail);
    assert address[|scheme| + 3..] == authority + tail;
    BracketedHost(user, host, port, tail);
  }

  lemma BracketedHost(user: string, host: string, port: string, tail: string)
    requires forall c | c in user :: c !in {'[', '/', '?', '#'}
    requires forall c | c in host :: c !in {']', '/', '?', '#'}
    requires forall c | c in port :: c !in {'/', '?', '#'}
    requires tail == "" || tail[0] in {'/', '?', '#'}
    ensures var authority := user + "[" + (host + ("]" + port));
            && Until(authority + tail, {'/', '?', '#'}) == authority && Find(authority, "[") == Some(|user|)
            && Until(authority[|user| + 1..], {']'}) == host
  {
    var authority := user + "[" + (host + ("]" + port));
    UntilStop(authority, tail, {'/', '?', '#'});
    FindFirst(user, "[", host + ("]" + port));
    assert authority[|user| + 1..] == host + ("]" + port);
    UntilStop(host, "]" + port, {']'});
  }

  /** The same of one typed with no scheme. */
  lemma ZoneBare(user: string, host: string, port: string, tail: string)
    requires forall c | c in user :: c !in {'[', '/', '?', '#'}
    requires forall c | c in host :: c !in {']', '/', '?', '#'}
    requires forall c | c in port :: c !in {'/', '?', '#'}
    requires tail == "" || tail[0] in {'/', '?', '#'}
    requires Find(user + "[" + (host + ("]" + port)) + tail, "://").None?
    ensures HasZone(user + "[" + (host + ("]" + port)) + tail) <==> '%' in host
  {
    BracketedHost(user, host, port, tail);
  }

  /** Nothing has a zone without brackets around its host. */
  lemma NoBracketNoZone(scheme: string, authority: string, tail: string)
    requires ValidScheme(scheme) && forall c | c in authority :: c !in {'[', '/', '?', '#'}
    requires tail == "" || tail[0] in {'/', '?', '#'}
    ensures !HasZone(scheme + "://" + (authority + tail))
  {
    NoColon(scheme);
    FindFirst(scheme, "://", authority + tail);
    assert (scheme + "://" + (authority + tail))[|scheme| + 3..] == authority + tail;
    UntilStop(authority, tail, {'/', '?', '#'});
    FindNone(authority, "[");
  }

  // ------------------------------------------------------------- what is opened

  /** All that is asked of a parser: the scheme it finds is the one written. */
  ghost predicate Lawful(parse: Parser) {
    forall text :: parse(text).Some? && ExplicitScheme(text).Some? ==> parse(text).value.scheme == ExplicitScheme(text).value
  }

  predicate IsWeb(scheme: string) {
    scheme == "http" || scheme == "https"
  }

  predicate HasHost(url: Url) {
    url.host.Some? && (url.host.value.Domain? ==> url.host.value.name != "")
  }

  predicate LooksLikeAHost(host: Host) {
    host.Domain? ==>
      host.name == "localhost" || ('.' in host.name && host.name[|host.name| - 1] != '.')
  }

  function Interpret(parse: Parser, input: string, search: Search): Typed {
    var text := Trim(input);
    if text == "" then Empty
    else
      var scheme := ExplicitScheme(text);
      if (scheme.None? || IsWeb(scheme.value)) && HasZone(text) then Refused(Zoned)
      else if scheme.Some? then
        if IsWeb(scheme.value) then
          var url := parse(text);
          if url.Some? && HasHost(url.value) then Load(url.value) else Refused(NotWeb)
        else if scheme.value == "about" && Lower(text) == "about:blank" then Load(Url("about", None, "blank"))
        else Refused(OtherScheme(scheme.value))
      else
        var url := parse("https://" + text);
        if (forall i | 0 <= i < |text| :: !IsWhitespace(text[i]))
           && url.Some? && url.value.host.Some? && LooksLikeAHost(url.value.host.value)
        then Load(url.value)
        else if search.Off? then Refused(SearchIsOff) else Searched(search.id, text)
  }

  function Ask(parse: Parser, address: string): Asked {
    var text := Trim(address);
    var scheme := ExplicitScheme(text);
    if scheme.None? then AskRefused(NotWeb)
    else if !IsWeb(scheme.value) then AskRefused(OtherScheme(scheme.value))
    else if HasZone(text) then AskRefused(Zoned)
    else
      var url := parse(text);
      if url.Some? && HasHost(url.value) then Open(url.value) else AskRefused(NotWeb)
  }

  /** Written with a web scheme, from its first character on. */
  predicate WrittenAsWeb(address: string) {
    (|address| >= 7 && Lower(address[..7]) == "http://") || (|address| >= 8 && Lower(address[..8]) == "https://")
  }

  /** Whether an address is one a tab may be saved, and opened again, with. */
  predicate Savable(parse: Parser, address: string) {
    WrittenAsWeb(address) &&
    var typed := Interpret(parse, address, Off);
    typed.Load? && IsWeb(typed.url.scheme)
  }

  // ------------------------------------------------------------- what that comes to

  lemma WrittenScheme(text: string)
    requires WrittenAsWeb(text)
    ensures ExplicitScheme(text).Some? && IsWeb(ExplicitScheme(text).value)
  {
    var n := if |text| >= 7 && Lower(text[..7]) == "http://" then 4 else 5;
    var scheme := text[..n];
    var lower := Lower(text[..n + 3]);
    assert forall i | 0 <= i < n + 3 :: lower[i] == LowerChar(text[i]);
    assert text[n] == ':' && text[n + 1] == '/' && text[n + 2] == '/';
    assert text == scheme + "://" + text[n + 3..];
    assert forall i | 0 <= i < n :: SchemeChar(scheme[i]);
    SchemeWritten(scheme, text[n + 3..]);
    assert Lower(scheme) == lower[..n];
  }

  lemma WrittenTrims(address: string)
    requires WrittenAsWeb(address)
    ensures WrittenAsWeb(Trim(address)) && Trim(address) <= address
  {
    var n := if |address| >= 7 && Lower(address[..7]) == "http://" then 7 else 8;
    assert LowerChar(address[0]) == Lower(address[..n])[0] == 'h';
    assert TrimStart(address) == address;
    var b := TrimEndLeaves(address);
    assert LowerChar(address[n - 1]) == Lower(address[..n])[n - 1] == '/';
    assert forall i | |TrimEnd(address)| <= i < |address| :: address[i] == b[i - |TrimEnd(address)|];
    assert !IsWhitespace(address[n - 1]);
    assert Lower(Trim(address)[..n]) == Lower(address[..n]);
  }

  /** A tab may be saved with exactly the addresses, written with their scheme
      from the first character on, that another application may ask to open;
      and it is opened again with the same page. */
  lemma SavableIsAsked(parse: Parser, address: string)
    requires Lawful(parse)
    ensures Savable(parse, address) <==> WrittenAsWeb(address) && Ask(parse, address).Open?
    ensures Savable(parse, address) ==> Interpret(parse, address, Off) == Load(Ask(parse, address).url)
  {
    if WrittenAsWeb(address) {
      WrittenTrims(address);
      WrittenScheme(Trim(address));
    }
  }

  lemma AskedIsWritten(text: string)
    requires ExplicitScheme(text).Some? && IsWeb(ExplicitScheme(text).value)
    ensures WrittenAsWeb(text)
  {
    var colon := Find(text, ":").value;
    var scheme, rest := text[..colon], text[colon + 1..];
    assert |Lower(scheme)| == colon;
    assert Lower(scheme) !in OPAQUE;
    assert StartsWith(rest, "//");
    assert text[..colon + 3] == scheme + "://";
    var lower := Lower(text[..colon + 3]);
    assert lower == Lower(scheme) + "://";
  }

  lemma TrimTwice(s: string)
    ensures Trim(Trim(s)) == Trim(s)
  {
    TrimLeaves(s);
    TrimTight(Trim(s));
  }

  /** What another application may ask to open is, but for whitespace around
      it, what a tab may be saved with. */
  lemma AskedIsSavable(parse: Parser, address: string)
    requires Lawful(parse)
    ensures Ask(parse, address).Open? <==> Savable(parse, Trim(address))
  {
    TrimTwice(address);
    SavableIsAsked(parse, Trim(address));
    if Ask(parse, address).Open? {
      AskedIsWritten(Trim(address));
    }
  }

  lemma SecureScheme(text: string)
    ensures ExplicitScheme("https://" + text) == Some("https")
  {
    SchemeWritten("https", text);
    assert Lower("https") == "https";
    assert "https" + "://" + text == "https://" + text;
  }

  /** `url` names a host. */
  predicate NamesHost(url: Option<Url>) {
    url.Some? && url.value.host.Some? && url.value.host != Some(Domain(""))
  }

  /** The host of `url` is one a person means by typing it: an address, localhost,
      or a name with a dot in it and none after it. */
  predicate MeantHost(url: Option<Url>) {
    url.Some? && url.value.host.Some? &&
    match url.value.host.value
    case V4(_) => true
    case V6(_) => true
    case Domain(name) =>
      name == "localhost" || ((exists i | 0 <= i < |name| :: name[i] == '.') && name[|name| - 1] != '.')
  }

  lemma DotIn(name: string)
    ensures '.' in name <==> exists i | 0 <= i < |name| :: name[i] == '.'
  {
  }

  /** What is made of text typed with no scheme: an address over https, if it has
      no space in it and names a host a person would mean; refused, with a zone;
      and otherwise words, searched for if there is an engine. */
  lemma TypedBare(parse: Parser, input: string, search: Search)
    requires Trim(input) != "" && ExplicitScheme(Trim(input)).None?
    ensures var text, typed := Trim(input), Interpret(parse, input, search);
            var url := parse("https://" + text);
            if HasZone(text) then typed == Refused(Zoned)
            else if MeantHost(url) && forall c | c in text :: !IsWhitespace(c) then typed == Load(url.value)
            else if search == Off then typed == Refused(SearchIsOff)
            else typed == Searched(search.id, text)
  {
    var text := Trim(input);
    var url := parse("https://" + text);
    assert (forall c | c in text :: !IsWhitespace(c)) <==> forall i | 0 <= i < |text| :: !IsWhitespace(text[i]);
    if url.Some? && url.value.host.Some? && url.value.host.value.Domain? {
      DotIn(url.value.host.value.name);
    }
  }

  /** And of text with one: the web's, if it names a host and has no zone; the
      blank page; and nothing else. */
  lemma TypedWithScheme(parse: Parser, input: string, search: Search)
    requires Trim(input) != "" && ExplicitScheme(Trim(input)).Some?
    ensures var text, typed := Trim(input), Interpret(parse, input, search);
            var scheme := ExplicitScheme(text).value;
            if scheme == "http" || scheme == "https" then
              typed == if HasZone(text) then Refused(Zoned)
                       else if NamesHost(parse(text)) then Load(parse(text).value) else Refused(NotWeb)
            else if scheme == "about" && Lower(text) == "about:blank" then typed == Load(Url("about", None, "blank"))
            else typed == Refused(OtherScheme(scheme))
  {
  }

  /** What another application asks for is opened exactly if it is written with a
      web scheme, has no zone and names a host: never blank, never searched for. */
  lemma AskedIs(parse: Parser, address: string)
    ensures var text, asked := Trim(address), Ask(parse, address);
            var scheme := ExplicitScheme(text);
            if scheme == Some("http") || scheme == Some("https") then
              asked == if HasZone(text) then AskRefused(Zoned)
                       else if NamesHost(parse(text)) then Open(parse(text).value) else AskRefused(NotWeb)
            else asked == AskRefused(if scheme.None? then NotWeb else OtherScheme(scheme.value))
  {
  }

  /** Whatever is typed, what is loaded is a page of the web's, or the one blank
      page; an address with a zone is never loaded; what has a scheme is never
      searched for; and with search off nothing is. */
  lemma TypedOpensTheWeb(parse: Parser, input: string, search: Search)
    requires Lawful(parse)
    ensures var typed, text := Interpret(parse, input, search), Trim(input);
            && (typed.Load? ==> IsWeb(typed.url.scheme) || Lower(text) == "about:blank")
            && (typed.Load? && HasZone(text) ==> Lower(text) == "about:blank")
            && (typed.Searched? ==> search.Engine? && ExplicitScheme(text).None? && !HasZone(text) && typed.words == text)
            && (typed.Empty? <==> text == "")
  {
    var text := Trim(input);
    SecureScheme(text);
    if text != "" && ExplicitScheme(text) == Some("about") && Lower(text) == "about:blank" {
      assert Interpret(parse, input, search).Load?;
    }
  }
}
