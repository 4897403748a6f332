/** Whose hook is this? The gate in front of every rewrite of a user's settings.json. */
module HookAuthorship {
  import opened Text
  import opened Json
  import opened HookRegistry

  /** What `urlsplit` reports of a URL; the port is already rendered in decimal. */
  datatype Url = Url(scheme: string, hostname: string, port: Option<string>)

  /** The library calls the verdicts rest on: URL splitting and the regex class `\w` beyond ASCII. */
  datatype Host = Host(split: string -> Url, wordBeyondAscii: char -> bool) {
    function IsWord(): char -> bool {
      c => 'a' <= c <= 'z' || 'A' <= c <= 'Z' || '0' <= c <= '9' || c == '_'
           || (c >= '\U{80}' && wordBeyondAscii(c))
    }
  }

  const LOOPBACK_HOSTS := ["localhost", "127.0.0.1", "[::1]"]

  /** The base URL under each loopback spelling, or alone when its host is not a loopback name. */
  function EquivalentBases(h: Host, base: string): (aliases: seq<string>)
    ensures aliases != []
  {
    var url := h.split(base);
    var token := if ':' in url.hostname then "[" + url.hostname + "]" else url.hostname;
    if token !in LOOPBACK_HOSTS then [base]
    else
      var port := match url.port case Some(p) => ":" + p case None => "";
      [url.scheme + "://" + token + port] + AliasesExcept(LOOPBACK_HOSTS, token, url.scheme, port)
  }

  function AliasesExcept(hosts: seq<string>, token: string, scheme: string, port: string): seq<string> {
    if hosts == [] then []
    else (if hosts[0] == token then [] else [scheme + "://" + hosts[0] + port])
         + AliasesExcept(hosts[1..], token, scheme, port)
  }

  /** What the caller passes on: the base URL without trailing slashes. */
  function Aliases(h: Host, base: string): (aliases: seq<string>)
    ensures aliases != []
  {
    EquivalentBases(h, DropTrailing(base, '/'))
  }

  /** The sidecar's base URL is spelled the way the alias builder spells it. */
  predicate Canonical(h: Host, base: string) {
    DropTrailing(base, '/') in Aliases(h, base)
  }

  datatype Authorship = Current | Stale | Foreign

  predicate TargetsEndpoint(h: Host, command: string, path: string, aliases: seq<string>) {
    exists i | 0 <= i < |aliases| :: ContainsBounded(command, aliases[i] + path, h.IsWord())
  }

  predicate IsCurrentForm(command: string, spec: HookEvent, aliases: seq<string>) {
    exists i | 0 <= i < |aliases| :: command == Strip(CurlCommand(aliases[i], spec))
  }

  /** The two shapes earlier releases minted. */
  function LegacyCommand(fail: bool, url: string): string {
    CurlOpening(fail) + "--data-binary @- " + url + CurlSuffix(!fail)
  }

  predicate IsLegacyForm(command: string, spec: HookEvent, aliases: seq<string>) {
    exists i, fail | 0 <= i < |aliases| :: command == LegacyCommand(fail, aliases[i] + spec.path)
  }

  predicate IsLegacyUrl(url: string, spec: HookEvent, aliases: seq<string>) {
    exists i | 0 <= i < |aliases| :: url == aliases[i] + spec.path
  }

  /** `hook_authorship`, for a hook filed under `spec.event`. */
  function Grade(h: Host, hook: Dict, spec: HookEvent, base: string): Authorship {
    var aliases := Aliases(h, base);
    match hook.Get("command")
    case Str(command) =>
      var stripped := Strip(command);
      if !TargetsEndpoint(h, stripped, spec.path, aliases) then Foreign
      else if Contains(stripped, MARKER_HEADER) then
        if IsCurrentForm(stripped, spec, aliases) then Current else Stale
      else if IsLegacyForm(stripped, spec, aliases) then Stale else Foreign
    case _ =>
      match hook.Get("url")
      case Str(url) => if IsLegacyUrl(Strip(url), spec, aliases) then Stale else Foreign
      case _ => Foreign
  }

  const HOOK_TIMEOUT := 6

  /** The hook `build_hook_settings` mints for an event. */
  function DesiredHook(spec: HookEvent, base: string): Dict {
    Dict(["type", "command", "timeout"],
         map["type" := Str("command"),
             "command" := Str(CurlCommand(DropTrailing(base, '/'), spec)),
             "timeout" := Num(Int(HOOK_TIMEOUT))])
  }

  lemma {:induction false} DesiredTargets(h: Host, spec: HookEvent, prefix: string)
    ensures ContainsBounded(CurlCommand(prefix, spec), prefix + spec.path, h.IsWord())
  {
    ConcatContainsBounded(CurlPrefix(spec.discardsStdout), prefix + spec.path,
                          CurlSuffix(spec.discardsStdout), h.IsWord());
  }

  /** Equal commands were minted for equal base URLs. */
  lemma {:induction false} CurlIsInjective(b1: string, b2: string, spec: HookEvent)
    requires CurlCommand(b1, spec) == CurlCommand(b2, spec)
    ensures b1 == b2
  {
    var p, s := CurlPrefix(spec.discardsStdout), CurlSuffix(spec.discardsStdout);
    var u1, u2 := b1 + spec.path, b2 + spec.path;
    assert |u1| == |u2|;
    assert u1 == (p + u1 + s)[|p|..|p| + |u1|];
    assert u2 == (p + u2 + s)[|p|..|p| + |u2|];
    assert b1 == u1[..|b1|] && b2 == u2[..|b2|];
  }

  lemma {:induction false} DesiredFields(spec: HookEvent, base: string)
    ensures DesiredHook(spec, base).Get("command") == Str(CurlCommand(DropTrailing(base, '/'), spec))
    ensures DesiredHook(spec, base).Get("type") == Str("command")
  {
  }

  lemma {:induction false} CurrentFormIff(prefix: string, spec: HookEvent, aliases: seq<string>)
    ensures IsCurrentForm(CurlCommand(prefix, spec), spec, aliases) <==> prefix in aliases
  {
    CurlIsSolid(prefix + spec.path, spec.discardsStdout);
    if prefix in aliases {
      var i :| 0 <= i < |aliases| && aliases[i] == prefix;
      assert CurlCommand(prefix, spec) == Strip(CurlCommand(aliases[i], spec));
    }
    if IsCurrentForm(CurlCommand(prefix, spec), spec, aliases) {
      var i :| 0 <= i < |aliases| && CurlCommand(prefix, spec) == Strip(CurlCommand(aliases[i], spec));
      CurlIsSolid(aliases[i] + spec.path, spec.discardsStdout);
      CurlIsInjective(prefix, aliases[i], spec);
    }
  }

  lemma {:induction false} AliasIsTargeted(h: Host, spec: HookEvent, prefix: string, aliases: seq<string>)
    requires prefix in aliases
    ensures TargetsEndpoint(h, CurlCommand(prefix, spec), spec.path, aliases)
  {
    var i :| 0 <= i < |aliases| && aliases[i] == prefix;
    DesiredTargets(h, spec, aliases[i]);
  }

  /** A freshly minted hook is recognised as current exactly when the base URL is one of its own aliases. */
  lemma {:induction false} MintedIsCurrentIff(h: Host, spec: HookEvent, base: string)
    ensures Grade(h, DesiredHook(spec, base), spec, base) == Current <==> Canonical(h, base)
  {
    var b, aliases := DropTrailing(base, '/'), Aliases(h, base);
    DesiredFields(spec, base);
    CurlIsSolid(b + spec.path, spec.discardsStdout);
    CurlCarriesMarker(b + spec.path, spec.discardsStdout);
    CurrentFormIff(b, spec, aliases);
    if Canonical(h, base) {
      AliasIsTargeted(h, spec, b, aliases);
    }
  }

  lemma {:induction false} LegacyIsNotCurl(fail: bool, url: string, discard: bool, url': string)
    ensures LegacyCommand(fail, url) != CurlCommandForUrl(url', discard)
  {
    var l, c := LegacyCommand(fail, url), CurlCommandForUrl(url', discard);
    if fail == !discard {
      var n := |CurlOpening(fail)|;
      assert l[n + 1] == '-' && c[n + 1] == 'H';
    } else {
      var a, b := CurlOpening(true), CurlOpening(false);
      assert a[10] == 'f' && b[10] == 'm';
      assert l[10] == CurlOpening(fail)[10] && c[10] == CurlOpening(!discard)[10];
    }
  }

  lemma {:induction false} LegacyIsSolid(fail: bool, url: string)
    ensures Strip(LegacyCommand(fail, url)) == LegacyCommand(fail, url)
  {
  }

  lemma {:induction false} LegacyIsTargeted(h: Host, spec: HookEvent, fail: bool, alias: string, aliases: seq<string>)
    requires alias in aliases
    ensures TargetsEndpoint(h, LegacyCommand(fail, alias + spec.path), spec.path, aliases)
  {
    var i :| 0 <= i < |aliases| && aliases[i] == alias;
    ConcatContainsBounded(CurlOpening(fail) + "--data-binary @- ", aliases[i] + spec.path, CurlSuffix(!fail), h.IsWord());
  }

  lemma {:induction false} LegacyIsNotCurrent(spec: HookEvent, fail: bool, alias: string, aliases: seq<string>)
    ensures !IsCurrentForm(LegacyCommand(fail, alias + spec.path), spec, aliases)
  {
    var c := LegacyCommand(fail, alias + spec.path);
    if IsCurrentForm(c, spec, aliases) {
      var j :| 0 <= j < |aliases| && c == Strip(CurlCommand(aliases[j], spec));
      CurlIsSolid(aliases[j] + spec.path, spec.discardsStdout);
      LegacyIsNotCurl(fail, alias + spec.path, spec.discardsStdout, aliases[j] + spec.path);
    }
  }

  lemma {:induction false} LegacyFormIsStale(h: Host, hook: Dict, spec: HookEvent, base: string, command: string)
    requires hook.Get("command") == Str(command) && Strip(command) == command
    requires TargetsEndpoint(h, command, spec.path, Aliases(h, base))
    requires IsLegacyForm(command, spec, Aliases(h, base)) && !IsCurrentForm(command, spec, Aliases(h, base))
    ensures Grade(h, hook, spec, base) == Stale
  {
  }

  /** Every command a past release minted is recognised as ours and due for repair, whatever event it is filed under. */
  lemma {:induction false} LegacyIsStale(h: Host, hook: Dict, spec: HookEvent, base: string, alias: string, fail: bool)
    requires alias in Aliases(h, base)
    requires hook.Get("command") == Str(LegacyCommand(fail, alias + spec.path))
    ensures Grade(h, hook, spec, base) == Stale
  {
    var aliases := Aliases(h, base);
    var i :| 0 <= i < |aliases| && aliases[i] == alias;
    LegacyIsSolid(fail, alias + spec.path);
    LegacyIsTargeted(h, spec, fail, alias, aliases);
    LegacyIsNotCurrent(spec, fail, alias, aliases);
    assert LegacyCommand(fail, alias + spec.path) == LegacyCommand(fail, aliases[i] + spec.path);
    LegacyFormIsStale(h, hook, spec, base, LegacyCommand(fail, alias + spec.path));
  }

  /** A hook without a command is ours exactly when its url is one of our endpoints, and then it is due for repair. */
  lemma {:induction false} UrlHookIsStaleIff(h: Host, hook: Dict, spec: HookEvent, base: string, url: string)
    requires !hook.Get("command").Str? && hook.Get("url") == Str(url)
    ensures Grade(h, hook, spec, base) == Stale <==> exists alias | alias in Aliases(h, base) :: Strip(url) == alias + spec.path
    ensures Grade(h, hook, spec, base) != Current
  {
    var aliases := Aliases(h, base);
    if alias :| alias in aliases && Strip(url) == alias + spec.path {
      var i :| 0 <= i < |aliases| && aliases[i] == alias;
      assert Strip(url) == aliases[i] + spec.path;
    }
  }

  /** A command hook is never claimed on one fact alone: it must reach our endpoint, and carry our marker or be, to the letter, a
      command a past release minted. */
  lemma {:induction false} OursNeedsTwoFacts(h: Host, hook: Dict, spec: HookEvent, base: string, command: string)
    requires hook.Get("command") == Str(command)
    ensures Grade(h, hook, spec, base) != Foreign <==>
            && (exists alias | alias in Aliases(h, base) :: ContainsBounded(Strip(command), alias + spec.path, h.IsWord()))
            && (|| Contains(Strip(command), MARKER_HEADER)
                || exists alias, fail | alias in Aliases(h, base) :: Strip(command) == LegacyCommand(fail, alias + spec.path))
  {
    var aliases, stripped := Aliases(h, base), Strip(command);
    assert TargetsEndpoint(h, stripped, spec.path, aliases) <==>
           exists alias | alias in aliases :: ContainsBounded(stripped, alias + spec.path, h.IsWord());
    assert IsLegacyForm(stripped, spec, aliases) <==>
           exists alias, fail | alias in aliases :: stripped == LegacyCommand(fail, alias + spec.path);
  }

  /** And it is up to date exactly when it is what this release mints at one of the aliases. */
  lemma {:induction false} CurrentIffMinted(h: Host, hook: Dict, spec: HookEvent, base: string, command: string)
    requires hook.Get("command") == Str(command)
    ensures Grade(h, hook, spec, base) == Current <==>
            exists alias | alias in Aliases(h, base) :: Strip(command) == CurlCommand(alias, spec)
  {
    var aliases := Aliases(h, base);
    if alias :| alias in aliases && Strip(command) == CurlCommand(alias, spec) {
      MintedGrades(h, hook, spec, base, command, alias);
    }
    if Grade(h, hook, spec, base) == Current {
      var i :| 0 <= i < |aliases| && Strip(command) == Strip(CurlCommand(aliases[i], spec));
      CurlIsSolid(aliases[i] + spec.path, spec.discardsStdout);
      assert aliases[i] in aliases;
    }
  }

  lemma {:induction false} MintedGrades(h: Host, hook: Dict, spec: HookEvent, base: string, command: string, alias: string)
    requires hook.Get("command") == Str(command) && alias in Aliases(h, base) && Strip(command) == CurlCommand(alias, spec)
    ensures Grade(h, hook, spec, base) == Current
  {
    CurrentFormIff(alias, spec, Aliases(h, base));
    AliasIsTargeted(h, spec, alias, Aliases(h, base));
    CurlCarriesMarker(alias + spec.path, spec.discardsStdout);
  }

  lemma {:induction false} AliasesExceptAre(hosts: seq<string>, token: string, scheme: string, port: string, alias: string)
    ensures alias in AliasesExcept(hosts, token, scheme, port) <==>
            exists name | name in hosts :: name != token && alias == scheme + "://" + name + port
  {
    if hosts != [] {
      AliasesExceptAre(hosts[1..], token, scheme, port, alias);
      assert hosts == [hosts[0]] + hosts[1..];
      if hosts[0] != token && alias == scheme + "://" + hosts[0] + port {
        assert hosts[0] in hosts;
      }
    }
  }

  /** A loopback base stands for all three loopback spellings at its own scheme and port; any other only for itself. */
  lemma {:induction false} AliasesAre(h: Host, base: string, alias: string)
    ensures var url := h.split(base);
      var name := if ':' in url.hostname then "[" + url.hostname + "]" else url.hostname;
      var port := if url.port.Some? then ":" + url.port.value else "";
      alias in EquivalentBases(h, base) <==>
      if name in LOOPBACK_HOSTS then exists other | other in LOOPBACK_HOSTS :: alias == url.scheme + "://" + other + port
      else alias == base
  {
    var url := h.split(base);
    var token := if ':' in url.hostname then "[" + url.hostname + "]" else url.hostname;
    var port := match url.port case Some(p) => ":" + p case None => "";
    AliasesExceptAre(LOOPBACK_HOSTS, token, url.scheme, port, alias);
  }
}
