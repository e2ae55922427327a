/** The websocket URL parser of config.h. */
module Endpoint {
  import opened Options
  import opened Decimal

  datatype WsEndpoint = WsEndpoint(scheme: string, host: string, port: string, target: string, useTls: bool)
  datatype SchemeInfo = SchemeInfo(scheme: string, defaultPort: string, useTls: bool)
  datatype UrlParts = UrlParts(authority: string, target: string)
  datatype HostPort = HostPort(host: string, port: string)

  // ---- The string operations the parser uses ----

  /** `find` of a character: the first position at or after `from`, or the length. */
  function Find(s: string, c: char, from: nat): (i: nat)
    requires from <= |s|
    ensures from <= i <= |s|
    ensures i < |s| ==> s[i] == c
    ensures forall j :: from <= j < i ==> s[j] != c
    decreases |s| - from
  {
    if from == |s| || s[from] == c then from else Find(s, c, from + 1)
  }

  predicate SeparatorAt(s: string, i: nat) {
    i + 3 <= |s| && s[i..i + 3] == "://"
  }

  /** `find` of "://", or the length. */
  function FindSeparator(s: string, from: nat): (i: nat)
    requires from <= |s|
    ensures from <= i <= |s|
    ensures i < |s| ==> SeparatorAt(s, i)
    ensures forall j :: from <= j < i ==> !SeparatorAt(s, j)
    decreases |s| - from
  {
    if from == |s| || SeparatorAt(s, from) then from else FindSeparator(s, from + 1)
  }

  function LowerChar(c: char): char {
    if 'A' <= c <= 'Z' then c - 'A' + 'a' else c
  }

  function ToLower(s: string): string {
    seq(|s|, i requires 0 <= i < |s| => LowerChar(s[i]))
  }

  const MAX_UINT16: nat := 65535

  /** `from_chars` into a uint16_t: how many characters it consumes and the value,
      if there is a digit and the value fits. */
  datatype Scan = Scan(consumed: nat, value: nat, overflow: bool)

  function FromChars(s: string, scan: Scan): Scan
    requires scan.consumed <= |s|
    decreases |s| - scan.consumed
  {
    if scan.consumed == |s| || !IsDigit(s[scan.consumed]) then scan
    else
      var v := 10 * scan.value + DigitValue(s[scan.consumed]);
      FromChars(s, if scan.overflow || v > MAX_UINT16 then Scan(scan.consumed + 1, 0, true)
                   else Scan(scan.consumed + 1, v, false))
  }

  predicate IsValidPort(port: string) {
    if port == [] then false
    else
      var scan := FromChars(port, Scan(0, 0, false));
      scan.consumed > 0 && !scan.overflow && scan.consumed == |port| && scan.value > 0
  }

  function ParseScheme(raw: string): Option<SchemeInfo> {
    var scheme := ToLower(raw);
    if scheme == "ws" then Some(SchemeInfo(scheme, "80", false))
    else if scheme == "wss" then Some(SchemeInfo(scheme, "443", true))
    else None
  }

  function ParseUrlParts(url: string, authorityStart: nat): Option<UrlParts>
    requires authorityStart <= |url|
  {
    var targetStart := Find(url, '/', authorityStart);
    var authority := url[authorityStart..targetStart];
    var target := if targetStart == |url| then "/" else url[targetStart..];
    if authority == [] || target == [] || Find(authority, '@', 0) < |authority| then None
    else Some(UrlParts(authority, target))
  }

  function ParseHostPort(authority: string, defaultPort: string): Option<HostPort> {
    var colon := Find(authority, ':', 0);
    if colon < |authority| && Find(authority, ':', colon + 1) < |authority| then None
    else
      var host := authority[..colon];
      var port := if colon == |authority| then defaultPort else authority[colon + 1..];
      if host == [] || !IsValidPort(port) then None else Some(HostPort(host, port))
  }

  function ParseWsEndpoint(url: string): Option<WsEndpoint> {
    var schemeEnd := FindSeparator(url, 0);
    if schemeEnd == |url| then None
    else match ParseScheme(url[..schemeEnd])
      case None => None
      case Some(scheme) =>
        match ParseUrlParts(url, schemeEnd + 3)
        case None => None
        case Some(parts) =>
          match ParseHostPort(parts.authority, scheme.defaultPort)
          case None => None
          case Some(hostPort) =>
            Some(WsEndpoint(scheme.scheme, hostPort.host, hostPort.port, parts.target, scheme.useTls))
  }

  function Print(e: WsEndpoint): string {
    e.scheme + "://" + e.host + ":" + e.port + e.target
  }

  // ---- Ports ----

  /** The value of digits read so far, with every further digit. */
  lemma {:induction false} ScanDigits(s: string, scan: Scan)
    requires scan.consumed <= |s| && AllDigits(s[..scan.consumed])
    requires scan.overflow <==> Value(s[..scan.consumed]) > MAX_UINT16
    requires !scan.overflow ==> scan.value == Value(s[..scan.consumed])
    ensures var end := FromChars(s, scan);
            && end.consumed <= |s| && (end.consumed == |s| <==> AllDigits(s))
            && (end.consumed == |s| ==>
                  && (end.overflow <==> Value(s) > MAX_UINT16)
                  && (!end.overflow ==> end.value == Value(s)))
    decreases |s| - scan.consumed
  {
    var n := scan.consumed;
    if n == |s| {
      assert s[..n] == s;
    } else if IsDigit(s[n]) {
      assert s[..n + 1][..n] == s[..n];
      assert Value(s[..n + 1]) == 10 * Value(s[..n]) + DigitValue(s[n]);
      var v := 10 * scan.value + DigitValue(s[n]);
      ScanDigits(s, if scan.overflow || v > MAX_UINT16 then Scan(n + 1, 0, true) else Scan(n + 1, v, false));
    }
  }

  /** The accepted ports are the non-empty digit strings with a value from 1 to
      65535; leading zeros do not matter. */
  lemma ValidPorts(port: string)
    ensures IsValidPort(port) <==> port != [] && AllDigits(port) && 1 <= Value(port) <= 65535
  {
    ScanDigits(port, Scan(0, 0, false));
  }

  // ---- What the parser accepts ----

  predicate Without(s: string, c: char) {
    forall i :: 0 <= i < |s| ==> s[i] != c
  }

  /** The endpoints the parser can produce. */
  predicate WellFormed(e: WsEndpoint) {
    && ((e.scheme == "ws" && !e.useTls) || (e.scheme == "wss" && e.useTls))
    && e.host != [] && Without(e.host, '/') && Without(e.host, ':') && Without(e.host, '@')
    && IsValidPort(e.port)
    && e.target != [] && e.target[0] == '/'
  }

  /** The default ports of section 3 of RFC 6455. */
  function DefaultPort(e: WsEndpoint): string {
    if e.useTls then "443" else "80"
  }

  /** One way to write an endpoint: the scheme in any case, the port after a
      colon or left out when it is the default, the target left out when it is
      the root. */
  predicate Spells(e: WsEndpoint, rawScheme: string, portText: string, targetText: string) {
    && ToLower(rawScheme) == e.scheme
    && (portText == ":" + e.port || (portText == "" && e.port == DefaultPort(e)))
    && (targetText == e.target || (targetText == "" && e.target == "/"))
  }

  function Spelling(e: WsEndpoint, rawScheme: string, portText: string, targetText: string): string {
    (rawScheme + "://") + (e.host + portText) + targetText
  }

  lemma FindSkips(s: string, c: char, from: nat, to: nat)
    requires from <= to <= |s| && (to < |s| ==> s[to] == c)
    requires forall j :: from <= j < to ==> s[j] != c
    ensures Find(s, c, from) == to
  {
  }

  lemma ValidPortHasDigits(port: string)
    requires IsValidPort(port)
    ensures Without(port, '/') && Without(port, ':') && Without(port, '@')
  {
    ValidPorts(port);
  }

  lemma DefaultPortsAreValid()
    ensures IsValidPort("80") && IsValidPort("443")
  {
    ValidPorts("80");
    ValidPorts("443");
    assert "80"[..1] == "8" && "443"[..2] == "44" && "44"[..1] == "4" && "8"[..0] == "" && "4"[..0] == "";
    assert Value("8") == 8 && Value("80") == 80;
    assert Value("4") == 4 && Value("44") == 44 && Value("443") == 443;
  }

  lemma SchemeEndsAt(url: string, n: nat)
    requires n + 3 <= |url| && url[n..n + 3] == "://"
    requires forall i :: 0 <= i < n ==> url[i] != ':'
    ensures FindSeparator(url, 0) == n
  {
    assert SeparatorAt(url, n);
    forall j | 0 <= j < n ensures !SeparatorAt(url, j) {
      assert j + 3 <= |url| ==> url[j..j + 3][0] == url[j];
    }
  }

  lemma SchemeReadsBack(raw: string, e: WsEndpoint)
    requires WellFormed(e) && ToLower(raw) == e.scheme
    ensures ParseScheme(raw) == Some(SchemeInfo(e.scheme, DefaultPort(e), e.useTls))
    ensures Without(raw, ':')
  {
    forall i | 0 <= i < |raw| ensures raw[i] != ':' {
      assert ToLower(raw)[i] == LowerChar(raw[i]);
    }
  }

  /** Either scheme is accepted in any mixture of case, and no other. */
  lemma SchemesInAnyCase(raw: string)
    ensures ParseScheme(raw) == Some(SchemeInfo("ws", "80", false)) <==>
            |raw| == 2 && raw[0] in "wW" && raw[1] in "sS"
    ensures ParseScheme(raw) == Some(SchemeInfo("wss", "443", true)) <==>
            |raw| == 3 && raw[0] in "wW" && raw[1] in "sS" && raw[2] in "sS"
    ensures ParseScheme(raw).Some? ==>
              ParseScheme(raw) in {Some(SchemeInfo("ws", "80", false)), Some(SchemeInfo("wss", "443", true))}
  {
    var lower := ToLower(raw);
    assert |raw| == 2 ==> (lower == "ws" <==> lower[0] == 'w' && lower[1] == 's');
    assert |raw| == 3 ==> (lower == "wss" <==> lower[0] == 'w' && lower[1] == 's' && lower[2] == 's');
  }

  lemma AuthorityReadsBack(e: WsEndpoint, portText: string)
    requires WellFormed(e)
    requires portText == ":" + e.port || (portText == "" && e.port == DefaultPort(e))
    ensures ParseHostPort(e.host + portText, DefaultPort(e)) == Some(HostPort(e.host, e.port))
    ensures Without(e.host + portText, '/') && Without(e.host + portText, '@')
  {
    var authority := e.host + portText;
    ValidPortHasDigits(e.port);
    FindSkips(authority, ':', 0, |e.host|);
    assert authority[..|e.host|] == e.host;
    if portText != "" {
      FindSkips(authority, ':', |e.host| + 1, |authority|);
      assert authority[|e.host| + 1..] == e.port;
    }
  }

  lemma PartsReadBack(prefix: string, authority: string, targetText: string)
    requires authority != [] && Without(authority, '/') && Without(authority, '@')
    requires targetText == [] || targetText[0] == '/'
    ensures ParseUrlParts(prefix + authority + targetText, |prefix|) ==
            Some(UrlParts(authority, if targetText == [] then "/" else targetText))
  {
    var url := prefix + authority + targetText;
    var start, slash := |prefix|, |prefix| + |authority|;
    assert url[start..slash] == authority && url[slash..] == targetText;
    forall j | start <= j < slash ensures url[j] != '/' {
      assert url[j] == authority[j - start];
    }
    FindSkips(url, '/', start, slash);
    FindSkips(authority, '@', 0, |authority|);
  }

  lemma SpellingShape(e: WsEndpoint, raw: string, portText: string, targetText: string)
    ensures var url, n := Spelling(e, raw, portText, targetText), |raw|;
            && n + 3 <= |url| && url[n..n + 3] == "://" && url[..n] == raw
  {
  }

  /** Every spelling of a well-formed endpoint parses to it. */
  lemma SpellingParses(e: WsEndpoint, raw: string, portText: string, targetText: string)
    requires WellFormed(e) && Spells(e, raw, portText, targetText)
    ensures ParseWsEndpoint(Spelling(e, raw, portText, targetText)) == Some(e)
  {
    var url := Spelling(e, raw, portText, targetText);
    SpellingShape(e, raw, portText, targetText);
    SchemeReadsBack(raw, e);
    SchemeEndsAt(url, |raw|);
    AuthorityReadsBack(e, portText);
    PartsReadBack(raw + "://", e.host + portText, targetText);
  }

  lemma PartsAreSpelled(url: string, start: nat) returns (targetText: string)
    requires start <= |url| && ParseUrlParts(url, start).Some?
    ensures var parts := ParseUrlParts(url, start).value;
            && url[start..] == parts.authority + targetText
            && Without(parts.authority, '/') && Without(parts.authority, '@')
            && parts.target != [] && parts.target[0] == '/'
            && (targetText == parts.target || (targetText == "" && parts.target == "/"))
  {
    var slash := Find(url, '/', start);
    targetText := url[slash..];
    assert url[start..] == url[start..slash] + targetText;
  }

  lemma AuthorityIsSpelled(authority: string, defaultPort: string) returns (portText: string)
    requires ParseHostPort(authority, defaultPort).Some?
    ensures var hostPort := ParseHostPort(authority, defaultPort).value;
            && authority == hostPort.host + portText
            && Without(hostPort.host, ':') && hostPort.host != [] && IsValidPort(hostPort.port)
            && (portText == ":" + hostPort.port || (portText == "" && hostPort.port == defaultPort))
  {
    var colon := Find(authority, ':', 0);
    portText := authority[colon..];
    SplitAt(authority, colon);
    if colon < |authority| {
      SplitAtColon(authority, colon);
    } else {
      assert portText == "";
    }
  }

  lemma SplitAt(s: string, i: nat)
    requires i <= |s|
    ensures s == s[..i] + s[i..]
  {
  }

  lemma SplitAtColon(s: string, i: nat)
    requires i < |s| && s[i] == ':'
    ensures s[i..] == ":" + s[i + 1..]
  {
  }

  lemma FirstPart(host: string, rest: string, c: char)
    requires Without(host + rest, c)
    ensures Without(host, c)
  {
    forall i | 0 <= i < |host| ensures host[i] != c {
      assert (host + rest)[i] == host[i];
    }
  }

  lemma SplitAtScheme(url: string, n: nat)
    requires SeparatorAt(url, n)
    ensures url == (url[..n] + "://") + url[n + 3..]
  {
    assert url == url[..n] + url[n..n + 3] + url[n + 3..];
  }

  /** What each part of the parser contributed to a parsed endpoint. */
  lemma Components(url: string) returns (n: nat, scheme: SchemeInfo, parts: UrlParts, hostPort: HostPort)
    requires ParseWsEndpoint(url).Some?
    ensures n + 3 <= |url| && SeparatorAt(url, n)
    ensures ParseScheme(url[..n]) == Some(scheme)
    ensures ParseUrlParts(url, n + 3) == Some(parts)
    ensures ParseHostPort(parts.authority, scheme.defaultPort) == Some(hostPort)
    ensures ParseWsEndpoint(url).value ==
            WsEndpoint(scheme.scheme, hostPort.host, hostPort.port, parts.target, scheme.useTls)
  {
    n := FindSeparator(url, 0);
    scheme := ParseScheme(url[..n]).value;
    parts := ParseUrlParts(url, n + 3).value;
    hostPort := ParseHostPort(parts.authority, scheme.defaultPort).value;
  }

  lemma SchemeIsSpelled(raw: string)
    requires ParseScheme(raw).Some?
    ensures var s := ParseScheme(raw).value;
            && ToLower(raw) == s.scheme
            && (|| (s.scheme == "ws" && !s.useTls && s.defaultPort == "80")
                || (s.scheme == "wss" && s.useTls && s.defaultPort == "443"))
  {
  }

  /** What is parsed is well formed and the text is one of its spellings. */
  lemma ParsedIsSpelled(url: string) returns (raw: string, portText: string, targetText: string)
    requires ParseWsEndpoint(url).Some?
    ensures var e := ParseWsEndpoint(url).value;
            WellFormed(e) && Spells(e, raw, portText, targetText) && url == Spelling(e, raw, portText, targetText)
  {
    var n, scheme, parts, hostPort := Components(url);
    raw := url[..n];
    SchemeIsSpelled(raw);
    targetText := PartsAreSpelled(url, n + 3);
    portText := AuthorityIsSpelled(parts.authority, scheme.defaultPort);
    FirstPart(hostPort.host, portText, '/');
    FirstPart(hostPort.host, portText, '@');
    SplitAtScheme(url, n);
    Regroup(raw + "://", hostPort.host + portText, targetText);
  }

  lemma Regroup(a: string, b: string, c: string)
    ensures a + (b + c) == a + b + c
  {
  }

  /** The parser accepts a text as an endpoint exactly when the endpoint is well
      formed and the text is one of its spellings. */
  lemma ParsesExactlySpellings(url: string, e: WsEndpoint)
    ensures ParseWsEndpoint(url) == Some(e) <==>
            WellFormed(e) && exists raw, portText, targetText ::
              Spells(e, raw, portText, targetText) && url == Spelling(e, raw, portText, targetText)
  {
    if ParseWsEndpoint(url) == Some(e) {
      var raw, portText, targetText := ParsedIsSpelled(url);
      assert Spells(e, raw, portText, targetText);
    }
    if WellFormed(e) {
      forall raw, portText, targetText |
        Spells(e, raw, portText, targetText) && url == Spelling(e, raw, portText, targetText)
        ensures ParseWsEndpoint(url) == Some(e)
      {
        SpellingParses(e, raw, portText, targetText);
      }
    }
  }

  // ---- Printing and parsing again ----

  lemma PrintIsASpelling(e: WsEndpoint)
    requires WellFormed(e)
    ensures Print(e) == Spelling(e, e.scheme, ":" + e.port, e.target)
    ensures Spells(e, e.scheme, ":" + e.port, e.target)
  {
    var start, port := e.scheme + "://", ":" + e.port;
    assert Print(e) == start + e.host + port + e.target;
    assert start + e.host + port == start + (e.host + port);
  }

  /** Any endpoint the parser accepts survives being printed and parsed again. */
  lemma RoundTrip(url: string)
    requires ParseWsEndpoint(url).Some?
    ensures ParseWsEndpoint(Print(ParseWsEndpoint(url).value)) == ParseWsEndpoint(url)
  {
    var raw, portText, targetText := ParsedIsSpelled(url);
    var e := ParseWsEndpoint(url).value;
    PrintIsASpelling(e);
    SpellingParses(e, e.scheme, ":" + e.port, e.target);
  }

  /** A URL without a port means port 80, or 443 over TLS; without a target it
      means the root. */
  lemma DefaultsApply(host: string, useTls: bool)
    requires host != [] && Without(host, '/') && Without(host, ':') && Without(host, '@')
    ensures var scheme := if useTls then "wss" else "ws";
            ParseWsEndpoint(scheme + "://" + host) ==
            Some(WsEndpoint(scheme, host, if useTls then "443" else "80", "/", useTls))
  {
    var scheme := if useTls then "wss" else "ws";
    var e := WsEndpoint(scheme, host, if useTls then "443" else "80", "/", useTls);
    DefaultPortsAreValid();
    assert ToLower(scheme) == scheme;
    SpellingParses(e, scheme, "", "");
    assert Spelling(e, scheme, "", "") == scheme + "://" + host by {
      assert host + "" == host;
      assert (scheme + "://" + host) + "" == scheme + "://" + host;
    }
  }
}
