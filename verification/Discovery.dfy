/** Server discovery: splitting names, following well-known redirects, and the order of the steps. */
module Discovery {
  import opened Collections

  const DEFAULT_PORT: int := 8448

  // ----- decimal ports

  const DIGITS: string := "0123456789"

  function DigitValue(c: char): int {
    c as int - '0' as int
  }

  predicate IsDigit(c: char) {
    '0' <= c <= '9'
  }

  predicate IsDecimal(s: string) {
    s != "" && forall i :: 0 <= i < |s| ==> IsDigit(s[i])
  }

  /** A number in decimal, without leading zeros. */
  function Decimal(n: nat): (s: string)
    ensures IsDecimal(s)
    ensures s[0] == '0' <==> n == 0
  {
    if n < 10 then [DIGITS[n]] else Decimal(n / 10) + [DIGITS[n % 10]]
  }

  function Port(n: int): string {
    if n >= 0 then Decimal(n) else "-" + Decimal(-n)
  }

  function ParseDecimal(s: string): int {
    if s == "" then 0 else 10 * ParseDecimal(s[..|s| - 1]) + DigitValue(s[|s| - 1])
  }

  lemma {:induction false} DecimalParsesBack(n: nat)
    ensures ParseDecimal(Decimal(n)) == n
  {
    if n < 10 {
      assert Decimal(n)[..0] == "";
      assert DigitValue(DIGITS[n]) == n;
    } else {
      DecimalParsesBack(n / 10);
      var front := Decimal(n / 10);
      assert (front + [DIGITS[n % 10]])[..|front|] == front;
      assert DigitValue(DIGITS[n % 10]) == n % 10;
    }
  }

  // ----- splitting a server name

  datatype SplitResult = Split(host: string, port: int) | SchemeError

  function FirstColon(s: string): (i: nat)
    ensures i <= |s|
    ensures forall k :: 0 <= k < i ==> s[k] != ':'
    ensures i < |s| ==> s[i] == ':'
  {
    if s == "" || s[0] == ':' then 0 else 1 + FirstColon(s[1..])
  }

  ghost predicate HasAt(s: string, part: string, i: int) {
    0 <= i <= |s| - |part| && s[i..i + |part|] == part
  }

  predicate Contains(s: string, part: string) {
    part <= s || (s != "" && Contains(s[1..], part))
  }

  predicate HasScheme(name: string) {
    "http:" <= name || "https" <= name || Contains(name, "://")
  }

  /** What `int` makes of a port: digits are read as decimal, anything else as `lenient` says. */
  function PortOf(text: string, lenient: string -> Option<int>): Option<int> {
    if IsDecimal(text) then Some(ParseDecimal(text)) else lenient(text)
  }

  /** The host is cut at the first colon even when what follows is no number; the port is then 0. */
  function SplitName(name: string, lenient: string -> Option<int>): SplitResult {
    if HasScheme(name) then SchemeError
    else
      var i := FirstColon(name);
      if i == |name| then Split(name, 0)
      else
        var port := PortOf(name[i + 1..], lenient);
        Split(name[..i], if port.Some? then port.value else 0)
  }

  lemma {:induction false} ContainsAt(s: string, part: string)
    requires part != ""
    ensures Contains(s, part) <==> exists i :: HasAt(s, part, i)
  {
    if part <= s {
      assert HasAt(s, part, 0);
    } else {
      assert !HasAt(s, part, 0);
      if s != "" {
        ContainsAt(s[1..], part);
        if i :| HasAt(s[1..], part, i) {
          HasAtTail(s, part, i);
        }
        if i :| HasAt(s, part, i) {
          HasAtTail(s, part, i - 1);
        }
      }
    }
  }

  lemma HasAtTail(s: string, part: string, i: int)
    requires s != "" && i >= 0
    ensures HasAt(s[1..], part, i) <==> HasAt(s, part, i + 1)
  {
    if i + 1 <= |s| - |part| {
      assert s[i + 1..i + 1 + |part|] == s[1..][i..i + |part|];
    }
  }

  lemma FirstColonIs(s: string, i: nat)
    requires i <= |s| && (forall k :: 0 <= k < i ==> s[k] != ':') && (i < |s| ==> s[i] == ':')
    ensures FirstColon(s) == i
  {
  }

  lemma NoSchemeInHeader(host: string, digits: string)
    requires (forall k :: 0 <= k < |host| ==> host[k] != ':') && '/' !in digits && ':' !in digits
    requires !("http:" <= host + ":") && !("https" <= host + ":")
    ensures !HasScheme(host + ":" + digits)
  {
    var header := host + ":" + digits;
    assert forall k :: 0 <= k <= |host| ==> header[k] == (host + ":")[k];
    PrefixEndsAtColon("http:", host, digits);
    PrefixEndsAtColon("https", host, digits);
    ContainsAt(header, "://");
    forall i
      ensures !HasAt(header, "://", i)
    {
      SchemeMarkAt(header, i);
    }
  }

  /** A prefix of the header with no colon before its end does not reach past the first colon. */
  lemma PrefixEndsAtColon(prefix: string, host: string, digits: string)
    requires forall k :: 0 <= k < |prefix| - 1 ==> prefix[k] != ':'
    ensures prefix <= host + ":" + digits ==> prefix <= host + ":"
  {
    var header := host + ":" + digits;
    assert header[..|host| + 1] == host + ":";
    if prefix <= header && |prefix| <= |host| + 1 {
      assert prefix == header[..|prefix|] == (host + ":")[..|prefix|];
    }
    assert header[|host|] == ':';
  }

  lemma SchemeMarkAt(s: string, i: int)
    ensures HasAt(s, "://", i) ==> s[i] == ':' && s[i + 1] == '/'
  {
    if HasAt(s, "://", i) {
      assert s[i] == s[i..i + 3][0] && s[i + 1] == s[i..i + 3][1];
    }
  }

  /** What `int` makes of a port is what it makes of that port written out.  For ports of decimal digits
      this needs no assumption; a negative one is up to `lenient`. */
  predicate ReadsBack(port: int, lenient: string -> Option<int>) {
    port < 0 ==> lenient(Port(port)) == Some(port)
  }

  lemma PortReadsBack(port: int, lenient: string -> Option<int>)
    requires ReadsBack(port, lenient)
    ensures PortOf(Port(port), lenient) == Some(port)
    ensures '/' !in Port(port) && ':' !in Port(port)
  {
    if port >= 0 {
      DecimalParsesBack(port);
    } else {
      assert Port(port)[0] == '-';
      assert Port(port)[1..] == Decimal(-port);
    }
  }

  /** Splitting the `host:port` header built from a split name gives back the host and the port. */
  lemma HeaderSplitsBack(name: string, lenient: string -> Option<int>)
    requires SplitName(name, lenient).Split? && SplitName(name, lenient).port != 0
    requires ReadsBack(SplitName(name, lenient).port, lenient)
    ensures var split := SplitName(name, lenient);
            SplitName(split.host + ":" + Port(split.port), lenient) == split
  {
    var split := SplitName(name, lenient);
    var i := FirstColon(name);
    var host, digits := split.host, Port(split.port);
    assert name[..i + 1] == host + ":";
    assert !("http:" <= host + ":") && !("https" <= host + ":");
    PortReadsBack(split.port, lenient);
    NoSchemeInHeader(host, digits);
    var header := host + ":" + digits;
    FirstColonIs(header, i);
    assert header[i + 1..] == digits && header[..i] == host;
  }

  ghost predicate NamesScheme(name: string) {
    "http:" <= name || "https" <= name || exists i :: HasAt(name, "://", i)
  }

  /** The host is the whole name, without a port, or what stands before its first colon; the port is then
      what is made of the text behind the colon, or 0. */
  ghost predicate IsSplit(name: string, lenient: string -> Option<int>, host: string, port: int) {
    && host <= name && ':' !in host
    && if host == name then port == 0
       else
         && name[|host|] == ':'
         && var text := name[|host| + 1..];
            if IsDecimal(text) then port == ParseDecimal(text)
            else match lenient(text) case Some(n) => port == n case None => port == 0
  }

  /** A name is refused exactly for a scheme, and otherwise split in the one way there is. */
  lemma SplitIs(name: string, lenient: string -> Option<int>)
    ensures SplitName(name, lenient).SchemeError? <==> NamesScheme(name)
    ensures forall host, port :: !NamesScheme(name) ==>
              (IsSplit(name, lenient, host, port) <==> SplitName(name, lenient) == Split(host, port))
  {
    ContainsAt(name, "://");
    forall host, port | IsSplit(name, lenient, host, port)
      ensures !NamesScheme(name) ==> SplitName(name, lenient) == Split(host, port)
    {
      FirstColonIs(name, |host|);
      assert name[..|host|] == host;
    }
  }

  /** A split host has no colon, so no IPv6 literal ever survives the split. */
  lemma SplitHostHasNoColon(name: string, lenient: string -> Option<int>)
    ensures SplitName(name, lenient).Split? ==> ':' !in SplitName(name, lenient).host
  {
  }

  // ----- the order of the discovery steps

  datatype DnsAnswer = DnsAnswer(hosts: seq<string>, errors: seq<string>)

  datatype WellKnown = Delegates(host: string, port: int) | NoDelegation

  datatype Address = Address(ip: string, port: int)

  /** What each look-up answers, if it is made: every one is made at most once.  A failed SRV query
      counts as an empty one. */
  datatype Answers = Answers(initial: DnsAnswer, wellKnown: WellKnown, delegatedSrv: seq<Address>,
                             delegated: DnsAnswer, srv: seq<Address>)

  /** `IndexError`: a look-up gave neither a host nor an error to report. */
  datatype Outcome =
    | Discovered(hostname: string, addresses: seq<Address>, hostHeader: string, sni: string)
    | Undiscovered(error: string)
    | BadScheme
    | IndexError

  function WithPort(ips: seq<string>, port: int): seq<Address> {
    seq(|ips|, i requires 0 <= i < |ips| => Address(ips[i], port))
  }

  function NoHosts(answer: DnsAnswer): Outcome {
    if answer.errors == [] then IndexError else Undiscovered(answer.errors[0])
  }

  /** The loop that pairs every resolved address with a port. */
  method PairWithPort(ips: seq<string>, port: int) returns (addresses: seq<Address>)
    ensures addresses == WithPort(ips, port)
  {
    addresses := [];
    for i := 0 to |ips|
      invariant addresses == WithPort(ips[..i], port)
    {
      addresses := addresses + [Address(ips[i], port)];
    }
    assert ips[..|ips|] == ips;
  }

  method DiscoverServer(serverName: string, isIp: string -> bool, lenient: string -> Option<int>, a: Answers)
    returns (r: Outcome)
    ensures FollowsSpec(serverName, isIp, lenient, a, r)
  {
    var split := SplitName(serverName, lenient);
    if split.SchemeError? {
      return BadScheme;
    }
    var host, port := split.host, split.port;
    if isIp(host) {
      if port == 0 {
        port := DEFAULT_PORT;
      }
      return Discovered(host, [Address(host, port)], host + ":" + Port(port), host);
    }
    if a.initial.hosts == [] {
      return NoHosts(a.initial);
    }
    if port != 0 {
      var pinned := PairWithPort(a.initial.hosts, port);
      return Discovered(host, pinned, host + ":" + Port(port), host);
    }
    if a.wellKnown.Delegates? {
      var wk := a.wellKnown;
      if isIp(wk.host) {
        var wkPort := if wk.port == 0 then DEFAULT_PORT else wk.port;
        return Discovered(host, [Address(wk.host, wkPort)], wk.host + if wk.port != 0 then ":" + Port(wk.port) else "", wk.host);
      }
      if wk.port != 0 {
        if a.delegated.hosts == [] {
          return NoHosts(a.delegated);
        }
        var there := PairWithPort(a.delegated.hosts, wk.port);
        return Discovered(host, there, wk.host + ":" + Port(wk.port), wk.host);
      }
      if a.delegatedSrv != [] {
        return Discovered(host, a.delegatedSrv, wk.host, wk.host);
      }
      if a.delegated.hosts == [] {
        return NoHosts(a.delegated);
      }
      var fallback := PairWithPort(a.delegated.hosts, DEFAULT_PORT);
      return Discovered(host, fallback, wk.host, wk.host);
    }
    if a.srv != [] {
      return Discovered(host, a.srv, host, host);
    }
    var last := PairWithPort(a.initial.hosts, DEFAULT_PORT);
    return Discovered(host, last, host, host);
  }

  // ----- what the specification asks of a discovery

  /** The well-known answer counts only for a server name that is no address and has no port. */
  predicate Delegating(split: SplitResult, isIp: string -> bool, a: Answers) {
    split.Split? && !isIp(split.host) && split.port == 0 && a.wellKnown.Delegates?
  }

  /** Ports come from the server name, else the delegation, else the SRV records of whichever of the two
      names is the target, else they are 8448; addresses are those of the target, or its SRV targets. */
  ghost predicate FollowsSpec(serverName: string, isIp: string -> bool, lenient: string -> Option<int>, a: Answers,
                              r: Outcome) {
    var split := SplitName(serverName, lenient);
    if split.SchemeError? then r == BadScheme
    else
      var delegating := Delegating(split, isIp, a);
      var name, port := if delegating then a.wellKnown.host else split.host,
                        if delegating then a.wellKnown.port else split.port;
      var resolved := if delegating then a.delegated else a.initial;
      var srv := if delegating then a.delegatedSrv else a.srv;
      var effective := if port != 0 then port else DEFAULT_PORT;
      if !isIp(split.host) && a.initial.hosts == [] then FailsFor(a.initial, r)
      else if isIp(name) then
        var header := if delegating && port == 0 then name else name + ":" + Port(effective);
        r == Discovered(split.host, [Address(name, effective)], header, name)
      else if port == 0 && srv != [] then r == Discovered(split.host, srv, name, name)
      else if resolved.hosts == [] then FailsFor(resolved, r)
      else
        var header := if port != 0 then name + ":" + Port(port) else name;
        && r.Discovered? && AreAt(r.addresses, resolved.hosts, effective)
        && r == Discovered(split.host, r.addresses, header, name)
  }

  /** The look-up's first error is reported; without one there is nothing to report. */
  predicate FailsFor(answer: DnsAnswer, r: Outcome) {
    if answer.errors == [] then r.IndexError? else r == Undiscovered(answer.errors[0])
  }

  /** The addresses are the resolved ones, in their order, with the port. */
  ghost predicate AreAt(addresses: seq<Address>, ips: seq<string>, port: int) {
    |addresses| == |ips| && forall i :: 0 <= i < |ips| ==> addresses[i] == Address(ips[i], port)
  }

  /** A discovery in terms of the name itself: the host is what stands before the colon, and unless there
      is a delegation to take its place, it is what is reached, by its own addresses or SRV targets. */
  lemma DiscoveredForName(serverName: string, host: string, port: int, isIp: string -> bool,
                          lenient: string -> Option<int>, a: Answers, r: Outcome)
    requires FollowsSpec(serverName, isIp, lenient, a, r) && !NamesScheme(serverName)
    requires IsSplit(serverName, lenient, host, port) && r.Discovered?
    ensures r.hostname == host
    ensures isIp(host) ==>
              && r.sni == host && r.addresses == [Address(host, if port == 0 then 8448 else port)]
              && r.hostHeader == host + ":" + Port(r.addresses[0].port)
    ensures !isIp(host) && (port != 0 || a.wellKnown.NoDelegation?) ==>
              && r.sni == host && r.hostHeader == (if port == 0 then host else host + ":" + Port(port))
              && if port == 0 && a.srv != [] then r.addresses == a.srv
                 else AreAt(r.addresses, a.initial.hosts, if port == 0 then 8448 else port)
    ensures !isIp(host) && port == 0 && a.wellKnown.Delegates? ==> r.sni == a.wellKnown.host
  {
    SplitIs(serverName, lenient);
  }

  /** The name a discovery resolves, and the port that comes with it. */
  function TargetOf(serverName: string, isIp: string -> bool, lenient: string -> Option<int>, a: Answers): SplitResult {
    var split := SplitName(serverName, lenient);
    if Delegating(split, isIp, a) then Split(a.wellKnown.host, a.wellKnown.port) else split
  }

  ghost predicate AllHavePort(addresses: seq<Address>, port: int) {
    forall address :: address in addresses ==> address.port == port
  }

  /** A discovery that succeeds has an address.  The server name's port is used if there is one, else the
      delegation's; without either, a target that is no address uses exactly its SRV addresses when there
      are any, and 8448 when there are none. */
  lemma DiscoveredPorts(serverName: string, isIp: string -> bool, lenient: string -> Option<int>, a: Answers, r: Outcome)
    requires FollowsSpec(serverName, isIp, lenient, a, r) && r.Discovered?
    ensures r.addresses != []
    ensures var split := SplitName(serverName, lenient);
            var delegating := Delegating(split, isIp, a);
            var target := TargetOf(serverName, isIp, lenient, a);
            var srv := if delegating then a.delegatedSrv else a.srv;
            && (split.port != 0 ==> AllHavePort(r.addresses, split.port))
            && (delegating && a.wellKnown.port != 0 ==> AllHavePort(r.addresses, a.wellKnown.port))
            && (target.port == 0 && isIp(target.host) ==> r.addresses == [Address(target.host, DEFAULT_PORT)])
            && (target.port == 0 && !isIp(target.host) ==>
                  if srv != [] then r.addresses == srv else AllHavePort(r.addresses, DEFAULT_PORT))
  {
  }

  /** Whenever the target has a port, which at a delegation was split from the well-known answer, the Host
      header of a discovery splits back into the target's name and the port of every address. */
  lemma DiscoveredHeaderSplitsBack(serverName: string, delegation: string, isIp: string -> bool,
                                   lenient: string -> Option<int>, a: Answers, r: Outcome)
    requires FollowsSpec(serverName, isIp, lenient, a, r) && r.Discovered?
    requires a.wellKnown.Delegates? ==>
               SplitName(delegation, lenient) == Split(a.wellKnown.host, a.wellKnown.port)
    requires var target := TargetOf(serverName, isIp, lenient, a); target.port != 0 && ReadsBack(target.port, lenient)
    ensures var target := TargetOf(serverName, isIp, lenient, a);
            && r.sni == target.host
            && SplitName(r.hostHeader, lenient) == Split(r.sni, target.port)
            && AllHavePort(r.addresses, target.port)
  {
    if Delegating(SplitName(serverName, lenient), isIp, a) {
      HeaderSplitsBack(delegation, lenient);
    } else {
      HeaderSplitsBack(serverName, lenient);
    }
  }

  // ----- well-known redirects

  datatype Response = Answered | Redirected(host: Option<string>) | Refused(reason: string)

  datatype WellKnownResult =
    | GotAnswer
    | RequestFailed(reason: string)
    | RedirectLoop
    | NoAddresses
    | NoHostFor(error: string)
    | NothingToReport

  /** A redirect leads to the host it names, or, naming none, back to the host just asked. */
  predicate LeadsTo(lastTried: string, response: Response, next: string) {
    response.Redirected? && match response.host case Some(host) => next == host case None => next == lastTried
  }

  /** Host `n` was asked because the hosts before it led there. */
  ghost predicate Asked(c: seq<string>, respond: seq<string> -> Response, n: int)
    requires 1 <= n < |c|
  {
    LeadsTo(c[n - 1], respond(c[..n]), c[n])
  }

  /** The hosts were asked one because of the other, none twice because of a redirect. */
  ghost predicate RedirectChain(c: seq<string>, respond: seq<string> -> Response) {
    && c != []
    && NoDup(c[1..])
    && forall n :: 1 <= n < |c| ==> Asked(c, respond, n)
  }

  /** What answers a well-known request: `respond` is what the host asked last answers, given all hosts
      asked so far, `lookUp` resolves a host, and `ipv4` keeps the usable addresses. */
  datatype Net = Net(respond: seq<string> -> Response, lookUp: string -> DnsAnswer, ipv4: seq<string> -> seq<string>)

  /** Every host of the chain but the first could be resolved, and every one but the last has a usable address. */
  ghost predicate Way(c: seq<string>, net: Net, firstAddresses: seq<string>) {
    && RedirectChain(c, net.respond)
    && (forall n :: 1 <= n < |c| ==> net.lookUp(c[n]).hosts != [])
    && (forall n :: 0 <= n < |c| - 1 ==> AddressesAt(c, n, net, firstAddresses) != [])
  }

  ghost function AddressesAt(c: seq<string>, n: nat, net: Net, firstAddresses: seq<string>): seq<string>
    requires n < |c|
  {
    net.ipv4(if n == 0 then firstAddresses else net.lookUp(c[n]).hosts)
  }

  /** How a redirect to a host that cannot be asked ends the request. */
  predicate StopsAt(answer: DnsAnswer, net: Net, r: WellKnownResult) {
    if answer.hosts != [] then net.ipv4(answer.hosts) == [] && r == NoAddresses
    else if answer.errors != [] then r == NoHostFor(answer.errors[0])
    else r == NothingToReport
  }

  ghost predicate LoopsBack(asked: seq<string>, net: Net) {
    asked != [] && exists next :: next in asked[1..] && LeadsTo(asked[|asked| - 1], net.respond(asked), next)
  }

  ghost predicate LeadsNowhere(asked: seq<string>, net: Net, r: WellKnownResult) {
    asked != [] && exists next ::
      next !in asked[1..] && LeadsTo(asked[|asked| - 1], net.respond(asked), next) && StopsAt(net.lookUp(next), net, r)
  }

  /** The result, by what the host asked last answered. */
  ghost predicate Ends(asked: seq<string>, net: Net, firstAddresses: seq<string>, r: WellKnownResult) {
    match r
    case GotAnswer => asked != [] && net.respond(asked).Answered?
    case RequestFailed(reason) => asked != [] && net.respond(asked) == Refused(reason)
    case RedirectLoop => LoopsBack(asked, net)
    case _ => if asked == [] then r == NoAddresses && net.ipv4(firstAddresses) == [] else LeadsNowhere(asked, net, r)
  }

  lemma EndsIff(asked: seq<string>, net: Net, firstAddresses: seq<string>, r: WellKnownResult)
    requires Ends(asked, net, firstAddresses, r)
    ensures r.GotAnswer? <==> asked != [] && net.respond(asked).Answered?
    ensures r.RequestFailed? <==> asked != [] && net.respond(asked).Refused?
    ensures r.RedirectLoop? <==> LoopsBack(asked, net)
  {
  }

  lemma NoDupGrows(s: seq<string>, last: string)
    requires NoDup(s) && last !in s
    ensures NoDup(s + [last]) && Elems(s + [last]) == Elems(s) + {last}
  {
    ElemsOfConcat(s, [last]);
    NoDupConcat(s, [last]);
  }

  lemma AskedGrows(c: seq<string>, respond: seq<string> -> Response, next: string, n: int)
    requires 1 <= n < |c|
    ensures Asked(c + [next], respond, n) == Asked(c, respond, n)
  {
    assert (c + [next])[..n] == c[..n];
  }

  lemma ChainGrows(c: seq<string>, respond: seq<string> -> Response, next: string)
    requires RedirectChain(c, respond)
    requires LeadsTo(c[|c| - 1], respond(c), next) && next !in c[1..]
    ensures RedirectChain(c + [next], respond) && Elems((c + [next])[1..]) == Elems(c[1..]) + {next}
  {
    assert (c + [next])[1..] == c[1..] + [next];
    NoDupGrows(c[1..], next);
    EachIsAsked(c, respond, next);
  }

  lemma EachIsAsked(c: seq<string>, respond: seq<string> -> Response, next: string)
    requires c != [] && LeadsTo(c[|c| - 1], respond(c), next)
    requires forall n :: 1 <= n < |c| ==> Asked(c, respond, n)
    ensures forall n :: 1 <= n < |c + [next]| ==> Asked(c + [next], respond, n)
  {
    forall n | 1 <= n < |c + [next]|
      ensures Asked(c + [next], respond, n)
    {
      if n < |c| {
        AskedGrows(c, respond, next, n);
      } else {
        AskedLast(c, respond, next);
      }
    }
  }

  /** The chain goes on to a host that could be resolved. */
  lemma WayGrows(c: seq<string>, net: Net, firstAddresses: seq<string>, next: string)
    requires Way(c, net, firstAddresses) && AddressesAt(c, |c| - 1, net, firstAddresses) != []
    requires LeadsTo(c[|c| - 1], net.respond(c), next) && next !in c[1..] && net.lookUp(next).hosts != []
    ensures Way(c + [next], net, firstAddresses) && Elems((c + [next])[1..]) == Elems(c[1..]) + {next}
    ensures AddressesAt(c + [next], |c|, net, firstAddresses) == net.ipv4(net.lookUp(next).hosts)
  {
    ChainGrows(c, net.respond, next);
    assert forall n :: 0 <= n < |c| ==>
             AddressesAt(c + [next], n, net, firstAddresses) == AddressesAt(c, n, net, firstAddresses);
  }

  /** The last host of the chain has no usable address: the ones before it were asked. */
  lemma WayStops(c: seq<string>, net: Net, firstAddresses: seq<string>)
    requires Way(c, net, firstAddresses) && AddressesAt(c, |c| - 1, net, firstAddresses) == []
    ensures var asked := c[..|c| - 1];
            && Ends(asked, net, firstAddresses, NoAddresses)
            && (asked != [] ==>
                  Way(asked, net, firstAddresses) && AddressesAt(asked, |asked| - 1, net, firstAddresses) != [])
  {
    if |c| > 1 {
      ChainShrinks(c, net.respond);
      var asked := c[..|c| - 1];
      assert forall n :: 0 <= n < |asked| ==> asked[n] == c[n];
      assert forall n :: 0 <= n < |asked| - 1 ==>
               AddressesAt(asked, n, net, firstAddresses) == AddressesAt(c, n, net, firstAddresses);
      var n := |asked| - 1;
      assert asked[n] == c[n] && AddressesAt(c, n, net, firstAddresses) != [];
      assert AddressesAt(asked, n, net, firstAddresses) == AddressesAt(c, n, net, firstAddresses);
      assert StopsAt(net.lookUp(c[|c| - 1]), net, NoAddresses);
    }
  }

  lemma AskedLast(c: seq<string>, respond: seq<string> -> Response, next: string)
    requires c != [] && LeadsTo(c[|c| - 1], respond(c), next)
    ensures Asked(c + [next], respond, |c|)
  {
    assert (c + [next])[..|c|] == c;
  }

  lemma ChainShrinks(c: seq<string>, respond: seq<string> -> Response)
    requires RedirectChain(c, respond) && |c| > 1
    ensures var d := c[..|c| - 1];
            && RedirectChain(d, respond) && respond(d).Redirected?
            && LeadsTo(d[|d| - 1], respond(d), c[|c| - 1]) && c[|c| - 1] !in d[1..]
  {
    var d, last := c[..|c| - 1], c[|c| - 1];
    assert c[1..] == d[1..] + [last];
    assert Asked(c, respond, |d|);
    NewAtEnd(d[1..], last);
    forall n | 1 <= n < |d|
      ensures Asked(d, respond, n)
    {
      assert c == d + [last];
      AskedGrows(d, respond, last, n);
    }
  }

  lemma NewAtEnd(s: seq<string>, last: string)
    requires NoDup(s + [last])
    ensures NoDup(s) && last !in s
  {
    assert forall i :: 0 <= i < |s| ==> (s + [last])[i] == s[i];
    assert (s + [last])[|s|] == last;
  }

  /** A redirect ends the requests if it leads to a host already reached or to one that cannot be resolved. */
  lemma RedirectEnds(asked: seq<string>, net: Net, firstAddresses: seq<string>, next: string)
    requires asked != [] && LeadsTo(asked[|asked| - 1], net.respond(asked), next)
    ensures next in asked[1..] ==> Ends(asked, net, firstAddresses, RedirectLoop)
    ensures var dns := net.lookUp(next);
            next !in asked[1..] && dns.hosts == [] ==>
              Ends(asked, net, firstAddresses, if dns.errors == [] then NothingToReport else NoHostFor(dns.errors[0]))
  {
    assert net.lookUp(next).hosts == [] ==>
             StopsAt(net.lookUp(next), net,
                     if net.lookUp(next).errors == [] then NothingToReport else NoHostFor(net.lookUp(next).errors[0]));
  }

  /** The well-known requests for a server.  No host is asked twice because of a redirect, and the loop is
      broken exactly when one leads to a host already reached that way. */
  method FollowRedirects(serverName: string, firstAddresses: seq<string>, net: Net, ghost hosts: set<string>)
    returns (r: WellKnownResult, asked: seq<string>)
    requires serverName in hosts
    requires forall history :: net.respond(history).Redirected? && net.respond(history).host.Some? ==>
               net.respond(history).host.value in hosts
    ensures |asked| <= 1 + |hosts|
    ensures asked != [] ==> asked[0] == serverName && Way(asked, net, firstAddresses)
    ensures asked != [] ==> AddressesAt(asked, |asked| - 1, net, firstAddresses) != []
    ensures Ends(asked, net, firstAddresses, r)
    ensures r.GotAnswer? <==> asked != [] && net.respond(asked).Answered?
    ensures r.RequestFailed? <==> asked != [] && net.respond(asked).Refused?
    ensures r.RedirectLoop? <==> LoopsBack(asked, net)
  {
    ghost var chain;
    r, asked, chain := RequestInTurn(serverName, firstAddresses, net, hosts);
    EndsIff(asked, net, firstAddresses, r);
    NoDupLength(chain[1..]);
    SubsetIsNoLarger(Elems(chain[1..]), hosts);
  }

  /** The loop.  `chain` holds the hosts asked, and the next one if it could be resolved. */
  method RequestInTurn(serverName: string, firstAddresses: seq<string>, net: Net, ghost hosts: set<string>)
    returns (r: WellKnownResult, asked: seq<string>, ghost chain: seq<string>)
    requires serverName in hosts
    requires forall history :: net.respond(history).Redirected? && net.respond(history).host.Some? ==>
               net.respond(history).host.value in hosts
    ensures asked != [] ==> asked[0] == serverName && Way(asked, net, firstAddresses)
    ensures asked != [] ==> AddressesAt(asked, |asked| - 1, net, firstAddresses) != []
    ensures Ends(asked, net, firstAddresses, r)
    ensures chain != [] && NoDup(chain[1..]) && Elems(chain[1..]) <= hosts && |asked| <= |chain|
  {
    var lastTried, addresses := serverName, net.ipv4(firstAddresses);
    var alreadyTried: set<string> := {};
    chain := [serverName];
    asked := [];
    while true
      invariant Way(chain, net, firstAddresses) && chain[0] == serverName
      invariant asked == chain[..|chain| - 1] && lastTried == chain[|chain| - 1] && lastTried in hosts
      invariant Elems(chain[1..]) == alreadyTried <= hosts
      invariant addresses == AddressesAt(chain, |chain| - 1, net, firstAddresses)
      decreases hosts - alreadyTried
    {
      if addresses == [] {
        WayStops(chain, net, firstAddresses);
        return NoAddresses, asked, chain;
      }
      asked := asked + [lastTried];
      assert asked == chain;
      var response := net.respond(asked);
      if response.Answered? {
        return GotAnswer, asked, chain;
      }
      if response.Refused? {
        return RequestFailed(response.reason), asked, chain;
      }
      var newHost := if response.host.Some? then response.host.value else lastTried;
      RedirectEnds(asked, net, firstAddresses, newHost);
      assert newHost in asked[1..] <==> newHost in Elems(asked[1..]);
      if newHost in alreadyTried {
        return RedirectLoop, asked, chain;
      }
      lastTried := newHost;
      var dns := net.lookUp(newHost);
      alreadyTried := alreadyTried + {newHost};
      if dns.hosts == [] {
        r := if dns.errors == [] then NothingToReport else NoHostFor(dns.errors[0]);
        return r, asked, chain;
      }
      WayGrows(chain, net, firstAddresses, newHost);
      chain := chain + [newHost];
      addresses := net.ipv4(dns.hosts);
    }
  }
}
