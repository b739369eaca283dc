/** Forward requests and their validation (src/model.rs). */
module Model {
  import opened Wrappers
  import opened Strings
  import opened Utf8
  import opened Detect
  import Decimal
  import Sorting

  datatype ForwardRequest = ForwardRequest(
    remotePort: Port,
    preferredLocalPort: Port,
    remoteHost: string,
    paneId: string,
    process: string,
    detectedUrl: string,
    automatic: bool,
    serverStartedAt: Option<nat>,
    processId: Option<nat>)

  datatype Invalid = BadPort | BadHost | BadPane | TooLong | BadUrl

  predicate AcceptedHost(host: string) {
    host == "localhost" || host == "127.0.0.1" || host == "::1" || host == "[::1]"
  }

  predicate NamesPort(url: string, port: Port) {
    exists c :: c in FindUrls(url) && c.url == url && c.port == port
  }

  /** `ForwardRequest::validate`; nothing means the request is acceptable. */
  function Validate(r: ForwardRequest): Option<Invalid> {
    if r.remotePort == 0 then Some(BadPort)
    else if !AcceptedHost(r.remoteHost) then Some(BadHost)
    else if Trim(r.paneId) == [] || ByteLength(r.paneId) > 256 then Some(BadPane)
    else if ByteLength(r.process) > 256 || ByteLength(r.detectedUrl) > 2048 then Some(TooLong)
    else if !NamesPort(Trim(r.detectedUrl), r.remotePort) then Some(BadUrl)
    else None
  }

  /** The URL contains a loopback URL, itself, for this port. */
  ghost predicate IsLoopbackUrl(url: string, port: Port) {
    exists w :: w in Words(Strip(url)) && IsCandidateFor(CandidateOf(w), url, port)
  }

  ghost predicate IsCandidateFor(found: Option<Candidate>, url: string, port: Port) {
    found.Some? && found.value.url == url && found.value.port == port
  }

  /** An accepted request names a loopback host and a usable port, and carries a
      URL that names the same port on a loopback host. */
  lemma AcceptedRequest(r: ForwardRequest)
    requires Validate(r).None?
    ensures r.remotePort != 0 && AcceptedHost(r.remoteHost)
    ensures IsLoopbackUrl(Trim(r.detectedUrl), r.remotePort)
  {
    hide NamesPort, IsLoopbackUrl, Trim, ByteLength;
    NamedPortIsLoopback(Trim(r.detectedUrl), r.remotePort);
  }

  /** The limits, one by one, and which of several faults is reported: the first in the
      order port, host, pane, lengths, URL. */
  lemma ValidateExactly(r: ForwardRequest)
    ensures var host := r.remoteHost in ["localhost", "127.0.0.1", "::1", "[::1]"];
            var pane := (exists i :: 0 <= i < |r.paneId| && !IsWhitespace(r.paneId[i])) && ByteLength(r.paneId) <= 256;
            var short := ByteLength(r.process) <= 256 && ByteLength(r.detectedUrl) <= 2048;
            var url := exists c :: c in FindUrls(Trim(r.detectedUrl)) && c.url == Trim(r.detectedUrl)
                                   && c.port == r.remotePort;
            match Validate(r)
            case None => r.remotePort != 0 && host && pane && short && url
            case Some(BadPort) => r.remotePort == 0
            case Some(BadHost) => r.remotePort != 0 && !host
            case Some(BadPane) => r.remotePort != 0 && host && !pane
            case Some(TooLong) => r.remotePort != 0 && host && pane && !short
            case Some(BadUrl) => r.remotePort != 0 && host && pane && short && !url
  {
    hide Trim, ByteLength, FindUrls;
    TrimIsEmpty(r.paneId);
  }

  lemma TrimIsEmpty(s: string)
    ensures Trim(s) == [] <==> forall i :: 0 <= i < |s| ==> IsWhitespace(s[i])
  {
    hide IsWhitespace;
    TrimMatchesIsEmpty(s, IsWhitespace);
  }

  lemma NamedPortIsLoopback(url: string, port: Port)
    requires NamesPort(url, port)
    ensures IsLoopbackUrl(url, port)
  {
    hide CandidateOf, Strip, Words, FindUrls;
    FindUrlsIsExact(url);
    var c :| c in FindUrls(url) && c.url == url && c.port == port;
    var w :| w in Words(Strip(url)) && CandidateOf(w) == Some(c);
  }

  // ---------------------------------------------------------------------------
  // Requests the program composes itself
  // ---------------------------------------------------------------------------

  /** How a host is written in a URL. */
  function UrlHost(host: string): string { if host == "::1" then "[::1]" else host }

  /** The URL that the watcher (with a final slash) and the reloading of saved
      rules (without) put into a request. */
  function LoopbackUrl(host: string, port: Port, slash: bool): string {
    "http://" + UrlHost(host) + ":" + Decimal.Print(port) + if slash then "/" else ""
  }

  predicate UrlCharacter(c: char) {
    || Decimal.IsDigit(c) || 'a' <= c <= 'z' || c in ":/.[]"
  }

  lemma PrintedPortIsShort(n: nat)
    requires n < 100000
    ensures |Decimal.Print(n)| <= 5
  {
    var a, b, c, d := n / 10, n / 100, n / 1000, n / 10000;
    assert a / 10 == b && b / 10 == c && c / 10 == d && d < 10;
    assert |Decimal.Print(d)| == 1;
    assert |Decimal.Print(c)| <= 2;
    assert |Decimal.Print(b)| <= 3;
    assert |Decimal.Print(a)| <= 4;
  }

  lemma LoopbackUrlShape(host: string, port: Port, slash: bool)
    requires AcceptedHost(host)
    ensures var url := LoopbackUrl(host, port, slash);
            && 14 <= |url| <= 40
            && (forall i :: 0 <= i < |url| ==> UrlCharacter(url[i]))
            && url[0] == 'h'
            && (Decimal.IsDigit(url[|url| - 1]) || url[|url| - 1] == '/')
  {
    PrintedPortIsShort(port);
    var digits := Decimal.Print(port);
    var front := "http://" + UrlHost(host) + ":";
    assert forall i :: 0 <= i < |front| ==> UrlCharacter(front[i]);
    var url := LoopbackUrl(host, port, slash);
    assert url == front + digits + if slash then "/" else "";
  }

  lemma UrlCharacterIsPlain(c: char)
    requires UrlCharacter(c)
    ensures c != ESC && c as int < 0x80 && !IsWhitespace(c)
  {
  }

  lemma UrlCharactersArePlain(url: string)
    requires url != [] && forall i :: 0 <= i < |url| ==> UrlCharacter(url[i])
    ensures Trim(url) == url
    ensures ByteLength(url) == |url|
    ensures Words(Strip(url)) == [url]
  {
    hide UrlCharacter, IsWhitespace, Strip, Words, TrimMatches;
    forall i | 0 <= i < |url|
      ensures url[i] != ESC && url[i] as int < 0x80 && !IsWhitespace(url[i])
    {
      UrlCharacterIsPlain(url[i]);
    }
    StripIdempotent(url);
    TrimNothing(url, IsWhitespace);
    EncodeAscii(url);
    WordsOfOneWord(url);
  }

  lemma AuthoritySplits(host: string, digits: string)
    requires AcceptedHost(host) && Decimal.AllDigits(digits)
    ensures SplitAuthority(UrlHost(host) + ":" + digits) ==
            Some((if host == "[::1]" then "::1" else host, digits))
  {
    var authority := UrlHost(host) + ":" + digits;
    if host == "::1" || host == "[::1]" {
      var inner := authority[1..];
      assert inner == "::1]:" + digits;
      assert OccursAt(inner, "]:", 3);
      assert inner[0] == ':' && inner[1] == ':' && inner[2] == '1';
      FindIs(inner, "]:", 3);
      assert inner[..3] == "::1" && inner[5..] == digits;
    } else {
      assert !Decimal.IsDigit(':');
      RSplitOnceIs(UrlHost(host), ':', digits);
      assert authority == UrlHost(host) + [':'] + digits;
    }
  }

  lemma {:induction false} FindAnyIs(before: string, after: string, stops: string)
    requires forall i :: 0 <= i < |before| ==> before[i] !in stops
    requires after != [] ==> after[0] in stops
    ensures FindAny(before + after, stops) == |before|
  {
    var s := before + after;
    if before == [] {
      assert s == after;
    } else {
      assert s[1..] == before[1..] + after;
      FindAnyIs(before[1..], after, stops);
    }
  }

  lemma SchemeSplits(rest: string)
    ensures var url := "http://" + rest;
            Find(url, "://") == Some(4) && url[..4] == "http" && url[7..] == rest
  {
    var url := "http://" + rest;
    assert OccursAt(url, "://", 4);
    assert url[0] == 'h' && url[1] == 't' && url[2] == 't' && url[3] == 'p';
    FindIs(url, "://", 4);
  }

  lemma AuthorityEnds(host: string, digits: string, slash: bool)
    requires AcceptedHost(host) && Decimal.AllDigits(digits)
    ensures var rest := UrlRest(host, digits, slash);
            rest[..FindAny(rest, "/?#")] == UrlHost(host) + ":" + digits
  {
    var authority := UrlHost(host) + ":" + digits;
    var tail := if slash then "/" else "";
    forall i | 0 <= i < |authority|
      ensures authority[i] !in "/?#"
    {
      if i >= |UrlHost(host)| + 1 {
        assert authority[i] == digits[i - |UrlHost(host)| - 1];
        assert Decimal.IsDigit(authority[i]);
      }
    }
    FindAnyIs(authority, tail, "/?#");
    assert (authority + tail)[..|authority|] == authority;
  }

  lemma CandidateFromParts(token: string, rest: string, host: string, digits: string, port: Port)
    requires TrimMatches(token, IsPunctuation) == token
    requires Find(token, "://") == Some(4) && token[..4] == "http" && token[7..] == rest
    requires SplitAuthority(rest[..FindAny(rest, "/?#")]) == Some((host, digits))
    requires IsLoopbackHost(host) && Decimal.ParseUnsigned(digits, 0xffff) == Some(port) && port != 0
    ensures CandidateOf(token) == Some(Candidate(host, port, token))
  {
  }

  lemma UrlIsNotTrimmed(host: string, port: Port, slash: bool)
    requires AcceptedHost(host)
    ensures TrimMatches(LoopbackUrl(host, port, slash), IsPunctuation) == LoopbackUrl(host, port, slash)
  {
    LoopbackUrlShape(host, port, slash);
    TrimNothing(LoopbackUrl(host, port, slash), IsPunctuation);
  }

  /** The composed URL is itself a loopback candidate for its own port. */
  lemma LoopbackUrlIsCandidate(host: string, port: Port, slash: bool)
    requires AcceptedHost(host) && port != 0
    ensures var url := LoopbackUrl(host, port, slash);
            CandidateOf(url) == Some(Candidate(if host == "[::1]" then "::1" else host, port, url))
  {
    hide *;
    var digits := Decimal.Print(port);
    var rest := UrlRest(host, digits, slash);
    UrlParts(host, port, slash);
    UrlIsNotTrimmed(host, port, slash);
    SchemeSplits(rest);
    AuthorityEnds(host, digits, slash);
    AuthoritySplits(host, digits);
    Decimal.ParsePrinted(port, 0xffff);
    var plain := if host == "[::1]" then "::1" else host;
    AcceptedHostIsLoopback(host);
    CandidateFromParts(LoopbackUrl(host, port, slash), rest, plain, digits, port);
  }

  function UrlRest(host: string, digits: string, slash: bool): string {
    UrlHost(host) + ":" + digits + if slash then "/" else ""
  }

  lemma UrlParts(host: string, port: Port, slash: bool)
    ensures LoopbackUrl(host, port, slash) == "http://" + UrlRest(host, Decimal.Print(port), slash)
  {
    hide UrlHost, Decimal.Print;
    var digits := Decimal.Print(port);
    assert "http://" + UrlHost(host) + ":" + digits + (if slash then "/" else "") ==
           "http://" + (UrlHost(host) + ":" + digits + if slash then "/" else "");
  }

  lemma AcceptedHostIsLoopback(host: string)
    requires AcceptedHost(host)
    ensures IsLoopbackHost(if host == "[::1]" then "::1" else host)
  {
  }

  lemma LoopbackUrlNamesPort(host: string, port: Port, slash: bool)
    requires AcceptedHost(host) && port != 0
    ensures var url := LoopbackUrl(host, port, slash);
            NamesPort(Trim(url), port) && ByteLength(url) <= 40
  {
    hide CandidateOf, LoopbackUrl, Trim, ByteLength, FindUrls;
    var url := LoopbackUrl(host, port, slash);
    LoopbackUrlShape(host, port, slash);
    UrlCharactersArePlain(url);
    LoopbackUrlIsCandidate(host, port, slash);
    OnlyCandidate(url, CandidateOf(url).value);
  }

  /** Every request composed from an accepted host and a port passes validation. */
  lemma ComposedRequestIsValid(r: ForwardRequest, slash: bool)
    requires r.remotePort != 0 && AcceptedHost(r.remoteHost)
    requires Trim(r.paneId) != [] && ByteLength(r.paneId) <= 256 && ByteLength(r.process) <= 256
    requires r.detectedUrl == LoopbackUrl(r.remoteHost, r.remotePort, slash)
    ensures Validate(r).None?
  {
    hide NamesPort, LoopbackUrl, Trim, ByteLength;
    LoopbackUrlNamesPort(r.remoteHost, r.remotePort, slash);
  }

  lemma OnlyCandidate(url: string, c: Candidate)
    requires Words(Strip(url)) == [url] && CandidateOf(url) == Some(c)
    ensures FindUrls(url) == [c]
  {
    hide CandidateOf;
    assert CandidatesOf([url]) == [Some(c)];
    assert [Some(c)][..0] == [];
    assert Collect([Some(c)][..0]) == [];
    assert !Known([], c);
    assert Collect([Some(c)]) == [c];
    assert [c][..0] == [];
    assert Sorting.StableSort([c][..0], PortAtMost) == [];
    assert Sorting.StableSort([c], PortAtMost) == [c];
  }
}
