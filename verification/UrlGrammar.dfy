/** Which words `find_urls` (src/detect.rs) takes for loopback URLs, as a grammar. */
module UrlGrammar {
  import opened Wrappers
  import opened Strings
  import opened Detect
  import opened Model
  import Decimal

  /** Scheme, loopback host with or without brackets, port, and whatever follows from the
      path, the query or the fragment on. */
  ghost predicate IsLoopbackWord(token: string, scheme: string, host: string, bracketed: bool, digits: string,
                                 tail: string, port: Port) {
    && token == scheme + "://" + (Authority(host, bracketed, digits) + tail)
    && (scheme == "http" || scheme == "https")
    && (host == "localhost" || host == "127.0.0.1" || host == "::1")
    && Decimal.ParseUnsigned(digits, 0xffff) == Some(port) && port != 0
    && (tail == "" || tail[0] == '/' || tail[0] == '?' || tail[0] == '#')
  }

  function Authority(host: string, bracketed: bool, digits: string): string {
    (if bracketed then "[" + host + "]" else host) + ":" + digits
  }

  /** A word is a candidate exactly when, without the punctuation around it, it is of that
      grammar; host and port are those it names, and the URL is the word so trimmed. */
  lemma CandidateExactly(word: string, host: string, port: Port, url: string)
    ensures CandidateOf(word) == Some(Candidate(host, port, url)) <==>
            && url == TrimMatches(word, IsPunctuation)
            && exists scheme, bracketed, digits, tail ::
                 IsLoopbackWord(url, scheme, host, bracketed, digits, tail, port)
  {
    hide IsLoopbackWord;
    var token := TrimMatches(word, IsPunctuation);
    if CandidateOf(word) == Some(Candidate(host, port, url)) {
      var scheme, bracketed, digits, tail := CandidateParts(word);
      assert IsLoopbackWord(url, scheme, host, bracketed, digits, tail, port);
    }
    if scheme, bracketed, digits, tail :| url == token
                                          && IsLoopbackWord(url, scheme, host, bracketed, digits, tail, port) {
      WordIsCandidate(word, scheme, host, bracketed, digits, tail, port);
    }
  }

  lemma CandidateParts(word: string)
    returns (scheme: string, bracketed: bool, digits: string, tail: string)
    requires CandidateOf(word).Some?
    ensures var c := CandidateOf(word).value;
            && c.url == TrimMatches(word, IsPunctuation)
            && IsLoopbackWord(c.url, scheme, c.host, bracketed, digits, tail, c.port)
  {
    hide *;
    var token := TrimMatches(word, IsPunctuation);
    var rest: string;
    scheme, rest := CandidateMeans(word);
    var n := FindAny(rest, "/?#");
    tail := rest[n..];
    bracketed, digits := AuthorityParts(rest[..n]);
    assert rest == rest[..n] + tail;
    IsWord(token, scheme, CandidateOf(word).value.host, bracketed, digits, tail, CandidateOf(word).value.port);
  }

  lemma IsWord(token: string, scheme: string, host: string, bracketed: bool, digits: string, tail: string, port: Port)
    requires token == scheme + "://" + (Authority(host, bracketed, digits) + tail)
    requires (scheme == "http" || scheme == "https") && IsLoopbackHost(host)
    requires Decimal.ParseUnsigned(digits, 0xffff) == Some(port) && port != 0
    requires tail == "" || tail[0] in "/?#"
    ensures IsLoopbackWord(token, scheme, host, bracketed, digits, tail, port)
  {
    hide Decimal.ParseUnsigned, Authority;
  }

  lemma CandidateMeans(word: string) returns (scheme: string, rest: string)
    requires CandidateOf(word).Some?
    ensures TrimMatches(word, IsPunctuation) == scheme + "://" + rest && (scheme == "http" || scheme == "https")
    ensures var c := CandidateOf(word).value;
            var parts := SplitAuthority(rest[..FindAny(rest, "/?#")]);
            && c.url == TrimMatches(word, IsPunctuation) && IsLoopbackHost(c.host) && c.port != 0
            && parts.Some? && parts.value.0 == c.host && Decimal.ParseUnsigned(parts.value.1, 0xffff) == Some(c.port)
  {
    hide TrimMatches, Decimal.ParseUnsigned, FindAny, SplitAuthority, FindFrom;
    var token := TrimMatches(word, IsPunctuation);
    var n := Find(token, "://").value;
    scheme, rest := token[..n], token[n + 3..];
    assert OccursAt(token, "://", n);
    assert token == token[..n] + token[n..n + 3] + token[n + 3..];
  }

  lemma AuthorityParts(authority: string) returns (bracketed: bool, digits: string)
    requires SplitAuthority(authority).Some?
    ensures var (host, port) := SplitAuthority(authority).value;
            digits == port && authority == Authority(host, bracketed, digits)
  {
    var (host, port) := SplitAuthority(authority).value;
    bracketed, digits := authority != [] && authority[0] == '[', port;
    if bracketed {
      assert authority == "[" + authority[1..];
      assert authority == "[" + host + "]" + ":" + port;
    }
  }

  lemma WordIsCandidate(word: string, scheme: string, host: string, bracketed: bool, digits: string, tail: string,
                        port: Port)
    requires IsLoopbackWord(TrimMatches(word, IsPunctuation), scheme, host, bracketed, digits, tail, port)
    ensures CandidateOf(word) == Some(Candidate(host, port, TrimMatches(word, IsPunctuation)))
  {
    hide TrimMatches, Decimal.ParseUnsigned, FindAny, Find, SplitAuthority, Authority;
    var token := TrimMatches(word, IsPunctuation);
    var authority := Authority(host, bracketed, digits);
    SchemeEnds(scheme, authority + tail);
    AuthorityAvoids(host, bracketed, digits);
    FindAnyIs(authority, tail, "/?#");
    assert (authority + tail)[..|authority|] == authority;
    AuthorityIsSplit(host, bracketed, digits);
  }

  lemma SchemeEnds(scheme: string, rest: string)
    requires scheme == "http" || scheme == "https"
    ensures var token := scheme + "://" + rest;
            Find(token, "://") == Some(|scheme|) && token[..|scheme|] == scheme && token[|scheme| + 3..] == rest
  {
    var token := scheme + "://" + rest;
    forall j | 0 <= j < |scheme|
      ensures !OccursAt(token, "://", j)
    {
      assert token[j] == scheme[j] != ':';
      assert j + 3 <= |token| ==> token[j..j + 3][0] == token[j];
    }
    assert token[|scheme|..|scheme| + 3] == "://";
    FindIs(token, "://", |scheme|);
  }

  /** A port numeral holds digits and at most a plus sign. */
  lemma NumeralCharacters(digits: string)
    requires Decimal.ParseUnsigned(digits, 0xffff).Some?
    ensures forall i :: 0 <= i < |digits| ==> Decimal.IsDigit(digits[i]) || digits[i] == '+'
  {
    if digits != [] && digits[0] == '+' {
      forall i | 0 < i < |digits|
        ensures Decimal.IsDigit(digits[i])
      {
        assert digits[i] == digits[1..][i - 1];
      }
    }
  }

  lemma AuthorityAvoids(host: string, bracketed: bool, digits: string)
    requires host == "localhost" || host == "127.0.0.1" || host == "::1"
    requires Decimal.ParseUnsigned(digits, 0xffff).Some?
    ensures var authority := Authority(host, bracketed, digits);
            forall i :: 0 <= i < |authority| ==> authority[i] !in "/?#"
  {
    NumeralCharacters(digits);
    var front := (if bracketed then "[" + host + "]" else host) + ":";
    assert forall i :: 0 <= i < |front| ==> front[i] !in "/?#";
    assert Authority(host, bracketed, digits) == front + digits;
  }

  lemma AuthorityIsSplit(host: string, bracketed: bool, digits: string)
    requires host == "localhost" || host == "127.0.0.1" || host == "::1"
    requires Decimal.ParseUnsigned(digits, 0xffff).Some?
    ensures SplitAuthority(Authority(host, bracketed, digits)) == Some((host, digits))
  {
    hide Decimal.ParseUnsigned, SplitAuthority;
    NumeralCharacters(digits);
    if bracketed {
      BracketsSplit(host, digits);
    } else {
      PlainSplits(host, digits);
    }
  }

  lemma BracketsSplit(host: string, digits: string)
    requires ']' !in host
    ensures SplitAuthority(Authority(host, true, digits)) == Some((host, digits))
  {
    hide OccursAt, Find;
    var authority := Authority(host, true, digits);
    var inner := authority[1..];
    assert inner == host + "]:" + digits;
    FirstBracket(host, digits);
    assert inner[..|host|] == host && inner[|host| + 2..] == digits;
  }

  lemma FirstBracket(host: string, digits: string)
    requires ']' !in host
    ensures Find(host + "]:" + digits, "]:") == Some(|host|)
  {
    var inner := host + "]:" + digits;
    forall j | 0 <= j < |host|
      ensures !OccursAt(inner, "]:", j)
    {
      assert inner[j] == host[j] != ']';
      assert inner[j..j + 2][0] == inner[j];
    }
    assert inner[|host|..|host| + 2] == "]:";
    FindIs(inner, "]:", |host|);
  }

  lemma PlainSplits(host: string, digits: string)
    requires host != "" && host[0] != '[' && ':' !in digits
    ensures SplitAuthority(Authority(host, false, digits)) == Some((host, digits))
  {
    var authority := Authority(host, false, digits);
    assert authority == host + [':'] + digits;
    RSplitOnceIs(host, ':', digits);
  }
}
