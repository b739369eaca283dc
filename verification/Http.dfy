/** The companion's HTTP reader and writer (src/bin/local/http.rs): one request per
    connection, framed by Content-Length (sections 3, 5 and 6.3 of RFC 9112, section
    5.6.2 of RFC 9110). */
module Http {
  import opened Wrappers
  import opened Strings
  import opened Utf8
  import Decimal
  import Detect
  import opened Journals

  const MAX_HEADER_SIZE := 16 * 1024
  const MAX_BODY_SIZE := 64 * 1024
  const USIZE_MAX: nat := 0xffff_ffff_ffff_ffff

  datatype HttpError =
    | HeadersTooLarge
    | NotText
    | BadRequestLine
    | BadHeader
    | DuplicateHeader
    | UnsupportedEncoding
    | BadLength
    | BodyTooLarge
    | UnsupportedExpectation
    | Incomplete
    | TimedOut
    | Stopping
    | Broken

  datatype Method = Get | Post | Delete | Other

  type Header = (string, string)

  /** What the header says. */
  datatype Head = Head(verb: Method, path: string, headers: seq<Header>, length: nat, expects: bool)

  datatype Request = Request(verb: Method, path: string, headers: seq<Header>, body: seq<Byte>)

  // ---------------------------------------------------------------------------
  // Parsing the header
  // ---------------------------------------------------------------------------

  /** The characters of a header name. */
  predicate IsTokenChar(c: char) {
    Decimal.IsDigit(c) || 'a' <= c <= 'z' || 'A' <= c <= 'Z' || c in "!#$%&'*+-.^_`|~"
  }

  function Lower(c: char): char { if 'A' <= c <= 'Z' then c + 32 as char else c }

  /** `eq_ignore_ascii_case`. */
  predicate SameName(a: string, b: string) { |a| == |b| && forall i :: 0 <= i < |a| ==> Lower(a[i]) == Lower(b[i]) }

  /** The first header of this name. */
  function Lookup(headers: seq<Header>, name: string): Option<string> {
    if headers == [] then None
    else if SameName(headers[0].0, name) then Some(headers[0].1)
    else Lookup(headers[1..], name)
  }

  predicate Named(headers: seq<Header>, name: string) {
    exists i :: 0 <= i < |headers| && SameName(headers[i].0, name)
  }

  /** Headers that may not be repeated. */
  predicate Guarded(name: string) {
    || SameName(name, "Content-Length") || SameName(name, "Transfer-Encoding")
    || SameName(name, "Authorization") || SameName(name, "Expect")
  }

  function AddHeader(headers: seq<Header>, line: string): Result<seq<Header>, HttpError> {
    match SplitOnce(line, ":")
    case None => Err(BadHeader)
    case Some((key, value)) =>
      if key == [] || (exists i :: 0 <= i < |key| && !IsTokenChar(key[i])) ||
         (exists i :: 0 <= i < |value| && Detect.IsControl(value[i]) && value[i] != '\t')
      then Err(BadHeader)
      else if Guarded(key) && Named(headers, key) then Err(DuplicateHeader)
      else Ok(headers + [(key, Trim(value))])
  }

  /** The header lines in order, up to the first failure. */
  function ParseHeaders(lines: seq<string>): Result<seq<Header>, HttpError> {
    if lines == [] then Ok([])
    else
      match ParseHeaders(lines[..|lines| - 1])
      case Err(e) => Err(e)
      case Ok(headers) => AddHeader(headers, lines[|lines| - 1])
  }

  /** `take_while(not empty)`. */
  function NonEmptyLines(lines: seq<string>): seq<string> {
    if lines == [] || lines[0] == [] then [] else [lines[0]] + NonEmptyLines(lines[1..])
  }

  function VerbOf(text: string): Method {
    if text == "GET" then Get else if text == "POST" then Post else if text == "DELETE" then Delete else Other
  }

  function ParseRequestLine(line: string): Result<(Method, string), HttpError> {
    var parts := Split(line, " ");
    if |parts| != 3 || (parts[2] != "HTTP/1.0" && parts[2] != "HTTP/1.1") then Err(BadRequestLine)
    else if parts[1] == [] || parts[1][0] != '/' || (exists i :: 0 <= i < |parts[1]| && Detect.IsControl(parts[1][i]))
    then Err(BadRequestLine)
    else Ok((VerbOf(parts[0]), parts[1]))
  }

  function DeclaredLength(headers: seq<Header>): Result<nat, HttpError> {
    match Lookup(headers, "Content-Length")
    case None => Ok(0)
    case Some(value) =>
      if value == [] || !Decimal.AllDigits(value) then Err(BadLength)
      else match Decimal.ParseUnsigned(value, USIZE_MAX)
        case None => Err(BadLength)
        case Some(n) => if n > MAX_BODY_SIZE then Err(BodyTooLarge) else Ok(n)
  }

  function ParseHead(bytes: seq<Byte>): Result<Head, HttpError> {
    match Decode(bytes)
    case None => Err(NotText)
    case Some(text) =>
      var lines := Split(text, "\r\n");
      match ParseRequestLine(lines[0])
      case Err(e) => Err(e)
      case Ok((verb, path)) =>
        match ParseHeaders(NonEmptyLines(lines[1..]))
        case Err(e) => Err(e)
        case Ok(headers) => CheckFraming(verb, path, headers)
  }

  function CheckFraming(verb: Method, path: string, headers: seq<Header>): Result<Head, HttpError> {
    if Named(headers, "Transfer-Encoding") then Err(UnsupportedEncoding)
    else match DeclaredLength(headers)
      case Err(e) => Err(e)
      case Ok(length) =>
        match Lookup(headers, "Expect")
        case None => Ok(Head(verb, path, headers, length, false))
        case Some(value) =>
          if SameName(value, "100-continue") then Ok(Head(verb, path, headers, length, true))
          else Err(UnsupportedExpectation)
  }

  /** The loop over the header lines. */
  method CollectHeaders(lines: seq<string>) returns (r: Result<seq<Header>, HttpError>)
    ensures r == ParseHeaders(NonEmptyLines(lines))
  {
    hide AddHeader;
    var headers: seq<Header> := [];
    var n := 0;
    while n < |lines| && lines[n] != []
      invariant 0 <= n <= |lines| && forall i :: 0 <= i < n ==> lines[i] != []
      invariant ParseHeaders(lines[..n]) == Ok(headers)
    {
      assert lines[..n + 1][..n] == lines[..n];
      NonEmptyPrefix(lines, n + 1);
      var added := AddHeader(headers, lines[n]);
      if added.Err? {
        FailureStays(lines, n + 1);
        return added;
      }
      headers := added.value;
      n := n + 1;
    }
    NonEmptyPrefix(lines, n);
    r := Ok(headers);
  }

  lemma {:induction false} NonEmptyPrefix(lines: seq<string>, n: nat)
    requires n <= |lines| && forall i :: 0 <= i < n ==> lines[i] != []
    ensures lines[..n] <= NonEmptyLines(lines)
    ensures n == |lines| || lines[n] == [] ==> NonEmptyLines(lines) == lines[..n]
  {
    if n > 0 {
      NonEmptyPrefix(lines[1..], n - 1);
      assert lines[..n] == [lines[0]] + lines[1..][..n - 1];
    }
  }

  lemma {:induction false} ErrorStays(lines: seq<string>, more: seq<string>)
    requires ParseHeaders(lines).Err? && lines <= more
    ensures ParseHeaders(more) == ParseHeaders(lines)
    decreases |more|
  {
    hide AddHeader;
    if |lines| < |more| {
      ErrorStays(lines, more[..|more| - 1]);
    } else {
      assert more == lines;
    }
  }

  lemma FailureStays(lines: seq<string>, n: nat)
    requires n <= |lines| && (forall i :: 0 <= i < n ==> lines[i] != []) && ParseHeaders(lines[..n]).Err?
    ensures ParseHeaders(NonEmptyLines(lines)) == ParseHeaders(lines[..n])
  {
    NonEmptyPrefix(lines, n);
    ErrorStays(lines[..n], NonEmptyLines(lines));
  }

  // ---------------------------------------------------------------------------
  // Reading from the connection
  // ---------------------------------------------------------------------------

  const BLANK_LINE: seq<Byte> := [13, 10, 13, 10]

  /** Reading until the blank line, given what arrives: how many arrivals it takes.
      `final` is the error met when nothing more arrives. */
  function ReadHead(arrivals: seq<seq<Byte>>, n: nat, final: HttpError): (r: Result<nat, HttpError>)
    requires n <= |arrivals|
    ensures r.Ok? ==> n <= r.value <= |arrivals| && Find(Flatten(arrivals[..r.value]), BLANK_LINE).Some?
    decreases |arrivals| - n
  {
    var bytes := Flatten(arrivals[..n]);
    match Find(bytes, BLANK_LINE)
    case Some(i) => if i > MAX_HEADER_SIZE then Err(HeadersTooLarge) else Ok(n)
    case None =>
      if |bytes| > MAX_HEADER_SIZE then Err(HeadersTooLarge)
      else if n == |arrivals| then Err(final)
      else ReadHead(arrivals, n + 1, final)
  }

  /** Reading until `need` bytes are there. */
  function ReadUpTo(arrivals: seq<seq<Byte>>, n: nat, need: nat, final: HttpError): (r: Result<nat, HttpError>)
    requires n <= |arrivals|
    ensures r.Ok? ==> n <= r.value <= |arrivals| && need <= |Flatten(arrivals[..r.value])|
    decreases |arrivals| - n
  {
    if need <= |Flatten(arrivals[..n])| then Ok(n)
    else if n == |arrivals| then Err(final)
    else ReadUpTo(arrivals, n + 1, need, final)
  }

  /** `read_parts`, given what arrives, whether the interim answer can be written, and
      whether the companion is stopping at the end. */
  function ReadRequest(arrivals: seq<seq<Byte>>, final: HttpError, writable: bool,
                       stopping: bool): Result<Request, HttpError> {
    match ReadHead(arrivals, 0, final)
    case Err(e) => Err(e)
    case Ok(n) =>
      var bytes := Flatten(arrivals[..n]);
      var end := Find(bytes, BLANK_LINE).value + 4;
      match ParseHead(bytes[..end])
      case Err(e) => Err(e)
      case Ok(head) => ReadRest(arrivals, n, end, head, final, writable, stopping)
  }

  /** The part after the header. */
  function ReadRest(arrivals: seq<seq<Byte>>, n: nat, end: nat, head: Head, final: HttpError, writable: bool,
                    stopping: bool)
    : Result<Request, HttpError>
    requires n <= |arrivals|
  {
    if head.expects && !writable then Err(Broken)
    else match ReadUpTo(arrivals, n, end + head.length, final)
      case Err(e) => Err(e)
      case Ok(m) =>
        if stopping then Err(Stopping)
        else Ok(Request(head.verb, head.path, head.headers, Flatten(arrivals[..m])[end..end + head.length]))
  }

  /** The ways in which a read may fail. */
  predicate ReadFailure(e: HttpError) { e == Stopping || e == TimedOut || e == Incomplete || e == Broken }

  /** Reads that gave these bytes. */
  ghost function Given(arrivals: seq<seq<Byte>>): seq<Result<seq<Byte>, HttpError>> {
    seq(|arrivals|, i requires 0 <= i < |arrivals| => Ok(arrivals[i]))
  }

  /** The interim answer, and whether it could be written. */
  ghost function InterimAnswer(ok: bool): Attempted<seq<Byte>> { Attempted(CONTINUE, ok) }

  /** Each outcome has its reason: a read that failed, an interim answer that could not be
      written, or a companion that is stopping; that answer was tried if it was waited for. */
  ghost predicate Accounted(r: Result<Request, HttpError>, final: HttpError, writable: bool, stopping: bool,
                            failed: bool, interim: bool) {
    && (r == Err(TimedOut) || r == Err(Incomplete) ==> failed) && (r == Err(Stopping) ==> failed || stopping)
    && (r == Err(Broken) ==> failed || !writable) && (!writable ==> interim) && (failed ==> r == Err(final))
    && (r.Ok? ==> (interim <==> Lookup(r.value.headers, "Expect").Some?))
  }

  lemma AccountedMeans(r: Result<Request, HttpError>, final: HttpError, writable: bool, stopping: bool, failed: bool,
                       interim: bool)
    ensures Accounted(r, final, writable, stopping, failed, interim) <==>
            && (r == Err(TimedOut) || r == Err(Incomplete) ==> failed) && (r == Err(Stopping) ==> failed || stopping)
            && (r == Err(Broken) ==> failed || !writable) && (!writable ==> interim) && (failed ==> r == Err(final))
            && (r.Ok? ==> (interim <==> Lookup(r.value.headers, "Expect").Some?))
  {
    hide Lookup;
  }

  lemma InterimIs()
    ensures forall ok :: InterimAnswer(ok) == Attempted(CONTINUE, ok)
  {
    hide Encode;
  }

  lemma GivenOneMore(arrivals: seq<seq<Byte>>, more: seq<Byte>)
    ensures Given(arrivals + [more]) == Given(arrivals) + [Ok(more)]
  {
  }

  lemma GivenNothing()
    ensures Given([]) == []
  {
  }

  lemma ReadFailures(e: HttpError)
    ensures ReadFailure(e) <==> e == Stopping || e == TimedOut || e == Incomplete || e == Broken
  {
  }

  lemma {:induction false} HeaderErrors(lines: seq<string>)
    ensures ParseHeaders(lines).Err? ==> !ReadFailure(ParseHeaders(lines).error)
  {
    hide SplitOnce, Named, Guarded, Trim;
    if lines != [] {
      HeaderErrors(lines[..|lines| - 1]);
    }
  }

  /** What is wrong with a header is never mistaken for a read that failed. */
  lemma HeadErrors(bytes: seq<Byte>)
    ensures ParseHead(bytes).Err? ==> !ReadFailure(ParseHead(bytes).error)
  {
    hide Decode, Split, ParseHeaders, NonEmptyLines, Lookup, Named, SameName, Decimal.ParseUnsigned, Decimal.AllDigits;
    var text := Decode(bytes);
    if text.Some? {
      HeaderErrors(NonEmptyLines(Split(text.value, "\r\n")[1..]));
    }
  }

  class Connection {
    /** What the peer will still send. */
    var incoming: seq<Byte>
    var written: seq<Byte>
    /** What the reads have given, how the writes went, and what the flag that asks the
        companion to stop has said. */
    ghost var received: seq<Result<seq<Byte>, HttpError>>
    ghost var sent: seq<Attempted<seq<Byte>>>
    ghost var asked: seq<bool>

    constructor (incoming: seq<Byte>)
      ensures this.incoming == incoming && written == [] && received == [] && sent == [] && asked == []
    {
      this.incoming, written, received, sent, asked := incoming, [], [], [], [];
    }

    /** `read_more`: at most 4096 bytes, or an error. */
    method Receive() returns (r: Result<seq<Byte>, HttpError>)
      modifies `incoming, `received
      ensures received == old(received) + [r] && (r.Err? ==> ReadFailure(r.error))
      ensures r.Ok? ==> 1 <= |r.value| <= 4096 && old(incoming) == r.value + incoming
      ensures r.Err? ==> incoming == old(incoming)
    {
      var n: nat := *;
      var fails: bool := *;
      if fails || incoming == [] {
        r := Failure();
      } else {
        if !(1 <= n <= 4096 && n <= |incoming|) { n := 1; }
        r := Ok(incoming[..n]);
        incoming := incoming[n..];
      }
      received := received + [r];
    }

    /** Stopping, out of time, at the end of the stream, or a broken connection. */
    method Failure() returns (r: Result<seq<Byte>, HttpError>)
      ensures r.Err? && ReadFailure(r.error)
    {
      var kind: int := *;
      r := Err(if kind == 0 then Stopping else if kind == 1 then TimedOut else if kind ==
          2 then Incomplete else Broken);
    }

    method Send(bytes: seq<Byte>) returns (ok: bool)
      modifies `written, `sent
      ensures written == if ok then old(written) + bytes else old(written)
      ensures sent == old(sent) + [Attempted(bytes, ok)]
    {
      ok := *;
      if ok { written := written + bytes; }
      sent := sent + [Attempted(bytes, ok)];
    }

    method Stops() returns (stop: bool)
      modifies `asked
      ensures asked == old(asked) + [stop]
    {
      stop := *;
      asked := asked + [stop];
    }

    /** The first loop of `read_parts`; on success, where the body begins. */
    method ReadHeader() returns (r: Result<nat, HttpError>, bytes: seq<Byte>, ghost arrivals: seq<seq<Byte>>,
                      ghost final: HttpError)
      modifies `incoming, `received
      ensures received == old(received) + Given(arrivals) +
                       if r.Err? && r.error != HeadersTooLarge then [Err(final)] else []
      ensures bytes == Flatten(arrivals) && old(incoming) == bytes + incoming
      ensures forall a :: a in arrivals ==> 1 <= |a| <= 4096
      ensures match ReadHead(arrivals, 0, final)
              case Err(e) => r == Err(e) && (e != HeadersTooLarge ==> e == final && ReadFailure(e))
              case Ok(n) =>
                && n == |arrivals| && r.Ok? && r.value <= |bytes|
                && var at := Find(bytes, BLANK_LINE); at.Some? && r.value == at.value + 4
    {
      hide *;
      bytes, arrivals, final := [], [], Incomplete;
      NothingReadYet(arrivals);
      GivenNothing();
      var where := Find(bytes, BLANK_LINE);
      while where.None? && |bytes| <= MAX_HEADER_SIZE
        invariant bytes == Flatten(arrivals) && old(incoming) == bytes + incoming
        invariant received == old(received) + Given(arrivals)
        invariant forall a :: a in arrivals ==> 1 <= |a| <= 4096
        invariant UndecidedBefore(arrivals, |arrivals|) && where == Find(bytes, BLANK_LINE)
        decreases |incoming|
      {
        StillUndecided(arrivals, bytes);
        var more := Receive();
        if more.Err? {
          final := more.error;
          EndOfHeaderReading(arrivals, final);
          ReadFailures(final);
          return Err(more.error), bytes, arrivals, final;
        }
        FlattenPushed(arrivals, more.value);
        GivenOneMore(arrivals, more.value);
        OneMoreArrival(arrivals, more.value);
        assert bytes + (more.value + incoming) == (bytes + more.value) + incoming;
        bytes, arrivals := bytes + more.value, arrivals + [more.value];
        where := Find(bytes, BLANK_LINE);
      }
      EndOfHeaderReading(arrivals, final);
      WhereItEnds(bytes);
      r := if where.Some? && where.value <= MAX_HEADER_SIZE then Ok(where.value + 4) else Err(HeadersTooLarge);
    }

    /** `read_parts`: what it returns follows from what arrived and from what failed. */
    method ReadParts()
      returns (r: Result<Request, HttpError>, ghost arrivals: seq<seq<Byte>>, ghost final: HttpError,
               ghost writable: bool, ghost stopping: bool, ghost failed: bool, ghost interim: bool)
      modifies `incoming, `written, `received, `sent, `asked
      ensures received == old(received) + Given(arrivals) + if failed then [Err(final)] else []
      ensures sent == old(sent) + if interim then [InterimAnswer(writable)] else []
      ensures asked == old(asked) + if r.Ok? || stopping then [stopping] else []
      ensures Accounted(r, final, writable, stopping, failed, interim)
      ensures r == ReadRequest(arrivals, final, writable, stopping)
      ensures old(incoming) == Flatten(arrivals) + incoming
      ensures forall a :: a in arrivals ==> 1 <= |a| <= 4096
      ensures written == old(written) + if interim && writable then InterimAnswer(true).step else []
    {
      hide *;
      InterimIs();
      writable, stopping, failed, interim := true, false, false, false;
      ghost var log := received;
      var begins, bytes;
      begins, bytes, arrivals, final := ReadHeader();
      if begins.Err? {
        HeadNotFound(arrivals, final, writable, stopping);
        failed := begins.error != HeadersTooLarge;
        AccountedMeans(Err(begins.error), final, writable, stopping, failed, interim);
        return Err(begins.error), arrivals, final, writable, stopping, failed, interim;
      }
      var end := begins.value;
      var head := ParseHeader(bytes[..end]);
      ExpectsIfAsked(bytes[..end]);
      HeadErrors(bytes[..end]);
      if head.Err? {
        ReadFailures(head.error);
        HeadRefused(arrivals, end, final, writable, stopping);
        AccountedMeans(Err(head.error), final, writable, stopping, failed, interim);
        return Err(head.error), arrivals, final, writable, stopping, failed, interim;
      }
      if head.value.expects {
        var ok := Send(CONTINUE);
        interim := true;
        if !ok {
          writable := false;
          HeadRefused(arrivals, end, final, writable, stopping);
          AccountedMeans(Err(Broken), final, writable, stopping, failed, interim);
          return Err(Broken), arrivals, final, writable, stopping, failed, interim;
        }
      }
      r, arrivals, final, stopping, failed := ReadRemainder(head.value, end, bytes, arrivals, final, log);
      AccountedMeans(r, final, writable, stopping, failed, interim);
    }

    /** The part of `read_parts` that follows the header. */
    method ReadRemainder(head: Head, end: nat, read: seq<Byte>, ghost before: seq<seq<Byte>>, ghost first: HttpError,
                         ghost log: seq<Result<seq<Byte>, HttpError>>)
      returns (r: Result<Request, HttpError>, ghost arrivals: seq<seq<Byte>>, ghost final: HttpError,
               ghost stopping: bool, ghost failed: bool)
      requires read == Flatten(before) && (forall a :: a in before ==> 1 <= |a| <= 4096)
      requires received == log + Given(before)
      requires ReadHead(before, 0, first) == Ok(|before|)
      requires var at := Find(read, BLANK_LINE); at.Some? && end == at.value + 4 <= |read|
      requires ParseHead(read[..end]) == Ok(head)
      modifies `incoming, `received, `asked
      ensures r == ReadRequest(arrivals, final, true, stopping)
      ensures read + old(incoming) == Flatten(arrivals) + incoming
      ensures forall a :: a in arrivals ==> 1 <= |a| <= 4096
      ensures received == log + Given(arrivals) + if failed then [Err(final)] else []
      ensures asked == old(asked) + if r.Ok? || stopping then [stopping] else []
      ensures if r.Ok? then r.value.headers == head.headers else failed || (r == Err(Stopping) && stopping)
      ensures failed ==> r == Err(final)
    {
      hide *;
      final, stopping, failed := first, false, false;
      var failure, bytes;
      failure, bytes, arrivals := ReadBody(read, end + head.length, before, log);
      if failure.Some? {
        final := failure.value;
        BodyOutcome(before, arrivals, first, final, true, stopping, end);
        return Err(failure.value), arrivals, final, stopping, true;
      }
      var stop := Stops();
      stopping := stop;
      BodyOutcome(before, arrivals, first, final, true, stopping, end);
      if stop {
        return Err(Stopping), arrivals, final, stopping, failed;
      }
      r := Ok(Request(head.verb, head.path, head.headers, bytes[end..end + head.length]));
    }

    /** The last loop of `read_parts`. */
    method ReadBody(read: seq<Byte>, need: nat, ghost before: seq<seq<Byte>>,
                    ghost log: seq<Result<seq<Byte>, HttpError>>)
      returns (failure: Option<HttpError>, bytes: seq<Byte>, ghost arrivals: seq<seq<Byte>>)
      requires read == Flatten(before) && (forall a :: a in before ==> 1 <= |a| <= 4096)
      requires received == log + Given(before)
      modifies `incoming, `received
      ensures received == log + Given(arrivals) + if failure.Some? then [Err(failure.value)] else []
      ensures failure.Some? ==> ReadFailure(failure.value)
      ensures before <= arrivals && bytes == Flatten(arrivals) && read + old(incoming) == bytes + incoming
      ensures forall a :: a in arrivals ==> 1 <= |a| <= 4096
      ensures forall final :: (failure.Some? ==> final == failure.value) ==>
                ReadUpTo(arrivals, |before|, need, final) == if failure.Some? then Err(failure.value)
                    else Ok(|arrivals|)
    {
      hide *;
      bytes, arrivals := read, before;
      NothingShort(before, need);
      while |bytes| < need
        invariant before <= arrivals && bytes == Flatten(arrivals) && read + old(incoming) == bytes + incoming
        invariant forall a :: a in arrivals ==> 1 <= |a| <= 4096
        invariant ShortBefore(arrivals, |before|, |arrivals|, need) && received == log + Given(arrivals)
        decreases |incoming|
      {
        StillShort(arrivals, |before|, need);
        var more := Receive();
        if more.Err? {
          EndOfBodyReading(arrivals, |before|, need, more.error);
          return Some(more.error), bytes, arrivals;
        }
        FlattenPushed(arrivals, more.value);
        GivenOneMore(arrivals, more.value);
        OneMoreShort(arrivals, more.value, |before|, need);
        assert bytes + (more.value + incoming) == (bytes + more.value) + incoming;
        bytes, arrivals := bytes + more.value, arrivals + [more.value];
      }
      forall final
        ensures ReadUpTo(arrivals, |before|, need, final) == Ok(|arrivals|)
      {
        EndOfBodyReading(arrivals, |before|, need, final);
      }
      failure := None;
    }
  }

  const CONTINUE := Encode("HTTP/1.1 100 Continue\r\n\r\n")

  /** The header from its bytes, with the loop over the lines. */
  method ParseHeader(bytes: seq<Byte>) returns (r: Result<Head, HttpError>)
    ensures r == ParseHead(bytes)
  {
    hide ParseRequestLine, ParseHeaders, NonEmptyLines, CheckFraming;
    var text := Decode(bytes);
    if text.None? {
      return Err(NotText);
    }
    var lines := Split(text.value, "\r\n");
    var requestLine := ParseRequestLine(lines[0]);
    if requestLine.Err? {
      return Err(requestLine.error);
    }
    var headers := CollectHeaders(lines[1..]);
    if headers.Err? {
      return Err(headers.error);
    }
    r := CheckFraming(requestLine.value.0, requestLine.value.1, headers.value);
  }

  /** The answer of the server (`respond`). */
  function ResponseBytes(status: nat, body: string): seq<Byte> {
    Encode("HTTP/1.1" + " " + (Decimal.Print(status) + " " + "Response") + "\r\n"
           + "Content-Type: application/json" + "\r\n"
           + ("Content-Length: " + Decimal.Print(ByteLength(body))) + "\r\n"
           + "Connection: close" + "\r\n" + "\r\n" + body)
  }

  lemma {:induction false} HeadIsFound(arrivals: seq<seq<Byte>>, more: seq<seq<Byte>>, n: nat,
                                       final: HttpError, other: HttpError)
    requires n <= |arrivals| && arrivals <= more && ReadHead(arrivals, n, final).Ok?
    ensures ReadHead(more, n, other) == ReadHead(arrivals, n, final)
    decreases |arrivals| - n
  {
    assert more[..n] == arrivals[..n];
    if Find(Flatten(arrivals[..n]), BLANK_LINE).None? {
      HeadIsFound(arrivals, more, n + 1, final, other);
    }
  }

  ghost predicate Undecided(bytes: seq<Byte>) { Find(bytes, BLANK_LINE).None? && |bytes| <= MAX_HEADER_SIZE }

  ghost predicate UndecidedBefore(arrivals: seq<seq<Byte>>, n: nat)
    requires n <= |arrivals|
  {
    forall m :: 0 <= m < n ==> Undecided(Flatten(arrivals[..m]))
  }

  lemma NothingReadYet(arrivals: seq<seq<Byte>>)
    requires arrivals == []
    ensures Flatten(arrivals) == [] && UndecidedBefore(arrivals, 0)
  {
  }

  lemma StillUndecided(arrivals: seq<seq<Byte>>, bytes: seq<Byte>)
    requires bytes == Flatten(arrivals) && UndecidedBefore(arrivals, |arrivals|)
    requires Find(bytes, BLANK_LINE).None? && |bytes| <= MAX_HEADER_SIZE
    ensures Undecided(Flatten(arrivals))
  {
  }

  lemma OneMoreArrival(arrivals: seq<seq<Byte>>, more: seq<Byte>)
    requires UndecidedBefore(arrivals, |arrivals|) && Undecided(Flatten(arrivals))
    ensures UndecidedBefore(arrivals + [more], |arrivals| + 1)
  {
    hide Undecided;
    forall m | 0 <= m < |arrivals| + 1
      ensures Undecided(Flatten((arrivals + [more])[..m]))
    {
      assert (arrivals + [more])[..m] == arrivals[..m];
      assert m == |arrivals| ==> arrivals[..m] == arrivals;
    }
  }

  lemma {:induction false} SkipUndecided(arrivals: seq<seq<Byte>>, n: nat, final: HttpError)
    requires n <= |arrivals| && UndecidedBefore(arrivals, n)
    ensures ReadHead(arrivals, 0, final) == ReadHead(arrivals, n, final)
  {
    hide Flatten;
    if n > 0 {
      SkipUndecided(arrivals, n - 1, final);
      assert Undecided(Flatten(arrivals[..n - 1]));
    }
  }

  lemma EndOfHeaderReading(arrivals: seq<seq<Byte>>, final: HttpError)
    requires UndecidedBefore(arrivals, |arrivals|)
    ensures ReadHead(arrivals, 0, final) ==
            match Find(Flatten(arrivals), BLANK_LINE)
            case Some(i) => if i > MAX_HEADER_SIZE then Err(HeadersTooLarge) else Ok(|arrivals|)
            case None => if |Flatten(arrivals)| > MAX_HEADER_SIZE then Err(HeadersTooLarge) else Err(final)
  {
    hide Flatten, UndecidedBefore;
    SkipUndecided(arrivals, |arrivals|, final);
    assert arrivals[..|arrivals|] == arrivals;
  }

  lemma WhereItEnds(bytes: seq<Byte>)
    ensures Find(bytes, BLANK_LINE).Some? ==> Find(bytes, BLANK_LINE).value + 4 <= |bytes|
  {
  }

  ghost predicate ShortBefore(arrivals: seq<seq<Byte>>, from: nat, n: nat, need: nat)
    requires n <= |arrivals|
  {
    forall m :: from <= m < n ==> |Flatten(arrivals[..m])| < need
  }

  lemma NothingShort(arrivals: seq<seq<Byte>>, need: nat)
    ensures ShortBefore(arrivals, |arrivals|, |arrivals|, need)
  {
  }

  lemma StillShort(arrivals: seq<seq<Byte>>, from: nat, need: nat)
    requires ShortBefore(arrivals, from, |arrivals|, need) && |Flatten(arrivals)| < need
    ensures forall m :: from <= m <= |arrivals| ==> |Flatten(arrivals[..m])| < need
  {
    assert arrivals[..|arrivals|] == arrivals;
  }

  lemma OneMoreShort(arrivals: seq<seq<Byte>>, more: seq<Byte>, from: nat, need: nat)
    requires forall m :: from <= m <= |arrivals| ==> |Flatten(arrivals[..m])| < need
    ensures ShortBefore(arrivals + [more], from, |arrivals| + 1, need)
  {
    forall m | from <= m < |arrivals| + 1
      ensures |Flatten((arrivals + [more])[..m])| < need
    {
      assert (arrivals + [more])[..m] == arrivals[..m];
    }
  }

  lemma {:induction false} SkipShort(arrivals: seq<seq<Byte>>, from: nat, n: nat, need: nat, final: HttpError)
    requires from <= n <= |arrivals| && ShortBefore(arrivals, from, n, need)
    ensures ReadUpTo(arrivals, from, need, final) == ReadUpTo(arrivals, n, need, final)
    decreases n
  {
    hide Flatten;
    if from < n {
      SkipShort(arrivals, from, n - 1, need, final);
      assert |Flatten(arrivals[..n - 1])| < need;
    }
  }

  lemma EndOfBodyReading(arrivals: seq<seq<Byte>>, from: nat, need: nat, final: HttpError)
    requires from <= |arrivals| && ShortBefore(arrivals, from, |arrivals|, need)
    ensures ReadUpTo(arrivals, from, need, final) == if need <= |Flatten(arrivals)| then Ok(|arrivals|) else Err(final)
  {
    hide Flatten, ShortBefore;
    SkipShort(arrivals, from, |arrivals|, need, final);
    assert arrivals[..|arrivals|] == arrivals;
  }

  lemma ExpectsIfAsked(bytes: seq<Byte>)
    ensures ParseHead(bytes).Ok? ==> var head := ParseHead(bytes).value; head.expects <==>
              Lookup(head.headers, "Expect").Some?
  {
    hide Decode, Split, ParseRequestLine, ParseHeaders, NonEmptyLines, DeclaredLength, Named, SameName;
  }

  lemma HeadNotFound(arrivals: seq<seq<Byte>>, final: HttpError, writable: bool, stopping: bool)
    requires ReadHead(arrivals, 0, final).Err?
    ensures ReadRequest(arrivals, final, writable, stopping) == Err(ReadHead(arrivals, 0, final).error)
  {
    hide ReadHead, ParseHead, ReadRest;
  }

  lemma HeadRefused(arrivals: seq<seq<Byte>>, end: nat, final: HttpError, writable: bool, stopping: bool)
    requires ReadHead(arrivals, 0, final) == Ok(|arrivals|) && end <= |Flatten(arrivals)|
    requires Find(Flatten(arrivals), BLANK_LINE).Some? && end == Find(Flatten(arrivals), BLANK_LINE).value + 4
    ensures var head := ParseHead(Flatten(arrivals)[..end]);
            && (head.Err? ==> ReadRequest(arrivals, final, writable, stopping) == Err(head.error))
            && (head.Ok? && head.value.expects && !writable ==>
                  ReadRequest(arrivals, final, writable, stopping) == Err(Broken))
  {
    hide ReadHead, ParseHead, ReadUpTo, Flatten, Find;
    assert arrivals[..|arrivals|] == arrivals;
  }

  lemma BodyOutcome(before: seq<seq<Byte>>, arrivals: seq<seq<Byte>>, first: HttpError, final: HttpError,
                    writable: bool, stopping: bool, end: nat)
    requires before <= arrivals && ReadHead(before, 0, first) == Ok(|before|)
    requires var at := Find(Flatten(before), BLANK_LINE); at.Some? && end == at.value + 4 <= |Flatten(before)|
    requires var head := ParseHead(Flatten(before)[..end]); head.Ok? && (head.value.expects ==> writable)
    ensures var head := ParseHead(Flatten(before)[..end]).value;
            var r := ReadRequest(arrivals, final, writable, stopping);
            var read := ReadUpTo(arrivals, |before|, end + head.length, final);
            && (read.Err? ==> r == Err(read.error))
            && (read == Ok(|arrivals|) ==>
                  && end + head.length <= |Flatten(arrivals)|
                  && r == if stopping then Err(Stopping)
                          else Ok(Request(head.verb, head.path, head.headers,
                              Flatten(arrivals)[end..end + head.length])))
  {
    hide ReadHead, ParseHead, ReadUpTo, ReadRest, Flatten;
    HeadIsFound(before, arrivals, 0, first, final);
    assert arrivals[..|before|] == before;
    var head := ParseHead(Flatten(before)[..end]).value;
    RestOutcome(arrivals, |before|, end, head, final, writable, stopping);
  }

  lemma RestOutcome(arrivals: seq<seq<Byte>>, n: nat, end: nat, head: Head, final: HttpError, writable: bool,
                    stopping: bool)
    requires n <= |arrivals| && (head.expects ==> writable)
    ensures var r := ReadRest(arrivals, n, end, head, final, writable, stopping);
            var read := ReadUpTo(arrivals, n, end + head.length, final);
            && (read.Err? ==> r == Err(read.error))
            && (read == Ok(|arrivals|) ==>
                  && end + head.length <= |Flatten(arrivals)|
                  && r == if stopping then Err(Stopping)
                          else Ok(Request(head.verb, head.path, head.headers,
                              Flatten(arrivals)[end..end + head.length])))
  {
    hide ReadUpTo, Flatten;
    assert arrivals[..|arrivals|] == arrivals;
  }
}
