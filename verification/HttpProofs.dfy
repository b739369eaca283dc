/** The companion reads what the plugin prints, however the bytes are cut up on their
    way, and the plugin splits what the companion answers. */
module HttpProofs {
  import opened Wrappers
  import opened Strings
  import opened Utf8
  import opened Http
  import opened Rpc
  import Decimal
  import Detect

  // ---------------------------------------------------------------------------
  // Cutting up the header
  // ---------------------------------------------------------------------------

  /** A prefix shows the blank line as soon as all of it is there. */
  lemma FindInPrefix(all: seq<Byte>, bytes: seq<Byte>, t: nat)
    requires bytes <= all && Find(all, BLANK_LINE) == Some(t)
    ensures Find(bytes, BLANK_LINE) == if |bytes| >= t + 4 then Some(t) else None
  {
    hide FindFrom, Find;
    forall j: nat | j + 4 <= |bytes|
      ensures OccursAt(bytes, BLANK_LINE, j) <==> OccursAt(all, BLANK_LINE, j)
    {
      assert bytes[j..j + 4] == all[j..j + 4];
    }
    FindMeans(all);
    FindMeans(bytes);
    if |bytes| >= t + 4 {
      assert OccursAt(bytes, BLANK_LINE, t);
      FindIs(bytes, BLANK_LINE, t);
    }
  }

  lemma FindMeans(bytes: seq<Byte>)
    ensures var r := Find(bytes, BLANK_LINE);
            && (r.Some? ==> OccursAt(bytes, BLANK_LINE, r.value) && forall j :: 0 <= j < r.value ==>
                 !OccursAt(bytes, BLANK_LINE, j))
            && (r.None? ==> forall j: nat :: !OccursAt(bytes, BLANK_LINE, j))
  {
  }

  lemma {:induction false} ArrivedIsPrefix<T>(arrivals: seq<seq<T>>, n: nat, m: nat)
    requires n <= m <= |arrivals|
    ensures Flatten(arrivals[..n]) <= Flatten(arrivals[..m])
    decreases m
  {
    if n < m {
      ArrivedIsPrefix(arrivals, n, m - 1);
      assert arrivals[..m] == arrivals[..m - 1] + [arrivals[m - 1]];
      FlattenPushed(arrivals[..m - 1], arrivals[m - 1]);
    }
  }

  /** Some arrival ends beyond the limit but before the end of the blank line at `t`. */
  ghost predicate CutInGap(arrivals: seq<seq<Byte>>, t: nat) {
    exists n :: 0 <= n <= |arrivals| && EndsInGap(arrivals, n, t)
  }

  ghost predicate EndsInGap(arrivals: seq<seq<Byte>>, n: nat, t: nat)
    requires n <= |arrivals|
  {
    MAX_HEADER_SIZE < |Flatten(arrivals[..n])| < t + 4
  }

  lemma {:induction false} HeadFrom(arrivals: seq<seq<Byte>>, n: nat, t: nat, final: HttpError)
    requires n <= |arrivals| && Find(Flatten(arrivals), BLANK_LINE) == Some(t) && t <= MAX_HEADER_SIZE
    requires forall m :: 0 <= m < n ==> !EndsInGap(arrivals, m, t)
    ensures var r := ReadHead(arrivals, n, final);
            if CutInGap(arrivals, t) then r == Err(HeadersTooLarge)
            else r.Ok? && Find(Flatten(arrivals[..r.value]), BLANK_LINE) == Some(t)
    decreases |arrivals| - n
  {
    hide Flatten, Find;
    assert arrivals[..|arrivals|] == arrivals;
    var bytes := Flatten(arrivals[..n]);
    ArrivedIsPrefix(arrivals, n, |arrivals|);
    FindInPrefix(Flatten(arrivals), bytes, t);
    FindMeans(Flatten(arrivals));
    if |bytes| >= t + 4 {
      forall m | n <= m <= |arrivals|
        ensures !EndsInGap(arrivals, m, t)
      {
        ArrivedIsPrefix(arrivals, n, m);
      }
    } else if |bytes| > MAX_HEADER_SIZE {
      assert EndsInGap(arrivals, n, t);
    } else {
      assert !EndsInGap(arrivals, n, t);
      HeadFrom(arrivals, n + 1, t, final);
    }
  }

  /** With the blank line at `t`: up to three bytes below the limit it is always found;
      in the last three positions it is found exactly when no read ends between the
      limit and the end of the blank line. */
  lemma HeadIsFoundUnlessCut(arrivals: seq<seq<Byte>>, t: nat, final: HttpError)
    requires Find(Flatten(arrivals), BLANK_LINE) == Some(t) && t <= MAX_HEADER_SIZE
    ensures var r := ReadHead(arrivals, 0, final);
            && (CutInGap(arrivals, t) ==> r == Err(HeadersTooLarge))
            && (!CutInGap(arrivals, t) ==> r.Ok? && Find(Flatten(arrivals[..r.value]), BLANK_LINE) == Some(t))
    ensures t <= MAX_HEADER_SIZE - 3 ==> !CutInGap(arrivals, t)
  {
    hide Flatten, Find;
    HeadFrom(arrivals, 0, t, final);
  }

  /** Beyond the limit, or without a blank line, the header is always refused. */
  lemma {:induction false} LongHeadIsRefused(arrivals: seq<seq<Byte>>, n: nat, final: HttpError)
    requires n <= |arrivals|
    requires var found := Find(Flatten(arrivals), BLANK_LINE); found.None? || found.value > MAX_HEADER_SIZE
    ensures ReadHead(arrivals, n, final).Err?
    decreases |arrivals| - n
  {
    hide Flatten, Find;
    assert arrivals[..|arrivals|] == arrivals;
    ArrivedIsPrefix(arrivals, n, |arrivals|);
    var found := Find(Flatten(arrivals), BLANK_LINE);
    if found.Some? {
      FindInPrefix(Flatten(arrivals), Flatten(arrivals[..n]), found.value);
    } else {
      NothingInPrefix(Flatten(arrivals), Flatten(arrivals[..n]));
    }
    if n < |arrivals| {
      LongHeadIsRefused(arrivals, n + 1, final);
    }
  }

  lemma NothingInPrefix(all: seq<Byte>, bytes: seq<Byte>)
    requires bytes <= all && Find(all, BLANK_LINE).None?
    ensures Find(bytes, BLANK_LINE).None?
  {
    hide Find;
    FindMeans(all);
    FindMeans(bytes);
    forall j: nat
      ensures !OccursAt(bytes, BLANK_LINE, j)
    {
      assert !OccursAt(all, BLANK_LINE, j);
      if j + 4 <= |bytes| {
        assert all[j..j + 4] == bytes[j..j + 4];
      }
    }
  }

  /** Both outcomes are possible for one and the same request: a header whose blank
      line begins at the limit, read in blocks of 4096 or with one byte more. */
  lemma SameBytesTwoOutcomes(all: seq<Byte>, final: HttpError)
    returns (whole: seq<seq<Byte>>, shifted: seq<seq<Byte>>)
    requires Find(all, BLANK_LINE) == Some(MAX_HEADER_SIZE) && |all| == MAX_HEADER_SIZE + 4
    ensures Flatten(whole) == all && Flatten(shifted) == all
    ensures (forall a :: a in whole ==> 1 <= |a| <= 4096) && (forall a :: a in shifted ==> 1 <= |a| <= 4096)
    ensures ReadHead(whole, 0, final).Ok? && ReadHead(shifted, 0, final) == Err(HeadersTooLarge)
  {
    hide Find, ReadHead, CutInGap, EndsInGap;
    var blocks := [all[..4096], all[4096..8192], all[8192..12288], all[12288..16384]];
    whole, shifted := blocks + [all[16384..]], blocks + [all[16384..16385], all[16385..]];
    FlattenBlocks(all);
    HeadIsFoundUnlessCut(whole, MAX_HEADER_SIZE, final);
    HeadIsFoundUnlessCut(shifted, MAX_HEADER_SIZE, final);
    NoCut(all);
    OneCut(all);
  }

  lemma FlattenBlocks(all: seq<Byte>)
    requires |all| == MAX_HEADER_SIZE + 4
    ensures var blocks := [all[..4096], all[4096..8192], all[8192..12288], all[12288..16384]];
            && Flatten(blocks) == all[..16384]
            && Flatten(blocks + [all[16384..]]) == all
            && Flatten(blocks + [all[16384..16385], all[16385..]]) == all
            && Flatten(blocks + [all[16384..16385]]) == all[..16385]
  {
    var a, b, c, d := all[..4096], all[4096..8192], all[8192..12288], all[12288..16384];
    hide Flatten;
    FlattenPushed([], a);
    FlattenPushed([a], b);
    FlattenPushed([a, b], c);
    FlattenPushed([a, b, c], d);
    FlattenFirst<Byte>([]);
    assert [] + [a] == [a] && [a] + [b] == [a, b] && [a, b] + [c] == [a, b, c] && [a, b, c] + [d] == [a, b, c, d];
    assert a + b == all[..8192] && all[..8192] + c == all[..12288] && all[..12288] + d == all[..16384];
    FlattenPushed([a, b, c, d], all[16384..]);
    assert all[..16384] + all[16384..] == all;
    FlattenPushed([a, b, c, d], all[16384..16385]);
    assert all[..16384] + all[16384..16385] == all[..16385];
    FlattenPushed([a, b, c, d] + [all[16384..16385]], all[16385..]);
    assert [a, b, c, d] + [all[16384..16385]] + [all[16385..]] == [a, b, c, d] + [all[16384..16385], all[16385..]];
    assert all[..16385] + all[16385..] == all;
  }

  lemma NoCut(all: seq<Byte>)
    requires |all| == MAX_HEADER_SIZE + 4
    ensures var blocks := [all[..4096], all[4096..8192], all[8192..12288], all[12288..16384]];
            !CutInGap(blocks + [all[16384..]], MAX_HEADER_SIZE)
  {
    hide Flatten;
    var blocks := [all[..4096], all[4096..8192], all[8192..12288], all[12288..16384]];
    var whole := blocks + [all[16384..]];
    FlattenBlocks(all);
    forall n | 0 <= n <= |whole|
      ensures !EndsInGap(whole, n, MAX_HEADER_SIZE)
    {
      if n == |whole| {
        assert whole[..n] == whole;
      } else {
        ArrivedIsPrefix(whole, n, 4);
        assert whole[..4] == blocks;
      }
    }
  }

  lemma OneCut(all: seq<Byte>)
    requires |all| == MAX_HEADER_SIZE + 4
    ensures var blocks := [all[..4096], all[4096..8192], all[8192..12288], all[12288..16384]];
            CutInGap(blocks + [all[16384..16385], all[16385..]], MAX_HEADER_SIZE)
  {
    hide Flatten;
    var blocks := [all[..4096], all[4096..8192], all[8192..12288], all[12288..16384]];
    var shifted := blocks + [all[16384..16385], all[16385..]];
    FlattenBlocks(all);
    assert shifted[..5] == blocks + [all[16384..16385]];
    assert EndsInGap(shifted, 5, MAX_HEADER_SIZE);
  }

  // ---------------------------------------------------------------------------
  // Lines and bytes
  // ---------------------------------------------------------------------------

  /** A character that the text does not contain does not appear among its bytes. */
  lemma {:induction false} BytesAvoid(text: string, c: char)
    requires c as int < 0x80 && c !in text
    ensures c as int !in Encode(text)
  {
    if text != [] {
      assert text == [text[0]] + text[1..];
      BytesAvoid(text[1..], c);
      OtherCharacter(text[0], c);
    }
  }

  lemma OtherCharacter(d: char, c: char)
    requires c as int < 0x80 && d != c
    ensures c as int !in EncodeChar(d)
  {
    var b := EncodeChar(d);
    if d as int >= 0x80 {
      assert forall i :: 0 <= i < |b| ==> b[i] >= 0x80;
    }
  }

  lemma BytesOfLineEnd()
    ensures Encode("\r\n") == [13, 10]
  {
    assert "\r\n"[1..] == "\n" && "\n"[1..] == "";
    assert Encode("\n") == EncodeChar('\n') + Encode("");
  }

  ghost predicate GoodLines(lines: seq<string>) {
    forall i :: 0 <= i < |lines| ==> lines[i] != [] && '\r' !in lines[i]
  }

  lemma BytesOfLines(lines: seq<string>)
    requires lines != []
    ensures Encode(LinesText(lines)) == Encode(lines[0]) + [13, 10] + Encode(LinesText(lines[1..]))
  {
    EncodeAppend(lines[0] + "\r\n", LinesText(lines[1..]));
    EncodeAppend(lines[0], "\r\n");
    BytesOfLineEnd();
  }

  /** A line in front of the rest: the blank line is searched in the rest. */
  lemma SearchBehindLine(line: seq<Byte>, rest: seq<Byte>, k: nat)
    requires 13 !in line && Find(rest, BLANK_LINE) == Some(k) && rest[0] != 13
    ensures Find(line + [13, 10] + rest, BLANK_LINE) == Some(|line| + 2 + k)
  {
    hide Find;
    var all, n := line + [13, 10] + rest, |line|;
    FindMeans(rest);
    assert forall j :: 0 <= j < n ==> all[j] == line[j] && line[j] in line;
    assert all[n] == 13 && all[n + 1] == 10 && all[n + 2] == rest[0];
    assert all[n + 2..] == rest;
    forall j | 0 <= j < n + 2 + k
      ensures !OccursAt(all, BLANK_LINE, j)
    {
      if j + 4 <= |all| {
        assert all[j..j + 4][0] == all[j] && all[j..j + 4][2] == all[j + 2];
        if j >= n + 2 {
          assert !OccursAt(rest, BLANK_LINE, j - n - 2);
          assert all[j..j + 4] == rest[j - n - 2..j - n + 2];
        }
      }
    }
    assert all[n + 2 + k..n + 2 + k + 4] == rest[k..k + 4];
    FindIs(all, BLANK_LINE, n + 2 + k);
  }

  lemma BlankLineNow(line: seq<Byte>, body: seq<Byte>)
    requires 13 !in line
    ensures Find(line + [13, 10] + ([13, 10] + body), BLANK_LINE) == Some(|line|)
  {
    var all, n := line + [13, 10] + ([13, 10] + body), |line|;
    assert forall j :: 0 <= j < n ==> all[j] == line[j] && line[j] in line;
    forall j | 0 <= j < n
      ensures !OccursAt(all, BLANK_LINE, j)
    {
      if j + 4 <= |all| { assert all[j..j + 4][0] == all[j]; }
    }
    assert all[n] == 13 && all[n + 1] == 10 && all[n + 2] == 13 && all[n + 3] == 10;
    assert all[n..n + 4] == BLANK_LINE;
    FindIs(all, BLANK_LINE, n);
  }

  /** The blank line of a message is the one its printer put there. */
  lemma {:induction false} BlankLineIsFound(lines: seq<string>, body: seq<Byte>)
    requires lines != [] && GoodLines(lines)
    ensures var head := Encode(LinesText(lines));
            |head| >= 2 && Find(head + [13, 10] + body, BLANK_LINE) == Some(|head| - 2)
  {
    hide Find, Encode, EncodeChar, LinesText;
    var first, rest := Encode(lines[0]), Encode(LinesText(lines[1..]));
    BytesOfLines(lines);
    BytesAvoid(lines[0], '\r');
    if |lines| == 1 {
      NoLines(lines[1..]);
      assert first + [13, 10] + rest + [13, 10] + body == first + [13, 10] + ([13, 10] + body);
      BlankLineNow(first, body);
    } else {
      BlankLineIsFound(lines[1..], body);
      FirstByte(lines[1..]);
      var tail := rest + [13, 10] + body;
      assert tail[0] == rest[0];
      SearchBehindLine(first, tail, |rest| - 2);
      assert first + [13, 10] + rest + [13, 10] + body == first + [13, 10] + tail;
    }
  }

  lemma NoLines(lines: seq<string>)
    requires lines == []
    ensures Encode(LinesText(lines)) == []
  {
  }

  lemma FirstByte(lines: seq<string>)
    requires lines != [] && GoodLines(lines)
    ensures Encode(LinesText(lines)) != [] && Encode(LinesText(lines))[0] != 13
  {
    hide LinesText;
    BytesOfLines(lines);
    BytesAvoid(lines[0], '\r');
    var line := lines[0];
    assert Encode(line) == EncodeChar(line[0]) + Encode(line[1..]);
    assert Encode(line)[0] in Encode(line);
  }

  // ---------------------------------------------------------------------------
  // Splitting what was joined
  // ---------------------------------------------------------------------------

  lemma PieceEnds(piece: string, separator: string, rest: string)
    requires separator != [] && separator[0] !in piece
    ensures Find(piece + separator + rest, separator) == Some(|piece|)
    ensures Split(piece + separator + rest, separator) == [piece] + Split(rest, separator)
  {
    var all, n := piece + separator + rest, |piece|;
    assert forall j :: 0 <= j < n ==> all[j] == piece[j] && piece[j] in piece;
    forall j | 0 <= j < n
      ensures !OccursAt(all, separator, j)
    {
      if j + |separator| <= |all| { assert all[j..j + |separator|][0] == all[j]; }
    }
    assert all[n..n + |separator|] == separator;
    FindIs(all, separator, n);
    assert all[..n] == piece && all[n + |separator|..] == rest;
  }

  lemma LastPiece(piece: string, separator: string)
    requires separator != [] && separator[0] !in piece
    ensures Split(piece, separator) == [piece]
  {
    forall j: nat
      ensures !OccursAt(piece, separator, j)
    {
      if j + |separator| <= |piece| { assert piece[j..j + |separator|][0] == piece[j]; assert piece[j] in piece; }
    }
  }

  lemma {:induction false} SplitLines(lines: seq<string>)
    requires GoodLines(lines)
    ensures Split(LinesText(lines) + "\r\n", "\r\n") == lines + ["", ""]
  {
    hide Split;
    if lines == [] {
      PieceEnds("", "\r\n", "");
      LastPiece("", "\r\n");
      assert "" + "\r\n" + "" == "\r\n" == LinesText(lines) + "\r\n";
    } else {
      SplitLines(lines[1..]);
      var rest := LinesText(lines[1..]) + "\r\n";
      PieceEnds(lines[0], "\r\n", rest);
      assert LinesText(lines) + "\r\n" == lines[0] + "\r\n" + rest;
      assert lines == [lines[0]] + lines[1..];
    }
  }

  lemma {:induction false} LinesUntilBlank(lines: seq<string>)
    requires GoodLines(lines)
    ensures NonEmptyLines(lines + ["", ""]) == lines
  {
    var all := lines + ["", ""];
    if lines != [] {
      assert all[1..] == lines[1..] + ["", ""];
      LinesUntilBlank(lines[1..]);
      assert lines == [lines[0]] + lines[1..];
    }
  }

  // ---------------------------------------------------------------------------
  // The request survives
  // ---------------------------------------------------------------------------

  ghost predicate NoControls(s: string) { forall i :: 0 <= i < |s| ==> !Detect.IsControl(s[i]) }

  /** A header value as it is received: no control characters, no outer whitespace. */
  ghost predicate CleanValue(s: string) {
    NoControls(s) && s != [] && !IsWhitespace(s[0]) && !IsWhitespace(s[|s| - 1])
  }

  ghost predicate Token(s: string) { s != [] && forall i :: 0 <= i < |s| ==> IsTokenChar(s[i]) }

  /** What the plugin may ask for. */
  ghost predicate Printable(verb: string, path: string, authority: string, token: string) {
    && NoControls(verb) && ' ' !in verb
    && path != [] && path[0] == '/' && NoControls(path) && ' ' !in path
    && CleanValue(authority) && CleanValue(token)
  }

  lemma TrimAfterSpace(value: string)
    requires value != [] && !IsWhitespace(value[0]) && !IsWhitespace(value[|value| - 1])
    ensures Trim(" " + value) == value
  {
    hide TrimMatches;
    SpaceIsWhitespace();
    TrimOneInFront(' ', value, IsWhitespace);
  }

  lemma SpaceIsWhitespace()
    ensures IsWhitespace(' ')
  {
  }

  /** One printed header line is parsed to the name and the value. */
  lemma HeaderLineParses(headers: seq<Header>, key: string, value: string)
    requires Token(key) && CleanValue(value) && !(Guarded(key) && Http.Named(headers, key))
    ensures AddHeader(headers, key + ": " + value) == Ok(headers + [(key, value)])
  {
    hide Trim, Guarded, Http.Named, IsWhitespace;
    var line := key + ": " + value;
    assert line == key + ":" + (" " + value);
    ColonIsNoToken();
    PieceEnds(key, ":", " " + value);
    assert line[..|key|] == key && line[|key| + 1..] == " " + value;
    TrimAfterSpace(value);
    forall i | 0 <= i < |" " + value|
      ensures !Detect.IsControl((" " + value)[i])
    {
      if i > 0 { assert (" " + value)[i] == value[i - 1]; }
    }
  }

  lemma ColonIsNoToken()
    ensures !IsTokenChar(':')
  {
  }

  /** The five headers as they are received. */
  function PlainHeaders(authority: string, token: string, length: nat): seq<Header> {
    [("Host", authority), ("Authorization", "Bearer " + token), ("Content-Type", "application/json"),
     ("Content-Length", Decimal.Print(length)), ("Connection", "close")]
  }

  lemma NamesAreTokens()
    ensures Token("Host") && Token("Authorization") && Token("Content-Type") && Token("Content-Length") &&
            Token("Connection")
  {
  }

  lemma NamesDiffer(a: string, b: string)
    requires |a| != |b|
    ensures !SameName(a, b)
  {
  }

  lemma SameNameIsReflexive(a: string)
    ensures SameName(a, a)
  {
  }

  lemma ConstantsAreClean()
    ensures CleanValue("application/json") && CleanValue("close") && CleanValue("HTTP/1.1")
  {
  }

  lemma DigitsAreClean(n: nat)
    ensures CleanValue(Decimal.Print(n))
  {
    hide Decimal.Print;
    var s := Decimal.Print(n);
    assert forall i :: 0 <= i < |s| ==> Decimal.IsDigit(s[i]);
  }

  lemma BearerIsClean(token: string)
    requires CleanValue(token)
    ensures CleanValue("Bearer " + token)
  {
    var s := "Bearer " + token;
    assert s[|s| - 1] == token[|token| - 1];
    forall i | 0 <= i < |s|
      ensures !Detect.IsControl(s[i])
    {
      if i >= 7 { assert s[i] == token[i - 7]; }
    }
  }

  /** No header of this length occurs yet. */
  lemma NotNamed(headers: seq<Header>, name: string)
    requires forall i :: 0 <= i < |headers| ==> |headers[i].0| != |name|
    ensures !Http.Named(headers, name) && Http.Lookup(headers, name) == None
    decreases |headers|
  {
    if headers != [] {
      NotNamed(headers[1..], name);
    }
  }

  lemma HeaderOneMore(lines: seq<string>, headers: seq<Header>, key: string, value: string)
    requires ParseHeaders(lines) == Ok(headers) && Token(key) && CleanValue(value)
    requires (forall i :: 0 <= i < |headers| ==> |headers[i].0| != |key|)
    ensures ParseHeaders(lines + [key + ": " + value]) == Ok(headers + [(key, value)])
  {
    hide AddHeader, Http.Named, Guarded, Token, CleanValue;
    NotNamed(headers, key);
    HeaderLineParses(headers, key, value);
    assert (lines + [key + ": " + value])[..|lines|] == lines;
  }

  lemma HeadersParse(authority: string, token: string, length: nat)
    requires CleanValue(authority) && CleanValue(token)
    ensures ParseHeaders(HeaderLines("", "", authority, token, length)[1..])
              == Ok(PlainHeaders(authority, token, length))
  {
    hide CleanValue, Token, Decimal.Print, AddHeader;
    NamesAreTokens();
    ConstantsAreClean();
    DigitsAreClean(length);
    BearerIsClean(token);
    var lines := HeaderLines("", "", authority, token, length);
    var headers := PlainHeaders(authority, token, length);
    assert ParseHeaders([]) == Ok([]);
    HeaderOneMore([], [], "Host", authority);
    assert lines[1..2] == [] + ["Host" + ": " + authority] && headers[..1] == [] + [("Host", authority)];
    HeaderOneMore(lines[1..2], headers[..1], "Authorization", "Bearer " + token);
    assert lines[1..3] == lines[1..2] + ["Authorization" + ": " + ("Bearer " + token)] &&
           headers[..2] == headers[..1] + [("Authorization", "Bearer " + token)];
    HeaderOneMore(lines[1..3], headers[..2], "Content-Type", "application/json");
    assert lines[1..4] == lines[1..3] + ["Content-Type" + ": " + "application/json"] &&
           headers[..3] == headers[..2] + [("Content-Type", "application/json")];
    HeaderOneMore(lines[1..4], headers[..3], "Content-Length", Decimal.Print(length));
    assert lines[1..5] == lines[1..4] + ["Content-Length" + ": " + Decimal.Print(length)] &&
           headers[..4] == headers[..3] + [("Content-Length", Decimal.Print(length))];
    HeaderOneMore(lines[1..5], headers[..4], "Connection", "close");
    assert lines[1..6] == lines[1..5] + ["Connection" + ": " + "close"] &&
           headers == headers[..4] + [("Connection", "close")];
    assert lines[1..6] == lines[1..];
  }

  /** How a method is printed. */
  function VerbText(m: Method): string
    requires !m.Other?
  {
    match m
    case Get => "GET"
    case Post => "POST"
    case Delete => "DELETE"
  }

  /** A word names the method of which it is the text; any other word names none of them. */
  ghost predicate Spells(verb: string, m: Method) {
    if m.Other? then forall k: Method :: !k.Other? ==> verb != VerbText(k) else verb == VerbText(m)
  }

  lemma VerbIsSpelled(verb: string, m: Method)
    ensures VerbOf(verb) == m <==> Spells(verb, m)
  {
    assert VerbText(Get) == "GET" && VerbText(Post) == "POST" && VerbText(Delete) == "DELETE";
  }

  lemma RequestLineParses(verb: string, m: Method, path: string)
    requires Spells(verb, m)
    requires NoControls(verb) && ' ' !in verb && path != [] && path[0] == '/' && NoControls(path) && ' ' !in path
    ensures ParseRequestLine(verb + " " + path + " " + "HTTP/1.1") == Ok((m, path))
  {
    hide Split, VerbOf, Spells, Detect.IsControl;
    VerbIsSpelled(verb, m);
    assert verb + " " + path + " " + "HTTP/1.1" == verb + " " + (path + " " + "HTTP/1.1");
    PieceEnds(verb, " ", path + " " + "HTTP/1.1");
    PieceEnds(path, " ", "HTTP/1.1");
    LastPiece("HTTP/1.1", " ");
  }

  /** The grammar of a request line: method, path and version, one space apart. */
  ghost predicate IsRequestLine(line: string, word: string, m: Method, path: string, version: string) {
    && line == word + " " + path + " " + version
    && ' ' !in word && ' ' !in path && Spells(word, m)
    && path != [] && path[0] == '/' && NoControls(path)
    && (version == "HTTP/1.0" || version == "HTTP/1.1")
  }

  /** Exactly the lines of that grammar are accepted, with that meaning. */
  lemma RequestLineExactly(line: string, m: Method, path: string)
    ensures ParseRequestLine(line) == Ok((m, path)) <==>
            exists word, version :: IsRequestLine(line, word, m, path, version)
  {
    hide Split, VerbOf, Spells, Detect.IsControl;
    if ParseRequestLine(line) == Ok((m, path)) {
      var parts := Split(line, " ");
      ThreeWords(line);
      VerbIsSpelled(parts[0], m);
      assert IsRequestLine(line, parts[0], m, path, parts[2]);
    }
    if word, version :| IsRequestLine(line, word, m, path, version) {
      VerbIsSpelled(word, m);
      assert line == word + " " + (path + " " + version);
      PieceEnds(word, " ", path + " " + version);
      PieceEnds(path, " ", version);
      LastPiece(version, " ");
    }
  }

  lemma ThreeWords(line: string)
    requires |Split(line, " ")| == 3
    ensures var parts := Split(line, " ");
            line == parts[0] + " " + parts[1] + " " + parts[2] && ' ' !in parts[0] && ' ' !in parts[1]
  {
    hide *;
    var rest := OneWordLess(line);
    var last := OneWordLess(rest);
    SplitUnfolds(last);
    var parts := Split(line, " ");
    assert line == parts[0] + " " + (parts[1] + " " + parts[2]);
  }

  lemma OneWordLess(line: string) returns (rest: string)
    requires |Split(line, " ")| > 1
    ensures var parts := Split(line, " ");
            parts == [parts[0]] + Split(rest, " ") && line == parts[0] + " " + rest && ' ' !in parts[0]
  {
    hide *;
    SplitUnfolds(line);
    var i := Find(line, " ").value;
    NoSpaceBefore(line, i);
    rest := line[i + 1..];
    assert line == line[..i] + " " + rest;
  }

  lemma SplitUnfolds(line: string)
    ensures match Find(line, " ")
            case None => Split(line, " ") == [line]
            case Some(i) =>
              && i + 1 <= |line| && line[i] == ' '
              && Split(line, " ") == [line[..i]] + Split(line[i + 1..], " ") && |Split(line[i + 1..], " ")| > 0
  {
    if Find(line, " ").Some? {
      SpaceAt(line, Find(line, " ").value);
    }
  }

  lemma NoSpaceBefore(line: string, i: nat)
    requires Find(line, " ") == Some(i) && i <= |line|
    ensures ' ' !in line[..i]
  {
    forall j | 0 <= j < i
      ensures line[j] != ' '
    {
      SpaceAt(line, j);
    }
  }

  lemma SpaceAt(line: string, j: nat)
    requires j < |line|
    ensures OccursAt(line, " ", j) <==> line[j] == ' '
  {
    assert line[j..j + 1] == [line[j]];
  }

  /** The grammar of a header line: a name made of token characters, a colon, and a value
      without control characters other than tabs. */
  ghost predicate IsHeaderLine(line: string, key: string, value: string) {
    && line == key + ":" + value && Token(key)
    && forall i :: 0 <= i < |value| ==> value[i] == '\t' || !Detect.IsControl(value[i])
  }

  /** The four headers that may be given only once. */
  ghost predicate GivenOnce(key: string) {
    exists name :: name in ["Content-Length", "Transfer-Encoding", "Authorization", "Expect"] && SameName(key, name)
  }

  lemma GuardedIsGivenOnce(key: string)
    ensures Guarded(key) <==> GivenOnce(key)
  {
    hide SameName;
    var names := ["Content-Length", "Transfer-Encoding", "Authorization", "Expect"];
    assert names[0] in names && names[1] in names && names[2] in names && names[3] in names;
  }

  /** A header line is accepted exactly if it is of that grammar and does not repeat one of
      the four guarded headers; its value is kept without the whitespace around it. */
  lemma HeaderLineExactly(headers: seq<Header>, line: string, more: seq<Header>)
    ensures AddHeader(headers, line) == Ok(more) <==>
            exists key, value :: IsHeaderLine(line, key, value) && !(GivenOnce(key) && Http.Named(headers, key))
                                 && more == headers + [(key, Trim(value))]
  {
    hide Trim, Guarded, GivenOnce, Http.Named, Detect.IsControl, IsTokenChar;
    forall key
      ensures Guarded(key) <==> GivenOnce(key)
    {
      GuardedIsGivenOnce(key);
    }
    if AddHeader(headers, line) == Ok(more) {
      var (key, value) := SplitOnce(line, ":").value;
      assert IsHeaderLine(line, key, value);
    }
    if key, value :| IsHeaderLine(line, key, value) && !(GivenOnce(key) && Http.Named(headers, key))
                     && more == headers + [(key, Trim(value))] {
      ColonIsNoToken();
      PieceEnds(key, ":", value);
      assert line[..|key|] == key && line[|key| + 1..] == value;
    }
  }

  lemma LookupBehind(headers: seq<Header>, name: string)
    requires headers != [] && |headers[0].0| != |name|
    ensures Http.Lookup(headers, name) == Http.Lookup(headers[1..], name)
  {
    NamesDiffer(headers[0].0, name);
  }

  lemma LookupHere(headers: seq<Header>, name: string)
    requires headers != [] && headers[0].0 == name
    ensures Http.Lookup(headers, name) == Some(headers[0].1)
  {
    SameNameIsReflexive(name);
  }

  lemma PlainHeadersSay(authority: string, token: string, length: nat)
    ensures var headers := PlainHeaders(authority, token, length);
            && Http.Lookup(headers, "Content-Length") == Some(Decimal.Print(length))
            && Http.Lookup(headers, "Authorization") == Some("Bearer " + token)
            && Http.Lookup(headers, "Expect") == None && !Http.Named(headers, "Transfer-Encoding")
  {
    hide SameName, Http.Lookup, Http.Named, Decimal.Print;
    var headers := PlainHeaders(authority, token, length);
    LookupBehind(headers, "Content-Length");
    LookupBehind(headers[1..], "Content-Length");
    LookupBehind(headers[2..], "Content-Length");
    assert headers[1..][1..] == headers[2..] && headers[2..][1..] == headers[3..];
    LookupHere(headers[3..], "Content-Length");
    LookupBehind(headers, "Authorization");
    LookupHere(headers[1..], "Authorization");
    NotNamed(headers, "Expect");
    NotNamed(headers, "Transfer-Encoding");
  }

  lemma PlainFraming(verb: Method, path: string, authority: string, token: string, length: nat)
    requires length <= MAX_BODY_SIZE
    ensures CheckFraming(verb, path, PlainHeaders(authority, token, length)) ==
            Ok(Head(verb, path, PlainHeaders(authority, token, length), length, false))
  {
    hide PlainHeaders, Http.Lookup, Http.Named, Decimal.Print, Decimal.ParseUnsigned;
    PlainHeadersSay(authority, token, length);
    Decimal.ParsePrinted(length, USIZE_MAX);
  }

  lemma LinesAreGood(verb: string, path: string, authority: string, token: string, length: nat)
    requires Printable(verb, path, authority, token)
    ensures GoodLines(HeaderLines(verb, path, authority, token, length))
  {
    hide Detect.IsControl, IsWhitespace, Decimal.Print;
    CarriageReturnIsControl();
    DigitsAreClean(length);
    ConstantsAreClean();
    var lines := HeaderLines(verb, path, authority, token, length);
    assert '\r' !in verb && '\r' !in path && '\r' !in authority && '\r' !in token && '\r' !in Decimal.Print(length);
    assert '\r' !in lines[0] && '\r' !in lines[1] && '\r' !in lines[2];
    assert '\r' !in lines[3] && '\r' !in lines[4] && '\r' !in lines[5];
  }

  lemma CarriageReturnIsControl()
    ensures Detect.IsControl('\r')
  {
  }

  /** The header of a printed request is parsed to what was printed: the method whose
      text it begins with, the path, and the headers. */
  lemma PrintedHeadParses(verb: string, m: Method, path: string, authority: string, token: string, length: nat)
    requires Printable(verb, path, authority, token) && Spells(verb, m) && length <= MAX_BODY_SIZE
    ensures ParseHead(Encode(LinesText(HeaderLines(verb, path, authority, token, length)) + "\r\n")) ==
            Ok(Head(m, path, PlainHeaders(authority, token, length), length, false))
  {
    hide Encode, Decode, LinesText, Split, ParseRequestLine, ParseHeaders, NonEmptyLines, CheckFraming,
           PlainHeaders, Spells, CleanValue, NoControls;
    var lines := HeaderLines(verb, path, authority, token, length);
    LinesAreGood(verb, path, authority, token, length);
    DecodeEncoded(LinesText(lines) + "\r\n");
    SplitLines(lines);
    RequestLineParses(verb, m, path);
    SameRest(verb, path, authority, token, length);
    assert (lines + ["", ""])[1..] == lines[1..] + ["", ""];
    LinesUntilBlank(lines[1..]);
    HeadersParse(authority, token, length);
    PlainFraming(m, path, authority, token, length);
  }

  lemma SameRest(verb: string, path: string, authority: string, token: string, length: nat)
    ensures HeaderLines(verb, path, authority, token, length)[1..] == HeaderLines("", "", authority, token, length)[1..]
    ensures HeaderLines(verb, path, authority, token, length)[0] == verb + " " + path + " " + "HTTP/1.1"
  {
  }

  /** Where the blank line of a printed request begins. */
  function BlankAt(verb: string, path: string, authority: string, token: string, length: nat): int {
    |Encode(LinesText(HeaderLines(verb, path, authority, token, length)))| - 2
  }

  lemma PrintedBlankLine(verb: string, path: string, authority: string, token: string, body: seq<Byte>,
                         trailing: seq<Byte>)
    requires Printable(verb, path, authority, token)
    ensures var all := RequestBytes(verb, path, authority, token, body) + trailing;
            var t := BlankAt(verb, path, authority, token, |body|);
            && t >= 0 && Find(all, BLANK_LINE) == Some(t) && t + 4 + |body| <= |all|
            && all[..t + 4] == Encode(LinesText(HeaderLines(verb, path, authority, token, |body|)) + "\r\n")
            && all[t + 4..t + 4 + |body|] == body
  {
    hide Encode, LinesText, HeaderLines, Printable, Find;
    var lines := HeaderLines(verb, path, authority, token, |body|);
    LinesAreGood(verb, path, authority, token, |body|);
    SixLines(verb, path, authority, token, |body|);
    BlankLineIsFound(lines, body + trailing);
    EncodeAppend(LinesText(lines), "\r\n");
    BytesOfLineEnd();
    var head := Encode(LinesText(lines));
    var all := RequestBytes(verb, path, authority, token, body) + trailing;
    assert all == head + [13, 10] + (body + trailing);
    assert all[..|head| + 2] == head + [13, 10];
  }

  lemma SixLines(verb: string, path: string, authority: string, token: string, length: nat)
    ensures |HeaderLines(verb, path, authority, token, length)| == 6
  {
  }

  lemma {:induction false} BodyArrives(arrivals: seq<seq<Byte>>, n: nat, need: nat, final: HttpError)
    requires n <= |arrivals| && need <= |Flatten(arrivals)|
    ensures ReadUpTo(arrivals, n, need, final).Ok?
    decreases |arrivals| - n
  {
    hide Flatten;
    assert arrivals[..|arrivals|] == arrivals;
    if n < |arrivals| {
      BodyArrives(arrivals, n + 1, need, final);
    }
  }

  /** A request of the plugin is read back exactly, its method included, whatever follows it and however it
      is cut up, if its blank line begins at least three bytes below the limit. In the
      last three positions this holds unless a read ends in the gap. */
  lemma RequestRoundTrip(verb: string, m: Method, path: string, authority: string, token: string,
                         body: seq<Byte>, trailing: seq<Byte>, arrivals: seq<seq<Byte>>, final: HttpError,
                         writable: bool)
    requires Printable(verb, path, authority, token) && Spells(verb, m) && |body| <= MAX_BODY_SIZE
    requires Flatten(arrivals) == RequestBytes(verb, path, authority, token, body) + trailing
    requires BlankAt(verb, path, authority, token, |body|) <= MAX_HEADER_SIZE
    ensures var t := BlankAt(verb, path, authority, token, |body|);
            && t >= 0 && (t <= MAX_HEADER_SIZE - 3 ==> !CutInGap(arrivals, t))
            && ReadRequest(arrivals, final, writable, false) ==
               if CutInGap(arrivals, t) then Err(HeadersTooLarge)
               else Ok(Request(m, path, PlainHeaders(authority, token, |body|), body))
    ensures Http.Lookup(PlainHeaders(authority, token, |body|), "Authorization") == Some("Bearer " + token)
  {
    hide *;
    var t: nat := BlankPosition(verb, path, authority, token, body, trailing);
    PlainHeadersSay(authority, token, |body|);
    HeadIsFoundUnlessCut(arrivals, t, final);
    if !CutInGap(arrivals, t) {
      var n := ReadHead(arrivals, 0, final).value;
      PrintedHeadParses(verb, m, path, authority, token, |body|);
      ReadAsPrinted(arrivals, n, t, Head(m, path, PlainHeaders(authority, token, |body|), |body|, false),
                    body, final, writable);
    } else {
      HeadFailureIsFinal(arrivals, final, writable);
    }
  }

  lemma BlankPosition(verb: string, path: string, authority: string, token: string, body: seq<Byte>,
                      trailing: seq<Byte>) returns (t: nat)
    requires Printable(verb, path, authority, token)
    ensures t == BlankAt(verb, path, authority, token, |body|)
    ensures var all := RequestBytes(verb, path, authority, token, body) + trailing;
            && Find(all, BLANK_LINE) == Some(t) && t + 4 + |body| <= |all|
            && all[..t + 4] == Encode(LinesText(HeaderLines(verb, path, authority, token, |body|)) + "\r\n")
            && all[t + 4..t + 4 + |body|] == body
    ensures MAX_HEADER_SIZE == 16384 && MAX_BODY_SIZE == 65536
  {
    hide BlankAt, RequestBytes, Printable, Encode, LinesText, HeaderLines, Find;
    PrintedBlankLine(verb, path, authority, token, body, trailing);
    t := BlankAt(verb, path, authority, token, |body|);
  }

  lemma HeadFailureIsFinal(arrivals: seq<seq<Byte>>, final: HttpError, writable: bool)
    ensures ReadHead(arrivals, 0, final).Err? ==>
              ReadRequest(arrivals, final, writable, false) == Err(ReadHead(arrivals, 0, final).error)
  {
    hide ReadHead, ParseHead;
  }

  /** Once the header is found, the request is what its bytes say. */
  lemma ReadAsPrinted(arrivals: seq<seq<Byte>>, n: nat, t: nat, head: Head, body: seq<Byte>, final: HttpError,
                      writable: bool)
    requires ReadHead(arrivals, 0, final) == Ok(n) && n <= |arrivals|
    requires Find(Flatten(arrivals[..n]), BLANK_LINE) == Some(t)
    requires t + 4 + |body| <= |Flatten(arrivals)| && Flatten(arrivals)[t + 4..t + 4 + |body|] == body
    requires ParseHead(Flatten(arrivals)[..t + 4]) == Ok(head) && head.length == |body| && !head.expects
    ensures ReadRequest(arrivals, final, writable, false) == Ok(Request(head.verb, head.path, head.headers, body))
  {
    hide ReadHead, ParseHead, ReadUpTo, Flatten, Find;
    assert arrivals[..|arrivals|] == arrivals;
    ArrivedIsPrefix(arrivals, n, |arrivals|);
    FindFits(Flatten(arrivals[..n]));
    assert Flatten(arrivals[..n])[..t + 4] == Flatten(arrivals)[..t + 4];
    BodyArrives(arrivals, n, t + 4 + |body|, final);
    var m := ReadUpTo(arrivals, n, t + 4 + |body|, final).value;
    ArrivedIsPrefix(arrivals, m, |arrivals|);
    assert Flatten(arrivals[..m])[t + 4..t + 4 + |body|] == body;
  }

  lemma FindFits(bytes: seq<Byte>)
    ensures Find(bytes, BLANK_LINE).Some? ==> Find(bytes, BLANK_LINE).value + 4 <= |bytes|
  {
  }

  // ---------------------------------------------------------------------------
  // The answer survives
  // ---------------------------------------------------------------------------

  function StatusLine(status: nat): string { "HTTP/1.1" + " " + (Decimal.Print(status) + " " + "Response") }

  function ResponseLines(status: nat, length: nat): seq<string> {
    [StatusLine(status), "Content-Type: application/json", "Content-Length: " + Decimal.Print(length),
        "Connection: close"]
  }

  lemma ResponseIsLines(status: nat, body: string)
    ensures ResponseBytes(status, body) ==
            Encode(LinesText(ResponseLines(status, ByteLength(body)))) + [13, 10] + Encode(body)
  {
    hide Encode, Decimal.Print, ByteLength, LinesText;
    var lines := ResponseLines(status, ByteLength(body));
    FourLinesText(lines[0], lines[1], lines[2], lines[3]);
    assert lines == [lines[0], lines[1], lines[2], lines[3]];
    assert ResponseBytes(status, body) == Encode(LinesText(lines) + "\r\n" + body);
    EncodeAppend(LinesText(lines) + "\r\n", body);
    EncodeAppend(LinesText(lines), "\r\n");
    BytesOfLineEnd();
  }

  lemma FourLinesText(a: string, b: string, c: string, d: string)
    ensures LinesText([a, b, c, d]) == a + "\r\n" + b + "\r\n" + c + "\r\n" + d + "\r\n"
  {
    assert LinesText([d][1..]) == "" && d + "\r\n" + "" == d + "\r\n";
    assert LinesText([d]) == d + "\r\n";
    assert [a, b, c, d][1..] == [b, c, d] && [b, c, d][1..] == [c, d] && [c, d][1..] == [d];
    assert LinesText([c, d]) == c + "\r\n" + (d + "\r\n") == c + "\r\n" + d + "\r\n";
    assert LinesText([b, c, d]) == b + "\r\n" + (c + "\r\n" + d + "\r\n") == b + "\r\n" + c + "\r\n" + d + "\r\n";
    assert LinesText([a, b, c, d]) == a + "\r\n" + (b + "\r\n" + c + "\r\n" + d + "\r\n");
    assert a + "\r\n" + (b + "\r\n" + c + "\r\n" + d + "\r\n") == a + "\r\n" + b + "\r\n" + c + "\r\n" + d + "\r\n";
  }

  lemma ResponseLinesAreGood(status: nat, length: nat)
    ensures GoodLines(ResponseLines(status, length))
  {
    hide Decimal.Print;
    var lines := ResponseLines(status, length);
    DigitsAreNoReturn(status);
    DigitsAreNoReturn(length);
    assert '\r' !in lines[0] && '\r' !in lines[1] && '\r' !in lines[2] && '\r' !in lines[3];
  }

  lemma DigitsAreNoReturn(n: nat)
    ensures '\r' !in Decimal.Print(n) && '\n' !in Decimal.Print(n) && Decimal.Print(n) != []
    ensures forall i :: 0 <= i < |Decimal.Print(n)| ==> !IsWhitespace(Decimal.Print(n)[i])
  {
    hide Decimal.Print;
    var s := Decimal.Print(n);
    assert forall i :: 0 <= i < |s| ==> Decimal.IsDigit(s[i]);
  }

  /** The text before the blank line: all lines, the last without its line end. */
  lemma {:induction false} LastLineEnd(lines: seq<string>) returns (text: string)
    requires lines != []
    ensures LinesText(lines) == text + "\r\n" && (|lines| > 1 ==> lines[0] + "\r\n" <= text)
  {
    if |lines| == 1 {
      assert lines[1..] == [];
      text := lines[0];
      assert lines[0] + "\r\n" + "" == text + "\r\n";
    } else {
      var rest := LastLineEnd(lines[1..]);
      text := lines[0] + "\r\n" + rest;
      assert LinesText(lines) == lines[0] + "\r\n" + (rest + "\r\n");
    }
  }

  lemma FirstLineOf(line: string, text: string)
    requires line + "\r\n" <= text && '\n' !in line
    ensures FirstLine(text) == line
  {
    var rest := text[|line| + 2..];
    assert text == (line + "\r") + "\n" + rest;
    PieceEnds(line + "\r", "\n", rest);
    assert text[..|line|] == line;
  }

  lemma StatusWords(status: nat)
    ensures Words(StatusLine(status)) == ["HTTP/1.1", Decimal.Print(status), "Response"]
  {
    hide Decimal.Print, Words;
    DigitsAreNoReturn(status);
    SpaceIsWhitespace();
    PlainWords();
    assert StatusLine(status) == "HTTP/1.1" + [' '] + (Decimal.Print(status) + " " + "Response");
    WordsOfFirstWord("HTTP/1.1", ' ', Decimal.Print(status) + " " + "Response");
    assert Decimal.Print(status) + " " + "Response" == Decimal.Print(status) + [' '] + "Response";
    WordsOfFirstWord(Decimal.Print(status), ' ', "Response");
    WordsOfOneWord("Response");
  }

  lemma PlainWords()
    ensures forall i :: 0 <= i < |"HTTP/1.1"| ==> !IsWhitespace("HTTP/1.1"[i])
    ensures forall i :: 0 <= i < |"Response"| ==> !IsWhitespace("Response"[i])
  {
  }

  lemma StatusIsRead(status: nat, text: string)
    requires StatusLine(status) + "\r\n" <= text && status <= 0xffff
    ensures StatusOf(text) == Some(status)
  {
    hide Decimal.Print, Words, FirstLine, Decimal.ParseUnsigned, StatusLine;
    NoLineFeed(status);
    FirstLineOf(StatusLine(status), text);
    StatusWords(status);
    Decimal.ParsePrinted(status, 0xffff);
  }

  lemma NoLineFeed(status: nat)
    ensures '\n' !in StatusLine(status)
  {
    hide Decimal.Print;
    DigitsAreNoReturn(status);
  }

  /** Status and body of every answer that fits are split off as they were sent. */
  lemma ResponseRoundTrip(status: nat, body: string, lossy: seq<Byte> -> string)
    requires Faithful(lossy) && status <= 0xffff && |ResponseBytes(status, body)| <= MAX_RPC_RESPONSE_SIZE
    ensures SplitResponse(ResponseBytes(status, body), lossy) ==
            if 200 <= status < 300 then Ok(Encode(body)) else Err(Returned(status, Encode(body)))
  {
    hide Encode, LinesText, ResponseLines, StatusLine, ResponseBytes, StatusOf, Find;
    var lines := ResponseLines(status, ByteLength(body));
    ResponseIsLines(status, body);
    ResponseLinesAreGood(status, ByteLength(body));
    FourLines(status, ByteLength(body));
    BlankLineIsFound(lines, Encode(body));
    var text := LastLineEnd(lines);
    EncodeAppend(text, "\r\n");
    BytesOfLineEnd();
    var head, all := Encode(LinesText(lines)), ResponseBytes(status, body);
    assert all[..|head| - 2] == Encode(text);
    assert all[|head| + 2..] == Encode(body);
    assert lossy(Encode(text)) == text;
    StatusIsRead(status, text);
  }

  lemma FourLines(status: nat, length: nat)
    ensures |ResponseLines(status, length)| == 4 && ResponseLines(status, length)[0] == StatusLine(status)
  {
  }

  // ---------------------------------------------------------------------------
  // What an accepted header cannot be
  // ---------------------------------------------------------------------------

  /** No header that decides about framing or access occurs twice. */
  ghost predicate Unambiguous(headers: seq<Header>) {
    forall i, j :: 0 <= i < j < |headers| && Guarded(headers[j].0) ==> !SameName(headers[i].0, headers[j].0)
  }

  lemma {:induction false} ParsedHeadersAreUnambiguous(lines: seq<string>)
    requires ParseHeaders(lines).Ok?
    ensures Unambiguous(ParseHeaders(lines).value)
  {
    hide Guarded, SameName;
    if lines != [] {
      ParsedHeadersAreUnambiguous(lines[..|lines| - 1]);
    }
  }

  ghost predicate AtMostOnce(headers: seq<Header>, name: string) {
    forall i, j :: 0 <= i < j < |headers| ==> !(SameName(headers[i].0, name) && SameName(headers[j].0, name))
  }

  lemma GuardedAtMostOnce(headers: seq<Header>)
    requires Unambiguous(headers)
    ensures AtMostOnce(headers, "Content-Length") && AtMostOnce(headers, "Authorization")
    ensures AtMostOnce(headers, "Expect")
  {
    hide SameName, Unambiguous, AtMostOnce;
    NotTwice(headers, "Content-Length");
    NotTwice(headers, "Authorization");
    NotTwice(headers, "Expect");
  }

  lemma NotTwice(headers: seq<Header>, name: string)
    requires Unambiguous(headers) && forall other :: SameName(other, name) ==> Guarded(other)
    ensures AtMostOnce(headers, name)
  {
    hide SameName, Guarded;
    forall i, j | 0 <= i < j < |headers|
      ensures !(SameName(headers[i].0, name) && SameName(headers[j].0, name))
    {
      SameNamesAgree(headers[i].0, headers[j].0, name);
    }
  }

  lemma SameNamesAgree(a: string, b: string, name: string)
    ensures SameName(a, name) && SameName(b, name) ==> SameName(a, b)
  {
  }

  lemma FirstOfName(headers: seq<Header>, name: string)
    ensures Http.Lookup(headers, name).Some? <==> Http.Named(headers, name)
    decreases |headers|
  {
    hide SameName;
    if headers != [] {
      FirstOfName(headers[1..], name);
      if SameName(headers[0].0, name) {
        assert Http.Named(headers, name);
      } else if Http.Named(headers[1..], name) {
        var i :| 0 <= i < |headers[1..]| && SameName(headers[1..][i].0, name);
        assert SameName(headers[i + 1].0, name);
      } else {
        forall i | 0 <= i < |headers|
          ensures !SameName(headers[i].0, name)
        {
          if i > 0 { assert headers[i] == headers[1..][i - 1]; }
        }
      }
    }
  }

  /** An accepted header has one meaning: no transfer encoding, at most one length, one
      authorization and one expectation, and a body no longer than the limit. */
  lemma AcceptedHeadIsUnambiguous(bytes: seq<Byte>)
    requires ParseHead(bytes).Ok?
    ensures var head := ParseHead(bytes).value;
            && AtMostOnce(head.headers, "Content-Length") && AtMostOnce(head.headers, "Authorization")
            && AtMostOnce(head.headers, "Expect") && !Http.Named(head.headers, "Transfer-Encoding")
            && head.length <= MAX_BODY_SIZE && head.path != [] && head.path[0] == '/' && NoControls(head.path)
            && (Http.Lookup(head.headers, "Content-Length").None? ==> head.length == 0)
            && (head.expects <==> Http.Named(head.headers, "Expect"))
            && (forall value :: Http.Lookup(head.headers, "Content-Length") == Some(value) ==>
                  Decimal.AllDigits(value) && Decimal.ParseUnsigned(value, USIZE_MAX) == Some(head.length))
            && (forall value :: Http.Lookup(head.headers, "Expect") == Some(value) ==> SameName(value, "100-continue"))
  {
    hide Guarded, SameName, Http.Named, Http.Lookup, ParseHeaders, Split, Decode, Decimal.ParseUnsigned, VerbOf,
           Decimal.AllDigits, AtMostOnce, Unambiguous;
    var lines := Split(Decode(bytes).value, "\r\n");
    ParsedHeadersAreUnambiguous(NonEmptyLines(lines[1..]));
    GuardedAtMostOnce(ParseHeaders(NonEmptyLines(lines[1..])).value);
    FirstOfName(ParseHead(bytes).value.headers, "Expect");
  }
}
