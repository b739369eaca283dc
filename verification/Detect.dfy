/** Terminal text: removing escape sequences and finding loopback URLs
    (src/detect.rs). `Strip` says what is removed from a text of characters;
    the method `StripAnsi` is the byte-indexed loop of the program, proved to
    compute `Strip` and to stand on a character boundary wherever it slices. */
module Detect {
  import opened Wrappers
  import opened Strings
  import opened Utf8
  import Decimal
  import Sorting

  const ESC: char := 0x1b as char
  const BEL: char := 7 as char

  /** The characters that may end a control sequence (section 5.4 of ECMA-48). */
  predicate IsFinal(c: char) { 0x40 <= c as int <= 0x7e }

  /** The introducers of four of the five control strings of section 5.6 of ECMA-48:
      OSC, DCS, PM and APC. The program does not know the fifth, SOS. */
  predicate OpensString(c: char) { c in "]P^_" }

  /** What follows the first final character. */
  function SkipCsi(s: string): (r: string)
    ensures |r| <= |s|
  {
    if s == [] then [] else if IsFinal(s[0]) then s[1..] else SkipCsi(s[1..])
  }

  /** What follows the first BEL or ESC backslash. */
  function SkipString(s: string): (r: string)
    ensures |r| <= |s|
  {
    if s == [] then []
    else if s[0] == BEL then s[1..]
    else if s[0] == ESC && |s| > 1 && s[1] == '\\' then s[2..]
    else SkipString(s[1..])
  }

  /** The text that is left once escape sequences are removed. */
  function Strip(s: string): string
    decreases |s|
  {
    if s == [] then []
    else if s[0] != ESC then [s[0]] + Strip(s[1..])
    else if |s| == 1 then []
    else if s[1] == '[' then Strip(SkipCsi(s[2..]))
    else if OpensString(s[1]) then Strip(SkipString(s[2..]))
    else Strip(s[2..])
  }

  /** What follows the sequence that ESC and this character introduce. */
  function AfterSequence(second: char, tail: string): (r: string)
    ensures |r| <= |tail|
  {
    if second == '[' then SkipCsi(tail) else if OpensString(second) then SkipString(tail) else tail
  }

  /** One escape sequence in front: `[`, a string introducer, or any other character. */
  lemma StripSequence(second: char, tail: string)
    ensures Strip([ESC, second] + tail) == Strip(AfterSequence(second, tail))
  {
    var s := [ESC, second] + tail;
    assert s[2..] == tail;
  }

  lemma EscapeAtTheEnd()
    ensures Strip([ESC]) == Strip([])
  {
  }

  // ---------------------------------------------------------------------------
  // The byte-indexed loop
  // ---------------------------------------------------------------------------

  function SkipCsiBytes(b: seq<Byte>): seq<Byte> {
    if b == [] then [] else if 0x40 <= b[0] <= 0x7e then b[1..] else SkipCsiBytes(b[1..])
  }

  function SkipStringBytes(b: seq<Byte>): seq<Byte> {
    if b == [] then []
    else if b[0] == 7 then b[1..]
    else if b[0] == 0x1b && |b| > 1 && b[1] == '\\' as int then b[2..]
    else SkipStringBytes(b[1..])
  }

  lemma {:induction false} SkipCsiOverHighBytes(high: seq<Byte>, rest: seq<Byte>)
    requires forall i :: 0 <= i < |high| ==> high[i] >= 0x80
    ensures SkipCsiBytes(high + rest) == SkipCsiBytes(rest)
  {
    if high == [] {
      assert high + rest == rest;
    } else {
      assert (high + rest)[1..] == high[1..] + rest;
      SkipCsiOverHighBytes(high[1..], rest);
    }
  }

  lemma {:induction false} SkipStringOverHighBytes(high: seq<Byte>, rest: seq<Byte>)
    requires forall i :: 0 <= i < |high| ==> high[i] >= 0x80
    ensures SkipStringBytes(high + rest) == SkipStringBytes(rest)
  {
    if high == [] {
      assert high + rest == rest;
    } else {
      assert (high + rest)[1..] == high[1..] + rest;
      SkipStringOverHighBytes(high[1..], rest);
    }
  }

  lemma EncodedHead(s: string)
    requires s != []
    ensures Encode(s) == EncodeChar(s[0]) + Encode(s[1..])
    ensures s[0] as int < 0x80 ==> Encode(s)[0] == s[0] as int && Encode(s)[1..] == Encode(s[1..])
    ensures s[0] as int >= 0x80 ==> Encode(s)[0] >= 0x80
  {
  }

  /** Skipping bytes skips whole characters. */
  lemma {:induction false} SkipCsiEncoded(s: string)
    ensures SkipCsiBytes(Encode(s)) == Encode(SkipCsi(s))
  {
    if s != [] {
      EncodedHead(s);
      if s[0] as int >= 0x80 {
        SkipCsiOverHighBytes(EncodeChar(s[0]), Encode(s[1..]));
      }
      SkipCsiEncoded(s[1..]);
    }
  }

  lemma {:induction false} SkipStringEncoded(s: string)
    ensures SkipStringBytes(Encode(s)) == Encode(SkipString(s))
  {
    if s != [] {
      EncodedHead(s);
      if s[0] as int >= 0x80 {
        SkipStringOverHighBytes(EncodeChar(s[0]), Encode(s[1..]));
      } else if |s| > 1 {
        EncodedHead(s[1..]);
        assert s[1..][1..] == s[2..];
        assert Encode(s)[1] == Encode(s[1..])[0];
        assert Encode(s)[2..] == Encode(s[1..])[1..];
      }
      SkipStringEncoded(s[1..]);
    }
  }

  /** `input[index..].chars().next()`, where the unread bytes encode `rest`. */
  method CharAt(bytes: seq<Byte>, index: nat, ghost rest: string) returns (c: char, length: nat)
    requires index <= |bytes| && rest != [] && bytes[index..] == Encode(rest)
    ensures c == rest[0]
    ensures 1 <= length <= |bytes| - index && bytes[index + length..] == Encode(rest[1..])
  {
    DecodeFirstEncoded(rest[0], Encode(rest[1..]));
    var decoded := DecodeFirst(bytes[index..]).value;
    c, length := decoded.0, decoded.1;
    assert bytes[index + length..] == bytes[index..][length..];
  }

  /** `strip_ansi`. The ghost `rest` is the unread text; that the unread bytes are
      exactly its encoding says that `index` is a character boundary. */
  method StripAnsi(input: string) returns (out: string)
    ensures out == Strip(input)
  {
    hide SkipCsi, SkipString;
    out := [];
    var bytes := Encode(input);
    var index := 0;
    ghost var rest := input;
    while index < |bytes|
      invariant 0 <= index <= |bytes|
      invariant bytes[index..] == Encode(rest)
      invariant out + Strip(rest) == Strip(input)
      decreases |bytes| - index
    {
      EncodedHead(rest);
      if bytes[index] != 0x1b {
        var c, length := CharAt(bytes, index, rest);
        out := out + [c];
        index := index + length;
        rest := rest[1..];
      } else {
        index, rest := SkipSequence(bytes, index, rest);
      }
    }
  }

  lemma NothingEncoded(s: string)
    requires Encode(s) == []
    ensures s == []
  {
  }

  lemma SomethingEncoded(s: string)
    requires Encode(s) != []
    ensures s != []
  {
  }

  lemma SequenceCases(second: char, tail: string)
    ensures AfterSequence(second, tail) ==
            if second == '[' then SkipCsi(tail) else if second in "]P^_" then SkipString(tail) else tail
  {
  }

  /** The part of the loop body that has just met ESC. */
  method SkipSequence(bytes: seq<Byte>, start: nat, ghost rest: string)
    returns (index: nat, ghost after: string)
    requires start < |bytes| && bytes[start] == 0x1b && bytes[start..] == Encode(rest)
    ensures start < index <= |bytes| && bytes[index..] == Encode(after)
    ensures Strip(after) == Strip(rest)
  {
    hide Strip, AfterSequence, Encode;
    SomethingEncoded(rest);
    EncodedHead(rest);
    index, after := start + 1, rest[1..];
    assert bytes[index..] == bytes[start..][1..];
    if index >= |bytes| {
      EscapeAtTheEnd();
      NothingEncoded(after);
      assert after == [] && rest == [ESC];
      return;
    }
    SomethingEncoded(after);
    assert rest == [ESC, rest[1]] + rest[2..];
    StripSequence(rest[1], rest[2..]);
    SequenceCases(rest[1], rest[2..]);
    EncodedHead(after);
    assert rest[2..] == after[1..];
    assert bytes[index] == Encode(after)[0];
    if bytes[index] == '[' as int {
      assert bytes[index + 1..] == bytes[index..][1..];
      index := SkipToFinal(bytes, index + 1);
      SkipCsiEncoded(rest[2..]);
      after := SkipCsi(rest[2..]);
    } else if bytes[index] in [']' as int, 'P' as int, '^' as int, '_' as int] {
      assert bytes[index + 1..] == bytes[index..][1..];
      index := SkipToTerminator(bytes, index + 1);
      SkipStringEncoded(rest[2..]);
      after := SkipString(rest[2..]);
    } else {
      var _, length := CharAt(bytes, index, after);
      index := index + length;
      after := rest[2..];
    }
  }

  method SkipToFinal(bytes: seq<Byte>, start: nat) returns (index: nat)
    requires start <= |bytes|
    ensures start <= index <= |bytes|
    ensures bytes[index..] == SkipCsiBytes(bytes[start..])
  {
    index := start;
    while index < |bytes| && !(0x40 <= bytes[index] <= 0x7e)
      invariant start <= index <= |bytes|
      invariant SkipCsiBytes(bytes[index..]) == SkipCsiBytes(bytes[start..])
    {
      index := index + 1;
    }
    index := if index + 1 < |bytes| then index + 1 else |bytes|;
  }

  method SkipToTerminator(bytes: seq<Byte>, start: nat) returns (index: nat)
    requires start <= |bytes|
    ensures start <= index <= |bytes|
    ensures bytes[index..] == SkipStringBytes(bytes[start..])
  {
    index := start;
    while index < |bytes|
      invariant start <= index <= |bytes|
      invariant SkipStringBytes(bytes[index..]) == SkipStringBytes(bytes[start..])
    {
      if bytes[index] == 7 {
        index := index + 1;
        return;
      }
      if bytes[index] == 0x1b && index + 1 < |bytes| && bytes[index + 1] == '\\' as int {
        index := index + 2;
        return;
      }
      index := index + 1;
    }
  }

  // ---------------------------------------------------------------------------
  // What stripping means
  // ---------------------------------------------------------------------------

  predicate EscFree(s: string) { ESC !in s }

  lemma {:induction false} StripLeavesNoEscape(s: string)
    ensures EscFree(Strip(s))
    decreases |s|
  {
    if s == [] {
    } else if s[0] != ESC {
      StripLeavesNoEscape(s[1..]);
    } else if |s| == 1 {
    } else if s[1] == '[' {
      StripLeavesNoEscape(SkipCsi(s[2..]));
    } else if OpensString(s[1]) {
      StripLeavesNoEscape(SkipString(s[2..]));
    } else {
      StripLeavesNoEscape(s[2..]);
    }
  }

  lemma {:induction false} StripAfterText(text: string, s: string)
    requires EscFree(text)
    ensures Strip(text + s) == text + Strip(s)
  {
    if text == [] {
      assert text + s == s;
    } else {
      assert (text + s)[0] == text[0] && (text + s)[1..] == text[1..] + s;
      StripAfterText(text[1..], s);
    }
  }

  /** Text without ESC is untouched; hence stripping twice is stripping once. */
  lemma StripIdempotent(s: string)
    ensures Strip(Strip(s)) == Strip(s)
    ensures EscFree(s) ==> Strip(s) == s
  {
    StripLeavesNoEscape(s);
    StripAfterText(Strip(s), []);
    assert Strip(s) + [] == Strip(s);
    if EscFree(s) {
      StripAfterText(s, []);
      assert s + [] == s;
    }
  }

  /** A terminal output cut into plain text and complete escape sequences: control
      sequences (section 5.4 of ECMA-48), control strings (section 5.6: OSC, DCS, PM and
      APC, ended by ST or, as terminals allow, by BEL; and SOS, whose character string
      is ended by ST only), and escape sequences without or with intermediate
      characters (ESC, any of U+0020..U+002F, and a final character). */
  datatype Piece =
    | Text(text: string)
    | Csi(parameters: string, final: char)
    | ControlString(introducer: char, body: string, byBell: bool)
    | StartOfString(body: string)
    | TwoCharacter(second: char)
    | WithIntermediates(intermediates: string, final: char)

  predicate WellFormed(p: Piece) {
    match p
    case Text(text) => EscFree(text)
    case Csi(parameters, final) =>
      IsFinal(final) && forall i :: 0 <= i < |parameters| ==> !IsFinal(parameters[i])
    case ControlString(introducer, body, byBell) =>
      OpensString(introducer) && BEL !in body && NoTerminator(body)
    case StartOfString(body) =>
      NoTerminator(body) && forall i :: 0 <= i < |body| - 1 ==> !(body[i] == ESC && body[i + 1] == 'X')
    case TwoCharacter(second) =>
      0x30 <= second as int <= 0x7e && second != '[' && second != 'X' && !OpensString(second)
    case WithIntermediates(intermediates, final) =>
      && intermediates != [] && 0x30 <= final as int <= 0x7e
      && forall i :: 0 <= i < |intermediates| ==> 0x20 <= intermediates[i] as int <= 0x2f
  }

  predicate NoTerminator(body: string) {
    forall i :: 0 <= i < |body| - 1 ==> !(body[i] == ESC && body[i + 1] == '\\')
  }

  const ST: string := [ESC, '\\']

  function Terminator(byBell: bool): string { if byBell then [BEL] else ST }

  function RenderPiece(p: Piece): string {
    match p
    case Text(text) => text
    case Csi(parameters, final) => [ESC, '['] + parameters + [final]
    case ControlString(introducer, body, byBell) => [ESC, introducer] + body + Terminator(byBell)
    case StartOfString(body) => [ESC, 'X'] + body + ST
    case TwoCharacter(second) => [ESC, second]
    case WithIntermediates(intermediates, final) => [ESC] + intermediates + [final]
  }

  function Render(pieces: seq<Piece>): string {
    if pieces == [] then [] else RenderPiece(pieces[0]) + Render(pieces[1..])
  }

  function PlainText(pieces: seq<Piece>): string {
    if pieces == [] then []
    else (if pieces[0].Text? then pieces[0].text else []) + PlainText(pieces[1..])
  }

  /** What the program leaves of a piece. It knows neither SOS nor intermediate
      characters: it takes ESC X for a two-character sequence, and ESC with the first
      intermediate character for another. */
  function Remains(p: Piece): string {
    match p
    case Text(text) => text
    case StartOfString(body) => Strip(body + ST)
    case WithIntermediates(intermediates, final) => (if intermediates == [] then [] else intermediates[1..]) + [final]
    case _ => []
  }

  function AllRemains(pieces: seq<Piece>): string {
    if pieces == [] then [] else Remains(pieces[0]) + AllRemains(pieces[1..])
  }

  lemma {:induction false} SkipCsiExact(parameters: string, final: char, rest: string)
    requires IsFinal(final) && forall i :: 0 <= i < |parameters| ==> !IsFinal(parameters[i])
    ensures SkipCsi(parameters + [final] + rest) == rest
  {
    var s := parameters + [final] + rest;
    if parameters == [] {
      assert s[1..] == rest;
    } else {
      assert s[1..] == parameters[1..] + [final] + rest;
      SkipCsiExact(parameters[1..], final, rest);
    }
  }

  lemma {:induction false} SkipStringExact(body: string, byBell: bool, rest: string)
    requires BEL !in body && NoTerminator(body)
    ensures SkipString(body + Terminator(byBell) + rest) == rest
  {
    var s := body + Terminator(byBell) + rest;
    if body == [] {
      assert s[|Terminator(byBell)|..] == rest;
    } else {
      assert s[1..] == body[1..] + Terminator(byBell) + rest;
      assert |body| > 1 ==> s[1] == body[1];
      SkipStringExact(body[1..], byBell, rest);
    }
  }

  // ---------------------------------------------------------------------------
  // What is left of a character string that the program takes for text
  // ---------------------------------------------------------------------------

  /** ST ends whatever is open: either before it, or with it. */
  lemma {:induction false} SkipCsiBeforeSt(s: string, rest: string)
    ensures (SkipCsi(s + ST + rest) == rest && SkipCsi(s) == [])
            || SkipCsi(s + ST + rest) == SkipCsi(s) + ST + rest
  {
    var whole := s + ST + rest;
    if s == [] {
      assert whole[1..][1..] == rest;
    } else if IsFinal(s[0]) {
      assert whole[1..] == s[1..] + ST + rest;
    } else {
      assert whole[1..] == s[1..] + ST + rest;
      SkipCsiBeforeSt(s[1..], rest);
    }
  }

  lemma {:induction false} SkipStringBeforeSt(s: string, rest: string)
    ensures (SkipString(s + ST + rest) == rest && SkipString(s) == [])
            || SkipString(s + ST + rest) == SkipString(s) + ST + rest
  {
    var whole := s + ST + rest;
    if s == [] {
      assert whole[2..] == rest;
    } else {
      assert whole[1..] == s[1..] + ST + rest;
      if s[0] == ESC && |s| > 1 && s[1] == '\\' {
        assert whole[2..] == s[2..] + ST + rest;
      } else if s[0] != BEL {
        assert whole[1] == if |s| > 1 then s[1] else ESC;
        SkipStringBeforeSt(s[1..], rest);
      }
    }
  }

  lemma AfterSequenceBeforeSt(second: char, s: string, rest: string)
    ensures (AfterSequence(second, s + ST + rest) == rest && AfterSequence(second, s) == [])
            || AfterSequence(second, s + ST + rest) == AfterSequence(second, s) + ST + rest
  {
    SkipCsiBeforeSt(s, rest);
    SkipStringBeforeSt(s, rest);
  }

  lemma StripSt(rest: string)
    ensures Strip(ST + rest) == Strip(rest) && Strip(ST) == []
  {
    StripSequence('\\', rest);
    StripSequence('\\', []);
    assert ST + [] == ST;
  }

  lemma DanglingEscape(rest: string)
    ensures Strip([ESC] + ST + rest) == ['\\'] + Strip(rest)
  {
    assert [ESC] + ST + rest == [ESC, ESC] + (['\\'] + rest);
    StripSequence(ESC, ['\\'] + rest);
    StripAfterText(['\\'], rest);
  }

  lemma TextFirst(s: string)
    requires s != [] && s[0] != ESC
    ensures Strip(s) == [s[0]] + Strip(s[1..])
  {
  }

  /** What is stripped up to ST and what is stripped behind it do not interfere. */
  lemma {:induction false} StripUpToSt(s: string, rest: string)
    ensures Strip(s + ST + rest) == Strip(s + ST) + Strip(rest)
    decreases |s|
  {
    hide Strip, AfterSequence;
    if s == [] {
      assert [] + ST + rest == ST + rest && [] + ST == ST;
      StripSt(rest);
    } else if s[0] != ESC {
      TextFirst(s + ST + rest);
      TextFirst(s + ST);
      assert (s + ST + rest)[1..] == s[1..] + ST + rest && (s + ST)[1..] == s[1..] + ST;
      StripUpToSt(s[1..], rest);
    } else if |s| == 1 {
      assert s == [ESC] && [ESC] + ST + [] == [ESC] + ST;
      DanglingEscape(rest);
      DanglingEscape([]);
      StripNothing();
    } else {
      StripUpToStBehind(s, rest);
      var after := AfterSequence(s[1], s[2..]);
      if Strip(s + ST + rest) == Strip(after + ST + rest) {
        StripUpToSt(after, rest);
      }
    }
  }

  lemma StripNothing()
    ensures Strip([]) == []
  {
  }

  /** A sequence in front either ends with ST at the latest, or before it. */
  lemma StripUpToStBehind(s: string, rest: string)
    requires |s| > 1 && s[0] == ESC
    ensures var after := AfterSequence(s[1], s[2..]);
            || (after == [] && Strip(s + ST + rest) == Strip(rest) && Strip(s + ST) == [])
            || (Strip(s + ST + rest) == Strip(after + ST + rest) && Strip(s + ST) == Strip(after + ST))
  {
    hide Strip, AfterSequence;
    assert s + ST + rest == [ESC, s[1]] + (s[2..] + ST + rest);
    assert s + ST == [ESC, s[1]] + (s[2..] + ST + []);
    StripSequence(s[1], s[2..] + ST + rest);
    StripSequence(s[1], s[2..] + ST + []);
    AfterSequenceBeforeSt(s[1], s[2..], rest);
    AfterSequenceBeforeSt(s[1], s[2..], []);
    var after := AfterSequence(s[1], s[2..]);
    assert after + ST + [] == after + ST;
    if after == [] {
      assert [] + ST + rest == ST + rest && [] + ST == ST;
      StripSt(rest);
    }
    StripNothing();
  }

  /** The text is made of escape sequences alone; the last one may be unfinished. */
  predicate OnlySequences(s: string)
    decreases |s|
  {
    s != [] ==> s[0] == ESC && |s| > 1 && OnlySequences(AfterSequence(s[1], s[2..]))
  }

  /** Nothing is left of a character string if and only if it has no text of its own. */
  lemma {:induction false} LeavesNothing(s: string)
    ensures Strip(s + ST) == [] <==> OnlySequences(s)
    ensures EscFree(s) ==> (OnlySequences(s) <==> s == [])
    decreases |s|
  {
    hide Strip, AfterSequence;
    if s == [] {
      assert [] + ST == ST;
      StripSt([]);
    } else if s[0] != ESC {
      TextFirst(s + ST);
    } else if |s| == 1 {
      assert s == [ESC] && [ESC] + ST + [] == [ESC] + ST;
      DanglingEscape([]);
    } else {
      StripUpToStBehind(s, []);
      var after := AfterSequence(s[1], s[2..]);
      LeavesNothing(after);
      if after == [] {
        assert [] + ST == ST;
        StripSt([]);
      }
    }
  }

  // ---------------------------------------------------------------------------
  // Any concatenation of pieces
  // ---------------------------------------------------------------------------

  lemma StripCsi(parameters: string, final: char, rest: string)
    requires IsFinal(final) && forall i :: 0 <= i < |parameters| ==> !IsFinal(parameters[i])
    ensures Strip([ESC, '['] + parameters + [final] + rest) == Strip(rest)
  {
    hide Strip, SkipCsi;
    var tail := parameters + [final] + rest;
    assert [ESC, '['] + parameters + [final] + rest == [ESC, '['] + tail;
    StripSequence('[', tail);
    SkipCsiExact(parameters, final, rest);
  }

  lemma StripControlString(introducer: char, body: string, byBell: bool, rest: string)
    requires OpensString(introducer) && BEL !in body && NoTerminator(body)
    ensures Strip([ESC, introducer] + body + Terminator(byBell) + rest) == Strip(rest)
  {
    hide Strip, SkipString, NoTerminator;
    var tail := body + Terminator(byBell) + rest;
    assert [ESC, introducer] + body + Terminator(byBell) + rest == [ESC, introducer] + tail;
    StripSequence(introducer, tail);
    SkipStringExact(body, byBell, rest);
  }

  lemma StripStartOfString(body: string, rest: string)
    ensures Strip([ESC, 'X'] + body + ST + rest) == Strip(body + ST) + Strip(rest)
  {
    hide Strip;
    assert [ESC, 'X'] + body + ST + rest == [ESC, 'X'] + (body + ST + rest);
    StripSequence('X', body + ST + rest);
    StripUpToSt(body, rest);
  }

  /** An escape sequence with intermediate characters (such as ESC ( B) is one sequence
      for a terminal; here everything after the first intermediate character stays. */
  lemma IntermediatesLeaveText(intermediates: string, final: char, rest: string)
    requires WellFormed(WithIntermediates(intermediates, final))
    ensures Strip([ESC] + intermediates + [final] + rest) == intermediates[1..] + [final] + Strip(rest)
  {
    hide Strip;
    var left := intermediates[1..] + [final];
    assert [ESC] + intermediates + [final] + rest == [ESC, intermediates[0]] + (left + rest);
    StripSequence(intermediates[0], left + rest);
    StripAfterText(left, rest);
  }

  lemma StripPiece(p: Piece, rest: string)
    requires WellFormed(p)
    ensures Strip(RenderPiece(p) + rest) == Remains(p) + Strip(rest)
  {
    hide Strip, NoTerminator, ST;
    match p
    case Text(text) => StripAfterText(text, rest);
    case Csi(parameters, final) => StripCsi(parameters, final, rest);
    case ControlString(introducer, body, byBell) => StripControlString(introducer, body, byBell, rest);
    case StartOfString(body) => StripStartOfString(body, rest);
    case TwoCharacter(second) => StripSequence(second, rest);
    case WithIntermediates(intermediates, final) => IntermediatesLeaveText(intermediates, final, rest);
  }

  /** Any concatenation of text and complete sequences: exactly what is left of it. */
  lemma {:induction false} StripRemains(pieces: seq<Piece>)
    requires forall i :: 0 <= i < |pieces| ==> WellFormed(pieces[i])
    ensures Strip(Render(pieces)) == AllRemains(pieces)
  {
    hide WellFormed, Strip, RenderPiece, Remains;
    if pieces == [] {
      StripNothing();
    } else {
      assert WellFormed(pieces[0]);
      StripRemains(pieces[1..]);
      StripPiece(pieces[0], Render(pieces[1..]));
    }
  }

  /** The program leaves something of the piece that is not its text. */
  predicate LeavesRest(p: Piece) {
    p.WithIntermediates? || (p.StartOfString? && !OnlySequences(p.body))
  }

  lemma RemainsText(p: Piece)
    requires WellFormed(p)
    ensures |Remains(p)| >= if p.Text? then |p.text| else 0
    ensures Remains(p) == (if p.Text? then p.text else []) <==> !LeavesRest(p)
  {
    if p.StartOfString? { LeavesNothing(p.body); }
  }

  /** The plain text is left, and nothing else, if and only if no sequence has
      intermediate characters and no SOS string has text of its own. */
  lemma {:induction false} StripRendered(pieces: seq<Piece>)
    requires forall i :: 0 <= i < |pieces| ==> WellFormed(pieces[i])
    ensures Strip(Render(pieces)) == PlainText(pieces) <==> forall i :: 0 <= i < |pieces| ==> !LeavesRest(pieces[i])
  {
    hide WellFormed, Strip, Render, LeavesRest, Remains;
    StripRemains(pieces);
    RemainsAddUp(pieces);
  }

  lemma {:induction false} RemainsAddUp(pieces: seq<Piece>)
    requires forall i :: 0 <= i < |pieces| ==> WellFormed(pieces[i])
    ensures |AllRemains(pieces)| >= |PlainText(pieces)|
    ensures AllRemains(pieces) == PlainText(pieces) <==> forall i :: 0 <= i < |pieces| ==> !LeavesRest(pieces[i])
  {
    hide WellFormed, LeavesRest, Remains;
    if pieces != [] {
      assert WellFormed(pieces[0]);
      var rest := pieces[1..];
      RemainsAddUp(rest);
      RemainsText(pieces[0]);
      var text := if pieces[0].Text? then pieces[0].text else [];
      SameTogether(Remains(pieces[0]), AllRemains(rest), text, PlainText(rest));
      assert forall i :: 0 < i < |pieces| ==> pieces[i] == rest[i - 1];
      assert forall i :: 0 <= i < |rest| ==> rest[i] == pieces[i + 1];
    }
  }

  lemma SameTogether(a: string, b: string, c: string, d: string)
    requires |a| >= |c| && |b| >= |d|
    ensures a + b == c + d <==> a == c && b == d
  {
    if a + b == c + d {
      assert |a| == |c| && (a + b)[..|a|] == a && (c + d)[..|c|] == c;
      assert (a + b)[|a|..] == b && (c + d)[|c|..] == d;
    }
  }

  /** The character string of SOS is no text for a terminal; here it stays whole. */
  lemma CharacterStringsStay(body: string, rest: string)
    requires EscFree(body)
    ensures WellFormed(StartOfString(body)) && Strip([ESC, 'X'] + body + ST + rest) == body + Strip(rest)
  {
    hide Strip;
    StripStartOfString(body, rest);
    StripAfterText(body, ST);
    StripSt([]);
    assert body + [] == body;
  }

  /** `char::is_control`: the general category Cc. */
  predicate IsControl(c: char) { c as int < 0x20 || 0x7f <= c as int < 0xa0 }

  function WithoutControls(s: string): (r: string)
    ensures forall c :: c in r ==> !IsControl(c)
    ensures (forall c :: c in s ==> !IsControl(c)) ==> r == s
  {
    if s == [] then []
    else if IsControl(s[0]) then WithoutControls(s[1..])
    else
      assert forall c :: c in s[1..] ==> c in s;
      [s[0]] + WithoutControls(s[1..])
  }

  /** `sanitize_display_text`. */
  function Sanitize(s: string): string { WithoutControls(Strip(s)) }

  lemma {:induction false} WithoutControlsJoin(a: string, b: string)
    ensures WithoutControls(a + b) == WithoutControls(a) + WithoutControls(b)
  {
    if a == [] {
      assert a + b == b;
    } else {
      assert (a + b)[1..] == a[1..] + b;
      WithoutControlsJoin(a[1..], b);
    }
  }

  /** Of the stripped text every character that is no control character stays, in its place. */
  lemma SanitizeKeepsText(s: string, a: string, c: char, b: string)
    requires Strip(s) == a + [c] + b
    ensures Sanitize(s) == WithoutControls(a) + (if c < ' ' || '\U{7f}' <= c <= '\U{9f}' then [] else [c])
                           + WithoutControls(b)
  {
    hide Strip;
    WithoutControlsJoin(a + [c], b);
    WithoutControlsJoin(a, [c]);
    assert [c][1..] == [];
  }

  lemma SanitizeIdempotent(s: string)
    ensures Sanitize(Sanitize(s)) == Sanitize(s)
    ensures forall c :: c in Sanitize(s) ==> !IsControl(c)
  {
    StripIdempotent(Sanitize(s));
    assert IsControl(ESC);
  }

  // ---------------------------------------------------------------------------
  // Loopback URLs
  // ---------------------------------------------------------------------------

  type Port = n: int | 0 <= n < 0x1_0000

  datatype Candidate = Candidate(host: string, port: Port, url: string)

  predicate IsPunctuation(c: char) { c in ".,;!()[]{}<>\"'`" }

  function SplitAuthority(authority: string): Option<(string, string)> {
    if authority != [] && authority[0] == '[' then SplitOnce(authority[1..], "]:")
    else RSplitOnce(authority, ':')
  }

  predicate IsLoopbackHost(host: string) { host == "localhost" || host == "127.0.0.1" || host == "::1" }

  /** The loopback URL in one whitespace-delimited word, if there is one. */
  function CandidateOf(word: string): (r: Option<Candidate>)
    ensures r.Some? ==> IsLoopbackHost(r.value.host) && r.value.port != 0
  {
    var token := TrimMatches(word, IsPunctuation);
    match Find(token, "://")
    case None => None
    case Some(schemeEnd) =>
      if token[..schemeEnd] != "http" && token[..schemeEnd] != "https" then None else
      var rest := token[schemeEnd + 3..];
      match SplitAuthority(rest[..FindAny(rest, "/?#")])
      case None => None
      case Some(parts) =>
        if !IsLoopbackHost(parts.0) then None
        else match Decimal.ParseUnsigned(parts.1, 0xffff)
          case None => None
          case Some(port) => if port == 0 then None else Some(Candidate(parts.0, port, token))
  }

  predicate SameEndpoint(a: Candidate, b: Candidate) { a.host == b.host && a.port == b.port }

  predicate Known(found: seq<Candidate>, c: Candidate) {
    exists d :: d in found && SameEndpoint(d, c)
  }

  /** The first candidate of each endpoint, in order of appearance. */
  function Collect(found: seq<Option<Candidate>>): seq<Candidate> {
    if found == [] then [] else
    var earlier, last := Collect(found[..|found| - 1]), found[|found| - 1];
    if last.None? || Known(earlier, last.value) then earlier
    else earlier + [last.value]
  }

  lemma {:induction false} CollectedOnce(found: seq<Option<Candidate>>)
    ensures forall i, j :: 0 <= i < j < |Collect(found)| ==> !SameEndpoint(Collect(found)[i], Collect(found)[j])
    ensures forall c :: c in Collect(found) ==> Some(c) in found
  {
    if found != [] {
      var front := found[..|found| - 1];
      CollectedOnce(front);
      assert found == front + [found[|found| - 1]];
    }
  }

  lemma {:induction false} NothingMissed(found: seq<Option<Candidate>>, o: Option<Candidate>)
    requires o in found && o.Some?
    ensures Known(Collect(found), o.value)
  {
    var front, last := found[..|found| - 1], found[|found| - 1];
    assert found == front + [last];
    if o in front {
      NothingMissed(front, o);
      var c :| c in Collect(front) && SameEndpoint(c, o.value);
      assert c in Collect(found);
    } else {
      assert o == last;
      if Known(Collect(front), last.value) {
        assert Collect(found) == Collect(front);
      } else {
        assert Collect(found) == Collect(front) + [last.value];
        assert last.value in Collect(found) && SameEndpoint(last.value, o.value);
      }
    }
  }

  predicate PortAtMost(a: Candidate, b: Candidate) { a.port <= b.port }

  function CandidatesOf(words: seq<string>): (r: seq<Option<Candidate>>)
    ensures |r| == |words| && forall i :: 0 <= i < |r| ==> r[i] == CandidateOf(words[i])
  {
    seq(|words|, i requires 0 <= i < |words| => CandidateOf(words[i]))
  }

  /** `find_urls`. */
  function FindUrls(input: string): seq<Candidate> {
    Sorting.StableSort(Collect(CandidatesOf(Words(Strip(input)))), PortAtMost)
  }

  /** One turn of the collecting loop. */
  lemma CollectOneMore(found: seq<Option<Candidate>>, n: nat)
    requires n < |found|
    ensures var earlier := Collect(found[..n]);
            Collect(found[..n + 1]) ==
            if found[n].None? || Known(earlier, found[n].value) then earlier
            else earlier + [found[n].value]
  {
    assert found[..n + 1][..n] == found[..n];
  }

  method FindUrlsLoop(input: string) returns (candidates: seq<Candidate>)
    ensures candidates == FindUrls(input)
  {
    var clean := StripAnsi(input);
    candidates := CollectLoop(Words(clean));
    candidates := Sorting.StableSort(candidates, PortAtMost);
  }

  ghost predicate Records(seen: set<(string, Port)>, candidates: seq<Candidate>) {
    && (forall c :: c in candidates ==> (c.host, c.port) in seen)
    && (forall e :: e in seen ==> exists c :: c in candidates && (c.host, c.port) == e)
  }

  lemma RecordOneMore(seen: set<(string, Port)>, candidates: seq<Candidate>, c: Candidate)
    requires Records(seen, candidates)
    ensures Records(seen + {(c.host, c.port)}, candidates + [c])
    ensures (c.host, c.port) in seen <==> Known(candidates, c)
  {
    var more := candidates + [c];
    assert more[|candidates|] == c;
    assert forall d :: d in candidates ==> d in more;
  }

  /** `seen.insert` followed by `candidates.push`, for a candidate not seen yet. */
  method Record(seen: set<(string, Port)>, candidates: seq<Candidate>, candidate: Option<Candidate>)
    returns (seen': set<(string, Port)>, candidates': seq<Candidate>)
    requires Records(seen, candidates)
    ensures Records(seen', candidates')
    ensures candidates' ==
            if candidate.None? || Known(candidates, candidate.value) then candidates
            else candidates + [candidate.value]
  {
    seen', candidates' := seen, candidates;
    if candidate.Some? {
      var c := candidate.value;
      RecordOneMore(seen, candidates, c);
      if (c.host, c.port) !in seen {
        seen', candidates' := seen + {(c.host, c.port)}, candidates + [c];
      }
    }
  }

  method CollectLoop(words: seq<string>) returns (candidates: seq<Candidate>)
    ensures candidates == Collect(CandidatesOf(words))
  {
    hide CandidateOf, Collect, Known, Records, CandidatesOf;
    ghost var found := CandidatesOf(words);
    var seen: set<(string, Port)> := {};
    candidates := [];
    NothingCollected(words);
    for n := 0 to |words|
      invariant candidates == Collect(found[..n])
      invariant Records(seen, candidates)
    {
      CandidateAt(words, n);
      CollectOneMore(found, n);
      seen, candidates := Record(seen, candidates, CandidateOf(words[n]));
    }
    assert found[..|words|] == found;
  }

  lemma NothingCollected(words: seq<string>)
    ensures |CandidatesOf(words)| == |words| && CandidatesOf(words)[..0] == [] && Collect([]) == [] && Records({}, [])
  {
  }

  lemma CandidateAt(words: seq<string>, n: nat)
    requires n < |words|
    ensures |CandidatesOf(words)| == |words| && CandidatesOf(words)[n] == CandidateOf(words[n])
  {
  }

  lemma SortedCandidates(collected: seq<Candidate>)
    requires forall i, j :: 0 <= i < j < |collected| ==> !SameEndpoint(collected[i], collected[j])
    ensures var r := Sorting.StableSort(collected, PortAtMost);
            && (forall c :: c in r <==> c in collected)
            && (forall i, j :: 0 <= i < j < |r| ==> r[i].port <= r[j].port && !SameEndpoint(r[i], r[j]))
  {
    var r := Sorting.StableSort(collected, PortAtMost);
    var different := (a: Candidate, b: Candidate) => !SameEndpoint(a, b);
    assert forall c :: c in r <==> c in multiset(r);
    assert forall c :: c in collected <==> c in multiset(collected);
    Sorting.StableSortOrders(collected, PortAtMost, different);
    forall i, j | 0 <= i < j < |r|
      ensures r[i].port <= r[j].port && !SameEndpoint(r[i], r[j])
    {
      assert PortAtMost(r[i], r[j]);
      assert PortAtMost(r[j], r[i]) ==> different(r[i], r[j]);
    }
  }

  /** What the callers rely on: candidates come from words of the stripped text,
      each endpoint once, ordered by port, and no loopback URL is missed. */
  lemma FindUrlsIsExact(input: string)
    ensures ExactlyTheCandidates(Words(Strip(input)), FindUrls(input))
  {
    CandidatesAreExact(Words(Strip(input)));
  }

  ghost predicate ExactlyTheCandidates(words: seq<string>, r: seq<Candidate>) {
    && (forall i, j :: 0 <= i < j < |r| ==> r[i].port <= r[j].port && !SameEndpoint(r[i], r[j]))
    && (forall c :: c in r ==> exists w :: w in words && CandidateOf(w) == Some(c))
    && (forall w :: w in words && CandidateOf(w).Some? ==>
          Known(r, CandidateOf(w).value))
  }

  lemma CandidatesAreExact(words: seq<string>)
    ensures ExactlyTheCandidates(words, Sorting.StableSort(Collect(CandidatesOf(words)), PortAtMost))
  {
    hide CandidateOf, Collect, Sorting.StableSort, PortAtMost;
    var found := CandidatesOf(words);
    var r := Sorting.StableSort(Collect(found), PortAtMost);
    CollectedOnce(found);
    SortedCandidates(Collect(found));
    forall c | c in r
      ensures exists w :: w in words && CandidateOf(w) == Some(c)
    {
      var i :| 0 <= i < |found| && found[i] == Some(c);
      assert words[i] in words;
    }
    forall w | w in words && CandidateOf(w).Some?
      ensures Known(r, CandidateOf(w).value)
    {
      var i :| 0 <= i < |words| && words[i] == w;
      assert found[i] in found;
      NothingMissed(found, found[i]);
      var c :| c in Collect(found) && SameEndpoint(c, found[i].value);
      assert c in r;
    }
  }
}
