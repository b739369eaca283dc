/** The searching, splitting and trimming operations of Rust's `str` that the
    modelled code uses, over sequences so that byte buffers can use them too. */
module Strings {
  import opened Wrappers

  predicate OccursAt<T(==)>(s: seq<T>, part: seq<T>, i: nat) {
    i + |part| <= |s| && s[i..i + |part|] == part
  }

  /** The first position, at or after `from`, where `part` occurs. */
  function FindFrom<T(==)>(s: seq<T>, part: seq<T>, from: nat): (r: Option<nat>)
    requires from <= |s|
    ensures r.Some? ==> from <= r.value && OccursAt(s, part, r.value)
    ensures r.Some? ==> forall j :: from <= j < r.value ==> !OccursAt(s, part, j)
    ensures r.None? ==> forall j :: from <= j ==> !OccursAt(s, part, j)
    decreases |s| - from
  {
    if OccursAt(s, part, from) then Some(from)
    else if from == |s| then None
    else FindFrom(s, part, from + 1)
  }

  function Find<T(==)>(s: seq<T>, part: seq<T>): (r: Option<nat>)
    ensures r.Some? ==> OccursAt(s, part, r.value)
    ensures r.Some? ==> forall j :: 0 <= j < r.value ==> !OccursAt(s, part, j)
    ensures r.None? ==> forall j: nat :: !OccursAt(s, part, j)
  {
    FindFrom(s, part, 0)
  }

  lemma FindIs<T>(s: seq<T>, part: seq<T>, i: nat)
    requires OccursAt(s, part, i) && forall j :: 0 <= j < i ==> !OccursAt(s, part, j)
    ensures Find(s, part) == Some(i)
  {
  }

  /** `split_once`: the text before and after the first separator. */
  function SplitOnce(s: string, separator: string): (r: Option<(string, string)>)
    ensures r.Some? ==> s == r.value.0 + separator + r.value.1
  {
    match Find(s, separator)
    case None => None
    case Some(i) => Some((s[..i], s[i + |separator|..]))
  }

  /** `rsplit_once` at one character: the text before and after the last one. */
  function RSplitOnce(s: string, separator: char): (r: Option<(string, string)>)
    ensures r.Some? ==> s == r.value.0 + [separator] + r.value.1 && separator !in r.value.1
    ensures r.None? <==> separator !in s
  {
    if s == [] then None
    else if s[|s| - 1] == separator then Some((s[..|s| - 1], []))
    else match RSplitOnce(s[..|s| - 1], separator)
      case None => None
      case Some(halves) => Some((halves.0, halves.1 + [s[|s| - 1]]))
  }

  lemma {:induction false} RSplitOnceIs(before: string, separator: char, after: string)
    requires separator !in after
    ensures RSplitOnce(before + [separator] + after, separator) == Some((before, after))
  {
    var s := before + [separator] + after;
    if after == [] {
      assert s[..|s| - 1] == before;
    } else {
      var shorter := after[..|after| - 1];
      assert s[..|s| - 1] == before + [separator] + shorter;
      assert after == shorter + [after[|after| - 1]];
      RSplitOnceIs(before, separator, shorter);
    }
  }

  /** `split`: the pieces between non-overlapping separators, left to right. */
  function Split(s: string, separator: string): (r: seq<string>)
    requires separator != []
    ensures r != []
  {
    match Find(s, separator)
    case None => [s]
    case Some(i) => [s[..i]] + Split(s[i + |separator|..], separator)
  }

  /** The characters with the Unicode White_Space property. */
  predicate IsWhitespace(c: char) {
    var n := c as int;
    || 0x09 <= n <= 0x0d || n == 0x20 || n == 0x85 || n == 0xa0 || n == 0x1680
    || 0x2000 <= n <= 0x200a || n == 0x2028 || n == 0x2029 || n == 0x202f || n == 0x205f || n == 0x3000
  }

  function TrimStart(s: string, drop: char -> bool): (r: string)
    ensures r != [] ==> !drop(r[0])
  {
    if s != [] && drop(s[0]) then TrimStart(s[1..], drop) else s
  }

  function TrimEnd(s: string, drop: char -> bool): (r: string)
    ensures |r| <= |s| && r == s[..|r|]
    ensures r != [] ==> !drop(r[|r| - 1])
  {
    if s != [] && drop(s[|s| - 1]) then TrimEnd(s[..|s| - 1], drop) else s
  }

  /** `trim_matches`. */
  function TrimMatches(s: string, drop: char -> bool): string {
    TrimEnd(TrimStart(s, drop), drop)
  }

  function Trim(s: string): string { TrimMatches(s, IsWhitespace) }

  lemma {:induction false} TrimStartIsEmpty(s: string, drop: char -> bool)
    ensures TrimStart(s, drop) == [] <==> forall i :: 0 <= i < |s| ==> drop(s[i])
  {
    if s != [] && drop(s[0]) {
      TrimStartIsEmpty(s[1..], drop);
      assert forall i :: 0 < i < |s| ==> s[i] == s[1..][i - 1];
    }
  }

  /** Nothing is left exactly when everything is dropped. */
  lemma TrimMatchesIsEmpty(s: string, drop: char -> bool)
    ensures TrimMatches(s, drop) == [] <==> forall i :: 0 <= i < |s| ==> drop(s[i])
  {
    TrimStartIsEmpty(s, drop);
    var rest := TrimStart(s, drop);
    if rest != [] {
      TrimEndKeepsFirst(rest, drop);
    }
  }

  lemma {:induction false} TrimEndKeepsFirst(s: string, drop: char -> bool)
    requires s != [] && !drop(s[0])
    ensures TrimEnd(s, drop) != []
  {
    if drop(s[|s| - 1]) {
      TrimEndKeepsFirst(s[..|s| - 1], drop);
    }
  }

  lemma {:induction false} TrimStartIs(front: string, rest: string, drop: char -> bool)
    requires forall i :: 0 <= i < |front| ==> drop(front[i])
    requires rest != [] && !drop(rest[0])
    ensures TrimStart(front + rest, drop) == rest
  {
    var s := front + rest;
    if front == [] {
      assert s == rest;
    } else {
      assert s[1..] == front[1..] + rest;
      TrimStartIs(front[1..], rest, drop);
    }
  }

  lemma {:induction false} TrimEndIs(rest: string, back: string, drop: char -> bool)
    requires forall i :: 0 <= i < |back| ==> drop(back[i])
    requires rest != [] && !drop(rest[|rest| - 1])
    ensures TrimEnd(rest + back, drop) == rest
  {
    var s := rest + back;
    if back == [] {
      assert s == rest;
    } else {
      assert s[..|s| - 1] == rest + back[..|back| - 1];
      TrimEndIs(rest, back[..|back| - 1], drop);
    }
  }

  /** What is dropped is exactly what stands around the first and the last character kept. */
  lemma TrimMatchesIs(front: string, middle: string, back: string, drop: char -> bool)
    requires forall i :: 0 <= i < |front| ==> drop(front[i])
    requires forall i :: 0 <= i < |back| ==> drop(back[i])
    requires middle != [] && !drop(middle[0]) && !drop(middle[|middle| - 1])
    ensures TrimMatches(front + middle + back, drop) == middle
  {
    assert front + middle + back == front + (middle + back);
    TrimStartIs(front, middle + back, drop);
    TrimEndIs(middle, back, drop);
  }

  lemma TrimNothing(s: string, drop: char -> bool)
    requires s != [] ==> !drop(s[0]) && !drop(s[|s| - 1])
    ensures TrimMatches(s, drop) == s
  {
    if s != [] {
      assert [] + s + [] == s;
      TrimMatchesIs([], s, [], drop);
    }
  }

  lemma TrimOneInFront(c: char, s: string, drop: char -> bool)
    requires drop(c) && s != [] && !drop(s[0]) && !drop(s[|s| - 1])
    ensures TrimMatches([c] + s, drop) == s
  {
    assert [c] + s + [] == [c] + s;
    TrimMatchesIs([c], s, [], drop);
  }

  /** The length of the longest front part without whitespace. */
  function WordLength(s: string): (n: nat)
    ensures n <= |s| && forall i :: 0 <= i < n ==> !IsWhitespace(s[i])
    ensures n < |s| ==> IsWhitespace(s[n])
  {
    if s == [] || IsWhitespace(s[0]) then 0 else 1 + WordLength(s[1..])
  }

  /** `split_whitespace`. */
  function Words(s: string): (r: seq<string>)
    ensures forall w :: w in r ==> w != [] && forall i :: 0 <= i < |w| ==> !IsWhitespace(w[i])
    decreases |s|
  {
    if s == [] then []
    else if IsWhitespace(s[0]) then Words(s[1..])
    else [s[..WordLength(s)]] + Words(s[WordLength(s)..])
  }

  lemma WordsOfOneWord(s: string)
    requires s != [] && forall i :: 0 <= i < |s| ==> !IsWhitespace(s[i])
    ensures Words(s) == [s]
  {
    var n := WordLength(s);
    assert n == |s|;
    assert s[..n] == s;
    var rest := s[n..];
    assert rest == [] && Words(rest) == [];
  }

  /** A whitespace character ends a word and is part of none. */
  lemma {:induction false} WordsJoin(a: string, c: char, b: string)
    requires IsWhitespace(c)
    ensures Words(a + [c] + b) == Words(a) + Words(b)
    decreases |a|
  {
    hide *;
    if a == [] {
      NoWords();
      SpaceInFront(c, b);
      assert a + [c] + b == [c] + b;
    } else if IsWhitespace(a[0]) {
      SpaceInFront(a[0], a[1..]);
      SpaceInFront(a[0], a[1..] + [c] + b);
      WordsJoin(a[1..], c, b);
      assert a == [a[0]] + a[1..];
      assert a + [c] + b == [a[0]] + (a[1..] + [c] + b);
    } else {
      var word, rest := FirstWord(a);
      FirstWordEnds(word, rest + [c] + b);
      FirstWordEnds(word, rest);
      WordsJoin(rest, c, b);
      assert a + [c] + b == word + (rest + [c] + b);
    }
  }

  lemma NoWords()
    ensures Words([]) == []
  {
  }

  lemma SpaceInFront(c: char, rest: string)
    requires IsWhitespace(c)
    ensures Words([c] + rest) == Words(rest)
  {
    assert ([c] + rest)[1..] == rest;
  }

  lemma FirstWord(a: string) returns (word: string, rest: string)
    requires a != [] && !IsWhitespace(a[0])
    ensures a == word + rest && word != [] && (forall i :: 0 <= i < |word| ==> !IsWhitespace(word[i]))
    ensures rest != [] ==> IsWhitespace(rest[0])
  {
    hide IsWhitespace;
    word, rest := a[..WordLength(a)], a[WordLength(a)..];
  }

  lemma FirstWordEnds(word: string, rest: string)
    requires word != [] && forall i :: 0 <= i < |word| ==> !IsWhitespace(word[i])
    requires rest != [] ==> IsWhitespace(rest[0])
    ensures Words(word + rest) == [word] + Words(rest)
  {
    hide IsWhitespace;
    var s := word + rest;
    assert forall i :: 0 <= i < |word| ==> s[i] == word[i];
    assert rest != [] ==> s[|word|] == rest[0];
    assert WordLength(s) == |word|;
    assert s[..|word|] == word && s[|word|..] == rest;
  }

  lemma WordsOfFirstWord(word: string, c: char, rest: string)
    requires word != [] && forall i :: 0 <= i < |word| ==> !IsWhitespace(word[i])
    requires IsWhitespace(c)
    ensures Words(word + [c] + rest) == [word] + Words(rest)
  {
    WordsJoin(word, c, rest);
    WordsOfOneWord(word);
  }

  /** The first character of `s` that is one of `stops`, as a cut position. */
  function FindAny(s: string, stops: string): (n: nat)
    ensures n <= |s| && forall i :: 0 <= i < n ==> s[i] !in stops
    ensures n < |s| ==> s[n] in stops
  {
    if s == [] || s[0] in stops then 0 else 1 + FindAny(s[1..], stops)
  }

  /** `concat`. */
  function Flatten<T>(parts: seq<seq<T>>): seq<T> {
    if parts == [] then [] else parts[0] + Flatten(parts[1..])
  }

  lemma FlattenFirst<T>(parts: seq<seq<T>>)
    ensures parts == [] ==> Flatten(parts) == []
    ensures parts != [] ==> Flatten(parts) == parts[0] + Flatten(parts[1..])
  {
  }

  lemma FlattenCons<T>(part: seq<T>, parts: seq<seq<T>>)
    ensures Flatten([part] + parts) == part + Flatten(parts)
  {
    assert ([part] + parts)[1..] == parts;
  }

  lemma {:induction false} FlattenPushed<T>(parts: seq<seq<T>>, part: seq<T>)
    ensures Flatten(parts + [part]) == Flatten(parts) + part
  {
    if parts == [] {
      assert [part][1..] == [];
    } else {
      assert (parts + [part])[0] == parts[0] && (parts + [part])[1..] == parts[1..] + [part];
      FlattenPushed(parts[1..], part);
      assert Flatten(parts + [part]) == parts[0] + (Flatten(parts[1..]) + part);
    }
  }
}
