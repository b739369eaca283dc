/** Quoting for the remote POSIX shell (src/shell.rs) and the dashboard command that
    is composed with it (src/bin/plugin/lifecycle.rs), against the token rules of
    sections 2.2.1 and 2.2.2 of the POSIX Shell Command Language. */
module Shell {
  import opened Wrappers

  // ---------------------------------------------------------------------------
  // How a shell reads a command line
  // ---------------------------------------------------------------------------

  /** Characters that mean something to the shell when they are not quoted. A line that
      has one of them unquoted is not read any further here. */
  predicate Special(c: char) {
    || c == '|' || c == '&' || c == ';' || c == '<' || c == '>' || c == '(' || c == ')' || c == '$' || c == '`'
    || c == '"' || c == '*' || c == '?' || c == '[' || c == ']' || c == '#' || c == '~' || c == '{' || c == '}'
    || c == '!' || c == '\n' || c == '\0'
  }

  predicate IsBlank(c: char) { c == ' ' || c == '\t' }

  function TextOf(word: Option<string>): string { if word.Some? then word.value else "" }

  function WordEnds(word: Option<string>, rest: Option<seq<string>>): Option<seq<string>> {
    if rest.None? then None else if word.None? then rest else Some([word.value] + rest.value)
  }

  /** The words of a line after quote removal; `word` is the one being read. */
  function Lex(line: string, word: Option<string>): Option<seq<string>>
    decreases |line|, 0
  {
    if line == [] then WordEnds(word, Some([]))
    else if IsBlank(line[0]) then WordEnds(word, Lex(line[1..], None))
    else if line[0] == '\'' then LexQuoted(line[1..], TextOf(word))
    else if line[0] == '\\' then
      if |line| == 1 then None
      else if line[1] == '\n' then Lex(line[2..], word)
      else if line[1] == '\0' then None
      else Lex(line[2..], Some(TextOf(word) + [line[1]]))
    else if Special(line[0]) then None
    else Lex(line[1..], Some(TextOf(word) + [line[0]]))
  }

  /** Between single quotes every character stands for itself. */
  function LexQuoted(line: string, text: string): Option<seq<string>>
    decreases |line|, 1
  {
    if line == [] || line[0] == '\0' then None
    else if line[0] == '\'' then Lex(line[1..], Some(text))
    else LexQuoted(line[1..], text + [line[0]])
  }

  // ---------------------------------------------------------------------------
  // Quoting
  // ---------------------------------------------------------------------------

  const QUOTED_QUOTE := "'\\''"

  function Escape(value: string): string {
    if value == [] then [] else (if value[0] == '\'' then QUOTED_QUOTE else [value[0]]) + Escape(value[1..])
  }

  function Quote(value: string): string { "'" + Escape(value) + "'" }

  /** Inside quotes the escaped text is read as the text, up to a NUL. */
  lemma {:induction false} EscapedIsRead(value: string, rest: string, text: string)
    ensures LexQuoted(Escape(value) + "'" + rest, text) ==
            if '\0' in value then None else Lex(rest, Some(text + value))
  {
    var line := Escape(value) + "'" + rest;
    if value == [] {
      assert line == "'" + rest && line[1..] == rest;
      assert text + value == text;
    } else {
      var tail := Escape(value[1..]) + "'" + rest;
      assert value == [value[0]] + value[1..];
      EscapedIsRead(value[1..], rest, text + [value[0]]);
      assert (text + [value[0]]) + value[1..] == text + value;
      if value[0] == '\'' {
        assert line == QUOTED_QUOTE + tail;
        QuoteIsRead(tail, text);
      } else {
        assert line == [value[0]] + tail && line[1..] == tail;
      }
    }
  }

  /** An escaped quote: the quotes are closed, a quote is read, they are opened again. */
  lemma QuoteIsRead(tail: string, text: string)
    ensures LexQuoted(QUOTED_QUOTE + tail, text) == LexQuoted(tail, text + ['\''])
  {
    var line := QUOTED_QUOTE + tail;
    var behind := "'" + tail;
    var middle := "\\''" + tail;
    assert line[0] == '\'' && line[1..] == middle;
    assert middle[0] == '\\' && middle[1] == '\'' && middle[2..] == behind && behind[1..] == tail;
    assert LexQuoted(line, text) == Lex(middle, Some(text));
    assert Lex(middle, Some(text)) == Lex(behind, Some(text + ['\'']));
    assert Lex(behind, Some(text + ['\''])) == LexQuoted(tail, text + ['\'']);
  }

  lemma QuotedWord(value: string, rest: string, word: Option<string>)
    ensures Lex(Quote(value) + rest, word) ==
            if '\0' in value then None else Lex(rest, Some(TextOf(word) + value))
  {
    var line := Quote(value) + rest;
    assert line[1..] == Escape(value) + "'" + rest;
    EscapedIsRead(value, rest, TextOf(word));
  }

  /** A shell reads a quoted text as one word, the text itself, if and only if it has
      no NUL. */
  lemma QuoteRoundTrip(value: string)
    ensures Lex(Quote(value), None) == Some([value]) <==> '\0' !in value
  {
    hide Quote, Lex;
    assert Quote(value) + "" == Quote(value);
    QuotedWord(value, "", None);
    EndOfLine(value);
    assert TextOf(None) + value == value;
  }

  // ---------------------------------------------------------------------------
  // The composed command
  // ---------------------------------------------------------------------------

  predicate Ordinary(c: char) { !Special(c) && !IsBlank(c) && c != '\'' && c != '\\' }

  lemma {:induction false} OrdinaryIsRead(text: string, rest: string, word: Option<string>)
    requires text != [] && forall i :: 0 <= i < |text| ==> Ordinary(text[i])
    ensures Lex(text + rest, word) == Lex(rest, Some(TextOf(word) + text))
  {
    hide Special;
    var line := text + rest;
    var first := Some(TextOf(word) + [text[0]]);
    if |text| == 1 {
      assert line[1..] == rest && text == [text[0]];
    } else {
      assert line[1..] == text[1..] + rest;
      OrdinaryIsRead(text[1..], rest, first);
      assert TextOf(first) + text[1..] == TextOf(word) + text;
    }
  }

  lemma BlankEndsWord(rest: string, word: Option<string>)
    ensures Lex(" " + rest, word) == WordEnds(word, Lex(rest, None))
  {
    assert (" " + rest)[1..] == rest;
  }

  const VARIABLE := "HERDR_PLUGIN_CONFIG_DIR="

  /** `dashboard_command_with_config`. */
  function DashboardCommand(executable: string, session: string, directory: Option<string>): string {
    (if directory.Some? then VARIABLE + Quote(directory.value) + " " else "")
    + Quote(executable) + " " + "dashboard" + " " + Quote(session)
  }

  predicate NulFree(s: string) { '\0' !in s }

  lemma ConstantsAreOrdinary()
    ensures forall i :: 0 <= i < |VARIABLE| ==> Ordinary(VARIABLE[i])
    ensures forall i :: 0 <= i < |"dashboard"| ==> Ordinary("dashboard"[i])
  {
  }

  lemma CommandWords(executable: string, session: string)
    requires NulFree(executable) && NulFree(session)
    ensures Lex(Quote(executable) + " " + "dashboard" + " " + Quote(session), None) == Some([executable,
              "dashboard", session])
  {
    hide Lex, Quote, Ordinary;
    ConstantsAreOrdinary();
    var last := Quote(session) + "";
    assert last == Quote(session);
    QuotedWord(session, "", None);
    EndOfLine(session);
    OrdinaryIsRead("dashboard", " " + last, None);
    BlankEndsWord(last, Some("dashboard"));
    QuotedWord(executable, " " + ("dashboard" + (" " + last)), None);
    BlankEndsWord("dashboard" + (" " + last), Some(executable));
    assert TextOf(None) + executable == executable && TextOf(None) + session == session;
    assert TextOf(None) + "dashboard" == "dashboard";
    assert Quote(executable) + " " + "dashboard" + " " + Quote(session) ==
           Quote(executable) + (" " + ("dashboard" + (" " + last)));
    assert [executable] + (["dashboard"] + [session]) == [executable, "dashboard", session];
  }

  lemma EndOfLine(word: string)
    ensures Lex("", Some(word)) == Some([word])
  {
    assert [word] + [] == [word];
  }

  /** The shell runs exactly the intended words, whatever the paths contain. */
  lemma DashboardCommandRoundTrip(executable: string, session: string, directory: Option<string>)
    requires NulFree(executable) && NulFree(session) && (directory.Some? ==> NulFree(directory.value))
    ensures Lex(DashboardCommand(executable, session, directory), None) ==
            Some((if directory.Some? then [VARIABLE + directory.value] else []) + [executable, "dashboard", session])
  {
    hide Lex, Quote, Ordinary;
    CommandWords(executable, session);
    var command := Quote(executable) + " " + "dashboard" + " " + Quote(session);
    if directory.None? {
      assert DashboardCommand(executable, session, directory) == "" + Quote(executable) + " " + "dashboard" +
               " " + Quote(session) == command;
      assert [] + [executable, "dashboard", session] == [executable, "dashboard", session];
    } else {
      ConstantsAreOrdinary();
      var rest := Quote(directory.value) + (" " + command);
      OrdinaryIsRead(VARIABLE, rest, None);
      QuotedWord(directory.value, " " + command, Some(TextOf(None) + VARIABLE));
      BlankEndsWord(command, Some(TextOf(None) + VARIABLE + directory.value));
      assert TextOf(None) + VARIABLE == VARIABLE;
      assert TextOf(Some(TextOf(None) + VARIABLE)) + directory.value == VARIABLE + directory.value;
      var words := [executable, "dashboard", session];
      assert DashboardCommand(executable, session, directory) == VARIABLE + rest;
      assert Lex(" " + command, Some(VARIABLE + directory.value)) == Some([VARIABLE + directory.value] + words);
    }
  }
}
