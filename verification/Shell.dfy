/** Quoting words for the shell, and splitting a command line back into its simple commands. */
module Shell {
  import opened Options
  import opened Collections

  /** `shell_quote`: single quotes, with each quote inside closed, escaped and reopened. */
  function Quote(value: string): string { "'" + Escaped(value) + "'" }

  function Escaped(value: string): string {
    if value == "" then "" else (if value[0] == '\'' then "'\\''" else [value[0]]) + Escaped(value[1..])
  }

  function Joined(parts: seq<string>, separator: string): string {
    if parts == [] then ""
    else if |parts| == 1 then parts[0]
    else parts[0] + separator + Joined(parts[1..], separator)
  }

  function QuotedWords(words: seq<string>): seq<string> { seq(|words|, i requires 0 <= i < |words| => Quote(words[i])) }

  /** A simple command: every word quoted, joined with spaces. */
  function Command(words: seq<string>): string { Joined(QuotedWords(words), " ") }

  /** A list of commands, each run only if the one before succeeded. */
  function Script(commands: seq<seq<string>>): string {
    Joined(seq(|commands|, i requires 0 <= i < |commands| => Command(commands[i])), " && ")
  }

  /** White space as Unicode defines it. */
  predicate IsWhitespace(c: char) {
    var n := c as int;
    || 9 <= n <= 13 || n == 32 || n == 0x85 || n == 0xA0 || n == 0x1680 || 0x2000 <= n <= 0x200A
    || n == 0x2028 || n == 0x2029 || n == 0x202F || n == 0x205F || n == 0x3000
  }

  predicate IsSeparator(c: char) { c in ";|&()" }

  datatype Scanner = Scanner(
    segments: seq<seq<string>>, segment: seq<string>, word: string, quote: Option<char>, escaped: bool)

  const START := Scanner([], [], "", None, false)

  function FlushWord(s: Scanner): Scanner {
    if s.word == "" then s else s.(segment := s.segment + [s.word], word := "")
  }

  function FlushSegment(s: Scanner): Scanner {
    if s.segment == [] then s else s.(segments := s.segments + [s.segment], segment := [])
  }

  /** What one character does. */
  function Step(s: Scanner, c: char): Scanner {
    if s.escaped then s.(word := s.word + [c], escaped := false)
    else if s.quote.Some? then
      if c == s.quote.value then s.(quote := None)
      else if s.quote.value == '"' && c == '\\' then s.(escaped := true)
      else s.(word := s.word + [c])
    else if c == '\\' then s.(escaped := true)
    else if c == '\'' || c == '"' then s.(quote := Some(c))
    else if IsWhitespace(c) then FlushWord(s)
    else if IsSeparator(c) then FlushSegment(FlushWord(s))
    else s.(word := s.word + [c])
  }

  function Scan(s: Scanner, text: string): Scanner
    decreases |text|
  {
    if text == "" then s else Scan(Step(s, text[0]), text[1..])
  }

  function Finish(s: Scanner): seq<seq<string>> {
    FlushSegment(FlushWord(if s.escaped then s.(word := s.word + "\\") else s)).segments
  }

  /** `shell_command_segments`, one character at a time. */
  function Segments(text: string): seq<seq<string>> { Finish(Scan(START, text)) }

  /** The loop of the source. */
  method ShellCommandSegments(command: string) returns (segments: seq<seq<string>>)
    ensures segments == Segments(command)
  {
    segments := [];
    var segment: seq<string> := [];
    var word := "";
    var quote: Option<char> := None;
    var escaped := false;
    for i := 0 to |command|
      invariant Scan(Scanner(segments, segment, word, quote, escaped), command[i..]) == Scan(START, command)
    {
      var c := command[i];
      assert command[i..][0] == c && command[i..][1..] == command[i + 1..];
      if escaped {
        word := word + [c];
        escaped := false;
        continue;
      }
      match quote
      case Some(q) =>
        if c == q {
          quote := None;
        } else if q == '"' && c == '\\' {
          escaped := true;
        } else {
          word := word + [c];
        }
      case None =>
        if c == '\\' {
          escaped := true;
        } else if c == '\'' || c == '"' {
          quote := Some(c);
        } else if IsWhitespace(c) {
          if word != "" {
            segment := segment + [word];
            word := "";
          }
        } else if IsSeparator(c) {
          if word != "" {
            segment := segment + [word];
            word := "";
          }
          if segment != [] {
            segments := segments + [segment];
            segment := [];
          }
        } else {
          word := word + [c];
        }
    }
    if escaped {
      word := word + "\\";
    }
    if word != "" {
      segment := segment + [word];
    }
    if segment != [] {
      segments := segments + [segment];
    }
  }

  // ---- the round trip ----

  lemma {:induction false} ScanAppends(s: Scanner, a: string, b: string)
    ensures Scan(s, a + b) == Scan(Scan(s, a), b)
    decreases |a|
  {
    if a == "" {
      assert a + b == b;
    } else {
      assert (a + b)[0] == a[0] && (a + b)[1..] == a[1..] + b;
      ScanAppends(Step(s, a[0]), a[1..], b);
    }
  }

  predicate Plain(s: Scanner) { s.quote.None? && !s.escaped }

  /** Inside single quotes an escaped value is read back literally. */
  lemma {:induction false} ScanEscaped(s: Scanner, value: string)
    requires s.quote == Some('\'') && !s.escaped
    ensures Scan(s, Escaped(value)) == s.(word := s.word + value)
    decreases |value|
  {
    if value == "" {
      assert s.word + value == s.word;
    } else {
      var first := if value[0] == '\'' then "'\\''" else [value[0]];
      ScanAppends(s, first, Escaped(value[1..]));
      var s1 := s.(word := s.word + [value[0]]);
      assert Scan(s, first) == s1 by {
        if value[0] == '\'' {
          ScanQuoteMark(s);
        } else {
          assert first[1..] == "";
        }
      }
      ScanEscaped(s1, value[1..]);
      assert s1.word + value[1..] == s.word + value;
    }
  }

  lemma ScanQuoteMark(s: Scanner)
    requires s.quote == Some('\'') && !s.escaped
    ensures Scan(s, "'\\''") == s.(word := s.word + "'")
  {
    var closed := s.(quote := None);
    var text := "'\\''";
    assert text[1..] == "\\''" && text[1..][1..] == "''" && text[1..][1..][1..] == "'";
    assert Scan(closed.(word := s.word + "'"), "'") == s.(word := s.word + "'");
    assert Scan(closed.(escaped := true), "''") == Scan(closed.(word := s.word + "'"), "'");
    assert Scan(closed, "\\''") == Scan(closed.(escaped := true), "''");
  }

  lemma ScanQuoted(s: Scanner, value: string)
    requires Plain(s)
    ensures Scan(s, Quote(value)) == s.(word := s.word + value)
  {
    var inside := s.(quote := Some('\''));
    assert Quote(value)[1..] == Escaped(value) + "'";
    ScanAppends(inside, Escaped(value), "'");
    ScanEscaped(inside, value);
    var read := inside.(word := s.word + value);
    assert Scan(read, "'") == Step(read, '\'');
  }

  /** What a scanner does with the words of a command: it drops the empty ones. */
  function NonEmptyWords(words: seq<string>): seq<string> {
    if words == [] then [] else (if words[0] == "" then [] else [words[0]]) + NonEmptyWords(words[1..])
  }

  function NonEmptyCommands(commands: seq<seq<string>>): seq<seq<string>> {
    if commands == [] then []
    else
      var words := NonEmptyWords(commands[0]);
      (if words == [] then [] else [words]) + NonEmptyCommands(commands[1..])
  }

  lemma QuotedTail(words: seq<string>)
    requires words != []
    ensures QuotedWords(words)[1..] == QuotedWords(words[1..])
  {
  }

  lemma {:induction false} ScanCommand(s: Scanner, words: seq<string>)
    requires Plain(s) && s.word == ""
    ensures FlushWord(Scan(s, Command(words))) == s.(segment := s.segment + NonEmptyWords(words))
    ensures Plain(Scan(s, Command(words)))
    decreases |words|
  {
    if words == [] {
      assert s.segment + [] == s.segment;
    } else if |words| == 1 {
      ScanOnlyWord(s, words);
    } else {
      ScanNextWord(s, words);
      ScanCommand(FlushWord(s.(word := words[0])), words[1..]);
      NextWords(s.segment, words);
    }
  }

  lemma NextWords(segment: seq<string>, words: seq<string>)
    requires words != []
    ensures (if words[0] == "" then segment else segment + [words[0]]) + NonEmptyWords(words[1..]) == segment + NonEmptyWords(words)
  {
    var rest := NonEmptyWords(words[1..]);
    if words[0] == "" {
      assert [] + rest == rest;
    } else {
      Regroup(segment, [words[0]], rest);
    }
  }

  lemma ScanOnlyWord(s: Scanner, words: seq<string>)
    requires Plain(s) && s.word == "" && |words| == 1
    ensures FlushWord(Scan(s, Command(words))) == s.(segment := s.segment + NonEmptyWords(words))
    ensures Plain(Scan(s, Command(words)))
  {
    ScanQuoted(s, words[0]);
    assert s.word + words[0] == words[0];
    assert Command(words) == Quote(words[0]);
    assert words[1..] == [] && s.segment + [] == s.segment;
  }

  /** The space after a word flushes it. */
  lemma ScanNextWord(s: Scanner, words: seq<string>)
    requires Plain(s) && s.word == "" && |words| > 1
    ensures Scan(s, Command(words)) == Scan(FlushWord(s.(word := words[0])), Command(words[1..]))
  {
    var read := s.(word := words[0]);
    ScanQuoted(s, words[0]);
    assert s.word + words[0] == words[0];
    QuotedTail(words);
    assert Command(words) == Quote(words[0]) + (" " + Command(words[1..]));
    ScanAppends(s, Quote(words[0]), " " + Command(words[1..]));
    assert (" " + Command(words[1..]))[1..] == Command(words[1..]);
    assert Step(read, ' ') == FlushWord(read);
  }

  lemma ScanAnd(s: Scanner)
    requires Plain(s)
    ensures Scan(s, " && ") == FlushSegment(FlushWord(s))
  {
    var text := " && ";
    assert text[1..] == "&& " && text[1..][1..] == "& " && text[1..][1..][1..] == " ";
    var s1 := FlushWord(s);
    var s2 := FlushSegment(s1);
    assert Step(s, ' ') == s1;
    assert Step(s1, '&') == s2;
    assert Step(s2, '&') == s2 && Step(s2, ' ') == s2;
    assert Scan(s2, " ") == s2;
    assert Scan(s2, "& ") == s2;
    assert Scan(s1, "&& ") == s2;
  }

  lemma ScriptTail(commands: seq<seq<string>>)
    requires |commands| > 1
    ensures Script(commands) == Command(commands[0]) + (" && " + Script(commands[1..]))
  {
    var texts := seq(|commands|, i requires 0 <= i < |commands| => Command(commands[i]));
    assert texts[1..] == seq(|commands| - 1, i requires 0 <= i < |commands| - 1 => Command(commands[1..][i]));
  }

  /** The end of a command, of the script or before the next one, closes its segment. */
  lemma ScanFirstCommand(s: Scanner, words: seq<string>)
    requires Plain(s) && s.word == "" && s.segment == []
    ensures Plain(Scan(s, Command(words)))
    ensures FlushSegment(FlushWord(Scan(s, Command(words))))
         == s.(segments := s.segments + if NonEmptyWords(words) == [] then [] else [NonEmptyWords(words)])
  {
    ScanCommand(s, words);
    assert [] + NonEmptyWords(words) == NonEmptyWords(words);
    assert s.segments + [] == s.segments;
  }

  lemma ScanAndRest(s: Scanner, words: seq<string>, rest: string)
    requires Plain(s) && s.word == "" && s.segment == []
    ensures Scan(s, Command(words) + (" && " + rest))
         == Scan(s.(segments := s.segments + if NonEmptyWords(words) == [] then [] else [NonEmptyWords(words)]), rest)
  {
    var s1 := Scan(s, Command(words));
    ScanAppends(s, Command(words), " && " + rest);
    ScanAppends(s1, " && ", rest);
    ScanFirstCommand(s, words);
    ScanAnd(s1);
  }

  lemma ScanLastCommand(s: Scanner, words: seq<string>)
    requires Plain(s) && s.word == "" && s.segment == []
    ensures Finish(Scan(s, Script([words])))
         == s.segments + if NonEmptyWords(words) == [] then [] else [NonEmptyWords(words)]
  {
    assert Script([words]) == Command(words);
    ScanFirstCommand(s, words);
  }

  lemma {:induction false} ScanScript(s: Scanner, commands: seq<seq<string>>)
    requires Plain(s) && s.word == "" && s.segment == []
    ensures Finish(Scan(s, Script(commands))) == s.segments + NonEmptyCommands(commands)
    decreases |commands|
  {
    if commands == [] {
      assert s.segments + [] == s.segments;
    } else {
      var first := if NonEmptyWords(commands[0]) == [] then [] else [NonEmptyWords(commands[0])];
      assert NonEmptyCommands(commands) == first + NonEmptyCommands(commands[1..]);
      if |commands| == 1 {
        assert commands == [commands[0]] && commands[1..] == [];
        assert first + [] == first;
        ScanLastCommand(s, commands[0]);
      } else {
        ScriptTail(commands);
        ScanAndRest(s, commands[0], Script(commands[1..]));
        ScanScript(s.(segments := s.segments + first), commands[1..]);
        Regroup(s.segments, first, NonEmptyCommands(commands[1..]));
      }
    }
  }

  /** Splitting a script of quoted commands gives back exactly its commands, whatever
      characters the words hold - except that empty words, and commands left with no word,
      are dropped. */
  lemma SegmentsOfScript(commands: seq<seq<string>>)
    ensures Segments(Script(commands)) == NonEmptyCommands(commands)
  {
    ScanScript(START, commands);
  }

  predicate AllNonEmpty(words: seq<string>) { forall w | w in words :: w != "" }

  predicate Faithful(commands: seq<seq<string>>) { forall c | c in commands :: c != [] && AllNonEmpty(c) }

  lemma {:induction false} NonEmptyWordsKeeps(words: seq<string>)
    ensures AllNonEmpty(NonEmptyWords(words)) && |NonEmptyWords(words)| <= |words|
    ensures AllNonEmpty(words) ==> NonEmptyWords(words) == words
  {
    if words != [] {
      NonEmptyWordsKeeps(words[1..]);
      assert words == [words[0]] + words[1..];
      if AllNonEmpty(words) {
        assert words[0] in words && forall w | w in words[1..] :: w in words;
        assert NonEmptyWords(words) == [words[0]] + NonEmptyWords(words[1..]);
      }
    }
  }

  lemma {:induction false} NonEmptyCommandsKeeps(commands: seq<seq<string>>)
    ensures Faithful(NonEmptyCommands(commands))
    ensures Faithful(commands) ==> NonEmptyCommands(commands) == commands
  {
    if commands != [] {
      NonEmptyCommandsKeeps(commands[1..]);
      NonEmptyWordsKeeps(commands[0]);
      assert commands == [commands[0]] + commands[1..];
      if Faithful(commands) {
        assert commands[0] in commands && forall c | c in commands[1..] :: c in commands;
        assert NonEmptyCommands(commands) == [commands[0]] + NonEmptyCommands(commands[1..]);
      }
    }
  }

  /** The round trip holds exactly for non-empty commands of non-empty words. */
  lemma RoundTripIff(commands: seq<seq<string>>)
    ensures Segments(Script(commands)) == commands <==> Faithful(commands)
  {
    SegmentsOfScript(commands);
    NonEmptyCommandsKeeps(commands);
  }
}
