/** Reading a command line: every text is a sequence of quoted and unquoted pieces, white space
    and separators, and the scanner makes of it what the pieces mean. */
module ShellTokens {
  import opened Options
  import opened Collections
  import opened Shell

  /** A character inside double quotes, with a backslash before it or not. */
  datatype Quoted = Quoted(escaped: bool, c: char)

  datatype Token =
    | Bare(c: char)
    | Escape(c: char)
    | Single(text: string)
    | Double(chars: seq<Quoted>)
    | Space(c: char)
    | Separator(c: char)

  /** How a text may stop short: after a backslash, or inside a quotation. */
  datatype End =
    | Complete
    | Backslash
    | OpenSingle(text: string)
    | OpenDouble(chars: seq<Quoted>, backslash: bool)

  predicate ProperChars(chars: seq<Quoted>) {
    forall q | q in chars && !q.escaped :: q.c != '"' && q.c != '\\'
  }

  predicate ProperToken(t: Token) {
    match t
    case Bare(c) => c != '\\' && c != '\'' && c != '"' && !IsWhitespace(c) && c !in ";|&()"
    case Escape(_) => true
    case Single(text) => forall c | c in text :: c != '\''
    case Double(chars) => ProperChars(chars)
    case Space(c) => IsWhitespace(c)
    case Separator(c) => c in ";|&()"
  }

  predicate ProperEnd(end: End) {
    match end
    case OpenSingle(text) => forall c | c in text :: c != '\''
    case OpenDouble(chars, _) => ProperChars(chars)
    case _ => true
  }

  // ---- how the pieces are written ----

  function WrittenChars(chars: seq<Quoted>): string {
    if chars == [] then "" else (if chars[0].escaped then ['\\', chars[0].c] else [chars[0].c]) + WrittenChars(chars[1..])
  }

  function WrittenToken(t: Token): string {
    match t
    case Bare(c) => [c]
    case Escape(c) => ['\\', c]
    case Single(text) => "'" + (text + "'")
    case Double(chars) => "\"" + (WrittenChars(chars) + "\"")
    case Space(c) => [c]
    case Separator(c) => [c]
  }

  function WrittenEnd(end: End): string {
    match end
    case Complete => ""
    case Backslash => "\\"
    case OpenSingle(text) => "'" + text
    case OpenDouble(chars, backslash) => "\"" + (WrittenChars(chars) + if backslash then "\\" else "")
  }

  function Written(tokens: seq<Token>, end: End): string {
    if tokens == [] then WrittenEnd(end) else WrittenToken(tokens[0]) + Written(tokens[1..], end)
  }

  // ---- what they mean ----

  function PlainChars(chars: seq<Quoted>): string {
    if chars == [] then "" else [chars[0].c] + PlainChars(chars[1..])
  }

  /** The text a piece adds to the word it stands in. */
  function TextOf(t: Token): string {
    match t
    case Bare(c) => [c]
    case Escape(c) => [c]
    case Single(text) => text
    case Double(chars) => PlainChars(chars)
    case _ => ""
  }

  function EndText(end: End): string {
    match end
    case Complete => ""
    case Backslash => "\\"
    case OpenSingle(text) => text
    case OpenDouble(chars, backslash) => PlainChars(chars) + if backslash then "\\" else ""
  }

  /** The commands, each a list of words, before the empty ones are dropped: separators end
      commands, white space ends words, and everything else adds to the word. */
  function Commands(tokens: seq<Token>, end: End): (commands: seq<seq<string>>)
    ensures commands != [] && forall i | 0 <= i < |commands| :: commands[i] != []
  {
    if tokens == [] then [[EndText(end)]]
    else
      var rest := Commands(tokens[1..], end);
      match tokens[0]
      case Separator(_) => [[""]] + rest
      case Space(_) => [[""] + rest[0]] + rest[1..]
      case _ => [[TextOf(tokens[0]) + rest[0][0]] + rest[0][1..]] + rest[1..]
  }

  // ---- the scanner on one piece ----

  function Applied(s: Scanner, t: Token): Scanner {
    match t
    case Space(_) => FlushWord(s)
    case Separator(_) => FlushSegment(FlushWord(s))
    case _ => s.(word := s.word + TextOf(t))
  }

  lemma {:induction false} ScanPlainText(s: Scanner, text: string)
    requires s.quote == Some('\'') && !s.escaped && forall c | c in text :: c != '\''
    ensures Scan(s, text) == s.(word := s.word + text)
    decreases |text|
  {
    if text == "" {
      assert s.word + text == s.word;
    } else {
      var next := s.(word := s.word + [text[0]]);
      assert text[0] in text && forall c | c in text[1..] :: c in text;
      ScanPlainText(next, text[1..]);
      assert next.word + text[1..] == s.word + text;
    }
  }

  lemma ScanOneChar(s: Scanner, q: Quoted)
    requires s.quote == Some('"') && !s.escaped && ProperChars([q])
    ensures Scan(s, if q.escaped then ['\\', q.c] else [q.c]) == s.(word := s.word + [q.c])
  {
    assert q in [q];
    if q.escaped {
      assert ['\\', q.c][1..] == [q.c] && [q.c][1..] == "";
      assert Step(s, '\\') == s.(escaped := true);
      assert Scan(s.(escaped := true), [q.c]) == s.(word := s.word + [q.c]);
    } else {
      assert [q.c][1..] == "";
    }
  }

  lemma {:induction false} ScanChars(s: Scanner, chars: seq<Quoted>)
    requires s.quote == Some('"') && !s.escaped && ProperChars(chars)
    ensures Scan(s, WrittenChars(chars)) == s.(word := s.word + PlainChars(chars))
    decreases |chars|
  {
    if chars == [] {
      assert s.word + "" == s.word;
    } else {
      var next := s.(word := s.word + [chars[0].c]);
      var first := if chars[0].escaped then ['\\', chars[0].c] else [chars[0].c];
      assert chars[0] in chars && forall q | q in chars[1..] :: q in chars;
      ScanOneChar(s, chars[0]);
      ScanAppends(s, first, WrittenChars(chars[1..]));
      ScanChars(next, chars[1..]);
      Regroup(s.word, [chars[0].c], PlainChars(chars[1..]));
    }
  }

  lemma ScanQuotedPiece(s: Scanner, mark: char, inside: string, text: string)
    requires Plain(s) && (mark == '\'' || mark == '"')
    requires Scan(s.(quote := Some(mark)), inside) == s.(quote := Some(mark), word := s.word + text)
    ensures Scan(s, [mark] + (inside + [mark])) == s.(word := s.word + text)
  {
    var whole := [mark] + (inside + [mark]);
    assert whole[0] == mark && whole[1..] == inside + [mark];
    ScanAppends(s.(quote := Some(mark)), inside, [mark]);
    assert [mark][1..] == "";
    var read := s.(quote := Some(mark), word := s.word + text);
    assert Scan(read, [mark]) == Step(read, mark);
  }

  lemma ScanToken(s: Scanner, t: Token)
    requires Plain(s) && ProperToken(t)
    ensures Scan(s, WrittenToken(t)) == Applied(s, t)
  {
    match t
    case Single(text) =>
      ScanPlainText(s.(quote := Some('\'')), text);
      ScanQuotedPiece(s, '\'', text, text);
    case Double(chars) =>
      ScanChars(s.(quote := Some('"')), chars);
      ScanQuotedPiece(s, '"', WrittenChars(chars), PlainChars(chars));
    case Escape(c) =>
      assert ['\\', c][1..] == [c] && [c][1..] == "";
      assert Scan(s.(escaped := true), [c]) == s.(word := s.word + [c]);
    case Bare(c) => assert [c][1..] == "";
    case Space(c) => ScanMark(s, c);
    case Separator(c) => ScanMark(s, c);
  }

  lemma ScanMark(s: Scanner, c: char)
    requires Plain(s) && (IsWhitespace(c) || IsSeparator(c))
    ensures Scan(s, [c]) == if IsWhitespace(c) then FlushWord(s) else FlushSegment(FlushWord(s))
    ensures IsSeparator(c) ==> !IsWhitespace(c)
  {
    assert [c][1..] == "";
    assert Scan(s, [c]) == Step(s, c);
  }

  // ---- the scanner on the whole text ----

  /** The end of a scan adds its text to the last word. */
  lemma ScanEnd(s: Scanner, end: End)
    requires Plain(s) && ProperEnd(end)
    ensures Finish(Scan(s, WrittenEnd(end))) == Finish(s.(word := s.word + EndText(end)))
  {
    match end
    case Complete => assert s.word + "" == s.word;
    case Backslash => assert Scan(s, "\\") == s.(escaped := true);
    case OpenSingle(text) =>
      assert ("'" + text)[1..] == text;
      ScanPlainText(s.(quote := Some('\'')), text);
      assert Finish(s.(quote := Some('\''), word := s.word + text)) == Finish(s.(word := s.word + text));
    case OpenDouble(chars, backslash) => ScanOpenDouble(s, chars, backslash);
  }

  lemma ScanOpenDouble(s: Scanner, chars: seq<Quoted>, backslash: bool)
    requires Plain(s) && ProperChars(chars)
    ensures Finish(Scan(s, WrittenEnd(OpenDouble(chars, backslash)))) == Finish(s.(word := s.word + EndText(OpenDouble(chars, backslash))))
  {
    var inside := s.(quote := Some('"'));
    var last := if backslash then "\\" else "";
    var read := inside.(word := s.word + PlainChars(chars));
    assert ("\"" + (WrittenChars(chars) + last))[1..] == WrittenChars(chars) + last;
    ScanChars(inside, chars);
    ScanAppends(inside, WrittenChars(chars), last);
    FinishOpen(read, backslash);
    Regroup(s.word, PlainChars(chars), last);
    FinishLeavesQuotes(s.(word := s.word + (PlainChars(chars) + last)));
  }

  lemma FinishOpen(read: Scanner, backslash: bool)
    requires read.quote == Some('"') && !read.escaped
    ensures var last := if backslash then "\\" else "";
            Finish(Scan(read, last)) == Finish(read.(word := read.word + last))
  {
    if backslash {
      assert "\\"[1..] == "";
      assert Scan(read, "\\") == read.(escaped := true);
    } else {
      assert read.word + "" == read.word;
    }
  }

  lemma FinishLeavesQuotes(s: Scanner)
    ensures Finish(s.(quote := Some('"'))) == Finish(s)
  {
  }

  lemma AppliedIsPlain(s: Scanner, t: Token)
    requires Plain(s) && AllNonEmpty(s.segment)
    ensures Plain(Applied(s, t)) && AllNonEmpty(Applied(s, t).segment)
  {
  }

  /** The commands that follow, with what the scanner holds joined to the first. */
  function Joining(s: Scanner, commands: seq<seq<string>>): seq<seq<string>>
    requires commands != [] && commands[0] != []
  {
    [s.segment + ([s.word + commands[0][0]] + commands[0][1..])] + commands[1..]
  }

  lemma FinishJoins(s: Scanner, text: string)
    requires Plain(s) && AllNonEmpty(s.segment)
    ensures Finish(s.(word := s.word + text)) == s.segments + NonEmptyCommands(Joining(s, [[text]]))
  {
    var word := s.word + text;
    assert [text][1..] == [] && [[text]][1..] == [];
    assert s.segment + ([word] + []) == s.segment + [word];
    assert [s.segment + [word]] + [] == [s.segment + [word]];
    assert [s.segment + [word]][1..] == [];
    NonEmptyWordsOfTwo(s.segment, [word]);
    NonEmptyWordsKeeps(s.segment);
    assert [word][1..] == [];
    assert s.segment + [] == s.segment && s.segments + [] == s.segments;
  }

  lemma {:induction false} NonEmptyWordsOfTwo(a: seq<string>, b: seq<string>)
    ensures NonEmptyWords(a + b) == NonEmptyWords(a) + NonEmptyWords(b)
    decreases |a|
  {
    if a == [] {
      assert a + b == b;
    } else {
      assert (a + b)[0] == a[0] && (a + b)[1..] == a[1..] + b;
      NonEmptyWordsOfTwo(a[1..], b);
      Regroup(if a[0] == "" then [] else [a[0]], NonEmptyWords(a[1..]), NonEmptyWords(b));
    }
  }

  lemma SameFirst(a: seq<string>, b: seq<string>, rest: seq<seq<string>>)
    requires NonEmptyWords(a) == NonEmptyWords(b)
    ensures NonEmptyCommands([a] + rest) == NonEmptyCommands([b] + rest)
  {
    assert ([a] + rest)[1..] == rest && ([b] + rest)[1..] == rest;
  }

  /** One piece more, for the scanner and for the meaning. */
  lemma JoiningNext(s: Scanner, t: Token, rest: seq<seq<string>>, all: seq<seq<string>>)
    requires Plain(s) && AllNonEmpty(s.segment) && rest != [] && rest[0] != []
    requires all == match t
                    case Separator(_) => [[""]] + rest
                    case Space(_) => [[""] + rest[0]] + rest[1..]
                    case _ => [[TextOf(t) + rest[0][0]] + rest[0][1..]] + rest[1..]
    ensures Applied(s, t).segments + NonEmptyCommands(Joining(Applied(s, t), rest)) == s.segments + NonEmptyCommands(Joining(s, all))
  {
    match t
    case Separator(_) => SeparatorJoins(s, rest);
    case Space(_) => SpaceJoins(s, rest);
    case _ =>
      Regroup(s.word, TextOf(t), rest[0][0]);
      assert all[0][1..] == rest[0][1..] && all[1..] == rest[1..];
  }

  lemma SpaceJoins(s: Scanner, rest: seq<seq<string>>)
    requires Plain(s) && AllNonEmpty(s.segment) && rest != [] && rest[0] != []
    ensures var all := [[""] + rest[0]] + rest[1..];
            NonEmptyCommands(Joining(FlushWord(s), rest)) == NonEmptyCommands(Joining(s, all))
  {
    var all := [[""] + rest[0]] + rest[1..];
    var flushed := FlushWord(s);
    assert all[0][1..] == rest[0] && all[1..] == rest[1..] && s.word + "" == s.word;
    assert [flushed.word + rest[0][0]] + rest[0][1..] == rest[0] by {
      assert flushed.word + rest[0][0] == rest[0][0];
    }
    var a, b := flushed.segment + rest[0], s.segment + ([s.word] + rest[0]);
    NonEmptyWordsOfTwo(flushed.segment, rest[0]);
    NonEmptyWordsOfTwo(s.segment, [s.word] + rest[0]);
    NonEmptyWordsOfTwo([s.word], rest[0]);
    NonEmptyWordsOfTwo(s.segment, [s.word]);
    assert [s.word][1..] == [];
    Regroup(NonEmptyWords(s.segment), NonEmptyWords([s.word]), NonEmptyWords(rest[0]));
    assert s.segment + [] == s.segment;
    assert NonEmptyWords(flushed.segment) == NonEmptyWords(s.segment) + NonEmptyWords([s.word]);
    SameFirst(a, b, rest[1..]);
  }

  lemma SeparatorJoins(s: Scanner, rest: seq<seq<string>>)
    requires Plain(s) && AllNonEmpty(s.segment) && rest != [] && rest[0] != []
    ensures var flushed := FlushSegment(FlushWord(s));
            flushed.segments + NonEmptyCommands(Joining(flushed, rest)) == s.segments + NonEmptyCommands(Joining(s, [[""]] + rest))
  {
    var flushed := FlushSegment(FlushWord(s));
    assert flushed.segment == [] && flushed.word == "";
    assert Joining(flushed, rest) == rest by {
      assert "" + rest[0][0] == rest[0][0];
      assert [rest[0][0]] + rest[0][1..] == rest[0];
      assert [] + rest[0] == rest[0] && [rest[0]] + rest[1..] == rest;
    }
    FinishJoins(s, "");
    assert s.word + "" == s.word;
    var own := s.segment + ([s.word] + []);
    assert ([[""]] + rest)[1..] == rest && [""][1..] == [] && [[""]][1..] == [];
    assert Joining(s, [[""]] + rest) == [own] + rest && Joining(s, [[""]]) == [own] + [];
    assert ([own] + rest)[1..] == rest && ([own] + [])[1..] == [];
    var first := if NonEmptyWords(own) == [] then [] else [NonEmptyWords(own)];
    assert first + [] == first;
    assert Finish(s) == flushed.segments == s.segments + first;
    Regroup(s.segments, first, NonEmptyCommands(rest));
  }

  lemma {:induction false} ScanWritten(s: Scanner, tokens: seq<Token>, end: End)
    requires Plain(s) && AllNonEmpty(s.segment) && (forall t | t in tokens :: ProperToken(t)) && ProperEnd(end)
    ensures Finish(Scan(s, Written(tokens, end))) == s.segments + NonEmptyCommands(Joining(s, Commands(tokens, end)))
    decreases |tokens|
  {
    if tokens == [] {
      ScanEnd(s, end);
      FinishJoins(s, EndText(end));
    } else {
      assert tokens[0] in tokens && forall t | t in tokens[1..] :: t in tokens;
      ScanToken(s, tokens[0]);
      ScanAppends(s, WrittenToken(tokens[0]), Written(tokens[1..], end));
      AppliedIsPlain(s, tokens[0]);
      ScanWritten(Applied(s, tokens[0]), tokens[1..], end);
      JoiningNext(s, tokens[0], Commands(tokens[1..], end), Commands(tokens, end));
    }
  }

  /** What a text is split into: the words of its commands, quotations and escapes read,
      without the empty words and the empty commands. */
  lemma SegmentsAreTheCommands(tokens: seq<Token>, end: End)
    requires (forall t | t in tokens :: ProperToken(t)) && ProperEnd(end)
    ensures Segments(Written(tokens, end)) == NonEmptyCommands(Commands(tokens, end))
  {
    var commands := Commands(tokens, end);
    ScanWritten(START, tokens, end);
    assert "" + commands[0][0] == commands[0][0];
    assert [commands[0][0]] + commands[0][1..] == commands[0];
    assert [] + commands[0] == commands[0] && [commands[0]] + commands[1..] == commands;
  }

  // ---- every text is written in some pieces ----

  lemma {:induction false} ReadSingle(text: string) returns (inside: string, rest: string, closed: bool)
    ensures forall c | c in inside :: c != '\''
    ensures if closed then text == inside + (['\''] + rest) else text == inside && rest == ""
  {
    if text == "" {
      inside, rest, closed := "", "", false;
    } else if text[0] == '\'' {
      inside, rest, closed := "", text[1..], true;
    } else {
      inside, rest, closed := ReadSingle(text[1..]);
      inside := [text[0]] + inside;
    }
  }

  lemma {:induction false} ReadDouble(text: string) returns (chars: seq<Quoted>, rest: string, closed: bool, backslash: bool)
    ensures ProperChars(chars) && (closed ==> !backslash)
    ensures if closed then text == WrittenChars(chars) + (['"'] + rest)
            else text == WrittenChars(chars) + (if backslash then "\\" else "") && rest == ""
    decreases |text|
  {
    if text == "" || text == "\\" {
      chars, rest, closed, backslash := [], "", false, text == "\\";
    } else if text[0] == '"' {
      chars, rest, closed, backslash := [], text[1..], true, false;
    } else {
      var q := if text[0] == '\\' then Quoted(true, text[1]) else Quoted(false, text[0]);
      var n := if q.escaped then 2 else 1;
      assert text == text[..n] + text[n..];
      chars, rest, closed, backslash := ReadDouble(text[n..]);
      assert ([q] + chars)[1..] == chars;
      chars := [q] + chars;
    }
  }

  lemma {:induction false} EveryTextIsWritten(text: string) returns (tokens: seq<Token>, end: End)
    ensures (forall t | t in tokens :: ProperToken(t)) && ProperEnd(end) && Written(tokens, end) == text
    decreases |text|
  {
    var first, rest, open := FirstPiece(text);
    match first
    case None => tokens, end := [], open;
    case Some(t) =>
      tokens, end := EveryTextIsWritten(rest);
      assert ([t] + tokens)[1..] == tokens;
      tokens := [t] + tokens;
  }

  /** The first piece of a text and what follows it, or the way in which the text stops short. */
  lemma FirstPiece(text: string) returns (first: Option<Token>, rest: string, open: End)
    ensures first.None? ==> ProperEnd(open) && WrittenEnd(open) == text
    ensures first.Some? ==> ProperToken(first.value) && |rest| < |text| && WrittenToken(first.value) + rest == text
  {
    if text == "" {
      first, rest, open := None, "", Complete;
    } else if text == "\\" {
      first, rest, open := None, "", Backslash;
    } else if text[0] == '\'' {
      first, rest, open := FirstSingle(text);
    } else if text[0] == '"' {
      first, rest, open := FirstDouble(text);
    } else if text[0] == '\\' {
      assert text == ['\\', text[1]] + text[2..];
      first, rest, open := Some(Escape(text[1])), text[2..], Complete;
    } else {
      assert text == [text[0]] + text[1..];
      var t := if IsWhitespace(text[0]) then Space(text[0]) else if IsSeparator(text[0]) then Separator(text[0]) else Bare(text[0]);
      first, rest, open := Some(t), text[1..], Complete;
    }
  }

  lemma FirstSingle(text: string) returns (first: Option<Token>, rest: string, open: End)
    requires text != "" && text[0] == '\''
    ensures first.None? ==> ProperEnd(open) && WrittenEnd(open) == text
    ensures first.Some? ==> ProperToken(first.value) && |rest| < |text| && WrittenToken(first.value) + rest == text
  {
    var inside, after, closed := ReadSingle(text[1..]);
    assert text == ['\''] + text[1..];
    if closed {
      first, rest, open := Some(Single(inside)), after, Complete;
      Regroup(['\''], inside + ['\''], after);
      Regroup(inside, ['\''], after);
    } else {
      first, rest, open := None, "", OpenSingle(inside);
    }
  }

  lemma FirstDouble(text: string) returns (first: Option<Token>, rest: string, open: End)
    requires text != "" && text[0] == '"'
    ensures first.None? ==> ProperEnd(open) && WrittenEnd(open) == text
    ensures first.Some? ==> ProperToken(first.value) && |rest| < |text| && WrittenToken(first.value) + rest == text
  {
    var chars, after, closed, backslash := ReadDouble(text[1..]);
    assert text == ['"'] + text[1..];
    if closed {
      first, rest, open := Some(Double(chars)), after, Complete;
      Regroup(['"'], WrittenChars(chars) + ['"'], after);
      Regroup(WrittenChars(chars), ['"'], after);
    } else {
      first, rest, open := None, "", OpenDouble(chars, backslash);
    }
  }

  /** Splitting any command line whatever gives the words its pieces mean. */
  lemma EveryTextIsRead(text: string) returns (tokens: seq<Token>, end: End)
    ensures (forall t | t in tokens :: ProperToken(t)) && ProperEnd(end) && Written(tokens, end) == text
    ensures Segments(text) == NonEmptyCommands(Commands(tokens, end))
  {
    tokens, end := EveryTextIsWritten(text);
    SegmentsAreTheCommands(tokens, end);
  }
}
