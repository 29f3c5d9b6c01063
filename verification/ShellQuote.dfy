/** shellQuote of internal/install/shellprofile.go and internal/render/env_file.go, against a reader of shell text. */
module ShellQuote {
  import opened Common

  /** Every single quote closes the string, is escaped, and opens it again. */
  function Escape(s: string): string {
    if s == "" then ""
    else (if s[0] == '\'' then "'\\''" else [s[0]]) + Escape(s[1..])
  }

  function Quote(s: string): string {
    "'" + Escape(s) + "'"
  }

  // ---- A reader of simple commands ---------------------------------------

  const NUL := 0 as char

  /** Characters with a meaning of their own when unquoted, section 2.2 of the POSIX Shell Command Language. */
  predicate Special(c: char) {
    c in {'|', '&', ';', '<', '>', '(', ')', '$', '`', '\\', '"', '\'', '*', '?', '[', '~', '%', '\n', NUL}
  }

  predicate Blank(c: char) {
    c == ' ' || c == '\t'
  }

  function Extend(word: Option<string>, text: string): Option<string> {
    Some(if word.Some? then word.value + text else text)
  }

  /** The words read so far with the one being read. */
  function Ended(words: seq<string>, word: Option<string>): seq<string> {
    if word.Some? then words + [word.value] else words
  }

  /** A line without words is not a command. */
  function Command(words: seq<string>): seq<seq<string>> {
    if words == [] then [] else [words]
  }

  datatype Mode = Plain | Quoted | Comment

  function Before(first: seq<seq<string>>, rest: Option<seq<seq<string>>>): Option<seq<seq<string>>> {
    if rest.None? || first == [] then rest else Some(first + rest.value)
  }

  /**
   * Reads text into commands, each a list of words, with the quoting of sections
   * 2.2.1 (escape character) and 2.2.2 (single quotes) of the POSIX Shell Command
   * Language, XCU chapter 2, and comments and line ends as in section 2.3. None
   * stands for text it gives no meaning to.
   */
  function Script(text: string, words: seq<string>, word: Option<string>, mode: Mode): Option<seq<seq<string>>>
    decreases |text|
  {
    if text == "" then
      if mode.Quoted? then None else Some(Command(Ended(words, word)))
    else
      var c, rest := text[0], text[1..];
      if c == NUL then None
      else if mode.Quoted? then
        if c == '\'' then Script(rest, words, word, Plain) else Script(rest, words, Extend(word, [c]), Quoted)
      else if c == '\n' then Before(Command(Ended(words, word)), Script(rest, [], None, Plain))
      else if mode.Comment? then Script(rest, words, word, Comment)
      else if c == '\'' then Script(rest, words, Extend(word, ""), Quoted)
      else if c == '\\' then
        if rest == "" || rest[0] == NUL then None
        else if rest[0] == '\n' then Script(rest[1..], words, word, Plain)
        else Script(rest[1..], words, Extend(word, [rest[0]]), Plain)
      else if Blank(c) then Script(rest, Ended(words, word), None, Plain)
      else if c == '#' && word.None? then Script(rest, words, None, Comment)
      else if Special(c) then None
      else Script(rest, words, Extend(word, [c]), Plain)
  }

  function Read(text: string): Option<seq<seq<string>>> {
    Script(text, [], None, Plain)
  }

  // ---- One character at a time -------------------------------------------

  lemma Front(c: char, rest: string)
    ensures [c] + rest != "" && ([c] + rest)[0] == c && ([c] + rest)[1..] == rest
  {
  }

  lemma OpenStep(rest: string, words: seq<string>, word: Option<string>)
    ensures Script(['\''] + rest, words, word, Plain) == Script(rest, words, Extend(word, ""), Quoted)
  {
    Front('\'', rest);
  }

  lemma CloseStep(rest: string, words: seq<string>, word: string)
    ensures Script(['\''] + rest, words, Some(word), Quoted) == Script(rest, words, Some(word), Plain)
  {
    Front('\'', rest);
  }

  lemma EscapeStep(rest: string, words: seq<string>, word: string)
    ensures Script(['\\', '\''] + rest, words, Some(word), Plain) == Script(rest, words, Some(word + "'"), Plain)
  {
    var text := ['\\', '\''] + rest;
    assert text[1..] == ['\''] + rest;
    Front('\'', rest);
  }

  lemma InsideStep(c: char, rest: string, words: seq<string>, word: string)
    requires c != '\''
    ensures Script([c] + rest, words, Some(word), Quoted) ==
      if c == NUL then None else Script(rest, words, Some(word + [c]), Quoted)
  {
    Front(c, rest);
  }

  lemma PlainStep(c: char, rest: string, words: seq<string>, word: Option<string>)
    requires !Special(c) && !Blank(c) && c != '#'
    ensures Script([c] + rest, words, word, Plain) == Script(rest, words, Extend(word, [c]), Plain)
  {
    Front(c, rest);
  }

  lemma BlankStep(rest: string, words: seq<string>, word: Option<string>)
    ensures Script([' '] + rest, words, word, Plain) == Script(rest, Ended(words, word), None, Plain)
  {
    Front(' ', rest);
  }

  lemma LineStep(rest: string, words: seq<string>, word: Option<string>)
    ensures Script(['\n'] + rest, words, word, Plain) == Before(Command(Ended(words, word)), Read(rest))
  {
    Front('\n', rest);
  }

  lemma ExtendTwice(word: Option<string>, a: string, b: string)
    ensures Extend(Extend(word, a), b) == Extend(word, a + b)
  {
    if word.Some? { assert word.value + a + b == word.value + (a + b); }
  }

  // ---- Quoted text -------------------------------------------------------

  /** A closed, escaped and reopened quote reads as one quote character. */
  lemma QuoteInside(rest: string, words: seq<string>, word: string)
    ensures Script("'\\''" + rest, words, Some(word), Quoted) == Script(rest, words, Some(word + "'"), Quoted)
  {
    var reopened := ['\''] + rest;
    assert "'\\''" + rest == ['\''] + (['\\', '\''] + reopened);
    CloseStep(['\\', '\''] + reopened, words, word);
    EscapeStep(reopened, words, word);
    OpenStep(rest, words, Some(word + "'"));
    assert word + "'" + "" == word + "'";
  }

  /** Reading the inside of a quoted text up to its closing quote. */
  lemma {:induction false} EscapedReads(s: string, rest: string, words: seq<string>, word: string)
    ensures Script(Escape(s) + "'" + rest, words, Some(word), Quoted) ==
      if NUL in s then None else Script(rest, words, Some(word + s), Plain)
    decreases |s|
  {
    if s == "" {
      assert Escape(s) + "'" + rest == ['\''] + rest;
      CloseStep(rest, words, word);
      assert word + s == word;
    } else {
      var tail := Escape(s[1..]) + "'" + rest;
      assert s == [s[0]] + s[1..];
      if s[0] == '\'' {
        assert Escape(s) + "'" + rest == "'\\''" + tail;
        QuoteInside(tail, words, word);
      } else {
        assert Escape(s) + "'" + rest == [s[0]] + tail;
        InsideStep(s[0], tail, words, word);
      }
      EscapedReads(s[1..], rest, words, word + [s[0]]);
      assert word + [s[0]] + s[1..] == word + s;
    }
  }

  /** A quoted text continues the word being read by exactly the text. */
  lemma QuotedReads(s: string, rest: string, words: seq<string>, word: Option<string>)
    ensures Script(Quote(s) + rest, words, word, Plain) ==
      if NUL in s then None else Script(rest, words, Extend(word, s), Plain)
  {
    var inside := Escape(s) + "'" + rest;
    assert Quote(s) + rest == ['\''] + inside;
    OpenStep(inside, words, word);
    EscapedReads(s, rest, words, Extend(word, "").value);
    ExtendTwice(word, "", s);
    assert "" + s == s;
  }

  /** A quoted text reads as exactly one word, itself, when it is free of NUL, and as nothing otherwise. */
  lemma QuoteRoundTrip(s: string)
    ensures Read(Quote(s)) == if NUL in s then None else Some([[s]])
  {
    QuotedReads(s, "", [], None);
    assert Ended([], Some(s)) == [s];
    assert Quote(s) + "" == Quote(s);
  }

  lemma {:induction false} EscapeNothing(s: string)
    requires '\'' !in s
    ensures Escape(s) == s
  {
    if s != "" {
      assert s == [s[0]] + s[1..];
      EscapeNothing(s[1..]);
    }
  }

  lemma {:induction false} EscapeAppend(a: string, b: string)
    ensures Escape(a + b) == Escape(a) + Escape(b)
  {
    if a == "" {
      assert a + b == b;
    } else {
      assert (a + b)[1..] == a[1..] + b;
      EscapeAppend(a[1..], b);
    }
  }

  lemma Regroup(x: string, y: string)
    ensures "'" + (x + "'\\''" + y) + "'" == ("'" + x + "'") + "\\'" + ("'" + y + "'")
  {
  }

  lemma EscapeQuote(a: string, b: string)
    ensures Escape(a + "'" + b) == Escape(a) + "'\\''" + Escape(b)
  {
    assert "'"[1..] == "" && Escape("'") == "'\\''" + Escape("");
    EscapeAppend(a + "'", b);
    EscapeAppend(a, "'");
  }

  /** Text without quotes is put between two; at each quote it has, the string is closed, and opened again after an escaped one. */
  lemma QuoteShape(a: string, b: string)
    ensures '\'' !in a ==> Quote(a) == "'" + a + "'"
    ensures Quote(a + "'" + b) == Quote(a) + "\\'" + Quote(b)
  {
    hide Escape;
    if '\'' !in a { EscapeNothing(a); }
    EscapeQuote(a, b);
    Regroup(Escape(a), Escape(b));
  }

  // ---- Lines of the environment file -------------------------------------

  predicate PlainText(name: string) {
    name != "" && forall c | c in name :: !Special(c) && !Blank(c) && c != '#'
  }

  /** Characters without a meaning of their own are read as they are. */
  lemma {:induction false} PlainReads(name: string, rest: string, words: seq<string>, word: Option<string>)
    requires PlainText(name)
    ensures Script(name + rest, words, word, Plain) == Script(rest, words, Extend(word, name), Plain)
    decreases |name|
  {
    assert name == [name[0]] + name[1..];
    assert name + rest == [name[0]] + (name[1..] + rest);
    PlainStep(name[0], name[1..] + rest, words, word);
    if name[1..] == "" {
      assert name[1..] + rest == rest && name == [name[0]];
    } else {
      assert forall c | c in name[1..] :: c in name;
      PlainReads(name[1..], rest, words, Extend(word, [name[0]]));
      ExtendTwice(word, [name[0]], name[1..]);
    }
  }

  /** name=value, with the value quoted. */
  function Assignment(name: string, value: string): string {
    name + "=" + Quote(value)
  }

  lemma AssignmentReads(name: string, value: string, rest: string, words: seq<string>)
    requires PlainText(name)
    ensures Script(Assignment(name, value) + rest, words, None, Plain) ==
      if NUL in value then None else Script(rest, words, Some(name + "=" + value), Plain)
  {
    var left := name + "=";
    assert PlainText(left);
    assert Assignment(name, value) + rest == left + (Quote(value) + rest);
    PlainReads(left, Quote(value) + rest, words, None);
    QuotedReads(value, rest, words, Some(left));
  }

  /** An assignment with a quoted value, as the shell profile makes them, reads as one word. */
  lemma AssignmentRoundTrip(name: string, value: string)
    requires PlainText(name)
    ensures Read(Assignment(name, value)) == if NUL in value then None else Some([[name + "=" + value]])
  {
    AssignmentReads(name, value, "", []);
    assert Ended([], Some(name + "=" + value)) == [name + "=" + value];
    assert Assignment(name, value) + "" == Assignment(name, value);
  }

  function ExportLine(name: string, value: string): string {
    "export " + Assignment(name, value) + "\n"
  }

  const EXPORT := "export"

  lemma ExportReads(name: string, value: string, rest: string)
    requires PlainText(name)
    ensures Read(ExportLine(name, value) + rest) ==
      if NUL in value then None else Before([[EXPORT, name + "=" + value]], Read(rest))
  {
    var line := Assignment(name, value) + (['\n'] + rest);
    assert ExportLine(name, value) + rest == EXPORT + ([' '] + line);
    ExportWordReads(line);
    AssignmentReads(name, value, ['\n'] + rest, [EXPORT]);
    ExportEnds(name + "=" + value, rest);
  }

  lemma LettersArePlain(name: string)
    requires name != "" && forall i | 0 <= i < |name| :: 'a' <= name[i] <= 'z'
    ensures PlainText(name)
  {
  }

  lemma ExportWordReads(line: string)
    ensures Read(EXPORT + ([' '] + line)) == Script(line, [EXPORT], None, Plain)
  {
    hide Script;
    LettersArePlain(EXPORT);
    PlainReads(EXPORT, [' '] + line, [], None);
    BlankStep(line, [], Some(EXPORT));
    assert Ended([], Some(EXPORT)) == [EXPORT];
  }

  lemma ExportEnds(word: string, rest: string)
    ensures Script(['\n'] + rest, [EXPORT], Some(word), Plain) == Before([[EXPORT, word]], Read(rest))
  {
    LineStep(rest, [EXPORT], Some(word));
    assert Ended([EXPORT], Some(word)) == [EXPORT, word];
  }

  /** The text of a comment line. */
  predicate OneLine(text: string) {
    forall c | c in text :: c != '\n' && c != NUL
  }

  lemma {:induction false} CommentReads(text: string, rest: string)
    requires OneLine(text)
    ensures Script(text + ("\n" + rest), [], None, Comment) == Read(rest)
    decreases |text|
  {
    if text == "" {
      assert text + ("\n" + rest) == ['\n'] + rest;
      Front('\n', rest);
    } else {
      assert text[0] in text && text == [text[0]] + text[1..];
      assert text + ("\n" + rest) == [text[0]] + (text[1..] + ("\n" + rest));
      Front(text[0], text[1..] + ("\n" + rest));
      assert forall c | c in text[1..] :: c in text;
      CommentReads(text[1..], rest);
    }
  }

  /** RenderShellEnv: comment lines, an empty line, and one export for each variable. */
  function Comments(comments: seq<string>): string {
    if comments == [] then "\n" else "#" + comments[0] + "\n" + Comments(comments[1..])
  }

  function Exports(vars: seq<(string, string)>): string {
    if vars == [] then "" else ExportLine(vars[0].0, vars[0].1) + Exports(vars[1..])
  }

  function EnvFile(comments: seq<string>, vars: seq<(string, string)>): string {
    Comments(comments) + Exports(vars)
  }

  function ExportCommands(vars: seq<(string, string)>): seq<seq<string>> {
    if vars == [] then [] else [[EXPORT, vars[0].0 + "=" + vars[0].1]] + ExportCommands(vars[1..])
  }

  lemma {:induction false} CommentsRead(comments: seq<string>, rest: string)
    requires forall text | text in comments :: OneLine(text)
    ensures Read(Comments(comments) + rest) == Read(rest)
  {
    if comments == [] {
      assert Comments(comments) + rest == ['\n'] + rest;
      LineStep(rest, [], None);
    } else {
      var after := Comments(comments[1..]) + rest;
      assert Comments(comments) + rest == ['#'] + (comments[0] + ("\n" + after));
      Front('#', comments[0] + ("\n" + after));
      assert comments[0] in comments;
      CommentReads(comments[0], after);
      CommentsRead(comments[1..], rest);
    }
  }

  lemma {:induction false} ExportsRead(vars: seq<(string, string)>)
    requires forall v | v in vars :: PlainText(v.0)
    ensures Read(Exports(vars)) == if exists v :: v in vars && NUL in v.1 then None else Some(ExportCommands(vars))
  {
    if vars != [] {
      assert vars[0] in vars && forall v | v in vars[1..] :: v in vars;
      assert forall v | v in vars :: v == vars[0] || v in vars[1..];
      ExportReads(vars[0].0, vars[0].1, Exports(vars[1..]));
      ExportsRead(vars[1..]);
    }
  }

  /**
   * The environment file reads as exactly one export of each variable with its value,
   * in order, whatever quotes, blanks or line ends the values contain; with a NUL in a
   * value it reads as nothing.
   */
  lemma EnvFileRoundTrip(comments: seq<string>, vars: seq<(string, string)>)
    requires forall text | text in comments :: OneLine(text)
    requires forall v | v in vars :: PlainText(v.0)
    ensures Read(EnvFile(comments, vars)) ==
      if exists v :: v in vars && NUL in v.1 then None else Some(ExportCommands(vars))
  {
    CommentsRead(comments, Exports(vars));
    ExportsRead(vars);
  }
}
