/** ssh/client.go: the quoting of a command for `sudo bash -c`, read back by a shell.

    The lexer follows sections 2.2.1 (escape character) and 2.2.2 (single-quotes) of the Shell Command
    Language in IEEE Std 1003.1-2017. Text that needs any other rule of the shell is not understood. */
module Shell {

  /** The characters that section 2.2 wants quoted, apart from those the lexer understands. */
  predicate IsSpecial(c: char) {
    c == '|' || c == '&' || c == ';' || c == '<' || c == '>' || c == '(' || c == ')' || c == '$' || c == '`'
    || c == '"' || c == '\n' || c == '*' || c == '?' || c == '[' || c == '#' || c == '~' || c == '=' || c == '%'
  }

  predicate IsBlank(c: char) { c == ' ' || c == '\t' }

  datatype Words = NotUnderstood | Words(words: seq<string>)

  /** A word in progress: none between words, perhaps the empty word after ''. */
  datatype Word = NoWord | Word(text: string)

  function Finish(words: seq<string>, cur: Word): seq<string> {
    match cur
    case NoWord => words
    case Word(text) => words + [text]
  }

  function Grow(cur: Word, c: char): Word {
    match cur
    case NoWord => Word([c])
    case Word(text) => Word(text + [c])
  }

  function Lex(s: string, words: seq<string>, cur: Word): Words
    decreases |s|
  {
    if s == "" then Words(Finish(words, cur))
    else if IsBlank(s[0]) then Lex(s[1..], Finish(words, cur), NoWord)
    else if s[0] == '\'' then LexQuoted(s[1..], words, if cur.NoWord? then "" else cur.text)
    else if s[0] == '\\' then
      if |s| == 1 then NotUnderstood
      else if s[1] == '\n' then Lex(s[2..], words, cur)
      else Lex(s[2..], words, Grow(cur, s[1]))
    else if IsSpecial(s[0]) then NotUnderstood
    else Lex(s[1..], words, Grow(cur, s[0]))
  }

  /** Between single-quotes every character stands for itself, up to the next single-quote. */
  function LexQuoted(s: string, words: seq<string>, text: string): Words
    decreases |s|
  {
    if s == "" then NotUnderstood
    else if s[0] == '\'' then Lex(s[1..], words, Word(text))
    else LexQuoted(s[1..], words, text + [s[0]])
  }

  /** The words the shell makes of a command line. */
  function ShellWords(s: string): Words {
    Lex(s, [], NoWord)
  }

  /** `strings.ReplaceAll(command, "'", `'\''`)`. */
  function Escape(command: string): string {
    if command == "" then ""
    else if command[0] == '\'' then "'\\''" + Escape(command[1..])
    else [command[0]] + Escape(command[1..])
  }

  /** Escaping replaces each quote by the same four characters, and keeps everything else. */
  lemma {:induction false} EscapeReplacesQuotes(front: string, rest: string)
    requires '\'' !in front
    ensures Escape(front) == front
    ensures Escape(front + "'" + rest) == front + "'\\''" + Escape(rest)
  {
    if front == "" {
      assert ("" + "'" + rest)[1..] == rest;
    } else {
      assert (front + "'" + rest)[1..] == front[1..] + "'" + rest;
      EscapeReplacesQuotes(front[1..], rest);
    }
  }

  /** What is sent to the remote shell. */
  function Wrap(command: string): string {
    "sudo bash -c '" + Escape(command) + "'"
  }

  /** Inside the quotes, the escaped text reads back as the text. */
  lemma {:induction false} QuotedReadsBack(command: string, words: seq<string>, text: string)
    ensures LexQuoted(Escape(command) + "'", words, text) == Words(words + [text + command])
    decreases |command|
  {
    var rest := Escape(command) + "'";
    if command == "" {
      assert rest[1..] == "" && text + command == text;
    } else {
      var tail := Escape(command[1..]) + "'";
      assert text + command == (text + [command[0]]) + command[1..];
      if command[0] == '\'' {
        assert rest == ['\'', '\\', '\'', '\''] + tail;
        LeaveEscapeEnter(tail, words, text);
      } else {
        assert rest == [command[0]] + tail;
        assert rest[1..] == tail;
      }
      QuotedReadsBack(command[1..], words, text + [command[0]]);
    }
  }

  /** `'\''` closes the quotes, adds a quote, and opens them again. */
  lemma LeaveEscapeEnter(tail: string, words: seq<string>, text: string)
    ensures LexQuoted(['\'', '\\', '\'', '\''] + tail, words, text) == LexQuoted(tail, words, text + ['\''])
  {
    var s := ['\'', '\\', '\'', '\''] + tail;
    assert s[1..][0] == '\\' && s[1..][1] == '\'';
    assert s[1..][2..] == ['\''] + tail;
    assert (['\''] + tail)[1..] == tail;
    assert Lex(s[1..], words, Word(text)) == Lex(['\''] + tail, words, Word(text + ['\'']));
  }

  predicate Plain(word: string) {
    forall c :: c in word ==> !IsBlank(c) && c != '\'' && c != '\\' && !IsSpecial(c)
  }

  lemma {:induction false} PlainWordReads(word: string, tail: string, words: seq<string>, text: string)
    requires Plain(word)
    ensures Lex(word + " " + tail, words, Word(text)) == Lex(tail, words + [text + word], NoWord)
    decreases |word|
  {
    var s := word + " " + tail;
    if word == "" {
      assert s[1..] == tail && text + word == text;
    } else {
      assert word[0] in word;
      assert s[1..] == word[1..] + " " + tail;
      PlainWordReads(word[1..], tail, words, text + [word[0]]);
      assert text + [word[0]] + word[1..] == text + word;
    }
  }

  lemma WordThenRest(word: string, tail: string, words: seq<string>)
    requires word != "" && Plain(word)
    ensures Lex(word + " " + tail, words, NoWord) == Lex(tail, words + [word], NoWord)
  {
    var s := word + " " + tail;
    assert word[0] in word;
    assert s[1..] == word[1..] + " " + tail;
    PlainWordReads(word[1..], tail, words, [word[0]]);
    assert [word[0]] + word[1..] == word;
  }

  lemma QuotedWordReads(command: string, words: seq<string>)
    ensures Lex(Quoted(command), words, NoWord) == Words(words + [command])
  {
    var rest := Escape(command) + "'";
    assert Quoted(command)[1..] == rest;
    QuotedReadsBack(command, words, "");
    assert "" + command == command;
  }

  /** The command between single-quotes. */
  function Quoted(command: string): string {
    ['\''] + (Escape(command) + "'")
  }

  lemma ThreeWordsThenQuoted(a: string, b: string, c: string, command: string)
    requires a != "" && b != "" && c != "" && Plain(a) && Plain(b) && Plain(c)
    ensures ShellWords(a + " " + (b + " " + (c + " " + Quoted(command)))) == Words([a, b, c, command])
  {
    var last := Quoted(command);
    var third := c + " " + last;
    var second := b + " " + third;
    calc {
      ShellWords(a + " " + second);
      Lex(a + " " + second, [], NoWord);
      { WordThenRest(a, second, []); assert [] + [a] == [a]; }
      Lex(second, [a], NoWord);
      { WordThenRest(b, third, [a]); assert [a] + [b] == [a, b]; }
      Lex(third, [a, b], NoWord);
      { WordThenRest(c, last, [a, b]); assert [a, b] + [c] == [a, b, c]; }
      Lex(last, [a, b, c], NoWord);
      { QuotedWordReads(command, [a, b, c]); assert [a, b, c] + [command] == [a, b, c, command]; }
      Words([a, b, c, command]);
    }
  }

  lemma OptionsArePlain()
    ensures Plain("sudo") && Plain("bash") && Plain("-c")
  {
  }

  lemma WrapIsFourWords(command: string)
    ensures Wrap(command) == "sudo" + " " + ("bash" + " " + ("-c" + " " + Quoted(command)))
  {
  }

  /** Whatever the command is, the shell reads four words, and the last one is the command. */
  lemma QuotingRoundTrips(command: string)
    ensures ShellWords(Wrap(command)) == Words(["sudo", "bash", "-c", command])
  {
    WrapIsFourWords(command);
    OptionsArePlain();
    ThreeWordsThenQuoted("sudo", "bash", "-c", command);
  }
}
