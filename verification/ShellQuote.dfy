/**
 The `cswap env` export lines, read back by small shell lexers. The POSIX one follows section 2.2
 (Quoting) of the POSIX Shell Command Language for backslash and single quotes; a word that would
 need any other expansion is refused. In fish only backslash and single quote are special inside
 single quotes.
 */
module ShellQuote {
  import opened Basics

  // ---- quoting ---------------------------------------------------------------------------

  /** Every occurrence of `from`, left to right and without overlap. */
  function ReplaceAll(s: string, from: string, to: string): string
    requires from != ""
    decreases |s|
  {
    if s == "" then ""
    else if from <= s then to + ReplaceAll(s[|from|..], from, to)
    else [s[0]] + ReplaceAll(s[1..], from, to)
  }

  const QUOTE := "'"
  const BACKSLASH := "\\"

  function PosixQuote(s: string): string {
    QUOTE + ReplaceAll(s, QUOTE, "'\\''") + QUOTE
  }

  function FishQuote(s: string): string {
    QUOTE + ReplaceAll(ReplaceAll(s, BACKSLASH, "\\\\"), QUOTE, "\\'") + QUOTE
  }

  datatype Shell = Sh | Fish

  function ExportLine(shell: Shell, key: string, value: string): string {
    match shell
    case Sh => "export " + key + "=" + PosixQuote(value)
    case Fish => "set -gx " + key + " " + FishQuote(value)
  }

  // ---- lexing ------------------------------------------------------------------------------

  predicate Blank(c: char) {
    c == ' ' || c == '\t'
  }

  /** Where an unquoted word ends. */
  predicate Ends(c: char) {
    Blank(c) || c in "\n;&|<>()"
  }

  /** Unquoted, these start an expansion or another kind of quoting. */
  predicate Special(c: char) {
    c in "$`\"*?[]{}~#!^%"
  }

  datatype Word = Word(text: string, rest: string)

  function Cons(c: char, w: Option<Word>): Option<Word> {
    if w.Some? then Some(Word([c] + w.value.text, w.value.rest)) else None
  }

  /** The rest of one word; `quoted` inside single quotes. None: unterminated, or outside this subset. */
  function Lex(shell: Shell, s: string, quoted: bool): Option<Word>
    decreases |s|
  {
    if s == "" then if quoted then None else Some(Word("", ""))
    else if quoted then
      if s[0] == '\'' then Lex(shell, s[1..], false)
      else if shell.Fish? && s[0] == '\\' && |s| > 1 && (s[1] == '\\' || s[1] == '\'')
      then Cons(s[1], Lex(shell, s[2..], true))
      else Cons(s[0], Lex(shell, s[1..], true))
    else if Ends(s[0]) then Some(Word("", s))
    else if s[0] == '\'' then Lex(shell, s[1..], true)
    else if s[0] == '\\' then
      if |s| == 1 then None
      else if s[1] == '\n' then Lex(shell, s[2..], false)
      else Cons(s[1], Lex(shell, s[2..], false))
    else if Special(s[0]) then None
    else Cons(s[0], Lex(shell, s[1..], false))
  }

  datatype Line = Line(words: seq<string>, rest: string)

  /** The words up to the end of the line, which is left in `rest`. */
  function LexLine(shell: Shell, s: string): Option<Line>
    decreases |s|
  {
    if s == "" || s[0] == '\n' then Some(Line([], s))
    else if Blank(s[0]) then LexLine(shell, s[1..])
    else
      var w := Lex(shell, s, false);
      if w.None? || |w.value.rest| >= |s| then None
      else
        var l := LexLine(shell, w.value.rest);
        if l.Some? then Some(Line([w.value.text] + l.value.words, l.value.rest)) else None
  }

  // ---- one-character replacement -------------------------------------------------------------

  function EscapeChar(c: char): string {
    if c == '\\' || c == '\'' then ['\\', c] else [c]
  }

  /** Each special character preceded by a backslash. */
  function Escape(s: string): string {
    if s == "" then "" else EscapeChar(s[0]) + Escape(s[1..])
  }

  lemma ReplaceOne(c: char, s: string, from: char, to: string)
    ensures ReplaceAll([c] + s, [from], to) == (if c == from then to else [c]) + ReplaceAll(s, [from], to)
  {
    assert ([c] + s)[1..] == s;
    if [from] <= [c] + s {
      assert ([c] + s)[..1] == [from];
      assert c == ([c] + s)[..1][0];
    }
    if c == from { assert [from] + s == [c] + s; }
  }

  lemma {:induction false} ReplaceAppend(s: string, t: string, from: char, to: string)
    ensures ReplaceAll(s + t, [from], to) == ReplaceAll(s, [from], to) + ReplaceAll(t, [from], to)
  {
    if s == "" {
      assert s + t == t;
    } else {
      assert s == [s[0]] + s[1..] && s + t == [s[0]] + (s[1..] + t);
      ReplaceOne(s[0], s[1..], from, to);
      ReplaceOne(s[0], s[1..] + t, from, to);
      ReplaceAppend(s[1..], t, from, to);
    }
  }

  /** The two passes, backslashes first, are one escape per character: the second never touches what the first added. */
  lemma {:induction false} TwoPassesEscape(s: string)
    ensures ReplaceAll(ReplaceAll(s, BACKSLASH, "\\\\"), QUOTE, "\\'") == Escape(s)
  {
    if s != "" {
      assert s == [s[0]] + s[1..];
      ReplaceOne(s[0], s[1..], '\\', "\\\\");
      var first := if s[0] == '\\' then "\\\\" else [s[0]];
      ReplaceAppend(first, ReplaceAll(s[1..], BACKSLASH, "\\\\"), '\'', "\\'");
      TwoPassesEscape(s[1..]);
      PassOverOne(s[0]);
    }
  }

  lemma PassOverOne(c: char)
    ensures ReplaceAll(if c == '\\' then "\\\\" else [c], QUOTE, "\\'") == EscapeChar(c)
  {
    assert ['\\', '\\'] == ['\\'] + (['\\'] + []);
    assert [c] == [c] + [];
    ReplaceOne('\\', ['\\'] + [], '\'', "\\'");
    ReplaceOne('\\', [], '\'', "\\'");
    ReplaceOne(c, [], '\'', "\\'");
  }

  /** In the other order the backslashes of the second pass are doubled again. */
  lemma OrderOfPassesMatters()
    ensures ReplaceAll(ReplaceAll("'", QUOTE, "\\'"), BACKSLASH, "\\\\") != Escape("'")
  {
    assert "'" == ['\''] + [];
    ReplaceOne('\'', [], '\'', "\\'");
    assert "\\'" == ['\\'] + (['\''] + []);
    ReplaceOne('\\', ['\''] + [], '\\', "\\\\");
    ReplaceOne('\'', [], '\\', "\\\\");
    assert Escape("'") == "\\'";
    assert ReplaceAll("\\'", BACKSLASH, "\\\\") == "\\\\'";
  }

  // ---- round trips -------------------------------------------------------------------------------

  predicate AtEnd(rest: string) {
    rest == "" || rest[0] == '\n'
  }

  lemma LexCloses(shell: Shell, rest: string)
    requires AtEnd(rest)
    ensures Lex(shell, QUOTE + rest, true) == Some(Word("", rest))
  {
    assert (QUOTE + rest)[1..] == rest;
  }

  /** Close, an escaped quote, reopen: one quote character. */
  lemma ReopenedQuote(tail: string)
    ensures Lex(Sh, "'\\''" + tail, true) == Cons('\'', Lex(Sh, tail, true))
  {
    var whole := "'\\''" + tail;
    var inner := whole[1..];
    assert inner[0] == '\\' && inner[1] == '\'' && inner[2..] == QUOTE + tail;
    assert (QUOTE + tail)[1..] == tail;
    assert Lex(Sh, QUOTE + tail, false) == Lex(Sh, tail, true);
    assert Lex(Sh, inner, false) == Cons('\'', Lex(Sh, inner[2..], false));
  }

  lemma PlainChar(c: char, tail: string)
    requires c != '\''
    ensures Lex(Sh, [c] + tail, true) == Cons(c, Lex(Sh, tail, true))
  {
    assert ([c] + tail)[1..] == tail;
  }

  lemma {:induction false} PosixBody(v: string, rest: string)
    requires AtEnd(rest)
    ensures Lex(Sh, ReplaceAll(v, QUOTE, "'\\''") + QUOTE + rest, true) == Some(Word(v, rest))
  {
    if v == "" {
      assert ReplaceAll(v, QUOTE, "'\\''") + QUOTE + rest == QUOTE + rest;
      LexCloses(Sh, rest);
    } else {
      var c, t := v[0], v[1..];
      assert v == [c] + t;
      ReplaceOne(c, t, '\'', "'\\''");
      var tail := ReplaceAll(t, QUOTE, "'\\''") + QUOTE + rest;
      assert ReplaceAll(v, QUOTE, "'\\''") + QUOTE + rest == (if c == '\'' then "'\\''" else [c]) + tail;
      if c == '\'' { ReopenedQuote(tail); } else { PlainChar(c, tail); }
      PosixBody(t, rest);
    }
  }

  lemma {:induction false} FishBody(v: string, rest: string)
    requires AtEnd(rest)
    ensures Lex(Fish, Escape(v) + QUOTE + rest, true) == Some(Word(v, rest))
  {
    if v == "" {
      assert Escape(v) + QUOTE + rest == QUOTE + rest;
      LexCloses(Fish, rest);
    } else {
      FishBody(v[1..], rest);
      var tail := Escape(v[1..]) + QUOTE + rest;
      var whole := Escape(v) + QUOTE + rest;
      assert whole == EscapeChar(v[0]) + tail;
      if v[0] == '\\' || v[0] == '\'' {
        assert whole[2..] == tail;
      } else {
        assert whole[1..] == tail;
      }
      assert v == [v[0]] + v[1..];
    }
  }

  function Quote(shell: Shell, v: string): string {
    if shell.Sh? then PosixQuote(v) else FishQuote(v)
  }

  lemma OpeningQuote(shell: Shell, body: string, rest: string)
    ensures Lex(shell, QUOTE + body + rest, false) == Lex(shell, body + rest, true)
  {
    assert (QUOTE + body + rest)[1..] == body + rest;
  }

  /** A quoted value lexes to itself, whatever it contains, and the lexer stops right behind it. */
  lemma QuoteRoundTrips(shell: Shell, v: string, rest: string)
    requires AtEnd(rest)
    ensures Lex(shell, Quote(shell, v) + rest, false) == Some(Word(v, rest))
  {
    if shell.Sh? {
      PosixBody(v, rest);
      OpeningQuote(Sh, ReplaceAll(v, QUOTE, "'\\''") + QUOTE, rest);
      assert Quote(Sh, v) == QUOTE + (ReplaceAll(v, QUOTE, "'\\''") + QUOTE);
    } else {
      TwoPassesEscape(v);
      FishBody(v, rest);
      OpeningQuote(Fish, Escape(v) + QUOTE, rest);
      assert Quote(Fish, v) == QUOTE + (Escape(v) + QUOTE);
    }
  }

  /** Characters that stand for themselves outside quotes. */
  predicate PlainText(s: string) {
    forall i :: 0 <= i < |s| ==> !Ends(s[i]) && !Special(s[i]) && s[i] != '\'' && s[i] != '\\'
  }

  lemma {:induction false} PlainPrefix(shell: Shell, p: string, t: string)
    requires PlainText(p)
    ensures var w := Lex(shell, t, false);
            Lex(shell, p + t, false) == (if w.Some? then Some(Word(p + w.value.text, w.value.rest)) else None)
  {
    if p == "" {
      assert p + t == t;
      var w := Lex(shell, t, false);
      assert w.Some? ==> p + w.value.text == w.value.text;
    } else {
      PlainPrefix(shell, p[1..], t);
      assert (p + t)[1..] == p[1..] + t;
      var w := Lex(shell, t, false);
      assert w.Some? ==> [p[0]] + (p[1..] + w.value.text) == p + w.value.text;
    }
  }

  /** A plain word, a blank, and the rest of the line. */
  lemma PlainWordFirst(shell: Shell, p: string, t: string)
    requires PlainText(p) && p != ""
    ensures LexLine(shell, p + " " + t)
         == (var l := LexLine(shell, t); if l.Some? then Some(Line([p] + l.value.words, l.value.rest)) else None)
  {
    var s := p + " " + t;
    PlainPrefix(shell, p, " " + t);
    assert s == p + (" " + t);
    assert Lex(shell, " " + t, false) == Some(Word("", " " + t));
    assert p + "" == p;
    assert (" " + t)[1..] == t;
  }

  lemma LastWord(shell: Shell, p: string, v: string, rest: string)
    requires PlainText(p) && AtEnd(rest)
    ensures LexLine(shell, p + Quote(shell, v) + rest) == Some(Line([p + v], rest))
  {
    var s := p + Quote(shell, v) + rest;
    QuoteRoundTrips(shell, v, rest);
    PlainPrefix(shell, p, Quote(shell, v) + rest);
    assert s == p + (Quote(shell, v) + rest);
    assert s[0] == (if p == "" then '\'' else p[0]);
    assert LexLine(shell, rest) == Some(Line([], rest));
    assert [p + v] + [] == [p + v];
  }

  /** A variable name. */
  predicate Name(s: string) {
    s != "" && forall i :: 0 <= i < |s| ==> 'a' <= s[i] <= 'z' || 'A' <= s[i] <= 'Z' || '0' <= s[i] <= '9' || s[i] == '_'
  }

  lemma PlainWords(key: string)
    requires Name(key)
    ensures PlainText(key) && PlainText(key + "=")
  {
  }

  lemma CommandWords()
    ensures PlainText("export") && PlainText("set") && PlainText("-gx")
  {
  }

  /** A command word, then one argument that ends in a quoted value. */
  lemma PosixLine(w: string, p: string, value: string, rest: string)
    requires PlainText(w) && w != "" && PlainText(p) && AtEnd(rest)
    ensures LexLine(Sh, w + " " + (p + Quote(Sh, value) + rest)) == Some(Line([w, p + value], rest))
  {
    PlainWordFirst(Sh, w, p + Quote(Sh, value) + rest);
    LastWord(Sh, p, value, rest);
    assert [w] + [p + value] == [w, p + value];
  }

  lemma Prepend(shell: Shell, p: string, t: string, l: Line)
    requires PlainText(p) && p != "" && LexLine(shell, t) == Some(l)
    ensures LexLine(shell, p + " " + t) == Some(Line([p] + l.words, l.rest))
  {
    PlainWordFirst(shell, p, t);
  }

  /** Three plain words and a quoted one. */
  lemma FishLine(w: string, x: string, y: string, value: string, rest: string)
    requires PlainText(w) && w != "" && PlainText(x) && x != "" && PlainText(y) && y != "" && AtEnd(rest)
    ensures LexLine(Fish, w + " " + (x + " " + (y + " " + ("" + Quote(Fish, value) + rest))))
         == Some(Line([w, x, y, value], rest))
  {
    var last := "" + Quote(Fish, value) + rest;
    LastWord(Fish, "", value, rest);
    assert "" + value == value;
    Prepend(Fish, y, last, Line([value], rest));
    Prepend(Fish, x, y + " " + last, Line([y] + [value], rest));
    Prepend(Fish, w, x + " " + (y + " " + last), Line([x] + ([y] + [value]), rest));
    assert [w] + ([x] + ([y] + [value])) == [w, x, y, value];
  }

  lemma LineParts(key: string, value: string, rest: string)
    ensures ExportLine(Sh, key, value) + rest == "export" + " " + ((key + "=") + Quote(Sh, value) + rest)
    ensures ExportLine(Fish, key, value) + rest
         == "set" + " " + ("-gx" + " " + (key + " " + ("" + Quote(Fish, value) + rest)))
  {
    assert "export " == "export" + " ";
    assert "set -gx " == "set" + " " + "-gx" + " ";
    assert "" + Quote(Fish, value) + rest == Quote(Fish, value) + rest;
  }

  /**
   For every value, the export line is read back as exactly the assignment it stands for, and the
   lexer stops at the end of the line.
   */
  lemma ExportRoundTrips(shell: Shell, key: string, value: string, rest: string)
    requires Name(key) && AtEnd(rest)
    ensures LexLine(shell, ExportLine(shell, key, value) + rest)
         == Some(Line(if shell.Sh? then ["export", key + "=" + value] else ["set", "-gx", key, value], rest))
  {
    PlainWords(key);
    CommandWords();
    LineParts(key, value, rest);
    if shell.Sh? {
      PosixLine("export", key + "=", value, rest);
    } else {
      FishLine("set", "-gx", key, value, rest);
    }
  }
}
