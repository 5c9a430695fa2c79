/** Quoting of file names, and how a POSIX shell splits the quoted text back into words. */
module Shell {
  import opened Wrappers
  import opened Text

  // ---- Quoting ----------------------------------------------------------------------------------------------------

  predicate IsSafe(c: char) {
    || 'a' <= c <= 'z' || 'A' <= c <= 'Z' || '0' <= c <= '9'
    || c == '.' || c == '/' || c == '_' || c == '-' || c == ':' || c == '@' || c == '+'
  }

  predicate AllSafe(s: string) {
    forall i | 0 <= i < |s| :: IsSafe(s[i])
  }

  /** The text between the quotes: an embedded quote closes them, adds an escaped quote, and reopens them. */
  function QuoteBody(s: string): string {
    if s == "" then "" else (if s[0] == '\'' then "'\\''" else [s[0]]) + QuoteBody(s[1..])
  }

  function Escaped(s: string): string {
    if AllSafe(s) && s != "" then s else "'" + QuoteBody(s) + "'"
  }

  lemma {:induction false} QuoteBodyConcat(a: string, b: string)
    ensures QuoteBody(a + b) == QuoteBody(a) + QuoteBody(b)
  {
    if a == "" {
      assert a + b == b;
    } else {
      assert (a + b)[1..] == a[1..] + b;
      QuoteBodyConcat(a[1..], b);
    }
  }

  /**
   * Exactly the non-empty names of ASCII letters, digits and seven further characters are left as they are; the others are
   * put in quotes.
   */
  lemma LeftAsTheyAre(s: string)
    ensures Escaped(s) == s <==> s != "" && forall c | c in s ::
              48 <= c as int <= 57 || 65 <= c as int <= 90 || 97 <= c as int <= 122 || c in "./_-:@+"
    ensures Escaped(s) != s ==> |Escaped(s)| > |s| && Escaped(s)[0] == '\'' == Escaped(s)[|Escaped(s)| - 1]
  {
    assert forall c :: IsSafe(c) <==>
             48 <= c as int <= 57 || 65 <= c as int <= 90 || 97 <= c as int <= 122 || c in "./_-:@+";
    QuoteBodyLonger(s);
  }

  lemma {:induction false} QuoteBodyLonger(s: string)
    ensures |QuoteBody(s)| >= |s|
  {
    if s != "" {
      QuoteBodyLonger(s[1..]);
    }
  }

  method ShellEscape(s: string) returns (out: string)
    ensures out == Escaped(s)
  {
    if AllSafe(s) && s != "" {
      return s;
    }
    out := "'";
    for i := 0 to |s|
      invariant out == "'" + QuoteBody(s[..i])
    {
      assert s[..i + 1] == s[..i] + [s[i]];
      QuoteBodyConcat(s[..i], [s[i]]);
      if s[i] == '\'' {
        out := out + "'\\''";
      } else {
        out := out + [s[i]];
      }
    }
    assert s[..|s|] == s;
    out := out + "'";
  }

  // ---- Splitting into words (POSIX.1-2017 Shell and Utilities, sections 2.2.1, 2.2.2, 2.3 and 2.6.7) ----------------

  datatype Mode = Between | InWord(word: string) | InQuotes(word: string)

  predicate IsBlank(c: char) {
    c == ' ' || c == '\t'
  }

  /** Characters that mean more than themselves when unquoted; this scanner gives up on them. */
  predicate IsSpecial(c: char) {
    || c == '|' || c == '&' || c == ';' || c == '<' || c == '>' || c == '(' || c == ')' || c == '$' || c == '`' || c == '"'
    || c == '*' || c == '?' || c == '[' || c == '#' || c == '~' || c == '=' || c == '%' || c == '{' || c == '}' || c == '!'
    || c == '\n'
  }

  function WordOf(mode: Mode): string {
    if mode.Between? then "" else mode.word
  }

  /** The words completed by `s`, and the mode the scanner is left in. */
  function Scan(s: string, mode: Mode): Option<(seq<string>, Mode)>
    decreases |s|
  {
    if s == "" then Some(([], mode))
    else if mode.InQuotes? then
      Scan(s[1..], if s[0] == '\'' then InWord(mode.word) else InQuotes(mode.word + [s[0]]))
    else if IsBlank(s[0]) then
      if mode.Between? then Scan(s[1..], Between) else FirstWord(mode.word, Scan(s[1..], Between))
    else if s[0] == '\'' then Scan(s[1..], InQuotes(WordOf(mode)))
    else if s[0] == '\\' then
      if |s| == 1 then None
      else if s[1] == '\n' then Scan(s[2..], mode)
      else Scan(s[2..], InWord(WordOf(mode) + [s[1]]))
    else if IsSpecial(s[0]) then None
    else Scan(s[1..], InWord(WordOf(mode) + [s[0]]))
  }

  function FirstWord(word: string, rest: Option<(seq<string>, Mode)>): Option<(seq<string>, Mode)> {
    if rest.None? then None else Some(([word] + rest.value.0, rest.value.1))
  }

  function Close(r: (seq<string>, Mode)): Option<seq<string>> {
    match r.1
    case Between => Some(r.0)
    case InWord(word) => Some(r.0 + [word])
    case InQuotes(_) => None
  }

  /** Quote removal is done by the scanner, so these are the final words. */
  function Words(s: string): Option<seq<string>> {
    var r := Scan(s, Between);
    if r.None? then None else Close(r.value)
  }

  // ---- The round trip ---------------------------------------------------------------------------------------------

  lemma SafeStep(c: char, rest: string, mode: Mode)
    requires IsSafe(c) && !mode.InQuotes?
    ensures Scan([c] + rest, mode) == Scan(rest, InWord(WordOf(mode) + [c]))
  {
    hide IsBlank, IsSpecial, IsSafe;
    SafeIsPlain(c);
    assert ([c] + rest)[1..] == rest;
  }

  lemma {:induction false} ScanSafe(s: string, tail: string, mode: Mode)
    requires AllSafe(s) && s != "" && !mode.InQuotes?
    ensures Scan(s + tail, mode) == Scan(tail, InWord(WordOf(mode) + s))
    decreases |s|
  {
    hide Scan, IsSafe;
    var word, rest := WordOf(mode) + [s[0]], s[1..];
    assert s + tail == [s[0]] + (rest + tail);
    SafeStep(s[0], rest + tail, mode);
    if rest == "" {
      assert rest + tail == tail && word == WordOf(mode) + s;
    } else {
      ScanSafe(rest, tail, InWord(word));
      assert word + rest == WordOf(mode) + s;
    }
  }

  lemma SafeIsPlain(c: char)
    requires IsSafe(c)
    ensures !IsBlank(c) && !IsSpecial(c) && c != '\'' && c != '\\'
  {
  }

  lemma {:induction false} ScanQuoted(s: string, tail: string, word: string)
    ensures Scan(QuoteBody(s) + "'" + tail, InQuotes(word)) == Scan(tail, InWord(word + s))
    decreases |s|
  {
    var text := QuoteBody(s) + "'" + tail;
    if s == "" {
      assert text[1..] == tail && word + s == word;
    } else {
      var rest := QuoteBody(s[1..]) + "'" + tail;
      assert word + [s[0]] + s[1..] == word + s;
      ScanQuoted(s[1..], tail, word + [s[0]]);
      if s[0] == '\'' {
        assert text == "'\\''" + rest;
        ReopenQuotes(rest, word);
      } else {
        assert text == [s[0]] + rest;
        assert text[1..] == rest;
      }
    }
  }

  lemma ReopenQuotes(rest: string, word: string)
    ensures Scan("'\\''" + rest, InQuotes(word)) == Scan(rest, InQuotes(word + ['\'']))
  {
    var text := "'\\''" + rest;
    assert text[1..] == "\\''" + rest;
    assert text[1..][2..] == "'" + rest;
    assert text[1..][2..][1..] == rest;
    assert Scan(text, InQuotes(word)) == Scan(text[1..], InWord(word));
    assert Scan(text[1..], InWord(word)) == Scan(text[1..][2..], InWord(word + ['\'']));
  }

  /** Scanning a quoted name adds exactly the name to the current word. */
  lemma ScanEscaped(s: string, tail: string, mode: Mode)
    requires !mode.InQuotes?
    ensures Scan(Escaped(s) + tail, mode) == Scan(tail, InWord(WordOf(mode) + s))
  {
    hide IsSafe;
    if AllSafe(s) && s != "" {
      ScanSafe(s, tail, mode);
    } else {
      var text := Escaped(s) + tail;
      assert text == "'" + (QuoteBody(s) + "'" + tail);
      assert text[1..] == QuoteBody(s) + "'" + tail;
      ScanQuoted(s, tail, WordOf(mode));
    }
  }

  function EscapedAll(names: seq<string>): (r: seq<string>)
    ensures |r| == |names|
  {
    seq(|names|, i requires 0 <= i < |names| => Escaped(names[i]))
  }

  /** The names as they stand in a command: quoted and joined by spaces. */
  function Expansion(names: seq<string>): string {
    Join(EscapedAll(names), " ")
  }

  lemma ExpansionCons(names: seq<string>)
    requires |names| > 1
    ensures Expansion(names) == Escaped(names[0]) + " " + Expansion(names[1..])
  {
    assert EscapedAll(names)[1..] == EscapedAll(names[1..]);
  }

  lemma BlankEndsWord(blank: char, rest: string, word: string)
    requires IsBlank(blank)
    ensures Scan([blank] + rest, InWord(word)) == FirstWord(word, Scan(rest, Between))
    ensures Scan([blank] + rest, Between) == Scan(rest, Between)
  {
    assert ([blank] + rest)[1..] == rest;
  }

  lemma {:induction false} ScanExpansion(names: seq<string>, tail: string)
    requires names != []
    ensures Scan(Expansion(names) + tail, Between) ==
            Prepend(names[..|names| - 1], Scan(tail, InWord(names[|names| - 1])))
    decreases |names|
  {
    hide Scan, Escaped, Expansion;
    ScanEscaped(names[0], (if |names| == 1 then "" else " " + Expansion(names[1..])) + tail, Between);
    assert "" + names[0] == names[0];
    if |names| == 1 {
      SingleExpansion(names[0]);
      assert names == [names[0]];
      assert "" + tail == tail;
      PrependNothing(Scan(tail, InWord(names[0])));
      assert names[..0] == [];
    } else {
      var rest := names[1..];
      var after := Expansion(rest) + tail;
      ExpansionCons(names);
      assert " " + Expansion(rest) + tail == " " + after;
      assert Expansion(names) + tail == Escaped(names[0]) + (" " + after);
      BlankEndsWord(' ', after, names[0]);
      ScanExpansion(rest, tail);
      FirstThenPrepend(names[0], rest[..|rest| - 1], Scan(tail, InWord(rest[|rest| - 1])));
      assert names[..|names| - 1] == [names[0]] + rest[..|rest| - 1];
    }
  }

  lemma PrependNothing(r: Option<(seq<string>, Mode)>)
    ensures Prepend([], r) == r
  {
    assert r.Some? ==> [] + r.value.0 == r.value.0;
  }

  lemma FirstThenPrepend(word: string, words: seq<string>, r: Option<(seq<string>, Mode)>)
    ensures FirstWord(word, Prepend(words, r)) == Prepend([word] + words, r)
  {
    assert r.Some? ==> [word] + (words + r.value.0) == [word] + words + r.value.0;
  }

  lemma SingleExpansion(name: string)
    ensures Expansion([name]) == Escaped(name)
  {
  }

  function Prepend(words: seq<string>, r: Option<(seq<string>, Mode)>): Option<(seq<string>, Mode)> {
    if r.None? then None else Some((words + r.value.0, r.value.1))
  }

  /** The shell reads the quoted, space-joined names back as exactly those words, whatever characters they hold. */
  lemma QuotingRoundTrip(names: seq<string>)
    ensures Words(Expansion(names)) == Some(names)
  {
    if names == [] {
      assert EscapedAll(names) == [];
    } else {
      hide Expansion;
      ScanExpansion(names, "");
      assert Expansion(names) + "" == Expansion(names);
      assert names == names[..|names| - 1] + [names[|names| - 1]];
      assert names[..|names| - 1] + [] == names[..|names| - 1];
    }
  }

  /** The mode after one character that stands for itself or for a quote. */
  function Next(c: char, mode: Mode): Mode {
    if mode.InQuotes? then (if c == '\'' then InWord(mode.word) else InQuotes(mode.word + [c]))
    else if c == '\'' then InQuotes(WordOf(mode))
    else InWord(WordOf(mode) + [c])
  }

  lemma StepOne(s: string, mode: Mode)
    requires s != "" && (mode.InQuotes? || (!IsBlank(s[0]) && s[0] != '\\'))
    ensures Scan(s, mode) ==
            if mode.InQuotes? || s[0] == '\'' || !IsSpecial(s[0]) then Scan(s[1..], Next(s[0], mode)) else None
  {
    hide IsSpecial, IsBlank;
  }

  lemma StepBlank(s: string, mode: Mode)
    requires s != "" && !mode.InQuotes? && IsBlank(s[0])
    ensures Scan(s, mode) ==
            if mode.Between? then Scan(s[1..], Between) else FirstWord(mode.word, Scan(s[1..], Between))
  {
    hide IsBlank;
  }

  lemma StepEscape(s: string, mode: Mode)
    requires |s| > 1 && !mode.InQuotes? && s[0] == '\\'
    ensures Scan(s, mode) == Scan(s[2..], if s[1] == '\n' then mode else InWord(WordOf(mode) + [s[1]]))
  {
  }

  lemma {:induction false} ScanConcat(a: string, b: string, mode: Mode)
    requires Scan(a, mode).Some?
    requires Scan(b, Scan(a, mode).value.1).Some?
    requires a == "" || a[|a| - 1] != '\\'
    ensures Scan(a + b, mode) == Prepend(Scan(a, mode).value.0, Scan(b, Scan(a, mode).value.1))
    decreases |a|
  {
    if a == "" {
      assert a + b == b;
      assert Prepend([], Scan(b, mode)).value.0 == Scan(b, mode).value.0;
    } else {
      assert (a + b)[1..] == a[1..] + b && (a + b)[0] == a[0];
      if !mode.InQuotes? && IsBlank(a[0]) {
        StepBlank(a, mode);
        StepBlank(a + b, mode);
        hide Scan, IsBlank;
        ScanConcat(a[1..], b, Between);
        if !mode.Between? {
          var front, back := Scan(a[1..], Between).value, Scan(b, Scan(a, mode).value.1).value;
          assert [mode.word] + (front.0 + back.0) == [mode.word] + front.0 + back.0;
        }
      } else if !mode.InQuotes? && a[0] == '\\' {
        assert (a + b)[2..] == a[2..] + b;
        StepEscape(a, mode);
        StepEscape(a + b, mode);
        hide Scan, IsBlank;
        ScanConcat(a[2..], b, if a[1] == '\n' then mode else InWord(WordOf(mode) + [a[1]]));
      } else {
        StepOne(a, mode);
        StepOne(a + b, mode);
        hide Scan, IsBlank;
        ScanConcat(a[1..], b, Next(a[0], mode));
      }
    }
  }

  /**
   * Put between blanks in a command, the expansion contributes exactly the names, in order, between the words that stand
   * before and after it.
   */
  lemma NamesAreWords(pre: string, names: seq<string>, post: string)
    requires names != []
    requires pre == "" || IsBlank(pre[|pre| - 1])
    requires post == "" || IsBlank(post[0])
    requires Scan(pre, Between).Some? && Scan(pre, Between).value.1.Between? && Words(post).Some?
    ensures Words(pre + Expansion(names) + post) == Some(Scan(pre, Between).value.0 + names + Words(post).value)
  {
    hide Scan, Expansion, IsBlank, Words;
    var front, last := names[..|names| - 1], names[|names| - 1];
    assert names == front + [last];
    var text, start := Expansion(names) + post, Scan(pre, Between).value.0;
    assert pre + Expansion(names) + post == pre + text by { Regroup(pre, Expansion(names), post); }
    ScanExpansion(names, post);
    WordsAre(pre + text);
    LastWords(start + front, last, post);
    PreThen(pre, text);
    var tail := Scan(post, InWord(last)).value;
    assert start + (front + tail.0) == start + front + tail.0;
    assert start + names == start + front + [last];
  }

  lemma Regroup(a: string, b: string, c: string)
    ensures a + b + c == a + (b + c)
  {
  }

  lemma WordsAre(s: string)
    ensures Words(s) == if Scan(s, Between).None? then None else Close(Scan(s, Between).value)
  {
    hide Scan;
  }

  lemma LastWord(post: string, last: string)
    requires post == "" || IsBlank(post[0])
    ensures Scan(post, InWord(last)) == if post == "" then Some(([], InWord(last))) else FirstWord(last, Scan(post, Between))
  {
    hide IsSpecial;
    if post != "" {
      assert post == [post[0]] + post[1..];
      BlankEndsWord(post[0], post[1..], last);
    }
  }

  lemma LastWords(before: seq<string>, last: string, post: string)
    requires post == "" || IsBlank(post[0])
    requires Words(post).Some?
    ensures Scan(post, InWord(last)).Some?
    ensures Close((before + Scan(post, InWord(last)).value.0, Scan(post, InWord(last)).value.1)) ==
            Some(before + [last] + Words(post).value)
  {
    LastWord(post, last);
    if post == "" {
      assert Words(post) == Some([]);
      assert before + [] == before && before + [last] + [] == before + [last];
    } else {
      hide Scan;
      EndWords(post, before + [last]);
      var r := Scan(post, Between).value;
      assert before + ([last] + r.0) == before + [last] + r.0;
    }
  }

  lemma PreThen(pre: string, text: string)
    requires pre == "" || IsBlank(pre[|pre| - 1])
    requires Scan(pre, Between).Some? && Scan(pre, Between).value.1.Between? && Scan(text, Between).Some?
    ensures Scan(pre + text, Between) == Prepend(Scan(pre, Between).value.0, Scan(text, Between))
  {
    hide Scan;
    ScanConcat(pre, text, Between);
  }

  lemma EndWords(post: string, before: seq<string>)
    requires Words(post).Some?
    ensures Scan(post, Between).Some?
    ensures Close((before + Scan(post, Between).value.0, Scan(post, Between).value.1)) == Some(before + Words(post).value)
  {
    hide Scan;
    var r := Scan(post, Between).value;
    if r.1.InWord? {
      assert before + r.0 + [r.1.word] == before + (r.0 + [r.1.word]);
    }
  }
}
