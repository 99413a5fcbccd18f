/** The printers that make text safe inside HTML and inside a shell command line, and the matching readers. */
module Escaping {
  import opened Wrappers

  /** `replace` with a global pattern of one character. */
  function ReplaceAll(s: string, c: char, sub: string): (r: string) {
    if s == "" then "" else (if s[0] == c then sub else [s[0]]) + ReplaceAll(s[1..], c, sub)
  }

  lemma {:induction false} ReplaceConcat(a: string, b: string, c: char, sub: string)
    ensures ReplaceAll(a + b, c, sub) == ReplaceAll(a, c, sub) + ReplaceAll(b, c, sub)
  {
    if a == "" {
      assert a + b == b;
    } else {
      ReplaceConcat(a[1..], b, c, sub);
      assert (a + b)[1..] == a[1..] + b;
      var head := if a[0] == c then sub else [a[0]];
      assert head + (ReplaceAll(a[1..], c, sub) + ReplaceAll(b, c, sub))
             == (head + ReplaceAll(a[1..], c, sub)) + ReplaceAll(b, c, sub);
    }
  }

  lemma {:induction false} ReplaceAbsent(s: string, c: char, sub: string)
    requires c !in s
    ensures ReplaceAll(s, c, sub) == s
  {
    if s != "" {
      ReplaceAbsent(s[1..], c, sub);
      assert s == [s[0]] + s[1..];
    }
  }

  lemma ReplaceOne(c: char, sub: string)
    ensures ReplaceAll([c], c, sub) == sub
  {
    assert [c][1..] == "";
    assert sub + "" == sub;
  }

  // ----- HTML

  const AMP: string := "&amp;"
  const LT: string := "&lt;"
  const GT: string := "&gt;"
  const QUOT: string := "&quot;"
  const APOS: string := "&#39;"

  /** The five replacements, one after the other. */
  function EscapeHtml(s: string): (r: string) {
    var s1 := ReplaceAll(s, '&', AMP);
    var s2 := ReplaceAll(s1, '<', LT);
    var s3 := ReplaceAll(s2, '>', GT);
    var s4 := ReplaceAll(s3, '"', QUOT);
    ReplaceAll(s4, '\'', APOS)
  }

  function Entity(c: char): (r: string) {
    if c == '&' then AMP
    else if c == '<' then LT
    else if c == '>' then GT
    else if c == '"' then QUOT
    else if c == '\'' then APOS
    else [c]
  }

  /** Each character replaced once. */
  function EscapeEach(s: string): (r: string) {
    if s == "" then "" else Entity(s[0]) + EscapeEach(s[1..])
  }

  lemma EscapeConcat(a: string, b: string)
    ensures EscapeHtml(a + b) == EscapeHtml(a) + EscapeHtml(b)
  {
    ReplaceConcat(a, b, '&', AMP);
    var a1, b1 := ReplaceAll(a, '&', AMP), ReplaceAll(b, '&', AMP);
    ReplaceConcat(a1, b1, '<', LT);
    var a2, b2 := ReplaceAll(a1, '<', LT), ReplaceAll(b1, '<', LT);
    ReplaceConcat(a2, b2, '>', GT);
    var a3, b3 := ReplaceAll(a2, '>', GT), ReplaceAll(b2, '>', GT);
    ReplaceConcat(a3, b3, '"', QUOT);
    ReplaceConcat(ReplaceAll(a3, '"', QUOT), ReplaceAll(b3, '"', QUOT), '\'', APOS);
  }

  /** No later replacement touches what an earlier one wrote. */
  lemma EscapeOne(c: char)
    ensures EscapeHtml([c]) == Entity(c)
  {
    var t := Entity(c);
    assert '<' !in t && '>' !in t && '"' !in t && '\'' !in t by { EntityIsInert(c); }
    if c == '&' {
      ReplaceOne('&', AMP);
      ReplaceAbsent(t, '<', LT);
      ReplaceAbsent(t, '>', GT);
      ReplaceAbsent(t, '"', QUOT);
    } else if c == '<' {
      ReplaceAbsent([c], '&', AMP);
      ReplaceOne('<', LT);
      ReplaceAbsent(t, '>', GT);
      ReplaceAbsent(t, '"', QUOT);
    } else if c == '>' {
      ReplaceAbsent([c], '&', AMP);
      ReplaceAbsent([c], '<', LT);
      ReplaceOne('>', GT);
      ReplaceAbsent(t, '"', QUOT);
    } else {
      ReplaceAbsent([c], '&', AMP);
      ReplaceAbsent([c], '<', LT);
      ReplaceAbsent([c], '>', GT);
      if c == '"' {
        ReplaceOne('"', QUOT);
      } else {
        ReplaceAbsent([c], '"', QUOT);
        if c == '\'' { ReplaceOne('\'', APOS); }
      }
    }
    if c != '\'' { ReplaceAbsent(t, '\'', APOS); }
  }

  lemma EntityIsInert(c: char)
    ensures '<' !in Entity(c) && '>' !in Entity(c) && '"' !in Entity(c) && '\'' !in Entity(c)
  {
  }

  /** The five sequential replacements are one pass over the characters. */
  lemma {:induction false} EscapeIsOnePass(s: string)
    ensures EscapeHtml(s) == EscapeEach(s)
  {
    if s != "" {
      assert s == [s[0]] + s[1..];
      EscapeConcat([s[0]], s[1..]);
      EscapeOne(s[0]);
      EscapeIsOnePass(s[1..]);
    }
  }

  /** Nothing in the escaped text opens a tag or ends an attribute. */
  lemma {:induction false} EscapedTextIsInert(s: string)
    ensures var r := EscapeHtml(s); '<' !in r && '>' !in r && '"' !in r && '\'' !in r
  {
    EscapeIsOnePass(s);
    if s != "" {
      EscapeIsOnePass(s[1..]);
      EscapedTextIsInert(s[1..]);
      EntityIsInert(s[0]);
    }
  }

  predicate IsEscaped(c: char) {
    c == '&' || c == '<' || c == '>' || c == '"' || c == '\''
  }

  /** A character reference at the start of a text: what it stands for and how many characters it takes up. */
  datatype Reference = Reference(text: string, length: nat)

  /** How a browser reads references, whatever further names and numbers it knows. */
  type ReferenceReader = string -> Option<Reference>

  /** References begin with an ampersand, and the five that the printer writes are read as what they stand for. */
  ghost predicate ReadsHtml(read: ReferenceReader) {
    && (forall s :: read(s).Some? ==> s != "" && s[0] == '&' && 1 <= read(s).value.length <= |s|)
    && (forall c, rest :: IsEscaped(c) ==> read(Entity(c) + rest) == Some(Reference([c], |Entity(c)|)))
  }

  /** Reading HTML text: character references are replaced, all else stands for itself. */
  ghost function DecodeHtml(read: ReferenceReader, s: string): (r: string)
    requires ReadsHtml(read)
    decreases |s|
  {
    if s == "" then ""
    else match read(s)
      case Some(reference) => reference.text + DecodeHtml(read, s[reference.length..])
      case None => [s[0]] + DecodeHtml(read, s[1..])
  }

  lemma DecodeEntity(read: ReferenceReader, c: char, rest: string)
    requires ReadsHtml(read)
    ensures DecodeHtml(read, Entity(c) + rest) == [c] + DecodeHtml(read, rest)
  {
    var t := Entity(c) + rest;
    assert t[|Entity(c)|..] == rest;
    if IsEscaped(c) {
      assert read(t) == Some(Reference([c], |Entity(c)|));
    } else {
      assert t[0] == c != '&';
      assert read(t).None?;
    }
  }

  /** However many references a reader knows, reading escaped text gives back every string. */
  lemma {:induction false} HtmlRoundTrip(read: ReferenceReader, s: string)
    requires ReadsHtml(read)
    ensures DecodeHtml(read, EscapeHtml(s)) == s
  {
    EscapeIsOnePass(s);
    if s != "" {
      EscapeIsOnePass(s[1..]);
      DecodeEntity(read, s[0], EscapeEach(s[1..]));
      HtmlRoundTrip(read, s[1..]);
      assert s == [s[0]] + s[1..];
    }
  }

  /** The reader that knows nothing but the five. */
  function ReadFive(s: string): (r: Option<Reference>) {
    if AMP <= s then Some(Reference("&", 5))
    else if LT <= s then Some(Reference("<", 4))
    else if GT <= s then Some(Reference(">", 4))
    else if QUOT <= s then Some(Reference("\"", 6))
    else if APOS <= s then Some(Reference("'", 5))
    else None
  }

  lemma ReadFiveReads(c: char, rest: string)
    requires IsEscaped(c)
    ensures ReadFive(Entity(c) + rest) == Some(Reference([c], |Entity(c)|))
  {
    var t := Entity(c) + rest;
    assert Entity(c) <= t;
    assert t[1] == Entity(c)[1];
    assert AMP[1] == 'a' && LT[1] == 'l' && GT[1] == 'g' && QUOT[1] == 'q' && APOS[1] == '#';
  }

  /** Such readers exist. */
  lemma FiveAreEnough()
    ensures ReadsHtml(ReadFive)
  {
    forall c, rest | IsEscaped(c) ensures ReadFive(Entity(c) + rest) == Some(Reference([c], |Entity(c)|)) {
      ReadFiveReads(c, rest);
    }
  }

  // ----- Shell words

  const APOSTROPHE: string := ['\'', '"', '\'', '"', '\'']

  function QuoteShellArg(text: string): (r: string) {
    if |text| == 0 then "''" else "'" + ReplaceAll(text, '\'', APOSTROPHE) + "'"
  }

  datatype Mode = Plain | Single | Double

  /** Characters that mean something to the shell outside quotes (section 2.2 of the POSIX Shell Command Language). */
  predicate Special(c: char) {
    c in {'|', '&', ';', '<', '>', '(', ')', '$', '`', '\n', '*', '?', '[', '#', '~', '=', '%'}
  }

  function Finish(word: Option<string>, words: seq<string>): (r: seq<string>) {
    if word.Some? then words + [word.value] else words
  }

  function Extend(word: Option<string>, c: char): (r: Option<string>) {
    Some((if word.Some? then word.value else "") + [c])
  }

  function Begin(word: Option<string>): (r: Option<string>) {
    Some(if word.Some? then word.value else "")
  }

  /**
   * The words of a simple command. Inside single quotes every character is literal (section 2.2.2),
   * inside double quotes all but `$`, backquote, backslash and the closing quote are (section 2.2.3).
   * Text that the shell would expand, redirect or leave unfinished has no words here.
   */
  function Words(s: string, mode: Mode, word: Option<string>, words: seq<string>): (r: Option<seq<string>>)
    decreases |s|
  {
    if s == "" then (if mode.Plain? then Some(Finish(word, words)) else None)
    else
      var c, rest := s[0], s[1..];
      match mode
      case Single => if c == '\'' then Words(rest, Plain, word, words) else Words(rest, Single, Extend(word, c), words)
      case Double =>
        if c == '"' then Words(rest, Plain, word, words)
        else if c == '$' || c == '`' then None
        else if c == '\\' && rest != "" && rest[0] in {'$', '`', '"', '\\'}
        then Words(rest[1..], Double, Extend(word, rest[0]), words)
        else if c == '\\' && rest != "" && rest[0] == '\n' then Words(rest[1..], Double, word, words)
        else Words(rest, Double, Extend(word, c), words)
      case Plain =>
        if c == ' ' || c == '\t' then Words(rest, Plain, None, Finish(word, words))
        else if c == '\'' then Words(rest, Single, Begin(word), words)
        else if c == '"' then Words(rest, Double, Begin(word), words)
        else if c == '\\' then
          if rest == "" then None
          else if rest[0] == '\n' then Words(rest[1..], Plain, word, words)
          else Words(rest[1..], Plain, Extend(word, rest[0]), words)
        else if Special(c) then None
        else Words(rest, Plain, Extend(word, c), words)
  }

  function ShellWords(s: string): (r: Option<seq<string>>) {
    Words(s, Plain, None, [])
  }

  /** A quote inside single quotes: close, a double-quoted quote, open again. */
  lemma WordsApostrophe(rest: string, w: string, words: seq<string>)
    ensures Words(APOSTROPHE + rest, Single, Some(w), words) == Words(rest, Single, Some(w + ['\'']), words)
  {
    var s0 := APOSTROPHE + rest;
    var s1, s2, s3, s4 := ['"', '\'', '"', '\''] + rest, ['\'', '"', '\''] + rest, ['"', '\''] + rest, ['\''] + rest;
    assert s0[0] == '\'' && s0[1..] == s1;
    assert s1[0] == '"' && s1[1..] == s2;
    assert s2[0] == '\'' && s2[1..] == s3;
    assert s3[0] == '"' && s3[1..] == s4;
    assert s4[0] == '\'' && s4[1..] == rest;
    assert Words(s0, Single, Some(w), words) == Words(s1, Plain, Some(w), words);
    assert Words(s1, Plain, Some(w), words) == Words(s2, Double, Some(w), words);
    assert Words(s2, Double, Some(w), words) == Words(s3, Double, Some(w + ['\'']), words);
    assert Words(s3, Double, Some(w + ['\'']), words) == Words(s4, Plain, Some(w + ['\'']), words);
  }

  lemma {:induction false} WordsQuoted(text: string, rest: string, w: string, words: seq<string>)
    ensures Words(ReplaceAll(text, '\'', APOSTROPHE) + (['\''] + rest), Single, Some(w), words) ==
            Words(rest, Plain, Some(w + text), words)
    decreases |text|
  {
    var close := ['\''] + rest;
    if text == "" {
      assert ReplaceAll(text, '\'', APOSTROPHE) + close == close;
      assert close[1..] == rest && w + text == w;
    } else {
      var head := if text[0] == '\'' then APOSTROPHE else [text[0]];
      var tail := ReplaceAll(text[1..], '\'', APOSTROPHE) + close;
      assert ReplaceAll(text, '\'', APOSTROPHE) + close == head + tail;
      WordsQuoted(text[1..], rest, w + [text[0]], words);
      assert (w + [text[0]]) + text[1..] == w + text;
      if text[0] == '\'' {
        WordsApostrophe(tail, w, words);
      } else {
        assert (head + tail)[1..] == tail;
      }
    }
  }

  /** A quoted argument adds exactly its own text to the word being read. */
  lemma QuotedShape(text: string, rest: string)
    ensures QuoteShellArg(text) + rest == ['\''] + (ReplaceAll(text, '\'', APOSTROPHE) + (['\''] + rest))
  {
    if text == "" {
      assert QuoteShellArg(text) == ['\''] + "" + ['\''];
    }
  }

  lemma WordsOfQuoted(text: string, rest: string, words: seq<string>)
    ensures Words(QuoteShellArg(text) + rest, Plain, None, words) == Words(rest, Plain, Some(text), words)
  {
    var s, body := QuoteShellArg(text) + rest, ReplaceAll(text, '\'', APOSTROPHE) + (['\''] + rest);
    QuotedShape(text, rest);
    assert s[1..] == body && "" + text == text;
    OpenQuote(s, words);
    WordsQuoted(text, rest, "", words);
  }

  lemma OpenQuote(s: string, words: seq<string>)
    requires s != "" && s[0] == '\''
    ensures Words(s, Plain, None, words) == Words(s[1..], Single, Some(""), words)
  {
  }

  /** Every string, quoted, is read as one word equal to it. */
  lemma QuotedIsOneWord(text: string)
    ensures ShellWords(QuoteShellArg(text)) == Some([text])
  {
    WordsOfQuoted(text, "", []);
    assert QuoteShellArg(text) + "" == QuoteShellArg(text);
    assert [] + [text] == [text];
  }

  function CommandLine(args: seq<string>): (s: string) {
    if args == [] then ""
    else if |args| == 1 then QuoteShellArg(args[0])
    else QuoteShellArg(args[0]) + ([' '] + CommandLine(args[1..]))
  }

  lemma {:induction false} CommandLineWords(args: seq<string>, words: seq<string>)
    ensures Words(CommandLine(args), Plain, None, words) == Some(words + args)
    decreases |args|
  {
    if args == [] {
      assert words + args == words;
    } else if |args| == 1 {
      WordsOfQuoted(args[0], "", words);
      assert QuoteShellArg(args[0]) + "" == QuoteShellArg(args[0]);
      assert [args[0]] == args;
    } else {
      var rest := [' '] + CommandLine(args[1..]);
      WordsOfQuoted(args[0], rest, words);
      assert rest[1..] == CommandLine(args[1..]);
      CommandLineWords(args[1..], words + [args[0]]);
      assert (words + [args[0]]) + args[1..] == words + args;
    }
  }

  /** A command line built from quoted arguments is read back as exactly those arguments. */
  lemma CommandLineRoundTrip(args: seq<string>)
    ensures ShellWords(CommandLine(args)) == Some(args)
  {
    CommandLineWords(args, []);
    assert [] + args == args;
  }
}
