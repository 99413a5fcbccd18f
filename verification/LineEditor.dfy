/**
 * The console's local line editor. It turns raw input into edits of a line and into text to echo; a
 * simple terminal that renders the echo must keep showing the line. One character is one cell.
 */
module LineEditor {
  import opened Wrappers
  import opened Collections

  const PROMPT: string := "hybridcipher> "
  const HISTORY_LIMIT: nat := 100

  const INTERRUPT: char := 3 as char
  const BACKSPACE: char := 8 as char
  const KILL: char := 21 as char
  const ESCAPE: char := 27 as char
  const DELETE: char := 127 as char

  datatype Editor = Editor(line: string, history: seq<string>, historyIndex: Option<nat>)

  datatype Outcome = Outcome(state: Editor, echo: string, submitted: Option<string>, rest: string, reprompt: bool)

  const FRESH: Editor := Editor("", [], None)

  // ----- Text

  /** JavaScript white space and line terminators. */
  predicate IsSpace(c: char) {
    var n := c as int;
    9 <= n <= 13 || n == 0x20 || n == 0xA0 || n == 0x1680 || 0x2000 <= n <= 0x200A
    || n == 0x2028 || n == 0x2029 || n == 0x202F || n == 0x205F || n == 0x3000 || n == 0xFEFF
  }

  function TrimStart(s: string): (r: string) {
    if s != [] && IsSpace(s[0]) then TrimStart(s[1..]) else s
  }

  function TrimEnd(s: string): (r: string) {
    if s != [] && IsSpace(s[|s| - 1]) then TrimEnd(s[..|s| - 1]) else s
  }

  function Trim(s: string): (r: string) {
    TrimEnd(TrimStart(s))
  }

  predicate Trimmed(s: string) {
    s != [] ==> !IsSpace(s[0]) && !IsSpace(s[|s| - 1])
  }

  predicate Printable(s: string) {
    forall k :: 0 <= k < |s| ==> s[k] >= ' ' && s[k] != DELETE
  }

  lemma {:induction false} TrimStartSuffix(s: string) returns (k: nat)
    ensures k <= |s| && TrimStart(s) == s[k..] && (k < |s| ==> !IsSpace(s[k]))
  {
    if s != [] && IsSpace(s[0]) {
      k := TrimStartSuffix(s[1..]);
      k := k + 1;
    } else {
      k := 0;
    }
  }

  lemma {:induction false} TrimEndPrefix(s: string) returns (k: nat)
    ensures k <= |s| && TrimEnd(s) == s[..k] && (k > 0 ==> !IsSpace(s[k - 1]))
  {
    if s != [] && IsSpace(s[|s| - 1]) {
      k := TrimEndPrefix(s[..|s| - 1]);
      assert s[..|s| - 1][..k] == s[..k];
    } else {
      k := |s|;
      assert s[..k] == s;
    }
  }

  lemma TrimIsTrimmed(s: string)
    ensures Trimmed(Trim(s)) && (Printable(s) ==> Printable(Trim(s)))
  {
    var j := TrimStartSuffix(s);
    var k := TrimEndPrefix(s[j..]);
  }

  // ----- Keys

  datatype Key = Enter | Interrupt | Erase | EraseLine | Up | Down | Insert(c: char) | Ignore

  /** The position of the first character from '@' to '~', or the length. */
  function FinalAt(s: string): (k: nat)
    ensures k <= |s|
  {
    if s == [] || '@' <= s[0] <= '~' then 0 else 1 + FinalAt(s[1..])
  }

  function Min(a: int, b: int): (m: int) {
    if a <= b then a else b
  }

  /** The length of the escape sequence that `data` starts with. */
  function SequenceLength(data: string): (n: nat)
    requires data != []
    ensures 1 <= n <= |data|
  {
    if |data| > 1 && data[1] == '[' then Min(2 + FinalAt(data[2..]) + 1, |data|)
    else if |data| > 1 && data[1] == 'O' then Min(3, |data|)
    else Min(2, |data|)
  }

  function SequenceKey(sequence: string): (k: Key) {
    if sequence == [ESCAPE, '[', 'A'] || sequence == [ESCAPE, 'O', 'A'] then Up
    else if sequence == [ESCAPE, '[', 'B'] || sequence == [ESCAPE, 'O', 'B'] then Down
    else Ignore
  }

  datatype Stroke = Stroke(key: Key, length: nat)

  /** The key that nonempty input starts with, and how many characters it takes up. */
  function FirstKey(data: string): (r: Stroke)
    requires data != []
    ensures 1 <= r.length <= |data|
    ensures r.key.Insert? ==> Printable([r.key.c])
  {
    var c := data[0];
    if c == '\r' && |data| > 1 && data[1] == '\n' then Stroke(Enter, 2)
    else if c == '\r' || c == '\n' then Stroke(Enter, 1)
    else if c == INTERRUPT then Stroke(Interrupt, 1)
    else if c == DELETE || c == BACKSPACE then Stroke(Erase, 1)
    else if c == KILL then Stroke(EraseLine, 1)
    else if c == ESCAPE then var n := SequenceLength(data); Stroke(SequenceKey(data[..n]), n)
    else if c >= ' ' then Stroke(Insert(c), 1)
    else Stroke(Ignore, 1)
  }

  // ----- What a key does to the line

  ghost predicate Valid(e: Editor) {
    && Printable(e.line)
    && |e.history| <= HISTORY_LIMIT
    && (forall h <- e.history :: h != "" && Trimmed(h) && Printable(h))
    && (forall k :: 0 < k < |e.history| ==> e.history[k - 1] != e.history[k])
    && (e.historyIndex.Some? ==> e.historyIndex.value < |e.history|)
  }

  /** No key can make the program read past the history. */
  predicate Indexed(e: Editor) {
    e.historyIndex.Some? ==> e.historyIndex.value <= |e.history|
  }

  /** The editor after a key that does not end the line. */
  function Press(e: Editor, k: Key): (r: Editor)
    requires !k.Enter? && !k.Interrupt?
    requires Indexed(e)
  {
    match k
    case Insert(c) => e.(line := e.line + [c])
    case Erase => if e.line == "" then e else e.(line := e.line[..|e.line| - 1])
    case EraseLine => e.(line := "")
    case Up =>
      if e.history == [] then e
      else
        var i := match e.historyIndex case None => |e.history| - 1 case Some(i) => if i == 0 then 0 else i - 1;
        e.(line := e.history[i], historyIndex := Some(i))
    case Down =>
      if e.historyIndex.None? then e
      else if e.historyIndex.value + 1 >= |e.history| then e.(line := "", historyIndex := None)
      else e.(line := e.history[e.historyIndex.value + 1], historyIndex := Some(e.historyIndex.value + 1))
    case Ignore => e
  }

  lemma PressKeepsIndexed(e: Editor, k: Key)
    requires Indexed(e) && !k.Enter? && !k.Interrupt?
    ensures Indexed(Press(e, k))
  {
  }

  function LastEntries(h: seq<string>): (r: seq<string>) {
    if |h| > HISTORY_LIMIT then h[|h| - HISTORY_LIMIT..] else h
  }

  /** The history after the trimmed line `submitted` is entered. */
  function Remember(history: seq<string>, submitted: string): (r: seq<string>) {
    if submitted != "" && (history == [] || history[|history| - 1] != submitted) then LastEntries(history + [submitted])
    else history
  }

  /** Editing without an echo: the editor after `data`, the text left over and how the input ended. */
  datatype Ending = Typing | Entered(command: string) | Cancelled

  datatype Edited = Edited(state: Editor, ending: Ending, rest: string)

  function Edit(e: Editor, data: string): (r: Edited)
    requires Indexed(e)
    decreases |data|
  {
    if data == "" then Edited(e, Typing, "")
    else
      var Stroke(k, n) := FirstKey(data);
      if k.Enter? then
        var command := Trim(e.line);
        Edited(Editor("", Remember(e.history, command), None), Entered(command), data[n..])
      else if k.Interrupt? then Edited(Editor("", e.history, None), Cancelled, "")
      else
        PressKeepsIndexed(e, k);
        Edit(Press(e, k), data[n..])
  }

  lemma PressKeepsValid(e: Editor, k: Key)
    requires Valid(e) && !k.Enter? && !k.Interrupt? && (k.Insert? ==> Printable([k.c]))
    ensures Valid(Press(e, k))
  {
    if k.Insert? {
      assert [k.c][0] == k.c;
    }
  }

  lemma RememberKeepsValid(e: Editor, submitted: string)
    requires Valid(e) && Trimmed(submitted) && Printable(submitted)
    ensures Valid(Editor("", Remember(e.history, submitted), None))
  {
  }

  /** The history never loses its shape, and the index into it stays in range. */
  lemma {:induction false} EditKeepsValid(e: Editor, data: string)
    requires Valid(e)
    ensures Valid(Edit(e, data).state)
    decreases |data|
  {
    if data != "" {
      var Stroke(k, n) := FirstKey(data);
      if k.Enter? {
        TrimIsTrimmed(e.line);
        RememberKeepsValid(e, Trim(e.line));
      } else if !k.Interrupt? {
        PressKeepsValid(e, k);
        EditKeepsValid(Press(e, k), data[n..]);
      }
    }
  }

  lemma EditKey(e: Editor, data: string, k: Key)
    requires Indexed(e) && data != "" && FirstKey(data) == Stroke(k, 1) && !k.Enter? && !k.Interrupt?
    ensures Indexed(Press(e, k)) && Edit(e, data) == Edit(Press(e, k), data[1..])
  {
    PressKeepsIndexed(e, k);
  }

  lemma TypeOne(e: Editor, data: string, next: Editor, rest: string)
    requires Indexed(e) && data != "" && data[0] >= ' ' && data[0] != DELETE
    requires next == e.(line := e.line + [data[0]]) && rest == data[1..]
    ensures Indexed(next) && Edit(e, data) == Edit(next, rest)
  {
    assert Press(e, Insert(data[0])) == next;
    EditKey(e, data, Insert(data[0]));
  }

  lemma {:induction false} TypingPrefix(e: Editor, data: string, n: nat, last: Editor, rest: string)
    requires Indexed(e) && n <= |data| && Printable(data[..n])
    requires last == e.(line := e.line + data[..n]) && rest == data[n..]
    ensures Indexed(last) && Edit(e, data) == Edit(last, rest)
    decreases n
  {
    if n == 0 {
      assert last == e && rest == data;
    } else {
      var text, tail := data[..n - 1], data[n - 1..];
      var next := e.(line := e.line + text);
      assert forall k :: 0 <= k < n - 1 ==> text[k] == data[..n][k];
      assert tail[0] == data[..n][n - 1] && rest == tail[1..];
      assert data[..n] == text + [tail[0]];
      Associates(e.line, text, [tail[0]]);
      TypingPrefix(e, data, n - 1, next, tail);
      TypeOne(next, tail, last, rest);
    }
  }

  /** Typing printable text appends it to the line. */
  lemma TypingAppends(e: Editor, text: string, rest: string)
    requires Indexed(e) && Printable(text)
    ensures Indexed(e.(line := e.line + text)) && Edit(e, text + rest) == Edit(e.(line := e.line + text), rest)
  {
    var data := text + rest;
    assert data[..|text|] == text && data[|text|..] == rest;
    TypingPrefix(e, data, |text|, e.(line := e.line + text), rest);
  }

  function Rubouts(n: nat): (s: string)
    ensures |s| == n
  {
    seq(n, _ => DELETE)
  }

  /** As many rub-outs take typed text back off the line. */
  lemma {:induction false} RuboutsUndoTyping(e: Editor, text: string, rest: string)
    requires Indexed(e) && Printable(text)
    ensures Edit(e, text + (Rubouts(|text|) + rest)) == Edit(e, rest)
  {
    TypingAppends(e, text, Rubouts(|text|) + rest);
    RuboutsErase(e, text, rest);
  }

  lemma TypedIsIndexed(e: Editor, text: string)
    requires Indexed(e) && Printable(text)
    ensures Indexed(e.(line := e.line + text))
  {
  }

  lemma {:induction false} RuboutsErase(e: Editor, text: string, rest: string)
    requires Indexed(e) && Printable(text)
    ensures Indexed(e.(line := e.line + text))
            && Edit(e.(line := e.line + text), Rubouts(|text|) + rest) == Edit(e, rest)
    decreases |text|
  {
    var typed := e.(line := e.line + text);
    if text == "" {
      assert Rubouts(0) + rest == rest && typed == e;
    } else {
      var init := text[..|text| - 1];
      var data := Rubouts(|text|) + rest;
      assert data[0] == DELETE && data[1..] == Rubouts(|init|) + rest;
      assert typed.line[..|typed.line| - 1] == e.line + init;
      TypedIsIndexed(e, text);
      assert Press(typed, Erase) == e.(line := e.line + init);
      EditKey(typed, data, Erase);
      RuboutsErase(e, init, rest);
    }
  }

  /** A line that is typed and entered is submitted trimmed; the input after it is left over. */
  lemma TypedLineIsEntered(e: Editor, text: string, rest: string)
    requires Indexed(e) && e.line == "" && Printable(text) && (rest == "" || rest[0] != '\n')
    ensures Edit(e, text + ("\r" + rest))
            == Edited(Editor("", Remember(e.history, Trim(text)), None), Entered(Trim(text)), rest)
    ensures Edit(e, text + ("\r\n" + rest)) == Edit(e, text + ("\r" + rest))
  {
    var typed := e.(line := e.line + text);
    TypingAppends(e, text, "\r" + rest);
    TypingAppends(e, text, "\r\n" + rest);
    assert typed.line == text;
    assert ("\r" + rest)[1..] == rest && ("\r\n" + rest)[2..] == rest;
  }

  // ----- The terminal

  /** Finished rows, the current row (blank beyond its end) and the cursor's column. */
  datatype Screen = Screen(above: seq<string>, row: string, col: nat)

  function Blanks(n: nat): (s: string)
    ensures |s| == n && forall k :: 0 <= k < n ==> s[k] == ' '
  {
    seq(n, _ => ' ')
  }

  function Put(s: Screen, c: char): (r: Screen) {
    if c == BACKSPACE then s.(col := if s.col == 0 then 0 else s.col - 1)
    else if c == '\r' then s.(col := 0)
    else if c == '\n' then Screen(s.above + [s.row], "", s.col)
    else
      var row := if s.col <= |s.row| then s.row else s.row + Blanks(s.col - |s.row|);
      Screen(s.above, row[..s.col] + [c] + (if s.col < |row| then row[s.col + 1..] else ""), s.col + 1)
  }

  function Render(s: Screen, text: string): (r: Screen)
    decreases |text|
  {
    if text == "" then s else Render(Put(s, text[0]), text[1..])
  }

  /** The current row reads `text`, the cursor stands right after it and all beyond is blank. */
  ghost predicate Shows(s: Screen, text: string) {
    && s.col == |text| <= |s.row|
    && s.row[..s.col] == text
    && forall k :: s.col <= k < |s.row| ==> s.row[k] == ' '
  }

  lemma {:induction false} RenderConcat(s: Screen, a: string, b: string)
    ensures Render(s, a + b) == Render(Render(s, a), b)
    decreases |a|
  {
    if a == "" {
      assert a + b == b;
    } else {
      assert (a + b)[1..] == a[1..] + b;
      RenderConcat(Put(s, a[0]), a[1..], b);
    }
  }

  lemma {:induction false} RenderPrintable(s: Screen, shown: string, text: string)
    requires Shows(s, shown) && Printable(text)
    ensures Shows(Render(s, text), shown + text) && Render(s, text).above == s.above
    decreases |text|
  {
    if text == "" {
      assert shown + text == shown;
    } else {
      var c, r := text[0], Put(s, text[0]);
      assert r.row[..r.col] == shown + [c];
      RenderPrintable(r, shown + [c], text[1..]);
      assert (shown + [c]) + text[1..] == shown + text;
    }
  }

  lemma RenderThree(s: Screen, a: char, b: char, c: char)
    ensures Render(s, [a, b, c]) == Put(Put(Put(s, a), b), c)
  {
    var text := [a, b, c];
    assert text[1..] == [b, c] && [b, c][1..] == [c] && [c][1..] == "";
    assert Render(s, text) == Render(Put(s, a), [b, c]);
    assert Render(Put(s, a), [b, c]) == Render(Put(Put(s, a), b), [c]);
  }

  const RUBOUT: string := [BACKSPACE, ' ', BACKSPACE]

  lemma RenderRubout(s: Screen, shown: string, c: char)
    requires Shows(s, shown + [c])
    ensures Shows(Render(s, RUBOUT), shown) && Render(s, RUBOUT).above == s.above
  {
    var a := Put(s, BACKSPACE);
    var b := Put(a, ' ');
    var d := Put(b, BACKSPACE);
    RenderThree(s, BACKSPACE, ' ', BACKSPACE);
    assert a.col == |shown| && b.row == s.row[..|shown|] + [' '] + s.row[|shown| + 1..];
    assert d.row[..d.col] == shown by {
      assert s.row[..|shown|] == (shown + [c])[..|shown|] == shown;
    }
  }

  /** `eraseEcho`: one rub-out for each character. */
  function EraseEcho(text: string): (r: string) {
    if text == "" then "" else RUBOUT + EraseEcho(text[1..])
  }

  lemma {:induction false} RenderErase(s: Screen, prefix: string, line: string, text: string)
    requires |text| == |line| && Shows(s, prefix + line)
    ensures Shows(Render(s, EraseEcho(text)), prefix) && Render(s, EraseEcho(text)).above == s.above
    decreases |line|
  {
    if line == "" {
      assert prefix + line == prefix;
    } else {
      var init, c := line[..|line| - 1], line[|line| - 1];
      assert prefix + line == (prefix + init) + [c];
      RenderRubout(s, prefix + init, c);
      RenderErase(Render(s, RUBOUT), prefix, init, text[1..]);
      RenderConcat(s, RUBOUT, EraseEcho(text[1..]));
    }
  }

  // ----- The echo

  function Replace(line: string, value: string): (echo: string) {
    EraseEcho(line) + value
  }

  /** What is echoed for a key that does not end the line. */
  function KeyEcho(e: Editor, k: Key): (echo: string)
    requires Indexed(e) && !k.Enter? && !k.Interrupt?
  {
    match k
    case Insert(c) => [c]
    case Erase => if e.line == "" then "" else RUBOUT
    case EraseLine => Replace(e.line, "")
    case Up => if e.history == [] then "" else Replace(e.line, Press(e, k).line)
    case Down => if e.historyIndex.None? then "" else Replace(e.line, Press(e, k).line)
    case Ignore => ""
  }

  function EditEcho(e: Editor, data: string): (echo: string)
    requires Indexed(e)
    decreases |data|
  {
    if data == "" then ""
    else
      var Stroke(k, n) := FirstKey(data);
      if k.Enter? then "\r\n"
      else if k.Interrupt? then "^C\r\n"
      else
        PressKeepsIndexed(e, k);
        KeyEcho(e, k) + EditEcho(Press(e, k), data[n..])
  }

  lemma RenderReplace(s: Screen, prefix: string, line: string, value: string)
    requires Shows(s, prefix + line) && Printable(value)
    ensures Shows(Render(s, Replace(line, value)), prefix + value) && Render(s, Replace(line, value)).above == s.above
  {
    RenderErase(s, prefix, line, line);
    RenderConcat(s, EraseEcho(line), value);
    RenderPrintable(Render(s, EraseEcho(line)), prefix, value);
  }

  /** Rendering a key's echo turns the line on the screen into the line in the editor. */
  lemma KeyEchoShowsLine(s: Screen, prefix: string, e: Editor, k: Key)
    requires Valid(e) && !k.Enter? && !k.Interrupt? && (k.Insert? ==> Printable([k.c]))
    requires Shows(s, prefix + e.line)
    ensures var r := Render(s, KeyEcho(e, k)); Shows(r, prefix + Press(e, k).line) && r.above == s.above
  {
    var after := Press(e, k).line;
    PressKeepsValid(e, k);
    if KeyEcho(e, k) == Replace(e.line, after) {
      RenderReplace(s, prefix, e.line, after);
    } else if k.Insert? {
      RenderPrintable(s, prefix + e.line, [k.c]);
      assert (prefix + e.line) + [k.c] == prefix + after;
    } else if k.Erase? && e.line != "" {
      assert prefix + e.line == (prefix + after) + [e.line[|e.line| - 1]];
      RenderRubout(s, prefix + after, e.line[|e.line| - 1]);
    }
  }

  /** The row that stays above after `line` was entered or cancelled: the text and blanks. */
  ghost predicate Finished(row: string, text: string) {
    |text| <= |row| && row[..|text|] == text && forall k :: |text| <= k < |row| ==> row[k] == ' '
  }

  lemma RenderNewline(s: Screen, text: string)
    requires Shows(s, text)
    ensures var r := Render(s, "\r\n");
            r.row == "" && r.col == 0 && |r.above| == |s.above| + 1
            && r.above[..|s.above|] == s.above && Finished(r.above[|s.above|], text)
  {
    var nl := "\r\n";
    assert nl[1..] == "\n" && nl[1..][1..] == "";
    assert Render(s, nl) == Put(Put(s, '\r'), '\n');
  }

  /** The line in the editor when the input ended it, or when the input ran out. */
  function FinalLine(e: Editor, data: string): (line: string)
    requires Indexed(e)
    decreases |data|
  {
    if data == "" then e.line
    else
      var Stroke(k, n) := FirstKey(data);
      if k.Enter? || k.Interrupt? then e.line
      else
        PressKeepsIndexed(e, k);
        FinalLine(Press(e, k), data[n..])
  }

  /**
   * For every input: while the line is open, the rendered echo shows exactly the line left of the
   * cursor and blanks to its right; once it is entered or cancelled, a row that reads that line (and
   * ^C) is left above and the cursor is at the start of an empty row.
   */
  lemma {:induction false} EchoShowsLine(s: Screen, prefix: string, e: Editor, data: string)
    requires Valid(e) && Shows(s, prefix + e.line)
    ensures var r, ending := Render(s, EditEcho(e, data)), Edit(e, data).ending;
            if ending.Typing? then Shows(r, prefix + Edit(e, data).state.line) && r.above == s.above
            else
              var mark := if ending.Cancelled? then "^C" else "";
              && r.row == "" && r.col == 0 && Edit(e, data).state.line == ""
              && |r.above| == |s.above| + 1 && r.above[..|s.above|] == s.above
              && Finished(r.above[|s.above|], prefix + FinalLine(e, data) + mark)
    ensures Edit(e, data).ending.Entered? ==> Edit(e, data).ending.command == Trim(FinalLine(e, data))
    decreases |data|
  {
    if data == "" { return; }
    var Stroke(k, n) := FirstKey(data);
    if k.Enter? {
      RenderNewline(s, prefix + e.line);
      assert prefix + e.line + "" == prefix + e.line;
    } else if k.Interrupt? {
      RenderPrintable(s, prefix + e.line, "^C");
      assert "^C\r\n" == "^C" + "\r\n";
      RenderConcat(s, "^C", "\r\n");
      RenderNewline(Render(s, "^C"), prefix + e.line + "^C");
    } else {
      PressKeepsValid(e, k);
      KeyEchoShowsLine(s, prefix, e, k);
      RenderConcat(s, KeyEcho(e, k), EditEcho(Press(e, k), data[n..]));
      EchoShowsLine(Render(s, KeyEcho(e, k)), prefix, Press(e, k), data[n..]);
    }
  }

  // ----- Sessions

  /**
   * One chunk of input. When it enters a command, the command's output leaves the screen at `after`
   * with `prompt` shown; the console itself prints the prompt after an empty or cancelled line.
   */
  datatype Turn = Turn(data: string, after: Screen, prompt: string)

  datatype Console = Console(editor: Editor, screen: Screen, prefix: string)

  ghost predicate InStep(c: Console) {
    Valid(c.editor) && Shows(c.screen, c.prefix + c.editor.line)
  }

  ghost function TakeTurn(c: Console, t: Turn): (r: Console)
    requires InStep(c)
  {
    var Edited(e, ending, _) := Edit(c.editor, t.data);
    var screen := Render(c.screen, EditEcho(c.editor, t.data));
    if ending.Typing? then Console(e, screen, c.prefix)
    else if ending.Entered? && ending.command != "" then Console(e, t.after, t.prompt)
    else Console(e, Render(screen, PROMPT), PROMPT)
  }

  lemma FreshRowShows(s: Screen, text: string)
    requires s.row == "" && s.col == 0 && Printable(text)
    ensures Shows(Render(s, text), text)
  {
    RenderPrintable(s, "", text);
    assert "" + text == text;
  }

  lemma PromptShows(s: Screen)
    requires s.row == "" && s.col == 0
    ensures Shows(Render(s, PROMPT), PROMPT)
  {
    FreshRowShows(s, PROMPT);
  }

  lemma EmptyLineIsInStep(e: Editor, s: Screen, prefix: string)
    requires Valid(e) && e.line == "" && Shows(s, prefix)
    ensures InStep(Console(e, s, prefix))
  {
    assert prefix + e.line == prefix;
  }

  lemma TurnStaysInStep(c: Console, t: Turn)
    requires InStep(c) && Shows(t.after, t.prompt)
    ensures InStep(TakeTurn(c, t))
  {
    var e, ending := Edit(c.editor, t.data).state, Edit(c.editor, t.data).ending;
    var screen := Render(c.screen, EditEcho(c.editor, t.data));
    EditKeepsValid(c.editor, t.data);
    EchoShowsLine(c.screen, c.prefix, c.editor, t.data);
    if ending.Typing? {
      assert TakeTurn(c, t) == Console(e, screen, c.prefix);
    } else if ending.Entered? && ending.command != "" {
      EmptyLineIsInStep(e, t.after, t.prompt);
    } else {
      PromptShows(screen);
      EmptyLineIsInStep(e, Render(screen, PROMPT), PROMPT);
    }
  }

  ghost predicate CanTake(c: Console, turns: seq<Turn>)
    decreases |turns|
  {
    InStep(c) && (turns == [] || (Shows(turns[0].after, turns[0].prompt) && CanTake(TakeTurn(c, turns[0]), turns[1..])))
  }

  ghost predicate Plausible(turns: seq<Turn>) {
    forall k :: 0 <= k < |turns| ==> Shows(turns[k].after, turns[k].prompt)
  }

  ghost function Session(c: Console, turns: seq<Turn>): (r: Console)
    requires CanTake(c, turns)
    decreases |turns|
  {
    if turns == [] then c else Session(TakeTurn(c, turns[0]), turns[1..])
  }

  lemma {:induction false} SessionStaysInStep(c: Console, turns: seq<Turn>)
    requires InStep(c) && Plausible(turns)
    ensures CanTake(c, turns) && InStep(Session(c, turns))
    decreases |turns|
  {
    if turns != [] {
      TurnStaysInStep(c, turns[0]);
      SessionStaysInStep(TakeTurn(c, turns[0]), turns[1..]);
    }
  }

  /**
   * In every session from a fresh editor, the screen shows the line after every chunk, the history
   * holds at most a hundred trimmed, nonempty entries with no equal neighbours, and the history index
   * is none or in range.
   */
  lemma SessionsShowLine(screen: Screen, prefix: string, turns: seq<Turn>)
    requires Shows(screen, prefix) && Plausible(turns)
    ensures var c := Console(FRESH, screen, prefix); CanTake(c, turns) && InStep(Session(c, turns))
  {
    EmptyLineIsInStep(FRESH, screen, prefix);
    SessionStaysInStep(Console(FRESH, screen, prefix), turns);
  }

  function Presses(e: Editor, k: Key, n: nat): (r: Editor)
    requires Indexed(e) && (k.Up? || k.Down?)
    ensures Indexed(r) && r.history == e.history
    decreases n
  {
    if n == 0 then e
    else
      PressKeepsIndexed(Presses(e, k, n - 1), k);
      Press(Presses(e, k, n - 1), k)
  }

  lemma {:induction false} UpWalk(e: Editor, n: nat)
    requires Indexed(e) && e.historyIndex.None? && 0 < n <= |e.history|
    ensures var at := |e.history| - n; Presses(e, Up, n) == e.(line := e.history[at], historyIndex := Some(at))
    decreases n
  {
    if n > 1 {
      UpWalk(e, n - 1);
    } else {
      assert Presses(e, Up, 0) == e;
    }
  }

  lemma {:induction false} DownWalk(e: Editor, n: nat)
    requires Indexed(e) && e.historyIndex.Some? && 0 < n <= |e.history| - e.historyIndex.value
    ensures var at := e.historyIndex.value + n;
            Presses(e, Down, n) ==
            if at < |e.history| then e.(line := e.history[at], historyIndex := Some(at))
            else e.(line := "", historyIndex := None)
    decreases n
  {
    if n > 1 {
      DownWalk(e, n - 1);
    } else {
      assert Presses(e, Down, 0) == e;
    }
  }

  /** The n-th press of Up shows the n-th latest entry; n presses of Down then lead back to an empty line. */
  lemma HistoryWalk(e: Editor, n: nat)
    requires Indexed(e) && e.historyIndex.None? && 0 < n <= |e.history|
    ensures Presses(e, Up, n).line == e.history[|e.history| - n]
    ensures Presses(Presses(e, Up, n), Down, n) == e.(line := "")
  {
    UpWalk(e, n);
    DownWalk(Presses(e, Up, n), n);
  }

  // ----- The program

  method EscapeSequenceLength(data: string, index: nat) returns (n: nat)
    requires index < |data|
    ensures n == SequenceLength(data[index..])
  {
    if index + 1 < |data| && data[index + 1] == '[' {
      var end := index + 2;
      while end < |data| && !('@' <= data[end] <= '~')
        invariant index + 2 <= end <= |data|
        invariant end - index - 2 + FinalAt(data[end..]) == FinalAt(data[index + 2..])
      {
        assert data[end..][1..] == data[end + 1..];
        end := end + 1;
      }
      assert data[index..][2..] == data[index + 2..];
      return Min(end + 1, |data|) - index;
    }
    if index + 1 < |data| && data[index + 1] == 'O' {
      return Min(3, |data| - index);
    }
    return Min(2, |data| - index);
  }

  /** The body of the input loop for a key that does not end the line. */
  method ApplyKey(state: Editor, data: string, index: nat) returns (next: Editor, echo: string, length: nat)
    requires Indexed(state) && index < |data|
    requires var k := FirstKey(data[index..]).key; !k.Enter? && !k.Interrupt?
    ensures var Stroke(k, n) := FirstKey(data[index..]);
            next == Press(state, k) && echo == KeyEcho(state, k) && length == n
  {
    next, echo, length := state, "", 1;
    var c := data[index];
    if c == DELETE || c == BACKSPACE {
      if |next.line| > 0 {
        next := next.(line := next.line[..|next.line| - 1]);
        echo := RUBOUT;
      }
    } else if c == KILL {
      echo := Replace(next.line, "");
      next := next.(line := "");
    } else if c == ESCAPE {
      length := EscapeSequenceLength(data, index);
      var sequence := data[index..index + length];
      assert sequence == data[index..][..length];
      if (sequence == [ESCAPE, '[', 'A'] || sequence == [ESCAPE, 'O', 'A']) && |next.history| > 0 {
        var at := if next.historyIndex.None? then |next.history| - 1
                  else if next.historyIndex.value == 0 then 0 else next.historyIndex.value - 1;
        echo := Replace(next.line, next.history[at]);
        next := next.(line := next.history[at], historyIndex := Some(at));
      } else if (sequence == [ESCAPE, '[', 'B'] || sequence == [ESCAPE, 'O', 'B']) && next.historyIndex.Some? {
        var at := next.historyIndex.value + 1;
        if at >= |next.history| {
          echo := Replace(next.line, "");
          next := next.(line := "", historyIndex := None);
        } else {
          echo := Replace(next.line, next.history[at]);
          next := next.(line := next.history[at], historyIndex := Some(at));
        }
      }
    } else if c >= ' ' {
      next := next.(line := next.line + [c]);
      echo := [c];
    }
  }

  /** What a call returns for the input still unread, `echo` having been produced so far. */
  ghost predicate Concludes(o: Outcome, e: Editor, data: string, echo: string)
    requires Indexed(e)
  {
    var Edited(after, ending, rest) := Edit(e, data);
    && o.state == after && o.rest == rest && o.echo == echo + EditEcho(e, data)
    && o.submitted == (if ending.Entered? && ending.command != "" then Some(ending.command) else None)
    && o.reprompt == (ending.Cancelled? || (ending.Entered? && ending.command == ""))
  }

  method SubmitLine(e: Editor, data: string, index: nat, echo: string) returns (o: Outcome)
    requires Indexed(e) && index < |data| && (data[index] == '\r' || data[index] == '\n')
    ensures Concludes(o, e, data[index..], echo)
  {
    var submitted := Trim(e.line);
    var rest := data[index + 1..];
    assert data[index..][1..] == rest;
    if data[index] == '\r' && |rest| > 0 && rest[0] == '\n' {
      rest := rest[1..];
      assert data[index..][2..] == rest;
    }
    return Outcome(Editor("", Remember(e.history, submitted), None), echo + "\r\n",
      if submitted == "" then None else Some(submitted), rest, submitted == "");
  }

  method CancelLine(e: Editor, data: string, index: nat, echo: string) returns (o: Outcome)
    requires Indexed(e) && index < |data| && data[index] == INTERRUPT
    ensures Concludes(o, e, data[index..], echo)
  {
    return Outcome(Editor("", e.history, None), echo + "^C\r\n", None, "", true);
  }

  method EditOneKey(e: Editor, data: string, index: nat, echo: string) returns (next: Editor, said: string, at: nat)
    requires Indexed(e) && index < |data|
    requires data[index] != '\r' && data[index] != '\n' && data[index] != INTERRUPT
    ensures Indexed(next) && index < at <= |data|
    ensures Edit(next, data[at..]) == Edit(e, data[index..])
    ensures said + EditEcho(next, data[at..]) == echo + EditEcho(e, data[index..])
  {
    ghost var tail := data[index..];
    assert tail[0] == data[index];
    EditStep(e, tail, echo);
    var length;
    next, said, length := ApplyKey(e, data, index);
    ghost var left := tail[length..];
    assert Edit(next, left) == Edit(e, tail) && (echo + said) + EditEcho(next, left) == echo + EditEcho(e, tail);
    said, at := echo + said, index + length;
    assert left == data[at..];
  }

  method ApplyLineEditorInput(state: Editor, data: string) returns (o: Outcome)
    requires Indexed(state)
    ensures Concludes(o, state, data, "")
  {
    var next, echo, index := state, "", 0;
    assert data[0..] == data;
    while index < |data|
      invariant 0 <= index <= |data| && Indexed(next)
      invariant Edit(next, data[index..]) == Edit(state, data)
      invariant echo + EditEcho(next, data[index..]) == "" + EditEcho(state, data)
    {
      var c := data[index];
      if c == '\r' || c == '\n' {
        o := SubmitLine(next, data, index, echo);
        return;
      }
      if c == INTERRUPT {
        o := CancelLine(next, data, index, echo);
        return;
      }
      next, echo, index := EditOneKey(next, data, index, echo);
    }
    return Outcome(next, echo, None, "", false);
  }

  lemma EditStep(e: Editor, data: string, echo: string)
    requires Indexed(e) && data != "" && data[0] != '\r' && data[0] != '\n' && data[0] != INTERRUPT
    ensures var Stroke(k, n) := FirstKey(data);
            && !k.Enter? && !k.Interrupt?
            && Indexed(Press(e, k)) && Edit(Press(e, k), data[n..]) == Edit(e, data)
            && (echo + KeyEcho(e, k)) + EditEcho(Press(e, k), data[n..]) == echo + EditEcho(e, data)
  {
    var Stroke(k, n) := FirstKey(data);
    PressKeepsIndexed(e, k);
    Associates(echo, KeyEcho(e, k), EditEcho(Press(e, k), data[n..]));
  }
}
