/** Normalising the text of a PDF page (gmrag_api/src/ingestion/pdf_parser.rs:96-119). */
module PdfText {
  import opened Text

  // ----- Library operations -----

  /** Index of the first whitespace character, or the length. */
  function WordEnd(s: string): (n: nat)
    ensures n <= |s| && (n < |s| ==> IsWhitespace(s[n]))
    ensures forall i | 0 <= i < n :: !IsWhitespace(s[i])
  {
    if s == "" || IsWhitespace(s[0]) then 0 else 1 + WordEnd(s[1..])
  }

  /** `split_whitespace`. */
  function Words(s: string): seq<string>
    decreases |s|
  {
    if s == "" then []
    else if IsWhitespace(s[0]) then Words(s[1..])
    else [s[..WordEnd(s)]] + Words(s[WordEnd(s)..])
  }

  function StripCr(line: string): string {
    if line != "" && line[|line| - 1] == '\r' then line[..|line| - 1] else line
  }

  /** `str::lines`: a carriage return is dropped only before a newline, and nothing follows a final
      newline. */
  function Lines(s: string): seq<string>
    decreases |s|
  {
    var i := NewlineAt(s);
    if s == "" then [] else if i == |s| then [s] else [StripCr(s[..i])] + Lines(s[i + 1..])
  }

  function Join(parts: seq<string>, separator: char): string {
    if parts == [] then ""
    else if |parts| == 1 then parts[0]
    else parts[0] + [separator] + Join(parts[1..], separator)
  }

  // ----- What cleaning does -----

  function Normalized(line: string): string {
    Join(Words(line), ' ')
  }

  function NormalizedLines(lines: seq<string>): seq<string> {
    if lines == [] then [] else NormalizedLines(lines[..|lines| - 1]) + [Normalized(lines[|lines| - 1])]
  }

  /** Runs of blank lines become one; blank lines at the start vanish. */
  function Collapsed(lines: seq<string>): seq<string> {
    if lines == [] then []
    else
      var kept, line := Collapsed(lines[..|lines| - 1]), lines[|lines| - 1];
      if line != "" then kept + [line]
      else if kept == [] || kept[|kept| - 1] == "" then kept
      else kept + [""]
  }

  function WithoutBlankEnd(lines: seq<string>): seq<string> {
    if lines != [] && lines[|lines| - 1] == "" then WithoutBlankEnd(lines[..|lines| - 1]) else lines
  }

  function CleanLines(text: string): seq<string> {
    WithoutBlankEnd(Collapsed(NormalizedLines(Lines(text))))
  }

  function Cleaned(text: string): string {
    Join(CleanLines(text), '\n')
  }

  lemma NoLines()
    ensures Collapsed(NormalizedLines([])) == []
  {
  }

  /** How the loop extends what it has kept. */
  lemma OneMoreLine(input: seq<string>, i: nat)
    requires i < |input|
    ensures var kept := Collapsed(NormalizedLines(input[..i]));
            Collapsed(NormalizedLines(input[..i + 1]))
            == if Normalized(input[i]) != "" then kept + [Normalized(input[i])]
               else if kept == [] || kept[|kept| - 1] == "" then kept
               else kept + [""]
  {
    hide Normalized;
    assert input[..i + 1][..i] == input[..i];
    var all := NormalizedLines(input[..i]);
    assert (all + [Normalized(input[i])])[..|all|] == all;
  }

  /** `clean_extracted_text`. */
  method CleanExtractedText(text: string) returns (clean: string)
    ensures clean == Cleaned(text)
  {
    hide Lines, NormalizedLines, Collapsed, Words, Join;
    NoLines();
    var input := Lines(text);
    var lines, lastWasBlank := [], false;
    for i := 0 to |input|
      invariant lines == Collapsed(NormalizedLines(input[..i]))
      invariant lastWasBlank <==> lines != [] && lines[|lines| - 1] == ""
    {
      var normalized := Join(Words(input[i]), ' ');
      OneMoreLine(input, i);
      if normalized == "" {
        if !lastWasBlank && lines != [] {
          lines := lines + [""];
          lastWasBlank := true;
        }
      } else {
        lines := lines + [normalized];
        lastWasBlank := false;
      }
    }
    assert input[..|input|] == input;
    while lines != [] && lines[|lines| - 1] == ""
      invariant WithoutBlankEnd(lines) == CleanLines(text)
      decreases |lines|
    {
      lines := lines[..|lines| - 1];
    }
    clean := Join(lines, '\n');
  }

  // ----- Words -----

  predicate IsWord(w: string) {
    w != "" && forall i | 0 <= i < |w| :: !IsWhitespace(w[i])
  }

  predicate AreWords(ws: seq<string>) {
    forall i | 0 <= i < |ws| :: IsWord(ws[i])
  }

  lemma {:induction false} WordsAreWords(s: string)
    ensures AreWords(Words(s))
    decreases |s|
  {
    if s != "" {
      if IsWhitespace(s[0]) { WordsAreWords(s[1..]); } else { WordsAreWords(s[WordEnd(s)..]); }
    }
  }

  lemma WordEndIs(s: string, n: nat)
    requires n <= |s| && (n < |s| ==> IsWhitespace(s[n])) && forall i | 0 <= i < n :: !IsWhitespace(s[i])
    ensures WordEnd(s) == n
  {
  }

  /** Whitespace separates words, whatever is around it. */
  lemma {:induction false} WordsSplit(a: string, c: char, b: string)
    requires IsWhitespace(c)
    ensures Words(a + [c] + b) == Words(a) + Words(b)
    decreases |a|
  {
    hide IsWhitespace;
    var s := a + [c] + b;
    if a == "" {
      assert s[1..] == b;
    } else if IsWhitespace(a[0]) {
      assert s[1..] == a[1..] + [c] + b;
      WordsSplit(a[1..], c, b);
    } else {
      var n := WordEnd(a);
      WordEndIs(s, n);
      hide WordEnd;
      assert s[..n] == a[..n] && s[n..] == a[n..] + [c] + b;
      WordsSplit(a[n..], c, b);
      assert [a[..n]] + (Words(a[n..]) + Words(b)) == [a[..n]] + Words(a[n..]) + Words(b);
    }
  }

  lemma WordsOfWord(w: string)
    requires IsWord(w)
    ensures Words(w) == [w]
  {
    WordEndIs(w, |w|);
    assert w[..|w|] == w && Words(w[|w|..]) == [];
  }

  lemma {:induction false} WordsOfJoin(ws: seq<string>)
    requires AreWords(ws)
    ensures Words(Join(ws, ' ')) == ws
  {
    if |ws| == 1 {
      WordsOfWord(ws[0]);
    } else if |ws| > 1 {
      WordsSplit(ws[0], ' ', Join(ws[1..], ' '));
      WordsOfWord(ws[0]);
      WordsOfJoin(ws[1..]);
    }
  }

  function WordsOfLines(lines: seq<string>): seq<string> {
    if lines == [] then [] else WordsOfLines(lines[..|lines| - 1]) + Words(lines[|lines| - 1])
  }

  lemma {:induction false} WordsOfLinesAppend(a: seq<string>, b: seq<string>)
    ensures WordsOfLines(a + b) == WordsOfLines(a) + WordsOfLines(b)
  {
    hide Words;
    if b == [] {
      assert a + b == a;
    } else {
      assert (a + b)[..|a + b| - 1] == a + b[..|b| - 1];
      WordsOfLinesAppend(a, b[..|b| - 1]);
    }
  }

  lemma WordsOfOneLine(line: string)
    ensures WordsOfLines([line]) == Words(line)
  {
    assert [line][..0] == [];
  }

  lemma StripCrKeepsWords(line: string)
    ensures Words(StripCr(line)) == Words(line)
  {
    hide Words, IsWhitespace;
    if StripCr(line) != line {
      LineEndsAreWhitespace();
      assert line == StripCr(line) + ['\r'] + "";
      WordsSplit(StripCr(line), '\r', "");
      NoWords();
    }
  }

  /** A text has the words of its lines. */
  lemma {:induction false} WordsByLines(s: string)
    ensures WordsOfLines(Lines(s)) == Words(s)
    decreases |s|
  {
    hide Words, NewlineAt, IsWhitespace, StripCr, WordsOfLines;
    NoWords();
    var i := NewlineAt(s);
    if s == "" {
      assert WordsOfLines([]) == [] by { NoLinesNoWords(); }
    } else if i == |s| {
      WordsOfOneLine(s);
    } else {
      var line, rest := s[..i], s[i + 1..];
      WordsByLines(rest);
      assert s == line + ['\n'] + rest;
      LineEndsAreWhitespace();
      WordsSplit(line, '\n', rest);
      WordsOfLinesAppend([StripCr(line)], Lines(rest));
      WordsOfOneLine(StripCr(line));
      StripCrKeepsWords(line);
    }
  }

  lemma NoLinesNoWords()
    ensures WordsOfLines([]) == []
  {
  }

  lemma NoWords()
    ensures Words("") == []
  {
  }

  lemma LineEndsAreWhitespace()
    ensures IsWhitespace('\n') && IsWhitespace('\r') && IsWhitespace(' ')
  {
  }

  lemma {:induction false} WordsOfJoinedLines(lines: seq<string>)
    ensures Words(Join(lines, '\n')) == WordsOfLines(lines)
  {
    hide Words, IsWhitespace;
    if lines == [] {
      NoWords();
    } else if |lines| == 1 {
      assert lines == [lines[0]];
      WordsOfOneLine(lines[0]);
    } else {
      LineEndsAreWhitespace();
      WordsSplit(lines[0], '\n', Join(lines[1..], '\n'));
      WordsOfJoinedLines(lines[1..]);
      assert lines == [lines[0]] + lines[1..];
      WordsOfLinesAppend([lines[0]], lines[1..]);
      WordsOfOneLine(lines[0]);
    }
  }

  lemma NormalizedKeepsWords(line: string)
    ensures Words(Normalized(line)) == Words(line)
  {
    WordsAreWords(line);
    WordsOfJoin(Words(line));
  }

  lemma {:induction false} NormalizedLinesKeepWords(lines: seq<string>)
    ensures WordsOfLines(NormalizedLines(lines)) == WordsOfLines(lines)
  {
    hide Words, Normalized;
    if lines != [] {
      var rest, line := lines[..|lines| - 1], lines[|lines| - 1];
      NormalizedLinesKeepWords(rest);
      NormalizedKeepsWords(line);
      var all := NormalizedLines(rest);
      assert (all + [Normalized(line)])[..|all|] == all;
    }
  }

  lemma {:induction false} CollapsedKeepsWords(lines: seq<string>)
    ensures WordsOfLines(Collapsed(lines)) == WordsOfLines(lines)
  {
    hide Words;
    if lines != [] {
      var rest, line := lines[..|lines| - 1], lines[|lines| - 1];
      CollapsedKeepsWords(rest);
      var kept := Collapsed(rest);
      assert (kept + [line])[..|kept|] == kept;
      NoWords();
    }
  }

  lemma {:induction false} WithoutBlankEndKeepsWords(lines: seq<string>)
    ensures WordsOfLines(WithoutBlankEnd(lines)) == WordsOfLines(lines)
  {
    hide Words;
    NoWords();
    if lines != [] && lines[|lines| - 1] == "" { WithoutBlankEndKeepsWords(lines[..|lines| - 1]); }
  }

  /** Cleaning keeps exactly the words of the text, in order. */
  lemma CleanedKeepsWords(text: string)
    ensures Words(Cleaned(text)) == Words(text)
  {
    hide Words;
    var lines := Lines(text);
    WordsByLines(text);
    NormalizedLinesKeepWords(lines);
    CollapsedKeepsWords(NormalizedLines(lines));
    WithoutBlankEndKeepsWords(Collapsed(NormalizedLines(lines)));
    WordsOfJoinedLines(CleanLines(text));
  }

  // ----- Tidy lines -----

  /** Words with single spaces between them. */
  predicate SingleSpaced(line: string) {
    Normalized(line) == line
  }

  /** Each line is single-spaced, no blank line comes first, and no two follow each other. */
  predicate Paragraphs(lines: seq<string>) {
    && (forall i | 0 <= i < |lines| :: SingleSpaced(lines[i]))
    && (lines != [] ==> lines[0] != "")
    && (forall i | 0 <= i < |lines| - 1 :: lines[i] != "" || lines[i + 1] != "")
  }

  predicate Tidy(lines: seq<string>) {
    Paragraphs(lines) && (lines != [] ==> lines[|lines| - 1] != "")
  }

  lemma NormalizedIsSingleSpaced(line: string)
    ensures SingleSpaced(Normalized(line))
  {
    NormalizedKeepsWords(line);
  }

  lemma {:induction false} CollapsedIsParagraphs(lines: seq<string>)
    ensures Paragraphs(Collapsed(NormalizedLines(lines)))
  {
    hide Normalized, SingleSpaced, Paragraphs;
    if lines == [] {
      assert Paragraphs([]) by { NoParagraphs(); }
    } else {
      var rest, line := lines[..|lines| - 1], lines[|lines| - 1];
      CollapsedIsParagraphs(rest);
      NormalizedIsSingleSpaced(line);
      OneMoreParagraphLine(Collapsed(NormalizedLines(rest)), Normalized(line));
      var all := NormalizedLines(rest);
      assert (all + [Normalized(line)])[..|all|] == all;
    }
  }

  lemma NoParagraphs()
    ensures Paragraphs([])
  {
  }

  lemma OneMoreParagraphLine(kept: seq<string>, line: string)
    requires Paragraphs(kept) && SingleSpaced(line)
    ensures Paragraphs(if line != "" then kept + [line]
                       else if kept == [] || kept[|kept| - 1] == "" then kept
                       else kept + [""])
  {
    hide Normalized;
  }

  lemma {:induction false} WithoutBlankEndIsTidy(lines: seq<string>)
    requires Paragraphs(lines)
    ensures Tidy(WithoutBlankEnd(lines))
  {
    hide SingleSpaced;
    if lines != [] && lines[|lines| - 1] == "" { WithoutBlankEndIsTidy(lines[..|lines| - 1]); }
  }

  // ----- Back and forth -----

  lemma {:induction false} JoinHasNo(ws: seq<string>, c: char)
    requires AreWords(ws) && IsWhitespace(c) && c != ' '
    ensures forall i | 0 <= i < |Join(ws, ' ')| :: Join(ws, ' ')[i] != c
  {
    if |ws| > 1 { JoinHasNo(ws[1..], c); }
  }

  lemma SingleSpacedHasNo(line: string, c: char)
    requires SingleSpaced(line) && IsWhitespace(c) && c != ' '
    ensures forall i | 0 <= i < |line| :: line[i] != c
  {
    hide IsWhitespace;
    WordsAreWords(line);
    JoinHasNo(Words(line), c);
  }

  /** The lines of tidy lines joined are those lines. */
  lemma {:induction false} LinesOfJoin(lines: seq<string>)
    requires forall i | 0 <= i < |lines| :: SingleSpaced(lines[i])
    requires lines != [] ==> lines[|lines| - 1] != ""
    ensures Lines(Join(lines, '\n')) == lines
  {
    hide SingleSpaced, Lines;
    if lines == [] {
      NoTextNoLines();
    } else {
      var line := lines[0];
      LineEndsAreWhitespace();
      SingleSpacedHasNo(line, '\n');
      SingleSpacedHasNo(line, '\r');
      if |lines| == 1 {
        OpenLine(line);
        assert lines == [line];
      } else {
        LinesOfJoin(lines[1..]);
        LineAndRest(line, Join(lines[1..], '\n'));
        assert lines == [line] + lines[1..];
      }
    }
  }

  lemma NoTextNoLines()
    ensures Lines("") == []
  {
  }

  lemma OpenLine(line: string)
    requires line != "" && forall i | 0 <= i < |line| :: line[i] != '\n'
    ensures Lines(line) == [line]
  {
    hide StripCr;
  }

  lemma LineAndRest(line: string, rest: string)
    requires forall i | 0 <= i < |line| :: line[i] != '\n' && line[i] != '\r'
    ensures Lines(line + ['\n'] + rest) == [line] + Lines(rest)
  {
    var s := line + ['\n'] + rest;
    NewlineAtIs(s, |line|);
    assert s[..|line|] == line && s[|line| + 1..] == rest;
  }

  lemma SingleSpacedIs(line: string)
    requires SingleSpaced(line)
    ensures Normalized(line) == line
  {
  }

  lemma {:induction false} NormalizedAlready(lines: seq<string>)
    requires forall i | 0 <= i < |lines| :: SingleSpaced(lines[i])
    ensures NormalizedLines(lines) == lines
  {
    hide SingleSpaced, Normalized;
    if lines != [] {
      var front, last := lines[..|lines| - 1], lines[|lines| - 1];
      NormalizedAlready(front);
      SingleSpacedIs(last);
      assert lines == front + [last];
    }
  }

  lemma {:induction false} CollapsedAlready(lines: seq<string>)
    requires Paragraphs(lines)
    ensures Collapsed(lines) == lines
  {
    hide SingleSpaced;
    if lines != [] {
      CollapsedAlready(lines[..|lines| - 1]);
      assert lines == lines[..|lines| - 1] + [lines[|lines| - 1]];
    }
  }

  // ----- The main results -----

  /** The lines of the cleaned text are tidy: no blank line first or last, none after another, and
      single spaces within a line. */
  lemma CleanedIsTidy(text: string)
    ensures Tidy(CleanLines(text)) && Lines(Cleaned(text)) == CleanLines(text)
  {
    hide SingleSpaced;
    CollapsedIsParagraphs(Lines(text));
    WithoutBlankEndIsTidy(Collapsed(NormalizedLines(Lines(text))));
    LinesOfJoin(CleanLines(text));
  }

  lemma CleaningIsIdempotent(text: string)
    ensures Cleaned(Cleaned(text)) == Cleaned(text)
  {
    hide SingleSpaced, Lines, NormalizedLines, Collapsed;
    CleanedIsTidy(text);
    NormalizedAlready(CleanLines(text));
    CollapsedAlready(CleanLines(text));
  }

  // ----- Paragraphs -----

  /** The runs of lines between blank ones. */
  function Groups(lines: seq<string>): (groups: seq<seq<string>>)
    ensures lines != [] && lines[|lines| - 1] != "" ==> groups != []
  {
    if lines == [] then []
    else
      var front, line := lines[..|lines| - 1], lines[|lines| - 1];
      var groups := Groups(front);
      if line == "" then groups
      else if front == [] || front[|front| - 1] == "" then groups + [[line]]
      else groups[..|groups| - 1] + [groups[|groups| - 1] + [line]]
  }

  /** A line after which the next one starts a new group. */
  predicate Apart(lines: seq<string>) {
    lines == [] || lines[|lines| - 1] == ""
  }

  lemma GroupsAppend(lines: seq<string>, line: string)
    ensures !Apart(lines) ==> Groups(lines) != []
    ensures Groups(lines + [line])
         == if line == "" then Groups(lines)
            else if Apart(lines) then Groups(lines) + [[line]]
            else Groups(lines)[..|Groups(lines)| - 1] + [Groups(lines)[|Groups(lines)| - 1] + [line]]
  {
    assert (lines + [line])[..|lines|] == lines;
  }

  lemma CollapsedAppends(lines: seq<string>, line: string)
    ensures Collapsed(lines + [line])
         == if line != "" then Collapsed(lines) + [line]
            else if Apart(Collapsed(lines)) then Collapsed(lines)
            else Collapsed(lines) + [""]
  {
    assert (lines + [line])[..|lines|] == lines;
  }

  lemma {:induction false} CollapsedKeepsGroups(lines: seq<string>)
    ensures Groups(Collapsed(lines)) == Groups(lines)
    ensures Apart(lines) <==> Apart(Collapsed(lines))
  {
    hide Groups, Collapsed;
    if lines == [] {
      assert Collapsed([]) == [] by { NothingCollapsed(); }
    } else {
      var front, line := lines[..|lines| - 1], lines[|lines| - 1];
      assert lines == front + [line];
      CollapsedKeepsGroups(front);
      CollapsedAppends(front, line);
      GroupsAppend(front, line);
      GroupsAppend(Collapsed(front), line);
    }
  }

  lemma NothingCollapsed()
    ensures Collapsed([]) == []
  {
  }

  lemma {:induction false} WithoutBlankEndKeepsGroups(lines: seq<string>)
    ensures Groups(WithoutBlankEnd(lines)) == Groups(lines)
  {
    if lines != [] && lines[|lines| - 1] == "" { WithoutBlankEndKeepsGroups(lines[..|lines| - 1]); }
  }

  /** Blank lines that separate paragraphs are never lost, and none are invented. */
  lemma CleanedKeepsParagraphs(text: string)
    ensures Groups(CleanLines(text)) == Groups(NormalizedLines(Lines(text)))
  {
    hide Groups, Collapsed, NormalizedLines, Lines;
    CollapsedKeepsGroups(NormalizedLines(Lines(text)));
    WithoutBlankEndKeepsGroups(Collapsed(NormalizedLines(Lines(text))));
  }
}
