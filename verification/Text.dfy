/** Text operations of the Rust standard library that several models share. */
module Text {

  /** The Unicode White_Space property, as `char::is_whitespace` reads it. */
  predicate IsWhitespace(c: char) {
    var v := c as int;
    || 0x09 <= v <= 0x0D || v == 0x20 || v == 0x85 || v == 0xA0 || v == 0x1680
    || 0x2000 <= v <= 0x200A || v == 0x2028 || v == 0x2029 || v == 0x202F || v == 0x205F || v == 0x3000
  }

  function TrimStart(s: string): (r: string) {
    if s != "" && IsWhitespace(s[0]) then TrimStart(s[1..]) else s
  }

  function TrimEnd(s: string): (r: string) {
    if s != "" && IsWhitespace(s[|s| - 1]) then TrimEnd(s[..|s| - 1]) else s
  }

  function Trim(s: string): string {
    TrimEnd(TrimStart(s))
  }

  /** No whitespace at either end. */
  predicate Trimmed(s: string) {
    s != "" ==> !IsWhitespace(s[0]) && !IsWhitespace(s[|s| - 1])
  }

  lemma {:induction false} TrimEndKeepsStart(s: string)
    requires s != "" ==> !IsWhitespace(s[0])
    ensures Trimmed(TrimEnd(s))
  {
    if s != "" && IsWhitespace(s[|s| - 1]) { TrimEndKeepsStart(s[..|s| - 1]); }
  }

  lemma {:induction false} TrimStartStrips(s: string)
    ensures TrimStart(s) != "" ==> !IsWhitespace(TrimStart(s)[0])
  {
    if s != "" && IsWhitespace(s[0]) { TrimStartStrips(s[1..]); }
  }

  lemma TrimIdempotent(s: string)
    ensures Trimmed(Trim(s)) && Trim(Trim(s)) == Trim(s)
  {
    TrimStartStrips(s);
    TrimEndKeepsStart(TrimStart(s));
  }

  predicate Blank(s: string) {
    forall c | c in s :: IsWhitespace(c)
  }

  lemma {:induction false} TrimStartCuts(s: string) returns (a: string)
    ensures Blank(a) && s == a + TrimStart(s)
  {
    a := "";
    if s != "" && IsWhitespace(s[0]) {
      var rest := TrimStartCuts(s[1..]);
      a := [s[0]] + rest;
      assert s == [s[0]] + s[1..];
    }
  }

  lemma {:induction false} TrimEndCuts(s: string) returns (b: string)
    ensures Blank(b) && s == TrimEnd(s) + b
  {
    b := "";
    if s != "" && IsWhitespace(s[|s| - 1]) {
      var rest := TrimEndCuts(s[..|s| - 1]);
      b := rest + [s[|s| - 1]];
      assert s == s[..|s| - 1] + [s[|s| - 1]];
    }
  }

  /** Trimming cuts whitespace off both ends, and nothing else. */
  lemma TrimCuts(s: string) returns (a: string, b: string)
    ensures Blank(a) && Blank(b) && s == a + Trim(s) + b && Trimmed(Trim(s))
  {
    a := TrimStartCuts(s);
    b := TrimEndCuts(TrimStart(s));
    TrimIdempotent(s);
    assert s == a + (Trim(s) + b) == a + Trim(s) + b;
  }

  /** Text is blank exactly if nothing is left of it. */
  lemma BlankIff(s: string)
    ensures Trim(s) == "" <==> Blank(s)
  {
    var a, b := TrimCuts(s);
    if Trim(s) == "" {
      assert s == a + b;
    } else {
      assert Trim(s)[0] == s[|a|];
    }
  }

  lemma {:induction false} LeadingBlank(a: string, s: string)
    requires Blank(a)
    ensures TrimStart(a + s) == TrimStart(s)
  {
    if a == "" {
      assert a + s == s;
    } else {
      assert (a + s)[0] == a[0] && (a + s)[1..] == a[1..] + s;
      LeadingBlank(a[1..], s);
    }
  }

  /** Trimmed text with whitespace before it trims to itself. */
  lemma TrimmedStays(a: string, s: string)
    requires Blank(a) && Trimmed(s)
    ensures Trim(a + s) == s && Trim(s) == s
  {
    LeadingBlank(a, s);
  }

  // ----- Lines ended by a newline -----

  /** Index of the first newline, or the length when there is none. */
  function NewlineAt(s: string): (i: nat)
    ensures i <= |s| && (i < |s| ==> s[i] == '\n')
    ensures forall j | 0 <= j < i :: s[j] != '\n'
  {
    if s == "" || s[0] == '\n' then 0 else 1 + NewlineAt(s[1..])
  }

  /** The lines of `s` that a newline ends. */
  function EndedLines(s: string): (lines: seq<string>)
    decreases |s|
  {
    var i := NewlineAt(s);
    if i == |s| then [] else [s[..i]] + EndedLines(s[i + 1..])
  }

  /** What follows the last newline. */
  function LastPart(s: string): (part: string)
    ensures '\n' !in part
    decreases |s|
  {
    var i := NewlineAt(s);
    if i == |s| then s else LastPart(s[i + 1..])
  }

  function Rejoined(lines: seq<string>): string {
    if lines == [] then "" else lines[0] + "\n" + Rejoined(lines[1..])
  }

  lemma LinesUnfold(s: string)
    ensures var i := NewlineAt(s);
            && (i == |s| ==> EndedLines(s) == [] && LastPart(s) == s)
            && (i < |s| ==>
                  EndedLines(s) == [s[..i]] + EndedLines(s[i + 1..]) && LastPart(s) == LastPart(s[i + 1..]))
  {
    hide NewlineAt;
  }

  lemma FirstLineSpells(s: string, i: nat)
    requires i == NewlineAt(s) < |s|
    ensures '\n' !in s[..i] && s == s[..i] + "\n" + s[i + 1..]
  {
    hide NewlineAt;
    assert s[i] == '\n';
  }

  /** The lines and what follows them are the text, and no line holds a newline. */
  lemma {:induction false} LinesSpell(s: string)
    ensures Rejoined(EndedLines(s)) + LastPart(s) == s
    ensures forall line | line in EndedLines(s) :: '\n' !in line
    decreases |s|
  {
    hide NewlineAt, EndedLines, LastPart, Rejoined;
    LinesUnfold(s);
    var i := NewlineAt(s);
    if i < |s| {
      var line, rest := s[..i], s[i + 1..];
      LinesSpell(rest);
      FirstLineSpells(s, i);
      RejoinedHead(line, EndedLines(rest));
      assert line + "\n" + Rejoined(EndedLines(rest)) + LastPart(rest)
          == line + "\n" + (Rejoined(EndedLines(rest)) + LastPart(rest));
    } else {
      NothingRejoined();
      assert "" + s == s;
    }
  }

  lemma NothingRejoined()
    ensures Rejoined([]) == ""
  {
  }

  lemma RejoinedHead(line: string, rest: seq<string>)
    ensures Rejoined([line] + rest) == line + "\n" + Rejoined(rest)
  {
    assert ([line] + rest)[1..] == rest;
  }

  /** One line, and its newline. */
  lemma OneLine(line: string)
    requires '\n' !in line
    ensures EndedLines(line + "\n") == [line] && LastPart(line + "\n") == ""
  {
    var s := line + "\n";
    assert forall j | 0 <= j < |line| :: s[j] == line[j] && line[j] in line;
    NewlineAtIs(s, |line|);
    assert s[..|line|] == line && s[|line| + 1..] == "";
  }

  lemma NewlineAtIs(s: string, i: nat)
    requires i < |s| && s[i] == '\n' && forall j | 0 <= j < i :: s[j] != '\n'
    ensures NewlineAt(s) == i
  {
  }

  /** Text that arrives later completes the open line and adds lines after it. */
  lemma {:induction false} LinesAppend(a: string, b: string)
    ensures EndedLines(a + b) == EndedLines(a) + EndedLines(LastPart(a) + b)
    ensures LastPart(a + b) == LastPart(LastPart(a) + b)
    decreases |a|
  {
    hide NewlineAt;
    var i := NewlineAt(a);
    if i < |a| {
      NewlineAtIs(a + b, i);
      assert (a + b)[..i] == a[..i];
      assert (a + b)[i + 1..] == a[i + 1..] + b;
      LinesAppend(a[i + 1..], b);
    }
  }
}
