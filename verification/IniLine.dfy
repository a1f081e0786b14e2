/** iniparser_line: one logical line of an INI file, classified by a small sscanf. */
module IniLine {
  import opened CText

  // ----- the part of sscanf that the grammar uses -----

  /** ` ` in a format, an ordinary character, or `%[chars]` / `%[^chars]`. */
  datatype Directive = Blank | Lit(c: char) | Scan(chars: set<char>, negated: bool)

  /** The longest prefix of characters in the scan set. */
  function Span(s: string, chars: set<char>, negated: bool): (t: string)
    ensures |t| <= |s| && t == s[..|t|]
    ensures forall i :: 0 <= i < |t| ==> (t[i] in chars) != negated
    ensures |t| < |s| ==> (s[|t|] in chars) == negated
  {
    if s != "" && (s[0] in chars) != negated then [s[0]] + Span(s[1..], chars, negated) else ""
  }

  /** The strings assigned before the first directive that fails. */
  function Sscanf(fmt: seq<Directive>, input: string): seq<string> {
    if fmt == [] then []
    else match fmt[0]
      case Blank => Sscanf(fmt[1..], DropSpace(input))
      case Lit(c) => if input != "" && input[0] == c then Sscanf(fmt[1..], input[1..]) else []
      case Scan(chars, negated) =>
        var t := Span(input, chars, negated);
        if t == "" then [] else [t] + Sscanf(fmt[1..], input[|t|..])
  }

  const SECTION := [Lit('['), Scan({']'}, true)]
  const DOUBLE_QUOTED := [Scan({'='}, true), Blank, Lit('='), Blank, Lit('"'), Scan({'"'}, true), Lit('"')]
  const SINGLE_QUOTED := [Scan({'='}, true), Blank, Lit('='), Blank, Lit('\''), Scan({'\''}, true), Lit('\'')]
  const PLAIN := [Scan({'='}, true), Blank, Lit('='), Blank, Scan({';', '#'}, true)]
  const COMMENT_ONLY := [Scan({'='}, true), Blank, Lit('='), Blank, Scan({';', '#'}, false)]
  const NO_VALUE := [Scan({'='}, true), Blank, Scan({'='}, false)]

  // ----- the line grammar -----

  /** LineOverrun is a line on which the parser writes past the end of a buffer. */
  datatype Line =
    | LineOverrun
    | LineError
    | LineEmpty
    | LineComment
    | LineSection(section: string)
    | LineValue(key: string, value: string)

  /** `""` and `''` denote the empty value; sscanf cannot return it. */
  function Unquote(v: string): string {
    if v == "\"\"" || v == "''" then "" else v
  }

  function KeyValue(got: seq<string>): Line
    requires |got| == 2
  {
    LineValue(Lower(Trim(got[0])), Unquote(Trim(got[1])))
  }

  /** Everything before the first `=`. */
  function BeforeEquals(line: string): (k: string)
    ensures |k| <= |line| && ('=' in line ==> |k| < |line| && line[|k|] == '=')
  {
    Span(line, {'='}, true)
  }

  predicate Bracketed(line: string) {
    line != "" && line[0] == '[' && line[|line| - 1] == ']'
  }

  /** What `[%[^]]` stores for a bracketed line. */
  function ScannedName(line: string): string {
    var got := Sscanf(SECTION, line);
    if got == [] then "" else got[0]
  }

  /** The key buffer of a line with an `=` has room for the text before it and a terminator. */
  function KeyRoom(line: string): nat
    requires '=' in line
  {
    |BeforeEquals(line)| + 1
  }

  /** The value buffer. */
  function ValueRoom(line: string): nat
    requires '=' in line
  {
    |line| - |BeforeEquals(line)| + 1
  }

  /** A section name and its terminator do not fit the key buffer. */
  predicate Overruns(line: string) {
    Bracketed(line) && '=' in line && |ScannedName(line)| + 1 > KeyRoom(line)
  }

  function LineOf(input: string): Line {
    var line := Trim(input);
    if line == "" then LineEmpty
    else if line[0] == '#' || line[0] == ';' then LineComment
    else if Bracketed(line) then
      if Overruns(line) then LineOverrun else LineSection(Lower(Trim(ScannedName(line))))
    else if '=' in line && |Sscanf(DOUBLE_QUOTED, line)| == 2 then KeyValue(Sscanf(DOUBLE_QUOTED, line))
    else if '=' in line && |Sscanf(SINGLE_QUOTED, line)| == 2 then KeyValue(Sscanf(SINGLE_QUOTED, line))
    else if '=' in line && |Sscanf(PLAIN, line)| == 2 then KeyValue(Sscanf(PLAIN, line))
    else if '=' in line && |Sscanf(COMMENT_ONLY, line)| == 2 then
      LineValue(Lower(Trim(Sscanf(COMMENT_ONLY, line)[0])), "")
    else if '=' in line && |Sscanf(NO_VALUE, line)| == 2 then
      LineValue(Lower(Trim(Sscanf(NO_VALUE, line)[0])), "")
    else LineError
  }

  // ----- what the five formats amount to -----

  /** The value denoted by the text after the first `=`: a non-empty quoted run, else what
      precedes a comment, else nothing. */
  function ValueText(text: string): string {
    var rest := DropSpace(text);
    if rest != "" && rest[0] == '"' && Span(rest[1..], {'"'}, true) != "" then
      Unquote(Trim(Span(rest[1..], {'"'}, true)))
    else if rest != "" && rest[0] == '\'' && Span(rest[1..], {'\''}, true) != "" then
      Unquote(Trim(Span(rest[1..], {'\''}, true)))
    else
      Unquote(Trim(Span(rest, {';', '#'}, true)))
  }

  lemma SscanfCons(d: Directive, tail: seq<Directive>, input: string)
    ensures d.Blank? ==> Sscanf([d] + tail, input) == Sscanf(tail, DropSpace(input))
    ensures d.Lit? ==>
              Sscanf([d] + tail, input) == if input != "" && input[0] == d.c then Sscanf(tail, input[1..]) else []
    ensures d.Scan? ==>
              Sscanf([d] + tail, input) ==
              if Span(input, d.chars, d.negated) == "" then []
              else [Span(input, d.chars, d.negated)] + Sscanf(tail, input[|Span(input, d.chars, d.negated)|..])
  {
    assert ([d] + tail)[1..] == tail;
  }

  lemma ScanKey(line: string, tail: seq<Directive>)
    requires '=' in line && line[0] != '='
    ensures var k := Span(line, {'='}, true);
            && k != "" && |k| < |line| && line[|k|] == '='
            && Sscanf([Scan({'='}, true)] + tail, line) == [k] + Sscanf(tail, line[|k|..])
  {
    var k := Span(line, {'='}, true);
    assert |k| == |line| ==> line == k;
    SscanfCons(Scan({'='}, true), tail, line);
  }

  lemma ScanEquals(text: string, tail: seq<Directive>)
    ensures Sscanf([Blank, Lit('='), Blank] + tail, "=" + text) == Sscanf(tail, DropSpace(text))
  {
    assert [Blank, Lit('='), Blank] + tail == [Blank] + ([Lit('=')] + ([Blank] + tail));
    SscanfCons(Blank, [Lit('=')] + ([Blank] + tail), "=" + text);
    SscanfCons(Lit('='), [Blank] + tail, "=" + text);
    SscanfCons(Blank, tail, text);
    assert ("=" + text)[1..] == text;
  }

  lemma ScanQuoted(rest: string, q: char)
    ensures var got := Sscanf([Lit(q), Scan({q}, true), Lit(q)], rest);
            if rest != "" && rest[0] == q && Span(rest[1..], {q}, true) != ""
            then got == [Span(rest[1..], {q}, true)] else got == []
  {
    assert [Lit(q), Scan({q}, true), Lit(q)] == [Lit(q)] + ([Scan({q}, true)] + ([Lit(q)] + []));
    SscanfCons(Lit(q), [Scan({q}, true)] + ([Lit(q)] + []), rest);
    if rest != "" && rest[0] == q {
      var t := Span(rest[1..], {q}, true);
      SscanfCons(Scan({q}, true), [Lit(q)] + [], rest[1..]);
      SscanfCons(Lit(q), [], rest[1..][|t|..]);
    }
  }

  lemma ScanRun(rest: string, chars: set<char>, negated: bool)
    ensures var t := Span(rest, chars, negated);
            Sscanf([Scan(chars, negated)], rest) == if t == "" then [] else [t]
  {
    assert [Scan(chars, negated)][1..] == [];
  }

  lemma ScanAssignment(line: string, tail: seq<Directive>)
    requires '=' in line && line[0] != '='
    ensures var k := Span(line, {'='}, true);
            && k != "" && |k| < |line|
            && Sscanf([Scan({'='}, true), Blank, Lit('='), Blank] + tail, line) ==
               [k] + Sscanf(tail, DropSpace(line[|k| + 1..]))
  {
    var k := Span(line, {'='}, true);
    ScanKey(line, [Blank, Lit('='), Blank] + tail);
    assert [Scan({'='}, true), Blank, Lit('='), Blank] + tail ==
           [Scan({'='}, true)] + ([Blank, Lit('='), Blank] + tail);
    assert line[|k|..] == "=" + line[|k| + 1..];
    ScanEquals(line[|k| + 1..], tail);
  }

  lemma QuotedScan(line: string, q: char)
    requires '=' in line && line[0] != '='
    ensures var k := Span(line, {'='}, true);
            var rest := DropSpace(line[|k| + 1..]);
            Sscanf([Scan({'='}, true), Blank, Lit('='), Blank, Lit(q), Scan({q}, true), Lit(q)], line) ==
            [k] + if rest != "" && rest[0] == q && Span(rest[1..], {q}, true) != ""
                  then [Span(rest[1..], {q}, true)] else []
  {
    var tail := [Lit(q), Scan({q}, true), Lit(q)];
    ScanAssignment(line, tail);
    ScanQuoted(DropSpace(line[|Span(line, {'='}, true)| + 1..]), q);
    assert [Scan({'='}, true), Blank, Lit('='), Blank, Lit(q), Scan({q}, true), Lit(q)] ==
           [Scan({'='}, true), Blank, Lit('='), Blank] + tail;
  }

  lemma RunScan(line: string, chars: set<char>, negated: bool)
    requires '=' in line && line[0] != '='
    ensures var k := Span(line, {'='}, true);
            var t := Span(DropSpace(line[|k| + 1..]), chars, negated);
            Sscanf([Scan({'='}, true), Blank, Lit('='), Blank, Scan(chars, negated)], line) ==
            [k] + if t == "" then [] else [t]
  {
    ScanAssignment(line, [Scan(chars, negated)]);
    ScanRun(DropSpace(line[|Span(line, {'='}, true)| + 1..]), chars, negated);
    assert [Scan({'='}, true), Blank, Lit('='), Blank, Scan(chars, negated)] ==
           [Scan({'='}, true), Blank, Lit('='), Blank] + [Scan(chars, negated)];
  }

  /** The five formats read every line that has a key before its first `=`, and give the
      key before it and the value after it. */
  lemma AssignmentLine(input: string)
    requires var line := Trim(input);
             && '=' in line && line[0] !in {'=', '#', ';'} && !(line[0] == '[' && line[|line| - 1] == ']')
    ensures var line := Trim(input);
            var k := Span(line, {'='}, true);
            |k| < |line| && LineOf(input) == LineValue(Lower(Trim(k)), ValueText(line[|k| + 1..]))
  {
    var line := Trim(input);
    ScanAssignment(line, []);
    QuotedScan(line, '"');
    QuotedScan(line, '\'');
    RunScan(line, {';', '#'}, true);
    RunScan(line, {';', '#'}, false);
    NoValueScan(line);
  }

  lemma NoValueScan(line: string)
    requires '=' in line && line[0] != '='
    ensures |Sscanf(NO_VALUE, line)| == 2 && Sscanf(NO_VALUE, line)[0] == Span(line, {'='}, true)
  {
    var k := Span(line, {'='}, true);
    var tail := [Blank, Scan({'='}, false)];
    assert NO_VALUE == [Scan({'='}, true)] + tail;
    ScanKey(line, tail);
    assert tail[1..] == [Scan({'='}, false)];
    assert DropSpace(line[|k|..]) == line[|k|..];
    ScanRun(line[|k|..], {'='}, false);
  }

  /** A line is a syntax error exactly when it is not blank, not a comment, not bracketed
      and has no key before an `=`. */
  lemma ErrorLine(input: string)
    ensures var line := Trim(input);
            LineOf(input) == LineError <==>
            && line != "" && line[0] != '#' && line[0] != ';'
            && !(line[0] == '[' && line[|line| - 1] == ']')
            && ('=' !in line || line[0] == '=')
  {
    var line := Trim(input);
    if line != "" && line[0] != '#' && line[0] != ';' && !(line[0] == '[' && line[|line| - 1] == ']') {
      if '=' in line && line[0] != '=' {
        AssignmentLine(input);
      } else if line[0] == '=' {
        assert Span(line, {'='}, true) == "";
      }
    }
  }

  /** A line overruns exactly when it is bracketed and the name up to its first `]` is longer
      than the text before its first `=`. */
  lemma OverrunLine(input: string)
    ensures var line := Trim(input);
            LineOf(input) == LineOverrun <==>
            && Bracketed(line) && '=' in line
            && |Span(line[1..], {']'}, true)| > |BeforeEquals(line)|
  {
    var line := Trim(input);
    if Bracketed(line) {
      NameScan(line);
    }
  }

  lemma NameScan(line: string)
    requires Bracketed(line)
    ensures ScannedName(line) == Span(line[1..], {']'}, true)
  {
    assert SECTION[1..] == [Scan({']'}, true)];
    ScanRun(line[1..], {']'}, true);
  }

  /** No `=`, or none but the last character. */
  predicate EqualsOnlyLast(name: string) {
    '=' in name ==> |BeforeEquals(name)| == |name| - 1
  }

  /** A bracketed name is a section line that carries that name back, unless it has an `=`
      before its last character: then it overruns the key buffer. */
  lemma SectionLine(name: string)
    requires name != "" && Trimmed(name) && IsLower(name) && ']' !in name
    ensures LineOf("[" + name + "]") == if EqualsOnlyLast(name) then LineSection(name) else LineOverrun
  {
    var line := "[" + name + "]";
    TrimmedUnchanged(line);
    TrimmedUnchanged(name);
    NameScan(line);
    assert line[1..] == name + "]";
    SpanStops(name, "]", {']'}, true);
    BracketEquals(name);
  }

  lemma TrimBlank(input: string)
    ensures Trim(input) == "" <==> AllSpace(input)
  {
    var front, back := TrimSplits(input);
    if AllSpace(input) {
      assert input + "" + "" == input;
      TrimPadded(input, "", "");
    }
  }

  /** What kind of line it is, by its first and last character and its first `=`. */
  lemma LineKind(input: string)
    ensures LineOf(input) == LineEmpty <==> AllSpace(input)
    ensures var line := Trim(input);
            && (LineOf(input) == LineComment <==> line != "" && line[0] in {'#', ';'})
            && (LineOf(input).LineSection? || LineOf(input) == LineOverrun <==>
                  line != "" && line[0] == '[' && line[|line| - 1] == ']')
            && (LineOf(input).LineValue? <==>
                  && '=' in line && line[0] !in {'=', '#', ';'}
                  && !(line[0] == '[' && line[|line| - 1] == ']'))
  {
    var line := Trim(input);
    TrimBlank(input);
    ErrorLine(input);
    if '=' in line && line[0] !in {'=', '#', ';'} && !(line[0] == '[' && line[|line| - 1] == ']') {
      AssignmentLine(input);
    }
  }

  lemma BracketsAround(text: string, tail: string)
    requires ']' !in text && (tail != "" ==> tail[|tail| - 1] == ']')
    ensures var line := "[" + text + ("]" + tail);
            Bracketed(line) && Trimmed(line) && ScannedName(line) == text
  {
    var line := "[" + text + ("]" + tail);
    assert line[|line| - 1] == ("]" + tail)[|tail|] == ']';
    NameScan(line);
    assert line[1..] == text + ("]" + tail);
    SpanStops(text, "]" + tail, {']'}, true);
  }

  lemma BracketedLine(line: string, before: string, after: string)
    requires Bracketed(line) && !Overruns(line) && AllSpace(before) && AllSpace(after)
    ensures LineOf(before + line + after) == LineSection(Lower(Trim(ScannedName(line))))
  {
    TrimPadded(before, line, after);
  }

  /** A section line gives the name between its first brackets without the blanks around it and in
      lower case, whatever the case it is written in and whatever follows, up to a last bracket. */
  lemma SectionName(front: string, name: string, back: string, tail: string, before: string, after: string)
    requires AllSpace(front) && AllSpace(back) && AllSpace(before) && AllSpace(after)
    requires Trimmed(name) && ']' !in name && (tail != "" ==> tail[|tail| - 1] == ']')
    requires var line := "[" + (front + name + back) + ("]" + tail);
             '=' in line ==> |front + name + back| <= |BeforeEquals(line)|
    ensures LineOf(before + ("[" + (front + name + back) + ("]" + tail)) + after) == LineSection(Lower(name))
  {
    var text := front + name + back;
    assert ']' !in text;
    BracketsAround(text, tail);
    TrimPadded(front, name, back);
    BracketedLine("[" + text + ("]" + tail), before, after);
  }

  /** `[Video]` is the section `video`. */
  lemma AnyCaseSection(name: string)
    requires name != "" && Trimmed(name) && ']' !in name && '=' !in name
    ensures LineOf("[" + name + "]") == LineSection(Lower(name))
  {
    var line := "[" + name + "]";
    assert "" + ("[" + ("" + name + "") + ("]" + "")) + "" == line;
    assert "[" + ("" + name + "") + ("]" + "") == line;
    SectionName("", name, "", "", "", "");
  }

  lemma BracketEquals(name: string)
    ensures '=' in "[" + name + "]" <==> '=' in name
    ensures '=' in name ==> |BeforeEquals("[" + name + "]")| == |BeforeEquals(name)| + 1
  {
    if '=' in name {
      var k := BeforeEquals(name);
      assert "[" + name + "]" == ("[" + k) + (name[|k|..] + "]");
      SpanStops("[" + k, name[|k|..] + "]", {'='}, true);
    }
  }

  /** The header `[=ab]` stores three characters and a terminator in two bytes. */
  lemma OverrunExample()
    ensures LineOf("[=ab]") == LineOverrun
    ensures KeyRoom("[=ab]") == 2 && ScannedName("[=ab]") == "=ab"
  {
    assert "[" + "=ab" + "]" == "[=ab]";
    SectionLine("=ab");
    BracketEquals("=ab");
    NameScan("[=ab]");
    assert "[=ab]"[1..] == "=ab" + "]";
    SpanStops("=ab", "]", {']'}, true);
  }

  lemma SpanStops(a: string, b: string, chars: set<char>, negated: bool)
    requires forall i :: 0 <= i < |a| ==> (a[i] in chars) != negated
    requires b != "" ==> (b[0] in chars) == negated
    ensures Span(a + b, chars, negated) == a
  {
    var t := Span(a + b, chars, negated);
    assert forall i :: 0 <= i < |a| ==> (a + b)[i] == a[i];
    assert b != "" ==> (a + b)[|a|] == b[0];
  }

  /** The sizes of the two buffers for a line with these parts: what stands before the first `=`,
      and the rest from it on, each with a terminator. */
  lemma RoomsAre(k: string, rest: string)
    requires '=' !in k
    ensures KeyRoom(k + "=" + rest) == |k| + 1 && ValueRoom(k + "=" + rest) == |rest| + 2
  {
    assert k + "=" + rest == k + ("=" + rest);
    SpanStops(k, "=" + rest, {'='}, true);
  }

  // ----- the value of an assignment -----

  predicate Quote(c: char) {
    c == '"' || c == '\''
  }

  /** Nothing, or a comment. */
  ghost predicate CommentOrEnd(tail: string) {
    tail == "" || tail[0] == ';' || tail[0] == '#'
  }

  lemma CommentCut(v: string, back: string, tail: string)
    requires AllSpace(back) && CommentOrEnd(tail) && Trimmed(v) && ';' !in v && '#' !in v
    ensures Trim(Span(v + back + tail, {';', '#'}, true)) == v
  {
    var text := v + back;
    assert forall i :: 0 <= i < |text| ==> text[i] !in {';', '#'};
    SpanStops(text, tail, {';', '#'}, true);
    assert "" + v + back == text;
    TrimPadded("", v, back);
  }

  lemma BlanksBefore(pad: string, text: string)
    requires AllSpace(pad)
    ensures ValueText(pad + text) == ValueText(text)
  {
    DropSpaceSkips(pad, text);
  }

  /** Without a quoted run the value is what precedes a comment. */
  lemma PlainRun(text: string)
    requires text != "" && !IsSpace(text[0]) && (Quote(text[0]) ==> |text| > 1 && text[1] == text[0])
    ensures ValueText(text) == Unquote(Trim(Span(text, {';', '#'}, true)))
  {
    assert DropSpace(text) == text;
  }

  lemma OnlyComment(back: string, tail: string)
    requires AllSpace(back) && CommentOrEnd(tail)
    ensures ValueText(back + tail) == ""
  {
    DropSpaceSkips(back, tail);
    assert DropSpace(tail) == tail;
    assert "" + "" + tail == tail;
    CommentCut("", "", tail);
  }

  /** A comment is cut off, with the blanks before it. */
  lemma CommentedValue(pad: string, v: string, back: string, tail: string)
    requires AllSpace(pad) && AllSpace(back) && CommentOrEnd(tail)
    requires Trimmed(v) && ';' !in v && '#' !in v
    requires v != "" && Quote(v[0]) ==> |v| > 2 && v[1] == v[0]
    ensures ValueText(pad + (v + back + tail)) == v
  {
    var text := v + back + tail;
    BlanksBefore(pad, text);
    if v == "" {
      assert text == back + tail;
      OnlyComment(back, tail);
    } else {
      assert text[0] == v[0] && (|v| > 1 ==> text[1] == v[1]);
      PlainRun(text);
      CommentCut(v, back, tail);
    }
  }

  /** Quotes are taken off, together with the blanks inside them and everything after the closing
      one; the closing quote may be missing. */
  lemma QuotedValue(pad: string, q: char, run: string, tail: string)
    requires AllSpace(pad) && Quote(q) && run != "" && q !in run && (tail != "" ==> tail[0] == q)
    ensures ValueText(pad + ([q] + (run + tail))) ==
            if Trim(run) == "\"\"" || Trim(run) == "''" then "" else Trim(run)
  {
    var text := [q] + (run + tail);
    DropSpaceSkips(pad, text);
    assert text[0] == q && DropSpace(text) == text && text[1..] == run + tail;
    SpanStops(run, tail, {q}, true);
  }

  /** Two quotes with nothing between them are the empty value. */
  lemma EmptyQuotes(pad: string, q: char, back: string, tail: string)
    requires AllSpace(pad) && AllSpace(back) && Quote(q) && CommentOrEnd(tail)
    ensures ValueText(pad + ([q, q] + back + tail)) == ""
  {
    var v := [q, q];
    var text := v + back + tail;
    BlanksBefore(pad, text);
    assert text[0] == q && text[1] == q;
    PlainRun(text);
    CommentCut(v, back, tail);
    assert v == "\"\"" || v == "''";
  }

  // ----- which values survive -----

  /** The values that print and parse to themselves: trimmed, free of comment characters,
      and not opening with a quote that the grammar would take off. */
  predicate PlainValue(v: string) {
    && (v != "" ==> !IsSpace(v[0]) && !IsSpace(v[|v| - 1]))
    && ';' !in v && '#' !in v
    && (v != "" && (v[0] == '"' || v[0] == '\'') ==> |v| == 1 || (v[1] == v[0] && |v| > 2))
  }

  lemma SpanTrimLength(s: string, chars: set<char>)
    ensures |Unquote(Trim(Span(s, chars, true)))| <= |s|
    ensures forall c :: c in Unquote(Trim(Span(s, chars, true))) ==> c in s && c !in chars
  {
    var t := Span(s, chars, true);
    var front, back := TrimSplits(t);
    assert t == front + Trim(t) + back;
    forall c | c in Trim(t)
      ensures c in s && c !in chars
    {
      var i :| 0 <= i < |Trim(t)| && Trim(t)[i] == c;
      assert t[|front| + i] == c;
      assert s[..|t|][|front| + i] == c;
    }
  }

  /** Exactly the plain values are their own value text. */
  lemma PlainValueIff(v: string, pad: string)
    requires AllSpace(pad)
    ensures ValueText(pad + v) == v <==> PlainValue(v)
  {
    DropSpaceSkips(pad, v);
    if PlainValue(v) {
      PlainValueKept(v);
    }
    if ValueText(v) == v {
      KeptValuePlain(v);
    }
  }

  lemma PlainValueKept(v: string)
    requires PlainValue(v)
    ensures ValueText(v) == v
  {
    assert DropSpace(v) == v;
    TrimmedUnchanged(v);
    assert v + "" == v;
    SpanStops(v, "", {';', '#'}, true);
  }

  /** The text after its blanks opens with a quote that encloses something. */
  predicate OpensRun(rest: string) {
    && rest != "" && (rest[0] == '"' || rest[0] == '\'')
    && Span(rest[1..], {rest[0]}, true) != ""
  }

  lemma RunIsShorter(v: string)
    requires OpensRun(DropSpace(v))
    ensures |ValueText(v)| < |v|
  {
    var rest := DropSpace(v);
    var front := DropSpaceSplits(v);
    SpanTrimLength(rest[1..], {rest[0]});
  }

  lemma UnquotedKept(v: string)
    requires !OpensRun(DropSpace(v)) && ValueText(v) == v
    ensures Trimmed(v) && ';' !in v && '#' !in v && DropSpace(v) == v && Unquote(v) == v
  {
    var rest := DropSpace(v);
    var front := DropSpaceSplits(v);
    SpanTrimLength(rest, {';', '#'});
    var t := Span(rest, {';', '#'}, true);
    var f, b := TrimSplits(t);
    assert |Trim(t)| <= |t| <= |rest| <= |v|;
    assert v != "" ==> Trim(t) == v && rest == v;
  }

  lemma KeptValuePlain(v: string)
    requires ValueText(v) == v
    ensures PlainValue(v)
  {
    if OpensRun(DropSpace(v)) {
      RunIsShorter(v);
    } else {
      UnquotedKept(v);
      UnquotedRun(v);
    }
  }

  /** A text that opens with a quote and yields no quoted run is that quote alone, or opens
      with the quote twice. */
  lemma UnquotedRun(v: string)
    requires !OpensRun(v)
    ensures v != "" && (v[0] == '"' || v[0] == '\'') ==> |v| == 1 || v[1] == v[0]
  {
  }

  // ----- iniparser_line -----

  lemma {:induction false} ScanFreeOf(fmt: seq<Directive>, input: string, c: char)
    requires c !in input
    ensures forall t :: t in Sscanf(fmt, input) ==> c !in t
    decreases |fmt|
  {
    if fmt != [] {
      match fmt[0] {
        case Blank =>
          var front := DropSpaceSplits(input);
          ScanFreeOf(fmt[1..], DropSpace(input), c);
        case Lit(d) =>
          if input != "" { ScanFreeOf(fmt[1..], input[1..], c); }
        case Scan(chars, negated) =>
          ScanFreeOf(fmt[1..], input[|Span(input, chars, negated)|..], c);
      }
    }
  }

  lemma {:induction false} PiecesWithin(fmt: seq<Directive>, input: string)
    ensures forall t :: t in Sscanf(fmt, input) ==> |t| <= |input|
    decreases |fmt|
  {
    if fmt != [] {
      match fmt[0] {
        case Blank =>
          var front := DropSpaceSplits(input);
          PiecesWithin(fmt[1..], DropSpace(input));
        case Lit(d) =>
          if input != "" { PiecesWithin(fmt[1..], input[1..]); }
        case Scan(chars, negated) =>
          PiecesWithin(fmt[1..], input[|Span(input, chars, negated)|..]);
      }
    }
  }

  /** A format that begins by scanning a key, and scans one more text. */
  predicate KeyFormat(fmt: seq<Directive>) {
    fmt != [] && fmt[0] == Scan({'='}, true) && Scans(fmt) == 2
  }

  function Scans(fmt: seq<Directive>): nat {
    if fmt == [] then 0 else (if fmt[0].Scan? then 1 else 0) + Scans(fmt[1..])
  }

  lemma {:induction false} AtMostScans(fmt: seq<Directive>, input: string)
    ensures |Sscanf(fmt, input)| <= Scans(fmt)
    decreases |fmt|
  {
    if fmt != [] {
      match fmt[0] {
        case Blank => AtMostScans(fmt[1..], DropSpace(input));
        case Lit(d) =>
          if input != "" { AtMostScans(fmt[1..], input[1..]); }
        case Scan(chars, negated) => AtMostScans(fmt[1..], input[|Span(input, chars, negated)|..]);
      }
    }
  }

  /** Whatever a key format stores fits the two buffers. */
  lemma ScansFit(fmt: seq<Directive>, line: string)
    requires KeyFormat(fmt) && '=' in line
    ensures var got := Sscanf(fmt, line);
            && |got| <= 2
            && (|got| >= 1 ==> |got[0]| + 1 <= KeyRoom(line))
            && (|got| == 2 ==> |got[1]| + 1 <= ValueRoom(line))
  {
    AtMostScans(fmt, line);
    var k := BeforeEquals(line);
    if k != "" {
      PiecesWithin(fmt[1..], line[|k|..]);
      assert Sscanf(fmt, line) == [k] + Sscanf(fmt[1..], line[|k|..]);
    }
  }

  /** sscanf's store of one text: the buffer must have room for it and its terminator. */
  method StoreText(buffer: array<char>, text: string)
    requires NUL !in text && |text| + 1 <= buffer.Length
    modifies buffer
    ensures CStr(buffer[..]) == text && NUL in buffer[..]
  {
    for i := 0 to |text|
      invariant buffer[..i] == text[..i]
    {
      buffer[i] := text[i];
    }
    buffer[|text|] := NUL;
    assert buffer[..|text|] == text;
    assert buffer[|text|] == NUL;
    CStrOf(buffer[..], |text|);
  }

  /** One sscanf with a key format into the two buffers. */
  method ScanInto(fmt: seq<Directive>, line: string, key: array<char>, value: array<char>) returns (count: nat)
    requires KeyFormat(fmt) && '=' in line && NUL !in line && key != value
    requires key.Length == KeyRoom(line) && value.Length == ValueRoom(line)
    modifies key, value
    ensures count == |Sscanf(fmt, line)|
    ensures count == 2 ==> NUL in key[..] && CStr(key[..]) == Sscanf(fmt, line)[0]
    ensures count == 2 ==> NUL in value[..] && CStr(value[..]) == Sscanf(fmt, line)[1]
  {
    var got := Sscanf(fmt, line);
    ScansFit(fmt, line);
    ScanFreeOf(fmt, line, NUL);
    count := |got|;
    if count >= 1 {
      StoreText(key, got[0]);
    }
    if count == 2 {
      StoreText(value, got[1]);
    }
  }

  /** The key as the parser returns it: stripped, then lower-cased, in its buffer. */
  method KeyText(key: array<char>) returns (r: string)
    requires NUL in key[..]
    modifies key
    ensures r == Lower(Trim(old(CStr(key[..])))) && NUL !in r
  {
    StrStrip(key);
    StrLwc(key);
    r := BufferText(key);
  }

  method FinishValue(key: array<char>, value: array<char>, ghost got: seq<string>) returns (r: Line)
    requires |got| == 2 && key != value && NUL in key[..] && NUL in value[..]
    requires CStr(key[..]) == got[0] && CStr(value[..]) == got[1]
    modifies key, value
    ensures r == KeyValue(got)
  {
    var k := KeyText(key);
    StrStrip(value);
    var v := BufferText(value);
    if v == "\"\"" || v == "''" {
      v := "";
    }
    r := LineValue(k, v);
  }

  /** The five formats, tried in turn. */
  method ScanAssignmentLine(line: string) returns (r: Line)
    requires '=' in line && NUL !in line && line[0] != '#' && line[0] != ';' && !Bracketed(line) && Trim(line) == line
    ensures r == LineOf(line)
  {
    var key, value := new char[KeyRoom(line)], new char[ValueRoom(line)];
    var count := ScanInto(DOUBLE_QUOTED, line, key, value);
    if count == 2 {
      r := FinishValue(key, value, Sscanf(DOUBLE_QUOTED, line));
      return;
    }
    count := ScanInto(SINGLE_QUOTED, line, key, value);
    if count == 2 {
      r := FinishValue(key, value, Sscanf(SINGLE_QUOTED, line));
      return;
    }
    count := ScanInto(PLAIN, line, key, value);
    if count == 2 {
      r := FinishValue(key, value, Sscanf(PLAIN, line));
      return;
    }
    count := ScanInto(COMMENT_ONLY, line, key, value);
    if count != 2 {
      count := ScanInto(NO_VALUE, line, key, value);
    }
    if count == 2 {
      var k := KeyText(key);
      return LineValue(k, "");
    }
    return LineError;
  }

  /** The section branch: one store into the key buffer, which is where it may overrun. */
  method ScanSectionLine(line: string) returns (r: Line)
    requires Bracketed(line) && NUL !in line && Trim(line) == line
    ensures r == LineOf(line)
  {
    var name := ScannedName(line);
    ScanFreeOf(SECTION, line, NUL);
    PiecesWithin(SECTION, line);
    // Without an `=` the source takes at least this much.
    var key := new char[if '=' in line then KeyRoom(line) else |line| + 2];
    if |name| + 1 > key.Length {
      return LineOverrun;
    }
    StoreText(key, name);
    var k := KeyText(key);
    return LineSection(k);
  }

  /** iniparser_line on its own stripped copy of the input; it overruns a buffer exactly on the
      lines that LineOf says. */
  method ParseLine(input: string) returns (r: Line)
    requires NUL !in input
    ensures r == LineOf(input)
  {
    var line := StripCopy(input);
    TrimTwice(input);
    if line == "" {
      return LineEmpty;
    }
    if line[0] == '#' || line[0] == ';' {
      return LineComment;
    }
    if line[0] == '[' && line[|line| - 1] == ']' {
      r := ScanSectionLine(line);
    } else if '=' in line {
      r := ScanAssignmentLine(line);
    } else {
      r := LineError;
    }
  }

  lemma TrimTwice(input: string)
    ensures Trim(Trim(input)) == Trim(input)
  {
    var front, back := TrimSplits(input);
    TrimmedUnchanged(Trim(input));
  }
}
