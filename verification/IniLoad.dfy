/** iniparser_load: fgets fragments, continuation lines, and the fold of the logical lines
    into a dictionary. */
module IniLoad {
  import opened Common
  import opened CText
  import opened IniLine
  import opened Dictionary

  const ASCIILINESZ := 1024

  // ----- physical lines -----

  function FragmentLength(file: string, room: nat): (n: nat)
    ensures n <= |file| && n <= room
    ensures file != "" && room > 0 ==> n > 0
    ensures forall i :: 0 <= i < n - 1 ==> file[i] != '\n'
    ensures n < |file| && n < room ==> n > 0 && file[n - 1] == '\n'
  {
    if file == "" || room == 0 then 0
    else if file[0] == '\n' then 1
    else 1 + FragmentLength(file[1..], room - 1)
  }

  /** What `fgets(line, ASCIILINESZ, in)` stores. */
  function Fgets(file: string): (line: string)
    ensures |line| <= |file| && line == file[..|line|]
    ensures file != "" ==> line != ""
  {
    file[..FragmentLength(file, ASCIILINESZ - 1)]
  }

  /** A full buffer with no newline: the read stopped short of end of file. */
  predicate TooLong(line: string)
    requires line != ""
  {
    line[|line| - 1] != '\n' && |line| == ASCIILINESZ - 1
  }

  /** The line without its newline and trailing blanks ends in a backslash. */
  predicate Continues(line: string) {
    var body := DropSpaceEnd(line);
    body != "" && body[|body| - 1] == '\\'
  }

  /** The text a physical line contributes to its logical line. */
  function Piece(line: string): string {
    var body := DropSpaceEnd(line);
    if Continues(line) then body[..|body| - 1] else body
  }

  // ----- logical lines -----

  /** The logical lines handed to the line parser, in order; whether reading ended at a physical
      line that overflows the buffer. */
  datatype Lines = Lines(handed: seq<string>, tooLong: bool)

  /** What is handed over, with `pending` the text of continuation lines read so far.  A physical
      line of one character is skipped without ending a continuation. */
  function LogicalLines(file: string, pending: string): (r: Lines)
    decreases |file|
  {
    if file == "" then Lines([], false)
    else
      var line := Fgets(file);
      var rest := file[|line|..];
      if |line| == 1 then LogicalLines(rest, pending)
      else if TooLong(line) then Lines([], true)
      else if Continues(line) then LogicalLines(rest, pending + Piece(line))
      else Prepend(pending + Piece(line), LogicalLines(rest, ""))
  }

  function Prepend(line: string, lines: Lines): Lines {
    Lines([line] + lines.handed, lines.tooLong)
  }

  // ----- the fold -----

  datatype Load = Load(section: string, dict: map<string, Option<string>>, errs: nat)

  const EMPTY := Load("", map[], 0)

  /** One parsed line.  A section or value line stores its result code, 0, over the error
      count. */
  function Step(st: Load, line: Line): Load {
    match line
    case LineOverrun => st
    case LineEmpty => st
    case LineComment => st
    case LineSection(name) => Load(name, st.dict[name := None], 0)
    case LineValue(k, v) => Load(st.section, st.dict[st.section + ":" + k := Some(v)], 0)
    case LineError => st.(errs := st.errs + 1)
  }

  function Fold(st: Load, lines: seq<Line>): Load {
    if lines == [] then st else Step(Fold(st, lines[..|lines| - 1]), lines[|lines| - 1])
  }

  function ParseAll(lines: seq<string>): (r: seq<Line>)
    ensures |r| == |lines|
    ensures forall i :: 0 <= i < |lines| ==> r[i] == LineOf(lines[i])
  {
    seq(|lines|, i requires 0 <= i < |lines| => LineOf(lines[i]))
  }

  /** What a load comes to: a write past the end of a buffer, NULL, or a dictionary. */
  datatype Loaded = Overrun | Null | Loads(dict: map<string, Option<string>>)

  function Outcome(st: Load, lines: Lines): Loaded {
    var parsed := ParseAll(lines.handed);
    if LineOverrun in parsed then Overrun
    else if lines.tooLong || Fold(st, parsed).errs != 0 then Null
    else Loads(Fold(st, parsed).dict)
  }

  /** What iniparser_load makes of a readable file. */
  function LoadFile(file: string): Loaded {
    Outcome(EMPTY, LogicalLines(file, ""))
  }

  lemma {:induction false} FoldHead(st: Load, line: Line, rest: seq<Line>)
    ensures Fold(st, [line] + rest) == Fold(Step(st, line), rest)
    decreases |rest|
  {
    var all := [line] + rest;
    if rest == [] {
      assert all[..0] == [];
    } else {
      assert all[..|all| - 1] == [line] + rest[..|rest| - 1];
      FoldHead(st, line, rest[..|rest| - 1]);
    }
  }

  lemma OutcomeHead(st: Load, line: string, lines: Lines)
    ensures Outcome(st, Prepend(line, lines)) ==
            if LineOf(line) == LineOverrun then Overrun else Outcome(Step(st, LineOf(line)), lines)
  {
    var rest := ParseAll(lines.handed);
    assert ParseAll([line] + lines.handed) == [LineOf(line)] + rest;
    assert LineOverrun in [LineOf(line)] + rest <==> LineOf(line) == LineOverrun || LineOverrun in rest;
    FoldHead(st, LineOf(line), rest);
  }

  // ----- last writer wins -----

  /** The section in force when line n is read. */
  function SectionAt(lines: seq<Line>, n: nat): string
    requires n <= |lines|
  {
    if n == 0 then ""
    else if lines[n - 1].LineSection? then lines[n - 1].section
    else SectionAt(lines, n - 1)
  }

  predicate Stores(line: Line) {
    line.LineSection? || line.LineValue?
  }

  /** The key and value that section or value line i writes. */
  function KeyOf(lines: seq<Line>, i: nat): string
    requires i < |lines| && Stores(lines[i])
  {
    if lines[i].LineSection? then lines[i].section else SectionAt(lines, i) + ":" + lines[i].key
  }

  function ValueOf(line: Line): Option<string>
    requires Stores(line)
  {
    if line.LineSection? then None else Some(line.value)
  }

  ghost predicate Writes(lines: seq<Line>, i: nat, key: string)
    requires i < |lines|
  {
    Stores(lines[i]) && KeyOf(lines, i) == key
  }

  /** Line i is the last of the first n that writes `key`. */
  ghost predicate LastWriter(lines: seq<Line>, n: nat, i: nat, key: string)
    requires i < n <= |lines|
  {
    Writes(lines, i, key) && forall j :: i < j < n ==> !Writes(lines, j, key)
  }

  lemma FoldPrefix(lines: seq<Line>, n: nat)
    requires n < |lines|
    ensures Fold(EMPTY, lines[..n + 1]) == Step(Fold(EMPTY, lines[..n]), lines[n])
  {
    assert lines[..n + 1][..n] == lines[..n];
  }

  lemma {:induction false} FoldSection(lines: seq<Line>, n: nat)
    requires n <= |lines|
    ensures Fold(EMPTY, lines[..n]).section == SectionAt(lines, n)
  {
    if n > 0 {
      FoldSection(lines, n - 1);
      FoldPrefix(lines, n - 1);
    }
  }

  lemma FoldWrites(lines: seq<Line>, n: nat)
    requires n < |lines|
    ensures var m := Fold(EMPTY, lines[..n]).dict;
            Fold(EMPTY, lines[..n + 1]).dict ==
            if Stores(lines[n]) then m[KeyOf(lines, n) := ValueOf(lines[n])] else m
  {
    FoldPrefix(lines, n);
    FoldSection(lines, n);
  }

  /** The loaded dictionary has exactly the keys that some line writes; a key is qualified by
      the last section line before it. */
  lemma {:induction false} KeysWritten(lines: seq<Line>, n: nat, key: string)
    requires n <= |lines|
    ensures key in Fold(EMPTY, lines[..n]).dict <==> exists i :: 0 <= i < n && Writes(lines, i, key)
  {
    if n > 0 {
      KeysWritten(lines, n - 1, key);
      FoldWrites(lines, n - 1);
      assert Writes(lines, n - 1, key) ==> key in Fold(EMPTY, lines[..n]).dict;
    }
  }

  /** Each key has the value of the last line that writes it. */
  lemma {:induction false} LastWriterWins(lines: seq<Line>, n: nat, i: nat, key: string)
    requires i < n <= |lines| && LastWriter(lines, n, i, key)
    ensures key in Fold(EMPTY, lines[..n]).dict && Fold(EMPTY, lines[..n]).dict[key] == ValueOf(lines[i])
  {
    FoldWrites(lines, n - 1);
    if i < n - 1 {
      assert !Writes(lines, n - 1, key);
      LastWriterWins(lines, n - 1, i, key);
    }
  }

  // ----- when load returns NULL -----

  /** Line i is a syntax error with no section or value line after it among the first n. */
  ghost predicate ErrorLast(lines: seq<Line>, n: nat, i: nat)
    requires i < n <= |lines|
  {
    lines[i].LineError? && forall j :: i < j < n ==> !Stores(lines[j])
  }

  /** Syntax errors are remembered only until the next section or value line. */
  lemma {:induction false} ErrorsLeft(lines: seq<Line>, n: nat)
    requires n <= |lines|
    ensures Fold(EMPTY, lines[..n]).errs != 0 <==> exists i :: 0 <= i < n && ErrorLast(lines, n, i)
  {
    if n > 0 {
      ErrorsLeft(lines, n - 1);
      FoldPrefix(lines, n - 1);
      assert lines[n - 1].LineError? ==> ErrorLast(lines, n, n - 1);
      if Fold(EMPTY, lines[..n - 1]).errs != 0 && !Stores(lines[n - 1]) {
        var i :| 0 <= i < n - 1 && ErrorLast(lines, n - 1, i);
        assert ErrorLast(lines, n, i);
      }
      if i :| 0 <= i < n - 1 && ErrorLast(lines, n, i) {
        assert ErrorLast(lines, n - 1, i);
      }
    }
  }

  /** Load returns NULL exactly when no line overruns a buffer and a physical line overflows the
      line buffer, or a syntax error is followed by no section and no value line. */
  lemma NullIff(file: string)
    ensures var read := LogicalLines(file, "");
            var lines := ParseAll(read.handed);
            LoadFile(file) == Null <==>
            LineOverrun !in lines && (read.tooLong || exists i :: 0 <= i < |lines| && ErrorLast(lines, |lines|, i))
  {
    var lines := ParseAll(LogicalLines(file, "").handed);
    ErrorsLeft(lines, |lines|);
    assert lines[..|lines|] == lines;
  }

  /** Load writes past a buffer exactly when it is handed a bracketed line whose name up to the
      first `]` is longer than the text before the line's first `=`. */
  lemma OverrunIff(file: string)
    ensures LoadFile(file) == Overrun <==>
            exists t :: t in LogicalLines(file, "").handed && Overruns(Trim(t))
  {
    var handed := LogicalLines(file, "").handed;
    var parsed := ParseAll(handed);
    if i :| 0 <= i < |handed| && parsed[i] == LineOverrun {
      assert handed[i] in handed && Overruns(Trim(handed[i]));
    }
    if t :| t in handed && Overruns(Trim(t)) {
      var i :| 0 <= i < |handed| && handed[i] == t;
      assert parsed[i] == LineOverrun;
    }
  }

  ghost function LinesOf(file: string): seq<Line> {
    ParseAll(LogicalLines(file, "").handed)
  }

  lemma LoadedFold(file: string)
    requires LoadFile(file).Loads?
    ensures LoadFile(file).dict == Fold(EMPTY, LinesOf(file)[..|LinesOf(file)|]).dict
  {
    assert LinesOf(file)[..|LinesOf(file)|] == LinesOf(file);
  }

  /** The keys of a file that loads are those some line of it writes. */
  lemma LoadedKeys(file: string, key: string)
    requires LoadFile(file).Loads?
    ensures key in LoadFile(file).dict <==> exists i :: 0 <= i < |LinesOf(file)| && Writes(LinesOf(file), i, key)
  {
    LoadedFold(file);
    KeysWritten(LinesOf(file), |LinesOf(file)|, key);
  }

  /** Each has the value of the last line that does. */
  lemma LoadedValue(file: string, i: nat, key: string)
    requires LoadFile(file).Loads? && i < |LinesOf(file)| && LastWriter(LinesOf(file), |LinesOf(file)|, i, key)
    ensures key in LoadFile(file).dict && LoadFile(file).dict[key] == ValueOf(LinesOf(file)[i])
  {
    LoadedFold(file);
    LastWriterWins(LinesOf(file), |LinesOf(file)|, i, key);
  }

  lemma LowerJoined(a: string, b: string)
    requires IsLower(a) && IsLower(b)
    ensures IsLower(a + ":" + b)
  {
    var s := a + ":" + b;
    assert forall i :: 0 <= i < |a| ==> ToLower(a[i]) == Lower(a)[i] == a[i];
    assert forall i :: 0 <= i < |b| ==> ToLower(b[i]) == Lower(b)[i] == b[i];
    assert Lower(s) == s;
  }

  lemma LineNamesLower(input: string)
    ensures LineOf(input).LineSection? ==> IsLower(LineOf(input).section)
    ensures LineOf(input).LineValue? ==> IsLower(LineOf(input).key)
  {
    LineKind(input);
    LowerTwice(Trim(ScannedName(Trim(input))));
    if LineOf(input).LineValue? {
      AssignmentLine(input);
      LowerTwice(Trim(Span(Trim(input), {'='}, true)));
    }
  }

  lemma {:induction false} SectionLower(lines: seq<Line>, n: nat)
    requires n <= |lines| && forall i :: 0 <= i < |lines| && lines[i].LineSection? ==> IsLower(lines[i].section)
    ensures IsLower(SectionAt(lines, n))
  {
    if n > 0 { SectionLower(lines, n - 1); }
  }

  /** Every section and every key of a loaded dictionary is in lower case, however the file spells
      it. */
  lemma LoadedNamesLower(file: string, key: string)
    requires LoadFile(file).Loads? && key in LoadFile(file).dict
    ensures IsLower(key)
  {
    var handed := LogicalLines(file, "").handed;
    var lines := LinesOf(file);
    LoadedKeys(file, key);
    forall i | 0 <= i < |lines|
      ensures lines[i].LineSection? ==> IsLower(lines[i].section)
      ensures lines[i].LineValue? ==> IsLower(lines[i].key)
    {
      LineNamesLower(handed[i]);
    }
    var i :| 0 <= i < |lines| && Writes(lines, i, key);
    if lines[i].LineValue? {
      SectionLower(lines, i);
      LowerJoined(SectionAt(lines, i), lines[i].key);
    }
  }

  // ----- reading one physical line -----

  lemma {:induction false} FragmentOf(text: string, rest: string, room: nat)
    requires '\n' !in text && |text| < room
    ensures FragmentLength(text + "\n" + rest, room) == |text| + 1
  {
    if text == "" {
      assert (text + "\n" + rest)[0] == '\n';
    } else {
      assert (text + "\n" + rest)[1..] == text[1..] + "\n" + rest;
      FragmentOf(text[1..], rest, room - 1);
    }
  }

  /** A non-empty physical line that fits the buffer either extends the pending text or ends
      the logical line. */
  lemma ReadLine(text: string, rest: string, pending: string)
    requires '\n' !in text && 1 <= |text| <= 1022
    ensures LogicalLines(text + "\n" + rest, pending) ==
            if Continues(text) then LogicalLines(rest, pending + Piece(text))
            else Prepend(pending + Piece(text), LogicalLines(rest, ""))
  {
    var file := text + "\n" + rest;
    FragmentOf(text, rest, ASCIILINESZ - 1);
    assert Fgets(file) == text + "\n";
    assert file[|text| + 1..] == rest;
    DropSpaceEndSkips(text, "\n");
  }

  /** A physical line that stands alone is parsed at once. */
  lemma ReadWhole(st: Load, text: string, rest: string)
    requires '\n' !in text && 1 <= |text| <= ASCIILINESZ - 2 && !Continues(text)
    ensures Outcome(st, LogicalLines(text + "\n" + rest, "")) ==
            if LineOf(Piece(text)) == LineOverrun then Overrun
            else Outcome(Step(st, LineOf(Piece(text))), LogicalLines(rest, ""))
  {
    ReadLine(text, rest, "");
    assert "" + Piece(text) == Piece(text);
    OutcomeHead(st, Piece(text), LogicalLines(rest, ""));
  }

  lemma ReadNothing(st: Load)
    requires st.errs == 0
    ensures Outcome(st, LogicalLines("", "")) == Loads(st.dict)
  {
    assert ParseAll([]) == [];
  }

  lemma ReadBlank(rest: string, pending: string)
    ensures LogicalLines("\n" + rest, pending) == LogicalLines(rest, pending)
  {
    assert "" + "\n" + rest == "\n" + rest;
    FragmentOf("", rest, ASCIILINESZ - 1);
    assert ("\n" + rest)[1..] == rest;
  }

  lemma ReadTooLong(text: string, rest: string, pending: string)
    requires '\n' !in text && |text| > 1022
    ensures LogicalLines(text + "\n" + rest, pending) == Lines([], true)
  {
    var line := Fgets(text + "\n" + rest);
    assert forall i :: 0 <= i < |text| ==> (text + "\n" + rest)[i] == text[i];
  }

  /** What a physical line adds: the text before the blanks at its end, less a final backslash,
      which is what makes it continue. */
  lemma PieceIs(text: string, pad: string)
    requires AllSpace(pad) && (text != "" ==> !IsSpace(text[|text| - 1]))
    ensures Continues(text + pad) <==> text != "" && text[|text| - 1] == '\\'
    ensures Piece(text + pad) == if text != "" && text[|text| - 1] == '\\' then text[..|text| - 1] else text
  {
    DropSpaceEndSkips(text, pad);
  }

  lemma {:induction false} FragmentRest(text: string, room: nat)
    requires '\n' !in text
    ensures FragmentLength(text, room) == if |text| <= room then |text| else room
  {
    if text != "" && room > 0 { FragmentRest(text[1..], room - 1); }
  }

  /** The last physical line, when no newline ends it: it is read as if one did, unless it is a
      single character, which is skipped, or does not fit the buffer. */
  lemma LastLine(text: string, pending: string)
    requires '\n' !in text
    ensures |text| <= 1 ==> LogicalLines(text, pending) == Lines([], false)
    ensures 2 <= |text| <= 1022 ==> LogicalLines(text, pending) == LogicalLines(text + "\n", pending)
    ensures |text| > 1022 ==> LogicalLines(text, pending) == Lines([], true)
  {
    FragmentRest(text, ASCIILINESZ - 1);
    if text != "" {
      var line := Fgets(text);
      assert line[|line| - 1] == text[|line| - 1] != '\n';
      if 2 <= |text| <= ASCIILINESZ - 2 {
        assert text + "\n" + "" == text + "\n";
        assert text[|text|..] == "" && text[..|text|] == text;
        ReadLine(text, "", pending);
      }
    }
  }

  // ----- splitting a line changes nothing -----

  ghost predicate NonBlank(s: string) {
    exists i :: 0 <= i < |s| && !IsSpace(s[i])
  }

  lemma {:induction false} DropSpaceEndKeeps(a: string, b: string)
    requires NonBlank(b)
    ensures DropSpaceEnd(a + b) == a + DropSpaceEnd(b)
    ensures DropSpaceEnd(b) != ""
    decreases |b|
  {
    assert (a + b)[|a + b| - 1] == b[|b| - 1];
    if IsSpace(b[|b| - 1]) {
      var shorter := b[..|b| - 1];
      var i :| 0 <= i < |b| && !IsSpace(b[i]);
      assert shorter[i] == b[i];
      assert (a + b)[..|a + b| - 1] == a + shorter;
      DropSpaceEndKeeps(a, shorter);
    }
  }

  lemma MoveToPending(a: string, b: string, rest: string, pending: string)
    requires '\n' !in a && '\n' !in b && NonBlank(b) && |a + b| <= ASCIILINESZ - 2
    ensures LogicalLines(b + "\n" + rest, pending + a) == LogicalLines((a + b) + "\n" + rest, pending)
  {
    ReadLine(b, rest, pending + a);
    ReadLine(a + b, rest, pending);
    PieceAfter(a, b);
    assert pending + (a + Piece(b)) == pending + a + Piece(b);
  }

  lemma PieceAfter(a: string, b: string)
    requires NonBlank(b)
    ensures Continues(a + b) <==> Continues(b)
    ensures Piece(a + b) == a + Piece(b)
  {
    DropSpaceEndKeeps(a, b);
  }

  function Whole(pieces: seq<string>): string {
    if pieces == [] then "" else pieces[0] + Whole(pieces[1..])
  }

  /** The pieces as physical lines, each but the last ended by a backslash. */
  function SplitText(pieces: seq<string>): string
    requires pieces != []
  {
    if |pieces| == 1 then pieces[0] + "\n" else pieces[0] + "\\" + "\n" + SplitText(pieces[1..])
  }

  /** Only the last piece has to hold more than blanks. */
  lemma {:induction false} SplitLine(pieces: seq<string>, rest: string, pending: string)
    requires pieces != [] && NonBlank(pieces[|pieces| - 1]) && forall p :: p in pieces ==> '\n' !in p
    requires |Whole(pieces)| <= ASCIILINESZ - 2
    ensures '\n' !in Whole(pieces) && NonBlank(Whole(pieces))
    ensures LogicalLines(SplitText(pieces) + rest, pending) == LogicalLines(Whole(pieces) + "\n" + rest, pending)
    decreases |pieces|
  {
    var a, tail := pieces[0], pieces[1..];
    assert a in pieces;
    if |pieces| == 1 {
      assert Whole(tail) == "" && Whole(pieces) == a + "" == a;
    } else {
      SplitLine(tail, rest, pending + a);
      SplitStep(a, SplitText(tail), Whole(tail), rest, pending);
    }
  }

  lemma SplitStep(a: string, split: string, whole: string, rest: string, pending: string)
    requires '\n' !in a && '\n' !in whole && NonBlank(whole) && |a + whole| <= ASCIILINESZ - 2
    requires LogicalLines(split + rest, pending + a) == LogicalLines(whole + "\n" + rest, pending + a)
    ensures NonBlank(a + whole)
    ensures LogicalLines((a + "\\" + "\n" + split) + rest, pending) == LogicalLines(a + whole + "\n" + rest, pending)
  {
    NonBlankAfter(a, whole);
    SplitFirst(a, split + rest, pending);
    assert (a + "\\" + "\n" + split) + rest == a + "\\" + "\n" + (split + rest);
    MoveToPending(a, whole, rest, pending);
  }

  lemma NonBlankAfter(a: string, b: string)
    requires NonBlank(b)
    ensures NonBlank(a + b)
  {
    var i :| 0 <= i < |b| && !IsSpace(b[i]);
    assert (a + b)[|a| + i] == b[i];
  }

  lemma SplitFirst(a: string, rest: string, pending: string)
    requires '\n' !in a && |a| <= ASCIILINESZ - 3
    ensures LogicalLines(a + "\\" + "\n" + rest, pending) == LogicalLines(rest, pending + a)
  {
    var line := a + "\\";
    ReadLine(line, rest, pending);
    assert DropSpaceEnd(line) == line && line[..|line| - 1] == a;
  }

  ghost predicate CompleteLines(s: string) {
    s == "" || s[|s| - 1] == '\n'
  }

  lemma {:induction false} FragmentWithin(a: string, x: string, room: nat)
    requires CompleteLines(a) && a != ""
    ensures FragmentLength(a + x, room) == FragmentLength(a, room)
  {
    if room > 0 && a[0] != '\n' {
      assert (a + x)[1..] == a[1..] + x;
      FragmentWithin(a[1..], x, room - 1);
    }
  }

  lemma FgetsWithin(a: string, x: string)
    requires CompleteLines(a) && a != ""
    ensures Fgets(a + x) == Fgets(a) && CompleteLines(a[|Fgets(a)|..])
    ensures (a + x)[|Fgets(a)|..] == a[|Fgets(a)|..] + x
  {
    FragmentWithin(a, x, ASCIILINESZ - 1);
  }

  /** Files that read alike still do behind the same complete lines. */
  lemma {:induction false} SamePrefix(a: string, x: string, y: string, pending: string)
    requires CompleteLines(a) && forall p :: LogicalLines(x, p) == LogicalLines(y, p)
    ensures LogicalLines(a + x, pending) == LogicalLines(a + y, pending)
    decreases |a|
  {
    if a == "" {
      assert a + x == x && a + y == y;
    } else {
      FgetsWithin(a, x);
      FgetsWithin(a, y);
      var line := Fgets(a);
      var rest := a[|line|..];
      SamePrefix(rest, x, y, pending);
      SamePrefix(rest, x, y, pending + Piece(line));
      SamePrefix(rest, x, y, "");
    }
  }

  /** A file whose last line has no newline loads as it would with one, when that line has two
      characters or more and fits the buffer. */
  lemma NoFinalNewline(before: string, text: string)
    requires CompleteLines(before) && '\n' !in text && 2 <= |text| <= 1022
    ensures LoadFile(before + text) == LoadFile(before + (text + "\n"))
  {
    forall p
      ensures LogicalLines(text, p) == LogicalLines(text + "\n", p)
    {
      LastLine(text, p);
    }
    SamePrefix(before, text, text + "\n", "");
  }

  /** A single last character without a newline is not looked at. */
  lemma LastCharacterIgnored(before: string, c: char)
    requires CompleteLines(before) && c != '\n'
    ensures LoadFile(before + [c]) == LoadFile(before)
  {
    forall p
      ensures LogicalLines([c], p) == LogicalLines("", p)
    {
      LastLine([c], p);
    }
    SamePrefix(before, [c], "", "");
    assert before + "" == before;
  }

  /** Breaking a logical line anywhere in a file into pieces with backslash-newline, the last of
      them not blank, leaves the loaded dictionary unchanged. */
  lemma SplittingIsInvisible(before: string, pieces: seq<string>, after: string)
    requires CompleteLines(before)
    requires pieces != [] && NonBlank(pieces[|pieces| - 1]) && forall p :: p in pieces ==> '\n' !in p
    requires |Whole(pieces)| <= ASCIILINESZ - 2
    ensures LoadFile(before + (SplitText(pieces) + after)) == LoadFile(before + (Whole(pieces) + "\n" + after))
  {
    forall p
      ensures LogicalLines(SplitText(pieces) + after, p) == LogicalLines(Whole(pieces) + "\n" + after, p)
    {
      SplitLine(pieces, after, p);
    }
    SamePrefix(before, SplitText(pieces) + after, Whole(pieces) + "\n" + after, "");
  }

  // ----- single files -----

  lemma PlainLine(text: string)
    requires text != "" && Trimmed(text) && text[|text| - 1] != '\\'
    ensures !Continues(text) && Piece(text) == text
  {
    assert DropSpaceEnd(text) == text;
  }

  lemma HeaderLine(name: string)
    requires name != "" && Trimmed(name) && IsLower(name) && ']' !in name && '\n' !in name
    ensures var text := "[" + name + "]";
            && '\n' !in text && !Continues(text) && Piece(text) == text
            && LineOf(text) == if EqualsOnlyLast(name) then LineSection(name) else LineOverrun
  {
    PlainLine("[" + name + "]");
    SectionLine(name);
  }

  /** A file that begins with the header of a name with an early `=` overruns the key buffer. */
  lemma HeaderOverruns(name: string, rest: string)
    requires name != "" && Trimmed(name) && IsLower(name) && ']' !in name && '\n' !in name
    requires |name| + 2 <= ASCIILINESZ - 2 && !EqualsOnlyLast(name)
    ensures LoadFile("[" + name + "]" + "\n" + rest) == Overrun
  {
    HeaderLine(name);
    ReadWhole(EMPTY, "[" + name + "]", rest);
  }

  /** A syntax error on the first line is forgotten at the section line after it. */
  lemma SyntaxErrorForgotten()
    ensures LineOf("x") == LineError
    ensures LoadFile("x\n[s]\n") == Loads(map["s" := None])
  {
    TrimmedUnchanged("x");
    ErrorLine("x");
    PlainLine("x");
    HeaderLine("s");
    assert "x\n[s]\n" == "x" + "\n" + ("[" + "s" + "]" + "\n" + "");
    ReadWhole(EMPTY, "x", "[" + "s" + "]" + "\n" + "");
    ReadWhole(Step(EMPTY, LineError), "[" + "s" + "]", "");
    ReadNothing(Load("s", map["s" := None], 0));
  }

  lemma SimpleAssignment(key: string, value: string)
    requires key != "" && Trimmed(key) && IsLower(key) && '=' !in key && key[0] !in {'#', ';', '['}
    requires PlainValue(value) && value != ""
    ensures LineOf(key + "=" + value) == LineValue(key, value)
  {
    var line := key + "=" + value;
    TrimmedUnchanged(line);
    assert line == key + ("=" + value);
    SpanStops(key, "=" + value, {'='}, true);
    AssignmentLine(line);
    TrimmedUnchanged(key);
    assert line[|key| + 1..] == value;
    PlainValueKept(value);
  }

  lemma StepValue(m: map<string, Option<string>>, key: string, value: string)
    ensures Step(Load("", m, 0), LineValue(key, value)) == Load("", m[":" + key := Some(value)], 0)
  {
    assert "" + ":" + key == ":" + key;
  }

  lemma TwoLines(a: string, b: string, k1: string, v1: string, k2: string, v2: string)
    requires '\n' !in a && '\n' !in b && 1 <= |a| <= ASCIILINESZ - 2 && 1 <= |b| <= ASCIILINESZ - 2
    requires !Continues(a) && !Continues(b)
    requires LineOf(Piece(a)) == LineValue(k1, v1) && LineOf(Piece(b)) == LineValue(k2, v2)
    ensures LoadFile(a + "\n" + (b + "\n" + "")) == Loads(map[":" + k1 := Some(v1)][":" + k2 := Some(v2)])
  {
    ReadWhole(EMPTY, a, b + "\n" + "");
    StepValue(map[], k1, v1);
    ReadWhole(Load("", map[":" + k1 := Some(v1)], 0), b, "");
    StepValue(map[":" + k1 := Some(v1)], k2, v2);
    ReadNothing(Load("", map[":" + k1 := Some(v1)][":" + k2 := Some(v2)], 0));
  }

  /** An empty last piece does not end the logical line: its line is skipped, and what follows is
      read as its continuation. */
  lemma EmptyPieceJoins(a: string, after: string, pending: string)
    requires '\n' !in a && |a| <= ASCIILINESZ - 3
    ensures LogicalLines(a + "\\" + "\n" + ("\n" + after), pending) == LogicalLines(after, pending + a)
  {
    SplitFirst(a, "\n" + after, pending);
    ReadBlank(after, pending + a);
  }

  lemma JoinedLines(a: string, b: string, key: string, value: string)
    requires '\n' !in a && '\n' !in b && |a| <= ASCIILINESZ - 3 && 1 <= |b| <= ASCIILINESZ - 2
    requires !Continues(b) && LineOf(a + Piece(b)) == LineValue(key, value)
    ensures LoadFile(a + "\\" + "\n" + ("\n" + (b + "\n" + ""))) == Loads(map[":" + key := Some(value)])
  {
    EmptyPieceJoins(a, b + "\n" + "", "");
    assert "" + a == a;
    ReadLine(b, "", a);
    OutcomeHead(EMPTY, a + Piece(b), LogicalLines("", ""));
    StepValue(map[], key, value);
    ReadNothing(Load("", map[":" + key := Some(value)], 0));
  }

  lemma AfterEmptyPiece()
    ensures LoadFile("a=b" + "\\" + "\n" + ("\n" + ("c=d" + "\n" + ""))) == Loads(map[":" + "a" := Some("bc=d")])
  {
    PlainLine("c=d");
    assert "a=b" + "c=d" == "a" + "=" + "bc=d";
    SimpleAssignment("a", "bc=d");
    JoinedLines("a=b", "c=d", "a", "bc=d");
  }

  lemma WithoutEmptyPiece()
    ensures LoadFile("a=b" + "\n" + ("c=d" + "\n" + "")) ==
            Loads(map[":" + "a" := Some("b")][":" + "c" := Some("d")])
  {
    PlainLine("a=b");
    PlainLine("c=d");
    assert "a=b" == "a" + "=" + "b" && "c=d" == "c" + "=" + "d";
    SimpleAssignment("a", "b");
    SimpleAssignment("c", "d");
    TwoLines("a=b", "c=d", "a", "b", "c", "d");
  }

  /** So an empty last piece is not invisible. */
  lemma EmptyPieceMatters()
    ensures var after := "c=d" + "\n" + "";
            && LoadFile(SplitText(["a=b", ""]) + after) == Loads(map[":" + "a" := Some("bc=d")])
            && LoadFile(Whole(["a=b", ""]) + "\n" + after) == Loads(map[":" + "a" := Some("b")][":" + "c" := Some("d")])
  {
    var after := "c=d" + "\n" + "";
    EmptyLastPiece("a=b", after);
    AfterEmptyPiece();
    WithoutEmptyPiece();
  }

  lemma EmptyLastPiece(a: string, after: string)
    ensures SplitText([a, ""]) + after == a + "\\" + "\n" + ("\n" + after)
    ensures Whole([a, ""]) == a
  {
    assert [a, ""][1..] == [""] && [""][1..] == [];
    assert Whole([""]) == "";
  }

  // ----- iniparser_load -----

  /** Strip the newline and trailing blanks, as the loop on `len` does. */
  method StripEnd(line: string) returns (r: string)
    ensures r == DropSpaceEnd(line)
    ensures |r| <= |line| && r == line[..|r|]
  {
    var len := |line| - 1;
    assert line[..|line|] == line;
    while len >= 0 && (line[len] == '\n' || IsSpace(line[len]))
      invariant -1 <= len < |line|
      invariant DropSpaceEnd(line) == DropSpaceEnd(line[..len + 1])
    {
      assert line[..len + 1][..len] == line[..len];
      len := len - 1;
    }
    r := line[..len + 1];
  }

  /** One parsed line into the dictionary: the switch of the load loop. */
  method StoreLine(dict: Dict, section: string, errs: int, line: Line) returns (section': string, errs': int)
    requires dict.Valid() && errs >= 0 && line != LineOverrun
    modifies dict.Repr
    ensures dict.Valid() && fresh(dict.Repr - old(dict.Repr)) && errs' >= 0
    ensures Load(section', Contents(dict.slots), errs') == Step(Load(section, old(Contents(dict.slots)), errs), line)
  {
    section', errs' := section, errs;
    match line {
      case LineSection(currentSection) =>
        SetRefinesMap(dict.slots, currentSection, None);
        errs' := dict.Set(Some(currentSection), None);
        section' := currentSection;
      case LineValue(key, val) =>
        var seckey := section + ":" + key;
        SetRefinesMap(dict.slots, seckey, Some(val));
        errs' := dict.Set(Some(seckey), Some(val));
      case LineError =>
        errs' := errs + 1;
      case _ =>
    }
  }

  datatype Read = Overflow | More | Ready

  /** The reading half of one pass of the load loop: fgets, the overflow check, the strip, and
      joining the piece to the continuation text. */
  method ReadPhysical(input: string, fullLine: string) returns (rest: string, fullLine': string, read: Read)
    requires input != "" && NUL !in input && NUL !in fullLine
    ensures |rest| < |input| && NUL !in rest && NUL !in fullLine'
    ensures LogicalLines(input, fullLine) ==
            match read
            case Overflow => Lines([], true)
            case More => LogicalLines(rest, fullLine')
            case Ready => Prepend(fullLine', LogicalLines(rest, ""))
  {
    var line := Fgets(input);
    rest, fullLine' := input[|line|..], fullLine;
    var len := |line| - 1;
    if len == 0 {
      return rest, fullLine, More;
    }
    if line[len] != '\n' && |line| == ASCIILINESZ - 1 {
      return rest, fullLine, Overflow;
    }
    line := StripEnd(line);
    if line != "" && line[|line| - 1] == '\\' {
      return rest, fullLine + line[..|line| - 1], More;
    }
    return rest, fullLine + line, Ready;
  }

  /** NULL for a file that cannot be opened; otherwise what LoadFile says, up to the write past a
      buffer, after which nothing is said. */
  method IniparserLoad(file: Option<string>) returns (dict: Dict?, overrun: bool)
    requires file.Some? ==> NUL !in file.value
    ensures overrun <==> file.Some? && LoadFile(file.value) == Overrun
    ensures file.None? || LoadFile(file.value) == Null ==> dict == null
    ensures file.Some? && LoadFile(file.value).Loads? ==>
              dict != null && fresh(dict.Repr) && dict.Valid() && Contents(dict.slots) == LoadFile(file.value).dict
  {
    if file.None? {
      return null, false;
    }
    var d := new Dict(0);
    assert Contents(d.slots) == map[];
    var input, section, fullLine, errs := file.value, "", "", 0;
    while input != ""
      invariant d.Valid() && fresh(d.Repr)
      invariant errs >= 0 && NUL !in input && NUL !in fullLine
      invariant LoadFile(file.value) == Outcome(Load(section, Contents(d.slots), errs), LogicalLines(input, fullLine))
      decreases |input|
    {
      var read;
      input, fullLine, read := ReadPhysical(input, fullLine);
      if read == Overflow {
        return null, false;
      }
      if read == Ready {
        OutcomeHead(Load(section, Contents(d.slots), errs), fullLine, LogicalLines(input, ""));
        var sta := ParseLine(fullLine);
        if sta == LineOverrun {
          return null, true;
        }
        section, errs := StoreLine(d, section, errs, sta);
        fullLine := "";
      }
    }
    dict, overrun := if errs != 0 then null else d, false;
  }
}
