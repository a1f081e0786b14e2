/** Exactly which dictionaries survive being printed by iniparser_dump_ini and loaded back. */
module IniRoundTrip {
  import opened Common
  import opened CText
  import opened Dictionary
  import opened IniLine
  import opened IniLoad
  import opened IniDump
  import opened IniReload

  // ----- loaded values hold no newline -----

  ghost predicate OneLine(line: Line) {
    line.LineValue? ==> '\n' !in line.value
  }

  lemma PieceOneLine(line: string)
    requires line != "" && forall i :: 0 <= i < |line| - 1 ==> line[i] != '\n'
    ensures '\n' !in Piece(line)
  {
    var body := DropSpaceEnd(line);
    var back := DropSpaceEndSplits(line);
    assert forall i :: 0 <= i < |body| ==> body[i] == line[i];
    assert body != "" ==> body[|body| - 1] != '\n';
  }

  lemma {:induction false} LogicalOneLine(file: string, pending: string)
    requires '\n' !in pending
    ensures forall t :: t in LogicalLines(file, pending).handed ==> '\n' !in t
    decreases |file|
  {
    if file != "" {
      var line := Fgets(file);
      var rest := file[|line|..];
      PieceOneLine(line);
      if |line| == 1 {
        LogicalOneLine(rest, pending);
      } else if Continues(line) {
        LogicalOneLine(rest, pending + Piece(line));
      } else {
        LogicalOneLine(rest, "");
      }
    }
  }

  lemma ValueWithin(input: string)
    requires LineOf(input).LineValue?
    ensures forall c :: c in LineOf(input).value ==> c in input
  {
    var line := Trim(input);
    var front, back := TrimSplits(input);
    ErrorLine(input);
    AssignmentLine(input);
    var k := Span(line, {'='}, true);
    ValueTextWithin(line[|k| + 1..]);
  }

  ghost predicate OneLineValues(m: map<string, Option<string>>) {
    forall k :: k in m && m[k].Some? ==> '\n' !in m[k].value
  }

  lemma {:induction false} FoldOneLine(lines: seq<Line>)
    requires forall i :: 0 <= i < |lines| ==> OneLine(lines[i])
    ensures OneLineValues(Fold(EMPTY, lines).dict)
    decreases |lines|
  {
    if lines != [] {
      FoldOneLine(lines[..|lines| - 1]);
    }
  }

  /** No value of a loaded dictionary holds a newline. */
  lemma LoadedOneLine(file: string)
    requires LoadFile(file).Loads?
    ensures OneLineValues(LoadFile(file).dict)
  {
    var logical := LogicalLines(file, "").handed;
    LogicalOneLine(file, "");
    forall i | 0 <= i < |logical|
      ensures OneLine(ParseAll(logical)[i])
    {
      assert logical[i] in logical;
      if LineOf(logical[i]).LineValue? { ValueWithin(logical[i]); }
    }
    FoldOneLine(ParseAll(logical));
  }

  // ----- an overlong line spoils the file -----

  ghost predicate Dead(file: string) {
    forall p :: LogicalLines(file, p).tooLong
  }

  lemma {:induction false} DeadBehind(a: string, x: string, pending: string)
    requires CompleteLines(a) && Dead(x)
    ensures LogicalLines(a + x, pending).tooLong
    decreases |a|
  {
    if a == "" {
      assert a + x == x;
    } else {
      FragmentWithin(a, x, ASCIILINESZ - 1);
      var line := Fgets(a);
      assert Fgets(a + x) == line;
      assert (a + x)[|line|..] == a[|line|..] + x;
      DeadBehind(a[|line|..], x, pending);
      DeadBehind(a[|line|..], x, pending + Piece(line));
      DeadBehind(a[|line|..], x, "");
    }
  }

  lemma StillDead(a: string, x: string)
    requires CompleteLines(a) && Dead(x)
    ensures Dead(a + x)
  {
    forall p ensures LogicalLines(a + x, p).tooLong { DeadBehind(a, x, p); }
  }

  ghost predicate LongText(text: string) {
    '\n' !in text && |text| > ASCIILINESZ - 2
  }

  lemma LongIsDead(text: string, rest: string)
    requires LongText(text)
    ensures Dead(text + "\n" + rest)
  {
    forall p ensures LogicalLines(text + "\n" + rest, p).tooLong { ReadTooLong(text, rest, p); }
  }

  lemma {:induction false} BodyComplete(s: seq<Slot>, keym: string)
    ensures CompleteLines(SectionBody(s, keym))
  {
    if s != [] { BodyComplete(s[..|s| - 1], keym); }
  }

  lemma SectionComplete(s: seq<Slot>, name: string)
    ensures CompleteLines(SectionText(s, name))
  {
  }

  lemma {:induction false} SectionsComplete(s: seq<Slot>, names: seq<string>)
    ensures CompleteLines(SectionTexts(s, names))
  {
    if names != [] {
      SectionsComplete(s, names[..|names| - 1]);
      SectionComplete(s, names[|names| - 1]);
    }
  }

  lemma {:induction false} BodyDead(s: seq<Slot>, keym: string, i: nat, rest: string)
    requires i < |s| && HasPrefix(s[i], keym) && LongText(EntryText(s[i].key[|keym|..], s[i].val))
    ensures Dead(SectionBody(s, keym) + rest)
    decreases |s|
  {
    var n := |s| - 1;
    var tail := PrintedEntry(s[n], keym);
    assert s[..n + 1] == s;
    BodySplit(s, n, keym, rest);
    if i == n {
      LongIsDead(EntryText(s[n].key[|keym|..], s[n].val), rest);
      BodyComplete(s[..n], keym);
      StillDead(SectionBody(s[..n], keym), tail + rest);
    } else {
      BodyDead(s[..n], keym, i, tail + rest);
    }
  }

  ghost predicate LongEntry(x: Slot, keym: string) {
    HasPrefix(x, keym) && LongText(EntryText(x.key[|keym|..], x.val))
  }

  /** Section `name` prints a header or an entry that overflows the line buffer. */
  ghost predicate LongSection(s: seq<Slot>, name: string) {
    LongText("[" + name + "]") || exists i :: 0 <= i < |s| && LongEntry(s[i], name + ":")
  }

  lemma SectionDead(s: seq<Slot>, name: string, rest: string)
    requires FindEntry(s, name) && LongSection(s, name)
    ensures Dead(SectionText(s, name) + rest)
  {
    var header := "[" + name + "]";
    var body := SectionBody(s, name + ":");
    SectionTextShape(s, name, rest);
    if LongText(header) {
      LongIsDead(header, body + ("\n" + rest));
    } else {
      var i :| 0 <= i < |s| && LongEntry(s[i], name + ":");
      BodyDead(s, name + ":", i, "\n" + rest);
      StillDead(header + "\n", body + ("\n" + rest));
    }
    StillDead("\n", header + "\n" + (body + ("\n" + rest)));
  }

  lemma {:induction false} SectionsDead(s: seq<Slot>, names: seq<string>, name: string, rest: string)
    requires name in names && FindEntry(s, name) && LongSection(s, name)
    ensures Dead(SectionTexts(s, names) + rest)
    decreases |names|
  {
    var n := |names| - 1;
    SectionTextsSplit(s, names, n, rest);
    if name == names[n] {
      SectionDead(s, name, rest);
      SectionsComplete(s, names[..n]);
      StillDead(SectionTexts(s, names[..n]), SectionText(s, names[n]) + rest);
    } else {
      SectionsDead(s, names[..n], name, SectionText(s, names[n]) + rest);
    }
  }

  // ----- a trailing backslash swallows an entry -----

  /** The logical lines of a file whose physical lines all fit. */
  function LineCount(file: string): nat
    decreases |file|
  {
    if file == "" then 0
    else
      var line := Fgets(file);
      (if |line| == 1 || Continues(line) then 0 else 1) + LineCount(file[|line|..])
  }

  lemma {:induction false} CountsLines(file: string, pending: string)
    requires !LogicalLines(file, pending).tooLong
    ensures |LogicalLines(file, pending).handed| == LineCount(file)
    decreases |file|
  {
    if file != "" {
      var line := Fgets(file);
      var rest := file[|line|..];
      if |line| == 1 {
        CountsLines(rest, pending);
      } else if Continues(line) {
        CountsLines(rest, pending + Piece(line));
      } else {
        CountsLines(rest, "");
      }
    }
  }

  lemma CountLine(text: string, rest: string)
    requires '\n' !in text && |text| <= ASCIILINESZ - 2
    ensures LineCount(text + "\n" + rest) == LineCount(rest) + if text == "" || Continues(text) then 0 else 1
  {
    var file := text + "\n" + rest;
    FragmentOf(text, rest, ASCIILINESZ - 1);
    assert Fgets(file) == text + "\n";
    assert file[|text| + 1..] == rest;
    DropSpaceEndSkips(text, "\n");
  }

  lemma CountBlank(rest: string)
    ensures LineCount("\n" + rest) == LineCount(rest)
  {
    assert "" + "\n" + rest == "\n" + rest;
    CountLine("", rest);
  }

  /** Slot x prints as a line under `keym` that stands on its own. */
  ghost predicate Solid(x: Slot, keym: string) {
    HasPrefix(x, keym) && !EndsInBackslash(TextOf(x.val))
  }

  ghost function SolidKeys(s: seq<Slot>, keym: string): set<string> {
    set i | 0 <= i < |s| && Solid(s[i], keym) :: s[i].key
  }

  lemma SolidKeysStep(s: seq<Slot>, n: nat, keym: string)
    requires n < |s|
    ensures SolidKeys(s[..n + 1], keym) == SolidKeys(s[..n], keym) + if Solid(s[n], keym) then {s[n].key} else {}
    ensures SolidKeys(s[..n], keym) <= PrefixKeys(s[..n], keym)
  {
    assert forall i :: 0 <= i < n ==> s[..n + 1][i] == s[..n][i];
    assert s[..n + 1][n] == s[n];
  }

  ghost predicate ShortBody(s: seq<Slot>, keym: string) {
    forall i :: 0 <= i < |s| && HasPrefix(s[i], keym) ==> ShortEntry(s[i], keym)
  }

  ghost predicate ShortEntry(x: Slot, keym: string)
    requires HasPrefix(x, keym)
  {
    var name := x.key[|keym|..];
    GoodName(name) && '\n' !in TextOf(x.val) && |EntryText(name, x.val)| <= ASCIILINESZ - 2
  }

  lemma CountEntry(s: seq<Slot>, n: nat, keym: string, rest: string)
    requires n < |s| && ShortBody(s, keym)
    ensures LineCount(PrintedEntry(s[n], keym) + rest) == LineCount(rest) + if Solid(s[n], keym) then 1 else 0
  {
    var x := s[n];
    if HasPrefix(x, keym) {
      EntryBody(x.key[|keym|..], x.val);
      CountLine(EntryText(x.key[|keym|..], x.val), rest);
    } else {
      assert "" + rest == rest;
    }
  }

  /** The logical lines of a section body are the keys that print a solid line. */
  lemma {:induction false} CountBody(s: seq<Slot>, n: nat, keym: string, rest: string)
    requires n <= |s| && Distinct(s) && ShortBody(s, keym)
    ensures LineCount(SectionBody(s[..n], keym) + rest) == LineCount(rest) + |SolidKeys(s[..n], keym)|
    decreases n
  {
    if n == 0 {
      assert "" + rest == rest;
      assert SolidKeys(s[..n], keym) == {};
    } else {
      var tail := PrintedEntry(s[n - 1], keym) + rest;
      CountBody(s, n - 1, keym, tail);
      CountBodyStep(s, n - 1, keym, rest);
    }
  }

  lemma CountBodyStep(s: seq<Slot>, n: nat, keym: string, rest: string)
    requires n < |s| && Distinct(s) && ShortBody(s, keym)
    ensures SectionBody(s[..n + 1], keym) + rest == SectionBody(s[..n], keym) + (PrintedEntry(s[n], keym) + rest)
    ensures LineCount(PrintedEntry(s[n], keym) + rest) + |SolidKeys(s[..n], keym)| ==
            LineCount(rest) + |SolidKeys(s[..n + 1], keym)|
  {
    BodySplit(s, n, keym, rest);
    CountEntry(s, n, keym, rest);
    SolidKeysSize(s, n, keym);
  }

  lemma SolidKeysSize(s: seq<Slot>, n: nat, keym: string)
    requires n < |s| && Distinct(s)
    ensures |SolidKeys(s[..n + 1], keym)| == |SolidKeys(s[..n], keym)| + if Solid(s[n], keym) then 1 else 0
  {
    SolidKeysStep(s, n, keym);
    if s[n].Used? { PrefixKeysFresh(s, n, keym); }
  }

  lemma PrefixKeysFresh(s: seq<Slot>, n: nat, keym: string)
    requires n < |s| && Distinct(s) && s[n].Used?
    ensures s[n].key !in PrefixKeys(s[..n], keym)
  {
  }

  ghost predicate ShortSection(s: seq<Slot>, name: string) {
    GoodSection(name) && |name| + 2 <= ASCIILINESZ - 2 && FindEntry(s, name) && ShortBody(s, name + ":")
  }

  ghost function SolidBlock(s: seq<Slot>, name: string): set<string> {
    {name} + SolidKeys(s, name + ":")
  }

  lemma CountHeader(name: string, rest: string)
    requires GoodSection(name) && |name| + 2 <= ASCIILINESZ - 2
    ensures LineCount("\n" + ("[" + name + "]" + "\n" + rest)) == 1 + LineCount(rest)
  {
    HeaderLine(name);
    CountLine("[" + name + "]", rest);
    CountBlank("[" + name + "]" + "\n" + rest);
  }

  lemma CountSection(s: seq<Slot>, name: string, rest: string)
    requires Distinct(s) && ShortSection(s, name)
    ensures LineCount(SectionText(s, name) + rest) == LineCount(rest) + |SolidBlock(s, name)|
  {
    SectionTextShape(s, name, rest);
    CountHeader(name, SectionBody(s, name + ":") + ("\n" + rest));
    assert s[..|s|] == s;
    CountBody(s, |s|, name + ":", "\n" + rest);
    CountBlank(rest);
    ColonKeys(s, name);
  }

  lemma ColonKeys(s: seq<Slot>, name: string)
    requires ':' !in name
    ensures name !in SolidKeys(s, name + ":")
  {
    assert (name + ":")[|name|] == ':';
  }

  ghost function SolidBlocks(s: seq<Slot>, names: seq<string>): set<string> {
    if names == [] then {} else SolidBlocks(s, names[..|names| - 1]) + SolidBlock(s, names[|names| - 1])
  }

  /** Blocks of different sections share no key. */
  lemma {:induction false} BlockApart(s: seq<Slot>, names: seq<string>, name: string)
    requires ':' !in name && name !in names && forall other :: other in names ==> ':' !in other
    ensures name !in BlockKeys(s, names) && PrefixKeys(s, name + ":") !! BlockKeys(s, names)
    decreases |names|
  {
    assert (name + ":")[|name|] == ':';
    if names != [] {
      var n := |names| - 1;
      var other := names[n];
      assert other in names;
      BlockApart(s, names[..n], name);
      assert (other + ":")[|other|] == ':';
      forall k | k in PrefixKeys(s, name + ":")
        ensures k !in PrefixKeys(s, other + ":") && k != other
      {
        PrefixOwns(k, name);
        if k in PrefixKeys(s, other + ":") { PrefixOwns(k, other); }
      }
      forall k | k in PrefixKeys(s, other + ":")
        ensures k != name
      {
        assert k[|other|] == ':';
      }
    }
  }

  lemma {:induction false} CountSections(s: seq<Slot>, names: seq<string>, rest: string)
    requires Distinct(s) && NoDuplicates(names) && forall name :: name in names ==> ShortSection(s, name)
    ensures LineCount(SectionTexts(s, names) + rest) == LineCount(rest) + |SolidBlocks(s, names)|
    ensures SolidBlocks(s, names) <= BlockKeys(s, names)
    decreases |names|
  {
    if names == [] {
      assert "" + rest == rest;
    } else {
      var n := |names| - 1;
      var name := names[n];
      assert name in names;
      SectionTextsSplit(s, names, n, rest);
      CountSections(s, names[..n], SectionText(s, name) + rest);
      CountSection(s, name, rest);
      BlockApart(s, names[..n], name);
      SolidSplit(s, names, n);
    }
  }

  lemma SolidSplit(s: seq<Slot>, names: seq<string>, n: nat)
    requires |names| == n + 1 && SolidBlocks(s, names[..n]) <= BlockKeys(s, names[..n])
    requires names[n] !in BlockKeys(s, names[..n]) && PrefixKeys(s, names[n] + ":") !! BlockKeys(s, names[..n])
    ensures |SolidBlocks(s, names)| == |SolidBlocks(s, names[..n])| + |SolidBlock(s, names[n])|
    ensures SolidBlocks(s, names) <= BlockKeys(s, names)
  {
    assert SolidBlock(s, names[n]) <= {names[n]} + PrefixKeys(s, names[n] + ":");
  }

  lemma InsertSize(m: map<string, Option<string>>, k: string, v: Option<string>)
    ensures |m[k := v]| <= |m| + 1
  {
    assert m[k := v].Keys == m.Keys + {k};
  }

  lemma {:induction false} FoldSize(lines: seq<Line>)
    ensures |Fold(EMPTY, lines).dict| <= |lines|
    decreases |lines|
  {
    if lines != [] {
      var st := Fold(EMPTY, lines[..|lines| - 1]);
      var line := lines[|lines| - 1];
      FoldSize(lines[..|lines| - 1]);
      if line.LineSection? {
        InsertSize(st.dict, line.section, None);
      } else if line.LineValue? {
        InsertSize(st.dict, st.section + ":" + line.key, Some(line.value));
      }
    }
  }

  /** An entry whose value ends in a backslash is in no block of solid lines. */
  lemma {:induction false} SolidWithin(s: seq<Slot>, names: seq<string>, i: nat)
    requires forall name :: name in names ==> name in Keys(s) && ':' !in name
    requires Distinct(s) && i < |s| && s[i].Used? && ':' in s[i].key && EndsInBackslash(TextOf(s[i].val))
    ensures SolidBlocks(s, names) <= Keys(s) && s[i].key !in SolidBlocks(s, names)
    decreases |names|
  {
    if names != [] {
      var n := |names| - 1;
      assert names[n] in names;
      SolidWithin(s, names[..n], i);
      assert SolidKeys(s, names[n] + ":") <= Keys(s);
      assert s[i].key !in SolidKeys(s, names[n] + ":");
    }
  }

  // ----- the theorem -----

  /** A section prints and loads back if it holds no value and its header fits the line
      buffer; an entry, if its value is plain, stays on its line, and the line fits. */
  ghost predicate Survives(s: seq<Slot>, i: nat)
    requires i < |s| && s[i].Used?
  {
    if IsSection(s[i]) then s[i].val.None? && |s[i].key| + 2 <= ASCIILINESZ - 2
    else
      && s[i].val.Some? && PlainValue(s[i].val.value)
      && '\n' !in s[i].val.value && !EndsInBackslash(s[i].val.value)
      && |EntryText(NamePart(s[i].key), s[i].val)| <= ASCIILINESZ - 2
  }

  ghost predicate AllSurvive(s: seq<Slot>) {
    forall i :: 0 <= i < |s| && s[i].Used? ==> Survives(s, i)
  }

  ghost predicate PlainAt(s: seq<Slot>, i: nat)
    requires i < |s| && s[i].Used?
  {
    if IsSection(s[i]) then s[i].val.None? else s[i].val.Some? && PlainValue(s[i].val.value)
  }

  lemma SameAt(s: seq<Slot>, i: nat)
    requires Distinct(s) && i < |s| && s[i].Used?
    ensures s[i].key in Reloaded(s) && s[i].key in Contents(s)
    ensures Reloaded(s)[s[i].key] == Contents(s)[s[i].key] <==> PlainAt(s, i)
  {
    ContentsAt(s, i);
    RereadIff(TextOf(s[i].val));
  }

  lemma ReloadedIsContents(s: seq<Slot>)
    requires Distinct(s)
    ensures Reloaded(s) == Contents(s) <==> forall i :: 0 <= i < |s| && s[i].Used? ==> PlainAt(s, i)
  {
    forall i | 0 <= i < |s| && s[i].Used?
      ensures Reloaded(s) == Contents(s) ==> PlainAt(s, i)
    {
      SameAt(s, i);
    }
    if forall i :: 0 <= i < |s| && s[i].Used? ==> PlainAt(s, i) {
      forall k | k in Keys(s)
        ensures Reloaded(s)[k] == Contents(s)[k]
      {
        var i :| 0 <= i < |s| && s[i].Used? && s[i].key == k;
        SameAt(s, i);
      }
      assert Reloaded(s).Keys == Keys(s) == Contents(s).Keys;
    }
  }

  lemma SurviveReadable(s: seq<Slot>)
    requires WellNamed(s) && AllSurvive(s)
    ensures Readable(s)
  {
    forall i | 0 <= i < |s| && s[i].Used?
      ensures ReadableAt(s, i)
    {
      assert Survives(s, i) && WellNamedAt(s, i);
    }
  }

  /** The values of a dictionary that survives are single lines. */
  lemma SurvivorsOneLine(s: seq<Slot>)
    requires Distinct(s) && LoadFile(IniText(s)) == Loads(Contents(s))
    ensures forall i :: 0 <= i < |s| && s[i].Used? ==> '\n' !in TextOf(s[i].val)
  {
    LoadedOneLine(IniText(s));
    forall i | 0 <= i < |s| && s[i].Used?
      ensures '\n' !in TextOf(s[i].val)
    {
      ContentsAt(s, i);
    }
  }

  /** A line that overflows the buffer makes the printed text unloadable. */
  lemma LongLoadsNull(s: seq<Slot>, name: string)
    requires WellNamed(s) && name in SecNames(s) && LongSection(s, name)
    ensures !LoadFile(IniText(s)).Loads?
  {
    NameFound(s, name);
    SectionsDead(s, SecNames(s), name, "\n");
  }

  lemma NotLongShort(s: seq<Slot>, i: nat, name: string)
    requires WellNamed(s) && i < |s| && HasPrefix(s[i], name + ":") && ':' !in name
    requires '\n' !in TextOf(s[i].val) && !LongEntry(s[i], name + ":")
    ensures ShortEntry(s[i], name + ":")
  {
    PrefixOwns(s[i].key, name);
    assert WellNamedAt(s, i);
  }

  /** The lines of a dictionary that survives fit the buffer. */
  lemma SurvivorsShort(s: seq<Slot>, name: string)
    requires WellNamed(s) && LoadFile(IniText(s)) == Loads(Contents(s)) && name in SecNames(s)
    ensures ShortSection(s, name)
  {
    NameFound(s, name);
    SurvivorsOneLine(s);
    if LongSection(s, name) { LongLoadsNull(s, name); }
    assert '\n' !in "[" + name + "]";
    forall i | 0 <= i < |s| && HasPrefix(s[i], name + ":")
      ensures ShortEntry(s[i], name + ":")
    {
      NotLongShort(s, i, name);
    }
  }

  /** The loaded dictionary has at most as many keys as there are solid printed lines. */
  lemma LoadedCount(s: seq<Slot>)
    requires WellNamed(s) && SecNames(s) != [] && LoadFile(IniText(s)).Loads?
    requires forall name :: name in SecNames(s) ==> ShortSection(s, name)
    ensures |LoadFile(IniText(s)).dict| <= |SolidBlocks(s, SecNames(s))|
  {
    SecNamesInOrder(s);
    assert "\n" + "" == "\n";
    CountBlank("");
    CountSections(s, SecNames(s), "\n");
    CountsLines(IniText(s), "");
    FoldSize(ParseAll(LogicalLines(IniText(s), "").handed));
  }

  /** A value that ends in a backslash swallows the line after it: fewer solid lines are
      printed than there are entries. */
  lemma BackslashLoses(s: seq<Slot>, i: nat)
    requires WellNamed(s) && i < |s| && s[i].Used? && ':' in s[i].key && EndsInBackslash(TextOf(s[i].val))
    ensures |SolidBlocks(s, SecNames(s))| < |Contents(s)|
  {
    forall name | name in SecNames(s)
      ensures name in Keys(s) && ':' !in name
    {
      NameFound(s, name);
    }
    SolidWithin(s, SecNames(s), i);
    ContentsSize(s);
    KeysSize(s);
    Fewer(SolidBlocks(s, SecNames(s)), Keys(s), s[i].key);
  }

  lemma Fewer(a: set<string>, b: set<string>, x: string)
    requires a <= b && x in b && x !in a
    ensures |a| < |b|
  {
    assert b == a + (b - a) && x in b - a;
  }

  lemma SurvivorsSolid(s: seq<Slot>, i: nat)
    requires WellNamed(s) && LoadFile(IniText(s)) == Loads(Contents(s))
    requires i < |s| && s[i].Used? && ':' in s[i].key
    ensures !EndsInBackslash(TextOf(s[i].val))
  {
    OwnerListed(s, i);
    forall name | name in SecNames(s)
      ensures ShortSection(s, name)
    {
      SurvivorsShort(s, name);
    }
    LoadedCount(s);
    if EndsInBackslash(TextOf(s[i].val)) {
      BackslashLoses(s, i);
    }
  }

  lemma SurvivorsReadable(s: seq<Slot>)
    requires WellNamed(s) && LoadFile(IniText(s)) == Loads(Contents(s))
    ensures Readable(s)
  {
    SurvivorsOneLine(s);
    forall i | 0 <= i < |s| && s[i].Used?
      ensures ReadableAt(s, i)
    {
      OwnerListed(s, i);
      SurvivorsShort(s, SecPart(s[i].key));
      if !IsSection(s[i]) {
        OwnPrefix(s[i].key);
        SurvivorsSolid(s, i);
        assert ShortEntry(s[i], SecPart(s[i].key) + ":");
      }
    }
  }

  /** A well-named dictionary loads back from its own printed text exactly when every entry
      survives: no section holds a value, every line fits the buffer, and every value is
      plain, single-line and does not end in a backslash. */
  lemma RoundTripIff(s: seq<Slot>)
    requires WellNamed(s)
    ensures LoadFile(IniText(s)) == Loads(Contents(s)) <==> AllSurvive(s)
  {
    ReloadedIsContents(s);
    if AllSurvive(s) {
      SurviveReadable(s);
      ReloadsExactly(s);
      assert forall i :: 0 <= i < |s| && s[i].Used? && Survives(s, i) ==> PlainAt(s, i);
    }
    if LoadFile(IniText(s)) == Loads(Contents(s)) {
      SurvivorsReadable(s);
      ReloadsExactly(s);
      assert forall i :: 0 <= i < |s| && s[i].Used? && ReadableAt(s, i) && PlainAt(s, i) ==> Survives(s, i);
    }
  }

  /** The two operations together: what was printed loads to an equal dictionary. */
  method DumpThenLoad(d: Dict) returns (text: string, copy: Dict?, overrun: bool)
    requires d.Valid() && WellNamed(d.slots)
    requires NUL !in IniText(d.slots) && forall name :: name in SecNames(d.slots) ==> NUL !in name
    ensures text == IniText(d.slots)
    ensures AllSurvive(d.slots) <==>
            !overrun && copy != null && copy.Valid() && Contents(copy.slots) == Contents(d.slots)
  {
    text := IniparserDumpIni(d);
    copy, overrun := IniparserLoad(Some(text));
    RoundTripIff(d.slots);
  }
}
