/** No dictionary without sections survives being printed and loaded back, whatever its keys and
    values, unless it is empty. */
module IniFlatSurvival {
  import opened Common
  import opened CText
  import opened Dictionary
  import opened IniLine
  import opened IniLoad
  import opened IniDump
  import opened IniReload
  import opened IniFlat
  import opened IniRoundTrip

  // ----- characters that trimming and lower-casing do not make up -----

  lemma TrimChars(x: string, c: char)
    ensures c in Trim(x) ==> c in x
  {
    var front, back := TrimSplits(x);
    var y := Trim(x);
    if i :| 0 <= i < |y| && y[i] == c {
      assert (front + y + back)[|front| + i] == y[i];
    }
  }

  lemma LowerTrimChars(x: string, c: char)
    requires !('a' <= c <= 'z')
    ensures c in Lower(Trim(x)) ==> c in x
  {
    TrimChars(x, c);
    var y := Trim(x);
    if i :| 0 <= i < |y| && Lower(y)[i] == c {
      assert ToLower(y[i]) == c;
    }
  }

  // ----- loaded keys hold no newline -----

  ghost predicate OneLineKey(line: Line) {
    (line.LineSection? ==> '\n' !in line.section) && (line.LineValue? ==> '\n' !in line.key)
  }

  lemma KeyOneLine(t: string)
    requires '\n' !in t
    ensures OneLineKey(LineOf(t))
  {
    var line := Trim(t);
    TrimChars(t, '\n');
    if LineOf(t).LineSection? {
      NameScan(line);
      LowerTrimChars(ScannedName(line), '\n');
      assert '\n' !in line[1..];
    } else if LineOf(t).LineValue? {
      ErrorLine(t);
      AssignmentLine(t);
      LowerTrimChars(BeforeEquals(line), '\n');
    }
  }

  lemma {:induction false} FoldOneLineKeys(lines: seq<Line>)
    requires forall i :: 0 <= i < |lines| ==> OneLineKey(lines[i])
    ensures '\n' !in Fold(EMPTY, lines).section
    ensures forall k :: k in Fold(EMPTY, lines).dict ==> '\n' !in k
    decreases |lines|
  {
    if lines != [] {
      FoldOneLineKeys(lines[..|lines| - 1]);
    }
  }

  lemma LoadedKeysOneLine(file: string)
    requires LoadFile(file).Loads?
    ensures forall k :: k in LoadFile(file).dict ==> '\n' !in k
  {
    var handed := LogicalLines(file, "").handed;
    LogicalOneLine(file, "");
    forall i | 0 <= i < |handed|
      ensures OneLineKey(ParseAll(handed)[i])
    {
      assert handed[i] in handed;
      KeyOneLine(handed[i]);
    }
    FoldOneLineKeys(ParseAll(handed));
  }

  // ----- every logical line begins with an entry -----

  /** t is the start of the line of an entry with this key, at least to its `=`. */
  predicate EntryStart(key: string, t: string) {
    t == key + " =" || key + " = " <= t
  }

  ghost predicate Starts(s: seq<Slot>, t: string) {
    exists j :: 0 <= j < |s| && s[j].Used? && EntryStart(s[j].key, t)
  }

  ghost predicate Pending(s: seq<Slot>, p: string) {
    p == "" || exists j :: 0 <= j < |s| && s[j].Used? && s[j].key + " = " <= p
  }

  ghost predicate AllStart(s: seq<Slot>, file: string) {
    forall p, t :: Pending(s, p) && t in LogicalLines(file, p).handed ==> Starts(s, t)
  }

  /** A line cut to `key =` and what follows it hands on at least the start of the entry. */
  lemma BodyStart(key: string, line: string, body: string)
    requires DropSpaceEnd(line) == key + " =" + body && (body == "" || body[0] == ' ')
    ensures EntryStart(key, Piece(line))
    ensures Continues(line) ==> key + " = " <= Piece(line)
  {
    var head := key + " =";
    if body != "" {
      assert head + body == key + " = " + body[1..];
    }
    if Continues(line) {
      var n := |body| - 1;
      assert (head + body)[|head| + n] == '\\';
      assert Piece(line) == key + " = " + body[1..n];
    }
  }

  lemma PieceStart(key: string, v: string)
    requires key != ""
    ensures EntryStart(key, Piece(key + " = " + v))
    ensures Continues(key + " = " + v) ==> key + " = " <= Piece(key + " = " + v)
  {
    assert key + "" == key;
    LineBody(key, "", v);
    DropSpaceEndAfterBlank(v);
    assert Head(key, "") == key + " =";
    BodyStart(key, key + " = " + v, DropSpaceEnd(" " + v));
  }

  /** One printed entry in front of text whose lines begin with entries. */
  lemma StartStep(s: seq<Slot>, i: nat, rest: string)
    requires i < |s| && s[i].Used? && s[i].key != "" && '\n' !in s[i].key && '\n' !in Shown(s[i].val)
    requires AllStart(s, rest)
    ensures AllStart(s, PrintedFlat(s[i]) + rest)
  {
    var text := s[i].key + " = " + Shown(s[i].val);
    assert PrintedFlat(s[i]) + rest == text + "\n" + rest;
    PieceStart(s[i].key, Shown(s[i].val));
    forall p, t | Pending(s, p) && t in LogicalLines(text + "\n" + rest, p).handed
      ensures Starts(s, t)
    {
      StartLine(s, i, text, rest, p, t);
    }
  }

  lemma StartLine(s: seq<Slot>, i: nat, text: string, rest: string, p: string, t: string)
    requires i < |s| && s[i].Used? && '\n' !in text && text != "" && AllStart(s, rest) && Pending(s, p)
    requires EntryStart(s[i].key, Piece(text)) && (Continues(text) ==> s[i].key + " = " <= Piece(text))
    requires t in LogicalLines(text + "\n" + rest, p).handed
    ensures Starts(s, t)
  {
    if |text| > ASCIILINESZ - 2 {
      ReadTooLong(text, rest, p);
    } else {
      ReadLine(text, rest, p);
      if Continues(text) {
        JoinedPending(s, i, p, Piece(text));
      } else if t != p + Piece(text) {
        assert Pending(s, "");
        assert t in LogicalLines(rest, "").handed;
      } else {
        JoinedStart(s, i, p, Piece(text));
      }
    }
  }

  lemma JoinedPending(s: seq<Slot>, i: nat, p: string, piece: string)
    requires i < |s| && s[i].Used? && Pending(s, p) && s[i].key + " = " <= piece
    ensures Pending(s, p + piece)
  {
    if p == "" {
      assert p + piece == piece;
    } else {
      var j :| 0 <= j < |s| && s[j].Used? && s[j].key + " = " <= p;
      assert s[j].key + " = " <= p + piece;
    }
  }

  lemma JoinedStart(s: seq<Slot>, i: nat, p: string, piece: string)
    requires i < |s| && s[i].Used? && Pending(s, p) && EntryStart(s[i].key, piece)
    ensures Starts(s, p + piece)
  {
    if p == "" {
      assert p + piece == piece;
    } else {
      var j :| 0 <= j < |s| && s[j].Used? && s[j].key + " = " <= p;
      assert s[j].key + " = " <= p + piece;
    }
  }

  /** Every entry on one line. */
  ghost predicate SingleLines(s: seq<Slot>) {
    forall i :: 0 <= i < |s| && s[i].Used? ==> ':' in s[i].key && '\n' !in s[i].key && '\n' !in Shown(s[i].val)
  }

  lemma {:induction false} FlatStarts(s: seq<Slot>, n: nat, rest: string)
    requires n <= |s| && SingleLines(s) && AllStart(s, rest)
    ensures AllStart(s, FlatText(s[..n]) + rest)
  {
    if n == 0 {
      assert FlatText(s[..n]) + rest == rest;
    } else {
      var front := s[..n];
      assert front[..n - 1] == s[..n - 1] && front[n - 1] == s[n - 1];
      FlatSplit(front, rest);
      if s[n - 1].Used? {
        StartStep(s, n - 1, rest);
      } else {
        assert PrintedFlat(s[n - 1]) + rest == rest;
      }
      FlatStarts(s, n - 1, PrintedFlat(s[n - 1]) + rest);
    }
  }

  // ----- what such a line can load -----

  lemma {:induction false} DropSpaceFront(a: string, b: string)
    requires DropSpace(a) != ""
    ensures DropSpace(a + b) == DropSpace(a) + b
  {
    if IsSpace(a[0]) {
      assert (a + b)[1..] == a[1..] + b;
      DropSpaceFront(a[1..], b);
    }
  }

  lemma {:induction false} NotAllBlank(a: string, c: char)
    requires c in a && !IsSpace(c)
    ensures DropSpace(a) != "" && c in DropSpace(a) && !IsSpace(DropSpace(a)[0])
  {
    if IsSpace(a[0]) {
      assert c in a[1..];
      NotAllBlank(a[1..], c);
    }
  }

  /** The stripped line begins with the key, its leading blanks gone, and ` =`. */
  lemma StrippedStart(key: string, t: string)
    requires ':' in key && EntryStart(key, t)
    ensures DropSpace(key) != "" && EntryStart(DropSpace(key), Trim(t))
  {
    NotAllBlank(key, ':');
    var k := DropSpace(key);
    if t == key + " =" {
      DropSpaceFront(key, " =");
      DropSpaceEndStops(k + " =", "");
      assert k + " =" + "" == k + " =";
    } else {
      var x := t[|key + " = "|..];
      assert t == key + (" =" + (" " + x));
      DropSpaceFront(key, " =" + (" " + x));
      assert k + (" =" + (" " + x)) == (k + " =") + (" " + x);
      DropSpaceEndStops(k + " =", " " + x);
      DropSpaceEndAfterBlank(x);
      var rest := DropSpaceEnd(" " + x);
      if rest == "" {
        assert k + " =" + "" == k + " =";
      } else {
        assert k + " =" + rest == (k + " = ") + rest[1..];
      }
    }
  }

  /** A key that can make a section line, and the name it makes. */
  predicate MakesSection(key: string) {
    var k := DropSpace(key);
    k != "" && k[0] == '[' && ']' in k[1..]
  }

  function MadeName(key: string): string
    requires MakesSection(key)
  {
    Lower(Trim(Span(DropSpace(key)[1..], {']'}, true)))
  }

  lemma SpanWithin(a: string, b: string, c: char)
    requires c in a
    ensures Span(a + b, {c}, true) == Span(a, {c}, true) && |Span(a, {c}, true)| < |a|
  {
    var t := Span(a, {c}, true);
    assert t == a ==> c !in a;
    assert a + b == t + (a[|t|..] + b);
    SpanStops(t, a[|t|..] + b, {c}, true);
  }

  lemma SpanBeyond(a: string, b: string, c: char)
    requires c !in a
    ensures |Span(a + b, {c}, true)| >= |a|
  {
    var t := Span(a + b, {c}, true);
    assert forall i :: 0 <= i < |a| ==> (a + b)[i] == a[i];
    assert forall i :: 0 <= i < |a| ==> a[i] != c;
  }

  /** Without a `]` of its own before the ` = ` such a line overruns the key buffer. */
  lemma WouldOverrun(k: string, u: string)
    requires k != "" && k + " = " <= u && Bracketed(u) && ']' !in k[1..]
    ensures Overruns(u)
  {
    var head := k + " = ";
    NameScan(u);
    assert u == head + u[|head|..] && u[1..] == (k[1..] + " = ") + u[|head|..];
    SpanBeyond(k[1..] + " = ", u[|head|..], ']');
    assert u[|k| + 1] == '=';
    assert |BeforeEquals(u)| <= |k| + 1;
  }

  lemma SectionShape(k: string, u: string)
    requires k != "" && EntryStart(k, u) && Bracketed(u) && !Overruns(u)
    ensures ']' in k[1..] && ScannedName(u) == Span(k[1..], {']'}, true)
  {
    NameScan(u);
    var head := k + " = ";
    assert u != k + " =" by { assert (k + " =")[|k| + 1] == '='; }
    assert u == head + u[|head|..] && u[1..] == (k[1..] + " = ") + u[|head|..];
    if ']' in k[1..] {
      assert (k[1..] + " = ") + u[|head|..] == k[1..] + (" = " + u[|head|..]);
      SpanWithin(k[1..], " = " + u[|head|..], ']');
    } else {
      WouldOverrun(k, u);
    }
  }

  lemma LoadsSection(key: string, t: string)
    requires ':' in key && EntryStart(key, t) && LineOf(t).LineSection?
    ensures MakesSection(key) && LineOf(t).section == MadeName(key)
  {
    StrippedStart(key, t);
    SectionShape(DropSpace(key), Trim(t));
  }

  /** What the line of an entry names when it is a value line. */
  function MadeKey(key: string): string {
    Lower(Trim(BeforeEquals(DropSpace(key) + " =")))
  }

  lemma LoadsValue(key: string, t: string)
    requires ':' in key && EntryStart(key, t) && LineOf(t).LineValue?
    ensures LineOf(t).key == MadeKey(key)
  {
    StrippedStart(key, t);
    var k, u := DropSpace(key), Trim(t);
    ErrorLine(t);
    AssignmentLine(t);
    assert u == (k + " =") + u[|k| + 2..];
    SpanWithin(k + " =", u[|k| + 2..], '=');
  }

  // ----- no section line -----

  /** The brackets a text opens with, blanks between them aside. */
  function Lead(x: string): nat {
    if x == "" then 0
    else if x[0] == '[' then 1 + Lead(x[1..])
    else if IsSpace(x[0]) then Lead(x[1..])
    else 0
  }

  lemma {:induction false} LeadStops(a: string, b: string)
    requires b != "" ==> b[0] != '[' && !IsSpace(b[0])
    ensures Lead(a + b) == Lead(a)
  {
    if a == "" {
      assert a + b == b;
    } else {
      assert (a + b)[1..] == a[1..] + b;
      LeadStops(a[1..], b);
    }
  }

  lemma {:induction false} LeadBlanks(front: string, x: string)
    requires AllSpace(front)
    ensures Lead(front + x) == Lead(x)
  {
    if front == "" {
      assert front + x == x;
    } else {
      assert (front + x)[1..] == front[1..] + x;
      LeadBlanks(front[1..], x);
    }
  }

  lemma {:induction false} LeadBlanksAfter(x: string, back: string)
    requires AllSpace(back)
    ensures Lead(x + back) == Lead(x)
  {
    if x == "" {
      assert x + back == back + "";
      LeadBlanks(back, "");
    } else {
      assert (x + back)[1..] == x[1..] + back;
      LeadBlanksAfter(x[1..], back);
    }
  }

  lemma {:induction false} LeadLower(x: string)
    ensures Lead(Lower(x)) == Lead(x)
  {
    if x != "" {
      assert Lower(x)[1..] == Lower(x[1..]);
      LeadLower(x[1..]);
    }
  }

  lemma LeadTrim(x: string)
    ensures Lead(Lower(Trim(x))) == Lead(x)
  {
    var front, back := TrimSplits(x);
    LeadLower(Trim(x));
    LeadBlanks(front, Trim(x));
    LeadBlanksAfter(front + Trim(x), back);
  }

  lemma {:induction false} LeadAtMost(x: string)
    ensures Lead(x) <= |x|
  {
    if x != "" { LeadAtMost(x[1..]); }
  }

  /** A key that makes a section opens with one bracket more than the name. */
  lemma LeadMade(key: string)
    requires MakesSection(key)
    ensures Lead(key) == Lead(MadeName(key)) + 1
  {
    var k := DropSpace(key);
    var front := DropSpaceSplits(key);
    var g := Span(k[1..], {']'}, true);
    SpanWithin(k[1..], "", ']');
    assert k[1..] + "" == k[1..];
    assert k[1..] == g + k[1..][|g|..];
    LeadBlanks(front, k);
    LeadStops(g, k[1..][|g|..]);
    LeadTrim(g);
  }

  lemma MadeNamePlain(key: string)
    requires MakesSection(key)
    ensures ']' !in MadeName(key)
  {
    var g := Span(DropSpace(key)[1..], {']'}, true);
    LowerTrimChars(g, ']');
  }

  // ----- the dictionary that would survive -----

  /** A dictionary without sections that loads back as itself. */
  ghost predicate FlatSurvivor(s: seq<Slot>) {
    Distinct(s) && SecNames(s) == [] && LoadFile(IniText(s)) == Loads(Contents(s))
  }

  function HandedOf(s: seq<Slot>): seq<string> {
    LogicalLines(IniText(s), "").handed
  }

  function ParsedOf(s: seq<Slot>): seq<Line> {
    ParseAll(HandedOf(s))
  }

  lemma SurvivorSingle(s: seq<Slot>)
    requires FlatSurvivor(s)
    ensures SingleLines(s)
  {
    LoadedKeysOneLine(IniText(s));
    LoadedOneLine(IniText(s));
    forall i | 0 <= i < |s| && s[i].Used?
      ensures ':' in s[i].key && '\n' !in s[i].key && '\n' !in Shown(s[i].val)
    {
      ContentsAt(s, i);
      if ':' !in s[i].key {
        SecNameMember(s, s[i].key);
      }
    }
  }

  lemma TextStarts(s: seq<Slot>)
    requires SingleLines(s) && SecNames(s) == []
    ensures AllStart(s, IniText(s))
  {
    FlatStarts(s, |s|, "");
    assert s[..|s|] == s && FlatText(s) + "" == IniText(s);
  }

  lemma LineStarts(s: seq<Slot>, t: string)
    requires AllStart(s, IniText(s)) && t in HandedOf(s)
    ensures Starts(s, t)
  {
    assert Pending(s, "");
  }

  /** The entry a logical line begins with. */
  lemma EntryOfLine(s: seq<Slot>, i: nat) returns (j: nat)
    requires FlatSurvivor(s) && i < |HandedOf(s)|
    ensures j < |s| && s[j].Used? && ':' in s[j].key && EntryStart(s[j].key, HandedOf(s)[i])
  {
    SurvivorSingle(s);
    TextStarts(s);
    LineStarts(s, HandedOf(s)[i]);
    j :| 0 <= j < |s| && s[j].Used? && EntryStart(s[j].key, HandedOf(s)[i]);
  }

  /** Every stored key is written by some line. */
  lemma LineOfEntry(s: seq<Slot>, j: nat) returns (i: nat)
    requires FlatSurvivor(s) && j < |s| && s[j].Used?
    ensures i < |ParsedOf(s)| && Writes(ParsedOf(s), i, s[j].key)
  {
    var lines := ParsedOf(s);
    ContentsAt(s, j);
    KeysWritten(lines, |lines|, s[j].key);
    assert lines[..|lines|] == lines;
    i :| 0 <= i < |lines| && Writes(lines, i, s[j].key);
  }

  lemma {:induction false} SectionLineBefore(lines: seq<Line>, n: nat) returns (i: nat)
    requires n <= |lines| && SectionAt(lines, n) != ""
    ensures i < n && lines[i].LineSection? && lines[i].section == SectionAt(lines, n)
  {
    if lines[n - 1].LineSection? {
      i := n - 1;
    } else {
      i := SectionLineBefore(lines, n - 1);
    }
  }

  /** A key that makes a section can only be written by a value line under a section. */
  lemma SectionKeyOwned(s: seq<Slot>, j: nat, w: nat)
    requires FlatSurvivor(s) && j < |s| && s[j].Used? && MakesSection(s[j].key)
    requires w < |ParsedOf(s)| && Writes(ParsedOf(s), w, s[j].key)
    ensures ParsedOf(s)[w].LineValue? && SectionAt(ParsedOf(s), w) != ""
  {
    var key := s[j].key;
    var front := DropSpaceSplits(key);
    assert key == front + DropSpace(key);
    if ParsedOf(s)[w].LineSection? {
      var x := EntryOfLine(s, w);
      LoadsSection(s[x].key, HandedOf(s)[w]);
      MadeNamePlain(s[x].key);
    }
  }

  /** Its section opens with as many brackets as the key. */
  lemma OwnerLead(lines: seq<Line>, w: nat, key: string) returns (i: nat)
    requires w < |lines| && Writes(lines, w, key) && lines[w].LineValue? && SectionAt(lines, w) != ""
    ensures i < w && lines[i].LineSection? && Lead(lines[i].section) == Lead(key)
  {
    i := SectionLineBefore(lines, w);
    LeadStops(SectionAt(lines, w), ":" + lines[w].key);
    assert key == SectionAt(lines, w) + (":" + lines[w].key);
  }

  /** A section line asks for another one whose name opens with more brackets. */
  lemma DeeperSection(s: seq<Slot>, i: nat) returns (deeper: nat)
    requires FlatSurvivor(s) && i < |ParsedOf(s)| && ParsedOf(s)[i].LineSection?
    ensures deeper < |ParsedOf(s)| && ParsedOf(s)[deeper].LineSection?
    ensures Lead(ParsedOf(s)[deeper].section) == Lead(ParsedOf(s)[i].section) + 1
  {
    var j := EntryOfLine(s, i);
    LoadsSection(s[j].key, HandedOf(s)[i]);
    LeadMade(s[j].key);
    var w := LineOfEntry(s, j);
    SectionKeyOwned(s, j, w);
    deeper := OwnerLead(ParsedOf(s), w, s[j].key);
  }

  function LeadOf(line: Line): nat {
    if line.LineSection? then Lead(line.section) else 0
  }

  function MaxLead(lines: seq<Line>, n: nat): nat
    requires n <= |lines|
  {
    if n == 0 then 0
    else if LeadOf(lines[n - 1]) > MaxLead(lines, n - 1) then LeadOf(lines[n - 1])
    else MaxLead(lines, n - 1)
  }

  lemma {:induction false} MaxLeadBounds(lines: seq<Line>, n: nat, i: nat)
    requires i < n <= |lines|
    ensures LeadOf(lines[i]) <= MaxLead(lines, n)
  {
    if i < n - 1 { MaxLeadBounds(lines, n - 1, i); }
  }

  /** So there is no section line at all. */
  lemma {:induction false} NoSectionLine(s: seq<Slot>, i: nat)
    requires FlatSurvivor(s) && i < |ParsedOf(s)|
    ensures !ParsedOf(s)[i].LineSection?
    decreases MaxLead(ParsedOf(s), |ParsedOf(s)|) - LeadOf(ParsedOf(s)[i])
  {
    if ParsedOf(s)[i].LineSection? {
      var deeper := DeeperSection(s, i);
      MaxLeadBounds(ParsedOf(s), |ParsedOf(s)|, deeper);
      NoSectionLine(s, deeper);
    }
  }

  /** Every stored key is a colon and what the line of some stored key names. */
  lemma KeyMade(s: seq<Slot>, j: nat) returns (x: nat)
    requires FlatSurvivor(s) && j < |s| && s[j].Used?
    ensures x < |s| && s[x].Used? && ':' in s[x].key && s[j].key == ":" + MadeKey(s[x].key)
  {
    var lines := ParsedOf(s);
    var w := LineOfEntry(s, j);
    NoSectionLine(s, w);
    if SectionAt(lines, w) != "" {
      var i := SectionLineBefore(lines, w);
      NoSectionLine(s, i);
    }
    x := EntryOfLine(s, w);
    LoadsValue(s[x].key, HandedOf(s)[w]);
    assert "" + ":" + lines[w].key == ":" + lines[w].key;
  }

  lemma LowerTrimmed(x: string)
    ensures Trimmed(":" + Lower(Trim(x)))
  {
    var front, back := TrimSplits(x);
  }

  /** A key of that form names itself, lower-cased. */
  lemma MadeAgain(from: string, key: string)
    requires key == ":" + MadeKey(from)
    ensures |MadeKey(key)| == |key|
  {
    LowerTrimChars(BeforeEquals(DropSpace(from) + " ="), '=');
    LowerTrimmed(BeforeEquals(DropSpace(from) + " ="));
    assert DropSpace(key) == key;
    assert key + " =" == (key + " ") + "=";
    SpanStops(key + " ", "=", {'='}, true);
    assert "" + key + " " == key + " ";
    TrimPadded("", key, " ");
  }

  lemma {:induction false} ShortestKey(s: seq<Slot>, n: nat, i: nat) returns (j: nat)
    requires i < n <= |s| && s[i].Used?
    ensures j < n && s[j].Used? && forall x :: 0 <= x < n && s[x].Used? ==> |s[j].key| <= |s[x].key|
  {
    j := n - 1;
    if x :| 0 <= x < n - 1 && s[x].Used? {
      var k := ShortestKey(s, n - 1, x);
      j := if s[n - 1].Used? && |s[n - 1].key| < |s[k].key| then n - 1 else k;
    }
  }

  lemma NoEntry(s: seq<Slot>, i: nat)
    requires FlatSurvivor(s) && i < |s|
    ensures s[i].Free?
  {
    if s[i].Used? {
      var j := ShortestKey(s, |s|, i);
      var x := KeyMade(s, j);
      var y := KeyMade(s, x);
      MadeAgain(s[y].key, s[x].key);
    }
  }

  lemma EmptySurvives(s: seq<Slot>)
    requires SecNames(s) == [] && Distinct(s) && forall i :: 0 <= i < |s| ==> s[i].Free?
    ensures LoadFile(IniText(s)) == Loads(Contents(s))
  {
    assert WellNamed(s);
    ReloadsEmpty(s);
    assert Reloaded(s) == map[] == Contents(s);
  }

  /** A dictionary without sections survives being printed and loaded back exactly when it is
      empty. */
  lemma FlatSurvivesIff(s: seq<Slot>)
    requires Distinct(s) && SecNames(s) == []
    ensures LoadFile(IniText(s)) == Loads(Contents(s)) <==> forall i :: 0 <= i < |s| ==> s[i].Free?
  {
    if FlatSurvivor(s) {
      forall i | 0 <= i < |s|
        ensures s[i].Free?
      {
        NoEntry(s, i);
      }
    }
    if forall i :: 0 <= i < |s| ==> s[i].Free? {
      EmptySurvives(s);
    }
  }
}
