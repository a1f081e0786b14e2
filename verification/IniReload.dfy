/** Loading what iniparser_dump_ini printed: the exact dictionary that comes back when every
    printed line can be read as one line. */
module IniReload {
  import opened Common
  import opened CText
  import opened Dictionary
  import opened IniLine
  import opened IniLoad
  import opened IniDump

  // ----- names -----

  ghost predicate GoodSection(s: string) {
    s != "" && Trimmed(s) && IsLower(s) && ':' !in s && ']' !in s && '\n' !in s && EqualsOnlyLast(s)
  }

  ghost predicate GoodName(k: string) {
    && k != "" && Trimmed(k) && IsLower(k) && '=' !in k && '\n' !in k
    && k[0] != '#' && k[0] != ';' && k[0] != '['
  }

  /** The section and the name of a key `section:name`. */
  function SecPart(key: string): string {
    Span(key, {':'}, true)
  }

  function NamePart(key: string): string
    requires ':' in key
  {
    assert key == SecPart(key) || |SecPart(key)| < |key|;
    key[|SecPart(key)| + 1..]
  }

  /** A section has a good name; any other key is a good name under a stored section. */
  ghost predicate WellNamedAt(s: seq<Slot>, i: nat)
    requires i < |s| && s[i].Used?
  {
    if IsSection(s[i]) then GoodSection(s[i].key)
    else IndexOf(s, SecPart(s[i].key)) < |s| && GoodName(NamePart(s[i].key))
  }

  ghost predicate WellNamed(s: seq<Slot>) {
    Distinct(s) && forall i :: 0 <= i < |s| && s[i].Used? ==> WellNamedAt(s, i)
  }

  /** The section in front of a colon is the one the key belongs to. */
  lemma PrefixOwns(key: string, name: string)
    requires ':' !in name && name + ":" <= key
    ensures ':' in key && SecPart(key) == name && NamePart(key) == key[|name| + 1..]
  {
    assert key[|name|] == (name + ":")[|name|] == ':';
    assert forall i :: 0 <= i < |name| ==> key[i] == (name + ":")[i] == name[i];
    assert key == name + key[|name|..];
    SpanStops(name, key[|name|..], {':'}, true);
  }

  lemma OwnPrefix(key: string)
    requires ':' in key
    ensures ':' !in SecPart(key) && SecPart(key) + ":" <= key
    ensures key[|SecPart(key)| + 1..] == NamePart(key)
  {
    assert key == SecPart(key) || |SecPart(key)| < |key|;
  }

  // ----- one printed entry -----

  /** The value a printed value reads back as. */
  function Reread(v: string): string {
    ValueText(DropSpaceEnd(v))
  }

  predicate EndsInBackslash(v: string) {
    var body := DropSpaceEnd(v);
    body != "" && body[|body| - 1] == '\\'
  }

  lemma {:induction false} DropSpaceEndStops(q: string, t: string)
    requires q != "" && !IsSpace(q[|q| - 1])
    ensures DropSpaceEnd(q + t) == q + DropSpaceEnd(t)
    decreases |t|
  {
    if t == "" {
      assert q + t == q;
    } else {
      assert (q + t)[|q + t| - 1] == t[|t| - 1];
      if IsSpace(t[|t| - 1]) {
        assert (q + t)[..|q + t| - 1] == q + t[..|t| - 1];
        DropSpaceEndStops(q, t[..|t| - 1]);
      }
    }
  }

  lemma {:induction false} DropSpaceEndAfterBlank(v: string)
    ensures DropSpaceEnd(" " + v) == if DropSpaceEnd(v) == "" then "" else " " + DropSpaceEnd(v)
    decreases |v|
  {
    if v == "" {
      assert " " + v == " ";
    } else {
      assert (" " + v)[|v|] == v[|v| - 1];
      if IsSpace(v[|v| - 1]) {
        assert (" " + v)[..|v|] == " " + v[..|v| - 1];
        DropSpaceEndAfterBlank(v[..|v| - 1]);
      }
    }
  }

  /** A printed line up to and including its `=`: the name, the blanks of its column, ` =`. */
  function Head(name: string, pad: string): string {
    name + pad + " " + "="
  }

  lemma LineBody(name: string, pad: string, t: string)
    requires name != ""
    ensures name + pad + " = " + t == Head(name, pad) + (" " + t)
    ensures DropSpaceEnd(name + pad + " = " + t) == Head(name, pad) + DropSpaceEnd(" " + t)
    ensures Continues(name + pad + " = " + t) <==> EndsInBackslash(t)
  {
    assert name + pad + " = " + t == Head(name, pad) + (" " + t);
    DropSpaceEndStops(Head(name, pad), " " + t);
    DropSpaceEndAfterBlank(t);
  }

  lemma HeadKey(name: string, pad: string, tail: string)
    requires GoodName(name) && AllSpace(pad)
    ensures Span(Head(name, pad) + tail, {'='}, true) == name + pad + " "
    ensures Lower(Trim(name + pad + " ")) == name
  {
    var k := name + pad + " ";
    assert Head(name, pad) + tail == k + ("=" + tail);
    SpanStops(k, "=" + tail, {'='}, true);
    assert k == "" + name + (pad + " ");
    TrimPadded("", name, pad + " ");
  }

  lemma HeadLine(name: string, pad: string, tail: string)
    requires GoodName(name) && AllSpace(pad) && (tail != "" ==> !IsSpace(tail[|tail| - 1]))
    ensures LineOf(Head(name, pad) + tail) == LineValue(name, ValueText(tail))
  {
    var line := Head(name, pad) + tail;
    var n := |Head(name, pad)|;
    assert line[0] == name[0] && line[n - 1] == '=';
    assert tail != "" ==> line[|line| - 1] == tail[|tail| - 1];
    TrimmedUnchanged(line);
    AssignmentLine(line);
    HeadKey(name, pad, tail);
    assert line[n..] == tail;
  }

  /** A printed line parses to its own name and the re-read value. */
  lemma LineParses(name: string, pad: string, t: string)
    requires GoodName(name) && AllSpace(pad) && !EndsInBackslash(t)
    ensures LineOf(Piece(name + pad + " = " + t)) == LineValue(name, Reread(t))
  {
    var tail := DropSpaceEnd(" " + t);
    LineBody(name, pad, t);
    DropSpaceEndAfterBlank(t);
    var back := DropSpaceEndSplits(" " + t);
    HeadLine(name, pad, tail);
    if tail != "" {
      DropSpaceSkips(" ", DropSpaceEnd(t));
    }
  }

  lemma EntryBody(name: string, v: Option<string>)
    requires name != ""
    ensures Continues(EntryText(name, v)) <==> EndsInBackslash(TextOf(v))
  {
    LineBody(name, Spaces(if |name| < 30 then 30 - |name| else 0), TextOf(v));
  }

  lemma EntryParses(name: string, v: Option<string>)
    requires GoodName(name) && !EndsInBackslash(TextOf(v))
    ensures LineOf(Piece(EntryText(name, v))) == LineValue(name, Reread(TextOf(v)))
  {
    LineParses(name, Spaces(if |name| < 30 then 30 - |name| else 0), TextOf(v));
  }

  /** The value survives exactly when it is plain. */
  lemma RereadIff(v: string)
    ensures Reread(v) == v <==> PlainValue(v)
  {
    var u := DropSpaceEnd(v);
    var back := DropSpaceEndSplits(v);
    assert u + "" == u && "" + v == v;
    PlainValueIff(v, "");
    if PlainValue(v) {
      assert u == v;
    }
    if Reread(v) == v {
      ValueTextWithin(u);
      assert u == v;
    }
  }

  lemma ValueTextWithin(t: string)
    ensures |ValueText(t)| <= |t|
    ensures forall c :: c in ValueText(t) ==> c in t
  {
    var rest := DropSpace(t);
    var front := DropSpaceSplits(t);
    if rest != "" {
      SpanTrimLength(rest[1..], {'"'});
      SpanTrimLength(rest[1..], {'\''});
    }
    SpanTrimLength(rest, {';', '#'});
  }

  // ----- what a printed dictionary reads back as -----

  ghost predicate ReadableEntry(name: string, v: Option<string>) {
    && GoodName(name) && '\n' !in TextOf(v) && !EndsInBackslash(TextOf(v))
    && |EntryText(name, v)| <= ASCIILINESZ - 2
  }

  ghost predicate ReadableBody(s: seq<Slot>, keym: string) {
    forall i :: 0 <= i < |s| && HasPrefix(s[i], keym) ==> ReadableEntry(s[i].key[|keym|..], s[i].val)
  }

  function PrefixKeys(s: seq<Slot>, keym: string): set<string> {
    set i | 0 <= i < |s| && HasPrefix(s[i], keym) :: s[i].key
  }

  /** The loader's state after one slot of a section body. */
  function AfterSlot(p: Load, x: Slot, keym: string): Load {
    if HasPrefix(x, keym) then Load(p.section, p.dict[x.key := Some(Reread(TextOf(x.val)))], 0) else p
  }

  /** The loader's state after the entries of one section. */
  function AfterBody(st: Load, s: seq<Slot>, keym: string): Load {
    if s == [] then st else AfterSlot(AfterBody(st, s[..|s| - 1], keym), s[|s| - 1], keym)
  }

  lemma ReadEntry(st: Load, name: string, v: Option<string>, rest: string)
    requires ReadableEntry(name, v)
    ensures Outcome(st, LogicalLines(EntryText(name, v) + "\n" + rest, "")) ==
            Outcome(Step(st, LineValue(name, Reread(TextOf(v)))), LogicalLines(rest, ""))
  {
    EntryBody(name, v);
    EntryParses(name, v);
    ReadWhole(st, EntryText(name, v), rest);
  }

  lemma {:induction false} BodySection(st: Load, s: seq<Slot>, keym: string)
    ensures AfterBody(st, s, keym).section == st.section
    ensures st.errs == 0 ==> AfterBody(st, s, keym).errs == 0
  {
    if s != [] { BodySection(st, s[..|s| - 1], keym); }
  }

  lemma ReadOwned(p: Load, key: string, name: string, v: Option<string>, rest: string)
    requires key == p.section + ":" + name && ReadableEntry(name, v)
    ensures Outcome(p, LogicalLines(EntryText(name, v) + "\n" + rest, "")) ==
            Outcome(Load(p.section, p.dict[key := Some(Reread(TextOf(v)))], 0), LogicalLines(rest, ""))
  {
    ReadEntry(p, name, v, rest);
  }

  lemma ReadSlot(p: Load, x: Slot, keym: string, rest: string)
    requires keym == p.section + ":" && (HasPrefix(x, keym) ==> ReadableEntry(x.key[|keym|..], x.val))
    ensures Outcome(p, LogicalLines(PrintedEntry(x, keym) + rest, "")) ==
            Outcome(AfterSlot(p, x, keym), LogicalLines(rest, ""))
  {
    if HasPrefix(x, keym) {
      ReadOwned(p, x.key, x.key[|keym|..], x.val, rest);
    } else {
      assert "" + rest == rest;
    }
  }

  lemma {:induction false} ReadBody(st: Load, s: seq<Slot>, keym: string, rest: string)
    requires ReadableBody(s, keym) && keym == st.section + ":"
    ensures Outcome(st, LogicalLines(SectionBody(s, keym) + rest, "")) ==
            Outcome(AfterBody(st, s, keym), LogicalLines(rest, ""))
    decreases |s|
  {
    if s == [] {
      assert "" + rest == rest;
    } else {
      var n := |s| - 1;
      assert s[..n + 1] == s;
      BodySplit(s, n, keym, rest);
      ReadBody(st, s[..n], keym, PrintedEntry(s[n], keym) + rest);
      BodySection(st, s[..n], keym);
      ReadSlot(AfterBody(st, s[..n], keym), s[n], keym, rest);
    }
  }

  function AfterSection(st: Load, s: seq<Slot>, name: string): Load {
    AfterBody(Load(name, st.dict[name := None], 0), s, name + ":")
  }

  function AfterSections(st: Load, s: seq<Slot>, names: seq<string>): Load {
    if names == [] then st
    else AfterSection(AfterSections(st, s, names[..|names| - 1]), s, names[|names| - 1])
  }

  ghost predicate ReadableSection(s: seq<Slot>, name: string) {
    && GoodSection(name) && |name| + 2 <= ASCIILINESZ - 2 && FindEntry(s, name)
    && ReadableBody(s, name + ":")
  }

  lemma ReadHeader(st: Load, name: string, rest: string)
    requires GoodSection(name) && |name| + 2 <= ASCIILINESZ - 2
    ensures Outcome(st, LogicalLines("\n" + ("[" + name + "]" + "\n" + rest), "")) ==
            Outcome(Load(name, st.dict[name := None], 0), LogicalLines(rest, ""))
  {
    var text := "[" + name + "]";
    ReadBlank(text + "\n" + rest, "");
    HeaderLine(name);
    ReadWhole(st, text, rest);
  }

  lemma ReadSection(st: Load, s: seq<Slot>, name: string, rest: string)
    requires ReadableSection(s, name)
    ensures Outcome(st, LogicalLines(SectionText(s, name) + rest, "")) ==
            Outcome(AfterSection(st, s, name), LogicalLines(rest, ""))
  {
    var afterHeader := SectionBody(s, name + ":") + ("\n" + rest);
    SectionTextShape(s, name, rest);
    ReadHeader(st, name, afterHeader);
    ReadBody(Load(name, st.dict[name := None], 0), s, name + ":", "\n" + rest);
    ReadBlank(rest, "");
  }

  lemma {:induction false} ReadSections(st: Load, s: seq<Slot>, names: seq<string>, rest: string)
    requires forall name :: name in names ==> ReadableSection(s, name)
    ensures Outcome(st, LogicalLines(SectionTexts(s, names) + rest, "")) ==
            Outcome(AfterSections(st, s, names), LogicalLines(rest, ""))
    decreases |names|
  {
    if names == [] {
      assert "" + rest == rest;
    } else {
      var n := |names| - 1;
      assert names[n] in names;
      SectionTextsSplit(s, names, n, rest);
      ReadSections(st, s, names[..n], SectionText(s, names[n]) + rest);
      ReadSection(AfterSections(st, s, names[..n]), s, names[n], rest);
    }
  }

  // ----- the state is the re-read dictionary -----

  /** Sections with NULL, entries with their re-read values. */
  function Reloaded(s: seq<Slot>): map<string, Option<string>> {
    map k | k in Keys(s) :: if ':' in k then Some(Reread(TextOf(GetSlots(s, k, None)))) else None
  }

  ghost predicate Agrees(m: map<string, Option<string>>, t: map<string, Option<string>>) {
    forall k :: k in m ==> k in t && m[k] == t[k]
  }

  lemma {:induction false} BodyKeys(st: Load, all: seq<Slot>, n: nat, keym: string)
    requires n <= |all|
    ensures AfterBody(st, all[..n], keym).dict.Keys == st.dict.Keys + PrefixKeys(all[..n], keym)
    decreases n
  {
    if n > 0 {
      assert all[..n][..n - 1] == all[..n - 1];
      BodyKeys(st, all, n - 1, keym);
      PrefixKeysStep(all, n - 1, keym);
    }
  }

  lemma {:induction false} BodyDict(st: Load, all: seq<Slot>, n: nat, keym: string)
    requires n <= |all| && Distinct(all) && ':' in keym && Agrees(st.dict, Reloaded(all))
    ensures Agrees(AfterBody(st, all[..n], keym).dict, Reloaded(all))
    decreases n
  {
    if n > 0 {
      assert all[..n][..n - 1] == all[..n - 1];
      BodyDict(st, all, n - 1, keym);
      if HasPrefix(all[n - 1], keym) {
        ReloadedEntry(all, n - 1, keym);
      }
    }
  }

  lemma ReloadedEntry(s: seq<Slot>, i: nat, keym: string)
    requires i < |s| && Distinct(s) && ':' in keym && HasPrefix(s[i], keym)
    ensures s[i].key in Reloaded(s) && Reloaded(s)[s[i].key] == Some(Reread(TextOf(s[i].val)))
  {
    ContentsAt(s, i);
    var c :| 0 <= c < |keym| && keym[c] == ':';
    assert s[i].key[c] == ':';
  }

  lemma PrefixKeysStep(s: seq<Slot>, n: nat, keym: string)
    requires n < |s|
    ensures PrefixKeys(s[..n + 1], keym) == PrefixKeys(s[..n], keym) + if HasPrefix(s[n], keym) then {s[n].key} else {}
  {
    assert forall i :: 0 <= i < n ==> s[..n + 1][i] == s[..n][i];
    assert s[..n + 1][n] == s[n];
  }

  /** The keys written for the sections listed. */
  function BlockKeys(s: seq<Slot>, names: seq<string>): set<string> {
    if names == [] then {}
    else
      var name := names[|names| - 1];
      BlockKeys(s, names[..|names| - 1]) + ({name} + PrefixKeys(s, name + ":"))
  }

  lemma {:induction false} SectionsDict(s: seq<Slot>, names: seq<string>)
    requires Distinct(s)
    requires forall name :: name in names ==> name in Keys(s) && ':' !in name
    ensures Agrees(AfterSections(EMPTY, s, names).dict, Reloaded(s))
    ensures AfterSections(EMPTY, s, names).dict.Keys == BlockKeys(s, names)
    ensures AfterSections(EMPTY, s, names).errs == 0
    decreases |names|
  {
    if names != [] {
      var n := |names| - 1;
      var name := names[n];
      SectionsDict(s, names[..n]);
      var p := AfterSections(EMPTY, s, names[..n]);
      var st := Load(name, p.dict[name := None], 0);
      assert name in names;
      assert (name + ":")[|name|] == ':';
      assert s[..|s|] == s;
      BodyDict(st, s, |s|, name + ":");
      BodyKeys(st, s, |s|, name + ":");
      BodySection(st, s, name + ":");
    }
  }

  lemma {:induction false} BlockKeysMember(s: seq<Slot>, names: seq<string>, name: string)
    requires name in names
    ensures name in BlockKeys(s, names) && PrefixKeys(s, name + ":") <= BlockKeys(s, names)
    decreases |names|
  {
    var n := |names| - 1;
    if name != names[n] {
      BlockKeysMember(s, names[..n], name);
    }
  }

  lemma {:induction false} BlockKeysWithin(s: seq<Slot>, names: seq<string>)
    requires forall name :: name in names ==> name in Keys(s)
    ensures BlockKeys(s, names) <= Keys(s)
    decreases |names|
  {
    if names != [] {
      var n := |names| - 1;
      assert names[n] in names;
      BlockKeysWithin(s, names[..n]);
    }
  }

  /** With every key owned by a section, the section blocks cover the dictionary. */
  lemma BlocksCover(s: seq<Slot>)
    requires WellNamed(s)
    ensures BlockKeys(s, SecNames(s)) == Keys(s)
  {
    var names := SecNames(s);
    forall name | name in names
      ensures name in Keys(s)
    {
      SecNamesExact(s, name);
    }
    BlockKeysWithin(s, names);
    forall k | k in Keys(s)
      ensures k in BlockKeys(s, names)
    {
      var i :| 0 <= i < |s| && s[i].Used? && s[i].key == k;
      OwnerListed(s, i);
      BlockKeysMember(s, names, SecPart(k));
      if !IsSection(s[i]) {
        OwnPrefix(k);
        assert HasPrefix(s[i], SecPart(k) + ":");
      }
    }
  }

  /** The section of every entry is listed; a section is its own. */
  lemma OwnerListed(s: seq<Slot>, i: nat)
    requires WellNamed(s) && i < |s| && s[i].Used?
    ensures SecPart(s[i].key) in SecNames(s)
    ensures IsSection(s[i]) ==> SecPart(s[i].key) == s[i].key
  {
    assert WellNamedAt(s, i);
    var key := s[i].key;
    var j := if IsSection(s[i]) then i else IndexOf(s, SecPart(key));
    if IsSection(s[i]) {
      assert key + "" == key;
      SpanStops(key, "", {':'}, true);
    } else {
      OwnPrefix(key);
    }
    assert IsSection(s[j]) && s[j].key == SecPart(key);
    SecNameMember(s, SecPart(key));
  }

  /** Every entry of the dictionary prints as one line that fgets can read whole. */
  ghost predicate ReadableAt(s: seq<Slot>, i: nat)
    requires i < |s| && s[i].Used?
  {
    if IsSection(s[i]) then |s[i].key| + 2 <= ASCIILINESZ - 2
    else ReadableEntry(NamePart(s[i].key), s[i].val)
  }

  ghost predicate Readable(s: seq<Slot>) {
    forall i :: 0 <= i < |s| && s[i].Used? ==> ReadableAt(s, i)
  }

  lemma EntryReadable(s: seq<Slot>, i: nat, name: string)
    requires Readable(s) && ':' !in name && i < |s| && HasPrefix(s[i], name + ":")
    ensures ReadableEntry(s[i].key[|name + ":"|..], s[i].val)
  {
    PrefixOwns(s[i].key, name);
    assert ReadableAt(s, i);
  }

  lemma NamesReadable(s: seq<Slot>, name: string)
    requires WellNamed(s) && Readable(s) && name in SecNames(s)
    ensures ReadableSection(s, name)
  {
    NameFound(s, name);
    SecNameMember(s, name);
    var j :| 0 <= j < |s| && IsSection(s[j]) && s[j].key == name;
    assert ReadableAt(s, j);
    forall i | 0 <= i < |s| && HasPrefix(s[i], name + ":")
      ensures ReadableEntry(s[i].key[|name + ":"|..], s[i].val)
    {
      EntryReadable(s, i, name);
    }
  }

  lemma NameFound(s: seq<Slot>, name: string)
    requires WellNamed(s) && name in SecNames(s)
    ensures FindEntry(s, name) && GoodSection(name) && name in Keys(s)
  {
    SecNameMember(s, name);
    var j :| 0 <= j < |s| && IsSection(s[j]) && s[j].key == name;
    assert WellNamedAt(s, j);
    ContentsAt(s, j);
  }

  lemma {:induction false} NothingFlat(s: seq<Slot>)
    requires forall i :: 0 <= i < |s| ==> s[i].Free?
    ensures FlatText(s) == ""
  {
    if s != [] { NothingFlat(s[..|s| - 1]); }
  }

  /** A dictionary without sections, well named, is empty. */
  lemma ReloadsEmpty(s: seq<Slot>)
    requires WellNamed(s) && SecNames(s) == []
    ensures LoadFile(IniText(s)) == Loads(Reloaded(s))
  {
    forall i | 0 <= i < |s|
      ensures s[i].Free?
    {
      if s[i].Used? { OwnerListed(s, i); }
    }
    NothingFlat(s);
    assert Reloaded(s) == map[];
    assert ParseAll([]) == [];
  }

  lemma ReadEnd(st: Load)
    requires st.errs == 0
    ensures Outcome(st, LogicalLines("\n", "")) == Loads(st.dict)
  {
    assert "\n" + "" == "\n";
    ReadBlank("", "");
    assert ParseAll([]) == [];
  }

  lemma StateReloaded(s: seq<Slot>)
    requires WellNamed(s)
    ensures AfterSections(EMPTY, s, SecNames(s)).errs == 0
    ensures AfterSections(EMPTY, s, SecNames(s)).dict == Reloaded(s)
  {
    forall name | name in SecNames(s)
      ensures name in Keys(s) && ':' !in name
    {
      SecNamesExact(s, name);
    }
    SectionsDict(s, SecNames(s));
    BlocksCover(s);
    assert Reloaded(s).Keys == Keys(s);
  }

  /** Loading the printed text gives the sections, and each entry with its re-read value. */
  lemma ReloadsExactly(s: seq<Slot>)
    requires WellNamed(s) && Readable(s)
    ensures LoadFile(IniText(s)) == Loads(Reloaded(s))
  {
    var names := SecNames(s);
    if names == [] {
      ReloadsEmpty(s);
    } else {
      forall name | name in names
        ensures ReadableSection(s, name)
      {
        NamesReadable(s, name);
      }
      ReadSections(EMPTY, s, names, "\n");
      StateReloaded(s);
      ReadEnd(AfterSections(EMPTY, s, names));
    }
  }

  // ----- a section name that overruns the loader -----

  lemma {:induction false} TextsFrom(s: seq<Slot>, names: seq<string>, j: nat) returns (rest: string)
    requires j < |names|
    ensures SectionTexts(s, names) == SectionTexts(s, names[..j]) + (SectionText(s, names[j]) + rest)
    decreases |names|
  {
    var n := |names| - 1;
    var last := SectionText(s, names[n]);
    if j == n {
      assert last + "" == last;
      rest := "";
    } else {
      var front := names[..n];
      var inner := TextsFrom(s, front, j);
      assert front[..j] == names[..j] && front[j] == names[j];
      JoinTexts(SectionTexts(s, names[..j]), SectionText(s, names[j]), inner, last);
      rest := inner + last;
    }
  }

  lemma JoinTexts(a: string, b: string, c: string, d: string)
    ensures (a + (b + c)) + d == a + (b + (c + d))
  {
  }

  lemma JoinEnd(a: string, b: string, c: string)
    ensures (a + (b + c)) + "\n" == a + (b + (c + "\n"))
  {
  }

  /** A stored section whose name is good but for an `=` before its last character. */
  ghost predicate OverrunningSection(s: seq<Slot>, name: string) {
    && name != "" && Trimmed(name) && IsLower(name) && ']' !in name && '\n' !in name && !EqualsOnlyLast(name)
    && FindEntry(s, name) && |name| + 2 <= ASCIILINESZ - 2
  }

  lemma SectionOverruns(st: Load, s: seq<Slot>, name: string, rest: string)
    requires OverrunningSection(s, name)
    ensures Outcome(st, LogicalLines(SectionText(s, name) + rest, "")) == Overrun
  {
    var text := "[" + name + "]";
    var after := SectionBody(s, name + ":") + ("\n" + rest);
    SectionTextShape(s, name, rest);
    ReadBlank(text + "\n" + after, "");
    HeaderLine(name);
    ReadWhole(st, text, after);
  }

  /** Loading a dump writes past the key buffer at the first such section. */
  lemma DumpOverruns(s: seq<Slot>, j: nat)
    requires j < |SecNames(s)| && OverrunningSection(s, SecNames(s)[j])
    requires forall i :: 0 <= i < j ==> ReadableSection(s, SecNames(s)[i])
    ensures LoadFile(IniText(s)) == Overrun
  {
    var names := SecNames(s);
    var rest := TextsFrom(s, names, j);
    JoinEnd(SectionTexts(s, names[..j]), SectionText(s, names[j]), rest);
    ReadSections(EMPTY, s, names[..j], SectionText(s, names[j]) + (rest + "\n"));
    SectionOverruns(AfterSections(EMPTY, s, names[..j]), s, names[j], rest + "\n");
  }

  /** A dictionary of one section, `=ab`. */
  lemma DumpOverrunExample()
    ensures LoadFile(IniText([Used("=ab", None)])) == Overrun
  {
    var s := [Used("=ab", None)];
    assert s[..0] == [] && SecNames([]) == [];
    assert IsSection(s[0]) && SecNames(s) == ["=ab"];
    assert BeforeEquals("=ab") == "";
    assert Lower("=ab") == "=ab";
    IndexIs(s, "=ab", 0);
    DumpOverruns(s, 0);
  }

  // ----- looking up what was loaded -----

  /** Every section and key of a loaded dictionary is found under any spelling of its name. */
  lemma LoadedFound(file: string, s: seq<Slot>, key: string, name: string)
    requires LoadFile(file).Loads? && Distinct(s) && Contents(s) == LoadFile(file).dict
    requires key in Contents(s) && Lower(name) == Lower(key)
    ensures FindEntry(s, name)
  {
    LoadedNamesLower(file, key);
    FindEntryIff(s, name);
  }
}
