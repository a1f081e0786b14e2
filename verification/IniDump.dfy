/** The read-only half of iniparser.c: enumerating sections and keys, and printing a
    dictionary as INI text.  The loops run over the slots in storage order. */
module IniDump {
  import opened Common
  import opened CText
  import opened Dictionary

  // ----- sections and their keys -----

  /** A section is an entry whose key has no colon. */
  predicate IsSection(x: Slot) {
    x.Used? && ':' !in x.key
  }

  predicate HasPrefix(x: Slot, keym: string) {
    x.Used? && keym <= x.key
  }

  function SecNames(s: seq<Slot>): seq<string> {
    if s == [] then []
    else
      var x := s[|s| - 1];
      SecNames(s[..|s| - 1]) + if IsSection(x) then [x.key] else []
  }

  function SecKeys(s: seq<Slot>, keym: string): seq<string> {
    if s == [] then []
    else
      var x := s[|s| - 1];
      SecKeys(s[..|s| - 1], keym) + if HasPrefix(x, keym) then [x.key] else []
  }

  /** iniparser_find_entry: the lookup lower-cases the name. */
  predicate FindEntry(s: seq<Slot>, entry: string) {
    IndexOf(s, Lower(entry)) < |s|
  }

  ghost predicate NoDuplicates(a: seq<string>) {
    forall i, j :: 0 <= i < j < |a| ==> a[i] != a[j]
  }

  lemma {:induction false} SecNameMember(s: seq<Slot>, name: string)
    ensures name in SecNames(s) <==> exists i :: 0 <= i < |s| && IsSection(s[i]) && s[i].key == name
  {
    if s != [] {
      var n := |s| - 1;
      SecNameMember(s[..n], name);
      assert IsSection(s[n]) && s[n].key == name ==> name in SecNames(s);
    }
  }

  lemma {:induction false} SecKeyMember(s: seq<Slot>, keym: string, key: string)
    ensures key in SecKeys(s, keym) <==> exists i :: 0 <= i < |s| && HasPrefix(s[i], keym) && s[i].key == key
  {
    if s != [] {
      var n := |s| - 1;
      SecKeyMember(s[..n], keym, key);
      assert HasPrefix(s[n], keym) && s[n].key == key ==> key in SecKeys(s, keym);
    }
  }

  lemma IndexOfPrefix(s: seq<Slot>, n: nat, key: string)
    requires n <= |s| && IndexOf(s[..n], key) < n
    ensures IndexOf(s, key) == IndexOf(s[..n], key)
  {
    IndexIs(s, key, IndexOf(s[..n], key));
  }

  /** The names are keys of the slots, in slot order. */
  ghost predicate InSlotOrder(s: seq<Slot>, names: seq<string>) {
    && (forall a :: 0 <= a < |names| ==> IndexOf(s, names[a]) < |s|)
    && (forall a, b :: 0 <= a < b < |names| ==> IndexOf(s, names[a]) < IndexOf(s, names[b]))
  }

  lemma OrderKept(s: seq<Slot>, n: nat, names: seq<string>)
    requires n <= |s| && InSlotOrder(s[..n], names)
    ensures InSlotOrder(s, names) && forall a :: 0 <= a < |names| ==> IndexOf(s, names[a]) < n
  {
    forall a | 0 <= a < |names| ensures IndexOf(s, names[a]) == IndexOf(s[..n], names[a]) {
      IndexOfPrefix(s, n, names[a]);
    }
  }

  lemma OrderExtended(s: seq<Slot>, names: seq<string>, name: string, n: nat)
    requires InSlotOrder(s, names) && IndexOf(s, name) == n < |s|
    requires forall a :: 0 <= a < |names| ==> IndexOf(s, names[a]) < n
    ensures InSlotOrder(s, names + [name])
  {
    var all := names + [name];
    assert forall a :: 0 <= a < |names| ==> all[a] == names[a];
    assert all[|names|] == name;
  }

  lemma {:induction false} SecNamesOrdered(s: seq<Slot>)
    requires Distinct(s)
    ensures InSlotOrder(s, SecNames(s))
  {
    if s != [] {
      var n := |s| - 1;
      SecNamesOrdered(s[..n]);
      OrderKept(s, n, SecNames(s[..n]));
      if IsSection(s[n]) {
        ContentsAt(s, n);
        OrderExtended(s, SecNames(s[..n]), s[n].key, n);
      }
    }
  }

  /** Sections are listed once each, in slot order. */
  lemma SecNamesInOrder(s: seq<Slot>)
    requires Distinct(s)
    ensures NoDuplicates(SecNames(s))
    ensures forall a :: 0 <= a < |SecNames(s)| ==> IndexOf(s, SecNames(s)[a]) < |s|
    ensures forall a, b :: 0 <= a < b < |SecNames(s)| ==> IndexOf(s, SecNames(s)[a]) < IndexOf(s, SecNames(s)[b])
  {
    SecNamesOrdered(s);
  }

  /** A section is listed exactly when it is a stored key without a colon. */
  lemma SecNamesExact(s: seq<Slot>, name: string)
    requires Distinct(s)
    ensures name in SecNames(s) <==> name in Contents(s) && ':' !in name
  {
    SecNameMember(s, name);
    if name in Contents(s) && ':' !in name {
      var i :| 0 <= i < |s| && s[i].Used? && s[i].key == name;
      assert IsSection(s[i]);
    }
    if i :| 0 <= i < |s| && IsSection(s[i]) && s[i].key == name {
      ContentsAt(s, i);
    }
  }

  /** The keys listed for a section are the stored keys that begin with `section:`. */
  lemma SecKeysExact(s: seq<Slot>, keym: string, key: string)
    requires Distinct(s)
    ensures key in SecKeys(s, keym) <==> key in Contents(s) && keym <= key
  {
    SecKeyMember(s, keym, key);
    if key in Contents(s) && keym <= key {
      var i :| 0 <= i < |s| && s[i].Used? && s[i].key == key;
      assert HasPrefix(s[i], keym);
    }
    if i :| 0 <= i < |s| && HasPrefix(s[i], keym) && s[i].key == key {
      ContentsAt(s, i);
    }
  }

  lemma {:induction false} SecKeysOnce(s: seq<Slot>, keym: string)
    requires Distinct(s)
    ensures NoDuplicates(SecKeys(s, keym))
  {
    if s != [] {
      var n := |s| - 1;
      SecKeysOnce(s[..n], keym);
      forall a | 0 <= a < |SecKeys(s[..n], keym)| && HasPrefix(s[n], keym)
        ensures SecKeys(s[..n], keym)[a] != s[n].key
      {
        SecKeyMember(s[..n], keym, SecKeys(s[..n], keym)[a]);
      }
    }
  }

  /** The keys of a section are listed in slot order. */
  lemma {:induction false} SecKeysInOrder(s: seq<Slot>, keym: string)
    requires Distinct(s)
    ensures InSlotOrder(s, SecKeys(s, keym))
  {
    if s != [] {
      var n := |s| - 1;
      SecKeysInOrder(s[..n], keym);
      OrderKept(s, n, SecKeys(s[..n], keym));
      if HasPrefix(s[n], keym) {
        ContentsAt(s, n);
        OrderExtended(s, SecKeys(s[..n], keym), s[n].key, n);
      }
    }
  }

  /** A name is found exactly when its lower-case spelling is stored. */
  lemma FindEntryIff(s: seq<Slot>, entry: string)
    requires Distinct(s)
    ensures FindEntry(s, entry) <==> Lower(entry) in Contents(s)
  {
    var i := IndexOf(s, Lower(entry));
    if i < |s| {
      ContentsAt(s, i);
    }
  }

  /** So the spelling of the name does not matter. */
  lemma FoundInAnyCase(s: seq<Slot>, entry: string, other: string)
    requires Lower(entry) == Lower(other)
    ensures FindEntry(s, entry) <==> FindEntry(s, other)
  {
  }

  lemma {:induction false} SecNamesStep(s: seq<Slot>, i: nat)
    requires i < |s|
    ensures SecNames(s[..i + 1]) == SecNames(s[..i]) + if IsSection(s[i]) then [s[i].key] else []
    ensures SecNames(s[..i + 1]) <= SecNames(s)
    decreases |s| - i
  {
    assert s[..i + 1][..i] == s[..i];
    if i + 1 == |s| {
      assert s[..i + 1] == s;
    } else {
      SecNamesStep(s, i + 1);
    }
  }

  lemma {:induction false} SecKeysStep(s: seq<Slot>, keym: string, i: nat)
    requires i < |s|
    ensures SecKeys(s[..i + 1], keym) == SecKeys(s[..i], keym) + if HasPrefix(s[i], keym) then [s[i].key] else []
    ensures SecKeys(s[..i + 1], keym) <= SecKeys(s, keym)
    decreases |s| - i
  {
    assert s[..i + 1][..i] == s[..i];
    if i + 1 == |s| {
      assert s[..i + 1] == s;
    } else {
      SecKeysStep(s, keym, i + 1);
    }
  }

  method IniparserGetNSec(d: Dict?) returns (nsec: int)
    requires d != null ==> d.Valid()
    ensures nsec == if d == null then -1 else |SecNames(d.slots)|
  {
    if d == null {
      return -1;
    }
    nsec := 0;
    for i := 0 to d.size
      invariant nsec == |SecNames(d.slots[..i])|
    {
      SecNamesStep(d.slots, i);
      var x := d.SlotAt(i);
      if IsSection(x) {
        nsec := nsec + 1;
      }
    }
    assert d.slots[..d.size] == d.slots;
  }

  /** The search loop of iniparser_getsecname: stop at the section numbered n. */
  method FindSection(d: Dict, n: nat) returns (name: Option<string>)
    requires d.Valid()
    ensures name == if n < |SecNames(d.slots)| then Some(SecNames(d.slots)[n]) else None
  {
    ghost var s := d.slots;
    var foundsec, i := 0, 0;
    while i < d.size
      invariant i <= d.size && foundsec == |SecNames(s[..i])| <= n
    {
      SecNamesStep(s, i);
      var x := d.SlotAt(i);
      if IsSection(x) {
        foundsec := foundsec + 1;
        if foundsec > n {
          return Some(x.key);
        }
      }
      i := i + 1;
    }
    assert s[..i] == s;
    return None;
  }

  /** The n-th section name, NULL for a negative n and past the last section. */
  method IniparserGetSecName(d: Dict?, n: int) returns (name: Option<string>)
    requires d != null ==> d.Valid()
    ensures name == if d == null || !(0 <= n < |SecNames(d.slots)|) then None else Some(SecNames(d.slots)[n])
  {
    if d == null || n < 0 {
      return None;
    }
    name := FindSection(d, n);
  }

  method IniparserFindEntry(d: Dict, entry: string) returns (found: bool)
    requires d.Valid() && NUL !in entry
    ensures found == FindEntry(d.slots, entry)
  {
    var lcKey := LowerCopy(entry);
    var i := d.Search(lcKey);
    found := i < d.size;
  }

  method IniparserGetSecNKeys(d: Dict?, s: string) returns (nkeys: nat)
    requires d != null ==> d.Valid()
    requires NUL !in s
    ensures nkeys == if d == null || !FindEntry(d.slots, s) then 0 else |SecKeys(d.slots, s + ":")|
  {
    nkeys := 0;
    if d == null {
      return;
    }
    var found := IniparserFindEntry(d, s);
    if !found {
      return;
    }
    var keym := s + ":";
    for j := 0 to d.size
      invariant nkeys == |SecKeys(d.slots[..j], keym)|
    {
      SecKeysStep(d.slots, keym, j);
      var x := d.SlotAt(j);
      if HasPrefix(x, keym) {
        nkeys := nkeys + 1;
      }
    }
    assert d.slots[..d.size] == d.slots;
  }

  /** The filling pass of iniparser_getseckeys: it never leaves the array and fills it. */
  method FillKeys(d: Dict, keym: string, keys: array<string>)
    requires d.Valid() && (keys as object) !in d.Repr && keys.Length == |SecKeys(d.slots, keym)|
    modifies keys
    ensures keys[..] == SecKeys(d.slots, keym)
  {
    ghost var s := d.slots;
    var i := 0;
    for j := 0 to d.size
      invariant i <= keys.Length && keys[..i] == SecKeys(s[..j], keym)
    {
      SecKeysStep(s, keym, j);
      var x := d.SlotAt(j);
      if HasPrefix(x, keym) {
        keys[i] := x.key;
        i := i + 1;
      }
    }
    assert s[..d.size] == s;
  }

  /** The array sized by the counting pass is filled exactly by the second pass. */
  method IniparserGetSecKeys(d: Dict?, s: string) returns (keys: array?<string>)
    requires d != null ==> d.Valid()
    requires NUL !in s
    ensures d == null || !FindEntry(d.slots, s) ==> keys == null
    ensures d != null && FindEntry(d.slots, s) ==> keys != null && fresh(keys) && keys[..] == SecKeys(d.slots, s + ":")
  {
    if d == null {
      return null;
    }
    var found := IniparserFindEntry(d, s);
    if !found {
      return null;
    }
    var nkeys := IniparserGetSecNKeys(d, s);
    keys := new string[nkeys](_ => "");
    FillKeys(d, s + ":", keys);
  }

  // ----- printing -----

  function Spaces(n: nat): (s: string)
    ensures |s| == n && AllSpace(s)
  {
    seq(n, _ => ' ')
  }

  /** `%-30s`. */
  function Pad30(s: string): string {
    s + Spaces(if |s| < 30 then 30 - |s| else 0)
  }

  function TextOf(v: Option<string>): string {
    if v.None? then "" else v.value
  }

  /** The line of one entry, without its newline. */
  function EntryText(name: string, v: Option<string>): string {
    Pad30(name) + " = " + TextOf(v)
  }

  function PrintedEntry(x: Slot, keym: string): string {
    if HasPrefix(x, keym) then EntryText(x.key[|keym|..], x.val) + "\n" else ""
  }

  function SectionBody(s: seq<Slot>, keym: string): string {
    if s == [] then "" else SectionBody(s[..|s| - 1], keym) + PrintedEntry(s[|s| - 1], keym)
  }

  /** iniparser_dumpsection_ini; nothing when the section is not an entry. */
  function SectionText(s: seq<Slot>, name: string): string {
    if FindEntry(s, name) then "\n" + ("[" + name + "]" + "\n" + (SectionBody(s, name + ":") + "\n")) else ""
  }

  function SectionTexts(s: seq<Slot>, names: seq<string>): string {
    if names == [] then ""
    else SectionTexts(s, names[..|names| - 1]) + SectionText(s, names[|names| - 1])
  }

  /** A NULL value as glibc's `%s` prints it. */
  function Shown(v: Option<string>): string {
    if v.None? then "(null)" else v.value
  }

  function PrintedFlat(x: Slot): string {
    if x.Used? then x.key + " = " + Shown(x.val) + "\n" else ""
  }

  /** Without any section every entry is printed under its full key. */
  function FlatText(s: seq<Slot>): string {
    if s == [] then "" else FlatText(s[..|s| - 1]) + PrintedFlat(s[|s| - 1])
  }

  function IniText(s: seq<Slot>): string {
    if SecNames(s) == [] then FlatText(s) else SectionTexts(s, SecNames(s)) + "\n"
  }

  // ----- what the printed text lists -----

  /** A printed entry has its name in a column of 30 characters, or as wide as the name, then the
      separator and the value. */
  lemma EntryColumns(name: string, v: Option<string>)
    ensures var text, width := EntryText(name, v), if |name| < 30 then 30 else |name|;
            && |text| == width + 3 + |TextOf(v)|
            && text[..|name|] == name && (forall i :: |name| <= i < width ==> text[i] == ' ')
            && text[width..width + 3] == " = " && text[width + 3..] == TextOf(v)
    ensures v.None? ==> EntryText(name, v) == EntryText(name, Some(""))
  {
    var column := Pad30(name);
    assert EntryText(name, v) == column + (" = " + TextOf(v));
    assert column[..|name|] == name;
  }

  /** The lines of these keys, one after the other, with the values m has for them. */
  ghost function EntryLines(keys: seq<string>, keym: string, m: map<string, Option<string>>): string
    requires forall key :: key in keys ==> keym <= key && key in m
  {
    if keys == [] then ""
    else
      var n := |keys| - 1;
      var key := keys[n];
      assert key in keys && forall k :: k in keys[..n] ==> k in keys;
      EntryLines(keys[..n], keym, m) + (EntryText(key[|keym|..], m[key]) + "\n")
  }

  ghost predicate Holds(s: seq<Slot>, m: map<string, Option<string>>) {
    forall i :: 0 <= i < |s| && s[i].Used? ==> s[i].key in m && m[s[i].key] == s[i].val
  }

  lemma {:induction false} SecKeysHeld(s: seq<Slot>, keym: string, m: map<string, Option<string>>)
    requires Holds(s, m)
    ensures forall key :: key in SecKeys(s, keym) ==> keym <= key && key in m
  {
    if s != [] { SecKeysHeld(s[..|s| - 1], keym, m); }
  }

  lemma {:induction false} BodyLists(s: seq<Slot>, keym: string, m: map<string, Option<string>>)
    requires Holds(s, m)
    ensures forall key :: key in SecKeys(s, keym) ==> keym <= key && key in m
    ensures SectionBody(s, keym) == EntryLines(SecKeys(s, keym), keym, m)
  {
    SecKeysHeld(s, keym, m);
    if s != [] {
      var n := |s| - 1;
      BodyLists(s[..n], keym, m);
      if HasPrefix(s[n], keym) {
        assert SecKeys(s, keym)[..|SecKeys(s, keym)| - 1] == SecKeys(s[..n], keym);
      } else {
        assert SectionBody(s[..n], keym) + "" == SectionBody(s[..n], keym);
        assert SecKeys(s[..n], keym) + [] == SecKeys(s[..n], keym);
      }
    }
  }

  lemma ContentsHold(s: seq<Slot>)
    requires Distinct(s)
    ensures Holds(s, Contents(s))
  {
    forall i | 0 <= i < |s| && s[i].Used?
      ensures s[i].key in Contents(s) && Contents(s)[s[i].key] == s[i].val
    {
      ContentsAt(s, i);
    }
  }

  /** The printed body of a section is one line for each key the enumeration lists, in its order,
      with the value a lookup gives. */
  lemma SectionBodyLists(s: seq<Slot>, name: string)
    requires Distinct(s)
    ensures forall key :: key in SecKeys(s, name + ":") ==> name + ":" <= key && key in Contents(s)
    ensures SectionBody(s, name + ":") == EntryLines(SecKeys(s, name + ":"), name + ":", Contents(s))
  {
    ContentsHold(s);
    BodyLists(s, name + ":", Contents(s));
  }

  /** Without sections a key is printed as it is, and a NULL value as the C library prints it. */
  lemma FlatLineIs(key: string, v: string)
    ensures PrintedFlat(Used(key, Some(v))) == key + " = " + v + "\n"
    ensures PrintedFlat(Used(key, None)) == key + " = " + "(null)" + "\n"
  {
  }

  /** The full-key lines of these keys. */
  ghost function FlatLines(keys: seq<string>, m: map<string, Option<string>>): string
    requires forall key :: key in keys ==> key in m
  {
    if keys == [] then ""
    else
      var n := |keys| - 1;
      assert keys[n] in keys && forall k :: k in keys[..n] ==> k in keys;
      FlatLines(keys[..n], m) + (keys[n] + " = " + Shown(m[keys[n]]) + "\n")
  }

  /** Without sections every stored key is printed in full, in slot order, with its value. */
  lemma {:induction false} FlatTextLists(s: seq<Slot>, m: map<string, Option<string>>)
    requires Holds(s, m)
    ensures forall key :: key in SecKeys(s, "") ==> key in m
    ensures FlatText(s) == FlatLines(SecKeys(s, ""), m)
  {
    SecKeysHeld(s, "", m);
    if s != [] {
      var n := |s| - 1;
      FlatTextLists(s[..n], m);
      if HasPrefix(s[n], "") {
        assert SecKeys(s, "")[..|SecKeys(s, "")| - 1] == SecKeys(s[..n], "");
      } else {
        assert FlatText(s[..n]) + "" == FlatText(s[..n]);
        assert SecKeys(s[..n], "") + [] == SecKeys(s[..n], "");
      }
    }
  }

  /** The printed text of a stored section: an empty line, the name in brackets, its entries, and an
      empty line. */
  lemma SectionTextLists(s: seq<Slot>, name: string)
    requires Distinct(s) && Lower(name) in Contents(s)
    ensures forall key :: key in SecKeys(s, name + ":") ==> name + ":" <= key && key in Contents(s)
    ensures SectionText(s, name) ==
            "\n[" + name + "]\n" + EntryLines(SecKeys(s, name + ":"), name + ":", Contents(s)) + "\n"
  {
    SectionBodyLists(s, name);
    FindEntryIff(s, name);
    Layout(name, SectionBody(s, name + ":"));
  }

  lemma Layout(name: string, body: string)
    ensures "\n" + ("[" + name + "]" + "\n" + (body + "\n")) == "\n[" + name + "]\n" + body + "\n"
  {
  }

  lemma BodyStep(s: seq<Slot>, n: nat, keym: string)
    requires n < |s|
    ensures SectionBody(s[..n + 1], keym) == SectionBody(s[..n], keym) + PrintedEntry(s[n], keym)
  {
    assert s[..n + 1][..n] == s[..n];
  }

  /** The entry loop of iniparser_dumpsection_ini. */
  method DumpEntries(d: Dict, keym: string) returns (out: string)
    requires d.Valid()
    ensures out == SectionBody(d.slots, keym)
  {
    out := "";
    for j := 0 to d.size
      invariant out == SectionBody(d.slots[..j], keym)
    {
      BodyStep(d.slots, j, keym);
      var x := d.SlotAt(j);
      if HasPrefix(x, keym) {
        out := out + (EntryText(x.key[|keym|..], x.val) + "\n");
      }
    }
    assert d.slots[..d.size] == d.slots;
  }

  lemma BodySplit(s: seq<Slot>, n: nat, keym: string, rest: string)
    requires n < |s|
    ensures SectionBody(s[..n + 1], keym) + rest == SectionBody(s[..n], keym) + (PrintedEntry(s[n], keym) + rest)
  {
    BodyStep(s, n, keym);
    Associates(SectionBody(s[..n], keym), PrintedEntry(s[n], keym), rest);
  }

  lemma Associates(a: string, b: string, c: string)
    ensures (a + b) + c == a + (b + c)
  {
  }

  lemma SectionTextShape(s: seq<Slot>, name: string, rest: string)
    requires FindEntry(s, name)
    ensures SectionText(s, name) + rest ==
            "\n" + ("[" + name + "]" + "\n" + (SectionBody(s, name + ":") + ("\n" + rest)))
  {
    Reassociate("\n", "[" + name + "]" + "\n", SectionBody(s, name + ":"), "\n", rest);
  }

  lemma SectionTextsStep(s: seq<Slot>, names: seq<string>, n: nat)
    requires n < |names|
    ensures SectionTexts(s, names[..n + 1]) == SectionTexts(s, names[..n]) + SectionText(s, names[n])
  {
    assert names[..n + 1][..n] == names[..n];
  }

  lemma Reassociate(a: string, b: string, c: string, d: string, rest: string)
    ensures a + (b + (c + d)) + rest == a + (b + (c + (d + rest)))
  {
  }

  lemma SectionTextsSplit(s: seq<Slot>, names: seq<string>, n: nat, rest: string)
    requires |names| == n + 1
    ensures SectionTexts(s, names) + rest == SectionTexts(s, names[..n]) + (SectionText(s, names[n]) + rest)
  {
  }

  method IniparserDumpSectionIni(d: Dict, s: string) returns (out: string)
    requires d.Valid() && NUL !in s
    ensures out == SectionText(d.slots, s)
  {
    var found := IniparserFindEntry(d, s);
    if !found {
      return "";
    }
    var body := DumpEntries(d, s + ":");
    out := "\n" + ("[" + s + "]" + "\n" + (body + "\n"));
  }

  lemma FlatStep(s: seq<Slot>, n: nat)
    requires n < |s|
    ensures FlatText(s[..n + 1]) == FlatText(s[..n]) + PrintedFlat(s[n])
  {
    assert s[..n + 1][..n] == s[..n];
  }

  /** The loop of iniparser_dump_ini for a dictionary without sections. */
  method DumpFlat(d: Dict) returns (out: string)
    requires d.Valid()
    ensures out == FlatText(d.slots)
  {
    out := "";
    for i := 0 to d.size
      invariant out == FlatText(d.slots[..i])
    {
      FlatStep(d.slots, i);
      var x := d.SlotAt(i);
      if x.Used? {
        out := out + (x.key + " = " + (if x.val.None? then "(null)" else x.val.value) + "\n");
      }
    }
    assert d.slots[..d.size] == d.slots;
  }

  method IniparserDumpIni(d: Dict?) returns (out: string)
    requires d != null ==> d.Valid()
    requires d != null ==> forall name :: name in SecNames(d.slots) ==> NUL !in name
    ensures out == if d == null then "" else IniText(d.slots)
  {
    if d == null {
      return "";
    }
    var nsec := IniparserGetNSec(d);
    if nsec < 1 {
      out := DumpFlat(d);
      return;
    }
    out := DumpSections(d, nsec);
    out := out + "\n";
  }

  /** The section loop of iniparser_dump_ini. */
  method DumpSections(d: Dict, nsec: nat) returns (out: string)
    requires d.Valid() && nsec == |SecNames(d.slots)|
    requires forall name :: name in SecNames(d.slots) ==> NUL !in name
    ensures out == SectionTexts(d.slots, SecNames(d.slots))
  {
    out := "";
    ghost var s, names := d.slots, SecNames(d.slots);
    for i := 0 to nsec
      invariant out == SectionTexts(s, names[..i])
    {
      SectionTextsStep(s, names, i);
      var secname := IniparserGetSecName(d, i);
      var section := IniparserDumpSectionIni(d, secname.value);
      out := out + section;
    }
    assert names[..nsec] == names;
  }
}
