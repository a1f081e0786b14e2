/** A dictionary without sections: iniparser_dump_ini prints its keys in full, and loading
    puts every one of them under the nameless section. */
module IniFlat {
  import opened Common
  import opened CText
  import opened Dictionary
  import opened IniLine
  import opened IniLoad
  import opened IniDump
  import opened IniReload

  /** Every key reads back as a name, every value stays on its line, and the line fits. */
  ghost predicate FlatReadableAt(x: Slot)
    requires x.Used?
  {
    && GoodName(x.key) && '\n' !in Shown(x.val) && !EndsInBackslash(Shown(x.val))
    && |x.key + " = " + Shown(x.val)| <= ASCIILINESZ - 2
  }

  ghost predicate FlatReadable(s: seq<Slot>) {
    forall i :: 0 <= i < |s| && s[i].Used? ==> FlatReadableAt(s[i])
  }

  /** The loader's state after one printed slot. */
  function AfterFlatSlot(p: Load, x: Slot): Load {
    if x.Used? then Load(p.section, p.dict[p.section + ":" + x.key := Some(Reread(Shown(x.val)))], 0) else p
  }

  function AfterFlat(s: seq<Slot>): Load {
    if s == [] then EMPTY else AfterFlatSlot(AfterFlat(s[..|s| - 1]), s[|s| - 1])
  }

  lemma FlatParses(name: string, t: string)
    requires GoodName(name) && !EndsInBackslash(t)
    ensures !Continues(name + " = " + t)
    ensures LineOf(Piece(name + " = " + t)) == LineValue(name, Reread(t))
  {
    assert name + "" == name;
    LineBody(name, "", t);
    LineParses(name, "", t);
  }

  lemma ReadFlatLine(p: Load, name: string, t: string, rest: string)
    requires GoodName(name) && '\n' !in t && !EndsInBackslash(t) && |name + " = " + t| <= ASCIILINESZ - 2
    ensures Outcome(p, LogicalLines(name + " = " + t + "\n" + rest, "")) ==
            Outcome(Step(p, LineValue(name, Reread(t))), LogicalLines(rest, ""))
  {
    FlatParses(name, t);
    ReadWhole(p, name + " = " + t, rest);
  }

  lemma ReadFlatSlot(p: Load, x: Slot, rest: string)
    requires x.Used? ==> FlatReadableAt(x)
    ensures Outcome(p, LogicalLines(PrintedFlat(x) + rest, "")) == Outcome(AfterFlatSlot(p, x), LogicalLines(rest, ""))
  {
    if x.Used? {
      var text := Shown(x.val);
      assert PrintedFlat(x) == x.key + " = " + text + "\n";
      ReadFlatLine(p, x.key, text, rest);
      FlatStepIs(p, x);
    } else {
      assert "" + rest == rest;
    }
  }

  lemma FlatStepIs(p: Load, x: Slot)
    requires x.Used?
    ensures Step(p, LineValue(x.key, Reread(Shown(x.val)))) == AfterFlatSlot(p, x)
  {
  }

  lemma FlatSplit(s: seq<Slot>, rest: string)
    requires s != []
    ensures FlatText(s) + rest == FlatText(s[..|s| - 1]) + (PrintedFlat(s[|s| - 1]) + rest)
  {
    Joins(FlatText(s[..|s| - 1]), PrintedFlat(s[|s| - 1]), rest);
  }

  lemma Joins(a: string, b: string, c: string)
    ensures (a + b) + c == a + (b + c)
  {
  }

  lemma {:induction false} ReadFlat(s: seq<Slot>, rest: string)
    requires FlatReadable(s)
    ensures Outcome(EMPTY, LogicalLines(FlatText(s) + rest, "")) == Outcome(AfterFlat(s), LogicalLines(rest, ""))
    decreases |s|
  {
    if s == [] {
      assert "" + rest == rest;
    } else {
      var n := |s| - 1;
      FlatSplit(s, rest);
      ReadFlat(s[..n], PrintedFlat(s[n]) + rest);
      ReadFlatSlot(AfterFlat(s[..n]), s[n], rest);
    }
  }

  lemma {:induction false} FlatState(s: seq<Slot>, key: string)
    ensures AfterFlat(s).section == "" && AfterFlat(s).errs == 0
    ensures key in AfterFlat(s).dict <==> key != "" && key[0] == ':' && key[1..] in Keys(s)
  {
    if s != [] {
      var n := |s| - 1;
      FlatState(s[..n], key);
      assert Keys(s) == Keys(s[..n]) + if s[n].Used? then {s[n].key} else {};
      if s[n].Used? {
        assert "" + ":" + s[n].key == ":" + s[n].key;
        assert key != "" && key[0] == ':' ==> key == ":" + key[1..];
      }
    }
  }

  /** What a dictionary without sections, its lines readable, loads back as: every key behind a
      colon. */
  lemma FlatReloads(s: seq<Slot>, key: string)
    requires SecNames(s) == [] && FlatReadable(s)
    ensures LoadFile(IniText(s)).Loads?
    ensures key in LoadFile(IniText(s)).dict <==> key != "" && key[0] == ':' && key[1..] in Keys(s)
  {
    assert IniText(s) == FlatText(s) + "";
    ReadFlat(s, "");
    FlatState(s, key);
    ReadNothing(AfterFlat(s));
  }
}
