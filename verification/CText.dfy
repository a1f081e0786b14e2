/** C strings as the INI store uses them: the C-locale character classes, and the two
    helpers of iniparser.c that rewrite a NUL-terminated buffer in place. */
module CText {
  const NUL := '\0'

  /** `isspace` in the C locale: blank, and the five controls from tab to carriage return. */
  predicate IsSpace(c: char) {
    c == ' ' || '\t' <= c <= '\r'
  }

  function ToLower(c: char): char {
    if 'A' <= c <= 'Z' then (c as int + 32) as char else c
  }

  function Lower(s: string): (r: string)
    ensures |r| == |s|
    ensures forall i :: 0 <= i < |s| ==> r[i] == ToLower(s[i])
  {
    seq(|s|, i requires 0 <= i < |s| => ToLower(s[i]))
  }

  /** The blanks of the C locale, one by one. */
  lemma SpaceIs(c: char)
    ensures IsSpace(c) <==> c in {' ', '\t', '\n', '\U{0B}', '\U{0C}', '\r'}
  {
  }

  /** Lower-casing maps the alphabet letter by letter and leaves every other character alone. */
  lemma LowerIs(c: char)
    ensures var upper, lower := "ABCDEFGHIJKLMNOPQRSTUVWXYZ", "abcdefghijklmnopqrstuvwxyz";
            && (forall i :: 0 <= i < 26 && upper[i] == c ==> ToLower(c) == lower[i])
            && (c !in upper ==> ToLower(c) == c)
  {
    var upper := "ABCDEFGHIJKLMNOPQRSTUVWXYZ";
    if 'A' <= c <= 'Z' {
      assert upper[c as int - 65] == c;
    }
  }

  /** Lower case stays. */
  lemma LowerTwice(s: string)
    ensures Lower(Lower(s)) == Lower(s)
  {
  }

  ghost predicate IsLower(s: string) {
    Lower(s) == s
  }

  ghost predicate AllSpace(s: string) {
    forall i :: 0 <= i < |s| ==> IsSpace(s[i])
  }

  /** A string with no blank at either end. */
  ghost predicate Trimmed(s: string) {
    s != "" ==> !IsSpace(s[0]) && !IsSpace(s[|s| - 1])
  }

  function DropSpace(s: string): (r: string) {
    if s != "" && IsSpace(s[0]) then DropSpace(s[1..]) else s
  }

  function DropSpaceEnd(s: string): (r: string) {
    if s != "" && IsSpace(s[|s| - 1]) then DropSpaceEnd(s[..|s| - 1]) else s
  }

  function Trim(s: string): (r: string) {
    DropSpaceEnd(DropSpace(s))
  }

  /** The C string held by a buffer: everything before the first NUL. */
  function CStr(a: seq<char>): (r: string) {
    if a == [] || a[0] == NUL then "" else [a[0]] + CStr(a[1..])
  }

  lemma {:induction false} CStrOf(a: seq<char>, n: nat)
    requires n < |a| && a[n] == NUL && NUL !in a[..n]
    ensures CStr(a) == a[..n]
  {
    if n > 0 {
      assert a[0] == a[..n][0];
      assert a[1..][..n - 1] == a[..n][1..];
      CStrOf(a[1..], n - 1);
    }
  }

  lemma {:induction false} DropSpaceSkips(pad: string, s: string)
    requires AllSpace(pad)
    ensures DropSpace(pad + s) == DropSpace(s)
  {
    if pad == "" {
      assert pad + s == s;
    } else {
      assert (pad + s)[1..] == pad[1..] + s;
      DropSpaceSkips(pad[1..], s);
    }
  }

  lemma {:induction false} DropSpaceEndSkips(s: string, pad: string)
    requires AllSpace(pad)
    ensures DropSpaceEnd(s + pad) == DropSpaceEnd(s)
  {
    if pad == "" {
      assert s + pad == s;
    } else {
      var shorter := pad[..|pad| - 1];
      assert (s + pad)[..|s + pad| - 1] == s + shorter;
      DropSpaceEndSkips(s, shorter);
    }
  }

  /** Trimming removes exactly the blanks around a trimmed core. */
  lemma TrimPadded(front: string, core: string, back: string)
    requires AllSpace(front) && AllSpace(back) && Trimmed(core)
    ensures Trim(front + core + back) == core
  {
    assert front + core + back == front + (core + back);
    DropSpaceSkips(front, core + back);
    if core == "" {
      assert core + back == back + "";
      DropSpaceSkips(back, "");
    } else {
      DropSpaceEndSkips(core, back);
    }
  }

  /** Every string is blanks, a trimmed core, blanks; the core is what Trim returns. */
  lemma {:induction false} TrimSplits(s: string) returns (front: string, back: string)
    ensures s == front + Trim(s) + back
    ensures AllSpace(front) && AllSpace(back) && Trimmed(Trim(s))
  {
    front := DropSpaceSplits(s);
    back := DropSpaceEndSplits(DropSpace(s));
    assert s == front + (Trim(s) + back) == front + Trim(s) + back;
    if Trim(s) != "" {
      assert DropSpace(s)[0] == Trim(s)[0];
    }
  }

  lemma {:induction false} DropSpaceSplits(s: string) returns (front: string)
    ensures s == front + DropSpace(s) && AllSpace(front)
    ensures DropSpace(s) != "" ==> !IsSpace(DropSpace(s)[0])
  {
    if s != "" && IsSpace(s[0]) {
      var f := DropSpaceSplits(s[1..]);
      front := [s[0]] + f;
    } else {
      front := "";
    }
  }

  lemma {:induction false} DropSpaceEndSplits(s: string) returns (back: string)
    ensures s == DropSpaceEnd(s) + back && AllSpace(back)
    ensures DropSpaceEnd(s) != "" ==> !IsSpace(DropSpaceEnd(s)[|DropSpaceEnd(s)| - 1])
  {
    if s != "" && IsSpace(s[|s| - 1]) {
      var b := DropSpaceEndSplits(s[..|s| - 1]);
      back := b + [s[|s| - 1]];
    } else {
      back := "";
    }
  }

  lemma TrimmedUnchanged(s: string)
    requires Trimmed(s)
    ensures Trim(s) == s
  {
    assert "" + s + "" == s;
    TrimPadded("", s, "");
  }

  method StrLen(s: array<char>) returns (n: nat)
    requires NUL in s[..]
    ensures n < s.Length && s[n] == NUL && NUL !in s[..n]
    ensures CStr(s[..]) == s[..n]
  {
    n := 0;
    while s[n] != NUL
      invariant n < s.Length && NUL !in s[..n] && NUL in s[n..]
      decreases s.Length - n
    {
      assert s[n..] == [s[n]] + s[n + 1..];
      n := n + 1;
    }
    CStrOf(s[..], n);
    assert s[..][..n] == s[..n];
  }

  /** strlwc: lower-case a buffer up to its terminator. */
  method StrLwc(s: array<char>)
    requires NUL in s[..]
    modifies s
    ensures CStr(s[..]) == Lower(old(CStr(s[..])))
    ensures NUL in s[..]
    ensures forall k :: |old(CStr(s[..]))| <= k < s.Length ==> s[k] == old(s[k])
  {
    var n := StrLen(s);
    var i := 0;
    while s[i] != NUL
      invariant 0 <= i <= n
      invariant forall k :: 0 <= k < i ==> s[k] == ToLower(old(s[k])) && s[k] != NUL
      invariant forall k :: i <= k < s.Length ==> s[k] == old(s[k])
      decreases n - i
    {
      assert s[i] == old(s[..n])[i];
      s[i] := ToLower(s[i]);
      i := i + 1;
    }
    CStrOf(s[..], n);
    assert s[..n] == Lower(old(s[..n]));
  }

  /** A text is trimmed to what lies between the blanks at its ends. */
  lemma TrimIs(a: seq<char>, n: nat, first: nat, last: nat)
    requires first <= last <= n <= |a|
    requires forall k :: 0 <= k < first || last <= k < n ==> IsSpace(a[k])
    requires first < last ==> !IsSpace(a[first]) && !IsSpace(a[last - 1])
    ensures Trim(a[..n]) == a[first..last]
  {
    assert a[..first] + a[first..last] + a[last..n] == a[..n];
    TrimPadded(a[..first], a[first..last], a[last..n]);
  }

  /** strstrip: cut the blanks at both ends and move what is left to the front. */
  method StrStrip(s: array<char>)
    requires NUL in s[..]
    modifies s
    ensures CStr(s[..]) == Trim(old(CStr(s[..])))
    ensures NUL in s[..]
    ensures forall k :: |old(CStr(s[..]))| < k < s.Length ==> s[k] == old(s[k])
  {
    var n := StrLen(s);
    var first, last := 0, n;
    while IsSpace(s[first]) && s[first] != NUL
      invariant first <= n
      invariant forall k :: 0 <= k < first ==> IsSpace(s[k])
      decreases n - first
    {
      first := first + 1;
    }
    while last > first
      invariant first <= last <= n
      invariant forall k :: last <= k < n ==> IsSpace(s[k])
    {
      if !IsSpace(s[last - 1]) {
        break;
      }
      last := last - 1;
    }
    TrimIs(s[..], n, first, last);
    MoveDown(s, first, last);
  }

  /** The tail of strstrip: terminate at `last` and memmove the text to the front. */
  method MoveDown(s: array<char>, first: nat, last: nat)
    requires first <= last < s.Length && NUL !in s[first..last]
    modifies s
    ensures CStr(s[..]) == old(s[first..last])
    ensures NUL in s[..]
    ensures forall k :: last < k < s.Length ==> s[k] == old(s[k])
  {
    ghost var text := s[first..last];
    s[last] := NUL;
    forall k | 0 <= k <= last - first {
      s[k] := s[first + k];
    }
    assert s[last - first] == NUL;
    assert s[..last - first] == text;
    CStrOf(s[..], last - first);
  }

  /** xstrdup: a fresh buffer holding a NUL-free string and its terminator. */
  method Duplicate(s: string) returns (a: array<char>)
    requires NUL !in s
    ensures fresh(a) && a.Length == |s| + 1 && NUL in a[..]
    ensures CStr(a[..]) == s
  {
    a := new char[|s| + 1](i requires 0 <= i < |s| + 1 => if i < |s| then s[i] else NUL);
    assert a[..|s|] == s;
    assert a[|s|] == NUL;
    CStrOf(a[..], |s|);
  }

  method BufferText(a: array<char>) returns (s: string)
    requires NUL in a[..]
    ensures s == CStr(a[..]) && NUL !in s
  {
    var n := StrLen(a);
    s := a[..n];
  }

  /** The duplicate-then-strip and duplicate-then-lower-case steps of iniparser.c. */
  method StripCopy(s: string) returns (r: string)
    requires NUL !in s
    ensures r == Trim(s) && NUL !in r
  {
    var a := Duplicate(s);
    StrStrip(a);
    r := BufferText(a);
  }

  method LowerCopy(s: string) returns (r: string)
    requires NUL !in s
    ensures r == Lower(s) && NUL !in r
  {
    var a := Duplicate(s);
    StrLwc(a);
    r := BufferText(a);
  }
}
