/** dictionary.c: string-to-string storage in parallel arrays, with a cached hash per slot,
    a wrap-around insertion probe and growth by doubling.  The class is proved against
    functions on the slot sequence; the lemmas show that those functions are a finite map. */
module Dictionary {
  import opened Common
  import opened CText

  datatype Slot = Free | Used(key: string, val: Option<string>)

  const DICTMINSZ := 128

  // ----- the slot sequence -----

  function UsedCount(s: seq<Slot>): (n: nat)
    ensures n <= |s|
  {
    if s == [] then 0 else (if s[0].Used? then 1 else 0) + UsedCount(s[1..])
  }

  /** No key is stored twice. */
  ghost predicate Distinct(s: seq<Slot>) {
    forall i, j :: 0 <= i < j < |s| && s[i].Used? && s[j].Used? ==> s[i].key != s[j].key
  }

  /** The first slot holding `key`, or |s|. */
  function IndexOf(s: seq<Slot>, key: string): (i: nat)
    ensures i <= |s|
    ensures i < |s| ==> s[i].Used? && s[i].key == key
    ensures forall j :: 0 <= j < i ==> !(s[j].Used? && s[j].key == key)
  {
    if s == [] || (s[0].Used? && s[0].key == key) then 0 else 1 + IndexOf(s[1..], key)
  }

  function FirstFree(s: seq<Slot>): (i: nat)
    ensures i <= |s|
    ensures i < |s| ==> s[i].Free?
    ensures forall j :: 0 <= j < i ==> s[j].Used?
  {
    if s == [] || s[0].Free? then 0 else 1 + FirstFree(s[1..])
  }

  /** The first free slot at or after `start`, wrapping at the end. */
  function Probe(s: seq<Slot>, start: nat): (i: nat)
    requires start < |s| && UsedCount(s) < |s|
    ensures i < |s| && s[i].Free?
    ensures forall j :: start <= j < (if start <= i then i else |s|) ==> s[j].Used?
    ensures i < start ==> forall j :: 0 <= j < i ==> s[j].Used?
  {
    var i := start + FirstFree(s[start..]);
    if i < |s| then i else (FullMeansFull(s); FirstFree(s))
  }

  function Grown(s: seq<Slot>): (g: seq<Slot>)
    ensures |s| <= |g| && g[..|s|] == s
    ensures forall i :: |s| <= i < |g| ==> g[i].Free?
  {
    if UsedCount(s) == |s| then s + seq(|s|, _ => Free) else s
  }

  function GetSlots(s: seq<Slot>, key: string, def: Option<string>): Option<string> {
    var i := IndexOf(s, key);
    if i < |s| then s[i].val else def
  }

  function SetSlots(s: seq<Slot>, key: string, val: Option<string>): (r: seq<Slot>)
    requires s != []
    ensures |s| <= |r|
  {
    var i := IndexOf(s, key);
    if i < |s| then s[i := Used(key, val)]
    else
      GrownCount(s);
      var g := Grown(s);
      g[Probe(g, UsedCount(s)) := Used(key, val)]
  }

  function UnsetSlots(s: seq<Slot>, key: string): (r: seq<Slot>)
    ensures |r| == |s|
  {
    var i := IndexOf(s, key);
    if i < |s| then s[i := Free] else s
  }

  function NewSlots(size: nat): (s: seq<Slot>)
    ensures |s| == (if size < 128 then 128 else size) && forall i :: 0 <= i < |s| ==> s[i].Free?
  {
    seq(if size < DICTMINSZ then DICTMINSZ else size, _ => Free)
  }

  // ----- counting -----

  /** Pigeonhole: if every slot is used the count is the length, otherwise it is less. */
  lemma {:induction false} FullMeansFull(s: seq<Slot>)
    ensures UsedCount(s) == |s| <==> forall i :: 0 <= i < |s| ==> s[i].Used?
  {
    if s != [] {
      FullMeansFull(s[1..]);
      assert forall i :: 1 <= i < |s| ==> s[i] == s[1..][i - 1];
    }
  }

  lemma {:induction false} CountAppend(a: seq<Slot>, b: seq<Slot>)
    ensures UsedCount(a + b) == UsedCount(a) + UsedCount(b)
  {
    if a == [] {
      assert a + b == b;
    } else {
      assert (a + b)[1..] == a[1..] + b;
      CountAppend(a[1..], b);
    }
  }

  lemma {:induction false} CountFree(s: seq<Slot>)
    requires forall i :: 0 <= i < |s| ==> s[i].Free?
    ensures UsedCount(s) == 0
  {
    if s != [] { CountFree(s[1..]); }
  }

  lemma CountUpdate(s: seq<Slot>, i: nat, x: Slot)
    requires i < |s|
    ensures UsedCount(s[i := x]) ==
            UsedCount(s) - (if s[i].Used? then 1 else 0) + (if x.Used? then 1 else 0)
  {
    assert s == s[..i] + ([s[i]] + s[i + 1..]);
    assert s[i := x] == s[..i] + ([x] + s[i + 1..]);
    CountAppend(s[..i], [s[i]] + s[i + 1..]);
    CountAppend(s[..i], [x] + s[i + 1..]);
  }

  /** Growing leaves a free slot, keeps every slot where it was and changes no count. */
  lemma GrownCount(s: seq<Slot>)
    requires s != []
    ensures UsedCount(Grown(s)) == UsedCount(s) < |Grown(s)|
  {
    var tail: seq<Slot> := seq(|s|, _ => Free);
    CountFree(tail);
    CountAppend(s, tail);
  }

  // ----- the map denoted by the slots -----

  function Keys(s: seq<Slot>): set<string> {
    set i | 0 <= i < |s| && s[i].Used? :: s[i].key
  }

  function Contents(s: seq<Slot>): map<string, Option<string>> {
    map k | k in Keys(s) :: GetSlots(s, k, None)
  }

  lemma ContentsAt(s: seq<Slot>, i: nat)
    requires Distinct(s) && i < |s| && s[i].Used?
    ensures s[i].key in Contents(s) && Contents(s)[s[i].key] == s[i].val
    ensures IndexOf(s, s[i].key) == i
  {
    assert s[i].key in Keys(s);
  }

  /** dictionary_get returns the mapped value or the default. */
  lemma GetRefinesMap(s: seq<Slot>, key: string, def: Option<string>)
    ensures GetSlots(s, key, def) == if key in Contents(s) then Contents(s)[key] else def
  {
    var i := IndexOf(s, key);
    if i < |s| {
      assert s[i].key in Keys(s);
    }
  }

  lemma SameContents(s: seq<Slot>, m: map<string, Option<string>>)
    requires Distinct(s)
    requires forall i :: 0 <= i < |s| && s[i].Used? ==> s[i].key in m && m[s[i].key] == s[i].val
    requires forall k :: k in m ==> exists i :: 0 <= i < |s| && s[i].Used? && s[i].key == k
    ensures Contents(s) == m
  {
    forall k | k in m
      ensures k in Contents(s) && Contents(s)[k] == m[k]
    {
      var i :| 0 <= i < |s| && s[i].Used? && s[i].key == k;
      ContentsAt(s, i);
    }
  }

  /** Writing a binding for `key` into slot p, which is free or already holds `key`. */
  lemma WriteRefinesMap(s: seq<Slot>, p: nat, key: string, val: Option<string>)
    requires Distinct(s) && p < |s|
    requires forall j :: 0 <= j < |s| && j != p && s[j].Used? ==> s[j].key != key
    requires s[p].Used? ==> s[p].key == key
    ensures Distinct(s[p := Used(key, val)])
    ensures Contents(s[p := Used(key, val)]) == Contents(s)[key := val]
    ensures key in Contents(s) <==> s[p].Used?
  {
    var r := s[p := Used(key, val)];
    var m := Contents(s)[key := val];
    forall j | 0 <= j < |r| && r[j].Used?
      ensures r[j].key in m && m[r[j].key] == r[j].val
    {
      if j != p { ContentsAt(s, j); }
    }
    forall k | k in m
      ensures exists j :: 0 <= j < |r| && r[j].Used? && r[j].key == k
    {
      if k == key {
        assert r[p].key == k;
      } else {
        var j :| 0 <= j < |s| && s[j].Used? && s[j].key == k;
        assert r[j] == s[j];
      }
    }
    SameContents(r, m);
    if s[p].Used? { ContentsAt(s, p); }
  }

  /** Doubling preserves every binding at its index. */
  lemma GrownContents(s: seq<Slot>)
    requires Distinct(s)
    ensures Distinct(Grown(s)) && Contents(Grown(s)) == Contents(s)
  {
    var g := Grown(s);
    assert forall j :: 0 <= j < |g| && g[j].Used? ==> j < |s| && g[j] == g[..|s|][j];
    forall j | 0 <= j < |g| && g[j].Used?
      ensures g[j].key in Contents(s) && Contents(s)[g[j].key] == g[j].val
    {
      ContentsAt(s, j);
    }
    forall k | k in Contents(s)
      ensures exists j :: 0 <= j < |g| && g[j].Used? && g[j].key == k
    {
      var j :| 0 <= j < |s| && s[j].Used? && s[j].key == k;
      assert g[j] == g[..|s|][j];
    }
    SameContents(g, Contents(s));
  }

  /** Setting an absent key. */
  lemma SetNewRefinesMap(s: seq<Slot>, key: string, val: Option<string>)
    requires s != [] && Distinct(s) && IndexOf(s, key) == |s|
    ensures Distinct(SetSlots(s, key, val))
    ensures Contents(SetSlots(s, key, val)) == Contents(s)[key := val] && key !in Contents(s)
    ensures UsedCount(SetSlots(s, key, val)) == UsedCount(s) + 1
    ensures forall i :: 0 <= i < |s| && s[i].Used? ==> SetSlots(s, key, val)[i] == s[i]
  {
    GrownCount(s);
    GrownContents(s);
    var g := Grown(s);
    assert forall j :: 0 <= j < |s| ==> g[j] == g[..|s|][j];
    var p := Probe(g, UsedCount(s));
    CountUpdate(g, p, Used(key, val));
    WriteRefinesMap(g, p, key, val);
  }

  /** dictionary_set is map update: it binds one key, moves no other binding, keeps keys
      distinct and counts the new entry exactly when the key was absent. */
  lemma SetRefinesMap(s: seq<Slot>, key: string, val: Option<string>)
    requires s != [] && Distinct(s)
    ensures Distinct(SetSlots(s, key, val))
    ensures Contents(SetSlots(s, key, val)) == Contents(s)[key := val]
    ensures UsedCount(SetSlots(s, key, val)) == UsedCount(s) + (if key in Contents(s) then 0 else 1)
    ensures forall i :: 0 <= i < |s| && s[i].Used? && s[i].key != key ==> SetSlots(s, key, val)[i] == s[i]
  {
    var i := IndexOf(s, key);
    if i < |s| {
      CountUpdate(s, i, Used(key, val));
      assert forall j :: 0 <= j < |s| && j != i && s[j].Used? ==> s[j].key != key;
      WriteRefinesMap(s, i, key, val);
    } else {
      SetNewRefinesMap(s, key, val);
    }
  }

  /** The table doubles exactly when a new key finds every slot used. */
  lemma GrowsWhenFull(s: seq<Slot>, key: string, val: Option<string>)
    requires s != []
    ensures |SetSlots(s, key, val)| ==
            if (forall j :: 0 <= j < |s| ==> s[j].Used?) && (forall j :: 0 <= j < |s| ==> s[j].key != key)
            then 2 * |s| else |s|
  {
    FullMeansFull(s);
    var i := IndexOf(s, key);
    if i < |s| {
      assert s[i].key == key;
    }
  }

  /** A new key goes to the first free slot from the count on, wrapping at the end of the table, and
      nothing else changes. */
  lemma NewKeyLands(s: seq<Slot>, key: string, val: Option<string>) returns (i: nat)
    requires s != [] && IndexOf(s, key) == |s|
    ensures var r, n := SetSlots(s, key, val), UsedCount(s);
            && i < |r| && r[i] == Used(key, val) && (i < |s| ==> s[i].Free?)
            && (forall j :: 0 <= j < |r| && j != i ==> r[j] == if j < |s| then s[j] else Free)
            && (forall j :: n <= j < (if n <= i then i else |r|) ==> r[j].Used?)
            && (i < n ==> forall j :: 0 <= j < i ==> r[j].Used?)
  {
    GrownCount(s);
    var g := Grown(s);
    i := Probe(g, UsedCount(s));
    assert forall j :: 0 <= j < |s| ==> g[j] == g[..|s|][j];
  }

  /** dictionary_unset is map removal. */
  lemma UnsetRefinesMap(s: seq<Slot>, key: string)
    requires Distinct(s)
    ensures Distinct(UnsetSlots(s, key))
    ensures Contents(UnsetSlots(s, key)) == Contents(s) - {key}
    ensures UsedCount(UnsetSlots(s, key)) == UsedCount(s) - (if key in Contents(s) then 1 else 0)
  {
    var r := UnsetSlots(s, key);
    var i := IndexOf(s, key);
    GetRefinesMap(s, key, None);
    if i < |s| {
      ContentsAt(s, i);
      CountUpdate(s, i, Free);
    }
    var m := Contents(s) - {key};
    forall j | 0 <= j < |r| && r[j].Used?
      ensures r[j].key in m && m[r[j].key] == r[j].val
    {
      ContentsAt(s, j);
    }
    forall k | k in m
      ensures exists j :: 0 <= j < |r| && r[j].Used? && r[j].key == k
    {
      var j :| 0 <= j < |s| && s[j].Used? && s[j].key == k;
      assert r[j] == s[j];
    }
    SameContents(r, m);
  }

  lemma {:induction false} KeysCons(s: seq<Slot>)
    requires s != []
    ensures Keys(s) == (if s[0].Used? then {s[0].key} else {}) + Keys(s[1..])
  {
    assert forall i :: 0 <= i < |s[1..]| ==> s[1..][i] == s[i + 1];
    forall k | k in Keys(s)
      ensures k in (if s[0].Used? then {s[0].key} else {}) + Keys(s[1..])
    {
      var i :| 0 <= i < |s| && s[i].Used? && s[i].key == k;
      if i > 0 { assert s[1..][i - 1] == s[i]; }
    }
  }

  lemma {:induction false} KeysSize(s: seq<Slot>)
    requires Distinct(s)
    ensures |Keys(s)| == UsedCount(s)
  {
    if s != [] {
      KeysCons(s);
      KeysSize(s[1..]);
      assert forall i :: 0 <= i < |s[1..]| ==> s[1..][i] == s[i + 1];
    }
  }

  /** The map has one binding per occupied slot. */
  lemma ContentsSize(s: seq<Slot>)
    requires Distinct(s)
    ensures |Contents(s)| == UsedCount(s)
  {
    assert Contents(s).Keys == Keys(s);
    KeysSize(s);
  }

  // ----- any sequence of operations -----

  datatype Op =
    | OpSet(key: string, val: Option<string>)
    | OpUnset(key: string)
    | OpGet(key: string, def: Option<string>)

  function RunSlots(s: seq<Slot>, ops: seq<Op>): (r: (seq<Slot>, seq<Option<string>>))
    requires s != []
    ensures r.0 != []
    decreases |ops|
  {
    if ops == [] then (s, [])
    else match ops[0]
      case OpSet(k, v) => RunSlots(SetSlots(s, k, v), ops[1..])
      case OpUnset(k) => RunSlots(UnsetSlots(s, k), ops[1..])
      case OpGet(k, d) =>
        var rest := RunSlots(s, ops[1..]);
        (rest.0, [GetSlots(s, k, d)] + rest.1)
  }

  /** The same operations on a plain finite map. */
  function RunMap(m: map<string, Option<string>>, ops: seq<Op>): (r: (map<string, Option<string>>, seq<Option<string>>))
    decreases |ops|
  {
    if ops == [] then (m, [])
    else match ops[0]
      case OpSet(k, v) => RunMap(m[k := v], ops[1..])
      case OpUnset(k) => RunMap(m - {k}, ops[1..])
      case OpGet(k, d) =>
        var rest := RunMap(m, ops[1..]);
        (rest.0, [if k in m then m[k] else d] + rest.1)
  }

  /** Over every sequence of operations the slots keep distinct keys, denote the map the
      same operations build, and every get observes that map. */
  lemma {:induction false} RunRefinesMap(s: seq<Slot>, ops: seq<Op>)
    requires s != [] && Distinct(s)
    ensures Distinct(RunSlots(s, ops).0)
    ensures Contents(RunSlots(s, ops).0) == RunMap(Contents(s), ops).0
    ensures RunSlots(s, ops).1 == RunMap(Contents(s), ops).1
    decreases |ops|
  {
    if ops != [] {
      match ops[0] {
        case OpSet(k, v) =>
          SetRefinesMap(s, k, v);
          RunRefinesMap(SetSlots(s, k, v), ops[1..]);
        case OpUnset(k) =>
          UnsetRefinesMap(s, k);
          RunRefinesMap(UnsetSlots(s, k), ops[1..]);
        case OpGet(k, d) =>
          GetRefinesMap(s, k, d);
          RunRefinesMap(s, ops[1..]);
      }
    }
  }

  /** The run theorem from dictionary_new, for every requested size. */
  lemma RunFromNew(size: nat, ops: seq<Op>)
    ensures Contents(RunSlots(NewSlots(size), ops).0) == RunMap(map[], ops).0
    ensures RunSlots(NewSlots(size), ops).1 == RunMap(map[], ops).1
    ensures UsedCount(RunSlots(NewSlots(size), ops).0) == |RunMap(map[], ops).0|
  {
    RunRefinesMap(NewSlots(size), ops);
    assert Contents(NewSlots(size)) == map[];
    ContentsSize(RunSlots(NewSlots(size), ops).0);
  }

  // ----- the hash -----

  /** `a ^ b` on non-negative integers. */
  function Xor(a: nat, b: nat): nat {
    if a == 0 && b == 0 then 0 else 2 * Xor(a / 2, b / 2) + (a + b) % 2
  }

  /** `hash += (unsigned)c; hash += hash<<10; hash ^= hash>>6` in 32-bit unsigned arithmetic,
      with plain char unsigned as on ARM. */
  function HashRound(h: nat, c: char): nat {
    var a := (h + c as int % 0x100) % WORD;
    var b := (a + a * 1024) % WORD;
    Xor(b, b / 64)
  }

  function HashPrefix(key: string): nat {
    if key == "" then 0 else HashRound(HashPrefix(key[..|key| - 1]), key[|key| - 1])
  }

  function HashOf(key: string): nat {
    var a := HashPrefix(key);
    var b := (a + a * 8) % WORD;
    var c := Xor(b, b / 2048);
    (c + c * 32768) % WORD
  }

  method DictionaryHash(key: string) returns (hash: nat)
    ensures hash == HashOf(key)
  {
    hash := 0;
    for i := 0 to |key|
      invariant hash == HashPrefix(key[..i])
    {
      assert key[..i + 1][..i] == key[..i];
      hash := (hash + key[i] as int % 0x100) % WORD;
      hash := (hash + hash * 1024) % WORD;
      hash := Xor(hash, hash / 64);
    }
    assert key[..|key|] == key;
    hash := (hash + hash * 8) % WORD;
    hash := Xor(hash, hash / 2048);
    hash := (hash + hash * 32768) % WORD;
  }

  // ----- the object -----

  /** The slots held by a key array and a value array of the same length. */
  function SlotsOf(keys: seq<Option<string>>, vals: seq<Option<string>>): (s: seq<Slot>)
    requires |keys| == |vals|
    ensures |s| == |keys|
    ensures forall i :: 0 <= i < |s| ==> s[i] == if keys[i].None? then Free else Used(keys[i].value, vals[i])
  {
    seq(|keys|, i requires 0 <= i < |keys| => if keys[i].None? then Free else Used(keys[i].value, vals[i]))
  }

  lemma SlotsOfWrite(keys: seq<Option<string>>, vals: seq<Option<string>>, i: nat, k: Option<string>, v: Option<string>)
    requires |keys| == |vals| && i < |keys|
    ensures SlotsOf(keys[i := k], vals[i := v]) ==
            SlotsOf(keys, vals)[i := if k.None? then Free else Used(k.value, v)]
  {
  }

  /** The arrays of a dictionary with n entries: the slots they hold have distinct keys, n
      counts the occupied ones, every cached hash is the hash of its key, and a free slot
      holds no value. */
  ghost predicate Stored(n: nat, keys: seq<Option<string>>, vals: seq<Option<string>>,
                         hashes: seq<nat>, slots: seq<Slot>) {
    && |keys| == |vals| == |hashes|
    && slots == SlotsOf(keys, vals)
    && Distinct(slots)
    && n == UsedCount(slots)
    && (forall i :: 0 <= i < |keys| && keys[i].Some? ==> hashes[i] == HashOf(keys[i].value))
    && (forall i :: 0 <= i < |keys| && keys[i].None? ==> vals[i].None?)
  }

  /** Slot i is the only one that may hold `key`. */
  ghost predicate OnlyAt(s: seq<Slot>, key: string, i: nat) {
    forall j :: 0 <= j < |s| && j != i && s[j].Used? ==> s[j].key != key
  }

  lemma StoredWrite(n: nat, keys: seq<Option<string>>, vals: seq<Option<string>>, hashes: seq<nat>, slots: seq<Slot>,
                    i: nat, k: Option<string>, v: Option<string>, h: nat)
    requires Stored(n, keys, vals, hashes, slots) && i < |keys|
    requires if k.Some? then h == HashOf(k.value) && OnlyAt(slots, k.value, i) else v.None?
    ensures var x := if k.None? then Free else Used(k.value, v);
            && Stored(UsedCount(slots[i := x]), keys[i := k], vals[i := v], hashes[i := h], slots[i := x])
            && UsedCount(slots[i := x]) == n - (if keys[i].Some? then 1 else 0) + (if k.Some? then 1 else 0)
  {
    var x := if k.None? then Free else Used(k.value, v);
    SlotsOfWrite(keys, vals, i, k, v);
    CountUpdate(slots, i, x);
  }

  lemma StoredGrown(n: nat, keys: seq<Option<string>>, vals: seq<Option<string>>, hashes: seq<nat>, slots: seq<Slot>,
                    keys': seq<Option<string>>, vals': seq<Option<string>>, hashes': seq<nat>)
    requires Stored(n, keys, vals, hashes, slots) && n == |slots| > 0
    requires |keys'| == |vals'| == |hashes'| == 2 * n
    requires keys <= keys' && vals <= vals' && hashes <= hashes'
    requires forall i :: n <= i < 2 * n ==> keys'[i].None? && vals'[i].None?
    ensures Stored(n, keys', vals', hashes', Grown(slots))
  {
    GrownCount(slots);
    GrownContents(slots);
    var s := SlotsOf(keys', vals');
    assert s == Grown(slots);
  }

  /** mem_double: a fresh block of twice the size, the old elements first, then zeroes. */
  method MemDouble<T>(ptr: array<T>, zero: T) returns (newptr: array<T>)
    ensures fresh(newptr)
    ensures newptr.Length == 2 * ptr.Length && newptr[..] == ptr[..] + seq(ptr.Length, _ => zero)
  {
    newptr := new T[2 * ptr.Length](i requires 0 <= i reads ptr => if i < ptr.Length then ptr[i] else zero);
  }

  class Dict {
    var n: nat
    var size: nat
    var val: array<Option<string>>
    var key: array<Option<string>>
    var hash: array<nat>
    ghost var slots: seq<Slot>

    ghost var Repr: set<object>

    ghost predicate Valid()
      reads this, Repr
      ensures Valid() ==> this in Repr
    {
      && Repr == {this, val, key, hash}
      && val.Length == key.Length == hash.Length == size == |slots|
      && size >= DICTMINSZ
      && val != key && (hash as object) != (val as object) && (hash as object) != (key as object)
      && Stored(n, key[..], val[..], hash[..], slots)
    }

    constructor (size: nat)
      ensures Valid() && fresh(Repr)
      ensures slots == NewSlots(size)
    {
      var m := if size < DICTMINSZ then DICTMINSZ else size;
      this.n := 0;
      this.size := m;
      this.val := new Option<string>[m](_ => None);
      this.key := new Option<string>[m](_ => None);
      this.hash := new nat[m](_ => 0);
      this.slots := NewSlots(size);
      new;
      Repr := {this, val, key, hash};
      CountFree(slots);
    }

    /** The scan shared by get, set and unset: skip free slots, compare hash, then key. */
    method Search(k: string) returns (i: nat)
      requires Valid()
      ensures i == IndexOf(slots, k)
    {
      var h := DictionaryHash(k);
      i := 0;
      while i < size
        invariant i <= size
        invariant forall j :: 0 <= j < i ==> !(slots[j].Used? && slots[j].key == k)
      {
        if key[i].Some? && h == hash[i] && key[i].value == k {
          break;
        }
        assert key[..][i] == key[i] && hash[..][i] == hash[i];
        i := i + 1;
      }
      assert i < size ==> key[..][i] == key[i];
      IndexIs(slots, k, i);
    }

    method Get(k: string, def: Option<string>) returns (r: Option<string>)
      requires Valid()
      ensures r == GetSlots(slots, k, def)
    {
      var i := Search(k);
      r := if i < size then val[i] else def;
    }

    /** `d->key[i]` and `d->val[i]`, as the enumeration loops read them. */
    method SlotAt(i: nat) returns (x: Slot)
      requires Valid() && i < size
      ensures x == slots[i]
    {
      x := if key[i].None? then Free else Used(key[i].value, val[i]);
    }

    /** Double the three arrays: every slot keeps its index, key, value and hash. */
    method Double()
      requires Valid() && n == size
      modifies this
      ensures Valid() && fresh(Repr - {this})
      ensures n == old(n) && size == 2 * old(size)
      ensures slots == Grown(old(slots))
      ensures hash[..] == old(hash[..]) + seq(old(size), _ => 0)
    {
      ghost var ks, vs, hs := key[..], val[..], hash[..];
      val := MemDouble(val, None);
      key := MemDouble(key, None);
      hash := MemDouble(hash, 0);
      size := 2 * size;
      StoredGrown(n, ks, vs, hs, slots, key[..], val[..], hash[..]);
      slots := Grown(slots);
      Repr := {this, val, key, hash};
    }

    /** The insertion probe: from slot n, wrapping, to the first free slot; it ends within
        size steps because n < size leaves a free slot. */
    method FindFree() returns (i: nat, ghost steps: nat)
      requires Valid() && n < size
      ensures i == Probe(slots, n) && steps < size
      ensures i == if n + steps < size then n + steps else n + steps - size
    {
      ghost var target := Probe(slots, n);
      ghost var total := if n <= target then target - n else target - n + size;
      i, steps := n, 0;
      while key[i].Some?
        invariant 0 <= i < size && steps <= total
        invariant i == if n + steps < size then n + steps else n + steps - size
        decreases total - steps
      {
        assert slots[i].Used?;
        i := i + 1;
        if i == size {
          i := 0;
        }
        steps := steps + 1;
      }
      assert slots[i].Free?;
    }

    /** Overwrite one slot; the caller says how the count moves. */
    method Write(i: nat, k: Option<string>, v: Option<string>, h: nat, count: nat)
      requires Valid() && i < size
      requires if k.Some? then h == HashOf(k.value) && OnlyAt(slots, k.value, i) else v.None?
      requires count == n - (if slots[i].Used? then 1 else 0) + (if k.Some? then 1 else 0)
      modifies this`n, this`slots, key, val, hash
      ensures Valid() && Repr == old(Repr) && n == count
      ensures slots == old(slots)[i := if k.None? then Free else Used(k.value, v)]
    {
      ghost var ks, vs, hs := key[..], val[..], hash[..];
      StoredWrite(n, ks, vs, hs, slots, i, k, v, h);
      key[i] := k;
      val[i] := v;
      hash[i] := h;
      n := count;
      slots := slots[i := if k.None? then Free else Used(k.value, v)];
      assert key[..] == ks[i := k] && val[..] == vs[i := v] && hash[..] == hs[i := h];
    }

    /** The second half of dictionary_set: grow when full, probe from n, store. */
    method Add(k: string, v: Option<string>, h: nat)
      requires Valid() && h == HashOf(k) && IndexOf(slots, k) == size
      modifies Repr
      ensures Valid() && fresh(Repr - old(Repr))
      ensures slots == SetSlots(old(slots), k, v)
    {
      GrownCount(slots);
      GrownIndex(slots, k);
      if n == size {
        Double();
      }
      var i, _ := FindFree();
      Write(i, Some(k), v, h, n + 1);
    }

    /** dictionary_set for a non-NULL key. */
    method Put(k: string, v: Option<string>)
      requires Valid()
      modifies Repr
      ensures Valid() && fresh(Repr - old(Repr))
      ensures slots == SetSlots(old(slots), k, v)
    {
      var h := DictionaryHash(k);
      var i := size;
      if n > 0 {
        i := Search(k);
      } else {
        FreeWhenEmpty(slots, k);
      }
      if i < size {
        Write(i, Some(k), v, h, n);
      } else {
        Add(k, v, h);
      }
    }

    /** Returns -1 and changes nothing for a NULL key; otherwise 0. */
    method Set(k: Option<string>, v: Option<string>) returns (r: int)
      requires Valid()
      modifies Repr
      ensures Valid() && fresh(Repr - old(Repr))
      ensures r == if k.None? then -1 else 0
      ensures slots == if k.None? then old(slots) else SetSlots(old(slots), k.value, v)
    {
      if k.None? {
        return -1;
      }
      Put(k.value, v);
      return 0;
    }

    method Unset(k: Option<string>)
      requires Valid()
      modifies Repr
      ensures Valid() && Repr == old(Repr)
      ensures slots == if k.None? then old(slots) else UnsetSlots(old(slots), k.value)
    {
      if k.None? {
        return;
      }
      var i := Search(k.value);
      if i >= size {
        return;
      }
      CountUpdate(slots, i, Free);
      Write(i, None, None, 0, n - 1);
    }
  }

  lemma GrownIndex(s: seq<Slot>, key: string)
    requires IndexOf(s, key) == |s|
    ensures IndexOf(Grown(s), key) == |Grown(s)|
  {
    var g := Grown(s);
    assert forall i :: 0 <= i < |s| ==> g[i] == g[..|s|][i];
    IndexIs(g, key, |g|);
  }

  lemma IndexIs(s: seq<Slot>, key: string, i: nat)
    requires i <= |s| && (i < |s| ==> s[i].Used? && s[i].key == key)
    requires forall j :: 0 <= j < i ==> !(s[j].Used? && s[j].key == key)
    ensures IndexOf(s, key) == i
  {
  }

  lemma FreeWhenEmpty(s: seq<Slot>, key: string)
    requires UsedCount(s) == 0
    ensures IndexOf(s, key) == |s|
  {
    var i := IndexOf(s, key);
    if i < |s| {
      CountUpdate(s, i, Free);
    }
  }
}
