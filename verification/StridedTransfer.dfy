/** The scaler test program's file transfer: a packed file is read line by line into a strided
    plane and written back, over reads and writes that may be short or interrupted. */
module StridedTransfer {
  import opened ImageLayout

  newtype Byte = x: int | 0 <= x < 256

  function Min(a: nat, b: nat): nat {
    if a <= b then a else b
  }

  // ----- rows of a plane -----

  /** The bytes off .. off + len of a plane. */
  datatype Row = Row(off: nat, len: nat)

  /** The rows of the last `lines` lines of a component, the first of them at `base`. */
  function CompRows(base: nat, c: Component, lines: nat): seq<Row>
    decreases lines
  {
    if lines == 0 then [] else [Row(base, c.bpl)] + CompRows(base + c.stride, c, lines - 1)
  }

  /** Stride times height. */
  function SpanOfComponent(c: Component): nat {
    Times(c.stride, c.height)
  }

  /** The rows of components i onwards. */
  function PlaneRows(base: nat, pi: seq<Component>, i: nat): seq<Row>
    requires i <= |pi|
    decreases |pi| - i
  {
    if i == |pi| then []
    else CompRows(base, pi[i], pi[i].height) + PlaneRows(base + SpanOfComponent(pi[i]), pi, i + 1)
  }

  function Span(pi: seq<Component>, i: nat): nat
    requires i <= |pi|
    decreases |pi| - i
  {
    if i == |pi| then 0 else SpanOfComponent(pi[i]) + Span(pi, i + 1)
  }

  function Length(rows: seq<Row>): nat {
    if rows == [] then 0 else rows[0].len + Length(rows[1..])
  }

  /** Bytes per line times height, over components i onwards. */
  function PackedSize(pi: seq<Component>, i: nat): nat
    requires i <= |pi|
    decreases |pi| - i
  {
    if i == |pi| then 0 else Times(pi[i].bpl, pi[i].height) + PackedSize(pi, i + 1)
  }

  /** Every row ends by n. */
  predicate Fits(rows: seq<Row>, n: nat) {
    rows == [] || (rows[0].off + rows[0].len <= n && Fits(rows[1..], n))
  }

  /** Rows in ascending order from lo on, none meeting another. */
  predicate Laid(rows: seq<Row>, lo: nat)
    decreases |rows|
  {
    rows == [] || (lo <= rows[0].off && Laid(rows[1..], rows[0].off + rows[0].len))
  }

  predicate Covered(rows: seq<Row>, k: nat) {
    rows != [] && (rows[0].off <= k < rows[0].off + rows[0].len || Covered(rows[1..], k))
  }

  function Put(buf: seq<Byte>, off: nat, bytes: seq<Byte>): (r: seq<Byte>)
    requires off + |bytes| <= |buf|
    ensures |r| == |buf|
  {
    buf[..off] + bytes + buf[off + |bytes|..]
  }

  /** The plane after its rows have received the bytes in order. */
  function Scatter(buf: seq<Byte>, rows: seq<Row>, bytes: seq<Byte>): (r: seq<Byte>)
    requires Fits(rows, |buf|) && Length(rows) <= |bytes|
    ensures |r| == |buf|
    decreases |rows|
  {
    if rows == [] then buf
    else Scatter(Put(buf, rows[0].off, bytes[..rows[0].len]), rows[1..], bytes[rows[0].len..])
  }

  /** The bytes of the rows, in order. */
  function Gather(buf: seq<Byte>, rows: seq<Row>): (r: seq<Byte>)
    requires Fits(rows, |buf|)
    ensures |r| == Length(rows)
    decreases |rows|
  {
    if rows == [] then [] else buf[rows[0].off..rows[0].off + rows[0].len] + Gather(buf, rows[1..])
  }

  lemma {:induction false} NotCovered(rows: seq<Row>, lo: nat, k: nat)
    requires Laid(rows, lo) && k < lo
    ensures !Covered(rows, k)
    decreases |rows|
  {
    if rows != [] {
      NotCovered(rows[1..], rows[0].off + rows[0].len, k);
    }
  }

  /** A byte outside the rows keeps its value. */
  lemma {:induction false} PaddingUntouched(buf: seq<Byte>, rows: seq<Row>, bytes: seq<Byte>, k: nat)
    requires Fits(rows, |buf|) && Length(rows) <= |bytes| && k < |buf| && !Covered(rows, k)
    ensures Scatter(buf, rows, bytes)[k] == buf[k]
    decreases |rows|
  {
    if rows != [] {
      PaddingUntouched(Put(buf, rows[0].off, bytes[..rows[0].len]), rows[1..], bytes[rows[0].len..], k);
    }
  }

  /** What was scattered over rows that do not meet is what a gather finds. */
  lemma {:induction false} GatherOfScatter(buf: seq<Byte>, rows: seq<Row>, bytes: seq<Byte>, lo: nat)
    requires Fits(rows, |buf|) && Length(rows) <= |bytes| && Laid(rows, lo)
    ensures Gather(Scatter(buf, rows, bytes), rows) == bytes[..Length(rows)]
    decreases |rows|
  {
    if rows != [] {
      var off, len := rows[0].off, rows[0].len;
      var first := Put(buf, off, bytes[..len]);
      var last := Scatter(first, rows[1..], bytes[len..]);
      GatherOfScatter(first, rows[1..], bytes[len..], off + len);
      forall k | off <= k < off + len ensures last[k] == bytes[k - off] {
        NotCovered(rows[1..], off + len, k);
        PaddingUntouched(first, rows[1..], bytes[len..], k);
      }
      assert last[off..off + len] == bytes[..len];
    }
  }

  /** Scattering what was gathered changes nothing. */
  lemma {:induction false} ScatterOfGather(buf: seq<Byte>, rows: seq<Row>)
    requires Fits(rows, |buf|)
    ensures Scatter(buf, rows, Gather(buf, rows)) == buf
    decreases |rows|
  {
    if rows != [] {
      var off, len := rows[0].off, rows[0].len;
      var bytes := Gather(buf, rows);
      assert bytes[..len] == buf[off..off + len];
      assert bytes[len..] == Gather(buf, rows[1..]);
      assert Put(buf, off, bytes[..len]) == buf;
      ScatterOfGather(buf, rows[1..]);
    }
  }

  lemma {:induction false} FitsAppend(a: seq<Row>, b: seq<Row>, n: nat)
    ensures Fits(a + b, n) <==> Fits(a, n) && Fits(b, n)
    ensures Length(a + b) == Length(a) + Length(b)
  {
    if a == [] {
      assert a + b == b;
    } else {
      assert (a + b)[1..] == a[1..] + b;
      FitsAppend(a[1..], b, n);
    }
  }

  lemma {:induction false} ScatterAppend(buf: seq<Byte>, a: seq<Row>, b: seq<Row>, bytes: seq<Byte>)
    requires Fits(a, |buf|) && Fits(b, |buf|) && Length(a) + Length(b) <= |bytes|
    ensures Fits(a + b, |buf|) && Length(a + b) == Length(a) + Length(b)
    ensures Scatter(buf, a + b, bytes) == Scatter(Scatter(buf, a, bytes), b, bytes[Length(a)..])
    decreases |a|
  {
    FitsAppend(a, b, |buf|);
    if a == [] {
      assert a + b == b;
    } else {
      assert (a + b)[1..] == a[1..] + b;
      ScatterAppend(Put(buf, a[0].off, bytes[..a[0].len]), a[1..], b, bytes[a[0].len..]);
      assert bytes[a[0].len..][Length(a[1..])..] == bytes[Length(a)..];
    }
  }

  lemma Associates(x: seq<Byte>, y: seq<Byte>, z: seq<Byte>)
    ensures (x + y) + z == x + (y + z)
  {
  }

  lemma {:induction false} GatherAppend(buf: seq<Byte>, a: seq<Row>, b: seq<Row>)
    requires Fits(a, |buf|) && Fits(b, |buf|)
    ensures Fits(a + b, |buf|) && Gather(buf, a + b) == Gather(buf, a) + Gather(buf, b)
  {
    FitsAppend(a, b, |buf|);
    if a == [] {
      assert a + b == b;
    } else {
      assert (a + b)[1..] == a[1..] + b;
      GatherAppend(buf, a[1..], b);
      Associates(buf[a[0].off..a[0].off + a[0].len], Gather(buf, a[1..]), Gather(buf, b));
    }
  }

  lemma {:induction false} CompRowsFit(base: nat, c: Component, lines: nat, n: nat)
    requires c.bpl <= c.stride && base + Times(c.stride, lines) <= n
    ensures Fits(CompRows(base, c, lines), n) && Laid(CompRows(base, c, lines), base)
    ensures Length(CompRows(base, c, lines)) == Times(c.bpl, lines)
    decreases lines
  {
    if lines > 0 {
      CompRowsFit(base + c.stride, c, lines - 1, n);
      LaidFrom(CompRows(base + c.stride, c, lines - 1), base + c.bpl, base + c.stride);
    }
  }

  lemma LaidFrom(rows: seq<Row>, lo: nat, hi: nat)
    requires lo <= hi && Laid(rows, hi)
    ensures Laid(rows, lo)
  {
  }

  lemma {:induction false} LaidAppend(a: seq<Row>, b: seq<Row>, lo: nat, mid: nat)
    requires Laid(a, lo) && lo <= mid && Fits(a, mid) && Laid(b, mid)
    ensures Laid(a + b, lo)
    decreases |a|
  {
    if a == [] {
      assert a + b == b;
      LaidFrom(b, lo, mid);
    } else {
      assert (a + b)[1..] == a[1..] + b;
      LaidAppend(a[1..], b, a[0].off + a[0].len, mid);
    }
  }

  predicate Padded(pi: seq<Component>) {
    forall i :: 0 <= i < |pi| ==> pi[i].bpl <= pi[i].stride
  }

  /** The rows of a plane lie in order within the sum of stride times height, and their bytes
      number the sum of bytes per line times height. */
  lemma {:induction false} PlaneRowsFit(base: nat, pi: seq<Component>, i: nat, n: nat)
    requires i <= |pi| && Padded(pi) && base + Span(pi, i) <= n
    ensures Fits(PlaneRows(base, pi, i), n) && Laid(PlaneRows(base, pi, i), base)
    ensures Length(PlaneRows(base, pi, i)) == PackedSize(pi, i)
    decreases |pi| - i
  {
    if i < |pi| {
      var mid := base + SpanOfComponent(pi[i]);
      var a, b := CompRows(base, pi[i], pi[i].height), PlaneRows(mid, pi, i + 1);
      CompRowsFit(base, pi[i], pi[i].height, mid);
      CompRowsFit(base, pi[i], pi[i].height, n);
      PlaneRowsFit(mid, pi, i + 1, n);
      FitsAppend(a, b, n);
      LaidAppend(a, b, base, mid);
    }
  }

  // ----- where each byte goes -----

  /** Strides times heights, and bytes per line times heights, of components i up to c. */
  function SpanTo(pi: seq<Component>, i: nat, c: nat): nat
    requires i <= c <= |pi|
    decreases c - i
  {
    if i == c then 0 else SpanOfComponent(pi[i]) + SpanTo(pi, i + 1, c)
  }

  function PackedTo(pi: seq<Component>, i: nat, c: nat): nat
    requires i <= c <= |pi|
    decreases c - i
  {
    if i == c then 0 else Times(pi[i].bpl, pi[i].height) + PackedTo(pi, i + 1, c)
  }

  /** The rows of a component, split at line y. */
  lemma {:induction false} LineSplits(base: nat, c: Component, lines: nat, y: nat) returns (a: seq<Row>, b: seq<Row>)
    requires y < lines
    ensures CompRows(base, c, lines) == a + ([Row(base + Times(c.stride, y), c.bpl)] + b)
    ensures Length(a) == Times(c.bpl, y)
    decreases y
  {
    if y == 0 {
      a, b := [], CompRows(base + c.stride, c, lines - 1);
    } else {
      var a', b' := LineSplits(base + c.stride, c, lines - 1, y - 1);
      a, b := [Row(base, c.bpl)] + a', b';
      assert a[1..] == a';
    }
  }

  lemma AssociateRows(a: seq<Row>, r: Row, b: seq<Row>, c: seq<Row>)
    ensures (a + ([r] + b)) + c == a + ([r] + (b + c))
    ensures c + (a + ([r] + b)) == (c + a) + ([r] + b)
  {
  }

  lemma FirstComponentSplits(base: nat, pi: seq<Component>, i: nat, y: nat) returns (a: seq<Row>, b: seq<Row>)
    requires i < |pi| && y < pi[i].height
    ensures PlaneRows(base, pi, i) == a + ([Row(base + Times(pi[i].stride, y), pi[i].bpl)] + b)
    ensures Length(a) == Times(pi[i].bpl, y)
  {
    var rest := PlaneRows(base + SpanOfComponent(pi[i]), pi, i + 1);
    var b';
    a, b' := LineSplits(base, pi[i], pi[i].height, y);
    b := b' + rest;
    AssociateRows(a, Row(base + Times(pi[i].stride, y), pi[i].bpl), b', rest);
  }

  lemma LaterComponentSplits(base: nat, pi: seq<Component>, i: nat, r: Row, a: seq<Row>, b: seq<Row>)
    returns (all: seq<Row>)
    requires i < |pi| && PlaneRows(base + SpanOfComponent(pi[i]), pi, i + 1) == a + ([r] + b)
    ensures PlaneRows(base, pi, i) == all + ([r] + b)
    ensures Length(all) == Times(pi[i].bpl, pi[i].height) + Length(a)
  {
    var comp := CompRows(base, pi[i], pi[i].height);
    all := comp + a;
    AssociateRows(a, r, b, comp);
    CompLength(base, pi[i], pi[i].height);
    FitsAppend(comp, a, 0);
  }

  /** The rows of a plane, split at line y of component c. */
  lemma {:induction false} PlaneSplits(base: nat, pi: seq<Component>, i: nat, c: nat, y: nat, r: Row)
    returns (a: seq<Row>, b: seq<Row>)
    requires i <= c < |pi| && y < pi[c].height
    requires r == Row(base + SpanTo(pi, i, c) + Times(pi[c].stride, y), pi[c].bpl)
    ensures PlaneRows(base, pi, i) == a + ([r] + b)
    ensures Length(a) == PackedTo(pi, i, c) + Times(pi[c].bpl, y)
    decreases c - i
  {
    if c == i {
      a, b := FirstComponentSplits(base, pi, i, y);
    } else {
      var mid := base + SpanOfComponent(pi[i]);
      var a';
      a', b := PlaneSplits(mid, pi, i + 1, c, y, r);
      a := LaterComponentSplits(base, pi, i, r, a', b);
    }
  }

  lemma {:induction false} CompLength(base: nat, c: Component, lines: nat)
    ensures Length(CompRows(base, c, lines)) == Times(c.bpl, lines)
    decreases lines
  {
    if lines > 0 { CompLength(base + c.stride, c, lines - 1); }
  }

  lemma JoinAt(u: seq<Byte>, v: seq<Byte>, w: seq<Byte>, x: nat)
    requires x < |v|
    ensures (u + (v + w))[|u| + x] == v[x]
  {
  }

  lemma GatherHead(buf: seq<Byte>, r: Row, b: seq<Row>)
    requires Fits([r] + b, |buf|)
    ensures r.off + r.len <= |buf| && Fits(b, |buf|)
    ensures Gather(buf, [r] + b) == buf[r.off..r.off + r.len] + Gather(buf, b)
  {
    assert ([r] + b)[1..] == b;
  }

  /** A gather reads the bytes of a row after those of the rows before it. */
  lemma GatherSplit(buf: seq<Byte>, a: seq<Row>, r: Row, b: seq<Row>)
    requires Fits(a + ([r] + b), |buf|)
    ensures Fits(a, |buf|) && Fits(b, |buf|) && r.off + r.len <= |buf|
    ensures Gather(buf, a + ([r] + b)) == Gather(buf, a) + (buf[r.off..r.off + r.len] + Gather(buf, b))
  {
    FitsAppend(a, [r] + b, |buf|);
    GatherAppend(buf, a, [r] + b);
    GatherHead(buf, r, b);
  }

  /** Byte x of line y of component c of a plane: in the plane it stands y strides below the start of
      the component, which follows the strides times heights of the components before it; in the file
      it is byte x of line y of the packed component. */
  lemma ByteGoes(buf: seq<Byte>, pi: seq<Component>, bytes: seq<Byte>, c: nat, y: nat, x: nat)
    requires c < |pi| && Padded(pi) && Span(pi, 0) <= |buf| && y < pi[c].height && x < pi[c].bpl
    requires PackedSize(pi, 0) <= |bytes|
    ensures Fits(PlaneRows(0, pi, 0), |buf|) && Length(PlaneRows(0, pi, 0)) <= |bytes|
    ensures SpanTo(pi, 0, c) + pi[c].stride * y + x < |buf| && PackedTo(pi, 0, c) + pi[c].bpl * y + x < |bytes|
    ensures Scatter(buf, PlaneRows(0, pi, 0), bytes)[SpanTo(pi, 0, c) + pi[c].stride * y + x]
            == bytes[PackedTo(pi, 0, c) + pi[c].bpl * y + x]
  {
    var rows := PlaneRows(0, pi, 0);
    PlaneRowsFit(0, pi, 0, |buf|);
    TimesIs(pi[c].stride, y);
    TimesIs(pi[c].bpl, y);
    var r := Row(SpanTo(pi, 0, c) + Times(pi[c].stride, y), pi[c].bpl);
    var a, b := PlaneSplits(0, pi, 0, c, y, r);
    ScatterAt(buf, rows, bytes, a, r, b, x);
  }

  lemma ScatterAt(buf: seq<Byte>, rows: seq<Row>, bytes: seq<Byte>, a: seq<Row>, r: Row, b: seq<Row>, x: nat)
    requires Fits(rows, |buf|) && Length(rows) <= |bytes| && Laid(rows, 0) && rows == a + ([r] + b) && x < r.len
    ensures r.off + x < |buf| && Length(a) + x < |bytes|
    ensures Scatter(buf, rows, bytes)[r.off + x] == bytes[Length(a) + x]
  {
    GatherOfScatter(buf, rows, bytes, 0);
    PickedRow(Scatter(buf, rows, bytes), rows, bytes, a, r, b, x);
  }

  lemma PickedRow(plane: seq<Byte>, rows: seq<Row>, bytes: seq<Byte>, a: seq<Row>, r: Row, b: seq<Row>, x: nat)
    requires Fits(rows, |plane|) && Length(rows) <= |bytes| && rows == a + ([r] + b) && x < r.len
    requires Gather(plane, rows) == bytes[..Length(rows)]
    ensures r.off + x < |plane| && Length(a) + x < |bytes| && plane[r.off + x] == bytes[Length(a) + x]
  {
    GatherSplit(plane, a, r, b);
    Picked(bytes, Length(rows), Gather(plane, a), plane, r, Gather(plane, b), x);
  }

  lemma Picked(bytes: seq<Byte>, n: nat, u: seq<Byte>, plane: seq<Byte>, r: Row, w: seq<Byte>, x: nat)
    requires n <= |bytes| && r.off + r.len <= |plane| && x < r.len
    requires bytes[..n] == u + (plane[r.off..r.off + r.len] + w)
    ensures |u| + x < |bytes| && plane[r.off + x] == bytes[|u| + x]
  {
    JoinAt(u, plane[r.off..r.off + r.len], w, x);
  }

  // ----- the size of an image file -----

  /** The packed sizes of the first n planes. */
  function FileSize(f: PixelFormat, w: nat, h: nat, n: nat): nat
    requires n <= ScalerFormatOf(f).planes
  {
    if n == 0 then 0 else FileSize(f, w, h, n - 1) + PackedSize(PlaneInfo(f, w, h, n - 1), 0)
  }

  lemma {:induction false} PackedIsTotal(pi: seq<Component>, areas: seq<nat>, i: nat)
    requires i <= |pi| == |areas| && forall c :: 0 <= c < |pi| ==> areas[c] == Times(pi[c].bpl, pi[c].height)
    ensures PackedSize(pi, i) + Total(areas, i) == Total(areas, |areas|)
    decreases |pi| - i
  {
    if i < |pi| { PackedIsTotal(pi, areas, i + 1); }
  }

  lemma OnePlaneSize(k: nat, w: nat, h: nat)
    requires k < FORMAT_COUNT && Accepted(w, h) && TableEntry(k).planes == 1
    ensures WellFormed(TableEntry(k)) && ScalerFormatOf(TableEntry(k).pixelFormat).planes == 1
    ensures FileSize(TableEntry(k).pixelFormat, w, h, 1) == EffectiveBytes(TableEntry(k), w, h)
  {
    var e := TableEntry(k);
    EntryMatches(k);
    LayoutsAgree(k, w, h, 0);
    var pi := PlaneInfo(e.pixelFormat, w, h, 0);
    var areas := seq(e.components, i requires 0 <= i < e.components => AreaOf(e, w, h, i));
    forall c | 0 <= c < |pi| ensures areas[c] == Times(pi[c].bpl, pi[c].height) {
      LayoutsAgree(k, w, h, c);
    }
    PackedIsTotal(pi, areas, 0);
    assert FileSize(e.pixelFormat, w, h, 0) == 0;
  }

  lemma {:induction false} PlanesSize(k: nat, w: nat, h: nat, areas: seq<nat>, n: nat)
    requires k < FORMAT_COUNT && Accepted(w, h) && TableEntry(k).planes != 1 && WellFormed(TableEntry(k))
    requires n <= |areas| == TableEntry(k).components
    requires forall c :: 0 <= c < |areas| ==> areas[c] == AreaOf(TableEntry(k), w, h, c)
    ensures n <= ScalerFormatOf(TableEntry(k).pixelFormat).planes
    ensures FileSize(TableEntry(k).pixelFormat, w, h, n) == Total(areas, n)
  {
    if n > 0 {
      PlanesSize(k, w, h, areas, n - 1);
      LayoutsAgree(k, w, h, n - 1);
      var pi := PlaneInfo(TableEntry(k).pixelFormat, w, h, n - 1);
      assert PackedSize(pi, 1) == 0;
    }
  }

  lemma ManyPlanesSize(k: nat, w: nat, h: nat)
    requires k < FORMAT_COUNT && Accepted(w, h) && TableEntry(k).planes != 1
    ensures WellFormed(TableEntry(k)) && TableEntry(k).planes == ScalerFormatOf(TableEntry(k).pixelFormat).planes
    ensures FileSize(TableEntry(k).pixelFormat, w, h, TableEntry(k).planes) == EffectiveBytes(TableEntry(k), w, h)
  {
    var e := TableEntry(k);
    EntryMatches(k);
    LayoutsAgree(k, w, h, 0);
    PlanesSize(k, w, h, seq(e.components, i requires 0 <= i < e.components => AreaOf(e, w, h, i)), e.components);
  }

  /** The planes of a whole image transfer exactly its pixels times its bits per pixel over
      eight bytes, as the application's table has them. */
  lemma ImageFileSize(k: nat, w: nat, h: nat)
    requires k < FORMAT_COUNT && Accepted(w, h)
    ensures TableEntry(k).planes == ScalerFormatOf(TableEntry(k).pixelFormat).planes
    ensures FileSize(TableEntry(k).pixelFormat, w, h, TableEntry(k).planes) * 8 == w * h * Sum(TableEntry(k).bits)
  {
    TotalBits(k, w, h);
    if TableEntry(k).planes == 1 {
      OnePlaneSize(k, w, h);
    } else {
      ManyPlanesSize(k, w, h);
    }
  }

  // ----- files -----

  method CopyInto(buffer: array<Byte>, off: nat, bytes: seq<Byte>)
    requires off + |bytes| <= buffer.Length
    modifies buffer
    ensures buffer[..] == Put(old(buffer[..]), off, bytes)
  {
    for i := 0 to |bytes|
      invariant forall k :: 0 <= k < buffer.Length ==>
                  buffer[k] == if off <= k < off + i then bytes[k - off] else old(buffer[k])
    {
      buffer[off + i] := bytes[i];
    }
  }

  lemma LeftAfter(data: seq<Byte>, pos: nat, count: nat)
    requires pos + count <= |data|
    ensures data[pos + count..] == data[pos..][count..] && data[pos..pos + count] == data[pos..][..count]
  {
  }

  /** A file open for reading. `script` foretells the calls: a negative entry is an interrupted
      call, any other bounds the bytes of one call; past its end every call is full. */
  class Source {
    const data: seq<Byte>
    var pos: nat
    var script: seq<int>

    constructor (d: seq<Byte>, s: seq<int>)
      ensures data == d && pos == 0 && script == s
    {
      data, pos, script := d, 0, s;
    }

    function Left(): seq<Byte>
      requires pos <= |data|
      reads this
    {
      data[pos..]
    }

    /** The bytes of one successful call. */
    method Move(buffer: array<Byte>, off: nat, count: nat)
      requires pos + count <= |data| && off + count <= buffer.Length
      modifies this`pos, buffer
      ensures pos == old(pos) + count <= |data| && Left() == old(Left())[count..]
      ensures buffer[..] == Put(old(buffer[..]), off, old(Left())[..count])
    {
      LeftAfter(data, pos, count);
      CopyInto(buffer, off, data[pos..pos + count]);
      pos := pos + count;
    }

    /** read(2): -1 when interrupted, else the bytes moved, none only at the end of the file. */
    method Read(buffer: array<Byte>, off: nat, n: nat) returns (ret: int)
      requires pos <= |data| && off + n <= buffer.Length && n > 0
      modifies this`pos, this`script, buffer
      ensures pos <= |data| && -1 <= ret <= n
      ensures ret < 0 ==> pos == old(pos) && buffer[..] == old(buffer[..]) && |script| < |old(script)|
      ensures ret == 0 ==> old(Left()) == []
      ensures ret >= 0 ==> ret <= |old(Left())| && pos == old(pos) + ret && |script| <= |old(script)|
      ensures ret >= 0 ==> Left() == old(Left())[ret..] && buffer[..] == Put(old(buffer[..]), off, old(Left())[..ret])
    {
      var count := Min(n, |data| - pos);
      if script != [] {
        var head := script[0];
        script := script[1..];
        if head < 0 {
          return -1;
        }
        count := Min(count, if head == 0 then 1 else head);
      }
      Move(buffer, off, count);
      ret := count;
    }
  }

  /** A file open for writing. A zero entry of the script is a call that writes nothing. */
  class Sink {
    var out: seq<Byte>
    var script: seq<int>

    constructor (s: seq<int>)
      ensures out == [] && script == s
    {
      out, script := [], s;
    }

    /** write(2). */
    method Write(buffer: array<Byte>, off: nat, n: nat) returns (ret: int)
      requires off + n <= buffer.Length && n > 0
      modifies this
      ensures -1 <= ret <= n && (0 in script ==> 0 in old(script)) && |script| <= |old(script)|
      ensures ret < 0 ==> out == old(out) && |script| < |old(script)|
      ensures ret == 0 ==> 0 in old(script)
      ensures ret >= 0 ==> out == old(out) + buffer[off..off + ret]
    {
      var count := n;
      if script != [] {
        var head := script[0];
        script := script[1..];
        if head < 0 {
          return -1;
        }
        count := Min(count, head);
      }
      out := out + buffer[off..off + count];
      ret := count;
    }
  }

  /** After n bytes: the buffer holds them at off, and rest is what the file still holds. */
  ghost predicate Filled(now: seq<Byte>, rest: seq<Byte>, buf: seq<Byte>, off: nat, left: seq<Byte>, n: nat) {
    && n <= |left| && off + n <= |buf|
    && now == Put(buf, off, left[..n])
    && rest == left[n..]
  }

  lemma FilledNothing(buf: seq<Byte>, off: nat, left: seq<Byte>)
    requires off <= |buf|
    ensures Filled(buf, left, buf, off, left, 0)
  {
  }

  lemma FilledMore(now: seq<Byte>, rest: seq<Byte>, buf: seq<Byte>, off: nat, left: seq<Byte>, n: nat, more: nat,
                   later: seq<Byte>, restLater: seq<Byte>)
    requires Filled(now, rest, buf, off, left, n)
    requires more <= |rest| && off + n + more <= |buf|
    requires later == Put(now, off + n, rest[..more]) && restLater == rest[more..]
    ensures Filled(later, restLater, buf, off, left, n + more)
  {
    PutPut(buf, off, left[..n], rest[..more]);
    LeftAfter(left, n, more);
    assert left[..n] + left[n..n + more] == left[..n + more];
  }

  lemma PutPut(buf: seq<Byte>, off: nat, a: seq<Byte>, b: seq<Byte>)
    requires off + |a| + |b| <= |buf|
    ensures Put(Put(buf, off, a), off + |a|, b) == Put(buf, off, a + b)
  {
  }

  /** One call of read(2) in safeRead. */
  method ReadMore(src: Source, buffer: array<Byte>, off: nat, size: nat, nread: nat,
                  ghost buf: seq<Byte>, ghost left: seq<Byte>)
    returns (ret: int, ghost next: nat)
    requires src.pos <= |src.data| && nread < size && off + size <= buffer.Length
    requires Filled(buffer[..], src.Left(), buf, off, left, nread)
    modifies src`pos, src`script, buffer
    ensures src.pos <= |src.data| && -1 <= ret <= size - nread
    ensures ret < 0 ==> src.pos == old(src.pos) && |src.script| < |old(src.script)|
    ensures ret >= 0 ==> src.pos == old(src.pos) + ret && |src.script| <= |old(src.script)|
    ensures ret == 0 ==> nread == |left|
    ensures next == (if ret < 0 then nread else nread + ret) && Filled(buffer[..], src.Left(), buf, off, left, next)
  {
    ghost var now, rest := buffer[..], src.Left();
    next := nread;
    ret := src.Read(buffer, off + nread, size - nread);
    if ret >= 0 {
      next := nread + ret;
      FilledMore(now, rest, buf, off, left, nread, ret, buffer[..], src.Left());
    }
  }

  /** safeRead: the whole range, or what the file still holds. */
  method SafeRead(src: Source, buffer: array<Byte>, off: nat, size: nat) returns (nread: nat)
    requires src.pos <= |src.data| && off + size <= buffer.Length
    modifies src`pos, src`script, buffer
    ensures src.pos <= |src.data| && nread == Min(size, |old(src.Left())|) && src.pos == old(src.pos) + nread
    ensures src.Left() == old(src.Left())[nread..] && buffer[..] == Put(old(buffer[..]), off, old(src.Left())[..nread])
  {
    nread := 0;
    ghost var buf, left := buffer[..], src.Left();
    FilledNothing(buf, off, left);
    while nread < size
      invariant nread <= size && src.pos == old(src.pos) + nread <= |src.data|
      invariant Filled(buffer[..], src.Left(), buf, off, left, nread)
      decreases |src.script| + size - nread
    {
      ghost var next;
      var ret;
      ret, next := ReadMore(src, buffer, off, size, nread, buf, left);
      if ret < 0 {
        continue;
      } else if ret == 0 {
        break;
      }
      nread := nread + ret;
    }
  }

  /** safeWrite: the whole range, unless a call writes nothing. */
  method SafeWrite(dst: Sink, buffer: array<Byte>, off: nat, size: nat) returns (nwrite: nat)
    requires off + size <= buffer.Length
    modifies dst
    ensures nwrite <= size && dst.out == old(dst.out) + old(buffer[..])[off..off + nwrite]
    ensures nwrite < size ==> 0 in old(dst.script)
    ensures 0 in dst.script ==> 0 in old(dst.script)
  {
    nwrite := 0;
    while nwrite < size
      invariant nwrite <= size && dst.out == old(dst.out) + old(buffer[..])[off..off + nwrite]
      invariant 0 in dst.script ==> 0 in old(dst.script)
      decreases |dst.script| + size - nwrite
    {
      var ret := dst.Write(buffer, off + nwrite, size - nwrite);
      if ret < 0 {
        continue;
      } else if ret == 0 {
        break;
      }
      nwrite := nwrite + ret;
    }
  }

  // ----- planes -----

  /** Rows still to be filled in buf from left, as rows0 of buf0 were from left0. */
  ghost predicate Filling(buf: seq<Byte>, rows: seq<Row>, left: seq<Byte>,
                          buf0: seq<Byte>, rows0: seq<Row>, left0: seq<Byte>) {
    && |buf| == |buf0| && Fits(rows, |buf|) && Fits(rows0, |buf0|)
    && |left| - Length(rows) == |left0| - Length(rows0)
    && (Length(rows) <= |left| ==> Scatter(buf, rows, left) == Scatter(buf0, rows0, left0))
  }

  lemma FillingStep(buf: seq<Byte>, a: seq<Row>, b: seq<Row>, left: seq<Byte>,
                    buf0: seq<Byte>, rows0: seq<Row>, left0: seq<Byte>)
    requires Filling(buf, a + b, left, buf0, rows0, left0) && Fits(a, |buf|) && Length(a) <= |left|
    ensures Filling(Scatter(buf, a, left), b, left[Length(a)..], buf0, rows0, left0)
  {
    FitsAppend(a, b, |buf|);
    if Length(a + b) <= |left| {
      ScatterAppend(buf, a, b, left);
    }
  }

  lemma FillingLine(buf: seq<Byte>, next: nat, c: Component, lines: nat, left: seq<Byte>,
                    buf0: seq<Byte>, rows0: seq<Row>, left0: seq<Byte>)
    requires lines > 0 && Filling(buf, CompRows(next, c, lines), left, buf0, rows0, left0)
    ensures next + c.bpl <= |buf|
    ensures c.bpl <= Length(CompRows(next, c, lines))
    ensures c.bpl <= |left| ==>
              Filling(Put(buf, next, left[..c.bpl]), CompRows(next + c.stride, c, lines - 1), left[c.bpl..],
                      buf0, rows0, left0)
  {
    var rows := CompRows(next, c, lines);
    assert rows[0] == Row(next, c.bpl) && rows[1..] == CompRows(next + c.stride, c, lines - 1);
  }

  /** The line loop of readImagePlane for one component at ptr; false where its assert fails. */
  method ReadLines(src: Source, buffer: array<Byte>, ptr: nat, c: Component) returns (ok: bool, next: nat)
    requires src.pos <= |src.data| && Fits(CompRows(ptr, c, c.height), buffer.Length)
    modifies src`pos, src`script, buffer
    ensures src.pos <= |src.data|
    ensures ok <==> Length(CompRows(ptr, c, c.height)) <= |old(src.Left())|
    ensures ok ==> next == ptr + SpanOfComponent(c)
    ensures ok ==> src.pos == old(src.pos) + Length(CompRows(ptr, c, c.height))
    ensures ok ==> src.Left() == old(src.Left())[Length(CompRows(ptr, c, c.height))..]
    ensures ok ==> buffer[..] == Scatter(old(buffer[..]), CompRows(ptr, c, c.height), old(src.Left()))
  {
    next := ptr;
    ghost var buf0, rows0, left0 := buffer[..], CompRows(ptr, c, c.height), src.Left();
    ghost var rows, k := rows0, c.height;
    for line := 0 to c.height
      invariant src.pos <= |src.data| && next == ptr + Times(c.stride, line)
      invariant k == c.height - line && rows == CompRows(next, c, k)
      invariant Filling(buffer[..], rows, src.Left(), buf0, rows0, left0)
    {
      FillingLine(buffer[..], next, c, k, src.Left(), buf0, rows0, left0);
      k := k - 1;
      rows := CompRows(next + c.stride, c, k);
      var ret := SafeRead(src, buffer, next, c.bpl);
      if ret != c.bpl {
        return false, next;
      }
      next := next + c.stride;
    }
    return true, next;
  }

  /** The component loop of readImagePlane. */
  method ReadComponents(src: Source, buffer: array<Byte>, pi: seq<Component>) returns (ok: bool)
    requires src.pos <= |src.data| && Fits(PlaneRows(0, pi, 0), buffer.Length)
    modifies src`pos, src`script, buffer
    ensures src.pos <= |src.data|
    ensures ok <==> Length(PlaneRows(0, pi, 0)) <= |old(src.Left())|
    ensures ok ==> src.pos == old(src.pos) + Length(PlaneRows(0, pi, 0))
    ensures ok ==> buffer[..] == Scatter(old(buffer[..]), PlaneRows(0, pi, 0), old(src.Left()))
  {
    ghost var buf0, rows0, left0 := buffer[..], PlaneRows(0, pi, 0), src.Left();
    var ptr: nat := 0;
    for i := 0 to |pi|
      invariant src.pos <= |src.data|
      invariant Filling(buffer[..], PlaneRows(ptr, pi, i), src.Left(), buf0, rows0, left0)
    {
      ghost var buf, left := buffer[..], src.Left();
      ghost var a, b := CompRows(ptr, pi[i], pi[i].height), PlaneRows(ptr + SpanOfComponent(pi[i]), pi, i + 1);
      NextComponent(ptr, pi, i, |buf|);
      var more, next := ReadLines(src, buffer, ptr, pi[i]);
      if !more {
        return false;
      }
      FillingStep(buf, a, b, left, buf0, rows0, left0);
      ptr := next;
    }
    return true;
  }

  /** readImagePlane: every line of every component into the strided plane, exactly when the
      file still holds them all; the file moves by the packed size. */
  method ReadImagePlane(src: Source, buffer: array<Byte>, f: PixelFormat, w: nat, h: nat, plane: nat) returns (ok: bool)
    requires src.pos <= |src.data| && plane < ScalerFormatOf(f).planes
    requires Span(PlaneInfo(f, w, h, plane), 0) <= buffer.Length
    modifies src`pos, src`script, buffer
    ensures src.pos <= |src.data| && Fits(PlaneRows(0, PlaneInfo(f, w, h, plane), 0), buffer.Length)
    ensures Length(PlaneRows(0, PlaneInfo(f, w, h, plane), 0)) == PackedSize(PlaneInfo(f, w, h, plane), 0)
    ensures ok <==> PackedSize(PlaneInfo(f, w, h, plane), 0) <= |old(src.Left())|
    ensures ok ==> src.pos == old(src.pos) + PackedSize(PlaneInfo(f, w, h, plane), 0)
    ensures ok ==> buffer[..] == Scatter(old(buffer[..]), PlaneRows(0, PlaneInfo(f, w, h, plane), 0), old(src.Left()))
  {
    PlaneRowsFit(0, PlaneInfo(f, w, h, plane), 0, buffer.Length);
    ok := ReadComponents(src, buffer, PlaneInfo(f, w, h, plane));
  }

  lemma NextComponent(ptr: nat, pi: seq<Component>, i: nat, n: nat)
    requires i < |pi| && Fits(PlaneRows(ptr, pi, i), n)
    ensures PlaneRows(ptr, pi, i)
            == CompRows(ptr, pi[i], pi[i].height) + PlaneRows(ptr + SpanOfComponent(pi[i]), pi, i + 1)
    ensures Fits(CompRows(ptr, pi[i], pi[i].height), n) && Fits(PlaneRows(ptr + SpanOfComponent(pi[i]), pi, i + 1), n)
    ensures Length(PlaneRows(ptr, pi, i))
            == Length(CompRows(ptr, pi[i], pi[i].height)) + Length(PlaneRows(ptr + SpanOfComponent(pi[i]), pi, i + 1))
  {
    FitsAppend(CompRows(ptr, pi[i], pi[i].height), PlaneRows(ptr + SpanOfComponent(pi[i]), pi, i + 1), n);
  }

  /** out is what was written so far of total, and rows are what is missing. */
  ghost predicate Emitting(buf: seq<Byte>, out: seq<Byte>, rows: seq<Row>, total: seq<Byte>) {
    Fits(rows, |buf|) && out + Gather(buf, rows) == total
  }

  lemma EmittingStep(buf: seq<Byte>, out: seq<Byte>, a: seq<Row>, b: seq<Row>, total: seq<Byte>)
    requires Emitting(buf, out, a + b, total) && Fits(a, |buf|) && Fits(b, |buf|)
    ensures Emitting(buf, out + Gather(buf, a), b, total)
  {
    GatherAppend(buf, a, b);
    Associates(out, Gather(buf, a), Gather(buf, b));
  }

  lemma EmittingLine(buf: seq<Byte>, out: seq<Byte>, next: nat, c: Component, lines: nat, total: seq<Byte>)
    requires lines > 0 && Emitting(buf, out, CompRows(next, c, lines), total)
    ensures next + c.bpl <= |buf|
    ensures Emitting(buf, out + buf[next..next + c.bpl], CompRows(next + c.stride, c, lines - 1), total)
  {
    var rows := CompRows(next, c, lines);
    var rest := rows[1..];
    assert rows[0] == Row(next, c.bpl) && rest == CompRows(next + c.stride, c, lines - 1);
    Associates(out, buf[next..next + c.bpl], Gather(buf, rest));
  }

  /** One line, with its assert. */
  method WriteLine(dst: Sink, buffer: array<Byte>, ptr: nat, c: Component, ghost lines: nat,
                   ghost buf: seq<Byte>, ghost total: seq<Byte>)
    returns (ok: bool, next: nat)
    requires buf == buffer[..] && lines > 0 && Emitting(buf, dst.out, CompRows(ptr, c, lines), total)
    modifies dst
    ensures next == ptr + c.stride
    ensures ok ==> Emitting(buf, dst.out, CompRows(next, c, lines - 1), total)
    ensures !ok ==> 0 in old(dst.script)
    ensures 0 in dst.script ==> 0 in old(dst.script)
  {
    EmittingLine(buf, dst.out, ptr, c, lines, total);
    ghost var out := dst.out + buf[ptr..ptr + c.bpl];
    var ret := SafeWrite(dst, buffer, ptr, c.bpl);
    ok, next := ret == c.bpl, ptr + c.stride;
    assert ok ==> dst.out == out;
  }

  lemma EmittingAll(buf: seq<Byte>, out: seq<Byte>, rows: seq<Row>)
    requires Fits(rows, |buf|)
    ensures Emitting(buf, out, rows, out + Gather(buf, rows))
  {
  }

  lemma EmittingDone(buf: seq<Byte>, out: seq<Byte>, next: nat, c: Component, total: seq<Byte>)
    requires Emitting(buf, out, CompRows(next, c, 0), total)
    ensures out == total
  {
  }

  /** The line loop of writeImagePlane for one component at ptr. */
  method WriteLines(dst: Sink, buffer: array<Byte>, ptr: nat, c: Component) returns (ok: bool, next: nat)
    requires Fits(CompRows(ptr, c, c.height), buffer.Length)
    modifies dst
    ensures ok ==> next == ptr + SpanOfComponent(c)
    ensures ok ==> dst.out == old(dst.out) + Gather(old(buffer[..]), CompRows(ptr, c, c.height))
    ensures !ok ==> 0 in old(dst.script)
    ensures 0 in dst.script ==> 0 in old(dst.script)
  {
    next := ptr;
    ghost var buf, total := buffer[..], dst.out + Gather(buffer[..], CompRows(ptr, c, c.height));
    ghost var k := c.height;
    EmittingAll(buf, dst.out, CompRows(ptr, c, c.height));
    for line := 0 to c.height
      invariant buffer[..] == buf && next == ptr + Times(c.stride, line)
      invariant k == c.height - line && Emitting(buf, dst.out, CompRows(next, c, k), total)
      invariant 0 in dst.script ==> 0 in old(dst.script)
    {
      ok, next := WriteLine(dst, buffer, next, c, k, buf, total);
      if !ok {
        return;
      }
      k := k - 1;
    }
    EmittingDone(buf, dst.out, next, c, total);
    return true, next;
  }

  /** The component loop of writeImagePlane. */
  method WriteComponents(dst: Sink, buffer: array<Byte>, pi: seq<Component>) returns (ok: bool)
    requires Fits(PlaneRows(0, pi, 0), buffer.Length)
    modifies dst
    ensures ok ==> dst.out == old(dst.out) + Gather(old(buffer[..]), PlaneRows(0, pi, 0))
    ensures !ok ==> 0 in old(dst.script)
    ensures 0 in dst.script ==> 0 in old(dst.script)
  {
    ghost var buf, total := buffer[..], dst.out + Gather(buffer[..], PlaneRows(0, pi, 0));
    var ptr: nat := 0;
    for i := 0 to |pi|
      invariant buffer[..] == buf
      invariant Emitting(buf, dst.out, PlaneRows(ptr, pi, i), total)
      invariant 0 in dst.script ==> 0 in old(dst.script)
    {
      ghost var a, b := CompRows(ptr, pi[i], pi[i].height), PlaneRows(ptr + SpanOfComponent(pi[i]), pi, i + 1);
      NextComponent(ptr, pi, i, |buf|);
      EmittingStep(buf, dst.out, a, b, total);
      var more, next := WriteLines(dst, buffer, ptr, pi[i]);
      if !more {
        return false;
      }
      ptr := next;
    }
    return true;
  }

  /** writeImagePlane: the lines of every component, packed. */
  method WriteImagePlane(dst: Sink, buffer: array<Byte>, f: PixelFormat, w: nat, h: nat, plane: nat) returns (ok: bool)
    requires plane < ScalerFormatOf(f).planes && Span(PlaneInfo(f, w, h, plane), 0) <= buffer.Length
    modifies dst
    ensures Fits(PlaneRows(0, PlaneInfo(f, w, h, plane), 0), buffer.Length)
    ensures ok ==> dst.out == old(dst.out) + Gather(old(buffer[..]), PlaneRows(0, PlaneInfo(f, w, h, plane), 0))
    ensures !ok ==> 0 in old(dst.script)
    ensures 0 in dst.script ==> 0 in old(dst.script)
  {
    PlaneRowsFit(0, PlaneInfo(f, w, h, plane), 0, buffer.Length);
    ok := WriteComponents(dst, buffer, PlaneInfo(f, w, h, plane));
  }

  lemma PaddingKept(buf: seq<Byte>, rows: seq<Row>, bytes: seq<Byte>)
    requires Fits(rows, |buf|) && Length(rows) <= |bytes|
    ensures |Scatter(buf, rows, bytes)| == |buf|
    ensures forall k :: 0 <= k < |buf| && !Covered(rows, k) ==> Scatter(buf, rows, bytes)[k] == buf[k]
  {
    forall k | 0 <= k < |buf| && !Covered(rows, k) ensures Scatter(buf, rows, bytes)[k] == buf[k] {
      PaddingUntouched(buf, rows, bytes, k);
    }
  }

  /** Reading a plane and writing it back with the same format emits exactly the bytes read, in
      order, and leaves the padding of the plane alone: over any short or interrupted calls. */
  method CopyPlane(src: Source, dst: Sink, buffer: array<Byte>, f: PixelFormat, w: nat, h: nat, plane: nat)
    returns (ok: bool)
    requires src.pos <= |src.data| && plane < ScalerFormatOf(f).planes
    requires Span(PlaneInfo(f, w, h, plane), 0) <= buffer.Length
    requires 0 !in dst.script
    modifies src`pos, src`script, buffer, dst
    ensures src.pos <= |src.data|
    ensures ok <==> PackedSize(PlaneInfo(f, w, h, plane), 0) <= |old(src.Left())|
    ensures ok ==> src.pos == old(src.pos) + PackedSize(PlaneInfo(f, w, h, plane), 0)
    ensures ok ==> dst.out == old(dst.out) + src.data[old(src.pos)..src.pos]
    ensures ok ==> forall k ::
              0 <= k < buffer.Length && !Covered(PlaneRows(0, PlaneInfo(f, w, h, plane), 0), k) ==>
              buffer[k] == old(buffer[k])
  {
    ghost var rows, was, left := PlaneRows(0, PlaneInfo(f, w, h, plane), 0), buffer[..], src.Left();
    PlaneRowsFit(0, PlaneInfo(f, w, h, plane), 0, buffer.Length);
    ok := ReadImagePlane(src, buffer, f, w, h, plane);
    if ok {
      GatherOfScatter(was, rows, left, 0);
      PaddingKept(was, rows, left);
      ok := WriteImagePlane(dst, buffer, f, w, h, plane);
    }
  }
}
