/** The Adam7 macros of png.h, which implement the interlacing of section 8.2 of the PNG
    specification (W3C Recommendation, 10 November 2003). Passes are numbered from 0. */
module Adam7 {
  import opened Common

  const PASSES := 7

  function Pow2(n: nat): (r: nat)
    ensures r > 0
  {
    if n == 0 then 1 else 2 * Pow2(n - 1)
  }

  /** (((1 & ~pass) << (3 - (pass >> 1))) & 7). */
  function StartRow(pass: nat): nat
    requires pass < PASSES
  {
    if pass % 2 == 0 then Pow2(3 - pass / 2) % 8 else 0
  }

  /** (((1 & pass) << (3 - ((pass + 1) >> 1))) & 7). */
  function StartCol(pass: nat): nat
    requires pass < PASSES
  {
    if pass % 2 == 1 then Pow2(3 - (pass + 1) / 2) % 8 else 0
  }

  function RowShift(pass: nat): nat
    requires pass < PASSES
  {
    if pass > 2 then (8 - pass) / 2 else 3
  }

  function ColShift(pass: nat): nat
    requires pass < PASSES
  {
    if pass > 1 then (7 - pass) / 2 else 3
  }

  // ----- the table of the specification -----

  /** First row and column of a pass, and the steps from one row or column to the next. */
  datatype Grid = Grid(row: nat, rowStep: nat, col: nat, colStep: nat)

  function GridOf(pass: nat): Grid
    requires pass < PASSES
  {
    match pass
    case 0 => Grid(0, 8, 0, 8)
    case 1 => Grid(0, 8, 4, 8)
    case 2 => Grid(4, 8, 0, 4)
    case 3 => Grid(0, 4, 2, 4)
    case 4 => Grid(2, 4, 0, 2)
    case 5 => Grid(0, 2, 1, 2)
    case 6 => Grid(1, 2, 0, 1)
  }

  lemma Powers()
    ensures Pow2(0) == 1 && Pow2(1) == 2 && Pow2(2) == 4 && Pow2(3) == 8
    ensures Pow2(4) == 0x10 && Pow2(5) == 0x20 && Pow2(6) == 0x40 && Pow2(7) == 0x80
  {
  }

  /** The macros give the starts and steps of the specification's table. */
  lemma GridIs(pass: nat)
    requires pass < PASSES
    ensures GridOf(pass) == Grid(StartRow(pass), Pow2(RowShift(pass)), StartCol(pass), Pow2(ColShift(pass)))
  {
    Powers();
  }

  // ----- counts, positions and masks -----

  /** The rows of a pass, in 32-bit arithmetic. */
  function Rows(height: nat, pass: nat): nat
    requires pass < PASSES
  {
    GridIs(pass);
    (height + (Pow2(RowShift(pass)) - 1 - StartRow(pass))) % WORD / Pow2(RowShift(pass))
  }

  function Cols(width: nat, pass: nat): nat
    requires pass < PASSES
  {
    GridIs(pass);
    (width + (Pow2(ColShift(pass)) - 1 - StartCol(pass))) % WORD / Pow2(ColShift(pass))
  }

  function RowFrom(row: nat, pass: nat): nat
    requires pass < PASSES
  {
    row * Pow2(RowShift(pass)) + StartRow(pass)
  }

  function ColFrom(col: nat, pass: nat): nat
    requires pass < PASSES
  {
    col * Pow2(ColShift(pass)) + StartCol(pass)
  }

  /** Nibble k of a constant: (c >> (k << 2)) & 0xF. */
  function Nibble(c: nat, k: nat): nat {
    if k == 0 then c % 16 else Nibble(c / 16, k - 1)
  }

  /** The low nibble of one constant and the high nibble of the other, 4 * k bits down. */
  function MaskAt(k: nat): nat {
    Nibble(0x110145AF, k) + Nibble(0x01145AF0, k + 1) * 16
  }

  function RowMask(pass: nat): nat
    requires pass < PASSES
  {
    MaskAt(7 - pass)
  }

  function ColMask(pass: nat): nat
    requires pass < PASSES
  {
    MaskAt(6 - pass)
  }

  predicate RowInPass(y: nat, pass: nat)
    requires pass < PASSES
  {
    RowMask(pass) / Pow2(y % 8) % 2 == 1
  }

  predicate ColInPass(x: nat, pass: nat)
    requires pass < PASSES
  {
    ColMask(pass) / Pow2(x % 8) % 2 == 1
  }

  lemma MaskValues()
    ensures MaskAt(0) == 0xFF && MaskAt(1) == 0xAA && MaskAt(2) == 0x55 && MaskAt(3) == 0x44
    ensures MaskAt(4) == 0x11 && MaskAt(5) == 0x10 && MaskAt(6) == 0x01 && MaskAt(7) == 0x01
  {
  }

  /** Bit r of a mask, by literal divisors. */
  predicate Bit(m: nat, r: nat) {
    match r
    case 0 => m % 2 == 1
    case 1 => m / 2 % 2 == 1
    case 2 => m / 4 % 2 == 1
    case 3 => m / 8 % 2 == 1
    case 4 => m / 16 % 2 == 1
    case 5 => m / 32 % 2 == 1
    case 6 => m / 64 % 2 == 1
    case _ => m / 128 % 2 == 1
  }

  lemma BitIs(m: nat, r: nat)
    requires r < 8
    ensures m / Pow2(r) % 2 == 1 <==> Bit(m, r)
  {
    Powers();
    var p := Pow2(r);
    match r {
      case 0 => assert m / p == m / 1;
      case 1 => assert m / p == m / 2;
      case 2 => assert m / p == m / 4;
      case 3 => assert m / p == m / 8;
      case 4 => assert m / p == m / 16;
      case 5 => assert m / p == m / 32;
      case 6 => assert m / p == m / 64;
      case 7 => assert m / p == m / 128;
    }
  }

  /** y is start, start + step, ..., by literal steps. */
  predicate OnGrid(y: nat, start: nat, step: nat) {
    match step
    case 1 => start == 0
    case 2 => y % 2 == start
    case 4 => y % 4 == start
    case _ => y % 8 == start
  }

  /** The values of MaskAt. */
  function MaskLiteral(k: nat): nat {
    match k
    case 0 => 0xFF
    case 1 => 0xAA
    case 2 => 0x55
    case 3 => 0x44
    case 4 => 0x11
    case 5 => 0x10
    case _ => 0x01
  }

  /** The start and step of the positions whose bit a mask has. */
  function MaskStart(k: nat): nat {
    match k
    case 1 => 1
    case 3 => 2
    case 5 => 4
    case _ => 0
  }

  function MaskStep(k: nat): nat {
    match k
    case 0 => 1
    case 1 => 2
    case 2 => 2
    case 3 => 4
    case 4 => 4
    case _ => 8
  }

  lemma BitsFF(r: nat)
    requires r < 8
    ensures Bit(0xFF, r)
  {
  }

  lemma BitsAA(r: nat)
    requires r < 8
    ensures Bit(0xAA, r) <==> r % 2 == 1
  {
  }

  lemma Bits55(r: nat)
    requires r < 8
    ensures Bit(0x55, r) <==> r % 2 == 0
  {
  }

  lemma Bits44(r: nat)
    requires r < 8
    ensures Bit(0x44, r) <==> r % 4 == 2
  {
  }

  lemma Bits11(r: nat)
    requires r < 8
    ensures Bit(0x11, r) <==> r % 4 == 0
  {
  }

  lemma Bits10(r: nat)
    requires r < 8
    ensures Bit(0x10, r) <==> r == 4
  {
  }

  lemma Bits01(r: nat)
    requires r < 8
    ensures Bit(0x01, r) <==> r == 0
  {
  }

  lemma MaskBits(k: nat, r: nat)
    requires k <= PASSES && r < 8
    ensures Bit(MaskLiteral(k), r) <==> OnGrid(r, MaskStart(k), MaskStep(k))
  {
    match k {
      case 0 => BitsFF(r);
      case 1 => BitsAA(r);
      case 2 => Bits55(r);
      case 3 => Bits44(r);
      case 4 => Bits11(r);
      case 5 => Bits10(r);
      case _ => Bits01(r);
    }
  }

  lemma MaskGrids(pass: nat)
    requires pass < PASSES
    ensures MaskStart(7 - pass) == GridOf(pass).row && MaskStep(7 - pass) == GridOf(pass).rowStep
    ensures MaskStart(6 - pass) == GridOf(pass).col && MaskStep(6 - pass) == GridOf(pass).colStep
  {
  }

  /** The masks select the rows and columns of the specification's table. */
  lemma TableBits(pass: nat, r: nat)
    requires pass < PASSES && r < 8
    ensures Bit(RowMask(pass), r) <==> OnGrid(r, GridOf(pass).row, GridOf(pass).rowStep)
    ensures Bit(ColMask(pass), r) <==> OnGrid(r, GridOf(pass).col, GridOf(pass).colStep)
  {
    MaskValues();
    assert RowMask(pass) == MaskLiteral(7 - pass) && ColMask(pass) == MaskLiteral(6 - pass);
    MaskBits(7 - pass, r);
    MaskBits(6 - pass, r);
    MaskGrids(pass);
  }

  lemma OnGridInTile(y: nat, start: nat, step: nat)
    ensures OnGrid(y, start, step) <==> OnGrid(y % 8, start, step)
  {
  }

  lemma RowInPassIff(y: nat, pass: nat)
    requires pass < PASSES
    ensures RowInPass(y, pass) <==> OnGrid(y, GridOf(pass).row, GridOf(pass).rowStep)
  {
    BitIs(RowMask(pass), y % 8);
    TableBits(pass, y % 8);
    OnGridInTile(y, GridOf(pass).row, GridOf(pass).rowStep);
  }

  lemma ColInPassIff(x: nat, pass: nat)
    requires pass < PASSES
    ensures ColInPass(x, pass) <==> OnGrid(x, GridOf(pass).col, GridOf(pass).colStep)
  {
    BitIs(ColMask(pass), x % 8);
    TableBits(pass, x % 8);
    OnGridInTile(x, GridOf(pass).col, GridOf(pass).colStep);
  }

  // ----- counting -----

  predicate IsStep(step: nat) {
    step == 1 || step == 2 || step == 4 || step == 8
  }

  /** Members of start, start + step, ... below n, by literal steps. */
  function Count(n: nat, start: nat, step: nat): int {
    match step
    case 1 => n - start
    case 2 => (n + 1 - start) / 2
    case 4 => (n + 3 - start) / 4
    case _ => (n + 7 - start) / 8
  }

  function Member(i: nat, start: nat, step: nat): int {
    match step
    case 1 => i + start
    case 2 => i * 2 + start
    case 4 => i * 4 + start
    case _ => i * 8 + start
  }

  lemma CountIs(n: nat, start: nat, step: nat, i: nat)
    requires start < step && IsStep(step)
    ensures Member(i, start, step) < n <==> i < Count(n, start, step)
    ensures Count(n, start, step) >= 0
  {
  }

  lemma MemberIs(i: nat, start: nat, step: nat)
    requires IsStep(step)
    ensures i * step + start == Member(i, start, step)
  {
  }

  lemma CountDivides(m: nat, n: nat, start: nat, step: nat)
    requires start < step && IsStep(step) && m == n + (step - 1 - start)
    ensures m / step == Count(n, start, step)
  {
    match step {
      case 1 => assert m / step == m / 1;
      case 2 => assert m / step == m / 2;
      case 4 => assert m / step == m / 4;
      case 8 => assert m / step == m / 8;
    }
  }

  lemma GridSteps(pass: nat)
    requires pass < PASSES
    ensures var g := GridOf(pass); IsStep(g.rowStep) && IsStep(g.colStep) && g.row < g.rowStep && g.col < g.colStep
  {
  }

  /** The largest size whose row and column counts do not overflow 32 bits. */
  const MAX_SIZE := WORD - 8

  lemma RowsAre(n: nat, pass: nat)
    requires pass < PASSES && n <= MAX_SIZE
    ensures Rows(n, pass) == Count(n, GridOf(pass).row, GridOf(pass).rowStep)
  {
    GridIs(pass);
    GridSteps(pass);
    var g := GridOf(pass);
    CountDivides(n + (g.rowStep - 1 - g.row), n, g.row, g.rowStep);
  }

  lemma ColsAre(n: nat, pass: nat)
    requires pass < PASSES && n <= MAX_SIZE
    ensures Cols(n, pass) == Count(n, GridOf(pass).col, GridOf(pass).colStep)
  {
    GridIs(pass);
    GridSteps(pass);
    var g := GridOf(pass);
    CountDivides(n + (g.colStep - 1 - g.col), n, g.col, g.colStep);
  }

  lemma RowFromIs(i: nat, pass: nat)
    requires pass < PASSES
    ensures RowFrom(i, pass) == Member(i, GridOf(pass).row, GridOf(pass).rowStep)
  {
    GridIs(pass);
    GridSteps(pass);
    MemberIs(i, GridOf(pass).row, GridOf(pass).rowStep);
  }

  lemma ColFromIs(i: nat, pass: nat)
    requires pass < PASSES
    ensures ColFrom(i, pass) == Member(i, GridOf(pass).col, GridOf(pass).colStep)
  {
    GridIs(pass);
    GridSteps(pass);
    MemberIs(i, GridOf(pass).col, GridOf(pass).colStep);
  }

  /** A row or column of a pass exists exactly when its position lies in the image. */
  lemma CountsAre(n: nat, pass: nat, i: nat)
    requires pass < PASSES && n <= MAX_SIZE
    ensures RowFrom(i, pass) < n <==> i < Rows(n, pass)
    ensures ColFrom(i, pass) < n <==> i < Cols(n, pass)
  {
    var g := GridOf(pass);
    GridSteps(pass);
    RowFromIs(i, pass);
    ColFromIs(i, pass);
    RowsAre(n, pass);
    ColsAre(n, pass);
    CountIs(n, g.row, g.rowStep, i);
    CountIs(n, g.col, g.colStep, i);
  }

  /** One row more, and the first pass of the image has no rows at all. */
  lemma LimitIsSharp()
    ensures Rows(MAX_SIZE + 1, 0) == 0 && RowFrom(0, 0) < MAX_SIZE + 1
  {
    GridIs(0);
  }

  // ----- the partition -----

  /** The index of y among start, start + step, ..., when it is one of them. */
  function IndexOn(y: nat, step: nat): nat {
    match step
    case 1 => y
    case 2 => y / 2
    case 4 => y / 4
    case _ => y / 8
  }

  lemma MemberIff(y: nat, start: nat, step: nat, i: nat)
    requires start < step && IsStep(step)
    ensures Member(i, start, step) == y <==> OnGrid(y, start, step) && i == IndexOn(y, step)
  {
  }

  /** (pass, row, col) is the place of pixel (x, y) in the interlaced image. */
  ghost predicate PlaceOf(x: nat, y: nat, pass: nat, row: nat, col: nat) {
    pass < PASSES && RowFrom(row, pass) == y && ColFrom(col, pass) == x
  }

  /** The pass of the pixel at (rx, ry) of a tile. */
  function TilePass(rx: nat, ry: nat): (pass: nat)
    ensures pass < PASSES
  {
    if ry % 2 == 1 then 6
    else if rx % 2 == 1 then 5
    else if ry % 4 == 2 then 4
    else if rx % 4 == 2 then 3
    else if ry == 4 then 2
    else if rx == 4 then 1
    else 0
  }

  function PassOf(x: nat, y: nat): (pass: nat)
    ensures pass < PASSES
  {
    TilePass(x % 8, y % 8)
  }

  lemma TilePartition(rx: nat, ry: nat, pass: nat)
    requires pass < PASSES && rx < 8 && ry < 8
    ensures var g := GridOf(pass);
            OnGrid(ry, g.row, g.rowStep) && OnGrid(rx, g.col, g.colStep) <==> pass == TilePass(rx, ry)
  {
  }

  lemma GridPartition(x: nat, y: nat, pass: nat)
    requires pass < PASSES
    ensures var g := GridOf(pass); OnGrid(y, g.row, g.rowStep) && OnGrid(x, g.col, g.colStep) <==> pass == PassOf(x, y)
  {
    var g := GridOf(pass);
    OnGridInTile(y, g.row, g.rowStep);
    OnGridInTile(x, g.col, g.colStep);
    TilePartition(x % 8, y % 8, pass);
  }

  /** Both masks select exactly one pass for each pixel. */
  lemma MasksSelectOnePass(x: nat, y: nat, pass: nat)
    requires pass < PASSES
    ensures RowInPass(y, pass) && ColInPass(x, pass) <==> pass == PassOf(x, y)
  {
    RowInPassIff(y, pass);
    ColInPassIff(x, pass);
    GridPartition(x, y, pass);
  }

  /** The row and column of a pixel within its pass. */
  function PlaceRow(x: nat, y: nat): nat {
    IndexOn(y, GridOf(PassOf(x, y)).rowStep)
  }

  function PlaceCol(x: nat, y: nat): nat {
    IndexOn(x, GridOf(PassOf(x, y)).colStep)
  }

  /** Each pixel of the plane has exactly one place, in the pass both masks select. */
  lemma OnePlace(x: nat, y: nat, pass: nat, row: nat, col: nat)
    requires pass < PASSES
    ensures PlaceOf(x, y, pass, row, col) <==>
            RowInPass(y, pass) && ColInPass(x, pass) && row == PlaceRow(x, y) && col == PlaceCol(x, y)
  {
    var g := GridOf(pass);
    GridSteps(pass);
    RowFromIs(row, pass);
    ColFromIs(col, pass);
    MemberIff(y, g.row, g.rowStep, row);
    MemberIff(x, g.col, g.colStep, col);
    GridPartition(x, y, pass);
    MasksSelectOnePass(x, y, pass);
  }

  /** The passes of an image hold each of its pixels once and nothing else: a place is within
      the rows and columns of its pass exactly when its pixel is within the image. */
  lemma ExactPartition(width: nat, height: nat, x: nat, y: nat)
    requires width <= MAX_SIZE && height <= MAX_SIZE
    ensures x < width && y < height <==>
            exists pass: nat, row: nat, col: nat ::
              PlaceOf(x, y, pass, row, col) && row < Rows(height, pass) && col < Cols(width, pass)
    ensures forall p: nat, r: nat, c: nat, q: nat, s: nat, d: nat ::
              PlaceOf(x, y, p, r, c) && PlaceOf(x, y, q, s, d) ==> p == q && r == s && c == d
  {
    var pass, row, col := PassOf(x, y), PlaceRow(x, y), PlaceCol(x, y);
    MasksSelectOnePass(x, y, pass);
    OnePlace(x, y, pass, row, col);
    assert PlaceOf(x, y, pass, row, col);
    forall p: nat, r: nat, c: nat | PlaceOf(x, y, p, r, c) ensures p == pass && r == row && c == col {
      OnePlace(x, y, p, r, c);
      MasksSelectOnePass(x, y, p);
    }
    CountsAre(height, pass, row);
    CountsAre(width, pass, col);
  }

  // ----- the total -----

  /** ceil(n / k) for the steps of the tile. */
  function Ceil(n: nat, k: nat): int {
    Count(n, 0, k)
  }

  /** The members of the tile's odd positions are those of the finer grid and not of the
      coarser one. */
  lemma Splits(n: nat)
    ensures Count(n, 4, 8) == Ceil(n, 4) - Ceil(n, 8)
    ensures Count(n, 2, 4) == Ceil(n, 2) - Ceil(n, 4)
    ensures Count(n, 1, 2) == n - Ceil(n, 2)
    ensures Ceil(n, 1) == n
  {
    SplitEights(n / 8, n % 8);
    SplitFours(n / 4, n % 4);
    SplitTwos(n / 2, n % 2);
  }

  lemma SplitEights(q: nat, r: nat)
    requires r < 8
    ensures Count(8 * q + r, 4, 8) == Ceil(8 * q + r, 4) - Ceil(8 * q + r, 8)
  {
    assert (8 * q + r + 3) / 8 == q + (r + 3) / 8 && (8 * q + r + 7) / 8 == q + (r + 7) / 8;
    assert (8 * q + r + 3) / 4 == 2 * q + (r + 3) / 4;
  }

  lemma SplitFours(q: nat, r: nat)
    requires r < 4
    ensures Count(4 * q + r, 2, 4) == Ceil(4 * q + r, 2) - Ceil(4 * q + r, 4)
  {
    assert (4 * q + r + 1) / 4 == q + (r + 1) / 4 && (4 * q + r + 3) / 4 == q + (r + 3) / 4;
    assert (4 * q + r + 1) / 2 == 2 * q + (r + 1) / 2;
  }

  lemma SplitTwos(q: nat, r: nat)
    requires r < 2
    ensures Count(2 * q + r, 1, 2) == 2 * q + r - Ceil(2 * q + r, 2)
  {
  }

  /** The pixels of the first passes. */
  function Pixels(width: nat, height: nat, passes: nat): int
    requires passes <= PASSES
  {
    if passes == 0 then 0
    else Pixels(width, height, passes - 1) + Rows(height, passes - 1) * Cols(width, passes - 1)
  }

  lemma Grow(a: int, b: int, c: int)
    ensures a * b + a * (c - b) == a * c
    ensures b * a + (c - b) * a == c * a
  {
  }

  lemma Advance(width: nat, height: nat, pass: nat)
    requires width <= MAX_SIZE && height <= MAX_SIZE && pass < PASSES
    ensures var g := GridOf(pass);
            Pixels(width, height, pass + 1)
            == Pixels(width, height, pass) + Count(height, g.row, g.rowStep) * Count(width, g.col, g.colStep)
  {
    RowsAre(height, pass);
    ColsAre(width, pass);
  }

  /** After each pass the pixels so far fill a coarser grid completely. */
  lemma FillsEighths(width: nat, height: nat)
    requires width <= MAX_SIZE && height <= MAX_SIZE
    ensures Pixels(width, height, 1) == Ceil(height, 8) * Ceil(width, 8)
    ensures Pixels(width, height, 2) == Ceil(height, 8) * Ceil(width, 4)
  {
    Splits(width);
    Advance(width, height, 0);
    Advance(width, height, 1);
    Grow(Ceil(height, 8), Ceil(width, 8), Ceil(width, 4));
  }

  lemma FillsQuarterRows(width: nat, height: nat)
    requires width <= MAX_SIZE && height <= MAX_SIZE
    ensures Pixels(width, height, 3) == Ceil(height, 4) * Ceil(width, 4)
  {
    FillsEighths(width, height);
    Splits(height);
    Advance(width, height, 2);
    Grow(Ceil(width, 4), Ceil(height, 8), Ceil(height, 4));
  }

  lemma FillsQuarters(width: nat, height: nat)
    requires width <= MAX_SIZE && height <= MAX_SIZE
    ensures Pixels(width, height, 4) == Ceil(height, 4) * Ceil(width, 2)
  {
    FillsQuarterRows(width, height);
    Splits(width);
    Advance(width, height, 3);
    Grow(Ceil(height, 4), Ceil(width, 4), Ceil(width, 2));
  }

  lemma FillsHalfRows(width: nat, height: nat)
    requires width <= MAX_SIZE && height <= MAX_SIZE
    ensures Pixels(width, height, 5) == Ceil(height, 2) * Ceil(width, 2)
  {
    FillsQuarters(width, height);
    Splits(height);
    Advance(width, height, 4);
    Grow(Ceil(width, 2), Ceil(height, 4), Ceil(height, 2));
  }

  lemma FillsHalves(width: nat, height: nat)
    requires width <= MAX_SIZE && height <= MAX_SIZE
    ensures Pixels(width, height, 6) == Ceil(height, 2) * width
  {
    FillsHalfRows(width, height);
    Splits(width);
    Advance(width, height, 5);
    Grow(Ceil(height, 2), Ceil(width, 2), width);
  }

  /** The seven passes together have as many pixels as the image. */
  lemma PassesFillImage(width: nat, height: nat)
    requires width <= MAX_SIZE && height <= MAX_SIZE
    ensures Pixels(width, height, PASSES) == width * height
  {
    FillsHalves(width, height);
    Splits(height);
    Splits(width);
    Advance(width, height, 6);
    Grow(width, Ceil(height, 2), height);
  }
}
