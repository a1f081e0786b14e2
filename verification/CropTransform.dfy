/** pre_rotate_source of the overlay utilities: the eight overlay transforms acting on a crop
    rectangle and its frame, in 32-bit arithmetic. */
module CropTransform {
  import opened Common

  /** Coordinates and sizes as 32-bit words. */
  type Word = x: int | 0 <= x < WORD

  datatype Image = Image(frameW: Word, frameH: Word, x: Word, y: Word, w: Word, h: Word)

  /** x - (y + z) modulo 2^32. */
  function Compute(x: Word, y: Word, z: Word): Word {
    (x - y - z) % WORD
  }

  // ----- the transform word -----

  predicate FlipH(tr: nat) {
    tr % 2 == 1
  }

  predicate FlipV(tr: nat) {
    tr / 2 % 2 == 1
  }

  predicate Rot90(tr: nat) {
    tr / 4 % 2 == 1
  }

  function Code(h: bool, v: bool, r: bool): (tr: nat)
    ensures tr < 8 && FlipH(tr) == h && FlipV(tr) == v && Rot90(tr) == r
  {
    (if h then 1 else 0) + (if v then 2 else 0) + (if r then 4 else 0)
  }

  function FlippedH(g: Image): Image {
    g.(x := Compute(g.frameW, g.x, g.w))
  }

  function FlippedV(g: Image): Image {
    g.(y := Compute(g.frameH, g.y, g.h))
  }

  function Rotated(g: Image): Image {
    Image(g.frameH, g.frameW, Compute(g.frameH, g.y, g.h), g.x, g.h, g.w)
  }

  function Flip(h: bool, v: bool, g: Image): Image {
    var g1 := if h then FlippedH(g) else g;
    if v then FlippedV(g1) else g1
  }

  /** The flips, then the rotation. */
  function Act(h: bool, v: bool, r: bool, g: Image): Image {
    if r then Rotated(Flip(h, v, g)) else Flip(h, v, g)
  }

  function PreRotate(tr: nat, g: Image): Image {
    Act(FlipH(tr), FlipV(tr), Rot90(tr), g)
  }

  class Whf {
    var w: Word
    var h: Word

    constructor (width: Word, height: Word)
      ensures w == width && h == height
    {
      w, h := width, height;
    }
  }

  class Dim {
    var x: Word
    var y: Word
    var w: Word
    var h: Word

    constructor (left: Word, top: Word, width: Word, height: Word)
      ensures x == left && y == top && w == width && h == height
    {
      x, y, w, h := left, top, width, height;
    }
  }

  ghost function ImageOf(whf: Whf, crop: Dim): Image
    reads whf, crop
  {
    Image(whf.w, whf.h, crop.x, crop.y, crop.w, crop.h)
  }

  /** pre_rotate_source: both arguments are updated in place. */
  method PreRotateSource(tr: nat, whf: Whf, crop: Dim)
    modifies whf, crop
    ensures ImageOf(whf, crop) == PreRotate(tr, old(ImageOf(whf, crop)))
  {
    if FlipH(tr) {
      crop.x := Compute(whf.w, crop.x, crop.w);
    }
    if FlipV(tr) {
      crop.y := Compute(whf.h, crop.y, crop.h);
    }
    if Rot90(tr) {
      var tmp := crop.x;
      crop.x := Compute(whf.h, crop.y, crop.h);
      crop.y := tmp;
      whf.w, whf.h := whf.h, whf.w;
      crop.w, crop.h := crop.h, crop.w;
    }
  }

  // ----- the group law -----

  /** One transform for a followed by b: a rotation exchanges the flips that come after it,
      and two rotations are both flips. */
  function Compose(a: nat, b: nat): nat {
    var h := if Rot90(a) then FlipV(b) else FlipH(b);
    var v := if Rot90(a) then FlipH(b) else FlipV(b);
    var both := Rot90(a) && Rot90(b);
    Code(FlipH(a) != (h != both), FlipV(a) != (v != both), Rot90(a) != Rot90(b))
  }

  lemma ComputeTwice(f: Word, x: Word, c: Word)
    ensures Compute(f, Compute(f, x, c), c) == x
  {
    var d := f - x - c;
    var k := d / WORD;
    assert d == k * WORD + d % WORD;
    assert f - d % WORD - c == x + k * WORD;
    Shift(x, k);
  }

  lemma Shift(x: Word, k: int)
    ensures (x + k * WORD) % WORD == x
  {
  }

  lemma FlipsCompose(h1: bool, v1: bool, h2: bool, v2: bool, g: Image)
    ensures Flip(h2, v2, Flip(h1, v1, g)) == Flip(h1 != h2, v1 != v2, g)
  {
    ComputeTwice(g.frameW, g.x, g.w);
    ComputeTwice(g.frameH, g.y, g.h);
  }

  /** Flips after the rotation are the other flips before it. */
  lemma FlipThroughRotation(h: bool, v: bool, g: Image)
    ensures Flip(h, v, Rotated(g)) == Rotated(Flip(v, h, g))
  {
  }

  lemma RotateTwice(g: Image)
    ensures Rotated(Rotated(g)) == Flip(true, true, g)
  {
  }

  lemma ActCompose(h1: bool, v1: bool, r1: bool, h2: bool, v2: bool, r2: bool, g: Image)
    ensures var h, v := if r1 then v2 else h2, if r1 then h2 else v2;
            Act(h2, v2, r2, Act(h1, v1, r1, g)) == Act(h1 != (h != (r1 && r2)), v1 != (v != (r1 && r2)), r1 != r2, g)
  {
    var first := Flip(h1, v1, g);
    if r1 {
      FlipThroughRotation(h2, v2, first);
      FlipsCompose(h1, v1, v2, h2, g);
      if r2 {
        RotateTwice(Flip(v2, h2, first));
        FlipsCompose(h1 != v2, v1 != h2, true, true, g);
      }
    } else {
      FlipsCompose(h1, v1, h2, v2, g);
    }
  }

  /** Over every frame and every crop, inside it or not, any two applications equal the single
      one of the group's table. */
  lemma ComposeIs(a: nat, b: nat, g: Image)
    ensures PreRotate(b, PreRotate(a, g)) == PreRotate(Compose(a, b), g)
  {
    ActCompose(FlipH(a), FlipV(a), Rot90(a), FlipH(b), FlipV(b), Rot90(b), g);
  }

  lemma TurnedAfterFlip(g: Image)
    ensures Rotated(FlippedV(g)) == Image(g.frameH, g.frameW, g.y, g.x, g.h, g.w)
  {
    ComputeTwice(g.frameH, g.y, g.h);
  }

  /** The eight transforms by their numbers: 1 mirrors the columns, 2 the lines, 3 both, 4 is a quarter
      turn, 7 a turn by three quarters, 5 and 6 are quarter turns of the mirrored image. */
  lemma TransformTable(g: Image)
    ensures var x, y := (g.frameW - g.x - g.w) % WORD, (g.frameH - g.y - g.h) % WORD;
            && PreRotate(0, g) == g
            && PreRotate(1, g) == Image(g.frameW, g.frameH, x, g.y, g.w, g.h)
            && PreRotate(2, g) == Image(g.frameW, g.frameH, g.x, y, g.w, g.h)
            && PreRotate(3, g) == Image(g.frameW, g.frameH, x, y, g.w, g.h)
            && PreRotate(4, g) == Image(g.frameH, g.frameW, y, g.x, g.h, g.w)
            && PreRotate(5, g) == Image(g.frameH, g.frameW, y, x, g.h, g.w)
            && PreRotate(6, g) == Image(g.frameH, g.frameW, g.y, g.x, g.h, g.w)
            && PreRotate(7, g) == Image(g.frameH, g.frameW, g.y, x, g.h, g.w)
  {
    TurnedAfterFlip(g);
    TurnedAfterFlip(FlippedH(g));
  }

  const ROT_90 := 4
  const ROT_270 := 7

  function Inverse(tr: nat): nat {
    if tr == ROT_90 then ROT_270 else if tr == ROT_270 then ROT_90 else tr
  }

  lemma InverseComposes(tr: nat)
    requires tr < 8
    ensures Compose(tr, Inverse(tr)) == 0
  {
  }

  /** Every transform undoes itself, except the two quarter turns, which undo each other. */
  lemma InverseUndoes(tr: nat, g: Image)
    requires tr < 8
    ensures PreRotate(Inverse(tr), PreRotate(tr, g)) == g
  {
    ComposeIs(tr, Inverse(tr), g);
    InverseComposes(tr);
  }

  const WITNESS := Image(3, 5, 0, 1, 1, 1)

  /** The eight transforms are eight: on this crop no two agree. */
  lemma Faithful(a: nat, b: nat)
    requires a < 8 && b < 8 && PreRotate(a, WITNESS) == PreRotate(b, WITNESS)
    ensures a == b
  {
  }

  /** No other transform undoes tr on every crop. */
  lemma OnlyInverse(a: nat, b: nat)
    requires a < 8 && b < 8 && PreRotate(b, PreRotate(a, WITNESS)) == WITNESS
    ensures b == Inverse(a)
  {
    InverseUndoes(a, WITNESS);
  }

  // ----- the crop as a set of pixels -----

  predicate InFrame(g: Image) {
    g.x + g.w <= g.frameW && g.y + g.h <= g.frameH
  }

  /** The pixel that a transform of a w by h frame carries (px, py) to. */
  function PixelX(tr: nat, w: int, h: int, px: int, py: int): int {
    if Rot90(tr) then (if FlipV(tr) then py else h - 1 - py) else if FlipH(tr) then w - 1 - px else px
  }

  function PixelY(tr: nat, w: int, h: int, px: int, py: int): int {
    if Rot90(tr) then (if FlipH(tr) then w - 1 - px else px) else if FlipV(tr) then h - 1 - py else py
  }

  /** Where the eight transforms carry a pixel. */
  lemma PixelTable(w: int, h: int, px: int, py: int)
    ensures PixelX(0, w, h, px, py) == px && PixelY(0, w, h, px, py) == py
    ensures PixelX(1, w, h, px, py) == w - 1 - px && PixelY(1, w, h, px, py) == py
    ensures PixelX(2, w, h, px, py) == px && PixelY(2, w, h, px, py) == h - 1 - py
    ensures PixelX(3, w, h, px, py) == w - 1 - px && PixelY(3, w, h, px, py) == h - 1 - py
    ensures PixelX(4, w, h, px, py) == h - 1 - py && PixelY(4, w, h, px, py) == px
    ensures PixelX(5, w, h, px, py) == h - 1 - py && PixelY(5, w, h, px, py) == w - 1 - px
    ensures PixelX(6, w, h, px, py) == py && PixelY(6, w, h, px, py) == px
    ensures PixelX(7, w, h, px, py) == py && PixelY(7, w, h, px, py) == w - 1 - px
  {
  }

  predicate Inside(g: Image, px: int, py: int) {
    g.x <= px < g.x + g.w && g.y <= py < g.y + g.h
  }

  predicate OnFrame(g: Image, px: int, py: int) {
    0 <= px < g.frameW && 0 <= py < g.frameH
  }

  lemma ComputeInside(f: Word, x: Word, c: Word)
    requires x + c <= f
    ensures Compute(f, x, c) == f - x - c
  {
  }

  /** A crop inside its frame stays inside the new frame, and a pixel of the old frame lies in
      the old crop exactly when its image, a pixel of the new frame, lies in the new crop. */
  lemma CropIsImage(tr: nat, g: Image, px: int, py: int)
    requires InFrame(g)
    ensures InFrame(PreRotate(tr, g))
    ensures var qx, qy := PixelX(tr, g.frameW, g.frameH, px, py), PixelY(tr, g.frameW, g.frameH, px, py);
            && (Inside(g, px, py) <==> Inside(PreRotate(tr, g), qx, qy))
            && (OnFrame(g, px, py) <==> OnFrame(PreRotate(tr, g), qx, qy))
  {
    ComputeInside(g.frameW, g.x, g.w);
    ComputeInside(g.frameH, g.y, g.h);
    var x, y := g.frameW - g.x - g.w, g.frameH - g.y - g.h;
    ComputeInside(g.frameW, x, g.w);
    ComputeInside(g.frameH, y, g.h);
  }

  lemma FrameTurned(tr: nat, g: Image)
    ensures PreRotate(tr, g).frameW == if Rot90(tr) then g.frameH else g.frameW
    ensures PreRotate(tr, g).frameH == if Rot90(tr) then g.frameW else g.frameH
  {
  }

  lemma PixelBack(tr: nat, w: int, h: int, qx: int, qy: int)
    requires tr < 8
    ensures var w', h' := if Rot90(tr) then h else w, if Rot90(tr) then w else h;
            var px, py := PixelX(Inverse(tr), w', h', qx, qy), PixelY(Inverse(tr), w', h', qx, qy);
            PixelX(tr, w, h, px, py) == qx && PixelY(tr, w, h, px, py) == qy
  {
  }

  /** Every pixel of the new crop is the image of a pixel of the old one: the inverse transform
      carries it back. */
  lemma CropIsOnto(tr: nat, g: Image, qx: int, qy: int) returns (px: int, py: int)
    requires tr < 8 && InFrame(g) && Inside(PreRotate(tr, g), qx, qy)
    ensures Inside(g, px, py)
    ensures PixelX(tr, g.frameW, g.frameH, px, py) == qx && PixelY(tr, g.frameW, g.frameH, px, py) == qy
  {
    var to := PreRotate(tr, g);
    px := PixelX(Inverse(tr), to.frameW, to.frameH, qx, qy);
    py := PixelY(Inverse(tr), to.frameW, to.frameH, qx, qy);
    FrameTurned(tr, g);
    PixelBack(tr, g.frameW, g.frameH, qx, qy);
    CropIsImage(tr, g, px, py);
  }
}
