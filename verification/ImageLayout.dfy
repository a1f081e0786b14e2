/** Two computations of the memory layout of an image: GDMGetImageInfo in the camera
    application and MScalerGetPlaneInfo in the scaler library. */
module ImageLayout {
  import opened Common

  datatype PixelFormat =
    | UYVY | VYUY | YUYV | YVYU | NV16 | NV61 | YUV422P | YUV420
    | NV12 | NV21 | NV12M | NV21M | YUV420M | RGB32 | BGR32 | RGB565

  // ----- the scaler's side -----

  datatype HwFormat = Fmt422P1 | Fmt422P2 | Fmt422P3 | Fmt420P2 | Fmt420P3 | FmtArgb | FmtRgb565

  /** A three-element array of the source, unused elements zero. */
  datatype Three = Three(x0: nat, x1: nat, x2: nat)

  function At(t: Three, i: nat): nat {
    if i == 0 then t.x0 else if i == 1 then t.x1 else if i == 2 then t.x2 else 0
  }

  function Sum(t: Three): nat {
    t.x0 + t.x1 + t.x2
  }

  /** The pixelFormats table: planes, bits per pixel of each plane, hardware format. */
  datatype ScalerFormat = ScalerFormat(planes: nat, bits: Three, hw: HwFormat)

  function ScalerFormatOf(f: PixelFormat): ScalerFormat {
    match f
    case UYVY => ScalerFormat(1, Three(16, 0, 0), Fmt422P1)
    case VYUY => ScalerFormat(1, Three(16, 0, 0), Fmt422P1)
    case YUYV => ScalerFormat(1, Three(16, 0, 0), Fmt422P1)
    case YVYU => ScalerFormat(1, Three(16, 0, 0), Fmt422P1)
    case NV16 => ScalerFormat(1, Three(16, 0, 0), Fmt422P2)
    case NV61 => ScalerFormat(1, Three(16, 0, 0), Fmt422P2)
    case YUV422P => ScalerFormat(1, Three(16, 0, 0), Fmt422P3)
    case YUV420 => ScalerFormat(1, Three(12, 0, 0), Fmt420P3)
    case NV12 => ScalerFormat(1, Three(12, 0, 0), Fmt420P2)
    case NV21 => ScalerFormat(1, Three(12, 0, 0), Fmt420P2)
    case NV12M => ScalerFormat(2, Three(8, 4, 0), Fmt420P2)
    case NV21M => ScalerFormat(2, Three(8, 4, 0), Fmt420P2)
    case YUV420M => ScalerFormat(3, Three(8, 2, 2), Fmt420P3)
    case RGB32 => ScalerFormat(1, Three(32, 0, 0), FmtArgb)
    case BGR32 => ScalerFormat(1, Three(32, 0, 0), FmtArgb)
    case RGB565 => ScalerFormat(1, Three(16, 0, 0), FmtRgb565)
  }

  datatype Rect = Rect(left: int, top: int, width: int, height: int)

  datatype ImageFormat = ImageFormat(width: nat, height: nat, pixelFormat: PixelFormat, crop: Rect)

  const MAX_WIDTH := 4208
  const MAX_HEIGHT := 4120

  /** Sizes are multiples of 16 by 2 within the limits; a source crop is aligned too. */
  predicate IsValidImageFormat(f: ImageFormat, isDst: bool) {
    && f.width <= MAX_WIDTH && f.height <= MAX_HEIGHT
    && f.width % 16 == 0 && f.height % 2 == 0
    && (isDst || (f.crop.left % 16 == 0 && f.crop.top % 2 == 0 && f.crop.width % 16 == 0 && f.crop.height % 2 == 0))
  }

  /** One component of a plane: bytes per line, bytes between lines, lines. */
  datatype Component = Component(bpl: nat, stride: nat, height: nat)

  function Align4(x: nat): nat {
    (x + 3) / 4 * 4
  }

  function Align8(x: nat): nat {
    (x + 7) / 8 * 8
  }

  function Comp4(bpl: nat, height: nat): Component {
    Component(bpl, Align4(bpl), height)
  }

  function Comp8(bpl: nat, height: nat): Component {
    Component(bpl, Align8(bpl), height)
  }

  /** The components MScalerGetPlaneInfo reports for one plane of an image. */
  function PlaneInfo(f: PixelFormat, w: nat, h: nat, plane: nat): (pi: seq<Component>)
    requires plane < ScalerFormatOf(f).planes
    ensures 1 <= |pi| <= 3
    ensures forall i :: 0 <= i < |pi| ==> pi[i].bpl <= pi[i].stride
  {
    match ScalerFormatOf(f).hw
    case Fmt422P1 => [Comp4(w * 2, h)]
    case Fmt422P2 => [Comp8(w, h), Comp8(w, h)]
    case Fmt422P3 => [Comp8(w, h), Comp8(w / 2, h), Comp8(w / 2, h)]
    case Fmt420P2 =>
      if ScalerFormatOf(f).planes == 1 then [Comp8(w, h), Comp8(w, h / 2)]
      else [Comp8(w, if plane == 0 then h else h / 2)]
    case Fmt420P3 => if plane == 0 then [Comp8(w, h)] else [Comp8(w / 2, h / 2)]
    case FmtArgb => [Comp4(w * 4, h)]
    case FmtRgb565 => [Comp4(w * 2, h)]
  }

  // ----- the application's side -----

  /** An entry of imageFormats: bits per pixel and vertical divisor of each component. */
  datatype GdmFormat = GdmFormat(pixelFormat: PixelFormat, planes: nat, components: nat, bits: Three, vdiv: Three)

  const FORMAT_COUNT: nat := 15

  /** The imageFormats table. */
  function TableEntry(k: nat): GdmFormat
    requires k < FORMAT_COUNT
  {
    if k == 0 then GdmFormat(UYVY, 1, 1, Three(16, 0, 0), Three(1, 0, 0))
    else if k == 1 then GdmFormat(VYUY, 1, 1, Three(16, 0, 0), Three(1, 0, 0))
    else if k == 2 then GdmFormat(YUYV, 1, 1, Three(16, 0, 0), Three(1, 0, 0))
    else if k == 3 then GdmFormat(YVYU, 1, 1, Three(16, 0, 0), Three(1, 0, 0))
    else if k == 4 then GdmFormat(NV16, 1, 2, Three(8, 8, 0), Three(1, 1, 0))
    else if k == 5 then GdmFormat(NV61, 1, 2, Three(8, 8, 0), Three(1, 1, 0))
    else if k == 6 then GdmFormat(YUV422P, 1, 3, Three(8, 4, 4), Three(1, 1, 1))
    else if k == 7 then GdmFormat(NV12, 1, 2, Three(8, 4, 0), Three(1, 2, 0))
    else if k == 8 then GdmFormat(NV12M, 2, 2, Three(8, 4, 0), Three(1, 2, 0))
    else if k == 9 then GdmFormat(NV21, 1, 2, Three(8, 4, 0), Three(1, 2, 0))
    else if k == 10 then GdmFormat(NV21M, 2, 2, Three(8, 4, 0), Three(1, 2, 0))
    else if k == 11 then GdmFormat(YUV420M, 3, 3, Three(8, 2, 2), Three(1, 2, 2))
    else if k == 12 then GdmFormat(RGB32, 1, 1, Three(32, 0, 0), Three(1, 0, 0))
    else if k == 13 then GdmFormat(BGR32, 1, 1, Three(32, 0, 0), Three(1, 0, 0))
    else GdmFormat(RGB565, 1, 1, Three(16, 0, 0), Three(1, 0, 0))
  }

  ghost predicate Listed(f: PixelFormat) {
    f != YUV420
  }

  /** Every format of the scaler but contiguous YUV420 is in the table. */
  lemma ListedIff(f: PixelFormat)
    ensures Listed(f) <==> exists k :: 0 <= k < FORMAT_COUNT && TableEntry(k).pixelFormat == f
  {
    if Listed(f) {
      var k := match f
        case UYVY => 0 case VYUY => 1 case YUYV => 2 case YVYU => 3 case NV16 => 4 case NV61 => 5
        case YUV422P => 6 case NV12 => 7 case NV12M => 8 case NV21 => 9 case NV21M => 10
        case YUV420M => 11 case RGB32 => 12 case BGR32 => 13 case RGB565 => 14 case YUV420 => 0;
      assert TableEntry(k).pixelFormat == f;
    }
  }

  predicate WellFormed(e: GdmFormat) {
    && 1 <= e.components <= 3
    && forall i :: 0 <= i < e.components ==> At(e.vdiv, i) > 0
  }

  /** 32-bit unsigned arithmetic. */
  function U(x: nat): nat {
    if x < WORD then x else x % WORD
  }

  /** a * b, by recursion. */
  function Times(a: nat, b: nat): nat {
    if b == 0 then 0 else Times(a, b - 1) + a
  }

  lemma {:induction false} TimesIs(a: nat, b: nat)
    ensures Times(a, b) == a * b
  {
    if b > 0 {
      TimesIs(a, b - 1);
      assert a * (b - 1) == a * b - a;
    }
  }

  /** x / align * align, by recursion. */
  function AlignDown(x: nat, align: nat): (r: nat)
    requires align > 0
    ensures r <= x < r + align
  {
    if x < align then 0 else align + AlignDown(x - align, align)
  }

  /** The recursion computes the quotient times the divisor. */
  lemma {:induction false} AlignDownIs(x: nat, align: nat, q: nat)
    requires align > 0 && Times(align, q) <= x < Times(align, q) + align
    ensures AlignDown(x, align) == Times(align, q)
    decreases q
  {
    if q > 0 {
      AlignDownIs(x - align, align, q - 1);
    }
  }

  lemma AlignDown8(x: nat)
    ensures AlignDown(x, 8) == x / 8 * 8
  {
    TimesIs(8, x / 8);
    AlignDownIs(x, 8, x / 8);
  }

  datatype GdmPlane = GdmPlane(offset: nat, stride: nat, bpl: nat, lines: nat)

  /** ((w * bits + 7) >> 3) * vdiv. */
  function Bpl(bits: nat, vdiv: nat, w: nat): nat {
    U(Times(U(U(Times(w, bits)) + 7) / 8, vdiv))
  }

  function BplOf(e: GdmFormat, i: nat, w: nat): nat {
    Bpl(At(e.bits, i), At(e.vdiv, i), w)
  }

  /** (bpl + align - 1) / align * align. */
  function StrideOf(bpl: nat, align: nat): nat
    requires align > 0
  {
    U(AlignDown(U(bpl + align - 1), align))
  }

  function LinesOf(e: GdmFormat, i: nat, h: nat): nat
    requires At(e.vdiv, i) > 0
  {
    h / At(e.vdiv, i)
  }

  /** The offset accumulated before component i. */
  function OffsetOf(e: GdmFormat, i: nat, w: nat, h: nat, align: nat): nat
    requires WellFormed(e) && i <= e.components && align > 0
  {
    if i == 0 || e.components == e.planes then 0
    else U(OffsetOf(e, i - 1, w, h, align) + U(Times(StrideOf(BplOf(e, i - 1, w), align), LinesOf(e, i - 1, h))))
  }

  function GdmPlaneOf(e: GdmFormat, i: nat, w: nat, h: nat, align: nat): GdmPlane
    requires WellFormed(e) && i < e.components && align > 0
  {
    GdmPlane(OffsetOf(e, i, w, h, align), StrideOf(BplOf(e, i, w), align), BplOf(e, i, w), LinesOf(e, i, h))
  }

  class ImageInfo {
    var width: nat
    var height: nat
    var pixelFormat: PixelFormat
    var align: nat
    var planeCount: nat
    var planeCountPhy: nat
    var plane: array<GdmPlane>

    constructor (w: nat, h: nat, f: PixelFormat, a: nat)
      ensures width == w && height == h && pixelFormat == f && align == a && plane.Length == 3 && fresh(plane)
    {
      width, height, pixelFormat, align := w, h, f, a;
      planeCount, planeCountPhy := 0, 0;
      plane := new GdmPlane[3](_ => GdmPlane(0, 0, 0, 0));
    }

    /** The index of the table entry of the pixel format, or the table length. */
    method Lookup() returns (i: nat)
      ensures i <= FORMAT_COUNT
      ensures i < FORMAT_COUNT ==> TableEntry(i).pixelFormat == pixelFormat
      ensures i == FORMAT_COUNT ==> forall k :: 0 <= k < FORMAT_COUNT ==> TableEntry(k).pixelFormat != pixelFormat
    {
      i := 0;
      while i < FORMAT_COUNT
        invariant i <= FORMAT_COUNT
        invariant forall k :: 0 <= k < i ==> TableEntry(k).pixelFormat != pixelFormat
      {
        if pixelFormat == TableEntry(i).pixelFormat {
          return;
        }
        i := i + 1;
      }
    }

    /** The loop over the components. */
    method FillPlanes(fmt: GdmFormat)
      requires WellFormed(fmt) && align > 0 && plane.Length == 3
      modifies plane
      ensures forall i :: 0 <= i < fmt.components ==> plane[i] == GdmPlaneOf(fmt, i, width, height, align)
      ensures forall i :: fmt.components <= i < 3 ==> plane[i] == old(plane[i])
    {
      var offset := 0;
      for i := 0 to fmt.components
        invariant offset == OffsetOf(fmt, i, width, height, align)
        invariant forall j :: 0 <= j < i ==> plane[j] == GdmPlaneOf(fmt, j, width, height, align)
        invariant forall j :: i <= j < 3 ==> plane[j] == old(plane[j])
      {
        var bpl := BplOf(fmt, i, width);
        var stride := StrideOf(bpl, align);
        var lines := LinesOf(fmt, i, height);
        plane[i] := GdmPlane(offset, stride, bpl, lines);
        if fmt.components != fmt.planes {
          offset := U(offset + U(Times(stride, lines)));
        }
      }
    }

    /** GDMGetImageInfo, for the arguments its asserts admit. */
    method GetImageInfo() returns (k: nat)
      requires width > 0 && height > 0 && align > 0 && plane.Length == 3 && Listed(pixelFormat)
      modifies this`planeCount, this`planeCountPhy, plane
      ensures k < FORMAT_COUNT && TableEntry(k).pixelFormat == pixelFormat && WellFormed(TableEntry(k))
      ensures planeCount == TableEntry(k).components && planeCountPhy == TableEntry(k).planes
      ensures forall i :: 0 <= i < planeCount ==> plane[i] == GdmPlaneOf(TableEntry(k), i, width, height, align)
    {
      ListedIff(pixelFormat);
      k := Lookup();
      var fmt := TableEntry(k);
      EntryMatches(k);
      planeCountPhy := fmt.planes;
      planeCount := fmt.components;
      FillPlanes(fmt);
    }
  }

  // ----- lines and strides -----

  lemma MoreMultiple(x: nat, align: nat)
    requires align > 0
    ensures (x + align) % align == x % align
  {
    var q, r := x / align, x % align;
    assert x + align == align * (q + 1) + r;
    OneQuotient(align, (x + align) / align, (x + align) % align, q + 1, r);
  }

  lemma OneQuotient(d: nat, q: nat, r: nat, q': nat, r': nat)
    requires r < d && r' < d && d * q + r == d * q' + r'
    ensures r == r'
  {
    if q < q' {
      Ahead(d, q, q');
    } else if q' < q {
      Ahead(d, q', q);
    }
  }

  lemma Ahead(d: nat, q: nat, q': nat)
    requires q < q'
    ensures d * q + d <= d * q'
  {
    assert d * q + d == d * (q + 1);
    assert d * (q' - (q + 1)) >= 0;
  }

  lemma {:induction false} AlignDownMultiple(x: nat, align: nat)
    requires align > 0
    ensures AlignDown(x, align) % align == 0
  {
    if x >= align {
      AlignDownMultiple(x - align, align);
      MoreMultiple(AlignDown(x - align, align), align);
    }
  }

  /** A stride is a multiple of the alignment: the last one up to the padded length as 32 bits hold it. */
  lemma StrideIs(bpl: nat, align: nat)
    requires align > 0
    ensures StrideOf(bpl, align) % align == 0
    ensures StrideOf(bpl, align) <= (bpl + align - 1) % WORD < StrideOf(bpl, align) + align
  {
    AlignDownMultiple(U(bpl + align - 1), align);
  }

  /** As long as the padded length fits 32 bits, that is the least multiple that holds the line. */
  lemma StrideLeast(bpl: nat, align: nat)
    requires align > 0 && bpl + align - 1 < WORD
    ensures StrideOf(bpl, align) % align == 0 && bpl <= StrideOf(bpl, align) < bpl + align
  {
    StrideIs(bpl, align);
  }

  /** A chroma line of 360 bytes takes 368 at an alignment of 16. */
  lemma StrideExample(align: nat)
    requires align == 16
    ensures StrideOf(360, align) == 368
  {
    StrideLeast(360, align);
  }

  /** The bytes of a line of w pixels: the fewest that hold its bits, times the vertical divisor, as
      long as they fit 32 bits. */
  lemma BplLeast(bits: nat, vdiv: nat, w: nat) returns (bytes: nat)
    requires w * bits + 7 < WORD && (w * bits + 7) / 8 * vdiv < WORD
    ensures 8 * bytes - 8 < w * bits <= 8 * bytes && Bpl(bits, vdiv, w) == bytes * vdiv
  {
    TimesIs(w, bits);
    bytes := (w * bits + 7) / 8;
    TimesIs(bytes, vdiv);
  }

  /** The plane of a component that GDMGetImageInfo reports: for every entry, size and alignment, a
      stride that is a multiple of the alignment and, when it fits, the least that holds the line; and
      the lines of the image, halved rounding down where the component has half of them. */
  lemma PlaneIs(e: GdmFormat, i: nat, w: nat, h: nat, align: nat)
    requires WellFormed(e) && i < e.components && align > 0
    ensures var p := GdmPlaneOf(e, i, w, h, align);
            && p.stride % align == 0
            && (p.bpl + align - 1 < WORD ==> p.bpl <= p.stride < p.bpl + align)
            && (At(e.vdiv, i) == 1 ==> p.lines == h)
            && (At(e.vdiv, i) == 2 ==> 2 * p.lines == h || 2 * p.lines + 1 == h)
  {
    StrideIs(BplOf(e, i, w), align);
  }

  /** The scaler's strides are the least multiples of 4 and 8 that hold the line. */
  lemma ScalerStrides(bpl: nat, height: nat)
    ensures var c := Comp4(bpl, height); c.stride % 4 == 0 && bpl <= c.stride < bpl + 4
    ensures var c := Comp8(bpl, height); c.stride % 8 == 0 && bpl <= c.stride < bpl + 8
    ensures Comp4(bpl, height).bpl == bpl == Comp8(bpl, height).bpl
    ensures Comp4(bpl, height).height == height == Comp8(bpl, height).height
  {
  }

  // ----- agreement -----

  ghost predicate Accepted(w: nat, h: nat) {
    0 < w <= MAX_WIDTH && 0 < h <= MAX_HEIGHT && w % 16 == 0 && h % 2 == 0
  }

  /** The sizes isValidImageFormat accepts for a destination, and among them those it accepts
      for a source. */
  lemma AcceptedIff(f: ImageFormat)
    ensures Accepted(f.width, f.height) <==> IsValidImageFormat(f, true) && f.width > 0 && f.height > 0
    ensures IsValidImageFormat(f, false) ==> IsValidImageFormat(f, true)
  {
  }

  /** Bits per pixel and planes of every format of the scaler: 16 for the 4:2:2 formats and RGB565, 12 for
      4:2:0, 32 for the others; one plane, but two or three for the formats whose name says so. */
  lemma ScalerBits(f: PixelFormat)
    ensures Sum(ScalerFormatOf(f).bits) ==
            if f in {RGB32, BGR32} then 32 else if f in {YUV420, NV12, NV21, NV12M, NV21M, YUV420M} then 12 else 16
    ensures ScalerFormatOf(f).planes == if f in {NV12M, NV21M} then 2 else if f == YUV420M then 3 else 1
  {
  }

  /** No bits below the alignment. */
  predicate WholeBlocks(x: int, block: int)
    requires block > 0
  {
    x / block * block == x
  }

  /** A format is valid when its size is a number of whole 16 by 2 blocks within 4208 by 4120 and, for a
      source, its crop starts and ends on blocks too. */
  lemma ValidFormatIff(f: ImageFormat, isDst: bool)
    ensures IsValidImageFormat(f, isDst) <==>
            && WholeBlocks(f.width, 16) && f.width <= 4208 && WholeBlocks(f.height, 2) && f.height <= 4120
            && (!isDst ==>
                  && WholeBlocks(f.crop.left, 16) && WholeBlocks(f.crop.left + f.crop.width, 16)
                  && WholeBlocks(f.crop.top, 2) && WholeBlocks(f.crop.top + f.crop.height, 2))
  {
  }

  /** The entry a hardware format calls for. */
  function EntryFor(f: PixelFormat): GdmFormat {
    match ScalerFormatOf(f).hw
    case Fmt422P1 => GdmFormat(f, 1, 1, Three(16, 0, 0), Three(1, 0, 0))
    case Fmt422P2 => GdmFormat(f, 1, 2, Three(8, 8, 0), Three(1, 1, 0))
    case Fmt422P3 => GdmFormat(f, 1, 3, Three(8, 4, 4), Three(1, 1, 1))
    case Fmt420P2 => GdmFormat(f, ScalerFormatOf(f).planes, 2, Three(8, 4, 0), Three(1, 2, 0))
    case Fmt420P3 => GdmFormat(f, 3, 3, Three(8, 2, 2), Three(1, 2, 2))
    case FmtArgb => GdmFormat(f, 1, 1, Three(32, 0, 0), Three(1, 0, 0))
    case FmtRgb565 => GdmFormat(f, 1, 1, Three(16, 0, 0), Three(1, 0, 0))
  }

  ghost predicate Matches(e: GdmFormat) {
    Listed(e.pixelFormat) && e == EntryFor(e.pixelFormat)
  }

  /** The application's table describes the components of the scaler's hardware formats. */
  lemma EntryMatches(k: nat)
    requires k < FORMAT_COUNT
    ensures Matches(TableEntry(k)) && WellFormed(TableEntry(k))
  {
    MatchesWell(TableEntry(k));
  }

  lemma MatchesWell(e: GdmFormat)
    requires Matches(e)
    ensures WellFormed(e)
  {
  }

  lemma ProductBound(a: nat, b: nat, c: nat, d: nat)
    requires a <= c && b <= d
    ensures a * b <= c * d
  {
    assert a * b <= c * b;
    assert c * b <= c * d;
  }

  lemma SmallBpl(bits: nat, vdiv: nat, w: nat, t: nat)
    requires Times(w, bits) == t <= 200000 && (vdiv == 1 || vdiv == 2)
    ensures Bpl(bits, vdiv, w) == (t + 7) / 8 * vdiv
  {
    TimesIs((t + 7) / 8, vdiv);
  }

  lemma BplBy(bits: nat, w: nat, t: nat)
    requires bits <= 32 && w <= MAX_WIDTH && t == w * bits
    ensures Bpl(bits, 1, w) == (t + 7) / 8 && Bpl(bits, 2, w) == (t + 7) / 8 * 2
  {
    TimesIs(w, bits);
    ProductBound(w, bits, MAX_WIDTH, 32);
    SmallBpl(bits, 1, w, t);
    SmallBpl(bits, 2, w, t);
  }

  lemma Eighths(w: nat)
    requires w % 16 == 0
    ensures (w * 32 + 7) / 8 == 4 * w && (w * 16 + 7) / 8 == 2 * w && (w * 8 + 7) / 8 == w
    ensures (w * 4 + 7) / 8 == w / 2 && (w * 4 + 7) / 8 * 2 == w && (w * 2 + 7) / 8 * 2 == w / 2
  {
    var a := w / 16;
    assert w == 16 * a;
  }

  /** Bits per pixel, vertical divisor and bytes per line of a component of the table. */
  ghost predicate LineShape(bits: nat, vdiv: nat, w: nat, bpl: nat) {
    || (bits == 32 && vdiv == 1 && bpl == 4 * w)
    || (bits == 16 && vdiv == 1 && bpl == 2 * w)
    || (bits == 8 && vdiv == 1 && bpl == w)
    || (bits == 4 && vdiv == 1 && 2 * bpl == w)
    || (bits == 4 && vdiv == 2 && bpl == w)
    || (bits == 2 && vdiv == 2 && 2 * bpl == w)
  }

  lemma BplLiteral(bits: nat, vdiv: nat, w: nat)
    requires w <= MAX_WIDTH && w % 16 == 0
    requires vdiv == 1 || vdiv == 2
    requires vdiv == 1 ==> bits == 32 || bits == 16 || bits == 8 || bits == 4
    requires vdiv == 2 ==> bits == 4 || bits == 2
    ensures LineShape(bits, vdiv, w, Bpl(bits, vdiv, w))
  {
    Eighths(w);
    BplBy(bits, w, w * bits);
  }

  lemma ComponentShape(e: GdmFormat, w: nat, i: nat)
    requires Matches(e) && i < e.components && w <= MAX_WIDTH && w % 16 == 0
    ensures LineShape(At(e.bits, i), At(e.vdiv, i), w, BplOf(e, i, w))
  {
    BplLiteral(At(e.bits, i), At(e.vdiv, i), w);
  }

  function Share(bits: nat, vdiv: nat): nat {
    if vdiv == 1 then bits else if bits == 4 then 8 else 4
  }

  lemma ShareIs(bits: nat, vdiv: nat, w: nat, bpl: nat)
    requires LineShape(bits, vdiv, w, bpl)
    ensures bits * vdiv == Share(bits, vdiv)
  {
  }

  /** w times a share of the table, by literal products. */
  function Scaled(w: nat, share: nat): nat {
    match share
    case 32 => w * 32
    case 16 => w * 16
    case 8 => w * 8
    case 4 => w * 4
    case _ => 0
  }

  lemma ScaledIs(w: nat, share: nat)
    requires share == 32 || share == 16 || share == 8 || share == 4
    ensures Scaled(w, share) == w * share
  {
  }

  lemma ShareBytes(a: nat, bits: nat, vdiv: nat, w: nat, bpl: nat)
    requires w == 16 * a && LineShape(bits, vdiv, w, bpl)
    ensures bpl * 8 == Scaled(w, Share(bits, vdiv))
  {
  }

  lemma ShapeArea(bits: nat, vdiv: nat, w: nat, bpl: nat)
    requires w % 16 == 0 && LineShape(bits, vdiv, w, bpl)
    ensures bpl * 8 == w * (bits * vdiv)
  {
    ShareIs(bits, vdiv, w, bpl);
    ShareBytes(w / 16, bits, vdiv, w, bpl);
    ScaledIs(w, Share(bits, vdiv));
  }

  lemma StrideAt(k: nat)
    requires k <= 100000
    ensures StrideOf(8 * k, 8) == 8 * k
  {
    assert (8 * k + 7) / 8 == k;
    AlignDown8(8 * k + 7);
  }

  /** Component c of the table entry is component PartOf(e, c) of plane PlaneOf(e, c) of the
      scaler. */
  function PlaneOf(e: GdmFormat, c: nat): nat {
    if e.planes == 1 then 0 else c
  }

  function PartOf(e: GdmFormat, c: nat): nat {
    if e.planes == 1 then c else 0
  }

  /** At the accepted sizes no plane of the scaler is padded. */
  lemma NoPadding(f: PixelFormat, w: nat, h: nat, plane: nat, part: nat)
    requires Accepted(w, h) && plane < ScalerFormatOf(f).planes && part < |PlaneInfo(f, w, h, plane)|
    ensures PlaneInfo(f, w, h, plane)[part].stride == PlaneInfo(f, w, h, plane)[part].bpl
  {
    var a := w / 16;
    Aligned(a, w);
  }

  lemma Align8Of(k: nat)
    ensures Align8(8 * k) == 8 * k
  {
    assert (8 * k + 7) / 8 == k;
  }

  lemma Align4Of(k: nat)
    ensures Align4(4 * k) == 4 * k
  {
    assert (4 * k + 3) / 4 == k;
  }

  lemma Aligned(a: nat, w: nat)
    requires w == 16 * a
    ensures Align8(w) == w && Align8(w / 2) == w / 2 && Align4(w * 2) == w * 2 && Align4(w * 4) == w * 4
  {
    Align8Of(2 * a);
    Align8Of(a);
    Align4Of(8 * a);
    Align4Of(16 * a);
  }

  lemma ComponentCounts(e: GdmFormat, w: nat, h: nat, c: nat)
    requires Matches(e) && WellFormed(e) && c < e.components
    ensures PlaneOf(e, c) < ScalerFormatOf(e.pixelFormat).planes == e.planes
    ensures |PlaneInfo(e.pixelFormat, w, h, PlaneOf(e, c))| == if e.planes == 1 then e.components else 1
    ensures e.planes == 1 || e.planes == e.components
  {
  }

  lemma ShapesAgree(e: GdmFormat, w: nat, h: nat, c: nat, bpl: nat)
    requires Matches(e) && WellFormed(e) && c < e.components && LineShape(At(e.bits, c), At(e.vdiv, c), w, bpl)
    requires PlaneOf(e, c) < ScalerFormatOf(e.pixelFormat).planes
    requires PartOf(e, c) < |PlaneInfo(e.pixelFormat, w, h, PlaneOf(e, c))|
    ensures var part := PlaneInfo(e.pixelFormat, w, h, PlaneOf(e, c))[PartOf(e, c)];
            part.bpl == bpl && part.height == LinesOf(e, c, h)
  {
  }

  lemma MatchedAgree(e: GdmFormat, w: nat, h: nat, c: nat)
    requires Matches(e) && WellFormed(e) && Accepted(w, h) && c < e.components
    ensures PlaneOf(e, c) < ScalerFormatOf(e.pixelFormat).planes == e.planes
    ensures var pi := PlaneInfo(e.pixelFormat, w, h, PlaneOf(e, c));
            && |pi| == (if e.planes == 1 then e.components else 1) && (e.planes == 1 || e.planes == e.components)
            && pi[PartOf(e, c)] == Component(BplOf(e, c, w), StrideOf(BplOf(e, c, w), 8), LinesOf(e, c, h))
  {
    var bpl := BplOf(e, c, w);
    ComponentShape(e, w, c);
    ComponentCounts(e, w, h, c);
    ShapesAgree(e, w, h, c, bpl);
    NoPadding(e.pixelFormat, w, h, PlaneOf(e, c), PartOf(e, c));
    ShapeStride(At(e.bits, c), At(e.vdiv, c), w, bpl);
  }

  lemma ShapeMultiple(a: nat, bits: nat, vdiv: nat, w: nat, bpl: nat) returns (k: nat)
    requires w == 16 * a && LineShape(bits, vdiv, w, bpl)
    ensures bpl == 8 * k && k <= 8 * a
  {
    k := if bits == 32 then 8 * a
      else if bits == 16 then 4 * a
      else if bits == 8 || (bits == 4 && vdiv == 2) then 2 * a
      else a;
  }

  lemma ShapeStride(bits: nat, vdiv: nat, w: nat, bpl: nat)
    requires w % 16 == 0 && w <= MAX_WIDTH && LineShape(bits, vdiv, w, bpl)
    ensures StrideOf(bpl, 8) == bpl
  {
    var k := ShapeMultiple(w / 16, bits, vdiv, w, bpl);
    StrideAt(k);
  }

  /** For every entry of the table and every accepted size the two sides report the same
      number of components and of planes, the same bytes per line and lines of every
      component, and with 8-byte alignment the same stride. */
  lemma LayoutsAgree(k: nat, w: nat, h: nat, c: nat)
    requires k < FORMAT_COUNT && Accepted(w, h) && c < TableEntry(k).components
    ensures WellFormed(TableEntry(k))
    ensures var e := TableEntry(k);
            PlaneOf(e, c) < ScalerFormatOf(e.pixelFormat).planes == e.planes
    ensures var e := TableEntry(k);
            var pi := PlaneInfo(e.pixelFormat, w, h, PlaneOf(e, c));
            && |pi| == (if e.planes == 1 then e.components else 1) && (e.planes == 1 || e.planes == e.components)
            && pi[PartOf(e, c)] == Component(BplOf(e, c, w), StrideOf(BplOf(e, c, w), 8), LinesOf(e, c, h))
  {
    EntryMatches(k);
    MatchedAgree(TableEntry(k), w, h, c);
  }

  // ----- sizes -----

  /** Bytes per line times lines. */
  function AreaOf(e: GdmFormat, w: nat, h: nat, i: nat): nat
    requires WellFormed(e) && i < e.components
  {
    Times(BplOf(e, i, w), LinesOf(e, i, h))
  }

  function Total(areas: seq<nat>, n: nat): nat
    requires n <= |areas|
  {
    if n == 0 then 0 else Total(areas, n - 1) + areas[n - 1]
  }

  /** The bytes of all components without padding. */
  function EffectiveBytes(e: GdmFormat, w: nat, h: nat): nat
    requires WellFormed(e)
  {
    Total(seq(e.components, i requires 0 <= i < e.components => AreaOf(e, w, h, i)), e.components)
  }

  function BitsBefore(t: Three, n: nat): nat {
    if n == 0 then 0 else BitsBefore(t, n - 1) + At(t, n - 1)
  }

  /** Bytes per line times lines of one component, against its share of the pixel. */
  lemma ComponentBits(e: GdmFormat, w: nat, h: nat, i: nat)
    requires Matches(e) && WellFormed(e) && i < e.components && Accepted(w, h)
    ensures BplOf(e, i, w) * 8 == w * (At(e.bits, i) * At(e.vdiv, i))
    ensures LinesOf(e, i, h) * At(e.vdiv, i) == h
  {
    ComponentShape(e, w, i);
    ShapeArea(At(e.bits, i), At(e.vdiv, i), w, BplOf(e, i, w));
    Halving(h, At(e.vdiv, i));
  }

  lemma Halving(h: nat, vdiv: nat)
    requires h % 2 == 0 && (vdiv == 1 || vdiv == 2)
    ensures h / vdiv * vdiv == h
  {
    if vdiv == 1 { assert h / vdiv == h / 1; } else { assert h / vdiv == h / 2; }
  }

  lemma Area(bpl: nat, lines: nat, w: nat, h: nat, bits: nat, vdiv: nat)
    requires bpl * 8 == w * (bits * vdiv) && lines * vdiv == h
    ensures bpl * lines * 8 == w * h * bits
  {
    calc {
      bpl * lines * 8;
      (bpl * 8) * lines;
      (w * (bits * vdiv)) * lines;
      (w * bits) * (lines * vdiv);
      (w * bits) * h;
      w * h * bits;
    }
  }

  lemma MatchedArea(e: GdmFormat, w: nat, h: nat, i: nat)
    requires Matches(e) && WellFormed(e) && i < e.components && Accepted(w, h)
    ensures AreaOf(e, w, h, i) * 8 == Times(w * h, At(e.bits, i))
  {
    var bpl, lines := BplOf(e, i, w), LinesOf(e, i, h);
    ComponentBits(e, w, h, i);
    TimesIs(bpl, lines);
    TimesIs(w * h, At(e.bits, i));
    Area(bpl, lines, w, h, At(e.bits, i), At(e.vdiv, i));
  }

  lemma {:induction false} TimesPlus(a: nat, b: nat, c: nat)
    ensures Times(a, b + c) == Times(a, b) + Times(a, c)
  {
    if c > 0 { TimesPlus(a, b, c - 1); }
  }

  lemma {:induction false} TotalShare(areas: seq<nat>, bits: Three, pixels: nat, n: nat)
    requires n <= |areas| && forall i :: 0 <= i < n ==> areas[i] * 8 == Times(pixels, At(bits, i))
    ensures Total(areas, n) * 8 == Times(pixels, BitsBefore(bits, n))
  {
    if n > 0 {
      TotalShare(areas, bits, pixels, n - 1);
      TimesPlus(pixels, BitsBefore(bits, n - 1), At(bits, n - 1));
    }
  }

  lemma MatchedTotal(e: GdmFormat, w: nat, h: nat)
    requires Matches(e) && WellFormed(e) && Accepted(w, h)
    ensures EffectiveBytes(e, w, h) * 8 == Times(w * h, BitsBefore(e.bits, e.components))
  {
    forall i | 0 <= i < e.components ensures AreaOf(e, w, h, i) * 8 == Times(w * h, At(e.bits, i)) {
      MatchedArea(e, w, h, i);
    }
    TotalShare(seq(e.components, i requires 0 <= i < e.components => AreaOf(e, w, h, i)), e.bits, w * h, e.components);
  }

  lemma {:induction false} BitsBeforeIs(t: Three, n: nat)
    requires n <= 3
    ensures BitsBefore(t, n) == (if n > 0 then t.x0 else 0) + (if n > 1 then t.x1 else 0) + (if n > 2 then t.x2 else 0)
  {
    if n > 0 { BitsBeforeIs(t, n - 1); }
  }

  lemma SameBits(e: GdmFormat)
    requires Matches(e)
    ensures BitsBefore(e.bits, e.components) == Sum(e.bits) == Sum(ScalerFormatOf(e.pixelFormat).bits)
  {
    BitsBeforeIs(e.bits, e.components);
  }

  /** The effective bytes of an image are its pixels times its bits per pixel over eight, and
      the scaler's table gives the same total of bits. */
  lemma TotalBits(k: nat, w: nat, h: nat)
    requires k < FORMAT_COUNT && Accepted(w, h)
    ensures WellFormed(TableEntry(k))
    ensures var e := TableEntry(k);
            && EffectiveBytes(e, w, h) * 8 == w * h * Sum(e.bits)
            && Sum(e.bits) == Sum(ScalerFormatOf(e.pixelFormat).bits)
  {
    EntryMatches(k);
    SameBits(TableEntry(k));
    MatchedTotal(TableEntry(k), w, h);
    TimesIs(w * h, Sum(TableEntry(k).bits));
  }

  // ----- contiguous components -----

  /** The bytes component i occupies, without wrap-around. */
  function SpanOf(e: GdmFormat, i: nat, w: nat, h: nat, align: nat): nat
    requires WellFormed(e) && i < e.components && align > 0
  {
    Times(StrideOf(BplOf(e, i, w), align), LinesOf(e, i, h))
  }

  function SpanSum(e: GdmFormat, n: nat, w: nat, h: nat, align: nat): nat
    requires WellFormed(e) && n <= e.components && align > 0
  {
    if n == 0 then 0 else SpanSum(e, n - 1, w, h, align) + SpanOf(e, n - 1, w, h, align)
  }

  lemma {:induction false} SpanSumMonotone(e: GdmFormat, m: nat, n: nat, w: nat, h: nat, align: nat)
    requires WellFormed(e) && m <= n <= e.components && align > 0
    ensures SpanSum(e, m, w, h, align) <= SpanSum(e, n, w, h, align)
  {
    if m < n { SpanSumMonotone(e, m, n - 1, w, h, align); }
  }

  lemma WordSum(a: nat, b: nat)
    ensures U(U(a) + U(b)) == U(a + b)
  {
  }

  /** In a contiguous format the offset of a component is the sum of the spans before it,
      wrapped to 32 bits; so it is that sum exactly when the sum fits. */
  lemma {:induction false} Consecutive(e: GdmFormat, i: nat, w: nat, h: nat, align: nat)
    requires WellFormed(e) && e.components != e.planes && i <= e.components && align > 0
    ensures OffsetOf(e, i, w, h, align) == U(SpanSum(e, i, w, h, align))
    ensures OffsetOf(e, i, w, h, align) == SpanSum(e, i, w, h, align) <==> SpanSum(e, i, w, h, align) < WORD
  {
    if i > 0 {
      Consecutive(e, i - 1, w, h, align);
      WordSum(SpanSum(e, i - 1, w, h, align), SpanOf(e, i - 1, w, h, align));
    }
  }

  /** Component i ends where component j starts, or before. */
  ghost predicate EndsBefore(e: GdmFormat, i: nat, j: nat, w: nat, h: nat, align: nat)
    requires WellFormed(e) && i < e.components && j < e.components && align > 0
  {
    OffsetOf(e, i, w, h, align) + SpanOf(e, i, w, h, align) <= OffsetOf(e, j, w, h, align)
  }

  lemma SumsOrdered(e: GdmFormat, i: nat, j: nat, w: nat, h: nat, align: nat)
    requires WellFormed(e) && i < j < e.components && e.components != e.planes && align > 0
    requires SpanSum(e, e.components - 1, w, h, align) < WORD
    ensures EndsBefore(e, i, j, w, h, align)
    ensures j == i + 1 ==> OffsetOf(e, i, w, h, align) + SpanOf(e, i, w, h, align) == OffsetOf(e, j, w, h, align)
  {
    SpanSumMonotone(e, i, j, w, h, align);
    SpanSumMonotone(e, i + 1, j, w, h, align);
    SpanSumMonotone(e, j, e.components - 1, w, h, align);
    Consecutive(e, i, w, h, align);
    Consecutive(e, j, w, h, align);
  }

  /** When the sums leave 32 bits, the first offset to wrap lies before the end of its
      predecessor. */
  lemma {:induction false} WrapOverlaps(e: GdmFormat, n: nat, w: nat, h: nat, align: nat) returns (j: nat)
    requires WellFormed(e) && n < e.components && e.components != e.planes && align > 0
    requires SpanSum(e, n, w, h, align) >= WORD
    ensures 0 < j <= n && !EndsBefore(e, j - 1, j, w, h, align)
  {
    if SpanSum(e, n - 1, w, h, align) >= WORD {
      j := WrapOverlaps(e, n - 1, w, h, align);
    } else {
      j := n;
      Consecutive(e, n - 1, w, h, align);
      Consecutive(e, n, w, h, align);
    }
  }

  /** The components of a contiguous format occupy ascending ranges that do not meet exactly
      when the offset of the last one fits 32 bits, at every size and alignment. */
  lemma RangesDisjointIff(e: GdmFormat, w: nat, h: nat, align: nat)
    requires WellFormed(e) && e.components != e.planes && align > 0
    ensures (forall i, j :: 0 <= i < j < e.components ==> EndsBefore(e, i, j, w, h, align))
            <==> SpanSum(e, e.components - 1, w, h, align) < WORD
  {
    if SpanSum(e, e.components - 1, w, h, align) < WORD {
      forall i, j | 0 <= i < j < e.components ensures EndsBefore(e, i, j, w, h, align) {
        SumsOrdered(e, i, j, w, h, align);
      }
    } else {
      var j := WrapOverlaps(e, e.components - 1, w, h, align);
      var i := j - 1;
      assert !EndsBefore(e, i, j, w, h, align);
    }
  }

  lemma WholeWordOverlaps(e: GdmFormat, w: nat, h: nat, align: nat)
    requires WellFormed(e) && e.components > 1 && e.components != e.planes && align > 0
    requires SpanOf(e, 0, w, h, align) == WORD
    ensures OffsetOf(e, 0, w, h, align) == OffsetOf(e, 1, w, h, align) == 0
    ensures !EndsBefore(e, 0, 1, w, h, align)
  {
    Consecutive(e, 1, w, h, align);
  }

  lemma WideStride(bits: nat, vdiv: nat, w: nat, align: nat)
    requires bits == 8 && vdiv == 1 && w == 16 && align == 0x8000_0000
    ensures StrideOf(Bpl(bits, vdiv, w), align) == align
  {
    BplBy(bits, w, w * bits);
    assert AlignDown(15, align) == 0;
  }

  /** An image of 16 by 2 whose lines are aligned to 2^31 bytes, in a contiguous format of 8
      bits a pixel in its first component: two components start at 0. */
  lemma OverlapExample(e: GdmFormat, w: nat, h: nat, align: nat)
    requires WellFormed(e) && e.components > 1 && e.components != e.planes
    requires At(e.bits, 0) == 8 && At(e.vdiv, 0) == 1 && w == 16 && h == 2 && align == 0x8000_0000
    ensures OffsetOf(e, 0, w, h, align) == OffsetOf(e, 1, w, h, align) == 0
    ensures !EndsBefore(e, 0, 1, w, h, align)
  {
    WideStride(At(e.bits, 0), At(e.vdiv, 0), w, align);
    TimesIs(align, LinesOf(e, 0, h));
    assert SpanOf(e, 0, w, h, align) == WORD;
    WholeWordOverlaps(e, w, h, align);
  }

  lemma NV12Entry(e: GdmFormat)
    requires e == TableEntry(7)
    ensures WellFormed(e) && e.pixelFormat == NV12 && e.components == 2 && e.planes == 1
    ensures At(e.bits, 0) == 8 && At(e.vdiv, 0) == 1
  {
  }

  /** The table's entry for NV12 is such a format. */
  lemma NV12Overlaps(e: GdmFormat, w: nat, h: nat, align: nat)
    requires e == TableEntry(7) && w == 16 && h == 2 && align == 0x8000_0000
    ensures WellFormed(e) && e.pixelFormat == NV12 && e.components == 2
    ensures OffsetOf(e, 0, w, h, align) == OffsetOf(e, 1, w, h, align) == 0
    ensures !EndsBefore(e, 0, 1, w, h, align)
  {
    NV12Entry(e);
    OverlapExample(e, w, h, align);
  }

  lemma {:induction false} TimesBound(a: nat, b: nat, c: nat)
    requires a <= c
    ensures Times(a, b) <= Times(c, b)
  {
    if b > 0 { TimesBound(a, b - 1, c); }
  }

  lemma ShapeBound(bits: nat, vdiv: nat, w: nat, bpl: nat)
    requires LineShape(bits, vdiv, w, bpl) && w <= MAX_WIDTH
    ensures bpl <= 16832
  {
  }

  lemma StrideBound(bpl: nat, align: nat)
    requires bpl <= 16832 && 0 < align <= 4096
    ensures StrideOf(bpl, align) <= 20928
  {
  }

  lemma SpanBound(e: GdmFormat, i: nat, w: nat, h: nat, align: nat)
    requires Matches(e) && WellFormed(e) && Accepted(w, h) && 0 < align <= 4096 && i < e.components
    ensures SpanOf(e, i, w, h, align) <= 100000000
  {
    ComponentShape(e, w, i);
    ShapeBound(At(e.bits, i), At(e.vdiv, i), w, BplOf(e, i, w));
    StrideBound(BplOf(e, i, w), align);
    var stride, lines := StrideOf(BplOf(e, i, w), align), LinesOf(e, i, h);
    TimesBound(stride, lines, 20928);
    TimesIs(20928, lines);
  }

  lemma {:induction false} SpanSumBound(e: GdmFormat, n: nat, w: nat, h: nat, align: nat)
    requires Matches(e) && WellFormed(e) && Accepted(w, h) && 0 < align <= 4096 && n <= e.components
    ensures SpanSum(e, n, w, h, align) <= n * 100000000
  {
    if n > 0 {
      SpanSumBound(e, n - 1, w, h, align);
      SpanBound(e, n - 1, w, h, align);
    }
  }

  /** For accepted sizes, at every alignment up to a page, the components of a contiguous
      format occupy consecutive ranges that do not meet. */
  lemma RangesDisjoint(k: nat, i: nat, j: nat, w: nat, h: nat, align: nat)
    requires k < FORMAT_COUNT && i < j < TableEntry(k).components && TableEntry(k).components != TableEntry(k).planes
    requires Accepted(w, h) && 0 < align <= 4096
    ensures WellFormed(TableEntry(k)) && EndsBefore(TableEntry(k), i, j, w, h, align)
    ensures var e := TableEntry(k);
            j == i + 1 ==> OffsetOf(e, i, w, h, align) + SpanOf(e, i, w, h, align) == OffsetOf(e, j, w, h, align)
  {
    EntryMatches(k);
    SpanSumBound(TableEntry(k), TableEntry(k).components - 1, w, h, align);
    SumsOrdered(TableEntry(k), i, j, w, h, align);
  }
}
