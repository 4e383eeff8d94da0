/**
 * The layout arithmetic of the multi-image merge: where each image goes on the
 * merged canvas, and how large that canvas is, for the horizontal, vertical and
 * grid arrangements. Images are abstracted to their pixel dimensions.
 */
module MergeLayout {
  datatype Picture = Picture(width: nat, height: nat)

  datatype Arrangement = Horizontal | Vertical | Grid

  /** Top-left corner at which one image is pasted. */
  datatype Offset = Offset(x: int, y: int)

  datatype Layout = Layout(width: int, height: int, offsets: seq<Offset>)

  datatype MergeOutcome =
    | NoImages             // nothing loaded: the merge returns None
    | InvalidCanvas        // a canvas side is negative: Pillow refuses to create it
    | Merged(layout: Layout)

  /** Sum of the first k entries. */
  function Sum(xs: seq<int>, k: nat): int
    requires k <= |xs|
  {
    if k == 0 then 0 else Sum(xs, k - 1) + xs[k - 1]
  }

  /** The largest entry. */
  function MaxOf(xs: seq<int>): (m: int)
    requires xs != []
    ensures m in xs
    ensures forall i :: 0 <= i < |xs| ==> xs[i] <= m
  {
    if |xs| == 1 then xs[0]
    else
      var rest := MaxOf(xs[1..]);
      assert forall i :: 1 <= i < |xs| ==> xs[i] == xs[1..][i - 1];
      if xs[0] >= rest then xs[0] else rest
  }

  function Widths(ps: seq<Picture>): (ws: seq<int>)
    ensures |ws| == |ps| && forall i :: 0 <= i < |ps| ==> ws[i] == ps[i].width
  {
    seq(|ps|, i requires 0 <= i < |ps| => ps[i].width)
  }

  function Heights(ps: seq<Picture>): (hs: seq<int>)
    ensures |hs| == |ps| && forall i :: 0 <= i < |ps| ==> hs[i] == ps[i].height
  {
    seq(|ps|, i requires 0 <= i < |ps| => ps[i].height)
  }

  /** `int(n ** 0.5)` on an exact square root: the integer square root. */
  function ISqrt(n: nat): (r: nat)
    ensures r * r <= n < (r + 1) * (r + 1)
  {
    if n == 0 then 0
    else
      var r := ISqrt(n - 1);
      if (r + 1) * (r + 1) <= n then
        assert n <= (r + 1) * (r + 1);
        r + 1
      else r
  }

  /** Horizontal: images side by side, each centred vertically. */
  function HorizontalLayout(ps: seq<Picture>, spacing: int): Layout
    requires ps != []
  {
    var n := |ps|;
    var maxH := MaxOf(Heights(ps));
    Layout(Sum(Widths(ps), n) + spacing * (n - 1), maxH,
      seq(n, i requires 0 <= i < n => Offset(Sum(Widths(ps), i) + i * spacing, (maxH - ps[i].height) / 2)))
  }

  /** Vertical: images stacked top to bottom, each centred horizontally. */
  function VerticalLayout(ps: seq<Picture>, spacing: int): Layout
    requires ps != []
  {
    var n := |ps|;
    var maxW := MaxOf(Widths(ps));
    Layout(maxW, Sum(Heights(ps), n) + spacing * (n - 1),
      seq(n, i requires 0 <= i < n => Offset((maxW - ps[i].width) / 2, Sum(Heights(ps), i) + i * spacing)))
  }

  /** Number of grid columns: the integer square root of the image count. */
  function GridColumns(n: nat): (cols: nat)
    requires n > 0
    ensures cols >= 1
  {
    ISqrt(n)
  }

  /** Number of grid rows: the ceiling of n / cols. */
  function GridRows(n: nat, cols: nat): nat
    requires cols >= 1
  {
    (n + cols - 1) / cols
  }

  /** Grid: row-major cells of the largest width and height, each image centred in its cell. */
  function GridLayout(ps: seq<Picture>, spacing: int): Layout
    requires ps != []
  {
    var n := |ps|;
    var cols := GridColumns(n);
    var rows := GridRows(n, cols);
    var maxW, maxH := MaxOf(Widths(ps)), MaxOf(Heights(ps));
    Layout(maxW * cols + spacing * (cols - 1), maxH * rows + spacing * (rows - 1),
      seq(n, i requires 0 <= i < n =>
        Offset((i % cols) * (maxW + spacing) + (maxW - ps[i].width) / 2,
               (i / cols) * (maxH + spacing) + (maxH - ps[i].height) / 2)))
  }

  /** The outcome of `create_merged_image` for one of the three arrangements. */
  function MergedLayout(ps: seq<Picture>, arrangement: Arrangement, spacing: int): MergeOutcome
  {
    if ps == [] then NoImages
    else
      var l := ArrangedLayout(ps, arrangement, spacing);
      if l.width < 0 || l.height < 0 then InvalidCanvas else Merged(l)
  }

  /** The layout of the chosen arrangement. */
  function ArrangedLayout(ps: seq<Picture>, arrangement: Arrangement, spacing: int): Layout
    requires ps != []
  {
    match arrangement
    case Horizontal => HorizontalLayout(ps, spacing)
    case Vertical => VerticalLayout(ps, spacing)
    case Grid => GridLayout(ps, spacing)
  }

  /** The running offset after slot i is the one before slot i + 1. */
  lemma NextSlot(before: int, size: int, i: int, spacing: int)
    ensures before + i * spacing + size + spacing == (before + size) + (i + 1) * spacing
  {
  }

  /** Appending entry i to a prefix of length i gives the prefix of length i + 1. */
  lemma AppendSlot(all: seq<Offset>, prefix: seq<Offset>, i: nat)
    requires i < |all| && prefix == all[..i]
    ensures prefix + [all[i]] == all[..i + 1]
  {
  }

  /** Horizontal branch of `create_merged_image`: a running x offset. */
  method PlaceHorizontally(images: seq<Picture>, spacing: int) returns (l: Layout)
    requires images != []
    ensures l == HorizontalLayout(images, spacing)
  {
    var n := |images|;
    var width := Sum(Widths(images), n) + spacing * (n - 1);
    var height := MaxOf(Heights(images));
    ghost var spec := HorizontalLayout(images, spacing);
    var offsets: seq<Offset> := [];
    var xOffset := 0;
    for i := 0 to n
      invariant xOffset == Sum(Widths(images), i) + i * spacing
      invariant offsets == spec.offsets[..i]
    {
      var yOffset := (height - images[i].height) / 2;
      assert spec.offsets[i] == Offset(xOffset, yOffset);
      AppendSlot(spec.offsets, offsets, i);
      offsets := offsets + [Offset(xOffset, yOffset)];
      NextSlot(Sum(Widths(images), i), images[i].width, i, spacing);
      xOffset := xOffset + images[i].width + spacing;
    }
    assert offsets == spec.offsets;
    l := Layout(width, height, offsets);
  }

  /** Vertical branch of `create_merged_image`: a running y offset. */
  method PlaceVertically(images: seq<Picture>, spacing: int) returns (l: Layout)
    requires images != []
    ensures l == VerticalLayout(images, spacing)
  {
    var n := |images|;
    var width := MaxOf(Widths(images));
    var height := Sum(Heights(images), n) + spacing * (n - 1);
    ghost var spec := VerticalLayout(images, spacing);
    var offsets: seq<Offset> := [];
    var yOffset := 0;
    for i := 0 to n
      invariant yOffset == Sum(Heights(images), i) + i * spacing
      invariant offsets == spec.offsets[..i]
    {
      var xOffset := (width - images[i].width) / 2;
      assert spec.offsets[i] == Offset(xOffset, yOffset);
      AppendSlot(spec.offsets, offsets, i);
      offsets := offsets + [Offset(xOffset, yOffset)];
      NextSlot(Sum(Heights(images), i), images[i].height, i, spacing);
      yOffset := yOffset + images[i].height + spacing;
    }
    assert offsets == spec.offsets;
    l := Layout(width, height, offsets);
  }

  /** Grid branch of `create_merged_image`: row and column from the index. */
  method PlaceInGrid(images: seq<Picture>, spacing: int) returns (l: Layout)
    requires images != []
    ensures l == GridLayout(images, spacing)
  {
    var n := |images|;
    var cols := GridColumns(n);
    var rows := GridRows(n, cols);
    var maxW, maxH := MaxOf(Widths(images)), MaxOf(Heights(images));
    var width := maxW * cols + spacing * (cols - 1);
    var height := maxH * rows + spacing * (rows - 1);
    ghost var spec := GridLayout(images, spacing);
    var offsets: seq<Offset> := [];
    for i := 0 to n
      invariant offsets == spec.offsets[..i]
    {
      var row, col := i / cols, i % cols;
      var xOffset := col * (maxW + spacing) + (maxW - images[i].width) / 2;
      var yOffset := row * (maxH + spacing) + (maxH - images[i].height) / 2;
      assert spec.offsets[i] == Offset(xOffset, yOffset);
      AppendSlot(spec.offsets, offsets, i);
      offsets := offsets + [Offset(xOffset, yOffset)];
    }
    assert offsets == spec.offsets;
    l := Layout(width, height, offsets);
  }

  /** `create_merged_image` for the horizontal, vertical and grid arrangements. */
  method CreateMergedImage(images: seq<Picture>, arrangement: Arrangement, spacing: int)
    returns (outcome: MergeOutcome)
    ensures outcome == MergedLayout(images, arrangement, spacing)
  {
    if images == [] {
      return NoImages;
    }
    var l: Layout;
    match arrangement {
      case Horizontal => l := PlaceHorizontally(images, spacing);
      case Vertical => l := PlaceVertically(images, spacing);
      case Grid => l := PlaceInGrid(images, spacing);
    }
    if l.width < 0 || l.height < 0 {
      return InvalidCanvas;
    }
    outcome := Merged(l);
  }

  /** Image i lies inside the canvas of layout l. */
  ghost predicate SlotFits(ps: seq<Picture>, l: Layout, i: nat)
    requires i < |ps| && i < |l.offsets|
  {
    0 <= l.offsets[i].x && l.offsets[i].x + ps[i].width <= l.width &&
    0 <= l.offsets[i].y && l.offsets[i].y + ps[i].height <= l.height
  }

  /** Every image lies inside the canvas: no paste is clipped. */
  ghost predicate FitsCanvas(ps: seq<Picture>, l: Layout)
  {
    |l.offsets| == |ps| && forall i :: 0 <= i < |ps| ==> SlotFits(ps, l, i)
  }

  lemma {:induction false} SumGrows(xs: seq<int>, i: nat, j: nat)
    requires i < j <= |xs|
    requires forall k :: 0 <= k < |xs| ==> 0 <= xs[k]
    ensures 0 <= Sum(xs, i) && Sum(xs, i) + xs[i] <= Sum(xs, j)
  {
    if j == i + 1 {
      SumNonNegative(xs, i);
    } else {
      SumGrows(xs, i, j - 1);
    }
  }

  lemma {:induction false} SumNonNegative(xs: seq<int>, k: nat)
    requires k <= |xs|
    requires forall m :: 0 <= m < |xs| ==> 0 <= xs[m]
    ensures 0 <= Sum(xs, k)
  {
    if k > 0 {
      SumNonNegative(xs, k - 1);
    }
  }

  lemma MulMono(a: int, b: int, c: int)
    requires a <= b && 0 <= c
    ensures a * c <= b * c
  {
  }

  /** A centred paste leaves at most one more pixel of margin after it than before it. */
  lemma CentredMargin(outer: int, inner: int)
    requires inner <= outer
    ensures 0 <= (outer - inner) / 2 && (outer - inner) / 2 + inner <= outer
    ensures 0 <= outer - inner - 2 * ((outer - inner) / 2) <= 1
  {
  }

  /** Slot i of n in a strip: `before` pixels of images and i spacings precede it. */
  lemma StripSlotFits(before: int, size: int, total: int, i: int, n: int, spacing: int)
    requires 0 <= before && before + size <= total && 0 <= i < n && 0 <= spacing
    ensures 0 <= before + i * spacing
    ensures before + i * spacing + size <= total + spacing * (n - 1)
  {
    MulMono(0, i, spacing);
    MulMono(i, n - 1, spacing);
  }

  /** Slot j starts at least one spacing after slot i < j ends. */
  lemma StripGap(beforeI: int, sizeI: int, beforeJ: int, i: int, j: int, spacing: int)
    requires beforeI + sizeI <= beforeJ && i < j && 0 <= spacing
    ensures beforeI + i * spacing + sizeI + spacing <= beforeJ + j * spacing
  {
    MulMono(i + 1, j, spacing);
  }

  /** Cell index k of `count` cells of extent `cell` with `spacing` between them. */
  lemma CellFits(k: int, count: int, cell: int, size: int, spacing: int)
    requires 0 <= k < count && 0 <= size <= cell && 0 <= spacing
    ensures 0 <= k * (cell + spacing) + (cell - size) / 2
    ensures k * (cell + spacing) + (cell - size) / 2 + size <= cell * count + spacing * (count - 1)
  {
    CentredMargin(cell, size);
    MulMono(0, k, cell + spacing);
    MulMono(k, count - 1, cell + spacing);
    assert (count - 1) * (cell + spacing) + cell == cell * count + spacing * (count - 1);
  }

  /** Image i of a horizontal strip fits the canvas and is centred vertically. */
  lemma HorizontalSlot(ps: seq<Picture>, spacing: int, i: nat)
    requires i < |ps| && 0 <= spacing
    ensures SlotFits(ps, HorizontalLayout(ps, spacing), i)
    ensures 0 <= HorizontalLayout(ps, spacing).height - ps[i].height - 2 * HorizontalLayout(ps, spacing).offsets[i].y <= 1
  {
    var l := HorizontalLayout(ps, spacing);
    var n, ws, hs := |ps|, Widths(ps), Heights(ps);
    var maxH := MaxOf(hs);
    assert l.width == Sum(ws, n) + spacing * (n - 1) && l.height == maxH;
    assert l.offsets[i] == Offset(Sum(ws, i) + i * spacing, (maxH - ps[i].height) / 2);
    assert hs[i] == ps[i].height && ws[i] == ps[i].width;
    SumGrows(ws, i, n);
    StripSlotFits(Sum(ws, i), ps[i].width, Sum(ws, n), i, n, spacing);
    CentredMargin(maxH, ps[i].height);
  }

  /** In a horizontal strip image j starts at least `spacing` after image i < j ends. */
  lemma HorizontalGap(ps: seq<Picture>, spacing: int, i: nat, j: nat)
    requires i < j < |ps| && 0 <= spacing
    ensures HorizontalLayout(ps, spacing).offsets[i].x + ps[i].width + spacing <= HorizontalLayout(ps, spacing).offsets[j].x
  {
    var l, ws := HorizontalLayout(ps, spacing), Widths(ps);
    assert l.offsets[i].x == Sum(ws, i) + i * spacing && l.offsets[j].x == Sum(ws, j) + j * spacing;
    assert ws[i] == ps[i].width;
    SumGrows(ws, i, j);
    StripGap(Sum(ws, i), ps[i].width, Sum(ws, j), i, j, spacing);
  }

  /**
   * Horizontal strip: with non-negative spacing every image fits the canvas,
   * each is vertically centred, and each starts at least `spacing` pixels after
   * the previous one ends, so no two pastes overlap.
   */
  lemma HorizontalStrip(ps: seq<Picture>, spacing: int)
    requires ps != [] && 0 <= spacing
    ensures FitsCanvas(ps, HorizontalLayout(ps, spacing))
    ensures forall i, j :: 0 <= i < j < |ps| ==>
      HorizontalLayout(ps, spacing).offsets[i].x + ps[i].width + spacing <= HorizontalLayout(ps, spacing).offsets[j].x
    ensures forall i :: 0 <= i < |ps| ==>
      0 <= HorizontalLayout(ps, spacing).height - ps[i].height - 2 * HorizontalLayout(ps, spacing).offsets[i].y <= 1
  {
    var l := HorizontalLayout(ps, spacing);
    assert |l.offsets| == |ps|;
    forall i | 0 <= i < |ps|
      ensures SlotFits(ps, l, i) && 0 <= l.height - ps[i].height - 2 * l.offsets[i].y <= 1
    {
      HorizontalSlot(ps, spacing, i);
    }
    forall i, j | 0 <= i < j < |ps|
      ensures l.offsets[i].x + ps[i].width + spacing <= l.offsets[j].x
    {
      HorizontalGap(ps, spacing, i, j);
    }
  }

  /** Image i of a vertical strip fits the canvas and is centred horizontally. */
  lemma VerticalSlot(ps: seq<Picture>, spacing: int, i: nat)
    requires i < |ps| && 0 <= spacing
    ensures SlotFits(ps, VerticalLayout(ps, spacing), i)
    ensures 0 <= VerticalLayout(ps, spacing).width - ps[i].width - 2 * VerticalLayout(ps, spacing).offsets[i].x <= 1
  {
    var l := VerticalLayout(ps, spacing);
    var n, ws, hs := |ps|, Widths(ps), Heights(ps);
    var maxW := MaxOf(ws);
    assert l.height == Sum(hs, n) + spacing * (n - 1) && l.width == maxW;
    assert l.offsets[i] == Offset((maxW - ps[i].width) / 2, Sum(hs, i) + i * spacing);
    assert hs[i] == ps[i].height && ws[i] == ps[i].width;
    SumGrows(hs, i, n);
    StripSlotFits(Sum(hs, i), ps[i].height, Sum(hs, n), i, n, spacing);
    CentredMargin(maxW, ps[i].width);
  }

  /** In a vertical strip image j starts at least `spacing` below the end of image i < j. */
  lemma VerticalGap(ps: seq<Picture>, spacing: int, i: nat, j: nat)
    requires i < j < |ps| && 0 <= spacing
    ensures VerticalLayout(ps, spacing).offsets[i].y + ps[i].height + spacing <= VerticalLayout(ps, spacing).offsets[j].y
  {
    var l, hs := VerticalLayout(ps, spacing), Heights(ps);
    assert l.offsets[i].y == Sum(hs, i) + i * spacing && l.offsets[j].y == Sum(hs, j) + j * spacing;
    assert hs[i] == ps[i].height;
    SumGrows(hs, i, j);
    StripGap(Sum(hs, i), ps[i].height, Sum(hs, j), i, j, spacing);
  }

  /**
   * Vertical strip: with non-negative spacing every image fits the canvas,
   * each is horizontally centred, and each starts at least `spacing` pixels
   * below the end of the previous one.
   */
  lemma VerticalStrip(ps: seq<Picture>, spacing: int)
    requires ps != [] && 0 <= spacing
    ensures FitsCanvas(ps, VerticalLayout(ps, spacing))
    ensures forall i, j :: 0 <= i < j < |ps| ==>
      VerticalLayout(ps, spacing).offsets[i].y + ps[i].height + spacing <= VerticalLayout(ps, spacing).offsets[j].y
    ensures forall i :: 0 <= i < |ps| ==>
      0 <= VerticalLayout(ps, spacing).width - ps[i].width - 2 * VerticalLayout(ps, spacing).offsets[i].x <= 1
  {
    var l := VerticalLayout(ps, spacing);
    assert |l.offsets| == |ps|;
    forall i | 0 <= i < |ps|
      ensures SlotFits(ps, l, i) && 0 <= l.width - ps[i].width - 2 * l.offsets[i].x <= 1
    {
      VerticalSlot(ps, spacing, i);
    }
    forall i, j | 0 <= i < j < |ps|
      ensures l.offsets[i].y + ps[i].height + spacing <= l.offsets[j].y
    {
      VerticalGap(ps, spacing, i, j);
    }
  }

  /**
   * Grid shape: the columns are the integer square root of the count, and the
   * rows are the fewest that hold every image: rows * cols >= n > (rows - 1) * cols.
   */
  lemma GridShape(n: nat)
    requires n > 0
    ensures GridColumns(n) * GridColumns(n) <= n < (GridColumns(n) + 1) * (GridColumns(n) + 1)
    ensures GridRows(n, GridColumns(n)) * GridColumns(n) >= n
    ensures (GridRows(n, GridColumns(n)) - 1) * GridColumns(n) < n
  {
    var cols := GridColumns(n);
    var q := GridRows(n, cols);
    var m := n + cols - 1;
    assert m == q * cols + m % cols;
    assert 0 <= m % cols < cols;
  }

  lemma DivModSplit(i: nat, c: nat)
    requires c > 0
    ensures i == (i / c) * c + i % c && 0 <= i % c < c
  {
  }

  /** Every image's row lies within the grid, and distinct images get distinct cells. */
  lemma GridCells(n: nat, i: nat)
    requires n > 0 && i < n
    ensures i / GridColumns(n) < GridRows(n, GridColumns(n))
    ensures forall j :: 0 <= j < n && j != i ==>
      (i / GridColumns(n), i % GridColumns(n)) != (j / GridColumns(n), j % GridColumns(n))
  {
    var cols := GridColumns(n);
    var rows := GridRows(n, cols);
    GridShape(n);
    DivModSplit(i, cols);
    if i / cols >= rows {
      MulMono(rows, i / cols, cols);
      assert false;
    }
    forall j | 0 <= j < n && j != i
      ensures (i / cols, i % cols) != (j / cols, j % cols)
    {
      DivModSplit(j, cols);
    }
  }

  /** Grid: with non-negative spacing every image fits inside its cell, so inside the canvas. */
  lemma GridFits(ps: seq<Picture>, spacing: int)
    requires ps != [] && 0 <= spacing
    ensures FitsCanvas(ps, GridLayout(ps, spacing))
  {
    var l := GridLayout(ps, spacing);
    assert |l.offsets| == |ps|;
    forall i | 0 <= i < |ps|
      ensures SlotFits(ps, l, i)
    {
      GridColumnFits(ps, spacing, i);
      GridRowFits(ps, spacing, i);
    }
  }

  /** Image i of a grid lies inside its cell horizontally, so inside the canvas width. */
  lemma GridColumnFits(ps: seq<Picture>, spacing: int, i: nat)
    requires i < |ps| && 0 <= spacing
    ensures 0 <= GridLayout(ps, spacing).offsets[i].x
    ensures GridLayout(ps, spacing).offsets[i].x + ps[i].width <= GridLayout(ps, spacing).width
  {
    var l := GridLayout(ps, spacing);
    var cols := GridColumns(|ps|);
    var maxW := MaxOf(Widths(ps));
    assert l.width == maxW * cols + spacing * (cols - 1);
    assert l.offsets[i].x == (i % cols) * (maxW + spacing) + (maxW - ps[i].width) / 2;
    assert Widths(ps)[i] == ps[i].width;
    DivModSplit(i, cols);
    CellFits(i % cols, cols, maxW, ps[i].width, spacing);
  }

  /** Image i of a grid lies inside its cell vertically, so inside the canvas height. */
  lemma GridRowFits(ps: seq<Picture>, spacing: int, i: nat)
    requires i < |ps| && 0 <= spacing
    ensures 0 <= GridLayout(ps, spacing).offsets[i].y
    ensures GridLayout(ps, spacing).offsets[i].y + ps[i].height <= GridLayout(ps, spacing).height
  {
    var l := GridLayout(ps, spacing);
    var n := |ps|;
    var cols := GridColumns(n);
    var rows := GridRows(n, cols);
    var maxH := MaxOf(Heights(ps));
    assert l.height == maxH * rows + spacing * (rows - 1);
    assert l.offsets[i].y == (i / cols) * (maxH + spacing) + (maxH - ps[i].height) / 2;
    assert Heights(ps)[i] == ps[i].height;
    GridCells(n, i);
    CellFits(i / cols, rows, maxH, ps[i].height, spacing);
  }

  /** With non-negative spacing every arrangement fits its images on the canvas. */
  lemma ArrangedFits(ps: seq<Picture>, arrangement: Arrangement, spacing: int)
    requires ps != [] && 0 <= spacing
    ensures FitsCanvas(ps, ArrangedLayout(ps, arrangement, spacing))
  {
    match arrangement
    case Horizontal => HorizontalStrip(ps, spacing);
    case Vertical => VerticalStrip(ps, spacing);
    case Grid => GridFits(ps, spacing);
  }

  /** With non-negative spacing a merge of at least one image always succeeds and fits. */
  lemma MergeSucceedsAndFits(ps: seq<Picture>, arrangement: Arrangement, spacing: int)
    requires ps != [] && 0 <= spacing
    ensures MergedLayout(ps, arrangement, spacing).Merged?
    ensures FitsCanvas(ps, MergedLayout(ps, arrangement, spacing).layout)
  {
    var l := ArrangedLayout(ps, arrangement, spacing);
    ArrangedFits(ps, arrangement, spacing);
    // the first image fits, so neither canvas side is negative
    assert SlotFits(ps, l, 0);
  }
}
