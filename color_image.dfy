/**
 * The fixed-size image of hw2/colorImageFramework402.cpp: a 10 x 18 grid of colours,
 * updated in place by nested loops.
 *
 * The C++ grid embeds ColorClass objects by value, so here it is an array of Rgb values
 * and each in-place ColorClass mutation on a pixel becomes an update of that array cell:
 * addImageTo's addColor goes through Added, the value function that specifies
 * ColorClass.AddColor, while initializeTo, setColorAtLocation and the copy at the end of
 * addImages store the colour directly, as setTo(const ColorClass&) does.
 */
module ColorImage {
  import opened Colors
  import opened RowColumn

  const ImageRowNum: int := 10
  const ImageColNum: int := 18

  /** A location inside the grid. */
  predicate InImage(row: int, col: int) {
    0 <= row < ImageRowNum && 0 <= col < ImageColNum
  }

  /**
   * The specification of addImages at one pixel: starting from black, add the colours in
   * order, clipping after every step; the flag is the OR of every step's clip flag.
   */
  function Accumulate(colors: seq<Rgb>): (r: Outcome)
    ensures IsValid(r.color)
    decreases |colors|
  {
    if colors == [] then Outcome(Black, false)
    else
      var prev := Accumulate(colors[..|colors| - 1]);
      var step := Added(prev.color, colors[|colors| - 1]);
      Outcome(step.color, step.clipped || prev.clipped)
  }

  /** The exact (unclipped) channel-wise sum of the colours. */
  function Total(colors: seq<Rgb>): (r: Rgb)
    decreases |colors|
  {
    if colors == [] then Black
    else Plus(Total(colors[..|colors| - 1]), colors[|colors| - 1])
  }

  lemma AccumulateSnoc(colors: seq<Rgb>, c: Rgb)
    ensures Accumulate(colors + [c]) ==
              var step := Added(Accumulate(colors).color, c);
              Outcome(step.color, step.clipped || Accumulate(colors).clipped)
    ensures Total(colors + [c]) == Plus(Total(colors), c)
  {
    assert (colors + [c])[..|colors|] == colors;
  }

  /** Clipping one running channel total and then adding a non-negative value. */
  lemma ClipThenAdd(t: int, x: int)
    requires t >= 0 && x >= 0
    ensures ColorClip(ColorClip(t) + x) == ColorClip(t + x)
    ensures !InColorRange(ColorClip(t) + x) || !InColorRange(t) <==> !InColorRange(t + x)
  {
  }

  /**
   * Since valid channels are never negative, the stepwise clipped sum equals the true sum
   * clipped once (each channel is min(1000, its total)), and some step clips exactly when
   * some channel's true total exceeds 1000.
   */
  lemma {:induction false} AccumulateIsClippedTotal(colors: seq<Rgb>)
    requires forall k :: 0 <= k < |colors| ==> IsValid(colors[k])
    ensures Accumulate(colors).color == ClipColor(Total(colors))
    ensures Accumulate(colors).clipped <==> !IsValid(Total(colors))
    ensures Total(colors).red >= 0 && Total(colors).green >= 0 && Total(colors).blue >= 0
  {
    if colors != [] {
      var init, c := colors[..|colors| - 1], colors[|colors| - 1];
      assert colors == init + [c];
      AccumulateIsClippedTotal(init);
      AccumulateSnoc(init, c);
      var t := Total(init);
      ClipThenAdd(t.red, c.red);
      ClipThenAdd(t.green, c.green);
      ClipThenAdd(t.blue, c.blue);
    }
  }

  /** The rows and columns of a grid, as values. */
  ghost function Snapshot(grid: array2<Rgb>): (g: seq<seq<Rgb>>)
    reads grid
    ensures |g| == grid.Length0
    ensures forall i :: 0 <= i < grid.Length0 ==> |g[i]| == grid.Length1
    ensures forall i, j :: 0 <= i < grid.Length0 && 0 <= j < grid.Length1 ==> g[i][j] == grid[i, j]
    ensures grid.Length0 == ImageRowNum && grid.Length1 == ImageColNum ==> IsGrid(g)
  {
    seq(grid.Length0, i requires 0 <= i < grid.Length0 reads grid =>
      seq(grid.Length1, j requires 0 <= j < grid.Length1 reads grid => grid[i, j]))
  }

  /** A grid value of the image's shape. */
  ghost predicate IsGrid(g: seq<seq<Rgb>>) {
    |g| == ImageRowNum && forall i :: 0 <= i < ImageRowNum ==> |g[i]| == ImageColNum
  }

  /** Whether adding pixel by pixel clips anywhere in the first n cells of a row. */
  function RowClips(mine: seq<Rgb>, theirs: seq<Rgb>, n: nat): (r: bool)
    requires n <= |mine| && n <= |theirs|
  {
    n > 0 && (RowClips(mine, theirs, n - 1) || Added(mine[n - 1], theirs[n - 1]).clipped)
  }

  /** Whether adding pixel by pixel clips anywhere in the first m rows. */
  function GridClips(mine: seq<seq<Rgb>>, theirs: seq<seq<Rgb>>, m: nat): (r: bool)
    requires IsGrid(mine) && IsGrid(theirs) && m <= ImageRowNum
  {
    m > 0 && (GridClips(mine, theirs, m - 1) || RowClips(mine[m - 1], theirs[m - 1], ImageColNum))
  }

  lemma {:induction false} RowClipsSomewhere(mine: seq<Rgb>, theirs: seq<Rgb>, n: nat)
    requires n <= |mine| && n <= |theirs|
    ensures RowClips(mine, theirs, n) <==> exists q :: 0 <= q < n && Added(mine[q], theirs[q]).clipped
  {
    if n > 0 {
      RowClipsSomewhere(mine, theirs, n - 1);
    }
  }

  /** The loop's running flag is the OR over every pixel of that pixel's clip flag. */
  lemma {:induction false} GridClipsSomewhere(mine: seq<seq<Rgb>>, theirs: seq<seq<Rgb>>, m: nat)
    requires IsGrid(mine) && IsGrid(theirs) && m <= ImageRowNum
    ensures GridClips(mine, theirs, m) <==>
              exists p, q :: 0 <= p < m && 0 <= q < ImageColNum && Added(mine[p][q], theirs[p][q]).clipped
  {
    if m > 0 {
      GridClipsSomewhere(mine, theirs, m - 1);
      RowClipsSomewhere(mine[m - 1], theirs[m - 1], ImageColNum);
    }
  }

  /** The image. Its grid is part of the object and is never replaced. */
  class ColorImageClass {
    const rowNum: int
    const colNum: int
    const pixels: array2<Rgb>

    /** The grid has the fixed 10 x 18 shape. */
    ghost predicate Shaped() {
      && rowNum == ImageRowNum && colNum == ImageColNum
      && pixels.Length0 == rowNum && pixels.Length1 == colNum
    }

    /** The grid has the fixed shape and every pixel satisfies the ColorClass invariant. */
    ghost predicate Valid()
      reads pixels
    {
      Shaped() && forall i, j :: 0 <= i < rowNum && 0 <= j < colNum ==> IsValid(pixels[i, j])
    }

    /** Every pixel starts full black. */
    constructor ()
      ensures Valid() && fresh(pixels)
      ensures forall i, j :: InImage(i, j) ==> pixels[i, j] == Black
    {
      rowNum := ImageRowNum;
      colNum := ImageColNum;
      pixels := new Rgb[ImageRowNum, ImageColNum];
      new;
      var i := 0;
      while i < rowNum
        invariant 0 <= i <= rowNum
        invariant forall p, q :: 0 <= p < i && 0 <= q < colNum ==> pixels[p, q] == Black
      {
        var j := 0;
        while j < colNum
          invariant 0 <= j <= colNum
          invariant forall p, q :: 0 <= p < i && 0 <= q < colNum ==> pixels[p, q] == Black
          invariant forall q :: 0 <= q < j ==> pixels[i, q] == Black
        {
          pixels[i, j] := Black;
          j := j + 1;
        }
        i := i + 1;
      }
    }

    /** Every pixel becomes a copy of inColor. */
    method InitializeTo(inColor: ColorClass)
      requires Valid() && inColor.Valid()
      modifies pixels
      ensures Valid()
      ensures forall i, j :: InImage(i, j) ==> pixels[i, j] == inColor.Value()
    {
      var i := 0;
      while i < rowNum
        invariant 0 <= i <= rowNum
        invariant forall p, q :: 0 <= p < i && 0 <= q < colNum ==> pixels[p, q] == inColor.Value()
        invariant forall p, q :: i <= p < rowNum && 0 <= q < colNum ==> pixels[p, q] == old(pixels[p, q])
      {
        var j := 0;
        while j < colNum
          invariant 0 <= j <= colNum
          invariant forall p, q :: 0 <= p < i && 0 <= q < colNum ==> pixels[p, q] == inColor.Value()
          invariant forall q :: 0 <= q < j ==> pixels[i, q] == inColor.Value()
          invariant forall p, q :: i <= p < rowNum && 0 <= q < colNum && (p > i || q >= j) ==>
                      pixels[p, q] == old(pixels[p, q])
        {
          pixels[i, j] := inColor.Value();
          j := j + 1;
        }
        i := i + 1;
      }
    }

    /**
     * Adds rhsImg pixel by pixel with clipping (rhsImg may be this image). Every pixel is
     * updated; the result is true exactly when some pixel's sum clipped.
     */
    method AddImageTo(rhsImg: ColorImageClass) returns (flagClip: bool)
      requires Valid() && rhsImg.Valid()
      modifies pixels
      ensures Valid()
      ensures forall i, j :: InImage(i, j) ==>
                pixels[i, j] == Added(old(pixels[i, j]), old(rhsImg.pixels[i, j])).color
      ensures flagClip <==>
                (exists i, j :: InImage(i, j) && Added(old(pixels[i, j]), old(rhsImg.pixels[i, j])).clipped)
    {
      ghost var mine, theirs := Snapshot(pixels), Snapshot(rhsImg.pixels);
      flagClip := false;
      var i := 0;
      while i < rowNum
        invariant 0 <= i <= rowNum
        invariant forall p, q :: 0 <= p < i && 0 <= q < colNum ==>
                    pixels[p, q] == Added(mine[p][q], theirs[p][q]).color
        invariant forall p, q :: i <= p < rowNum && 0 <= q < colNum ==>
                    pixels[p, q] == mine[p][q] && rhsImg.pixels[p, q] == theirs[p][q]
        invariant flagClip == GridClips(mine, theirs, i)
      {
        flagClip := AddRowTo(rhsImg, i, flagClip, mine[i], theirs[i]);
        i := i + 1;
      }
      GridClipsSomewhere(mine, theirs, rowNum);
      forall p, q | InImage(p, q)
        ensures Added(mine[p][q], theirs[p][q]) == Added(old(pixels[p, q]), old(rhsImg.pixels[p, q]))
        ensures IsValid(pixels[p, q])
      {
      }
    }

    /**
     * The inner loop of addImageTo: adds row i of rhsImg into row i of this image and
     * folds every pixel's clip flag into the running flag.
     */
    method AddRowTo(rhsImg: ColorImageClass, i: int, flagIn: bool,
                    ghost mine: seq<Rgb>, ghost theirs: seq<Rgb>) returns (flagClip: bool)
      requires Shaped() && rhsImg.Shaped() && |mine| == |theirs| == ImageColNum
      requires 0 <= i < rowNum
      requires forall q :: 0 <= q < colNum ==> pixels[i, q] == mine[q] && rhsImg.pixels[i, q] == theirs[q]
      modifies pixels
      ensures forall q :: 0 <= q < colNum ==> pixels[i, q] == Added(mine[q], theirs[q]).color
      ensures forall p, q :: InImage(p, q) && p != i ==> pixels[p, q] == old(pixels[p, q])
      ensures flagClip == (flagIn || RowClips(mine, theirs, colNum))
    {
      ghost var want := seq(colNum, q requires 0 <= q < colNum => Added(mine[q], theirs[q]).color);
      flagClip := flagIn;
      var j := 0;
      while j < colNum
        invariant 0 <= j <= colNum
        invariant forall q :: 0 <= q < j ==> pixels[i, q] == want[q]
        invariant forall q :: j <= q < colNum ==> pixels[i, q] == mine[q] && rhsImg.pixels[i, q] == theirs[q]
        invariant forall p, q :: InImage(p, q) && p != i ==> pixels[p, q] == old(pixels[p, q])
        invariant flagClip == (flagIn || RowClips(mine, theirs, j))
      {
        var sum := Added(pixels[i, j], rhsImg.pixels[i, j]);
        assert sum.color == want[j];
        pixels[i, j] := sum.color;
        flagClip := sum.clipped || flagClip;
        j := j + 1;
      }
    }

    /**
     * Sums the first numImgsToAdd images into a fresh black image, clipping after every
     * addition, then copies the sum into this image (which may itself be one of them).
     * The result is the OR of the per-image clip flags.
     */
    method AddImages(numImgsToAdd: int, imagesToAdd: seq<ColorImageClass>) returns (flagClip: bool)
      requires numImgsToAdd <= |imagesToAdd|
      requires Valid()
      requires forall k :: 0 <= k < numImgsToAdd ==> imagesToAdd[k].Valid()
      modifies pixels
      ensures Valid()
      ensures forall i, j :: InImage(i, j) ==>
                pixels[i, j] == Accumulate(Column(old(Layers(Used(numImgsToAdd, imagesToAdd))), i, j)).color
      ensures flagClip <==> ClipsAnywhere(old(Layers(Used(numImgsToAdd, imagesToAdd))))
    {
      var sumImg;
      sumImg, flagClip := SumImages(Used(numImgsToAdd, imagesToAdd));
      CopyPixels(sumImg);
    }

    /**
     * The summing loop of addImages: a fresh image, black at first, to which every image
     * is added in order; the flag is the OR of the per-addition clip flags.
     */
    static method SumImages(imgs: seq<ColorImageClass>) returns (sumImg: ColorImageClass, flagClip: bool)
      requires forall m :: 0 <= m < |imgs| ==> imgs[m].Valid()
      ensures sumImg.Valid() && fresh(sumImg.pixels)
      ensures forall i, j :: InImage(i, j) ==>
                sumImg.pixels[i, j] == Accumulate(Column(old(Layers(imgs)), i, j)).color
      ensures flagClip <==> ClipsAnywhere(old(Layers(imgs)))
    {
      ghost var layers := Layers(imgs);
      NothingClipsYet();
      sumImg := new ColorImageClass();
      flagClip := false;
      var k := 0;
      while k < |imgs|
        invariant 0 <= k <= |imgs|
        invariant sumImg.Valid() && fresh(sumImg.pixels)
        invariant forall i, j :: InImage(i, j) ==>
                    sumImg.pixels[i, j] == Accumulate(Column(layers[..k], i, j)).color
        invariant flagClip <==> ClipsAnywhere(layers[..k])
        modifies sumImg.pixels
      {
        var stepClip := sumImg.AddLayer(imgs[k], layers[..k], layers[k]);
        flagClip := stepClip || flagClip;
        TakeOneMore(layers, k);
        k := k + 1;
      }
      assert layers[..k] == layers;
    }

    /**
     * One pass of addImages' summing loop: this image holds the stepwise sum of the grids
     * ls, and adding img (whose grid is g) makes it hold the stepwise sum of ls + [g].
     */
    method AddLayer(img: ColorImageClass, ghost ls: seq<seq<seq<Rgb>>>, ghost g: seq<seq<Rgb>>)
      returns (stepClip: bool)
      requires Valid() && img.Valid()
      requires forall i, j :: InImage(i, j) ==> pixels[i, j] == Accumulate(Column(ls, i, j)).color
      requires forall i, j :: InImage(i, j) ==> img.pixels[i, j] == Pixel(g, i, j)
      modifies pixels
      ensures Valid()
      ensures forall i, j :: InImage(i, j) ==> pixels[i, j] == Accumulate(Column(ls + [g], i, j)).color
      ensures stepClip || ClipsAnywhere(ls) <==> ClipsAnywhere(ls + [g])
    {
      stepClip := AddImageTo(img);
      forall i, j | InImage(i, j)
        ensures Added(old(pixels[i, j]), old(img.pixels[i, j])) ==
                Added(Accumulate(Column(ls, i, j)).color, Pixel(g, i, j))
      {
      }
      AccumulateLayer(ls, g);
    }

    /** The copy step of addImages: every pixel becomes the same pixel of src. */
    method CopyPixels(src: ColorImageClass)
      requires Valid() && src.Valid() && src.pixels != pixels
      modifies pixels
      ensures Valid()
      ensures forall i, j :: InImage(i, j) ==> pixels[i, j] == src.pixels[i, j]
    {
      var i := 0;
      while i < rowNum
        invariant 0 <= i <= rowNum
        invariant forall p, q :: 0 <= p < i && 0 <= q < colNum ==> pixels[p, q] == src.pixels[p, q]
        invariant forall p, q :: i <= p < rowNum && 0 <= q < colNum ==> pixels[p, q] == old(pixels[p, q])
      {
        var j := 0;
        while j < colNum
          invariant 0 <= j <= colNum
          invariant forall p, q :: (0 <= p < i && 0 <= q < colNum) || (p == i && 0 <= q < j) ==>
                      pixels[p, q] == src.pixels[p, q]
          invariant forall p, q :: i <= p < rowNum && 0 <= q < colNum && (p > i || q >= j) ==>
                      pixels[p, q] == old(pixels[p, q])
        {
          pixels[i, j] := src.pixels[i, j];
          j := j + 1;
        }
        i := i + 1;
      }
    }

    /**
     * Sets the pixel at inRowCol to inColor when the location lies in the grid and says
     * so; otherwise leaves the whole image unchanged and returns false.
     */
    method SetColorAtLocation(inRowCol: RowColumnClass, inColor: ColorClass) returns (ok: bool)
      requires Valid() && inColor.Valid()
      modifies pixels
      ensures Valid()
      ensures ok <==> InImage(inRowCol.rowIdx as int, inRowCol.colIdx as int)
      ensures ok ==> pixels[inRowCol.rowIdx, inRowCol.colIdx] == inColor.Value()
      ensures forall i, j :: InImage(i, j) && !(ok && i == inRowCol.rowIdx as int && j == inRowCol.colIdx as int) ==>
                pixels[i, j] == old(pixels[i, j])
    {
      var lowerBound := 0;
      var rowLoc := inRowCol.GetRow();
      var colLoc := inRowCol.GetCol();
      if rowLoc as int >= lowerBound && rowLoc as int < rowNum &&
         colLoc as int >= lowerBound && colLoc as int < colNum
      {
        pixels[rowLoc, colLoc] := inColor.Value();
        ok := true;
      } else {
        ok := false;
      }
    }

    /**
     * When inRowCol lies in the grid, copies that pixel into outColor and returns true;
     * otherwise returns false and leaves outColor as it was.
     */
    method GetColorAtLocation(inRowCol: RowColumnClass, outColor: ColorClass) returns (ok: bool)
      requires Valid()
      modifies outColor
      ensures ok <==> InImage(inRowCol.rowIdx as int, inRowCol.colIdx as int)
      ensures ok ==> outColor.Value() == pixels[inRowCol.rowIdx, inRowCol.colIdx] && outColor.Valid()
      ensures !ok ==> outColor.Value() == old(outColor.Value())
    {
      var lowerBound := 0;
      var rowLoc := inRowCol.GetRow();
      var colLoc := inRowCol.GetCol();
      if rowLoc as int >= lowerBound && rowLoc as int < rowNum &&
         colLoc as int >= lowerBound && colLoc as int < colNum
      {
        var pixel := pixels[rowLoc, colLoc];
        outColor.redVal, outColor.greenVal, outColor.blueVal := pixel.red, pixel.green, pixel.blue;
        ok := true;
      } else {
        ok := false;
      }
    }
  }

  /** The images addImages reads: the first numImgsToAdd of them, none when it is not positive. */
  function Used(numImgsToAdd: int, imagesToAdd: seq<ColorImageClass>): (used: seq<ColorImageClass>)
    requires numImgsToAdd <= |imagesToAdd|
    ensures |used| == if numImgsToAdd <= 0 then 0 else numImgsToAdd
    ensures forall k :: 0 <= k < |used| ==> used[k] == imagesToAdd[k]
  {
    if numImgsToAdd <= 0 then [] else imagesToAdd[..numImgsToAdd]
  }

  /** The grid values of the given images, in order. */
  ghost function Layers(imgs: seq<ColorImageClass>): (ls: seq<seq<seq<Rgb>>>)
    reads set m | 0 <= m < |imgs| :: imgs[m].pixels
    ensures |ls| == |imgs|
    ensures forall m :: 0 <= m < |imgs| ==> ls[m] == Snapshot(imgs[m].pixels)
    decreases |imgs|
  {
    if imgs == [] then []
    else Layers(imgs[..|imgs| - 1]) + [Snapshot(imgs[|imgs| - 1].pixels)]
  }

  /** The colour a grid value holds at a location (black outside it). */
  function Pixel(g: seq<seq<Rgb>>, row: int, col: int): (r: Rgb) {
    if 0 <= row < |g| && 0 <= col < |g[row]| then g[row][col] else Black
  }

  /** The colours a sequence of grids holds at one location, in order. */
  function Column(ls: seq<seq<seq<Rgb>>>, row: int, col: int): (s: seq<Rgb>)
    ensures |s| == |ls|
    ensures forall m :: 0 <= m < |ls| ==> s[m] == Pixel(ls[m], row, col)
  {
    seq(|ls|, m requires 0 <= m < |ls| => Pixel(ls[m], row, col))
  }

  /** Whether the stepwise sum of the grids clips at some pixel. */
  ghost predicate ClipsAnywhere(ls: seq<seq<seq<Rgb>>>) {
    exists i, j :: InImage(i, j) && Accumulate(Column(ls, i, j)).clipped
  }

  /** Before any image is added nothing has clipped. */
  lemma NothingClipsYet()
    ensures !ClipsAnywhere([])
  {
    forall i, j | InImage(i, j)
      ensures !Accumulate(Column([], i, j)).clipped
    {
      assert Column([], i, j) == [];
    }
  }

  lemma TakeOneMore<T>(s: seq<T>, k: nat)
    requires k < |s|
    ensures s[..k + 1] == s[..k] + [s[k]]
  {
  }

  /** Adding one more grid to the stepwise sum, pixel by pixel and for the flag. */
  lemma AccumulateLayer(ls: seq<seq<seq<Rgb>>>, g: seq<seq<Rgb>>)
    ensures forall i, j ::
              Accumulate(Column(ls + [g], i, j)) ==
                var step := Added(Accumulate(Column(ls, i, j)).color, Pixel(g, i, j));
                Outcome(step.color, step.clipped || Accumulate(Column(ls, i, j)).clipped)
    ensures ClipsAnywhere(ls + [g]) <==>
              ClipsAnywhere(ls) ||
              exists i, j :: InImage(i, j) && Added(Accumulate(Column(ls, i, j)).color, Pixel(g, i, j)).clipped
  {
    forall i, j
      ensures Accumulate(Column(ls + [g], i, j)) ==
                var step := Added(Accumulate(Column(ls, i, j)).color, Pixel(g, i, j));
                Outcome(step.color, step.clipped || Accumulate(Column(ls, i, j)).clipped)
    {
      assert Column(ls + [g], i, j) == Column(ls, i, j) + [Pixel(g, i, j)];
      AccumulateSnoc(Column(ls, i, j), Pixel(g, i, j));
    }
  }
}
