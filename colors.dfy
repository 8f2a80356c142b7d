/**
 * The colour value of hw2/colorImageFramework402.cpp: three integer channels that the
 * class invariant keeps in [MinColorValue, MaxColorValue]. The value constructor, SetTo,
 * AddColor and SubtractColor route their raw result through ColorClip, and the last three
 * report whether clipping changed it; the SetToX methods assign fixed colours, and
 * SetToColor copies a valid colour and reports no clipping.
 *
 * Channel arithmetic never leaves [-1000, 2000] for valid colours, so the 32-bit width
 * of the C++ `int` plays no role here and channels are plain integers.
 */
module Colors {

  const MinColorValue: int := 0
  const MaxColorValue: int := 1000

  predicate InColorRange(v: int) {
    MinColorValue <= v <= MaxColorValue
  }

  /** Saturates a channel at the nearer end of the valid range. */
  function ColorClip(inVal: int): (outVal: int)
    ensures InColorRange(outVal)
    ensures outVal == inVal <==> InColorRange(inVal)
  {
    if inVal < MinColorValue then MinColorValue
    else if inVal > MaxColorValue then MaxColorValue
    else inVal
  }

  /** ColorClip picks the in-range value closest to its input. */
  lemma ColorClipIsNearest(inVal: int, v: int)
    requires InColorRange(v)
    ensures Dist(ColorClip(inVal), inVal) <= Dist(v, inVal)
  {
  }

  function Dist(a: int, b: int): (r: nat) {
    if a <= b then b - a else a - b
  }

  /** Clipping is monotone: a larger raw value never clips to a smaller one. */
  lemma ColorClipMonotone(a: int, b: int)
    requires a <= b
    ensures ColorClip(a) <= ColorClip(b)
  {
  }

  /** The value of a colour: its red, green and blue channels. */
  datatype Rgb = Rgb(red: int, green: int, blue: int)

  /** The ColorClass invariant: every channel in range. */
  predicate IsValid(c: Rgb) {
    InColorRange(c.red) && InColorRange(c.green) && InColorRange(c.blue)
  }

  const Black := Rgb(MinColorValue, MinColorValue, MinColorValue)
  const Red := Rgb(MaxColorValue, MinColorValue, MinColorValue)
  const Green := Rgb(MinColorValue, MaxColorValue, MinColorValue)
  const Blue := Rgb(MinColorValue, MinColorValue, MaxColorValue)
  const White := Rgb(MaxColorValue, MaxColorValue, MaxColorValue)

  /** Channel-wise ColorClip. */
  function ClipColor(c: Rgb): (r: Rgb)
    ensures IsValid(r)
    ensures r == c <==> IsValid(c)
  {
    Rgb(ColorClip(c.red), ColorClip(c.green), ColorClip(c.blue))
  }

  /** Raw channel-wise sum and difference, before clipping. */
  function Plus(a: Rgb, b: Rgb): (r: Rgb) {
    Rgb(a.red + b.red, a.green + b.green, a.blue + b.blue)
  }

  function Minus(a: Rgb, b: Rgb): (r: Rgb) {
    Rgb(a.red - b.red, a.green - b.green, a.blue - b.blue)
  }

  /** What a clipping mutator leaves behind: the stored colour and its returned flag. */
  datatype Outcome = Outcome(color: Rgb, clipped: bool)

  /**
   * Stores a raw colour through ColorClip; the flag is set when some stored channel
   * differs from its raw value.
   */
  function Settle(raw: Rgb): (r: Outcome)
    ensures IsValid(r.color)
    ensures r.clipped <==> !IsValid(raw)
    ensures !r.clipped ==> r.color == raw
  {
    var stored := ClipColor(raw);
    Outcome(stored, stored != raw)
  }

  /** addColor: each channel becomes the clipped sum. */
  function Added(c: Rgb, rhs: Rgb): (r: Outcome)
    ensures IsValid(r.color)
  {
    Settle(Plus(c, rhs))
  }

  /** subtractColor: each channel becomes the clipped difference. */
  function Subtracted(c: Rgb, rhs: Rgb): (r: Outcome)
    ensures IsValid(r.color)
  {
    Settle(Minus(c, rhs))
  }

  /** Adding two valid colours can only clip at the top: no channel falls below zero. */
  lemma AddedClipsOnlyAbove(c: Rgb, rhs: Rgb)
    requires IsValid(c) && IsValid(rhs)
    ensures Added(c, rhs).clipped <==>
              c.red + rhs.red > MaxColorValue || c.green + rhs.green > MaxColorValue ||
              c.blue + rhs.blue > MaxColorValue
  {
  }

  /** Subtracting a valid colour from a valid colour can only clip at the bottom. */
  lemma SubtractedClipsOnlyBelow(c: Rgb, rhs: Rgb)
    requires IsValid(c) && IsValid(rhs)
    ensures Subtracted(c, rhs).clipped <==>
              c.red < rhs.red || c.green < rhs.green || c.blue < rhs.blue
  {
  }

  /** When addColor does not clip, subtractColor of the same colour undoes it exactly. */
  lemma SubtractUndoesUnclippedAdd(c: Rgb, rhs: Rgb)
    requires IsValid(c)
    requires !Added(c, rhs).clipped
    ensures Subtracted(Added(c, rhs).color, rhs) == Outcome(c, false)
  {
  }

  /**
   * The ColorClass object. Its fields are the three channels; Value() is the colour they
   * hold. Mutators are specified by the value functions above.
   */
  class ColorClass {
    var redVal: int
    var greenVal: int
    var blueVal: int

    function Value(): Rgb
      reads this
    {
      Rgb(redVal, greenVal, blueVal)
    }

    ghost predicate Valid()
      reads this
    {
      IsValid(Value())
    }

    /** The default colour is full white. */
    constructor ()
      ensures Valid() && Value() == White
    {
      redVal := MaxColorValue;
      greenVal := MaxColorValue;
      blueVal := MaxColorValue;
    }

    /** The value constructor stores each given channel through ColorClip. */
    constructor FromChannels(inRed: int, inGreen: int, inBlue: int)
      ensures Valid()
      ensures Value() == ClipColor(Rgb(inRed, inGreen, inBlue))
    {
      redVal := ColorClip(inRed);
      greenVal := ColorClip(inGreen);
      blueVal := ColorClip(inBlue);
    }

    method SetToBlack()
      modifies this
      ensures Valid() && Value() == Black
    {
      redVal, greenVal, blueVal := MinColorValue, MinColorValue, MinColorValue;
    }

    method SetToRed()
      modifies this
      ensures Valid() && Value() == Red
    {
      redVal, greenVal, blueVal := MaxColorValue, MinColorValue, MinColorValue;
    }

    method SetToGreen()
      modifies this
      ensures Valid() && Value() == Green
    {
      redVal, greenVal, blueVal := MinColorValue, MaxColorValue, MinColorValue;
    }

    method SetToBlue()
      modifies this
      ensures Valid() && Value() == Blue
    {
      redVal, greenVal, blueVal := MinColorValue, MinColorValue, MaxColorValue;
    }

    method SetToWhite()
      modifies this
      ensures Valid() && Value() == White
    {
      redVal, greenVal, blueVal := MaxColorValue, MaxColorValue, MaxColorValue;
    }

    /** Stores the given channels, clipped; returns true exactly when some input was out of range. */
    method SetTo(inRed: int, inGreen: int, inBlue: int) returns (clipped: bool)
      modifies this
      ensures Valid()
      ensures Value() == ClipColor(Rgb(inRed, inGreen, inBlue))
      ensures clipped <==> !IsValid(Rgb(inRed, inGreen, inBlue))
    {
      redVal := ColorClip(inRed);
      greenVal := ColorClip(inGreen);
      blueVal := ColorClip(inBlue);
      clipped := !(redVal == inRed && greenVal == inGreen && blueVal == inBlue);
    }

    /** Copies another (valid) colour exactly; never clips. */
    method SetToColor(inColor: ColorClass) returns (clipped: bool)
      requires inColor.Valid()
      modifies this
      ensures Valid()
      ensures Value() == old(inColor.Value())
      ensures !clipped
    {
      redVal := inColor.redVal;
      greenVal := inColor.greenVal;
      blueVal := inColor.blueVal;
      clipped := false;
    }

    /** Adds rhs channel-wise and clips; rhs may be this object itself. */
    method AddColor(rhs: ColorClass) returns (clipped: bool)
      modifies this
      ensures Valid()
      ensures Outcome(Value(), clipped) == Added(old(Value()), old(rhs.Value()))
    {
      var sumRed := redVal + rhs.redVal;
      var sumGreen := greenVal + rhs.greenVal;
      var sumBlue := blueVal + rhs.blueVal;
      ghost var raw := Rgb(sumRed, sumGreen, sumBlue);
      assert raw == Plus(old(Value()), old(rhs.Value()));
      redVal := ColorClip(sumRed);
      greenVal := ColorClip(sumGreen);
      blueVal := ColorClip(sumBlue);
      clipped := !(redVal == sumRed && greenVal == sumGreen && blueVal == sumBlue);
      assert Value() == ClipColor(raw);
    }

    /** Subtracts rhs channel-wise and clips; rhs may be this object itself. */
    method SubtractColor(rhs: ColorClass) returns (clipped: bool)
      modifies this
      ensures Valid()
      ensures Outcome(Value(), clipped) == Subtracted(old(Value()), old(rhs.Value()))
    {
      var subRed := redVal - rhs.redVal;
      var subGreen := greenVal - rhs.greenVal;
      var subBlue := blueVal - rhs.blueVal;
      ghost var raw := Rgb(subRed, subGreen, subBlue);
      assert raw == Minus(old(Value()), old(rhs.Value()));
      redVal := ColorClip(subRed);
      greenVal := ColorClip(subGreen);
      blueVal := ColorClip(subBlue);
      clipped := !(redVal == subRed && greenVal == subGreen && blueVal == subBlue);
      assert Value() == ClipColor(raw);
    }
  }
}
