# Clipped colours, a fixed-grid image and the sine helpers, in Dafny

This project models two small C++ programs and proves what their comments promise.

**hw2/colorImageFramework402.cpp** has three classes:
- `ColorClass` is an RGB colour. Its three integer channels are kept in [0, 1000]. The value constructor, `setTo(r, g, b)`, `addColor` and `subtractColor` store their raw result through `colorClip`; the last three return whether clipping changed anything. The `setToX` methods assign fixed colours, and `setTo(const ColorClass&)` copies the channels and returns false.
- `RowColumnClass` is a pair of 32-bit indices with setters, getters and a component-wise add.
- `ColorImageClass` is a 10 x 18 grid of colours, changed in place by nested loops. It supports:
  - filling the grid with one colour;
  - bounds-checked get and set of one pixel;
  - pixel-wise clipped addition of another image;
  - summing a list of images into a fresh black image and copying that sum in.

**hw1/sineApprox402.cpp** approximates sine with a Taylor series. The model covers:
- `computeFactorial`, which accepts only [0, 12];
- `toThePower`, which accepts only a non-negative exponent;
- the term loop of `approximateSine`, which accepts 1 to 5 terms. Term `i` uses sign exponent `i`, angle exponent `2i+1` and factorial argument `2i+1`.

Every function here writes its reference out-parameter only on success. The model gives each such parameter an input (its value before the call) and an output (its value after). The contracts then state that a failed call leaves the value as it was.

Files:
- `machine_int.dfy`: the 32-bit signed `int32` type.
- `colors.dfy`: `ColorClip`, the `Rgb` value with its clipping arithmetic, and the `ColorClass` object.
- `row_column.dfy`: `RowColumnClass`.
- `color_image.dfy`: `ColorImageClass` over an `array2<Rgb>`, and the stepwise-sum specification of `addImages` with its lemmas.
- `sine_approx.dfy`: `Power`, `Factorial`, the series terms, and the three methods.

The C++ image stores `ColorClass` objects by value inside its array. The model stores their `Rgb` values in an `array2<Rgb>`. Every in-place `addColor` on a pixel becomes an update of that cell through `Colors.Added`, the same function that specifies `ColorClass.AddColor`.

## Model

| member | source | states |
|---|---|---|
| Colors.ColorClip | hw2/colorImageFramework402.cpp:406-417 | The result always lies in [0, 1000], and it equals the input exactly when the input already lies in that range. |
| Colors.ColorClipIsNearest | hw2/colorImageFramework402.cpp:406-417 | No value in [0, 1000] is closer to the input than the clipped value, so clipping saturates at the nearer bound. |
| Colors.ColorClipMonotone | hw2/colorImageFramework402.cpp:406-417 | A larger raw value never clips to a smaller one. |
| Colors.ClipColor | hw2/colorImageFramework402.cpp:428-437 | Clipping all three channels gives a valid colour, and leaves the colour unchanged exactly when it was already valid. |
| Colors.Settle | hw2/colorImageFramework402.cpp:509-516 | The stored colour is valid. The flag is set exactly when some raw channel was out of range. Without clipping, the raw colour is stored unchanged. |
| Colors.Added | hw2/colorImageFramework402.cpp:501-517 | The colour left by `addColor` is always valid. |
| Colors.Subtracted | hw2/colorImageFramework402.cpp:519-535 | The colour left by `subtractColor` is always valid. |
| Colors.AddedClipsOnlyAbove | hw2/colorImageFramework402.cpp:501-517 | For two valid colours, `addColor` reports clipping exactly when some channel sum exceeds 1000. |
| Colors.SubtractedClipsOnlyBelow | hw2/colorImageFramework402.cpp:519-535 | For two valid colours, `subtractColor` reports clipping exactly when some channel of the subtrahend is larger. |
| Colors.SubtractUndoesUnclippedAdd | hw2/colorImageFramework402.cpp:501-535 | When `addColor` did not clip, subtracting the same colour restores the original exactly and does not clip. |
| Colors.ColorClass.constructor | hw2/colorImageFramework402.cpp:421-426 | The default colour is full white. |
| Colors.ColorClass.FromChannels | hw2/colorImageFramework402.cpp:428-437 | Each channel is the clipped input, so the object is valid. |
| Colors.ColorClass.SetToBlack | hw2/colorImageFramework402.cpp:440-445 | All channels become 0. |
| Colors.ColorClass.SetToRed | hw2/colorImageFramework402.cpp:446-451 | The colour becomes (1000, 0, 0). |
| Colors.ColorClass.SetToGreen | hw2/colorImageFramework402.cpp:452-457 | The colour becomes (0, 1000, 0). |
| Colors.ColorClass.SetToBlue | hw2/colorImageFramework402.cpp:458-463 | The colour becomes (0, 0, 1000). |
| Colors.ColorClass.SetToWhite | hw2/colorImageFramework402.cpp:464-469 | All channels become 1000. |
| Colors.ColorClass.SetTo | hw2/colorImageFramework402.cpp:472-486 | Each channel becomes the clipped input. The result is true exactly when some input lay outside [0, 1000]. |
| Colors.ColorClass.SetToColor | hw2/colorImageFramework402.cpp:489-498 | The three channels of the valid source colour are copied exactly, and the result is always false. |
| Colors.ColorClass.AddColor | hw2/colorImageFramework402.cpp:501-517 | Each channel becomes clip(old + rhs). The result is true exactly when some raw sum was out of range. The object stays valid, and `rhs` may be the object itself. |
| Colors.ColorClass.SubtractColor | hw2/colorImageFramework402.cpp:519-535 | Each channel becomes clip(old - rhs). The result is true exactly when some raw difference was out of range. The object stays valid. |
| RowColumn.RowColumnClass.constructor | hw2/colorImageFramework402.cpp:337-341 | Both indices start at -99999. |
| RowColumn.RowColumnClass.FromValues | hw2/colorImageFramework402.cpp:344-351 | The indices are the given ones. |
| RowColumn.RowColumnClass.SetRowCol | hw2/colorImageFramework402.cpp:354-360 | Both indices are replaced. |
| RowColumn.RowColumnClass.SetRow | hw2/colorImageFramework402.cpp:363-367 | The row is replaced and the column is unchanged. |
| RowColumn.RowColumnClass.SetCol | hw2/colorImageFramework402.cpp:370-374 | The column is replaced and the row is unchanged. |
| RowColumn.RowColumnClass.GetRow | hw2/colorImageFramework402.cpp:378-381 | Returns the stored row. |
| RowColumn.RowColumnClass.GetCol | hw2/colorImageFramework402.cpp:383-386 | Returns the stored column. |
| RowColumn.RowColumnClass.AddRowColTo | hw2/colorImageFramework402.cpp:389-395 | Row and column each grow by the other location's row and column, even when the other location is this object. |
| ColorImage.Accumulate | hw2/colorImageFramework402.cpp:620-626 | The stepwise clipped sum of a pixel's colours, starting from black, is always a valid colour. |
| ColorImage.AccumulateIsClippedTotal | hw2/colorImageFramework402.cpp:620-626 | Channels are never negative, so the stepwise clipped sum equals the exact sum clipped once: each channel is min(1000, its total). Some step clips exactly when some channel total exceeds 1000. |
| ColorImage.RowClipsSomewhere | hw2/colorImageFramework402.cpp:601-607 | The running flag of one row is true exactly when some pixel's addition in that row clipped. |
| ColorImage.GridClipsSomewhere | hw2/colorImageFramework402.cpp:599-608 | The running flag over the first m rows is true exactly when some pixel's addition in those rows clipped. |
| ColorImage.NothingClipsYet | hw2/colorImageFramework402.cpp:620-621 | Before any image is added, the black start has not clipped anywhere. |
| ColorImage.AccumulateLayer | hw2/colorImageFramework402.cpp:623-626 | Adding one more image extends every pixel's stepwise sum by one clipped addition. The overall flag becomes the old flag OR this step's flag. |
| ColorImage.ColorImageClass.constructor | hw2/colorImageFramework402.cpp:567-578 | The grid is 10 x 18 and every pixel is full black. |
| ColorImage.ColorImageClass.InitializeTo | hw2/colorImageFramework402.cpp:581-592 | Every pixel becomes the given colour. |
| ColorImage.ColorImageClass.AddImageTo | hw2/colorImageFramework402.cpp:595-611 | Every pixel becomes the clipped sum of its old value and the other image's pixel, including the pixels after the first clip. The result is true exactly when some pixel clipped, and `rhsImg` may be this image. |
| ColorImage.ColorImageClass.AddRowTo | hw2/colorImageFramework402.cpp:601-607 | Row i becomes the clipped sum of the two rows, and the other rows are unchanged. The running flag is ORed with every pixel's clip flag. |
| ColorImage.ColorImageClass.AddImages | hw2/colorImageFramework402.cpp:615-637 | Every pixel becomes the stepwise clipped sum of the first n images, starting from black. The result is true exactly when some step clipped at some pixel. The list may contain this image. |
| ColorImage.ColorImageClass.SumImages | hw2/colorImageFramework402.cpp:620-626 | A fresh image, black at first, ends up holding the stepwise clipped sum of the images, with the OR of their clip flags. |
| ColorImage.ColorImageClass.AddLayer | hw2/colorImageFramework402.cpp:625 | If the sum image holds the stepwise sum of some images, adding one more image makes it hold the stepwise sum with that image appended. |
| ColorImage.ColorImageClass.CopyPixels | hw2/colorImageFramework402.cpp:628-634 | Every pixel becomes the corresponding pixel of the source image. |
| ColorImage.ColorImageClass.SetColorAtLocation | hw2/colorImageFramework402.cpp:642-662 | Succeeds exactly when 0 <= row < 10 and 0 <= col < 18. On success only that pixel changes, to the given colour. On failure the image is unchanged. |
| ColorImage.ColorImageClass.GetColorAtLocation | hw2/colorImageFramework402.cpp:667-686 | Succeeds exactly when the location lies in the grid. On success `outColor` becomes that pixel. On failure `outColor` is left as it was. |
| SineApprox.Factorial | hw1/sineApprox402.cpp:186-192 | n! is at least 1 and at least n, with 0! = 1. |
| SineApprox.FactorialMonotone | hw1/sineApprox402.cpp:186-192 | The factorial never decreases as its argument grows. |
| SineApprox.FactorialFitsInt32 | hw1/sineApprox402.cpp:16-17 | Every accepted argument has n! <= 12! = 479001600 <= 2^31 - 1, while 13! does not fit. So 12 is the largest safe bound. |
| SineApprox.PowerAdd | hw1/sineApprox402.cpp:160-170 | The repeated-multiplication power satisfies b^(m+n) = b^m * b^n. |
| SineApprox.SignAlternates | hw1/sineApprox402.cpp:248-252 | The sign factor (-1.0)^i is 1 for even i and -1 for odd i. |
| SineApprox.PowerOfZero | hw1/sineApprox402.cpp:160-170 | Any positive power of 0 is 0. |
| SineApprox.SineSeriesAtZero | hw1/sineApprox402.cpp:246-265 | Every partial sum of the series is 0 at angle 0. |
| SineApprox.OneTermIsTheAngle | hw1/sineApprox402.cpp:246-265 | With one term the approximation is the angle itself. |
| SineApprox.ToThePower | hw1/sineApprox402.cpp:147-174 | Succeeds exactly when the exponent is >= 0, and a failure leaves the output as it was. On success the output is base^exponent, reached by exactly `exponent` multiplications, so exponent 0 gives 1.0. |
| SineApprox.ComputeFactorial | hw1/sineApprox402.cpp:176-196 | Succeeds exactly when 0 <= n <= 12, and a failure leaves the output as it was. On success the output is n!, and every partial product fits in 32 bits. |
| SineApprox.ApproximateSine | hw1/sineApprox402.cpp:198-274 | Succeeds exactly when 1 <= numTerms <= 5, and a failure leaves the output as it was. On success the output is the sum of terms 0 .. numTerms-1 in order. Every helper call succeeds, so the defensive failure branch cannot be reached. |

## Left out

- `ColorClass::adjustBrightness` is not modelled. It scales by a `double` and truncates with a cast, which is floating-point behaviour.
- `printComponentValues`, `printRowCol`, `printImage`, both `main` functions, and the error message `approximateSine` prints are console output.
- The optional `ANDREW_TEST` block of both files is left out; andrewTest.h is not part of this model.
- `degreesToRadians` and the pi literal are not modelled.
- SineApprox.ApproximateSine: takes the angle after the two normalisation loops into [-pi, pi]; those loops and their `double` pi are not modelled.
- SineApprox.ApproximateSine, SineApprox.ToThePower: `double` arithmetic is exact real arithmetic here. The contracts say which terms are computed and in what order, not the rounded value or the accuracy of the series.
- ColorImage.ColorImageClass.AddImages: requires `numImgsToAdd` to be at most the length of the list, since C++ does not check the array bound. A count of zero or less sums no images, so the image becomes black and the result is false, as in the C++.
- RowColumn.RowColumnClass.AddRowColTo: requires both sums to fit in 32 bits, since signed overflow is undefined in C++.
- ColorImage.ColorImageClass.SetColorAtLocation, ColorImage.ColorImageClass.InitializeTo: require the given colour to satisfy the channel invariant, which every `ColorClass` object keeps.
- Colors: channels are unbounded integers rather than 32-bit ints. For valid colours every sum or difference stays within [-1000, 2000], so the width never matters.
- ColorImage: the image's pixels are `Rgb` values rather than separate `ColorClass` objects, as explained above.
- `AddRowTo`, `SumImages`, `AddLayer` and `CopyPixels` are the inner loop, the summing loop, one pass of that loop, and the copy loop of `addImageTo` and `addImages`, written as methods of their own.
