# Convolution and blur-position filters of AndroidFastImageProcessing, in Dafny

This project models two filters of the AndroidFastImageProcessing framework
and proves properties of the models.

- **ConvolutionFilter** generates GLSL fragment-shader text for a
  `width x height` convolution kernel. The constructor builds the shader
  body once, with a nested loop that appends one texture-lookup term per
  kernel cell. The fragment shader wraps that body in a fixed head, which
  declares a coefficient array `u_Filter` of length `width * height`.
- **GaussianBlurPositionFilter** is a two-input composite filter. Its second
  input is an inner Gaussian blur of the first. When a frame arrives from a
  source that is not bound, or while fewer than two slots are bound, it
  re-binds the slots:
  - slot 0 goes to the arriving source;
  - slot 1 goes to the inner blur;
  - the source becomes the input/output filter.

  The frame is then handed to the inherited multi-input handling.

Files:

- `Decimal.dfy` (module `Decimal`): the decimal text Java produces when an
  `int` is concatenated to a `String`. A parser proves the text round-trips,
  so distinct offsets and indices print distinctly.
- `Convolution.dfy` (module `Convolution`): the body is specified in two
  layers.
  - `Taps` is the row-major list of (horizontal offset, vertical offset,
    coefficient index) triples.
  - `FilterBody` renders those taps as text.
  - `CreateFilterBody` is the generator's nested loop, proved equal to
    `FilterBody`.
  - `ConvolutionFilter` is a class with constant fields, assigned once in
    the constructor as in the Java.
- `BlurPosition.dfy` (module `BlurPosition`): the slot-list rule, as pure
  functions with lemmas, and the classes `GaussianBlurFilter` and
  `GaussianBlurPositionFilter`. Their methods change the inherited state
  (slot list, input/output, initial and terminal filters, forwarded frames)
  in place.

Inherited names and base-class state:

- The sampler, texture-coordinate and texel-size names come from base
  classes. They are a parameter record (`InheritedNames`), so every
  property holds for any values of them.
- The base-class operations that the composite calls have stated contracts:
  - clear the slot list;
  - register a filter at an index, which drops any earlier registration of
    it and then inserts it at that index;
  - register input/output, initial and terminal filters, as sets;
  - add a target, which appends it;
  - hand on a frame, which appends it to a log together with the slot list
    in force.
- Renderers are compared by identity. `List.contains` compares with `equals()`, so this assumes the renderer classes, which are not part of this model, do not override `equals`.

## Model

| member | source | states |
|---|---|---|
| Decimal.DecimalRoundTrip | framework/FastImageProcessing/src/project/android/imageprocessing/filter/processing/ConvolutionFilter.java:40 | the decimal text an int is concatenated as parses back to that int |
| Decimal.IntToStringInjective | framework/FastImageProcessing/src/project/android/imageprocessing/filter/processing/ConvolutionFilter.java:40 | different offsets or indices print as different text |
| Convolution.TapsRowMajor | framework/FastImageProcessing/src/project/android/imageprocessing/filter/processing/ConvolutionFilter.java:36-40 | there are width*height taps; the one at position j*width+i belongs to column i of row j, with offsets i-(width-1)/2 and j-(height-1)/2 and coefficient index j*width+i |
| Convolution.TapIndicesEnumerate | framework/FastImageProcessing/src/project/android/imageprocessing/filter/processing/ConvolutionFilter.java:31-40 | the coefficient index of the tap at position k is k, so the indices run through 0 .. width*height-1 once each, in increasing order, all below the filter size |
| Convolution.HorizontalOffsets | framework/FastImageProcessing/src/project/android/imageprocessing/filter/processing/ConvolutionFilter.java:8-9 | the horizontal offsets are exactly -(width-1)/2 .. width/2: symmetric for an odd width, one extra on the right for an even width |
| Convolution.VerticalOffsets | framework/FastImageProcessing/src/project/android/imageprocessing/filter/processing/ConvolutionFilter.java:8-9 | the vertical offsets are exactly -(height-1)/2 .. height/2: symmetric for an odd height, one extra at the bottom for an even height |
| Convolution.TermTextSpelledOut | framework/FastImageProcessing/src/project/android/imageprocessing/filter/processing/ConvolutionFilter.java:40 | a term samples the input texture at the tap's offsets in width and height steps and scales it by the coefficient at the tap's index |
| Convolution.LastCellIsLastPosition | framework/FastImageProcessing/src/project/android/imageprocessing/filter/processing/ConvolutionFilter.java:41 | the generator's last-cell test holds exactly at the last row-major position width*height-1 |
| Convolution.SeparatorLayout | framework/FastImageProcessing/src/project/android/imageprocessing/filter/processing/ConvolutionFilter.java:41-45 | of n terms, exactly the last is followed by ";\n" and the other n-1 by " +\n" |
| Convolution.FilterBodyFrame | framework/FastImageProcessing/src/project/android/imageprocessing/filter/processing/ConvolutionFilter.java:35-48 | the body starts with the colour declaration, ends with the gl_FragColor line and holds one term per tap, width*height in all |
| Convolution.GeneratorStep | framework/FastImageProcessing/src/project/android/imageprocessing/filter/processing/ConvolutionFilter.java:36-45 | at cell (i, j) the loop builds the text of tap j*width+i and picks that position's separator |
| Convolution.CreateFilterBody | framework/FastImageProcessing/src/project/android/imageprocessing/filter/processing/ConvolutionFilter.java:34-50 | the nested row-then-column loop yields the opening line, each tap's term in row-major order with its separator, and the closing line |
| Convolution.ConvolutionFilter.constructor | framework/FastImageProcessing/src/project/android/imageprocessing/filter/processing/ConvolutionFilter.java:27-32 | the kernel is kept, the body is generated once for the kernel's shape, and the filter size is width*height |
| Convolution.ConvolutionFilter.GetFilterSize | framework/FastImageProcessing/src/project/android/imageprocessing/filter/processing/ConvolutionFilter.java:52-54 | the filter size is the number of taps in the body (at least one), and every tap's coefficient index lies below it |
| Convolution.ConvolutionFilter.GetFragmentShader | framework/FastImageProcessing/src/project/android/imageprocessing/filter/processing/ConvolutionFilter.java:57-71 | the shader is the fixed head, declaring a coefficient array as long as the number of taps, then the generated body verbatim, then "}\n" |
| BlurPosition.RebindSteps | framework/FastImageProcessing/src/project/android/imageprocessing/filter/processing/GaussianBlurPositionFilter.java:80-82 | clear, register the source at 0 and register the blur at 1 leave exactly [source, blur], with no earlier registration surviving |
| BlurPosition.ReboundCases | framework/FastImageProcessing/src/project/android/imageprocessing/filter/processing/GaussianBlurPositionFilter.java:79-84 | the slot list changes exactly when fewer than two slots are bound or the source is not among them: a re-bind always changes it, and otherwise it stays as it was |
| BlurPosition.ReboundWellBound | framework/FastImageProcessing/src/project/android/imageprocessing/filter/processing/GaussianBlurPositionFilter.java:79-82 | the rule keeps the slot list either empty or [external source, blur], so it never uses more slots than the two declared inputs |
| BlurPosition.ReboundStable | framework/FastImageProcessing/src/project/android/imageprocessing/filter/processing/GaussianBlurPositionFilter.java:79 | after a frame from a source has been handled, another frame from it does not re-bind |
| BlurPosition.SettledReplay | framework/FastImageProcessing/src/project/android/imageprocessing/filter/processing/GaussianBlurPositionFilter.java:79-85 | once the slots are [a, blur], any run of frames from a or the blur re-binds nothing and leaves [a, blur] |
| BlurPosition.FirstSourceThenBlur | framework/FastImageProcessing/src/project/android/imageprocessing/filter/processing/GaussianBlurPositionFilter.java:79-85 | a first frame from a, followed by frames from a or the blur, re-binds exactly once and leaves [a, blur] |
| BlurPosition.SwitchSource | framework/FastImageProcessing/src/project/android/imageprocessing/filter/processing/GaussianBlurPositionFilter.java:79-82 | a frame from a new external source replaces the previously bound one at slot 0 |
| BlurPosition.GaussianBlurFilter.AddTarget | framework/FastImageProcessing/src/project/android/imageprocessing/filter/processing/GaussianBlurPositionFilter.java:40 | the target is appended to the renderers the blur feeds |
| BlurPosition.GaussianBlurPositionFilter.constructor | framework/FastImageProcessing/src/project/android/imageprocessing/filter/processing/GaussianBlurPositionFilter.java:32-44 | two inputs; the composite's blur size is the excluded blur size and the blur-size argument goes only to a new inner blur; that blur feeds this filter and is its only initial and terminal filter; no slots are bound |
| BlurPosition.GaussianBlurPositionFilter.ClearRegisteredFilterLocations | framework/FastImageProcessing/src/project/android/imageprocessing/filter/processing/GaussianBlurPositionFilter.java:80 | no slot stays registered and nothing else changes |
| BlurPosition.GaussianBlurPositionFilter.RegisterFilterLocation | framework/FastImageProcessing/src/project/android/imageprocessing/filter/processing/GaussianBlurPositionFilter.java:81-82 | the filter is registered at the given index and nowhere else; the other registrations keep their order |
| BlurPosition.GaussianBlurPositionFilter.RegisterInputOutputFilter | framework/FastImageProcessing/src/project/android/imageprocessing/filter/processing/GaussianBlurPositionFilter.java:83 | the filter joins the input/output filters and nothing else changes |
| BlurPosition.GaussianBlurPositionFilter.RegisterInitialFilter | framework/FastImageProcessing/src/project/android/imageprocessing/filter/processing/GaussianBlurPositionFilter.java:42 | the filter joins the initial filters and nothing else changes |
| BlurPosition.GaussianBlurPositionFilter.RegisterTerminalFilter | framework/FastImageProcessing/src/project/android/imageprocessing/filter/processing/GaussianBlurPositionFilter.java:43 | the filter joins the terminal filters and nothing else changes |
| BlurPosition.GaussianBlurPositionFilter.ForwardFrame | framework/FastImageProcessing/src/project/android/imageprocessing/filter/processing/GaussianBlurPositionFilter.java:85 | the frame is handed on once, together with the slot list in force |
| BlurPosition.GaussianBlurPositionFilter.NewTextureReady | framework/FastImageProcessing/src/project/android/imageprocessing/filter/processing/GaussianBlurPositionFilter.java:78-86 | the slots become the re-bound list exactly when the guard holds, and the source then joins the input/output filters; the frame is forwarded exactly once, after any re-binding; the class invariant is kept |

## Left out

- GPU calls: shader-handle lookup and uniform upload (`initShaderHandles`, `passShaderValues` in both files). They are foreign calls. The count uploaded at ConvolutionFilter.java line 82 is the `filterSize` that `GetFilterSize` describes.
- `GaussianBlurPositionFilter.getFragmentShader` (lines 46-66): a constant concatenation of inherited name constants. Its GLSL arithmetic runs on the GPU.
- OverlayBlendFilter: it only declares two inputs and returns a constant shader string.
- The base classes (CompositeFilter, MultiInputFilter, MultiPixelRenderer, GaussianBlurFilter) are not part of this model. Their rendering, propagation to targets and texture lifetimes are left out. Only the operations the two filters call are kept, with the stated contracts described above.
- The values of the inherited GLSL names (sampler, texture coordinate, texel sizes) are not part of this model; they are parameters.
- Float fields (kernel coefficients, blur sizes, aspect ratio, circle point and radius) are opaque `real` values. Only where they are routed is modelled.
- Convolution.ConvolutionFilter.constructor: requires a kernel of at least one column and one row. The Java code divides `(width-1)/2` with truncation, which differs from Dafny's division for zero and for negative even sizes; for any width or height of 0 or less the loops emit no term, so the requires excludes all of them.
- Convolution.ConvolutionFilter.constructor: requires the coefficient array to hold `width * height` values. The Java code does not check this relation; the upload at line 82 reads that many values.
- BlurPosition.GaussianBlurPositionFilter.NewTextureReady: requires that the first frame does not come from the inner blur itself. In that case the blur would be registered at both slots, and the outcome depends on the semantics of the unseen base-class registration.
- Java `int` arithmetic: the products `filterWidth*filterHeight` (ConvolutionFilter.java line 31) and `j*width+i` (line 40) are unbounded integers here. Any kernel whose body fits in a Java String keeps them far below the 32-bit range, so wrap-around is not modelled.
