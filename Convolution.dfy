// ConvolutionFilter: generation of the fragment-shader body that applies a
// width x height convolution kernel, and the shader text around it.
//
// The shader text is specified in two layers: `Taps` says, tap by tap, which
// offsets and which coefficient index the body samples, and `FilterBody`
// renders those taps as GLSL text. `CreateFilterBody` is the nested loop that
// appends the text piece by piece, proved equal to `FilterBody`.
module Convolution {
  import opened Decimal

  /** Name of the uniform array holding the kernel coefficients. */
  const UniformFilter: string := "u_Filter"

  /** Opening and closing lines of the generated body. */
  const BodyOpen: string := "   vec3 color = "
  const BodyClose: string := "   gl_FragColor = vec4(color, 1);\n"

  /**
   * Names of the sampler, the texture coordinate and the texel sizes, which
   * the filter inherits from its renderer base classes. Their values are not
   * part of this model, so the text is specified for any of them.
   */
  datatype InheritedNames = InheritedNames(
    texture0: string,
    texCoord: string,
    texelWidth: string,
    texelHeight: string)

  /** One sample of the kernel: a horizontal and a vertical texel offset and a coefficient index. */
  datatype Tap = Tap(dx: int, dy: int, idx: int)

  predicate ValidKernel(width: int, height: int) {
    width >= 1 && height >= 1
  }

  /**
   * The kernel's middle column (or row). For an even size this is the left
   * (or upper) one of the two middle cells, so offsets reach one further on
   * the right (or bottom) side.
   */
  function Middle(size: int): (m: int)
    requires size >= 1
    ensures 0 <= m < size
  {
    (size - 1) / 2
  }

  /** The tap emitted for column `i` of row `j`. */
  function TapAt(width: int, height: int, i: int, j: int): (t: Tap)
    requires ValidKernel(width, height)
  {
    Tap(i - Middle(width), j - Middle(height), j * width + i)
  }

  /** The kernel's taps, position k holding column k % width of row k / width. */
  function Taps(width: int, height: int): (taps: seq<Tap>)
    requires ValidKernel(width, height)
    ensures |taps| == width * height
  {
    KernelSizePositive(width, height);
    seq(width * height, k requires 0 <= k < width * height => TapAt(width, height, k % width, k / width))
  }

  lemma KernelSizePositive(width: int, height: int)
    requires ValidKernel(width, height)
    ensures width * height >= 1
  {
  }

  // Multiplication facts the solver needs spelled out.

  lemma ZeroMultiple(a: int, w: int)
    requires w > 0 && -w < a * w < w
    ensures a == 0
  {
  }

  lemma PositiveFactor(a: int, w: int)
    requires w > 0 && a * w > 0
    ensures a > 0
  {
  }

  /** Euclidean division of a row-major position recovers its row and column. */
  lemma {:induction false} RowMajorDivMod(width: int, i: int, j: int)
    requires width >= 1 && 0 <= i < width && 0 <= j
    ensures (j * width + i) / width == j && (j * width + i) % width == i
  {
    var k := j * width + i;
    var q, r := k / width, k % width;
    assert k == q * width + r && 0 <= r < width;
    assert (q - j) * width == i - r;
    ZeroMultiple(q - j, width);
  }

  /** The row of a position inside the kernel is a row of the kernel. */
  lemma {:induction false} RowInRange(width: int, height: int, k: int)
    requires ValidKernel(width, height) && 0 <= k < width * height
    ensures 0 <= k / width < height
  {
    var q, r := k / width, k % width;
    assert k == q * width + r && 0 <= r < width;
    assert (height - q) * width == height * width - k + r;
    PositiveFactor(height - q, width);
  }

  /** A row-major position lies inside the kernel. */
  lemma {:induction false} RowMajorInRange(width: int, height: int, i: int, j: int)
    requires ValidKernel(width, height) && 0 <= i < width && 0 <= j < height
    ensures 0 <= j * width + i < width * height
    ensures j * width + width == (j + 1) * width <= width * height
  {
    var rest := height - (j + 1);
    assert width * height == (j + 1) * width + rest * width;
    NonNegativeProduct(rest, width);
  }

  lemma NonNegativeProduct(a: int, b: int)
    requires a >= 0 && b >= 0
    ensures a * b >= 0
  {
  }

  /**
   * Row-major order: the taps form width * height entries, and the entry at
   * position j * width + i is the tap of column i in row j.
   */
  lemma {:induction false} TapsRowMajor(width: int, height: int, i: int, j: int)
    requires ValidKernel(width, height) && 0 <= i < width && 0 <= j < height
    ensures |Taps(width, height)| == width * height
    ensures j * width + i < |Taps(width, height)|
    ensures Taps(width, height)[j * width + i] == Tap(i - Middle(width), j - Middle(height), j * width + i)
  {
    RowMajorInRange(width, height, i, j);
    RowMajorDivMod(width, i, j);
  }

  /**
   * Every coefficient index equals the tap's position, so the indices run
   * through 0 .. width * height - 1 in increasing order, each exactly once,
   * and each is below the filter size width * height.
   */
  lemma {:induction false} TapIndicesEnumerate(width: int, height: int)
    requires ValidKernel(width, height)
    ensures forall k :: 0 <= k < |Taps(width, height)| ==> Taps(width, height)[k].idx == k
    ensures forall k :: 0 <= k < |Taps(width, height)| ==> 0 <= Taps(width, height)[k].idx < width * height
  {
    var taps := Taps(width, height);
    forall k | 0 <= k < |taps|
      ensures taps[k].idx == k
    {
      assert k == (k / width) * width + k % width;
    }
  }

  /** The horizontal offsets a sequence of taps uses. */
  function ColumnOffsets(taps: seq<Tap>): set<int> {
    set k | 0 <= k < |taps| :: taps[k].dx
  }

  /** The vertical offsets a sequence of taps uses. */
  function RowOffsets(taps: seq<Tap>): set<int> {
    set k | 0 <= k < |taps| :: taps[k].dy
  }

  /**
   * The horizontal offsets are exactly -Middle(width) .. width / 2: symmetric
   * for an odd width, one more on the right for an even width.
   */
  lemma {:induction false} HorizontalOffsets(width: int, height: int)
    requires ValidKernel(width, height)
    ensures forall d :: d in ColumnOffsets(Taps(width, height)) <==> -Middle(width) <= d <= width / 2
    ensures width / 2 - Middle(width) == if width % 2 == 0 then 1 else 0
  {
    var taps := Taps(width, height);
    forall d | d in ColumnOffsets(taps)
      ensures -Middle(width) <= d <= width / 2
    {
      var k :| 0 <= k < |taps| && taps[k].dx == d;
      assert taps[k].dx == k % width - Middle(width);
    }
    forall d | -Middle(width) <= d <= width / 2
      ensures d in ColumnOffsets(taps)
    {
      TapsRowMajor(width, height, d + Middle(width), 0);
      assert taps[d + Middle(width)].dx == d;
    }
  }

  /**
   * The vertical offsets are exactly -Middle(height) .. height / 2: symmetric
   * for an odd height, one more towards the bottom for an even height.
   */
  lemma {:induction false} VerticalOffsets(width: int, height: int)
    requires ValidKernel(width, height)
    ensures forall d :: d in RowOffsets(Taps(width, height)) <==> -Middle(height) <= d <= height / 2
    ensures height / 2 - Middle(height) == if height % 2 == 0 then 1 else 0
  {
    var taps := Taps(width, height);
    forall d | d in RowOffsets(taps)
      ensures -Middle(height) <= d <= height / 2
    {
      var k :| 0 <= k < |taps| && taps[k].dy == d;
      RowInRange(width, height, k);
      assert taps[k].dy == k / width - Middle(height);
    }
    forall d | -Middle(height) <= d <= height / 2
      ensures d in RowOffsets(taps)
    {
      TapsRowMajor(width, height, 0, d + Middle(height));
      assert taps[(d + Middle(height)) * width].dy == d;
    }
  }

  /** A piece of a term's text: fixed text, one of the inherited names, or one of the tap's numbers. */
  datatype Piece = Text(s: string) | Sampler | Coordinate | ColumnOffset | RowOffset | Coefficient

  /** The pieces of a term, in order. */
  const TermTemplate: seq<Piece> := [
    Text("   texture2D("), Sampler, Text(","), Coordinate,
    Text(" + widthStep * "), ColumnOffset, Text(".0 + heightStep * "), RowOffset,
    Text(".0).rgb * "), Text(UniformFilter), Text("["), Coefficient, Text("]")]

  function PieceText(p: Piece, t: Tap, names: InheritedNames): string {
    match p
    case Text(s) => s
    case Sampler => names.texture0
    case Coordinate => names.texCoord
    case ColumnOffset => IntToString(t.dx)
    case RowOffset => IntToString(t.dy)
    case Coefficient => IntToString(t.idx)
  }

  /** The pieces' texts concatenated in order. */
  function Render(pieces: seq<Piece>, t: Tap, names: InheritedNames): (text: string) {
    if pieces == [] then "" else Render(pieces[..|pieces| - 1], t, names) + PieceText(pieces[|pieces| - 1], t, names)
  }

  lemma RenderPrefix(pieces: seq<Piece>, m: int, t: Tap, names: InheritedNames)
    requires 0 <= m < |pieces|
    ensures Render(pieces[..m + 1], t, names) == Render(pieces[..m], t, names) + PieceText(pieces[m], t, names)
  {
    assert pieces[..m + 1][..m] == pieces[..m];
  }

  /** The text of one tap, without its separator. */
  function TermText(t: Tap, names: InheritedNames): (text: string) {
    Render(TermTemplate, t, names)
  }

  /**
   * A term is the texture lookup at the tap's offsets, in texel steps,
   * scaled by the coefficient the tap indexes.
   */
  lemma {:induction false} TermTextSpelledOut(t: Tap, names: InheritedNames)
    ensures TermText(t, names)
         == "   texture2D(" + names.texture0 + "," + names.texCoord
            + " + widthStep * " + IntToString(t.dx)
            + ".0 + heightStep * " + IntToString(t.dy)
            + ".0).rgb * " + UniformFilter + "[" + IntToString(t.idx) + "]"
  {
    TemplatePieceTexts(t, names);
    RenderThirteen(TermTemplate, t, names);
  }

  /** Rendering thirteen pieces concatenates their texts from left to right. */
  lemma {:induction false} RenderThirteen(p: seq<Piece>, t: Tap, names: InheritedNames)
    requires |p| == 13
    ensures Render(p, t, names)
         == PieceText(p[0], t, names) + PieceText(p[1], t, names) + PieceText(p[2], t, names)
            + PieceText(p[3], t, names) + PieceText(p[4], t, names) + PieceText(p[5], t, names)
            + PieceText(p[6], t, names) + PieceText(p[7], t, names) + PieceText(p[8], t, names)
            + PieceText(p[9], t, names) + PieceText(p[10], t, names) + PieceText(p[11], t, names)
            + PieceText(p[12], t, names)
  {
    RenderPrefix(p, 0, t, names);
    assert p[..0] == [];
    assert Render(p[..1], t, names) == PieceText(p[0], t, names);
    RenderPrefix(p, 1, t, names);
    RenderPrefix(p, 2, t, names);
    RenderPrefix(p, 3, t, names);
    RenderPrefix(p, 4, t, names);
    RenderPrefix(p, 5, t, names);
    RenderPrefix(p, 6, t, names);
    RenderPrefix(p, 7, t, names);
    RenderPrefix(p, 8, t, names);
    RenderPrefix(p, 9, t, names);
    RenderPrefix(p, 10, t, names);
    RenderPrefix(p, 11, t, names);
    RenderPrefix(p, 12, t, names);
    assert p[..13] == p;
  }

  lemma TemplatePieceTexts(t: Tap, names: InheritedNames)
    ensures |TermTemplate| == 13
    ensures PieceText(TermTemplate[0], t, names) == "   texture2D("
    ensures PieceText(TermTemplate[1], t, names) == names.texture0
    ensures PieceText(TermTemplate[2], t, names) == ","
    ensures PieceText(TermTemplate[3], t, names) == names.texCoord
    ensures PieceText(TermTemplate[4], t, names) == " + widthStep * "
    ensures PieceText(TermTemplate[5], t, names) == IntToString(t.dx)
    ensures PieceText(TermTemplate[6], t, names) == ".0 + heightStep * "
    ensures PieceText(TermTemplate[7], t, names) == IntToString(t.dy)
    ensures PieceText(TermTemplate[8], t, names) == ".0).rgb * "
    ensures PieceText(TermTemplate[9], t, names) == UniformFilter
    ensures PieceText(TermTemplate[10], t, names) == "["
    ensures PieceText(TermTemplate[11], t, names) == IntToString(t.idx)
    ensures PieceText(TermTemplate[12], t, names) == "]"
  {
  }

  /** What follows term k of n: the statement terminator after the last term, a sum operator after any other. */
  function Closer(k: int, n: int): (closer: string) {
    if k == n - 1 then ";\n" else " +\n"
  }

  /** The text of each tap, in order. */
  function TermTexts(taps: seq<Tap>, names: InheritedNames): (texts: seq<string>)
    ensures |texts| == |taps|
  {
    if taps == [] then [] else TermTexts(taps[..|taps| - 1], names) + [TermText(taps[|taps| - 1], names)]
  }

  lemma {:induction false} TermTextsAt(taps: seq<Tap>, names: InheritedNames, k: int)
    requires 0 <= k < |taps|
    ensures TermTexts(taps, names)[k] == TermText(taps[k], names)
    decreases |taps|
  {
    if k < |taps| - 1 {
      TermTextsAt(taps[..|taps| - 1], names, k);
    }
  }

  /**
   * The body's opening line followed by the first `count` of the term
   * texts, each with its closer: the text accumulated after `count` taps.
   */
  function Accumulated(texts: seq<string>, count: nat): (body: string)
    requires count <= |texts|
    decreases count
  {
    if count == 0 then BodyOpen
    else Accumulated(texts, count - 1) + texts[count - 1] + Closer(count - 1, |texts|)
  }

  /** The whole generated body. */
  function FilterBody(width: int, height: int, names: InheritedNames): (body: string)
    requires ValidKernel(width, height)
  {
    var texts := TermTexts(Taps(width, height), names);
    Accumulated(texts, |texts|) + BodyClose
  }

  /** Every accumulated text starts with the opening line. */
  lemma {:induction false} AccumulatedStartsWithOpen(texts: seq<string>, count: nat)
    requires count <= |texts|
    ensures BodyOpen <= Accumulated(texts, count)
    decreases count
  {
    if count > 0 {
      AccumulatedStartsWithOpen(texts, count - 1);
      var before := Accumulated(texts, count - 1);
      assert Accumulated(texts, count) == before + (texts[count - 1] + Closer(count - 1, |texts|));
    }
  }

  /**
   * The body starts with the opening line "   vec3 color = ", ends with the
   * closing line, and holds one term per tap in between.
   */
  lemma {:induction false} FilterBodyFrame(width: int, height: int, names: InheritedNames)
    requires ValidKernel(width, height)
    ensures BodyOpen <= FilterBody(width, height, names)
    ensures |FilterBody(width, height, names)| >= |BodyOpen| + |BodyClose|
    ensures FilterBody(width, height, names)[|FilterBody(width, height, names)| - |BodyClose|..] == BodyClose
    ensures |TermTexts(Taps(width, height), names)| == width * height
  {
    var texts := TermTexts(Taps(width, height), names);
    var before := Accumulated(texts, |texts|);
    AccumulatedStartsWithOpen(texts, |texts|);
    assert FilterBody(width, height, names) == before + BodyClose;
    assert (before + BodyClose)[..|BodyOpen|] == before[..|BodyOpen|];
  }

  /**
   * The condition the generator tests for the last tap (last column of the
   * last row) holds exactly at the last row-major position.
   */
  lemma {:induction false} LastCellIsLastPosition(width: int, height: int, i: int, j: int)
    requires ValidKernel(width, height) && 0 <= i < width && 0 <= j < height
    ensures (i == width - 1 && j == height - 1) <==> j * width + i == width * height - 1
  {
    RowMajorInRange(width, height, i, j);
    if j * width + i == width * height - 1 {
      RowMajorDivMod(width, i, j);
      RowMajorDivMod(width, width - 1, height - 1);
      assert (height - 1) * width + (width - 1) == width * height - 1;
    }
  }

  /** Number of closers among the first `count` of n that are the sum operator. */
  function SumOperators(count: nat, n: int): nat {
    if count == 0 then 0
    else SumOperators(count - 1, n) + (if Closer(count - 1, n) == " +\n" then 1 else 0)
  }

  /** Number of closers among the first `count` of n that are the statement terminator. */
  function Terminators(count: nat, n: int): nat {
    if count == 0 then 0
    else Terminators(count - 1, n) + (if Closer(count - 1, n) == ";\n" then 1 else 0)
  }

  /**
   * Separator layout: of n >= 1 terms, n - 1 are followed by " +\n" and
   * exactly one, the last, by ";\n".
   */
  lemma {:induction false} SeparatorLayout(n: nat, count: nat)
    requires 1 <= n && count <= n
    ensures SumOperators(count, n) == (if count == n then n - 1 else count)
    ensures Terminators(count, n) == (if count == n then 1 else 0)
  {
    if count > 0 {
      SeparatorLayout(n, count - 1);
    }
  }

  /** Column i of row j is a cell of a width x height kernel. */
  predicate InKernel(width: int, height: int, i: int, j: int) {
    ValidKernel(width, height) && 0 <= i < width && 0 <= j < height
  }

  /**
   * One step of the generator: for the cell (i, j) at row-major position k,
   * the term the generator builds from the middle column and row is the text
   * of tap k, and the closer it picks is the closer of position k.
   */
  lemma {:induction false} GeneratorStep(width: int, height: int, i: int, j: int, k: int,
                                         middleWidth: int, middleHeight: int, names: InheritedNames)
    requires InKernel(width, height, i, j) && k == j * width + i
    requires middleWidth == Middle(width) && middleHeight == Middle(height)
    ensures 0 <= k < |TermTexts(Taps(width, height), names)|
    ensures TermTexts(Taps(width, height), names)[k] == TermText(Tap(i - middleWidth, j - middleHeight, j * width + i), names)
    ensures Closer(k, |TermTexts(Taps(width, height), names)|) == if i == width - 1 && j == height - 1 then ";\n" else " +\n"
  {
    var taps := Taps(width, height);
    TapsRowMajor(width, height, i, j);
    LastCellIsLastPosition(width, height, i, j);
    TermTextsAt(taps, names, k);
  }

  /**
   * The generator: the opening line, then for each row j and each column i
   * the term of the tap at (i, j) followed by ";\n" after the last cell of
   * the kernel or " +\n" after any other, then the closing line.
   */
  method CreateFilterBody(width: int, height: int, names: InheritedNames) returns (filterBody: string)
    requires ValidKernel(width, height)
    ensures filterBody == FilterBody(width, height, names)
  {
    ghost var texts := TermTexts(Taps(width, height), names);
    filterBody := BodyOpen;
    var middleWidth := (width - 1) / 2;
    var middleHeight := (height - 1) / 2;
    ghost var k := 0;
    var j := 0;
    while j < height
      invariant 0 <= j <= height && k == j * width && k <= |texts|
      invariant filterBody == Accumulated(texts, k)
    {
      RowMajorInRange(width, height, 0, j);
      var i := 0;
      while i < width
        invariant 0 <= i <= width && k == j * width + i && k <= |texts|
        invariant filterBody == Accumulated(texts, k)
      {
        GeneratorStep(width, height, i, j, k, middleWidth, middleHeight, names);
        filterBody := filterBody + TermText(Tap(i - middleWidth, j - middleHeight, j * width + i), names);
        if i == width - 1 && j == height - 1 {
          filterBody := filterBody + ";\n";
        } else {
          filterBody := filterBody + " +\n";
        }
        i := i + 1;
        k := k + 1;
      }
      j := j + 1;
    }
    assert k == |texts| by { assert height * width == width * height; }
    filterBody := filterBody + BodyClose;
  }

  /** The fragment shader text before the body; `filterSize` is the declared length of the coefficient array. */
  function ShaderHead(names: InheritedNames, filterSize: int): (head: string) {
    "precision mediump float;\n"
    + "uniform sampler2D " + names.texture0 + ";\n"
    + "uniform float " + names.texelWidth + ";\n"
    + "uniform float " + names.texelHeight + ";\n"
    + FilterDeclaration(filterSize)
    + "varying vec2 " + names.texCoord + ";\n"
    + "void main(){\n"
    + "   vec2 widthStep = vec2(" + names.texelWidth + ", 0);"
    + "   vec2 heightStep = vec2(0, " + names.texelHeight + ");"
  }

  /** The declaration of the coefficient array with its length. */
  function FilterDeclaration(filterSize: int): (declaration: string) {
    "uniform float " + UniformFilter + "[" + IntToString(filterSize) + "];"
  }

  /**
   * The filter object. Every field is assigned once, in the constructor, and
   * never again, so they are constant fields here; the kernel's width and
   * height are not stored by the source and are ghost.
   */
  class ConvolutionFilter {
    const filter: seq<real>
    const filterBody: string
    const filterSize: int
    const names: InheritedNames
    ghost const filterWidth: int
    ghost const filterHeight: int

    ghost predicate Valid() {
      && ValidKernel(filterWidth, filterHeight)
      && filterBody == FilterBody(filterWidth, filterHeight, names)
      && filterSize == filterWidth * filterHeight
    }

    constructor (filter: seq<real>, filterWidth: int, filterHeight: int, names: InheritedNames)
      requires ValidKernel(filterWidth, filterHeight)
      requires |filter| == filterWidth * filterHeight
      ensures Valid()
      ensures this.filter == filter && this.names == names
      ensures this.filterWidth == filterWidth && this.filterHeight == filterHeight
    {
      this.filter := filter;
      this.names := names;
      this.filterWidth := filterWidth;
      this.filterHeight := filterHeight;
      var body := CreateFilterBody(filterWidth, filterHeight, names);
      filterBody := body;
      filterSize := filterWidth * filterHeight;
    }

    /**
     * The filter size is the number of taps in the body, and every tap's
     * coefficient index lies below it.
     */
    function GetFilterSize(): (n: int)
      requires Valid()
      ensures n == |Taps(filterWidth, filterHeight)| && n >= 1
      ensures forall k :: 0 <= k < n ==> Taps(filterWidth, filterHeight)[k].idx < n
    {
      KernelSizePositive(filterWidth, filterHeight);
      TapIndicesEnumerate(filterWidth, filterHeight);
      filterSize
    }

    /**
     * The fragment shader: the fixed head declaring a coefficient array as
     * long as the kernel has taps, then the stored body verbatim, then "}\n".
     */
    function GetFragmentShader(): (shader: string)
      requires Valid()
      ensures shader == ShaderHead(names, |Taps(filterWidth, filterHeight)|)
                        + FilterBody(filterWidth, filterHeight, names) + "}\n"
    {
      ShaderHead(names, GetFilterSize()) + filterBody + "}\n"
    }
  }
}
