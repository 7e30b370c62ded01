/**
 Cropping an RGBA export to its visible content plus a margin: the content box found by the
 alpha threshold, the margin, and the crop.
 */
module BrandCrop {
  import opened Wrappers

  const ALPHA_CONTENT_THRESHOLD := 128

  datatype Pixel = Pixel(red: nat, green: nat, blue: nat, alpha: nat)

  /** Rows of pixels, all of one width. */
  datatype Image = Image(width: nat, rows: seq<seq<Pixel>>)

  /** Left and upper are inside, right and lower just outside. */
  datatype Box = Box(left: int, upper: int, right: int, lower: int)

  function Height(img: Image): nat {
    |img.rows|
  }

  predicate Rectangular(img: Image) {
    forall y | 0 <= y < |img.rows| :: |img.rows[y]| == img.width
  }

  predicate Inside(img: Image, x: int, y: int) {
    0 <= x < img.width && 0 <= y < Height(img)
  }

  function PixelAt(img: Image, x: int, y: int): Pixel
    requires Rectangular(img) && Inside(img, x, y)
  {
    img.rows[y][x]
  }

  /** A pixel of the image that counts as visible. */
  predicate IsContent(img: Image, x: int, y: int)
    requires Rectangular(img)
  {
    Inside(img, x, y) && PixelAt(img, x, y).alpha >= ALPHA_CONTENT_THRESHOLD
  }

  /** Half opacity is the least that counts as visible. */
  lemma VisibleExactly(img: Image, x: int, y: int)
    requires Rectangular(img)
    ensures IsContent(img, x, y) <==> 0 <= x < img.width && 0 <= y < |img.rows| && img.rows[y][x].alpha >= 128
  {
  }

  predicate InBox(b: Box, x: int, y: int) {
    b.left <= x < b.right && b.upper <= y < b.lower
  }

  // ---------------------------------------------------------------------------
  // The content box
  // ---------------------------------------------------------------------------

  predicate ColumnHasContent(img: Image, x: int)
    requires Rectangular(img)
  {
    exists y | 0 <= y < Height(img) :: IsContent(img, x, y)
  }

  predicate RowHasContent(img: Image, y: int)
    requires Rectangular(img)
  {
    exists x | 0 <= x < img.width :: IsContent(img, x, y)
  }

  /** The first true position of a profile, or its end. */
  function First(profile: seq<bool>): (k: nat)
    ensures k <= |profile| && (k < |profile| ==> profile[k])
    ensures forall i | 0 <= i < k :: !profile[i]
  {
    if profile == [] || profile[0] then 0 else First(profile[1..]) + 1
  }

  /** One past the last true position of a profile, or zero. */
  function Past(profile: seq<bool>): (k: nat)
    ensures k <= |profile| && (k > 0 ==> profile[k - 1])
    ensures forall i | k <= i < |profile| :: !profile[i]
  {
    if profile == [] then 0
    else if profile[|profile| - 1] then |profile|
    else Past(profile[..|profile| - 1])
  }

  function Columns(img: Image): (r: seq<bool>)
    requires Rectangular(img)
    ensures |r| == img.width && forall x | 0 <= x < img.width :: r[x] <==> ColumnHasContent(img, x)
  {
    seq(img.width, x requires 0 <= x < img.width => ColumnHasContent(img, x))
  }

  function Rows(img: Image): (r: seq<bool>)
    requires Rectangular(img)
    ensures |r| == Height(img) && forall y | 0 <= y < Height(img) :: r[y] <==> RowHasContent(img, y)
  {
    seq(Height(img), y requires 0 <= y < Height(img) => RowHasContent(img, y))
  }

  function ContentBox(img: Image): Option<Box>
    requires Rectangular(img)
  {
    var columns, rows := Columns(img), Rows(img);
    if First(columns) == img.width then None
    else Some(Box(First(columns), First(rows), Past(columns), Past(rows)))
  }

  /** The smallest box around the content: it holds all of it and each of its sides touches some. */
  predicate Bounds(img: Image, b: Box)
    requires Rectangular(img)
  {
    Encloses(img, b) && Touches(img, b)
  }

  predicate Encloses(img: Image, b: Box)
    requires Rectangular(img)
  {
    forall x, y | 0 <= x < img.width && 0 <= y < Height(img) :: IsContent(img, x, y) ==> InBox(b, x, y)
  }

  predicate Touches(img: Image, b: Box)
    requires Rectangular(img)
  {
    && ColumnHasContent(img, b.left) && ColumnHasContent(img, b.right - 1)
    && RowHasContent(img, b.upper) && RowHasContent(img, b.lower - 1)
  }

  predicate Blank(img: Image)
    requires Rectangular(img)
  {
    forall x, y | 0 <= x < img.width && 0 <= y < Height(img) :: !IsContent(img, x, y)
  }

  lemma TrueIsBetween(profile: seq<bool>, i: nat)
    requires i < |profile| && profile[i]
    ensures First(profile) <= i < Past(profile)
  {
  }

  lemma ContentIsBetween(img: Image, x: int, y: int)
    requires Rectangular(img) && IsContent(img, x, y)
    ensures First(Columns(img)) <= x < Past(Columns(img)) && First(Rows(img)) <= y < Past(Rows(img))
  {
    assert ColumnHasContent(img, x) && RowHasContent(img, y);
    TrueIsBetween(Columns(img), x);
    TrueIsBetween(Rows(img), y);
  }

  lemma EndsHaveContent(img: Image, x: int, y: int)
    requires Rectangular(img) && IsContent(img, x, y)
    ensures ColumnHasContent(img, First(Columns(img))) && ColumnHasContent(img, Past(Columns(img)) - 1)
    ensures RowHasContent(img, First(Rows(img))) && RowHasContent(img, Past(Rows(img)) - 1)
  {
    ContentIsBetween(img, x, y);
    assert Columns(img)[First(Columns(img))] && Columns(img)[Past(Columns(img)) - 1];
    assert Rows(img)[First(Rows(img))] && Rows(img)[Past(Rows(img)) - 1];
  }

  lemma SomeColumnExactly(img: Image)
    requires Rectangular(img)
    ensures First(Columns(img)) == img.width <==> Blank(img)
  {
    var k := First(Columns(img));
    if k < img.width {
      assert ColumnHasContent(img, k);
    } else {
      forall x, y | 0 <= x < img.width && 0 <= y < Height(img) ensures !IsContent(img, x, y) {
        if IsContent(img, x, y) {
          ContentIsBetween(img, x, y);
        }
      }
    }
  }

  /** No box comes back exactly from an image without content, and a box that comes back bounds the content. */
  lemma ContentBoxBounds(img: Image)
    requires Rectangular(img)
    ensures ContentBox(img).None? <==> Blank(img)
    ensures ContentBox(img).Some? ==> Bounds(img, ContentBox(img).value)
  {
    SomeColumnExactly(img);
    if x, y :| 0 <= x < img.width && 0 <= y < Height(img) && IsContent(img, x, y) {
      EndsHaveContent(img, x, y);
      assert Touches(img, ContentBox(img).value);
      forall x, y | 0 <= x < img.width && 0 <= y < Height(img) && IsContent(img, x, y)
        ensures InBox(ContentBox(img).value, x, y)
      {
        ContentIsBetween(img, x, y);
      }
    }
  }

  /** Only one box bounds the content. */
  lemma BoundsAreUnique(img: Image, a: Box, b: Box)
    requires Rectangular(img) && Bounds(img, a) && Bounds(img, b)
    ensures a == b
  {
    BoundsNest(img, a, b);
    BoundsNest(img, b, a);
  }

  lemma BoundsNest(img: Image, a: Box, b: Box)
    requires Rectangular(img) && Bounds(img, a) && Bounds(img, b)
    ensures b.left <= a.left && a.right <= b.right && b.upper <= a.upper && a.lower <= b.lower
  {
    var y0 :| 0 <= y0 < Height(img) && IsContent(img, a.left, y0);
    var y1 :| 0 <= y1 < Height(img) && IsContent(img, a.right - 1, y1);
    var x0 :| 0 <= x0 < img.width && IsContent(img, x0, a.upper);
    var x1 :| 0 <= x1 < img.width && IsContent(img, x1, a.lower - 1);
    assert InBox(b, a.left, y0) && InBox(b, a.right - 1, y1) && InBox(b, x0, a.upper) && InBox(b, x1, a.lower - 1);
  }

  // ---------------------------------------------------------------------------
  // Margin and crop
  // ---------------------------------------------------------------------------

  function Max(a: int, b: int): int {
    if a >= b then a else b
  }

  function Min(a: int, b: int): int {
    if a <= b then a else b
  }

  /** Four hundredths of the larger side, to the nearest integer. */
  function Margin(b: Box): int {
    (2 * Max(b.right - b.left, b.lower - b.upper) + 25) / 50
  }

  /** The margin is strictly nearer to four hundredths of the larger side than any other integer: ties cannot occur. */
  lemma MarginIsNearest(b: Box, k: int)
    requires k != Margin(b)
    ensures var d := 4 * Max(b.right - b.left, b.lower - b.upper) - 100 * Margin(b);
            var e := 4 * Max(b.right - b.left, b.lower - b.upper) - 100 * k;
            (if d < 0 then -d else d) < (if e < 0 then -e else e)
  {
  }

  function Padded(img: Image, b: Box): Box {
    var m := Margin(b);
    Box(Max(0, b.left - m), Max(0, b.upper - m), Min(img.width, b.right + m), Min(Height(img), b.lower + m))
  }

  predicate Within(img: Image, b: Box) {
    0 <= b.left <= b.right <= img.width && 0 <= b.upper <= b.lower <= Height(img)
  }

  predicate Covers(outer: Box, inner: Box) {
    outer.left <= inner.left && inner.right <= outer.right && outer.upper <= inner.upper && inner.lower <= outer.lower
  }

  function Crop(img: Image, b: Box): (r: Image)
    requires Rectangular(img) && Within(img, b)
    ensures Rectangular(r) && r.width == b.right - b.left && Height(r) == b.lower - b.upper
  {
    Image(b.right - b.left,
          seq(b.lower - b.upper, y requires 0 <= y < b.lower - b.upper => img.rows[b.upper + y][b.left..b.right]))
  }

  lemma CropPixel(img: Image, b: Box, x: int, y: int)
    requires Rectangular(img) && Within(img, b) && 0 <= x < b.right - b.left && 0 <= y < b.lower - b.upper
    ensures PixelAt(Crop(img, b), x, y) == PixelAt(img, b.left + x, b.upper + y)
  {
  }

  lemma BoundsGivePadded(img: Image, b: Box)
    requires Rectangular(img) && Bounds(img, b)
    ensures Within(img, b) && b.left < b.right && b.upper < b.lower && Margin(b) >= 0
    ensures Within(img, Padded(img, b)) && Covers(Padded(img, b), b)
  {
    var y0 :| 0 <= y0 < Height(img) && IsContent(img, b.left, y0);
    var y1 :| 0 <= y1 < Height(img) && IsContent(img, b.right - 1, y1);
    assert InBox(b, b.left, y0);
  }

  function CropWithMargin(img: Image): (r: Option<Image>)
    requires Rectangular(img)
    ensures r.Some? ==> Rectangular(r.value)
  {
    ContentBoxBounds(img);
    match ContentBox(img)
    case None => None
    case Some(b) =>
      BoundsGivePadded(img, b);
      Some(Crop(img, Padded(img, b)))
  }

  lemma BoundsFound(img: Image, b: Box)
    requires Rectangular(img) && Bounds(img, b)
    ensures ContentBox(img) == Some(b)
  {
    ContentBoxBounds(img);
    var y :| 0 <= y < Height(img) && IsContent(img, b.left, y);
    assert !Blank(img);
    BoundsAreUnique(img, b, ContentBox(img).value);
  }

  function Moved(b: Box, dx: int, dy: int): Box {
    Box(b.left + dx, b.upper + dy, b.right + dx, b.lower + dy)
  }

  lemma ContentMoves(img: Image, win: Box, x: int, y: int)
    requires Rectangular(img) && Within(img, win) && InBox(win, x, y)
    ensures IsContent(Crop(img, win), x - win.left, y - win.upper) <==> IsContent(img, x, y)
  {
    CropPixel(img, win, x - win.left, y - win.upper);
  }

  lemma ColumnMoves(img: Image, b: Box, win: Box, x: int)
    requires Rectangular(img) && Encloses(img, b) && Within(img, win) && Covers(win, b) && ColumnHasContent(img, x)
    ensures ColumnHasContent(Crop(img, win), x - win.left)
  {
    var y :| 0 <= y < Height(img) && IsContent(img, x, y);
    assert InBox(b, x, y);
    ContentMoves(img, win, x, y);
  }

  lemma RowMoves(img: Image, b: Box, win: Box, y: int)
    requires Rectangular(img) && Encloses(img, b) && Within(img, win) && Covers(win, b) && RowHasContent(img, y)
    ensures RowHasContent(Crop(img, win), y - win.upper)
  {
    var x :| 0 <= x < img.width && IsContent(img, x, y);
    assert InBox(b, x, y);
    ContentMoves(img, win, x, y);
  }

  /** A window that leaves out no content keeps the content box, moved to the window's corner. */
  lemma WindowMovesBounds(img: Image, b: Box, win: Box)
    requires Rectangular(img) && Bounds(img, b) && Within(img, win) && Covers(win, b)
    ensures Bounds(Crop(img, win), Moved(b, -win.left, -win.upper))
  {
    var r, moved := Crop(img, win), Moved(b, -win.left, -win.upper);
    forall x, y | 0 <= x < r.width && 0 <= y < Height(r) && IsContent(r, x, y) ensures InBox(moved, x, y) {
      ContentMoves(img, win, x + win.left, y + win.upper);
      assert InBox(b, x + win.left, y + win.upper);
    }
    ColumnMoves(img, b, win, b.left);
    ColumnMoves(img, b, win, b.right - 1);
    RowMoves(img, b, win, b.upper);
    RowMoves(img, b, win, b.lower - 1);
  }

  lemma PaddedMoves(img: Image, b: Box, win: Box)
    requires Rectangular(img) && Bounds(img, b) && Within(img, win) && Covers(win, Padded(img, b))
    ensures Covers(win, b) && Padded(Crop(img, win), Moved(b, -win.left, -win.upper)) == Moved(Padded(img, b), -win.left, -win.upper)
  {
    BoundsGivePadded(img, b);
    assert Margin(Moved(b, -win.left, -win.upper)) == Margin(b);
  }

  lemma SliceTwice(row: seq<Pixel>, lo: int, hi: int, from: int, to: int)
    requires 0 <= lo <= from <= to <= hi <= |row|
    ensures row[lo..hi][from - lo..to - lo] == row[from..to]
  {
    var a, b := row[lo..hi][from - lo..to - lo], row[from..to];
    assert |a| == |b|;
    forall i | 0 <= i < |a| ensures a[i] == b[i] {
      assert a[i] == row[lo..hi][from - lo + i] == row[from + i];
    }
  }

  lemma RowOfCropTwice(img: Image, win: Box, p: Box, y: int)
    requires Rectangular(img) && Within(img, win) && Within(img, p) && Covers(win, p) && 0 <= y < p.lower - p.upper
    requires Within(Crop(img, win), Moved(p, -win.left, -win.upper))
    ensures Crop(Crop(img, win), Moved(p, -win.left, -win.upper)).rows[y] == Crop(img, p).rows[y]
  {
    assert Crop(img, win).rows[p.upper - win.upper + y] == img.rows[p.upper + y][win.left..win.right];
    SliceTwice(img.rows[p.upper + y], win.left, win.right, p.left, p.right);
  }

  lemma CropTwice(img: Image, win: Box, p: Box)
    requires Rectangular(img) && Within(img, win) && Within(img, p) && Covers(win, p)
    ensures Within(Crop(img, win), Moved(p, -win.left, -win.upper))
    ensures Crop(Crop(img, win), Moved(p, -win.left, -win.upper)) == Crop(img, p)
  {
    var a, b := Crop(Crop(img, win), Moved(p, -win.left, -win.upper)), Crop(img, p);
    assert |a.rows| == |b.rows|;
    forall y | 0 <= y < |b.rows| ensures a.rows[y] == b.rows[y] {
      RowOfCropTwice(img, win, p, y);
    }
    assert a.rows == b.rows;
  }

  lemma CropOf(img: Image, b: Box)
    requires Rectangular(img) && Bounds(img, b)
    ensures Within(img, Padded(img, b)) && CropWithMargin(img) == Some(Crop(img, Padded(img, b)))
  {
    BoundsFound(img, b);
    BoundsGivePadded(img, b);
  }

  /** On each side the crop keeps the margin where the image has that much, and everything where it has less. */
  lemma PaddingIsCapped(img: Image, b: Box)
    requires Rectangular(img) && Bounds(img, b)
    ensures Within(img, Padded(img, b)) && CropWithMargin(img) == Some(Crop(img, Padded(img, b)))
    ensures CappedAt(img, b, Padded(img, b), Margin(b))
  {
    CropOf(img, b);
    PaddedIsCapped(img, b);
  }

  lemma PaddedIsCapped(img: Image, b: Box)
    ensures CappedAt(img, b, Padded(img, b), Margin(b))
  {
  }

  predicate CappedAt(img: Image, b: Box, p: Box, margin: int) {
    && b.left - p.left == Min(margin, b.left)
    && b.upper - p.upper == Min(margin, b.upper)
    && p.right - b.right == Min(margin, img.width - b.right)
    && p.lower - b.lower == Min(margin, Height(img) - b.lower)
  }

  /** Cropping first to any window that leaves room for the margin changes nothing. */
  lemma WindowsDoNotMatter(img: Image, b: Box, win: Box)
    requires Rectangular(img) && Bounds(img, b) && Within(img, win) && Covers(win, Padded(img, b))
    ensures CropWithMargin(Crop(img, win)) == CropWithMargin(img)
  {
    PaddedMoves(img, b, win);
    WindowMovesBounds(img, b, win);
    CropOf(img, b);
    CropOf(Crop(img, win), Moved(b, -win.left, -win.upper));
    CropTwice(img, win, Padded(img, b));
  }

  /** Cropping a cropped image changes nothing. */
  lemma CropIsIdempotent(img: Image)
    requires Rectangular(img) && CropWithMargin(img).Some?
    ensures CropWithMargin(CropWithMargin(img).value) == CropWithMargin(img)
  {
    ContentBoxBounds(img);
    var b := ContentBox(img).value;
    BoundsGivePadded(img, b);
    WindowsDoNotMatter(img, b, Padded(img, b));
  }

  /** Every content pixel of the image is in the crop, moved to the crop's corner. */
  predicate KeepsContent(img: Image, p: Box, r: Image)
    requires Rectangular(img) && Rectangular(r)
  {
    forall x, y | 0 <= x < img.width && 0 <= y < Height(img) && IsContent(img, x, y) :: ShowsAt(img, r, x, y, x - p.left, y - p.upper)
  }

  /** The pixel of the image at one position is the crop's at another. */
  predicate ShowsAt(img: Image, r: Image, x: int, y: int, u: int, v: int)
    requires Rectangular(img) && Rectangular(r) && Inside(img, x, y)
  {
    Inside(r, u, v) && PixelAt(r, u, v) == PixelAt(img, x, y)
  }

  lemma CropShows(img: Image, win: Box, x: int, y: int)
    requires Rectangular(img) && Within(img, win) && InBox(win, x, y)
    ensures ShowsAt(img, Crop(img, win), x, y, x - win.left, y - win.upper)
  {
    CropPixel(img, win, x - win.left, y - win.upper);
  }

  /** Nothing is cropped exactly when nothing is visible; otherwise every content pixel is in the crop. */
  lemma CropKeepsContent(img: Image)
    requires Rectangular(img)
    ensures CropWithMargin(img).None? <==> Blank(img)
    ensures CropWithMargin(img).Some? ==> KeepsContent(img, Padded(img, ContentBox(img).value), CropWithMargin(img).value)
  {
    ContentBoxBounds(img);
    if ContentBox(img).Some? {
      var b := ContentBox(img).value;
      CropOf(img, b);
      BoundsGivePadded(img, b);
      WindowShows(img, b, Padded(img, b));
    }
  }

  lemma WindowShows(img: Image, b: Box, win: Box)
    requires Rectangular(img) && Encloses(img, b) && Within(img, win) && Covers(win, b)
    ensures KeepsContent(img, win, Crop(img, win))
  {
    forall x, y | 0 <= x < img.width && 0 <= y < Height(img) && IsContent(img, x, y)
      ensures ShowsAt(img, Crop(img, win), x, y, x - win.left, y - win.upper)
    {
      assert InBox(b, x, y);
      CropShows(img, win, x, y);
    }
  }
}
