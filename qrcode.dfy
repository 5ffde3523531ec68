/** The QR-code tool: the registry of placed QR codes and the 'qrcode'
    records it adds to the drawing history, the placement mode entered from
    the generator panel, and the pieces of the locally drawn fallback
    picture (a 32-bit string hash, the cell rule of its 25 by 25 grid, the
    corner markers and the text labels). */
module QRCodes {
  import opened History
  import opened Strings

  const TwoTo32: int := 0x1_0000_0000
  const TwoTo31: int := 0x8000_0000

  /** JavaScript's ToInt32 on an integer: the value congruent to `x` modulo
      2^32 in [-2^31, 2^31). */
  function Wrap32(x: int): (r: int)
    ensures -TwoTo31 <= r < TwoTo31
    ensures (r - x) % TwoTo32 == 0
  {
    (x + TwoTo31) % TwoTo32 - TwoTo31
  }

  /** ToInt32 only sees `x` modulo 2^32. */
  lemma WrapShift(z: int, q: int)
    ensures Wrap32(z + TwoTo32 * q) == Wrap32(z)
  {
    var a := z + TwoTo31;
    assert a + TwoTo32 * q == TwoTo32 * (a / TwoTo32 + q) + a % TwoTo32;
  }

  /** One step of `simpleHash` as the source writes it, on a signed 32-bit
      accumulator: `((hash << 5) - hash) + char`, then `hash & hash`. */
  function SourceStep(h: int, c: int): int {
    Wrap32(Wrap32(h * 32) - h + c)
  }

  /** The source's shift-and-subtract step is multiplication by 31 modulo
      2^32. */
  lemma SourceStepIsTimes31(h: int, c: int)
    ensures SourceStep(h, c) == Wrap32(31 * h + c)
  {
    var w := Wrap32(h * 32);
    var q := (w - h * 32) / TwoTo32;
    assert w - h * 32 == TwoTo32 * q;
    WrapShift(31 * h + c, q);
  }

  /** The accumulator of `simpleHash` after reading all of `s`: the fold
      h := ToInt32(31 h + code) from 0. A character's code is its Unicode
      scalar value; `charCodeAt` over a surrogate pair is not modelled. */
  function HashFold(s: string): (h: int)
    ensures -TwoTo31 <= h < TwoTo31
  {
    if s == [] then 0 else Wrap32(31 * HashFold(s[..|s| - 1]) + s[|s| - 1] as int)
  }

  /** `simpleHash(s)`: the absolute value of the accumulator. */
  function Hash(s: string): (r: int)
    ensures 0 <= r <= TwoTo31
  {
    var h := HashFold(s);
    if h < 0 then -h else h
  }

  /** The polynomial string hash sum of code(s[k]) * 31^(|s|-1-k), without
      any wrap-around. */
  function Poly(s: string): int {
    if s == [] then 0 else 31 * Poly(s[..|s| - 1]) + s[|s| - 1] as int
  }

  /** The wrapping fold computes the polynomial hash reduced to a signed
      32-bit value: wrapping once at the end is the same as wrapping at
      every step. */
  lemma {:induction false} HashFoldIsWrappedPoly(s: string)
    ensures HashFold(s) == Wrap32(Poly(s))
  {
    if s != [] {
      var p := s[..|s| - 1];
      var c := s[|s| - 1] as int;
      HashFoldIsWrappedPoly(p);
      var w := Wrap32(Poly(p));
      var q := (w - Poly(p)) / TwoTo32;
      assert w == Poly(p) + TwoTo32 * q;
      assert 31 * w + c == 31 * Poly(p) + c + TwoTo32 * (31 * q);
      WrapShift(31 * Poly(p) + c, 31 * q);
    }
  }

  /** `simpleHash`, computed with the source's loop. */
  method SimpleHash(s: string) returns (r: int)
    ensures r == Hash(s)
    ensures 0 <= r <= TwoTo31
  {
    var hash := 0;
    for i := 0 to |s|
      invariant hash == HashFold(s[..i])
    {
      var c := s[i] as int;
      SourceStepIsTimes31(hash, c);
      assert s[..i + 1][..i] == s[..i];
      hash := Wrap32(Wrap32(hash * 32) - hash + c);
    }
    assert s[..|s|] == s;
    r := if hash < 0 then -hash else hash;
  }

  /** The cells of the three corner regions the fallback grid leaves to
      the position markers. */
  predicate InMarkerRegion(i: int, j: int) {
    (i < 9 && j < 9) || (i > 15 && j < 9) || (i < 9 && j > 15)
  }

  /** Whether cell (i, j) of the fallback grid is filled. */
  predicate CellFilled(text: string, i: int, j: int) {
    !InMarkerRegion(i, j) && Hash(text + JsIntToString(i) + JsIntToString(j)) % 3 == 0
  }

  function CellIndex(c: (int, int)): int {
    c.0 * 25 + c.1
  }

  /** The filled cells the fallback's double loop has met before it reaches
      column `i`, row `j`: all of columns 0 to i - 1, then rows 0 to j - 1
      of column i, in that order. */
  function Scanned(text: string, i: nat, j: nat): seq<(int, int)>
    requires j <= 25
    decreases i, j
  {
    if j == 0 then (if i == 0 then [] else Scanned(text, i - 1, 25))
    else Scanned(text, i, j - 1) + (if CellFilled(text, i, j - 1) then [(i, j - 1)] else [])
  }

  /** Cell `c` comes before column `i`, row `j` in the loop's order. */
  predicate Before(c: (int, int), i: int, j: int) {
    c.0 < i || (c.0 == i && c.1 < j)
  }

  /** Every cell of `cells` lies in the grid, comes before `(i, j)` and is
      filled. */
  predicate FilledBefore(text: string, cells: seq<(int, int)>, i: int, j: int) {
    forall k :: 0 <= k < |cells| ==>
      0 <= cells[k].0 < 25 && 0 <= cells[k].1 < 25 && Before(cells[k], i, j)
      && CellFilled(text, cells[k].0, cells[k].1)
  }

  predicate Increasing(cells: seq<(int, int)>) {
    forall k, l :: 0 <= k < l < |cells| ==> CellIndex(cells[k]) < CellIndex(cells[l])
  }

  /** One step of the scan keeps `FilledBefore`. */
  lemma ScanStepSound(text: string, prev: seq<(int, int)>, i: nat, j: nat)
    requires 0 < j <= 25 && i < 25
    requires FilledBefore(text, prev, i, j - 1)
    ensures FilledBefore(text, prev + (if CellFilled(text, i, j - 1) then [(i, j - 1)] else []), i, j)
  {
    if CellFilled(text, i, j - 1) {
      var cells := prev + [(i, j - 1)];
      forall k | 0 <= k < |cells|
        ensures 0 <= cells[k].0 < 25 && 0 <= cells[k].1 < 25 && Before(cells[k], i, j)
          && CellFilled(text, cells[k].0, cells[k].1)
      {
        if k < |prev| {
          assert cells[k] == prev[k];
        } else {
          assert cells[k] == (i, j - 1);
        }
      }
    } else {
      assert prev + [] == prev;
    }
  }

  /** One step of the scan keeps the list increasing. */
  lemma ScanStepIncreasing(text: string, prev: seq<(int, int)>, i: nat, j: nat)
    requires 0 < j <= 25
    requires Increasing(prev)
    requires forall k :: 0 <= k < |prev| ==> Before(prev[k], i, j - 1) && prev[k].1 < 25
    ensures Increasing(prev + (if CellFilled(text, i, j - 1) then [(i, j - 1)] else []))
  {
    if CellFilled(text, i, j - 1) {
      var cells := prev + [(i, j - 1)];
      forall k, l | 0 <= k < l < |cells|
        ensures CellIndex(cells[k]) < CellIndex(cells[l])
      {
        assert cells[k] == prev[k];
        if l < |prev| {
          assert cells[l] == prev[l];
        } else {
          assert cells[l] == (i, j - 1);
        }
      }
    } else {
      assert prev + [] == prev;
    }
  }

  /** Every cell the scan has listed lies in the grid, comes before the
      scan point and is filled. */
  lemma {:induction false} ScannedSound(text: string, i: nat, j: nat)
    requires i <= 25 && j <= 25 && (i < 25 || j == 0)
    ensures FilledBefore(text, Scanned(text, i, j), i, j)
    decreases i, j
  {
    if j == 0 {
      if i > 0 {
        ScannedSound(text, i - 1, 25);
      }
    } else {
      ScannedSound(text, i, j - 1);
      ScanStepSound(text, Scanned(text, i, j - 1), i, j);
    }
  }

  /** The scan lists cells in increasing order. */
  lemma {:induction false} ScannedIncreasing(text: string, i: nat, j: nat)
    requires i <= 25 && j <= 25 && (i < 25 || j == 0)
    ensures Increasing(Scanned(text, i, j))
    decreases i, j
  {
    if j == 0 {
      if i > 0 {
        ScannedIncreasing(text, i - 1, 25);
      }
    } else {
      ScannedIncreasing(text, i, j - 1);
      ScannedSound(text, i, j - 1);
      ScanStepIncreasing(text, Scanned(text, i, j - 1), i, j);
    }
  }

  /** Every filled cell of the grid that comes before `(i, j)` is in
      `cells`. */
  predicate ListsFilled(text: string, cells: seq<(int, int)>, i: int, j: int) {
    forall a, b :: 0 <= a < 25 && 0 <= b < 25 && Before((a, b), i, j) && CellFilled(text, a, b) ==> (a, b) in cells
  }

  /** One step of the scan keeps `ListsFilled`. */
  lemma {:induction false} ScanStepComplete(text: string, i: nat, j: nat)
    requires 0 < j <= 25
    ensures ListsFilled(text, Scanned(text, i, j), i, j)
    decreases i, j, 0
  {
    ScannedComplete(text, i, j - 1);
    var prev := Scanned(text, i, j - 1);
    var cells := Scanned(text, i, j);
    assert cells == prev + (if CellFilled(text, i, j - 1) then [(i, j - 1)] else []);
    forall a, b | 0 <= a < 25 && 0 <= b < 25 && Before((a, b), i, j) && CellFilled(text, a, b)
      ensures (a, b) in cells
    {
      if a == i && b == j - 1 {
        assert cells[|prev|] == (a, b);
      } else {
        assert (a, b) in prev;
      }
    }
  }

  /** A finished column hands its `ListsFilled` on to the next column. */
  lemma ColumnDoneComplete(text: string, cells: seq<(int, int)>, i: nat)
    requires i > 0
    requires ListsFilled(text, cells, i - 1, 25)
    ensures ListsFilled(text, cells, i, 0)
  {
    forall a, b | 0 <= a < 25 && 0 <= b < 25 && Before((a, b), i, 0) && CellFilled(text, a, b)
      ensures (a, b) in cells
    {
      assert Before((a, b), i - 1, 25);
    }
  }

  /** Every filled cell before the scan point has been listed. */
  lemma {:induction false} ScannedComplete(text: string, i: nat, j: nat)
    requires j <= 25
    ensures ListsFilled(text, Scanned(text, i, j), i, j)
    decreases i, j, 1
  {
    if j == 0 {
      if i > 0 {
        ScannedComplete(text, i - 1, 25);
        ColumnDoneComplete(text, Scanned(text, i - 1, 25), i);
      }
    } else {
      ScanStepComplete(text, i, j);
    }
  }

  /** The double loop of `createFallbackQRCode`: the filled cells, in the
      order they are painted (column by column). */
  method FallbackCells(text: string) returns (cells: seq<(int, int)>)
    ensures cells == Scanned(text, 25, 0)
    ensures forall k :: 0 <= k < |cells| ==>
      0 <= cells[k].0 < 25 && 0 <= cells[k].1 < 25 && CellFilled(text, cells[k].0, cells[k].1)
    ensures forall i, j :: 0 <= i < 25 && 0 <= j < 25 && CellFilled(text, i, j) ==> (i, j) in cells
    ensures forall k, l :: 0 <= k < l < |cells| ==> CellIndex(cells[k]) < CellIndex(cells[l])
  {
    cells := [];
    for i := 0 to 25
      invariant cells == Scanned(text, i, 0)
    {
      for j := 0 to 25
        invariant cells == Scanned(text, i, j)
      {
        if InMarkerRegion(i, j) {
          continue;
        }
        var hash := SimpleHash(text + JsIntToString(i) + JsIntToString(j));
        if hash % 3 == 0 {
          cells := cells + [(i, j)];
        }
      }
    }
    ScannedSound(text, 25, 0);
    ScannedIncreasing(text, 25, 0);
    ScannedComplete(text, 25, 0);
  }

  /** An axis-aligned rectangle `fillRect(x, y, w, h)` covers, as a
      half-open box. */
  datatype Rect = Rect(x: int, y: int, w: int, h: int)

  predicate Disjoint(a: Rect, b: Rect) {
    a.x + a.w <= b.x || b.x + b.w <= a.x || a.y + a.h <= b.y || b.y + b.h <= a.y
  }

  function CellSize(size: int): int {
    size / 25
  }

  /** The square painted for filled cell (i, j) of a picture `size` wide. */
  function CellRect(size: int, i: int, j: int): Rect {
    var cs := CellSize(size);
    Rect(i * cs + 2, j * cs + 2, cs - 1, cs - 1)
  }

  /** The outer squares of the three position markers. */
  function Markers(size: int): seq<Rect> {
    var side := CellSize(size) * 7;
    [Rect(5, 5, side, side), Rect(size - side - 5, 5, side, side), Rect(5, size - side - 5, side, side)]
  }

  /** The corner regions the loop skips are large enough: for any picture
      at least 75 pixels wide (cells of 3 pixels or more; the size slider
      starts at 100), no painted cell touches a position marker. */
  lemma CellsAvoidMarkers(size: int, i: int, j: int)
    requires size >= 75 && 0 <= i < 25 && 0 <= j < 25 && !InMarkerRegion(i, j)
    ensures forall m :: m in Markers(size) ==> Disjoint(CellRect(size, i, j), m)
  {
    var cs := CellSize(size);
    assert cs >= 3 && 25 * cs <= size;
    assert 9 <= i ==> 9 * cs <= i * cs;
    assert 9 <= j ==> 9 * cs <= j * cs;
    assert i <= 15 ==> i * cs <= 15 * cs;
    assert j <= 15 ==> j * cs <= 15 * cs;
  }

  /** `text.length > limit ? text.substring(0, limit) + '...' : text`. */
  function ShortText(s: string, limit: nat): (r: string)
    ensures |s| <= limit ==> r == s
    ensures |s| > limit ==> |r| == limit + 3 && r[..limit] == s[..limit] && r[limit..] == "..."
    ensures |r| <= limit + 3
  {
    if |s| > limit then s[..limit] + "..." else s
  }

  /** The caption under the fallback picture. */
  function FallbackLabel(text: string): (r: string)
    ensures |r| <= 23
  {
    ShortText(text, 20)
  }

  /** The caption of a QR code still waiting for its image. */
  function PlaceholderLabel(text: string): (r: string)
    ensures |r| <= 13
  {
    ShortText(text, 10)
  }

  /** How the asynchronous image step of `createQRCodeOnCanvas` ends: the
      fetched image converted to a PNG, the conversion failing (the service
      URL is kept), the image failing to load (a fallback picture labelled
      '載入失敗' at 150 pixels), or an exception along the way (a fallback
      picture for the code's own text and size). */
  datatype FetchOutcome = Converted(png: string) | ConvertFailed | LoadFailed | Threw

  function ImageFor(text: string, size: int, outcome: FetchOutcome): Image {
    match outcome
    case Converted(png) => Png(png)
    case ConvertFailed => ServiceUrl(text, size)
    case LoadFailed => Fallback("載入失敗", 150)
    case Threw => Fallback(text, size)
  }

  /** The QR code `createQRCodeOnCanvas` stores for a click at `(x, y)`:
      `size` square, centred on the click, with its image. */
  function PlacedQR(id: int, x: real, y: real, text: string, size: int, outcome: FetchOutcome): (q: QRCode)
    ensures q.id == id && q.text == text
    ensures q.width == q.height == size as real
    ensures q.x + q.width / 2.0 == x && q.y + q.height / 2.0 == y
    ensures q.dataURL == Some(ImageFor(text, size, outcome))
  {
    QRCode(id, x - size as real / 2.0, y - size as real / 2.0, size as real, size as real,
      text, Some(ImageFor(text, size, outcome)))
  }

  /** What `drawQRCode` paints for a QR code: its image, or a "loading"
      box with the shortened text when it has none. */
  datatype Drawing = Picture(image: Image) | Placeholder(caption: string)

  function DrawingOf(q: QRCode): Drawing {
    if q.dataURL.Some? then Picture(q.dataURL.value) else Placeholder(PlaceholderLabel(q.text))
  }

  predicate DistinctQRIds(qs: seq<QRCode>) {
    forall i, j :: 0 <= i < j < |qs| ==> qs[i].id != qs[j].id
  }

  class QRCodeModule {
    const canvas: Canvas
    var active: bool
    var qrCodes: seq<QRCode>
    var nextId: int
    var isVisible: bool
    /** The canvas click listener is registered: a click places a QR code. */
    var placing: bool

    /** The QR records of the history are exactly `qrCodes`, in order; ids
        are distinct and below `nextId`; and every stored code has its
        image. */
    ghost predicate Valid()
      reads this, canvas
    {
      QRRecords(canvas.drawingHistory) == qrCodes
      && DistinctQRIds(qrCodes)
      && (forall k :: 0 <= k < |qrCodes| ==> qrCodes[k].id < nextId && qrCodes[k].dataURL.Some?)
    }

    constructor (canvas: Canvas)
      requires QRRecords(canvas.drawingHistory) == []
      ensures Valid() && this.canvas == canvas
      ensures !active && qrCodes == [] && nextId == 1 && !isVisible && !placing
    {
      this.canvas := canvas;
      active := false;
      qrCodes := [];
      nextId := 1;
      isVisible := false;
      placing := false;
    }

    method Show()
      requires Valid()
      modifies this`isVisible
      ensures Valid() && isVisible
    {
      isVisible := true;
    }

    /** `hide`: closes the panel and removes the placement listener. */
    method Hide()
      requires Valid()
      modifies this`isVisible, this`placing
      ensures Valid() && !isVisible && !placing
    {
      isVisible := false;
      placing := false;
    }

    method Activate()
      requires Valid()
      modifies this`active, this`isVisible
      ensures Valid() && active && isVisible
    {
      active := true;
      Show();
    }

    method Deactivate()
      requires Valid()
      modifies this`active, this`isVisible, this`placing
      ensures Valid() && !active && !isVisible && !placing
    {
      active := false;
      Hide();
    }

    /** `prepareForPlacement`: with non-blank input text, enters placement
        mode; with blank text, does nothing. */
    method PrepareForPlacement(input: string)
      requires Valid()
      modifies this`placing
      ensures Valid()
      ensures placing <==> old(placing) || !IsBlank(input)
    {
      var text := Trim(input);
      if text == [] {
        return;
      }
      placing := true;
    }

    /** `addQRToHistory`: appends a 'qrcode' record with the code's fields. */
    method AddQRToHistory(q: QRCode)
      modifies canvas`drawingHistory
      ensures canvas.drawingHistory == old(canvas.drawingHistory) + [QRRecord(q)]
    {
      canvas.drawingHistory := canvas.drawingHistory + [QRRecord(q)];
    }

    /** `createQRCodeOnCanvas`: whatever the image step's outcome, exactly
        one QR code with the next id and an image is added to the registry
        and one matching record to the end of the history. */
    method CreateQRCodeOnCanvas(x: real, y: real, text: string, size: int, outcome: FetchOutcome)
      returns (q: QRCode)
      requires Valid()
      modifies this`qrCodes, this`nextId, canvas`drawingHistory
      ensures Valid()
      ensures q == PlacedQR(old(nextId), x, y, text, size, outcome)
      ensures qrCodes == old(qrCodes) + [q] && nextId == old(nextId) + 1
      ensures canvas.drawingHistory == old(canvas.drawingHistory) + [QRRecord(q)]
      ensures NoteRecords(canvas.drawingHistory) == NoteRecords(old(canvas.drawingHistory))
    {
      var id := nextId;
      nextId := nextId + 1;
      var dataURL := ImageFor(text, size, outcome);
      q := QRCode(id, x - size as real / 2.0, y - size as real / 2.0, size as real, size as real,
        text, Some(dataURL));
      AppendQRRecords(canvas.drawingHistory, q);
      AppendNonNote(canvas.drawingHistory, QRRecord(q));
      qrCodes := qrCodes + [q];
      AddQRToHistory(q);
    }

    /** `handleCanvasClick` in placement mode: with non-blank input text, a
        QR code of that (trimmed) text is placed at the click and placement
        mode ends; with blank text nothing happens. */
    method HandleCanvasClick(x: real, y: real, input: string, size: int, outcome: FetchOutcome)
      requires Valid()
      modifies this`qrCodes, this`nextId, this`placing, canvas`drawingHistory
      ensures Valid()
      ensures IsBlank(input) ==>
        qrCodes == old(qrCodes) && nextId == old(nextId) && placing == old(placing)
        && canvas.drawingHistory == old(canvas.drawingHistory)
      ensures !IsBlank(input) ==>
        var q := PlacedQR(old(nextId), x, y, Trim(input), size, outcome);
        qrCodes == old(qrCodes) + [q] && nextId == old(nextId) + 1 && !placing
        && canvas.drawingHistory == old(canvas.drawingHistory) + [QRRecord(q)]
      ensures NoteRecords(canvas.drawingHistory) == NoteRecords(old(canvas.drawingHistory))
    {
      var text := Trim(input);
      if text != [] {
        var q := CreateQRCodeOnCanvas(x, y, text, size, outcome);
        placing := false;
      }
    }
  }

  /** In a consistent registry every QR code in the history has its image,
      so the "loading" branch of `drawQRCode` is never taken for them. */
  lemma StoredCodesHaveImages(m: QRCodeModule, q: QRCode)
    requires m.Valid() && q in QRRecords(m.canvas.drawingHistory)
    ensures DrawingOf(q).Picture?
  {
  }
}
