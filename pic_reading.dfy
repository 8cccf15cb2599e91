/** The screenshot reader of backend/services/pic_reading.py: a fixed
    reference layout (one anchor, six named field boxes, a repeating record
    row), its calibration against the anchor found in the current image, the
    box-to-crop conversion, and the walk down the record rows.

    The two engines the reader calls are inputs here: the anchor location
    that template matching returns is a parameter, and text recognition is
    the `recognise` function of a `Screenshot`, a function from a crop
    rectangle of that image to the recognised text. */
module PicReading {
  import opened Text

  datatype Point = Point(x: int, y: int)

  /** A field box `(x, y, w, h)`: top-left corner, width and height. */
  datatype Box = Box(x: int, y: int, w: int, h: int)

  /** A crop rectangle `(left, top, right, bottom)` as the imaging library takes it. */
  datatype Rect = Rect(left: int, top: int, right: int, bottom: int)

  /** A value of the record-list parameter dictionary: the row origin is a
      point, the row height and the column widths are plain lengths. */
  datatype Param = Pos(p: Point) | Length(n: int)

  /** An image as the reader sees it: its height in pixels, and what the
      text recognition engine returns for each crop rectangle of it. */
  datatype Screenshot = Screenshot(height: nat, recognise: Rect -> string)

  const DefaultAnchor := Point(132, 502)

  /** The keys of `default_relative_boxes`: the six fixed fields. */
  datatype Field = GameName | ChipLevel | GameHandsCount | CreatorPlayerName | StartTime | EndTime

  /** The keys of `default_record_list_params`. */
  datatype ParamKey = RecordListAnchor | RecordRowHeight | PlayerNameWidth | HandsWidth | BuyInWidth | ScoreWidth

  const DefaultRelativeBoxes: map<Field, Box> := map[
    GameName := Box(135, 250, 580, 40),
    ChipLevel := Box(90, 360, 210, 30),
    GameHandsCount := Box(340, 360, 180, 30),
    CreatorPlayerName := Box(530, 360, 220, 30),
    StartTime := Box(300, 425, 135, 26),
    EndTime := Box(453, 425, 120, 26)
  ]

  const DefaultRecordListParams: map<ParamKey, Param> := map[
    RecordListAnchor := Pos(Point(150, 925)),
    RecordRowHeight := Length(75),
    PlayerNameWidth := Length(250),
    HandsWidth := Length(100),
    BuyInWidth := Length(125),
    ScoreWidth := Length(150)
  ]

  /** The distance from the template's anchor to the anchor found in the image. */
  function Offset(anchorLoc: Point): Point {
    Point(anchorLoc.x - DefaultAnchor.x, anchorLoc.y - DefaultAnchor.y)
  }

  function ShiftBox(b: Box, d: Point): Box {
    Box(b.x + d.x, b.y + d.y, b.w, b.h)
  }

  /** What one calibration makes of the field boxes: every box is moved by
      the anchor's offset and keeps its size; no box is added or dropped. */
  function CalibratedBoxes(boxes: map<Field, Box>, anchorLoc: Point): (r: map<Field, Box>)
    ensures r.Keys == boxes.Keys
    ensures forall k :: k in boxes ==>
      && r[k].x == boxes[k].x + (anchorLoc.x - 132)
      && r[k].y == boxes[k].y + (anchorLoc.y - 502)
      && r[k].w == boxes[k].w && r[k].h == boxes[k].h
  {
    map k | k in boxes :: ShiftBox(boxes[k], Offset(anchorLoc))
  }

  /** What one calibration makes of the record-list parameters: only the row
      origin moves; the row height and the column widths are untouched. */
  function CalibratedParams(params: map<ParamKey, Param>, anchorLoc: Point): (r: map<ParamKey, Param>)
    ensures r.Keys == params.Keys
    ensures forall k :: k in params && k != RecordListAnchor ==> r[k] == params[k]
    ensures RecordListAnchor in params && params[RecordListAnchor].Pos? ==>
      r[RecordListAnchor] == Pos(Point(params[RecordListAnchor].p.x + (anchorLoc.x - 132),
                                       params[RecordListAnchor].p.y + (anchorLoc.y - 502)))
  {
    var d := Offset(anchorLoc);
    map k | k in params ::
      if k == RecordListAnchor && params[k].Pos?
      then Pos(Point(params[k].p.x + d.x, params[k].p.y + d.y))
      else params[k]
  }

  /** The module-level template dictionaries. They start as the defaults and
      every calibration overwrites their entries in place, so calibrations
      accumulate. */
  class Template {
    var relativeBoxes: map<Field, Box>
    var recordListParams: map<ParamKey, Param>

    /** The key sets never change, the row origin stays a point, and the row
        height and column widths keep their default values. */
    ghost predicate Valid()
      reads this
    {
      && relativeBoxes.Keys == DefaultRelativeBoxes.Keys
      && recordListParams.Keys == DefaultRecordListParams.Keys
      && recordListParams[RecordListAnchor].Pos?
      && forall k :: k in recordListParams && k != RecordListAnchor ==>
           recordListParams[k] == DefaultRecordListParams[k]
    }

    constructor ()
      ensures Valid()
      ensures relativeBoxes == DefaultRelativeBoxes
      ensures recordListParams == DefaultRecordListParams
    {
      relativeBoxes := DefaultRelativeBoxes;
      recordListParams := DefaultRecordListParams;
    }

    /** `get_relative_boxes`: overwrites each entry of both dictionaries with
        its translated value and hands back the dictionaries themselves. */
    method GetRelativeBoxes(anchorLoc: Point) returns (boxes: map<Field, Box>, params: map<ParamKey, Param>)
      requires Valid()
      modifies this
      ensures Valid()
      ensures relativeBoxes == CalibratedBoxes(old(relativeBoxes), anchorLoc)
      ensures recordListParams == CalibratedParams(old(recordListParams), anchorLoc)
      ensures boxes == relativeBoxes && params == recordListParams
    {
      var d := Offset(anchorLoc);
      ghost var oldBoxes, oldParams := relativeBoxes, recordListParams;
      var pending := relativeBoxes.Keys;
      while pending != {}
        invariant pending <= oldBoxes.Keys
        invariant relativeBoxes.Keys == oldBoxes.Keys
        invariant forall k :: k in relativeBoxes ==>
          relativeBoxes[k] == if k in pending then oldBoxes[k] else ShiftBox(oldBoxes[k], d)
        invariant recordListParams == oldParams
        decreases pending
      {
        var key :| key in pending;
        var Box(x0, y0, w, h) := relativeBoxes[key];
        relativeBoxes := relativeBoxes[key := Box(x0 + d.x, y0 + d.y, w, h)];
        pending := pending - {key};
      }
      assert relativeBoxes == CalibratedBoxes(oldBoxes, anchorLoc);

      var anchorDone := false;
      var pendingParams := recordListParams.Keys;
      while pendingParams != {}
        invariant pendingParams <= oldParams.Keys
        invariant anchorDone <==> RecordListAnchor in oldParams.Keys - pendingParams
        invariant recordListParams == if anchorDone then CalibratedParams(oldParams, anchorLoc) else oldParams
        invariant relativeBoxes == CalibratedBoxes(oldBoxes, anchorLoc)
        decreases pendingParams
      {
        var key :| key in pendingParams;
        if key == RecordListAnchor {
          var Point(x0, y0) := recordListParams[key].p;
          recordListParams := recordListParams[key := Pos(Point(x0 + d.x, y0 + d.y))];
          anchorDone := true;
        }
        pendingParams := pendingParams - {key};
      }
      boxes, params := relativeBoxes, recordListParams;
    }
  }

  /** Two calibrations in a row shift every box by the sum of the two
      offsets: the template drifts instead of being recomputed. */
  lemma CalibrationsAccumulate(boxes: map<Field, Box>, a1: Point, a2: Point)
    ensures CalibratedBoxes(CalibratedBoxes(boxes, a1), a2)
         == CalibratedBoxes(boxes, Point(a1.x + a2.x - 132, a1.y + a2.y - 502))
  {
    var twice := CalibratedBoxes(CalibratedBoxes(boxes, a1), a2);
    var once := CalibratedBoxes(boxes, Point(a1.x + a2.x - 132, a1.y + a2.y - 502));
    assert forall k :: k in boxes ==> twice[k] == once[k];
  }

  /** The same accumulation for the row origin; the lengths never move. */
  lemma ParamCalibrationsAccumulate(params: map<ParamKey, Param>, a1: Point, a2: Point)
    ensures CalibratedParams(CalibratedParams(params, a1), a2)
         == CalibratedParams(params, Point(a1.x + a2.x - 132, a1.y + a2.y - 502))
  {
    var twice := CalibratedParams(CalibratedParams(params, a1), a2);
    var once := CalibratedParams(params, Point(a1.x + a2.x - 132, a1.y + a2.y - 502));
    assert forall k :: k in params ==> twice[k] == once[k];
  }

  /** An anchor found exactly where the template expects it changes nothing. */
  lemma CalibrationAtDefaultAnchor(boxes: map<Field, Box>, params: map<ParamKey, Param>)
    ensures CalibratedBoxes(boxes, DefaultAnchor) == boxes
    ensures CalibratedParams(params, DefaultAnchor) == params
  {
    assert forall k :: k in boxes ==> CalibratedBoxes(boxes, DefaultAnchor)[k] == boxes[k];
    assert forall k :: k in params ==> CalibratedParams(params, DefaultAnchor)[k] == params[k];
  }

  /** A calibration is undone by a second one with the anchor mirrored
      through the default anchor. */
  lemma CalibrationUndone(boxes: map<Field, Box>, anchorLoc: Point)
    ensures CalibratedBoxes(CalibratedBoxes(boxes, anchorLoc),
                            Point(2 * 132 - anchorLoc.x, 2 * 502 - anchorLoc.y)) == boxes
  {
    var back := Point(2 * 132 - anchorLoc.x, 2 * 502 - anchorLoc.y);
    CalibrationsAccumulate(boxes, anchorLoc, back);
    CalibrationAtDefaultAnchor(boxes, map[]);
  }

  /** The crop rectangle of `crop_and_ocr` for a box `(x, y, w, h)`. */
  function CropRect(b: Box): (r: Rect)
    ensures r.left == b.x && r.top == b.y
    ensures r.right - r.left == b.w && r.bottom - r.top == b.h
  {
    Rect(b.x, b.y, b.x + b.w, b.y + b.h)
  }

  /** The recognised text of a crop, stripped: no longer than the
      recognised text and with no whitespace at either end (`TrimSpec` adds
      that it is a slice of it with only whitespace cut off). */
  function Recognised(image: Screenshot, r: Rect): (t: string)
    ensures |t| <= |image.recognise(r)|
    ensures t == [] || (!IsSpace(t[0]) && !IsSpace(t[|t| - 1]))
  {
    TrimSpec(image.recognise(r), IsSpace);
    Strip(image.recognise(r))
  }

  /** `crop_and_ocr`: the stripped text of the crop whose corner is the
      box's `(x, y)` and whose size is its `(w, h)` (see `CropRect`). */
  function CropAndOcr(image: Screenshot, b: Box): (t: string)
    ensures |t| <= |image.recognise(Rect(b.x, b.y, b.x + b.w, b.y + b.h))|
    ensures t == [] || (!IsSpace(t[0]) && !IsSpace(t[|t| - 1]))
  {
    Recognised(image, CropRect(b))
  }

  /** The calibrated geometry of the record list. */
  datatype RowLayout = RowLayout(origin: Point, rowHeight: int,
                                 nameWidth: int, handsWidth: int, buyInWidth: int, scoreWidth: int)

  /** One entry of `record_list`: four recognised texts. */
  datatype RowRecord = RowRecord(playerName: string, handsCount: string, buyInCount: string, score: string)

  /** The top of the `i`-th record row. */
  function RowTop(layout: RowLayout, i: nat): int {
    layout.origin.y + i * layout.rowHeight
  }

  /** Each row starts one row height below the one before. */
  lemma RowTopNext(layout: RowLayout, n: nat)
    ensures RowTop(layout, n + 1) == RowTop(layout, n) + layout.rowHeight
  {}

  /** The four column boxes of the row whose top is `ry`. */
  function RowBoxes(layout: RowLayout, ry: int): (r: seq<Box>)
    ensures |r| == 4
    ensures r[0].x == layout.origin.x
    ensures forall c :: 0 <= c < 3 ==> r[c + 1].x == r[c].x + r[c].w
    ensures forall c :: 0 <= c < 4 ==> r[c].y == ry && r[c].h == layout.rowHeight
    ensures r[0].w == layout.nameWidth && r[1].w == layout.handsWidth
    ensures r[2].w == layout.buyInWidth && r[3].w == layout.scoreWidth
  {
    var rx, nw, hw, biw := layout.origin.x, layout.nameWidth, layout.handsWidth, layout.buyInWidth;
    [Box(rx, ry, nw, layout.rowHeight),
     Box(rx + nw, ry, hw, layout.rowHeight),
     Box(rx + nw + hw, ry, biw, layout.rowHeight),
     Box(rx + nw + hw + biw, ry, layout.scoreWidth, layout.rowHeight)]
  }

  /** The record read from the row whose top is `ry`: four crops of the
      row's height side by side, starting at the origin's `x`. */
  function ReadRow(image: Screenshot, layout: RowLayout, ry: int): (r: RowRecord)
    ensures var x0, h := layout.origin.x, layout.rowHeight;
            var x1 := x0 + layout.nameWidth;
            var x2 := x1 + layout.handsWidth;
            var x3 := x2 + layout.buyInWidth;
            && r.playerName == Recognised(image, Rect(x0, ry, x1, ry + h))
            && r.handsCount == Recognised(image, Rect(x1, ry, x2, ry + h))
            && r.buyInCount == Recognised(image, Rect(x2, ry, x3, ry + h))
            && r.score == Recognised(image, Rect(x3, ry, x3 + layout.scoreWidth, ry + h))
  {
    var b := RowBoxes(layout, ry);
    RowRecord(CropAndOcr(image, b[0]), CropAndOcr(image, b[1]),
              CropAndOcr(image, b[2]), CropAndOcr(image, b[3]))
  }

  /** The number of rows the walk reads: `ceil((height - y0) / rh)` when the
      first row starts inside the image, and none otherwise. */
  function RowCount(height: int, y0: int, rh: int): nat
    requires rh > 0
  {
    if y0 < height then (height - y0 + rh - 1) / rh else 0
  }

  lemma MulLeft(a: int, b: int, c: int)
    requires a <= b && c >= 0
    ensures a * c <= b * c
  {}

  lemma DivBetween(a: int, b: int, q: int)
    requires b > 0 && q * b <= a < (q + 1) * b
    ensures a / b == q
  {
    var q' := a / b;
    if q' < q { MulLeft(q' + 1, q, b); }
    if q' > q { MulLeft(q + 1, q', b); }
  }

  /** The closed form counts exactly the rows that start inside the image:
      row `i` starts at `y0 + i * rh`, every counted row starts above the
      bottom edge, and the next one would not. */
  lemma {:induction false} RowCountIsExit(height: int, y0: int, rh: int)
    requires rh > 0
    ensures forall i :: 0 <= i < RowCount(height, y0, rh) ==> y0 + i * rh < height
    ensures y0 + RowCount(height, y0, rh) * rh >= height
  {
    var n := RowCount(height, y0, rh);
    if y0 < height {
      var a := height - y0 + rh - 1;
      assert a == n * rh + a % rh;
      forall i | 0 <= i < n ensures y0 + i * rh < height {
        MulLeft(i, n - 1, rh);
      }
    }
  }

  /** Conversely, a count whose rows all start inside the image and whose
      next row would not is the closed form. */
  lemma {:induction false} RowCountUnique(height: int, y0: int, rh: int, n: nat)
    requires rh > 0
    requires forall i :: 0 <= i < n ==> y0 + i * rh < height
    requires y0 + n * rh >= height
    ensures n == RowCount(height, y0, rh)
  {
    if n > 0 {
      assert y0 + 0 * rh < height;
    }
    if y0 < height {
      assert y0 + (n - 1) * rh < height;
      DivBetween(height - y0 + rh - 1, rh, n);
    }
  }

  /** Rows are read top to bottom: a later row starts strictly lower. */
  lemma RowsTopToBottom(layout: RowLayout, i: nat, j: nat)
    requires layout.rowHeight > 0 && i < j
    ensures RowTop(layout, i) < RowTop(layout, j)
  {
    MulLeft(i + 1, j, layout.rowHeight);
  }

  /** A walk that read `n` rows, the last of them starting inside the
      image, and stopped because the next row would not, read `RowCount` rows. */
  lemma WalkCount(height: int, layout: RowLayout, n: nat)
    requires layout.rowHeight > 0
    requires n == 0 || RowTop(layout, n - 1) < height
    requires RowTop(layout, n) >= height
    ensures n == RowCount(height, layout.origin.y, layout.rowHeight)
  {
    forall i | 0 <= i < n ensures layout.origin.y + i * layout.rowHeight < height {
      MulLeft(i, n - 1, layout.rowHeight);
    }
    RowCountUnique(height, layout.origin.y, layout.rowHeight, n);
  }

  /** The first `n` records of the record list. */
  function RowsUpTo(image: Screenshot, layout: RowLayout, n: nat): (r: seq<RowRecord>)
  {
    seq(n, i requires 0 <= i => ReadRow(image, layout, RowTop(layout, i)))
  }

  lemma RowsUpToNext(image: Screenshot, layout: RowLayout, n: nat)
    ensures RowsUpTo(image, layout, n + 1) == RowsUpTo(image, layout, n) + [ReadRow(image, layout, RowTop(layout, n))]
  {
    var longer := RowsUpTo(image, layout, n + 1);
    var shorter := RowsUpTo(image, layout, n) + [ReadRow(image, layout, RowTop(layout, n))];
    assert |longer| == |shorter|;
    forall k | 0 <= k <= n ensures longer[k] == shorter[k] {
      if k < n {
        assert shorter[k] == RowsUpTo(image, layout, n)[k];
      }
    }
  }

  /** The records of the record list: one per row that starts inside the
      image, read top to bottom. */
  function Rows(image: Screenshot, layout: RowLayout): seq<RowRecord>
    requires layout.rowHeight > 0
  {
    RowsUpTo(image, layout, RowCount(image.height, layout.origin.y, layout.rowHeight))
  }

  /** The `while ry < image.height` walk of `pic_to_json`: one record per row,
      from the calibrated origin down, until a row would start at or below the
      bottom edge. */
  method WalkRows(image: Screenshot, layout: RowLayout) returns (recordList: seq<RowRecord>)
    requires layout.rowHeight > 0
    ensures recordList == Rows(image, layout)
  {
    var ry, rh := layout.origin.y, layout.rowHeight;
    recordList := [];
    while ry < image.height
      invariant ry == RowTop(layout, |recordList|)
      invariant |recordList| == 0 || RowTop(layout, |recordList| - 1) < image.height
      invariant recordList == RowsUpTo(image, layout, |recordList|)
      decreases image.height - ry
    {
      RowsUpToNext(image, layout, |recordList|);
      RowTopNext(layout, |recordList|);
      recordList := recordList + [ReadRow(image, layout, ry)];
      ry := ry + rh;
    }
    WalkCount(image.height, layout, |recordList|);
  }

  /** The structured result of `pic_to_json`. */
  datatype ParsedScreenshot = ParsedScreenshot(
    gameName: string, chipLevel: string, gameHandsCount: string,
    creatorPlayerName: string, startTime: string, endTime: string,
    recordList: seq<RowRecord>)

  /** The record-list layout read back out of the parameter dictionary. */
  function LayoutOf(params: map<ParamKey, Param>): (r: RowLayout)
    requires params.Keys == DefaultRecordListParams.Keys && params[RecordListAnchor].Pos?
    requires forall k :: k in params && k != RecordListAnchor ==> params[k] == DefaultRecordListParams[k]
    ensures r.origin == params[RecordListAnchor].p
    ensures r.rowHeight == 75 && r.nameWidth == 250 && r.handsWidth == 100
    ensures r.buyInWidth == 125 && r.scoreWidth == 150
  {
    RowLayout(params[RecordListAnchor].p, params[RecordRowHeight].n,
              params[PlayerNameWidth].n, params[HandsWidth].n,
              params[BuyInWidth].n, params[ScoreWidth].n)
  }

  /** What `pic_to_json` returns once the template holds `boxes` and
      `params`: each field read from its box, and the record rows. */
  function Parsed(image: Screenshot, boxes: map<Field, Box>, params: map<ParamKey, Param>): ParsedScreenshot
    requires boxes.Keys == DefaultRelativeBoxes.Keys
    requires params.Keys == DefaultRecordListParams.Keys && params[RecordListAnchor].Pos?
    requires forall k :: k in params && k != RecordListAnchor ==> params[k] == DefaultRecordListParams[k]
  {
    ParsedScreenshot(
      CropAndOcr(image, boxes[GameName]), CropAndOcr(image, boxes[ChipLevel]),
      CropAndOcr(image, boxes[GameHandsCount]), CropAndOcr(image, boxes[CreatorPlayerName]),
      CropAndOcr(image, boxes[StartTime]), CropAndOcr(image, boxes[EndTime]),
      Rows(image, LayoutOf(params)))
  }

  /** `pic_to_json` for an image whose anchor was found at `anchorLoc`:
      calibrates the shared template, reads the six fields from their
      calibrated boxes and walks the record rows. */
  method PicToJson(t: Template, image: Screenshot, anchorLoc: Point) returns (res: ParsedScreenshot)
    requires t.Valid()
    modifies t
    ensures t.Valid()
    ensures t.relativeBoxes == CalibratedBoxes(old(t.relativeBoxes), anchorLoc)
    ensures t.recordListParams == CalibratedParams(old(t.recordListParams), anchorLoc)
    ensures res == Parsed(image, t.relativeBoxes, t.recordListParams)
  {
    var boxes, params := t.GetRelativeBoxes(anchorLoc);
    var gameName := CropAndOcr(image, boxes[GameName]);
    var chipLevel := CropAndOcr(image, boxes[ChipLevel]);
    var gameHandsCount := CropAndOcr(image, boxes[GameHandsCount]);
    var creatorPlayerName := CropAndOcr(image, boxes[CreatorPlayerName]);
    var startTime := CropAndOcr(image, boxes[StartTime]);
    var endTime := CropAndOcr(image, boxes[EndTime]);
    var recordList := WalkRows(image, LayoutOf(params));
    res := ParsedScreenshot(gameName, chipLevel, gameHandsCount, creatorPlayerName,
                            startTime, endTime, recordList);
  }
}
