# langhuoshiqulizhi — a verified model of the screenshot readers and the chart builders

The repository records poker-style games from screenshots of a mobile app
and charts the results. This project models four pieces of it in Dafny and
proves what each one computes:

- **Screenshot template reader** (`backend/services/pic_reading.py`): the
  module-level template of six field boxes and six record-list parameters,
  its calibration against the location of an anchor image (`get_relative_boxes`,
  which overwrites the module-level dictionaries in place), the conversion
  of an `(x, y, w, h)` box into a crop rectangle, and the `pic_to_json` row
  walker that reads one record per row height until it passes the bottom
  of the image.
- **Booking record reader** (`backend/serveices/curd.py`): the nested
  `to_int` conversion (delete every `+`, read the minus sign U+2212 and the
  en dash U+2013 as `-`, parse, fall back to the original text), the comma
  removal that only the profit column gets, and the loop that reads one
  player per hand-marked row of boxes.
- **Cumulative profit chart** (`frontend/src/components/accProfitchart.tsx`):
  the distinct players in order of first appearance, each player's running
  profit total across the games, the padding of every series and of the x
  axis to at least 15 points, and the tick interval.
- **Player record chart** (`frontend/src/components/accChart.tsx`): the
  palette prefix of `generateColors`, the start times collected into a set
  and sorted, one chart row per start time built from the first record with
  that start time, the player-id list, and the two error messages.

The OCR engine and the template matcher are inputs: a screenshot is its
height and a function from crop rectangles to recognised text, and the
anchor location is a parameter. Integers are unbounded; JavaScript numbers
are modelled as integers.

Files: `text.dfy` (Python `str.strip()`, the trim `int()` applies, and one-character `str.replace`),
`seqs.dfy` (optional values and the insertion-ordered set of
`Array.from(new Set(xs))`), `pic_reading.dfy`, `curd.dfy`,
`acc_profit_chart.dfy`, `acc_chart.dfy`.

## Model

| member | source | states |
|---|---|---|
| Text.TrimStartSpec | backend/services/pic_reading.py:98 | the leading-whitespace trim is the suffix of the text that starts at its first non-whitespace character; everything removed is whitespace |
| Text.TrimEndSpec | backend/services/pic_reading.py:98 | the trailing-whitespace trim is the prefix that ends at the last non-whitespace character; everything removed is whitespace |
| Text.TrimSpec | backend/services/pic_reading.py:98 | trimming (here `strip()`, and `int()`'s own whitespace skipping) returns a slice of the text with only trimmed characters before and after it, and the result neither starts nor ends with one |
| Text.TrimIdempotent | backend/services/pic_reading.py:98 | stripping stripped text changes nothing |
| Text.TrimUnspaced | backend/services/pic_reading.py:98 | text that neither starts nor ends with whitespace is its own strip |
| Text.RemoveCharSpec | backend/serveices/curd.py:58 | `replace(c, "")` leaves no `c`, keeps every other character as often as it occurred, and shortens the text by the number of `c`s |
| Text.RemoveAbsentChar | backend/serveices/curd.py:58 | replacing a character that does not occur leaves the text unchanged |
| Text.RemoveCharAppend | backend/serveices/curd.py:63 | removing a character distributes over concatenation |
| Text.ReplaceCharAppend | backend/serveices/curd.py:63 | one-character replacement distributes over concatenation |
| Seqs.DedupSpec | frontend/src/components/accProfitchart.tsx:32-40 | `Array.from(new Set(xs))` holds every element of `xs` and nothing else, each once, ordered by first occurrence |
| Seqs.FirstOccurrencesGrow | frontend/src/components/accChart.tsx:54-57 | one `Set.add` keeps that characterisation: a repeated element leaves the list alone, a new one is appended |
| Seqs.DedupSnoc | frontend/src/components/accChart.tsx:54-57 | adding an element to the set is a no-op when it is present and appends it otherwise |
| Seqs.DedupOfNoDup | frontend/src/components/accProfitchart.tsx:32-40 | a list without duplicates passes through the set unchanged |
| Seqs.FirstIndexPrefix | frontend/src/components/accChart.tsx:54-57 | the first occurrence of an element already present does not move when the list grows |
| PicReading.CalibratedBoxes | backend/services/pic_reading.py:83-86 | calibration keeps the field names and moves every box by `(anchor.x - 132, anchor.y - 502)`, leaving width and height alone |
| PicReading.CalibratedParams | backend/services/pic_reading.py:88-91 | calibration keeps the parameter names, moves `record_list_anchor` by the same offset and leaves row height and the four column widths alone |
| PicReading.Template.constructor | backend/services/pic_reading.py:9-24 | the template starts with the module-level default boxes and record-list parameters |
| PicReading.Template.GetRelativeBoxes | backend/services/pic_reading.py:82-93 | the template's own dictionaries are overwritten with their calibrated versions, and those same dictionaries are returned |
| PicReading.CalibrationsAccumulate | backend/services/pic_reading.py:83-86 | because the template is updated in place, calibrating with `a1` and then `a2` moves each box by `(a1 - default) + (a2 - default)` |
| PicReading.ParamCalibrationsAccumulate | backend/services/pic_reading.py:88-91 | the same accumulation holds for the record-list anchor |
| PicReading.CalibrationAtDefaultAnchor | backend/services/pic_reading.py:83-91 | calibrating with the default anchor `(132, 502)` changes nothing |
| PicReading.CalibrationUndone | backend/services/pic_reading.py:83-91 | a second calibration with the anchor mirrored around the default restores the original template |
| PicReading.CropRect | backend/services/pic_reading.py:97 | the crop rectangle of `(x, y, w, h)` starts at `(x, y)` and is `w` wide and `h` high |
| PicReading.Recognised | backend/services/pic_reading.py:98 | the stripped text of a crop, as `crop_and_ocr` here and `booking_record_pic` at backend/serveices/curd.py:49-58 both compute it, is no longer than the recognised text and neither starts nor ends with whitespace (that only whitespace was cut is `Text.TrimSpec`) |
| PicReading.CropAndOcr | backend/services/pic_reading.py:96-99 | `crop_and_ocr` of `(x, y, w, h)` is the stripped recognised text of the rectangle from `(x, y)` to `(x + w, y + h)`: no longer than it and with no whitespace at either end |
| PicReading.RowBoxes | backend/services/pic_reading.py:49-52 | the four column boxes of a row share the row's top and height, have the four configured widths and sit side by side from `rx` |
| PicReading.ReadRow | backend/services/pic_reading.py:49-58 | a record's name, hands, buy-in and score are the stripped texts of four crops of the row's height, side by side from `rx` with widths `nw`, `hw`, `biw` and `sw` |
| PicReading.RowCountIsExit | backend/services/pic_reading.py:47-59 | every one of the `ceil((H - ry0) / rh)` counted rows (none when `ry0 >= H`) starts above the image bottom, and the next row would not |
| PicReading.RowCountUnique | backend/services/pic_reading.py:47-59 | that count is the only number of rows with this property, so the loop appends exactly that many records |
| PicReading.RowsTopToBottom | backend/services/pic_reading.py:53-59 | later rows start strictly lower, so records are appended top to bottom |
| PicReading.WalkCount | backend/services/pic_reading.py:48-59 | where the loop stops (the first row top at or below the image bottom), the number of rows read is the row count |
| PicReading.WalkRows | backend/services/pic_reading.py:47-59 | the loop terminates and returns exactly the records of the counted rows, in order, each read from its four column boxes |
| PicReading.LayoutOf | backend/services/pic_reading.py:40-45 | the row layout takes its origin from the (calibrated) record-list anchor, and its row height 75 and column widths 250, 100, 125 and 150 from the parameters calibration leaves alone |
| PicReading.PicToJson | backend/services/pic_reading.py:26-69 | the template is calibrated in place, the six fields are read from the calibrated boxes and the record list from the calibrated row layout |
| Curd.ParseInt | backend/serveices/curd.py:63 | `int()` succeeds exactly on an optional `-` and ASCII digits once the whitespace `int()` skips is trimmed: that of `str.isspace()` except the separators U+001C to U+001F |
| Curd.Normalise | backend/serveices/curd.py:63 | after the rewrite no `+`, minus sign or en dash remains |
| Curd.NormaliseLength | backend/serveices/curd.py:63 | only the removed `+` signs shorten the text |
| Curd.ToInt | backend/serveices/curd.py:61-65 | `to_int` never fails: an integer exactly when the rewritten text parses, otherwise the original text, not the rewritten one |
| Curd.ParseShowInt | backend/serveices/curd.py:63 | `int()` reads back the decimal text of every integer |
| Curd.NormaliseAppend | backend/serveices/curd.py:63 | the rewrite works character by character, so it distributes over concatenation |
| Curd.NormaliseCanonical | backend/serveices/curd.py:63 | text without `+`, minus sign or en dash is left unchanged by the rewrite |
| Curd.ToIntShowInt | backend/serveices/curd.py:61-65 | the decimal text of every integer converts to that integer |
| Curd.ToIntPlusPrefix | backend/serveices/curd.py:63 | a `+` in front of any number is dropped |
| Curd.ToIntDashPrefix | backend/serveices/curd.py:63 | a minus sign or an en dash in front of any number negates it |
| Curd.CommaNeverParses | backend/serveices/curd.py:61-65 | any text containing a comma comes back unparsed, as itself |
| Curd.ToIntPlusExample | backend/serveices/curd.py:61-65 | `"+1234"` converts to 1234 |
| Curd.ToIntMinusExample | backend/serveices/curd.py:61-65 | `"−500"` (minus sign) converts to -500 |
| Curd.ToIntPlusAnywhere | backend/serveices/curd.py:63 | every `+` is deleted, not only a leading one: `"1+2+3"` converts to 123 |
| Curd.ToIntSpaceAfterPlus | backend/serveices/curd.py:63 | whitespace left behind by a removed `+` is accepted: `"+ 5"` converts to 5 |
| Curd.ToIntFileSeparator | backend/serveices/curd.py:58-63 | U+001C is whitespace to `strip()` but not to `int()`: `"+\x1c5"` comes back as text |
| Curd.ToIntRawExamples | backend/serveices/curd.py:64-65 | `"abc"` and `"--5"` come back as text |
| Curd.ReadPlayer | backend/serveices/curd.py:55-72 | a player's name is the stripped text of its box; a comma keeps hands or buy-in as their text, while the profit loses its commas first, so a profit left as text never holds one |
| Curd.CommasOnlyInProfit | backend/serveices/curd.py:56-58 | the same text `"1,000"` stays text in the hands column but is 1000 in the profit column |
| Curd.ThousandsSeparatorDropped | backend/serveices/curd.py:58 | with its comma removed, `"1,000"` converts to 1000 |
| Curd.BookingRecordPic | backend/serveices/curd.py:49-79 | title and time are the stripped text of their boxes, and there is one player per marked row, in row order, with hands, buy-in and profit converted and only the profit de-comma'd |
| AccProfitChart.NamesInSpec | frontend/src/components/accProfitchart.tsx:35-37 | a game contributes a name exactly when it has a present record with that non-empty name |
| AccProfitChart.PlayerNamesSpec | frontend/src/components/accProfitchart.tsx:34-38 | a name is collected exactly when some game has a present record with that non-empty name |
| AccProfitChart.AllPlayers | frontend/src/components/accProfitchart.tsx:32-40 | the players are duplicate-free, ordered by first appearance across games then records, are exactly the names of some present record, and exclude the empty name |
| AccProfitChart.Find | frontend/src/components/accProfitchart.tsx:48 | `find` returns nothing exactly when no present record has the player's non-empty name, and otherwise the first such record |
| AccProfitChart.GameProfit | frontend/src/components/accProfitchart.tsx:48-53 | a game adds 0 when the player has no named record in it, and otherwise the profit of the player's first record there |
| AccProfitChart.CumulativeProfits | frontend/src/components/accProfitchart.tsx:46-54 | `playerData` has one point per game (what each point is: `CumulativeStep`) |
| AccProfitChart.TotalAppend | frontend/src/components/accProfitchart.tsx:44-54 | the player's total over two consecutive stretches of games is the sum of the two totals |
| AccProfitChart.CumulativeSnoc | frontend/src/components/accProfitchart.tsx:46-54 | one more game appends one more point, the total so far |
| AccProfitChart.CumulativeStep | frontend/src/components/accProfitchart.tsx:44-53 | each point, the first included, is the previous one (0 before the first game, where `acc` starts) plus the profit of the player's first record in that game (0 when absent) |
| AccProfitChart.CarryForward | frontend/src/components/accProfitchart.tsx:44-53 | in a game the player did not play, the first included, the value equals the previous one (0 before the first game) |
| AccProfitChart.CumulativeSplit | frontend/src/components/accProfitchart.tsx:44-54 | the final value is any earlier value plus the total of the games after it |
| AccProfitChart.PlayerSeries | frontend/src/components/accProfitchart.tsx:44-54 | the `acc` loop yields, for every game `i`, the sum of the player's first-record profits over games `0..i` |
| AccProfitChart.PaddedSeries | frontend/src/components/accProfitchart.tsx:55-61 | a series is 0, then the running totals, then nulls; its length is `max(games + 1, 15)` |
| AccProfitChart.PaddedEndTime | frontend/src/components/accProfitchart.tsx:78-84 | the x axis is `""`, then the end times in order, then `""`; its length is `max(games + 1, 15)` |
| AccProfitChart.MaxInterval | frontend/src/components/accProfitchart.tsx:129 | `max(1, floor(n / 15))` is at least 1, is 1 below 30 games and brackets `n / 15` above |
| AccProfitChart.BuildChart | frontend/src/components/accProfitchart.tsx:31-135 | one padded running-total series per player in `allPlayers` order, each as long as the x axis, with the legend, x axis and tick interval above |
| AccProfitChart.RunningTotalExample | frontend/src/components/accProfitchart.tsx:46-54 | profits 100, -50, 20 (a later duplicate record ignored) and a game without the player give 100, 50, 70, 70 |
| AccChart.GenerateColors | frontend/src/components/accChart.tsx:35-41 | `slice(0, count)` gives the first `min(count, 10)` palette colours in order (fewer from the end for a negative count), all different |
| AccChart.StrLeTotal | frontend/src/components/accChart.tsx:60 | the default sort order compares any two strings |
| AccChart.StrLeTrans | frontend/src/components/accChart.tsx:60 | the sort order is transitive |
| AccChart.StrLeRefl | frontend/src/components/accChart.tsx:60 | the sort order is reflexive |
| AccChart.StrLeAntisym | frontend/src/components/accChart.tsx:60 | two strings each ordered before the other are equal |
| AccChart.Insert | frontend/src/components/accChart.tsx:60 | one insertion step lengthens the list by one (`InsertMultiset`, `InsertSorted`: by exactly the inserted string, in order) |
| AccChart.InsertMultiset | frontend/src/components/accChart.tsx:60 | one insertion step adds exactly the inserted string |
| AccChart.InsertSorted | frontend/src/components/accChart.tsx:60 | one insertion step keeps a sorted list sorted |
| AccChart.SortStrings | frontend/src/components/accChart.tsx:60 | `sort()` keeps the length (`SortStringsSpec`: sorted and a permutation) |
| AccChart.SortStringsSpec | frontend/src/components/accChart.tsx:60 | `sort()` returns its input sorted ascending and as a permutation |
| AccChart.SortedHeadLeast | frontend/src/components/accChart.tsx:60 | the first element of a sorted list precedes every element |
| AccChart.HeadsRemoved | frontend/src/components/accChart.tsx:60 | two permutations of each other with the same head remain permutations without it |
| AccChart.SortedUnique | frontend/src/components/accChart.tsx:60 | a sorted permutation is unique, so any correct sort gives the same list |
| AccChart.NoDupCount | frontend/src/components/accChart.tsx:54-60 | in a duplicate-free list every string occurs at most once |
| AccChart.PermutationKeepsNoDup | frontend/src/components/accChart.tsx:60 | sorting a duplicate-free list keeps it duplicate-free |
| AccChart.CollectTimestamps | frontend/src/components/accChart.tsx:54-57 | the `forEach` over the records leaves the set holding each start time once, in order of first occurrence |
| AccChart.Timestamps | frontend/src/components/accChart.tsx:54-60 | the sorted timestamps are duplicate-free, ascending, and exactly the start times that occur |
| AccChart.FindByStart | frontend/src/components/accChart.tsx:64 | `find` returns nothing exactly when no record has the start time, and otherwise the first record that has it |
| AccChart.ChartRow | frontend/src/components/accChart.tsx:65-68 | a row has the keys `timestamp` and the player id, the player id maps to the score (0 when missing), and the label survives unless the id is itself `timestamp` |
| AccChart.ChartRows | frontend/src/components/accChart.tsx:63-69 | `chartData` has one row per sorted timestamp (what row `i` is: `RowOfTimestamp`) |
| AccChart.RowOfTimestamp | frontend/src/components/accChart.tsx:63-68 | row `i` belongs to the `i`-th smallest start time and is built from the first record with that start time; later ones are dropped |
| AccChart.ExampleTimestamps | frontend/src/components/accChart.tsx:54-60 | start times 10:00, 09:00, 10:00 give the timestamps 09:00, 10:00 |
| AccChart.SameStartTimeExample | frontend/src/components/accChart.tsx:63-69 | two records at 10:00 give one row with the first one's player and score; a missing score shows as 0 |
| AccChart.FetchData | frontend/src/components/accChart.tsx:44-85 | a failed request sets the network message, a missing or empty `data` sets `暂无数据`, and otherwise the rows are the timestamp rows and the players are all player ids in input order, duplicates kept |

## Left out

- Text recognition (`pytesseract.image_to_string`) and template matching (`cv2.matchTemplate`, `cv2.minMaxLoc`) are foreign engines: a screenshot is given as its height and a recognition function, and the anchor location is a parameter. No confidence threshold exists in the code and none is modelled.
- Image loading with PIL, pixel arrays, `show_relative_boxes`, `main` and `t_show_relative_boxes` are file and window I/O.
- `get_anchor_loc` is not part of this model beyond its result, which `PicReading.PicToJson` takes as a parameter.
- Python dictionary iteration order: calibration updates every entry independently, so the order does not affect the result and the model uses maps.
- PicReading.Template.GetRelativeBoxes: the returned dictionaries are the template's own objects; the model returns their values, equal to the template's fields, and does not model later aliasing through them.
- Curd.BookingRecordPic: the source overwrites its `image_path` argument, builds an unused `mock` dictionary, and prints the result as JSON instead of returning it; the model returns the result.
- Curd.ParseInt: Python's `int()` also accepts `_` between digits and non-ASCII decimal digits, and from Python 3.11 on it rejects literals of more than 4300 digits; the model accepts any number of ASCII digits with an optional `-` and `int()`'s surrounding whitespace, and rejects the rest. A leading `+` never reaches `int()` because `to_int` deletes every `+`.
- `get_player_record_data`, the database managers, the MySQL service scripts, `backend/app.py`, everything under `frontend/server/` and the Next.js configuration are SQL, process and HTTP glue and are not part of this model.
- The React state, effects, the loading flag, axios and the ECharts/recharts rendering are UI; `AccChart.FetchData` models only the state it sets, and `AccProfitChart.BuildChart` only the data parts of the chart option (legend, x axis, tick interval, series).
- AccProfitChart.PlayerSeries: JavaScript numbers are floating point and `+=` would concatenate a string profit; profits are modelled as integers.
- AccChart.FetchData: an exception thrown while processing the records (such as a `null` record) would also end in the network message; records are never null in the model.
- AccChart.StrLe: JavaScript's default sort compares UTF-16 code units; the model compares code points, which differ only for characters outside the Basic Multilingual Plane.
- AccChart.SortStrings: written as an insertion sort; `AccChart.SortedUnique` shows any correct sort returns the same list.
