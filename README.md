# WhiteBoard widget tools: a Dafny model

WhiteBoard is a browser whiteboard. A canvas module records every drawn item in
one shared drawing history. On top of that canvas sit three widget tools and the
page script that wires them to the toolbar:

- the sticky-note tool (`js/NotesModule.js`) creates, selects, drags, edits and
  deletes notes, and keeps one `note` record per note in the history;
- the QR code tool (`js/QRCodeModule.js`) places QR codes where the canvas is
  clicked, with a pixel-grid fallback picture built from a 32-bit string hash;
- the timer (`js/TimerModule.js`) runs a countdown in seconds and a stopwatch in
  milliseconds, shows them as `MM:SS` and `MM:SS.cc`, and flashes the canvas
  when a countdown ends;
- the page script (`js/app.js`) switches between the pen, the eraser, the text
  tool and the widget tools, rings the active toolbar button, clears the board
  and routes pointer events to the canvas.

The model has six modules, one per concern:

- `Strings` (`strings.dfy`): JavaScript `trim`, `toString` of integers and
  `padStart`, with their round-trip facts.
- `History` (`history.dfy`): the records of the drawing history and the part of
  the canvas module that the tools change (`drawingHistory`, `currentTool`).
  The history operations are functions proved against their effect on the
  note records and on all other records. A record written by another module
  carries a `tool` tag other than `'note'` and `'qrcode'`.
- `Notes` (`notes.dfy`): the class `NotesModule`, whose invariant ties the note
  list to the note records of the history. It also has the pure list functions
  its methods are proved against.
- `QRCodes` (`qrcode.dfy`): the hash, the fallback grid and the class
  `QRCodeModule`.
- `Timers` (`timer.dfy`): the display formatting and the class `TimerModule`.
- `App` (`app.dfy`): the class `App`, whose invariant says which tool is active,
  which panel may be shown and which button is ringed.

Mouse, keyboard and timer callbacks are method calls. Clock readings, input-box
values and how an asynchronous image load ends are parameters.

## Model

| member | source | states |
|---|---|---|
| Strings.Trim | js/NotesModule.js:179 | The result is empty exactly when the text is all whitespace. Otherwise it is the slice between leading and trailing whitespace, and its first and last characters are not whitespace. |
| Strings.IsBlank | js/NotesModule.js:179 | Definition: `!text.trim()`, the trimmed text is empty. That holds exactly when every character is whitespace, by `Strings.Trim`'s contract. |
| Strings.JsIntToString | js/TimerModule.js:253 | `toString` of an integer: decimal digits, with a leading `-` exactly for negatives. The digits read back as the number itself, or its absolute value for negatives. |
| Strings.ParseNatToString | js/TimerModule.js:253 | Reading back the digits of a natural number's `toString` gives the number. |
| Strings.NatToString | js/TimerModule.js:253 | `toString` of a non-negative number: at least one decimal digit, with no leading zero. It has a single digit exactly below 10. `Strings.ParseNatToString` reads back its value. |
| Strings.PadStart | js/TimerModule.js:253 | `padStart(width, '0')` keeps the text when it is long enough. Otherwise it prefixes zeros up to exactly `width`, and the original text is the suffix. |
| Strings.TwoDigitText | js/TimerModule.js:253 | A number below 100, padded to two, is its tens digit followed by its units digit. |
| History.Canvas.constructor | js/app.js:2-24 | The canvas starts with an empty history and the pen as its tool. |
| History.Canvas.SetTool | js/app.js:49 | Sets the current tool and leaves the history alone. |
| History.Canvas.ClearCanvas | js/app.js:109 | Empties the drawing history. |
| History.FindNoteRecord | js/NotesModule.js:248-250 | `findIndex` over the history for the note record with this id: -1 exactly when there is none, otherwise the first match. |
| History.RemoveAt | js/NotesModule.js:197 | `splice(index, 1)`: one element shorter, the elements before the index kept and the ones after it shifted down by one. |
| History.RemoveNoteRecord | js/NotesModule.js:247-255 | Definition: the first note record with the id is spliced out, or the history is kept when there is none. Its effect on the note ids and the other records is stated by `History.RemoveNoteRecordEffect`. |
| History.NoNoteRecordIff | js/NotesModule.js:248-252 | No note record with the id exists exactly when the id is not among the ids of the note records. |
| History.PatchNoteRecord | js/NotesModule.js:232-245 | Keeps the history's length, and a missing id changes nothing. Otherwise only the first note record with the id changes: it takes the note's position, text and colours and keeps its own id, size and font. |
| History.PatchNoteRecordEffect | js/NotesModule.js:232-245 | Patching keeps the ids of the note records in order, and keeps every non-note record. |
| History.RemoveNoteRecordEffect | js/NotesModule.js:247-255 | Removing by id deletes the first occurrence of the id from the note records' ids. All non-note records and their order are kept. |
| History.AppendQRRecords | js/QRCodeModule.js:396-407 | Appending a `qrcode` record appends its QR code to the QR records. |
| History.AppendNonNote | js/QRCodeModule.js:396-407 | Appending any non-note record keeps the note records and appends the record to the non-note records. |
| Notes.NewNote | js/NotesModule.js:109-121 | A created note is 120 by 80 at the click point, with empty text, background `#ffeb3b`, text colour `#000000` and 14px Arial. |
| Notes.Contains | js/NotesModule.js:208-209 | Definition: the hit test is the closed box from the note's corner to corner plus width and height. `Notes.TopmostIndex` states the hit-test search over it. |
| Notes.TopmostIndex | js/NotesModule.js:204-214 | None exactly when no note's box contains the point. Otherwise the index's box contains it and no later (higher-drawn) note's box does. |
| Notes.NoteAt | js/NotesModule.js:204-214 | Definition: the note at `Notes.TopmostIndex`, or none. `Notes.NotesModule.GetNoteAtPosition` proves the backward loop returns it. |
| Notes.FindNote | js/NotesModule.js:195 | `findIndex` by id: -1 exactly when no note has the id, otherwise the first note with it. |
| Notes.RemoveNote | js/NotesModule.js:195-198 | Definition: the note found by id is spliced out, or the list is kept. Its effect is stated by `Notes.RemoveNoteIds` and `Notes.RemoveNoteContents`. |
| Notes.RemoveNoteIds | js/NotesModule.js:193-202 | Deleting by id removes the first occurrence of the id from the list's ids. |
| Notes.RemoveNoteContents | js/NotesModule.js:193-199 | With distinct ids, the notes left after deleting are exactly the notes without that id, and their ids stay distinct. |
| Notes.MoveNote | js/NotesModule.js:82-91 | Moving the dragged note keeps the ids of the list. |
| Notes.GrabOffset | js/NotesModule.js:75-76 | The grab offset added to the note's corner gives back the press point. |
| Notes.DragCorner | js/NotesModule.js:89-90 | The new corner plus the grab offset is the pointer position. |
| Notes.MoveToPressPoint | js/NotesModule.js:72-91 | With the drag offset of a press, moving back to the press point leaves the notes as they were. |
| Notes.DragDisplacement | js/NotesModule.js:72-91 | A drag moves the note by exactly the pointer's displacement and changes no other note. |
| Notes.DeleteKeepsConsistent | js/NotesModule.js:193-202 | Deleting from both the list and the history keeps ids distinct, below the counter and matching the history's note records. Non-note records are untouched. An unknown id changes neither. |
| Notes.AppendKeepsConsistent | js/NotesModule.js:109-131 | Adding a note with the counter's id to the end of the list and of the history, and advancing the counter, keeps the invariant. Non-note records are untouched. |
| Notes.RemoveAbsentNote | js/NotesModule.js:193-202 | In a consistent state, deleting an id no note carries changes neither the list nor the history. |
| Notes.RemoveNoteKeepsBound | js/NotesModule.js:193-199 | Deleting a note keeps every remaining id below the counter. |
| Notes.MoveKeepsConsistent | js/NotesModule.js:82-91 | Moving a note keeps the invariant. The list keeps its length. The note carrying the id gets the new corner and keeps every other field, and every other note is unchanged. |
| Notes.ReplaceKeepsConsistent | js/NotesModule.js:174-183 | Replacing a note by one with the same id keeps the ids, the invariant and every lookup by id. |
| Notes.CreateThenDelete | js/NotesModule.js:109-131 | Creating a note and then deleting it by its id gives back the original list and history. |
| Notes.NotesModule.constructor | js/NotesModule.js:1-20 | Inactive, no notes, id counter 1, nothing selected, not dragging. |
| Notes.NotesModule.Activate | js/NotesModule.js:22-30 | The tool becomes active. |
| Notes.NotesModule.Deactivate | js/NotesModule.js:32-42 | The tool becomes inactive, any drag ends and the selection is cleared. |
| Notes.NotesModule.GetNoteAtPosition | js/NotesModule.js:204-214 | The backward scan returns the topmost note containing the point, or none. |
| Notes.NotesModule.AddNoteToHistory | js/NotesModule.js:216-230 | Appends one `note` record for the note. |
| Notes.NotesModule.UpdateNoteInHistory | js/NotesModule.js:232-245 | The history becomes its patch with the note. |
| Notes.NotesModule.RemoveNoteFromHistory | js/NotesModule.js:247-255 | The history loses the first note record with the id. |
| Notes.NotesModule.CreateNote | js/NotesModule.js:109-131 | Appends a new default note with the next id to the list and the history. The counter advances and the invariant holds. |
| Notes.NotesModule.DeleteNote | js/NotesModule.js:193-202 | Removes the note from the list and its record from the history. The invariant holds and the counter is kept. |
| Notes.NotesModule.HandleTextareaBlur | js/NotesModule.js:174-191 | Blank text deletes the note. Otherwise the note's text is replaced in the list and in its history record. An unknown note changes nothing. |
| Notes.NotesModule.HandleEscape | js/NotesModule.js:167-170 | Escape puts the note's own text back and commits it: a note whose text is blank is deleted, and any other keeps its text while its record is rewritten from it. An unknown note changes nothing. |
| Notes.NotesModule.HandleCanvasClick | js/NotesModule.js:44-61 | When inactive, or while dragging, nothing happens. Otherwise a click on a note opens its editor, and a click elsewhere creates a note there and opens its editor. |
| Notes.NotesModule.HandleCanvasMouseDown | js/NotesModule.js:63-80 | When active and over a note, selects the topmost note, starts a drag and records the offset from the note's corner. Otherwise nothing changes. |
| Notes.NotesModule.HandleCanvasMouseMove | js/NotesModule.js:82-95 | While dragging, the selected note's corner follows the pointer minus the offset. Otherwise nothing changes. |
| Notes.NotesModule.BeginDrag | js/NotesModule.js:72-77 | Selects the note, starts the drag and stores where in the note it was grabbed. The invariant holds. |
| Notes.NotesModule.MoveSelected | js/NotesModule.js:89-91 | The list becomes the move of the note with that id to the new corner. The invariant holds. |
| Notes.NotesModule.HandleCanvasMouseUp | js/NotesModule.js:97-107 | Ending a drag writes the moved note into its history record and stops dragging. The selection stays. |
| Notes.CreateThenAbandon | js/NotesModule.js:174-191 | A note created by a click and then left blank is deleted again. The notes and the history are as before and only the counter has advanced. |
| QRCodes.Wrap32 | js/QRCodeModule.js:353 | `x & x` lands in the signed 32-bit range and is congruent to `x` modulo 2^32. |
| QRCodes.SourceStep | js/QRCodeModule.js:352-353 | Definition: the loop's step `((h << 5) - h) + c` followed by `h & h`, each 32-bit conversion written out. `QRCodes.SourceStepIsTimes31` proves it is `31*h + c` wrapped. |
| QRCodes.SourceStepIsTimes31 | js/QRCodeModule.js:352-353 | The source's step `((h << 5) - h) + c` wrapped to 32 bits equals `31*h + c` wrapped to 32 bits. |
| QRCodes.HashFold | js/QRCodeModule.js:348-354 | The running hash stays in the signed 32-bit range. |
| QRCodes.HashFoldIsWrappedPoly | js/QRCodeModule.js:348-354 | The loop's running hash is the polynomial hash (base 31 over the character codes) wrapped to 32 bits. |
| QRCodes.Hash | js/QRCodeModule.js:348-356 | `Math.abs` of the 32-bit hash lies between 0 and 2^31. |
| QRCodes.SimpleHash | js/QRCodeModule.js:348-356 | The loop computes the hash of the string. |
| QRCodes.InMarkerRegion | js/QRCodeModule.js:311-313 | Definition: the three 9 by 9 corner blocks the loop skips (i < 9 and j < 9; i > 15 and j < 9; i < 9 and j > 15). `QRCodes.CellsAvoidMarkers` proves they cover the painted marker squares. |
| QRCodes.CellFilled | js/QRCodeModule.js:311-318 | Definition: a cell is painted when it is outside the marker blocks and the hash of the text followed by the decimal column and row is divisible by 3. `QRCodes.FallbackCells` proves the loop paints exactly these cells. |
| QRCodes.ScannedSound | js/QRCodeModule.js:308-321 | Every cell the scan has listed lies in the 25 by 25 grid, comes before the scan point in loop order, is outside the three position markers and is filled by the hash rule. |
| QRCodes.ScannedIncreasing | js/QRCodeModule.js:308-321 | The scan lists cells in loop order (by column, then by row) without repeats. |
| QRCodes.ScannedComplete | js/QRCodeModule.js:308-321 | Every filled cell that comes before the scan point has been listed. |
| QRCodes.FallbackCells | js/QRCodeModule.js:308-321 | The nested loops list exactly the cells of the 25 by 25 grid that are outside the markers and have hash divisible by 3, in the order they are painted. |
| QRCodes.CellsAvoidMarkers | js/QRCodeModule.js:300-321 | For pictures of 75 pixels and more, no painted cell overlaps a position marker's square. |
| QRCodes.ShortText | js/QRCodeModule.js:328 | Short text is kept. Longer text is its first `limit` characters followed by `...`. |
| QRCodes.FallbackLabel | js/QRCodeModule.js:328 | The fallback caption has at most 23 characters. |
| QRCodes.PlaceholderLabel | js/QRCodeModule.js:439 | The loading caption has at most 13 characters. |
| QRCodes.ImageFor | js/QRCodeModule.js:227-243 | Definition: the image stored for each way the image step ends. A converted PNG is kept. A failed conversion keeps the service URL (js/QRCodeModule.js:378-382). A failed load gives the fallback picture labelled '載入失敗' at 150 (:385-388). An exception gives the fallback for the code's own text and size (:241). |
| QRCodes.DrawingOf | js/QRCodeModule.js:418-441 | Definition: a QR code with a data URL is drawn as that image, and one without it as the loading placeholder with its short caption. `QRCodes.StoredCodesHaveImages` proves stored codes always take the first branch. |
| QRCodes.PlacedQR | js/QRCodeModule.js:208-249 | A placed QR code is `size` by `size`, centred on the click, with the clicked text, and always carries an image. |
| QRCodes.StoredCodesHaveImages | js/QRCodeModule.js:415-443 | Every stored QR code is drawn as its image, never as the loading placeholder. |
| QRCodes.QRCodeModule.constructor | js/QRCodeModule.js:1-17 | Inactive, hidden, not placing, no QR codes, id counter 1. |
| QRCodes.QRCodeModule.Show | js/QRCodeModule.js:129-132 | The panel becomes visible. |
| QRCodes.QRCodeModule.Hide | js/QRCodeModule.js:134-138 | The panel is hidden and any placement is cancelled. |
| QRCodes.QRCodeModule.Activate | js/QRCodeModule.js:115-119 | The tool becomes active and shows its panel. |
| QRCodes.QRCodeModule.Deactivate | js/QRCodeModule.js:121-127 | The tool becomes inactive, the panel is hidden and placement is cancelled. |
| QRCodes.QRCodeModule.PrepareForPlacement | js/QRCodeModule.js:171-190 | Placement starts exactly when the trimmed input is not empty. A placement already under way stays. |
| QRCodes.QRCodeModule.AddQRToHistory | js/QRCodeModule.js:396-407 | Appends one `qrcode` record. |
| QRCodes.QRCodeModule.CreateQRCodeOnCanvas | js/QRCodeModule.js:208-249 | Appends the placed QR code, with the image the outcome selects, to both the registry and the history. The counter advances and the note records are untouched. |
| QRCodes.QRCodeModule.HandleCanvasClick | js/QRCodeModule.js:192-206 | With blank input nothing changes and placement stays armed. Otherwise one QR code of the trimmed text is placed at the click and placement ends. The note records are untouched. |
| Timers.JsRem | js/TimerModule.js:252 | JavaScript `%` by a positive divisor: the remainder has the dividend's sign, is smaller than the divisor in size, and the dividend minus it is the divisor times the quotient truncated toward zero. |
| Timers.Pad2 | js/TimerModule.js:253 | Definition: `toString().padStart(2, '0')`. `Timers.Pad2Digits` states its two digits below 100. |
| Timers.CountdownText | js/TimerModule.js:250-253 | Definition: padded minutes, a colon, padded seconds. `Timers.CountdownTextRoundTrip` and `Timers.CountdownTextLong` state its shape and that it reads back as the time. |
| Timers.StopwatchText | js/TimerModule.js:289-295 | Definition: padded minutes, seconds and centiseconds separated by `:` and `.`. `Timers.StopwatchTextRoundTrip` states that it reads back as the elapsed time. |
| Timers.StopwatchParts | js/TimerModule.js:289-293 | For non-negative times the minutes, seconds and centiseconds are in range, and together they make up the elapsed time in hundredths. |
| Timers.Pad2Digits | js/TimerModule.js:253 | A padded field below 100 is its two digits. |
| Timers.CountdownTextRoundTrip | js/TimerModule.js:250-253 | Below 100 minutes the countdown text has five characters `MM:SS`, all digits except the colon, and minutes*60+seconds read back is the time. |
| Timers.CountdownTextLong | js/TimerModule.js:250-253 | From 100 minutes on the text starts with the full minutes number and is longer than five characters: padding never truncates. |
| Timers.StopwatchTextRoundTrip | js/TimerModule.js:289-295 | Below 100 minutes the stopwatch text has eight characters `MM:SS.cc`, and it reads back as the elapsed time in hundredths. |
| Timers.FlashCanvas | js/TimerModule.js:350-365 | The flash writes seven filters: bright and normal alternately for six firings, then the original filter. |
| Timers.TimerModule.constructor | js/TimerModule.js:2-27 | Hidden, both timers at zero and stopped, countdown mode. |
| Timers.TimerModule.Show | js/TimerModule.js:155-158 | The panel becomes visible. |
| Timers.TimerModule.Hide | js/TimerModule.js:160-164 | The panel is hidden. |
| Timers.TimerModule.Toggle | js/TimerModule.js:166-172 | Visibility flips. |
| Timers.TimerModule.SwitchMode | js/TimerModule.js:174-193 | The mode becomes the chosen one. |
| Timers.TimerModule.UpdateCountdownFromInputs | js/TimerModule.js:196-203 | Sets the time to minutes*60+seconds unless a countdown is running. |
| Timers.TimerModule.StartCountdown | js/TimerModule.js:205-224 | Re-reads the inputs when no time is left. The countdown runs exactly when time is then left. |
| Timers.TimerModule.PauseCountdown | js/TimerModule.js:226-231 | Stops the countdown and keeps its time. |
| Timers.TimerModule.ResetCountdown | js/TimerModule.js:233-236 | Stops the countdown and sets the time from the inputs. |
| Timers.TimerModule.CountdownFinished | js/TimerModule.js:238-248 | Stops at zero and flashes: seven filter writes, bright and normal alternating three times, then the original filter. |
| Timers.TimerModule.CanvasText | js/TimerModule.js:333-344 | Definition: the canvas overlay shows the countdown text in countdown mode and the stopwatch text otherwise. |
| Timers.TimerModule.CountdownTick | js/TimerModule.js:216-223 | One second less. The countdown finishes on this tick exactly when one second was left. |
| Timers.RunCountdown | js/TimerModule.js:216-223 | A countdown started with `t` seconds finishes on exactly the `t`-th tick, at zero. |
| Timers.TimerModule.StartStopwatch | js/TimerModule.js:263-274 | Running, with the start time moved back by the time already shown. |
| Timers.TimerModule.StopwatchTick | js/TimerModule.js:270-272 | The time shown is the clock reading minus the start time. |
| Timers.TimerModule.PauseStopwatch | js/TimerModule.js:276-281 | Stops the stopwatch and keeps its time. |
| Timers.TimerModule.ResetStopwatch | js/TimerModule.js:283-287 | Stops the stopwatch and sets it to zero. |
| Timers.PauseAndResume | js/TimerModule.js:263-281 | Start, tick, pause, start, tick: the time shown adds only the two running periods to the earlier time. |
| App.Route | js/app.js:141-188 | A pointer event reaches the canvas's stroke operations exactly under the pen and the eraser. |
| App.StrokeFor | js/app.js:141-188 | Definition: the stroke operation each canvas listener calls. Mousedown and touchstart start a stroke, mousemove and touchmove draw, and the rest stop. `App.RouteUnderDrawingTools` states this both ways. |
| App.IsDrawingTool | js/app.js:142 | Definition: the guard that every canvas listener tests, true when `currentTool` is `'pen'` or `'eraser'`. |
| App.RouteUnderDrawingTools | js/app.js:141-188 | Under the pen and the eraser, presses start a stroke, moves draw, and releases, leaves and cancels stop it. |
| App.App.constructor | js/app.js:2-26 | The modules are created over one canvas. The pen is the tool and only its button is ringed blue. |
| App.RingColorOf | js/app.js:33-38 | Every button has a ring colour of its own (`App.RingColorsDistinct`). |
| App.RingColorsDistinct | js/app.js:33-38 | Two different buttons never share a ring colour. |
| App.ButtonOf | js/app.js:45-88 | The button each tool handler passes to `setActiveToolButton`. It is never the timer button. |
| App.ButtonOfInjective | js/app.js:45-88 | Different tools highlight different buttons. |
| App.App.SetActiveToolButton | js/app.js:28-42 | The old button loses its ring. Only the new button is ringed, in its own colour. |
| App.App.DrawingToolClicked | js/app.js:45-61 | The pen or eraser becomes the tool, every widget tool is switched off and the QR panel is hidden. No note stays selected and no drag goes on (js/NotesModule.js:39-40). |
| App.App.TextClicked | js/app.js:63-70 | The text tool becomes the tool and the only active widget tool. No note stays selected and no drag goes on (js/NotesModule.js:39-40). |
| App.App.NotesClicked | js/app.js:72-79 | The notes tool becomes the tool and the only active widget tool. |
| App.App.QRClicked | js/app.js:81-88 | The QR tool becomes the tool and the only active widget tool, with its panel shown. No note stays selected and no drag goes on (js/NotesModule.js:39-40). |
| App.App.TimerClicked | js/app.js:90-93 | Only the timer panel's visibility flips. The tool and the ring are kept. |
| App.App.QRPanelClosed | js/QRCodeModule.js:83-85 | The QR panel is hidden and placement is cancelled. |
| App.App.QRGenerateClicked | js/QRCodeModule.js:103-105 | Placement starts exactly when the input is not blank, or was already under way. |
| App.App.ClearCanvas | js/app.js:108-114 | The history and both registries are emptied, and the id counters carry on. |
| App.App.Resize | js/app.js:191-205 | After a resize the tool is what it was. |
| App.App.CanvasPointer | js/app.js:157-188 | Leave and touch events are routed by the current tool. |
| App.App.CanvasMouseDown | js/app.js:141-146 | Starts a stroke only under the drawing tools. Under the notes tool a press on a note selects the topmost one, starts a drag and stores the grab offset. Otherwise the selection, the drag flag and the offset are kept. |
| App.App.CanvasMouseMove | js/app.js:147-151 | Draws only under the drawing tools. Under the notes tool, while dragging, the selected note's corner goes to the pointer minus the grab offset. Otherwise the notes are kept. |
| App.App.CanvasMouseUp | js/app.js:152-156 | Stops a stroke only under the drawing tools. Under the notes tool a drag ends and the dragged note is written into its history record. Otherwise the drag flag and the history are kept. |
| App.App.CanvasClick | js/QRCodeModule.js:192-206 | This is the QR click handler here, with the notes click handler of js/NotesModule.js:44-61 beside it. Under the notes tool a click on a note opens its editor, a click elsewhere creates a note there, and a click while dragging does nothing. While a QR placement is pending, non-blank input places one QR code at the click and ends the placement; blank input changes nothing. Under other tools nothing changes. |
| App.ToolsExclusive | js/app.js:45-88 | At most one widget tool is active, and none under the pen and the eraser. |

## Left out

- Painting is not modelled. This covers the canvas 2D context, `drawNote` with its word wrap by measured text width, `drawQRCode`'s image drawing and `drawPositionMarker`'s nested squares. `QRCodes.DrawingOf` only says which branch `drawQRCode` takes.
- DOM panels are not modelled: the QR and timer panel construction and event binding, `updatePreview`, `clearPreview`, `updateGenerateButton` and the loading and error messages. The button handlers they bind are the methods in the table.
- The note editor's textarea is reduced to the id of the edited note. Pressing Enter blurs it, so it is the blur method. The 100 ms delay before the editor opens is not modelled.
- Network and image loading are not modelled. `generateQRCodeURL` and `encodeURIComponent` are represented by the value `ServiceUrl(text, size)`. How `imageUrlToDataURL` ends is the parameter `FetchOutcome`. Its `Threw` case covers an exception thrown in the `try` block before the QR code is pushed (js/QRCodeModule.js:220-229).
- QRCodes.QRCodeModule.CreateQRCodeOnCanvas: does not model an exception thrown after the push, by `redrawCanvas` or `hideLoadingMessage` (js/QRCodeModule.js:232-234). The `catch` block then pushes a second entry and a second `qrcode` record with the same id, and the registry invariant that QR ids are distinct would fail. Those calls paint and touch the DOM, which is not modelled.
- `createQRCodeOnCanvas` is asynchronous, and the model runs it in one step. In the source the id is taken before the `await`, so two placements pending at once may be stored in either order.
- Timers (`setInterval`, `setTimeout`) are not modelled. Each firing is a method call and `Date.now()` is a parameter. The timer's `alert` and the canvas overlay painting are not modelled. `Timers.TimerModule.CanvasText` only gives the text.
- `parseInt(...) || 0` of the timer inputs and the QR size slider are integer parameters. The slider's range is not enforced.
- Timers.TimerModule.StartCountdown: requires that the countdown is not running. Its start button is disabled while it runs (js/TimerModule.js:213), so a second interval is never started.
- Timers.TimerModule.StartStopwatch: requires that the stopwatch is not running, for the same reason (js/TimerModule.js:267).
- App.App.QRGenerateClicked: requires the QR panel to be shown, because the button lives on that panel.
- Characters are Dafny characters (Unicode scalar values). JavaScript's `length`, `substring` and `charCodeAt` count UTF-16 code units, so text outside the Basic Multilingual Plane hashes and truncates differently.
- Integers are unbounded. `Number.prototype.toString` switches to exponent notation from 10^21, which is not modelled. Coordinates are exact reals rather than doubles.
- Notes are values identified by their id. The source shares note objects between the editor, the selection and the list; the model looks them up by id, which is equivalent because ids are never reused.
- The browser's event order (mouse down, mouse up, then click) is not modelled as one sequence; each handler is a separate call. The hit testing and the QR listener's registration while placing are modelled.
- The text tool's module, the canvas module's drawing and redrawing (`CanvasModule.js`) and the background module are not part of this model. The text tool is its active flag. The canvas is the part the widget tools change: its history and its current tool.
- The colour picker, the line-width slider and the background selector in `js/app.js` only forward values to modules that are not part of this model.
