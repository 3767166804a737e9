# OutfitDraw client state machine, in Dafny

OutfitDraw is a small "what do I wear today" web app. The user draws one of twelve
fixed outfit suggestions. They can then photograph themselves, add a note, and save
the result to a list of records kept in the browser's local storage. This project
models the app's single React component (`src/App.tsx`): its state fields and the
handlers that change them. It also proves what these handlers guarantee.

- `Records.dfy` (module `Records`) holds the saved record and the two list
  computations that the handlers perform. One is prepending a new record
  (`Saved`, `SavedAll`). The other is filtering records out by id (`RemoveId`).
  Lemmas cover newest-first ordering, deletion, order preservation and idempotence.
- `Suggestions.dfy` (module `Suggestions`) holds the twelve-entry catalogue and the
  pick `floor(r * 12)`. It proves that the pick is always a valid index, that each
  index gets an interval of width 1/12, and that every entry can be drawn.
- `AppState.dfy` (module `AppState`) holds the class `App`. Its fields are the
  component's state: `view`, `currentItem`, `records`, `isDrawing`,
  `capturedImage`, `note` and `showCamera`. A ghost field `persisted` stands for
  the copy in local storage. Each handler is one method. Every method keeps
  `Valid()`, which says three things:
  - the drawn item is empty or a catalogue entry;
  - the result screen only shows a catalogue entry;
  - local storage holds the current list, assuming every storage write succeeds.

  Each method also states the whole new state.

The outside world enters as parameters:
- the value of `Math.random()` is a real `r` with `0 <= r < 1`;
- `Date.now()` and `toLocaleString()` are the `id` and `date` strings passed to `SaveRecord`;
- camera acquisition is the boolean `acquired`;
- the canvas snapshot is `frame: Option<string>`, with `None` when the video
  element, the canvas or its 2D context is missing;
- the 1500 ms timer splits `drawItem` into `BeginDraw` and `FinishDraw`.

`AppState.DrawSaveDelete` is a client of the class showing one complete session on
the screens: draw, open the camera, capture, write a note, save and delete. Its
assertions follow from the handlers' contracts alone, for example that the saved
record comes back out when it is deleted. The id, date and note it uses are
example values.

Record ids come from a millisecond clock, so they need not be unique. Nothing in the
model assumes they are, and `RemoveId` removes every record that carries the id.

`saveRecord` writes `image: capturedImage || undefined`. JavaScript's `||` also
treats the empty string as false, so `MakeRecord` keeps an image only when one was
captured and it is not empty.

## Model

| member | source | states |
|---|---|---|
| Records.MakeRecord | src/App.tsx:126-132 | The new record carries the given id and date, the current item as its style, and the note. It has an image exactly when a non-empty photo was captured, and then that photo. |
| Records.RemoveId | src/App.tsx:138 | Filtering never lengthens the list. A record is in the result if and only if it was in the list and its id differs from the deleted one. |
| Records.RemoveIdCounts | src/App.tsx:138 | No copy of a record with the deleted id survives. Every other record survives exactly as many times as it occurred, duplicates included. |
| Records.RemoveIdKeepsOrder | src/App.tsx:138 | The kept records are a subsequence of the old list, so their relative order is unchanged. |
| Records.RemoveIdAppend | src/App.tsx:138 | Filtering a concatenation filters each part in place: the filter works element by element and keeps positions in order. |
| Records.RemoveAbsentId | src/App.tsx:137-139 | Deleting an id that no record carries leaves the list unchanged. |
| Records.RemoveIdIdempotent | src/App.tsx:137-139 | Deleting the same id twice gives the same list as deleting it once. |
| Records.Saved | src/App.tsx:133 | One save grows the list by exactly one: the new record heads it and the tail is the old list unchanged. |
| Records.SavedAll | src/App.tsx:133 | A run of saves, one `saveRecord` after another, grows the list by exactly the number of records saved. |
| Records.SavedAllNewestFirst | src/App.tsx:133 | Saving a batch of records one at a time yields the batch in reverse order, followed by the old list unchanged: newest first. |
| Records.LastSavedIsFirst | src/App.tsx:133 | After any non-empty run of saves, the record saved last heads the list. |
| Records.SaveThenDelete | src/App.tsx:125-139 | Deleting the id of a record just saved gives the same list as deleting that id before the save. If no older record had that id, the list is back to what it was. |
| Suggestions.PickIndex | src/App.tsx:82 | `floor(r * 12)` for `0 <= r < 1` is an index below 12, the catalogue's length, and it is the floor of `r * 12`. |
| Suggestions.Draw | src/App.tsx:82-83 | Every draw yields one of the twelve catalogue entries. |
| Suggestions.PickIndexInterval | src/App.tsx:82 | Index `i` is picked exactly when `r` lies in `[i/12, (i+1)/12)`. All twelve intervals have the same width, so the pick is uniform. |
| Suggestions.DrawReachesEvery | src/App.tsx:30-43 | Each of the twelve catalogue entries is drawn for some `r`. |
| AppState.App.constructor | src/App.tsx:48-73 | The first screen is home. The item and note start empty, there is no photo, the camera is closed and no draw is in progress. The list is the parsed stored list when parsing succeeds and empty otherwise. Local storage then holds that list. |
| AppState.App.BeginDraw | src/App.tsx:75-78 | Starting a draw sets the drawing flag and clears the photo and the note. The screen, drawn item, list and camera are unchanged. |
| AppState.App.FinishDraw | src/App.tsx:81-86 | The delayed step sets the item to catalogue entry `floor(r * 12)`, which is always in the catalogue. It clears the drawing flag and shows the result screen. The list, photo, note and camera are unchanged. |
| AppState.App.StartCamera | src/App.tsx:89-101 | The camera pane ends open exactly when the camera was acquired. Nothing else changes on either path. |
| AppState.App.CapturePhoto | src/App.tsx:103-115 | When a frame is available it becomes the captured photo and the camera pane closes. Without a frame nothing changes. |
| AppState.App.StopCamera | src/App.tsx:117-123 | The camera pane always ends closed. Nothing else changes. |
| AppState.App.ClearPhoto | src/App.tsx:222 | The photo's close button discards the captured photo. Nothing else changes. |
| AppState.App.EditNote | src/App.tsx:260 | Typing replaces the note. Nothing else changes. |
| AppState.App.SaveRecord | src/App.tsx:125-135 | The list grows by exactly one. The new head is built from the current item, photo and note, and the tail is the old list. A save from the result screen stores a catalogue entry. The records screen is shown. The item, photo, note, drawing flag and camera are unchanged, and local storage follows the list. |
| AppState.App.DeleteRecord | src/App.tsx:137-139 | The list becomes the old list without the records with that id, so none with that id remains. Everything else is unchanged, and local storage follows the list. |
| AppState.App.Navigate | src/App.tsx:145-158 | The title (line 147), the records and donate tabs (lines 153 and 156) and the back buttons (lines 286 and 367) change only the screen. None of them leads to the result screen. The list and the draw, photo, note and camera state are unchanged. |

## Left out

- `server.ts`: Google OAuth token exchange, the user-info fetch, session
  configuration, static serving and `listen`. It is library calls and I/O with no
  logic of its own. The username/password and SQLite backend is not part of this
  model.
- Rendering, animations, icons, styles and the donate buttons' `alert`s: these are
  presentation only. The `disabled` state of the home screen's draw button is not
  modelled either. `BeginDraw` has no `isDrawing` precondition because the result
  screen's redraw button is never disabled.
- The `console.error` logging when stored records fail to parse and when the camera
  cannot be opened: it is a diagnostic side effect that changes no state.
- Camera and canvas APIs (`getUserMedia`, attaching the stream, `drawImage`,
  `toDataURL`, stopping tracks): the captured image is an opaque string, and camera
  success is a parameter.
- `AppState.App.StartCamera`: models the asynchronous handler as one step. Other
  handlers that run while the camera request is pending are not interleaved, and
  neither is the failure `alert`.
- Local storage and JSON: serialisation is not modelled. The ghost field
  `persisted` only records that storage holds the current list after every change.
  A stored value that parses to something other than a list of records is not
  modelled.
- Storage failures: storage access is assumed to succeed. The source catches only
  the parse (src/App.tsx:62-66). A `getItem` or `setItem` that throws escapes the
  effect uncaught (src/App.tsx:60, 72), and storage then keeps the previous list.
  This happens when storage is disabled or when saved photos exceed the quota. The
  ghost field `persisted` models successful writes only.
- `Math.random`, `Date.now`, `toLocaleString` and the `setTimeout` delay: these are
  parameters. The random number is a real, not a double, so floating-point rounding
  of `r * 12` is not modelled.
