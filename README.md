# Spin-the-wheel: a Dafny model of the session store, the bulk imports and the wheel

This project models the logic of a browser "spin the wheel" picker. The wheel
holds a list of named, coloured items. A spin draws one of them at random. In
elimination mode, or with the "remove after spin" setting, the winner leaves the
wheel, and a single undo puts it back.

Items are added one at a time or in bulk. Bulk adds come from a CSV file or from
the lines of text recognised in images. Both bulk paths check the candidates
case-insensitively against the names already on the wheel. When some are taken,
the user adds all candidates, only the unique ones, or only the duplicates.

The modules follow the program's files:

- `Store` (`store.dfy`) is the session store, the class `Session`, with one field
  per store field and one method per action. Each action assigns the fields it
  names and nothing else. Beside it are the value-level definitions the actions
  are proved against: `Batch`, `Renamed`, `WithoutId`, `Duplicates`, `AfterSpin`
  and `AfterRedo`.
- `Palette` (`palette.dfy`) holds the fifteen colours and the choice of a colour
  by list position.
- `Ingest` (`ingest.dfy`) is the duplicate-aware tail that both imports share:
  the three-way choice and the add that follows it.
- `CsvImport` (`csv_import.dfy`) covers the CSV parser, the file-type check and
  the import flow.
- `ImageUpload` (`image_upload.dfy`) covers the line extraction from recognised
  text, the loop that gathers the lines of all images, the image-type filter and
  the import flow.
- `Wheel` (`wheel.dfy`) covers the spin guard, the winner index, the size tiers
  and the label truncation.
- `Text` (`text.dfy`) and `Seqs` (`seqs.dfy`) hold the JavaScript string and
  array operations the code relies on: `trim`, `split`, `toLowerCase`,
  `startsWith`, `endsWith`, `includes`, `filter` and the decimal `toString` of a
  number.

Parameters stand in for non-deterministic inputs:

- `Date.now()` is the parameter `now` where it is read once (`addItem`,
  `handleSpinResult`). In `addItems` it is read once per name, so a batch takes
  a clock `clock`: `clock(k)` is the reading for the name at index `k`.
- `Math.random()` is the parameter `random`, a real in [0, 1).
- What text recognition makes of an image is part of the file value
  (`ImageFile.ocrText`).
- What the file reader returns is the `content` parameter.
- The user's button in the duplicate dialog is the parameter `choice`. Closing
  the dialog through its X or its backdrop runs the "Add Unique Only" callback
  (src/components/ConfirmModal.jsx:44,53), so three values cover every outcome.

Some behaviour of the code that the model keeps:

- Item colours cycle through a fifteen-entry palette by list position.
- Deleting, or undoing a removal, never recolours anything.
- Undo does not clear `lastWinner`, so undoing twice is the same as undoing once.
- Nothing but the last winner is remembered for undo.
- Names are not validated and no action reports an error.

## Model

| member | source | states |
|---|---|---|
| Store.Session.constructor | src/store/useStore.js:4-20 | the initial state: no items, reward mode, removeAfterSpin off, sound on, not spinning, no selected item, no last winner, empty history |
| Store.NewItem | src/store/useStore.js:30-35 | the new item's id is the clock reading in decimal, its name is the trimmed name, and its colour is the palette entry for the current list length |
| Store.Session.AddItem | src/store/useStore.js:23-38 | appends exactly the new item, returns it, leaves every earlier item as it was, and keeps every colour in the palette |
| Store.BatchEntry | src/store/useStore.js:50-54 | the item made for batch index i from clock reading t has id t followed by i (both in decimal), the trimmed name, and the colour of position count + i |
| Store.Batch | src/store/useStore.js:49-54 | one item per name, in order, item i being the batch entry for index i and the clock's i-th reading; every colour comes from the palette; when the clock never goes back, ids within a batch are pairwise distinct |
| Store.BatchIdsDistinct | src/store/useStore.js:51 | ids formed from the readings of a clock that never goes back, each followed by its own index, are pairwise different |
| Store.NatToStringLonger | src/store/useStore.js:51 | a larger clock reading never has fewer decimal digits |
| Store.BackwardClockSharesId | src/store/useStore.js:51 | the distinctness needs the clock not to go back: readings 11 at index 1 and 1 at index 11 both give the id "111" |
| Store.Session.AddItems | src/store/useStore.js:42-57 | appends the batch, built with one clock reading per name, after the old items and returns it; an empty name list changes nothing; palette colouring is kept |
| Store.Renamed | src/store/useStore.js:63-65 | same length, ids and colours; exactly the items with the given id get the trimmed name, and every other item keeps its name |
| Store.RenameUnknownId | src/store/useStore.js:63-65 | renaming an id that no item has leaves the list unchanged |
| Store.RenamePreservesColors | src/store/useStore.js:64 | renaming keeps every colour in the palette |
| Store.Session.UpdateItem | src/store/useStore.js:61-67 | the list becomes the renamed list |
| Store.WithoutId | src/store/useStore.js:71 | no survivor has the id, every survivor was in the list, and every item with another id survives |
| Store.DeleteRemovesExactly | src/store/useStore.js:71 | survivors keep their order; survivors plus removed items are the old multiset; an absent id changes nothing; colours stay in the palette (no recolouring) |
| Store.OnlyItemWithId | src/store/useStore.js:71 | with unique ids, the items removed by deleting a present item's id are that item alone |
| Store.NoneWithId | src/store/useStore.js:71 | when no item has the id, deletion removes nothing |
| Store.Session.DeleteItem | src/store/useStore.js:70-72 | the list becomes the list without the id |
| Store.Session.ClearItems | src/store/useStore.js:75-77 | the list becomes empty and no other field changes |
| Store.Session.SetItems | src/store/useStore.js:80-82 | the list is replaced by the given one |
| Store.Duplicates | src/store/useStore.js:85-91 | returns some of the candidates, each one matching an existing name when both are lower-cased, and includes every candidate that matches |
| Store.DuplicatesFacts | src/store/useStore.js:87-89 | the result keeps the candidates' order, and with no items nothing is a duplicate |
| Store.DuplicatesIgnoreCase | src/store/useStore.js:86-88 | two candidates that are the same once lower-cased are either both duplicates or neither |
| Store.Session.CheckDuplicates | src/store/useStore.js:85-91 | returns the duplicates and changes no state, so repeated calls return the same result |
| Store.Session.SetGameMode | src/store/useStore.js:94-96 | sets the mode and nothing else |
| Store.Session.SetRemoveAfterSpin | src/store/useStore.js:99-101 | sets the flag and nothing else |
| Store.Session.SetSoundEnabled | src/store/useStore.js:103-105 | sets the flag and nothing else |
| Store.Session.SetIsSpinning | src/store/useStore.js:108-110 | sets the flag and nothing else |
| Store.Session.SetSelectedItem | src/store/useStore.js:112-114 | sets the selected item and nothing else |
| Store.AfterSpin | src/store/useStore.js:126-128 | the winner's id is removed exactly when removeAfterSpin is set or the mode is elimination; otherwise the list is unchanged |
| Store.Session.HandleSpinResult | src/store/useStore.js:117-129 | lastWinner becomes the winner, one record with the winner and the time is appended to the history, and the list follows AfterSpin |
| Store.AfterRedo | src/store/useStore.js:134-136 | the remembered winner is appended when there is one and no item has its id; otherwise the list is unchanged |
| Store.RedoTwiceIsRedoOnce | src/store/useStore.js:132-137 | since lastWinner is kept, a second undo right after the first changes nothing |
| Store.RedoRestoresEliminated | src/store/useStore.js:126-136 | with unique ids, undoing a removing spin appends the winner, with its old colour, after the survivors; this gives back the old multiset, and exactly the old list when the winner was last |
| Store.DeleteLast | src/store/useStore.js:71 | with unique ids, deleting the last item's id removes just that item |
| Store.RedoAfterKeptSpin | src/store/useStore.js:126-136 | after a spin that keeps the winner, undo changes nothing |
| Store.RedoPreservesColors | src/store/useStore.js:135 | undo keeps every colour in the palette |
| Store.Session.RedoLastSpin | src/store/useStore.js:132-137 | the list becomes AfterRedo of the old list and lastWinner, and lastWinner is left as it was |
| Store.Session.ResetGame | src/store/useStore.js:140-146 | the history is emptied and lastWinner and selectedItem are cleared; items, mode and flags are untouched |
| Seqs.Filter | src/store/useStore.js:71 | `Array.prototype.filter`: at most as long as the input, every element kept passes the test and comes from the input, and every passing element is kept; with FilterIsSubsequence and FilterCounts, the order is kept and each passing value occurs exactly as often as in the input, others not at all |
| Seqs.FilterIsSubsequence | src/store/useStore.js:71 | a filter's result keeps the input's order |
| Seqs.FilterCounts | src/store/useStore.js:71 | each value that passes occurs in the result as often as in the input, and a value that fails not at all |
| Palette.ColorAt | src/store/useStore.js:24-34 | the colour is a palette entry, and the entry at the position itself for the first fifteen positions |
| Palette.ColorPeriodic | src/store/useStore.js:34 | the palette has fifteen colours and the colour repeats every fifteen positions |
| Palette.ColorsDistinct | src/store/useStore.js:24-28 | positions less than fifteen apart get different colours |
| Text.Trim | src/store/useStore.js:33 | `String.prototype.trim`: the result is a slice of the input with only whitespace before and after it; it has no whitespace at either end, and it is empty exactly when the input is all whitespace |
| Text.TrimIdempotent | src/store/useStore.js:52 | trimming a trimmed name changes nothing, so re-trimming in addItems is harmless |
| Text.Lower | src/store/useStore.js:86-88 | `toLowerCase` on ASCII: same length, and each character is mapped on its own, `A`-`Z` to `a`-`z` and every other character unchanged |
| Text.NatToString | src/store/useStore.js:32 | the decimal text of a number: non-empty, all digits, denoting the number, one digit exactly below ten, and no leading zero |
| Text.NatToStringInjective | src/store/useStore.js:51 | different numbers have different decimal texts, since each text denotes its number |
| Text.SplitOn | src/components/CSVImport.jsx:40-45 | `split` on one character: at least one piece, no piece contains the separator, and joining the pieces with it gives back the text |
| Text.SplitFirstPiece | src/components/CSVImport.jsx:40 | the first piece is the text before the first separator |
| Text.SplitLines | src/components/CSVImport.jsx:34 | `split(/\r?\n/)`: one line per piece of the split at line feeds, no line contains a line feed, and the last piece stays as it is |
| Text.SplitLinesPieces | src/components/CSVImport.jsx:34 | every line but the last is its line-feed piece with one final carriage return dropped, and the last line is its piece unchanged |
| Text.SplitLinesWithoutCr | src/components/CSVImport.jsx:34 | text without carriage returns splits as it would on line feeds alone |
| Text.RemoveQuotes | src/components/CSVImport.jsx:41-45 | `replace(/['"]/g, '')`: the other characters keep their order, each occurs exactly as often as in the input, and no quote is left |
| Ingest.UniqueOnly | src/components/CSVImport.jsx:72 | keeps exactly the candidates that are not among the duplicates |
| Ingest.DuplicatesOnly | src/components/CSVImport.jsx:90 | keeps exactly the candidates that are among the duplicates |
| Ingest.PartitionByDuplicates | src/components/CSVImport.jsx:68-95 | "unique only" keeps exactly the untaken names and "duplicates only" is exactly the check's result; both keep the candidates' order; together they hold every candidate exactly once |
| Ingest.ToAddSelects | src/components/CSVImport.jsx:68-107 | what is added keeps the candidates' order; it is everything when duplicates are included, none is found, "Add All" is chosen, or the wheel is empty; "unique only" adds exactly the untaken names; "duplicates only" adds exactly the duplicates |
| Ingest.AddCandidates | src/components/CSVImport.jsx:68-107 | the names added are those ToAdd selects, and the list becomes the old list followed by their batch |
| Ingest.ToAdd | src/components/CSVImport.jsx:68-107 | every name added is a candidate; unless "duplicates only" is chosen, every untaken candidate is added; with "unique only" no taken name is added |
| Ingest.Chosen | src/components/CSVImport.jsx:72-95 | every candidate for "Add All", the candidates outside the duplicates for "Add Unique Only", and those inside them for "Add Duplicates Only"; each result is made of candidates only |
| CsvImport.NonBlankLines | src/components/CSVImport.jsx:34 | keeps the lines that are not blank once trimmed, and every such line |
| CsvImport.NonBlankLinesOrder | src/components/CSVImport.jsx:34 | the non-blank lines keep their order and each occurs exactly as often as among all the lines |
| CsvImport.CleanPiece | src/components/CSVImport.jsx:41-45 | the cleaned piece has no quote, has only characters of the piece, and has no comma when the piece has none |
| CsvImport.TrimmedChar | src/components/CSVImport.jsx:40-45 | every character of a trimmed piece occurs in the piece |
| CsvImport.FirstColumn | src/components/CSVImport.jsx:40-41 | the first column has no comma and no quote, and a line without a comma is cleaned whole |
| CsvImport.FirstColumnBeforeComma | src/components/CSVImport.jsx:40 | the first column is the cleaned text before the line's first comma |
| CsvImport.RawItems | src/components/CSVImport.jsx:36-46 | exactly one name per non-blank line when there is more than one; otherwise one name per comma-separated piece of the whole text |
| CsvImport.RawItemsClean | src/components/CSVImport.jsx:40-45 | no raw name has a comma or a quote |
| CsvImport.RawItemsShape | src/components/CSVImport.jsx:36-46 | with several non-blank lines each name is that line's first column; otherwise each name is the cleaned piece |
| CsvImport.ParseCsv | src/components/CSVImport.jsx:30-49 | every surviving name has 1 to 99 characters and no comma or quote; the survivors keep the raw names' order, and each raw name of that length occurs exactly as often as among the raw names |
| CsvImport.AcceptsCsvFile | src/components/CSVImport.jsx:138 | a file is accepted exactly when its name's last four characters are `.csv` or the letters `csv` stand in a row somewhere in its type |
| CsvImport.ImportText | src/components/CSVImport.jsx:51-107 | an empty parse only alerts and neither clears nor adds; otherwise the wheel is cleared if asked, before the duplicate check, and the ToAdd selection is appended to what is left |
| CsvImport.HandleFileChange | src/components/CSVImport.jsx:121-148 | no file does nothing; a non-CSV file or a read failure only alerts and changes nothing; a readable CSV file goes through the import |
| ImageUpload.TrimmedLines | src/components/ImageUpload.jsx:37-39 | one trimmed line per line-feed-separated piece of the text |
| ImageUpload.TrimmedLinesTrimmed | src/components/ImageUpload.jsx:39 | every trimmed line is its own trim |
| ImageUpload.ExtractLines | src/components/ImageUpload.jsx:37-40 | every extracted line has 1 to 99 characters and is already trimmed; the lines keep their order, and each trimmed line of that length occurs exactly as often as among the trimmed lines |
| ImageUpload.ProcessImage | src/components/ImageUpload.jsx:23-47 | null exactly when recognition failed; otherwise trimmed lines of 1 to 99 characters |
| ImageUpload.Outcomes | src/components/ImageUpload.jsx:60-61 | one processImage result per file, in file order |
| ImageUpload.ConcatSnoc | src/components/ImageUpload.jsx:63-64 | one more file appends its lines to allItems |
| ImageUpload.ConcatAppend | src/components/ImageUpload.jsx:58-66 | gathering two runs of files one after the other concatenates their items |
| ImageUpload.ConcatFrom | src/components/ImageUpload.jsx:58-66 | every gathered item comes from some file's lines |
| ImageUpload.ConcatHas | src/components/ImageUpload.jsx:58-66 | every line of every file's result is among the gathered items |
| ImageUpload.EmptyOutcomeAddsNothing | src/components/ImageUpload.jsx:63 | a failed or empty file contributes nothing |
| ImageUpload.ConcatClean | src/components/ImageUpload.jsx:58-66 | when every file's lines are trimmed and 1 to 99 characters long, so is everything gathered |
| ImageUpload.CleanAppend | src/components/ImageUpload.jsx:64 | appending one run of such lines to another keeps every line trimmed and 1 to 99 characters long |
| ImageUpload.AllItems | src/components/ImageUpload.jsx:58-66 | the gathered items are trimmed lines of 1 to 99 characters, and every line extracted from any file is among them |
| ImageUpload.CollectItems | src/components/ImageUpload.jsx:58-66 | the loop leaves allItems equal to the concatenation, in file order, of every non-null, non-empty line list |
| ImageUpload.ProcessAllImages | src/components/ImageUpload.jsx:49-127 | the wheel is cleared first if asked, even when no text is then found; with no text found, nothing is added; otherwise the ToAdd selection against the possibly cleared wheel is appended |
| ImageUpload.ValidFiles | src/components/ImageUpload.jsx:134 | the files whose type starts with `image/`, in selection order and each as often as selected |
| ImageUpload.IsImage | src/components/ImageUpload.jsx:134 | a file is an image exactly when the first six characters of its type are `image/` |
| ImageUpload.HandleFileChange | src/components/ImageUpload.jsx:129-146 | an empty selection does nothing; a selection with no image only alerts and changes nothing; otherwise only the image files are processed |
| Wheel.WinnerIndex | src/components/Wheel.jsx:17 | `Math.floor(random * count)` is a valid index, and it is the integer part of the product |
| Wheel.EverySegmentCanWin | src/components/Wheel.jsx:17 | every index can be drawn |
| Wheel.WinnerIndexMonotone | src/components/Wheel.jsx:17 | a larger random value never draws an earlier index |
| Wheel.SpinWheel | src/components/Wheel.jsx:11-18 | while spinning, or with no items, nothing happens; otherwise the wheel is marked spinning and the winner is the item at the drawn index, which is on the wheel |
| Wheel.CompleteSpin | src/components/Wheel.jsx:31-34 | when the animation ends, spinning stops and the winner goes through handleSpinResult |
| Wheel.DrawnWinnerRemoved | src/components/Wheel.jsx:17-18 | a drawn winner removed by the spin is gone from the wheel, the wheel is shorter, and the other items keep their order |
| Wheel.TextRadius | src/components/Wheel.jsx:72-74 | 60 for up to 10 items, 55 for 11 to 15, and 50 above 15 |
| Wheel.FontSize | src/components/Wheel.jsx:82-87 | 12 for up to 5 items, 11 for 6 to 8, 10 for 9 to 12, 9 for 13 to 15, 8 for 16 to 20, and 7 above 20 |
| Wheel.MaxLength | src/components/Wheel.jsx:90-94 | 15 for up to 8 items, 13 for 9 to 12, 11 for 13 to 15, 9 for 16 to 20, and 7 above 20 |
| Wheel.TiersNonIncreasing | src/components/Wheel.jsx:72-94 | more items never give a larger radius, font size or label length |
| Wheel.Label | src/components/Wheel.jsx:115 | a label never exceeds the maximum; it is the name exactly when the name fits; otherwise it is exactly the maximum long, the name's first max - 2 characters followed by `..` |
| Wheel.SegmentLabel | src/components/Wheel.jsx:115 | the drawn label fits the tier's maximum and is the name when the name fits |

## Left out

- Rendering, JSX, the modals, toasts, the sound and the options dialogs are left out: they are UI and hold no state logic beyond calling the store actions modelled here.
- The SVG geometry, the rotation target and the animation (src/components/Wheel.jsx:21-28, 46-66) are left out: they are floating-point trigonometry and animation.
- The coin toss and the casino lever are left out: they are randomness and timers only.
- The text recogniser (src/components/ImageUpload.jsx:25-34) and the file reader are foreign asynchronous I/O. Their outcomes are inputs: `ImageFile.ocrText`, and `content` for the reader.
- The `isProcessing` and `progress` display flags and the debug logging are left out: they have no effect on the store.
- The `onItemsExtracted` callback is not modelled separately: it receives exactly the names passed to `addItems`, which is `added` in the model.
- The CSV parse's catch path (src/components/CSVImport.jsx:109-118) is left out: the parser over strings cannot throw.
- ImageUpload.CollectItems: takes the per-file `processImage` results as input rather than calling recognition inside the loop. Recognition touches only the `progress` display flag, so the gathered list is the same.
- ImageUpload.ProcessAllImages: runs as one atomic step. In the code each recognition is awaited (src/components/ImageUpload.jsx:61), so other store actions could run between the clearing (line 55) and the duplicate check (line 85), and again while the duplicate dialog waits for the user. The model assumes none do.
- CsvImport.ImportText: likewise assumes no store action runs while the duplicate dialog waits for the user.
- Text.Lower: lower-cases ASCII letters only, not the full Unicode case mapping of `toLowerCase`.
- Text.Trim: works on characters, not UTF-16 code units, so a string with non-BMP characters has a different length from the JavaScript one. The same holds for the 100-character limits.
- Wheel.Label: counts and cuts characters, not UTF-16 code units. The code's `length` and `substring` work on code units, so its label can differ for names with non-BMP characters and can even split a surrogate pair.
- Wheel.WinnerIndex: uses exact real arithmetic for `Math.random() * items.length`, not double-precision floating point.
- Store.Batch: ids are distinct within one batch only, and only while the clock does not go back. Nothing rules out equal ids across calls in the same millisecond, and the code does not prevent them.
- Store.GameMode is a two-valued datatype rather than a string, so a mode string other than `'reward'` or `'elimination'` cannot be represented. Such a string would act like reward mode.
