# PDF merger page: a Dafny model of its file list

The page (`script.js`) keeps one ordered list of the PDF files a user has picked or
dropped, `pdfFiles`. Files are appended on ingestion, reordered by dropping one grid
item on another, removed by dropping an item on a delete zone, and merged into one
document, in list order, when the download button is clicked with at least two files.
A counter on the page's container decides when a "drop files here" overlay is shown.

This project models that list and the rules around it:

- `splice.dfy` (module `Splice`): the two `splice` calls the page makes (remove one
  element, insert one element) and the reorder built from them.
- `entries.dfy` (module `Entries`): a file as the page sees it (name, declared media
  type, bytes) and the PDF filter of `handleFiles`. Duplicate names are allowed: two
  files that share a name and a type are still different entries when their bytes
  differ, and the PDF library may treat them differently.
- `transfer.dfy` (module `Transfer`): the index an item writes into its drag data as a
  decimal string, and which strings, used as a property key on a JavaScript array,
  name an element (canonical array-index keys).
- `merging.dfy` (module `Merging`): `mergePDFs` as a specification function `Merge`
  and as a method with the source's loop, `MergePdfs`; the download click's outcome.
  The PDF library is an oracle `load: File -> Option<seq<P>>` giving a file's pages,
  or `None` when reading, loading or copying it throws.
- `display.dfy` (module `Display`): the label shown under an item.
- `placement.dfy` (module `Placement`): where the dragover handler puts the dragged
  item in the grid.
- `overlay.dfy` (module `Overlay`): the `dragCounter` state machine as functions on a
  state value, with lemmas over event traces.
- `app.dfy` (module `App`): class `PdfMerger` holding `files`, `dragCounter` and
  `overlayShown`, with one method per handler that changes them; each method's
  postcondition gives the new state in terms of the old one through the functions
  above, and keeps `Valid()` (only PDF files are queued; a shown overlay has a drag
  inside the container).

Entries are identified by their position in the list, as the code does: the drag data
carries an index, and the reorder and delete handlers splice at that index. There is
no separate identity token per entry, and the model invents none.

The two-file minimum is checked by the download button's handler, not by `mergePDFs`:
`Merge` and `MergePdfs` accept a list of any length (an empty list merges to no pages),
and `Download` / `DownloadClick` add the gate, as the code does.

## Model

| member | source | states |
|---|---|---|
| Splice.RemoveAt | script.js:410 | `splice(i, 1)` leaves one element fewer: the ones before `i` in place, the ones after shifted down by one, and the multiset less exactly the removed element |
| Splice.InsertAt | script.js:147 | `splice(i, 0, x)` puts `x` at `i`, keeps the elements before it and shifts the rest up by one; the multiset gains exactly `x` |
| Splice.Move | script.js:145-147 | the reorder of the item drop handler: no change when the indices are equal, otherwise remove at `fromIdx` and insert at `toIdx`; specified by MoveSpec and MoveUndo |
| Splice.MoveSpec | script.js:140-150 | the reorder is the identity when the indices are equal; otherwise same length and multiset, the moved entry ends at `toIdx`, the others keep their relative order, entries outside the range between the indices stay put and those inside shift by one |
| Splice.MoveUndo | script.js:145-147 | moving back from `toIdx` to `fromIdx` restores the list |
| Entries.IsPdf | script.js:178 | a file is accepted exactly when its declared type is `application/pdf`; specified with PdfOnly, PdfOnlyCounts and PdfOnlyEmpty |
| Entries.PdfOnly | script.js:177-182 | the filter keeps only files of type `application/pdf` and never more files than it was given |
| Entries.PdfOnlyAppend | script.js:177-182 | filtering a concatenation is concatenating the filtered parts: input order is kept |
| Entries.PdfOnlyCounts | script.js:178-179 | each PDF file is kept as many times as it occurs in the input and no non-PDF file is kept |
| Entries.PdfOnlyKeepsPdfs | script.js:177-182 | a list of PDF files passes the filter unchanged |
| Entries.PdfOnlyEmpty | script.js:176-184 | nothing is added exactly when no input file is a PDF |
| Entries.PdfOnlyIdempotent | script.js:177-182 | filtering twice is filtering once |
| Transfer.ArrayIndexKey | script.js:406 | a key that names an array element is non-empty and at most 2^32 - 2 |
| Transfer.Decimal | script.js:109-110 | the string `setData` stores for an item's index, never empty; specified by DecimalIsCanonical and CanonicalIsDecimal |
| Transfer.DecimalIsCanonical | script.js:109-110 | the data an item writes for its index is a canonical decimal that denotes that index |
| Transfer.CanonicalIsDecimal | script.js:404-406 | a canonical decimal string is the one written for the number it denotes |
| Transfer.ArrayIndexKeyOfDecimal | script.js:110 | the key an item writes for index `k` reads back as `k` |
| Transfer.ArrayIndexKeyIsDecimal | script.js:406 | a key reads back as an index only if it is exactly the string written for that index |
| Merging.FirstFailure | script.js:374-383 | the first file that fails to load: every earlier file loads; no index exactly when every file loads |
| Merging.FailureMessage | script.js:382 | the error thrown for a failing file, `Failed to process <name>`; used by MergeFailsAtFirst and DownloadSpec |
| Merging.Merge | script.js:370-387 | the result of `mergePDFs`; specified by MergeSucceeds, MergeFailsAtFirst, MergeStopsAtFailure and MergeIgnoresLaterFiles, and computed by MergePdfs |
| Merging.AllPagesAppend | script.js:374-379 | the reference concatenation of pages distributes over concatenation of file lists |
| Merging.AllPagesCount | script.js:378-379 | the merged page count is the sum of the files' page counts |
| Merging.MergeSucceeds | script.js:372-386 | when every file loads, the merge yields each file's pages, file after file, in list order |
| Merging.MergeStopsAtFailure | script.js:380-383 | once the merge has thrown, the files after that point change nothing |
| Merging.MergeFailsAtFirst | script.js:374-383 | the merge fails exactly when some file fails, with `Failed to process <name>` for the first failing file in list order |
| Merging.MergeIgnoresLaterFiles | script.js:374-383 | the merge result does not depend on how the library treats files after the first failing one |
| Merging.MergePdfs | script.js:370-387 | the loop computes `Merge`: pages accumulated in list order, the first failure returned as the error |
| Merging.Download | script.js:266-321 | the outcome of the download click; specified by DownloadSpec |
| Merging.DownloadSpec | script.js:266-321 | fewer than two files is refused with the alert and nothing else; two or more files give the download `merged-pdfs.pdf` with all pages in order when every file loads, and otherwise the alert `Failed to merge PDFs: Failed to process <first failing name>` |
| Display.DisplayName | script.js:68 | the label under an item; specified by DisplayNameSpec, DisplayNameIdempotent and DisplayNameCollides |
| Display.DisplayNameSpec | script.js:68 | a name of at most 15 characters is shown as is; a longer one as its first 12 characters then `...`, 15 characters in all |
| Display.DisplayNameIdempotent | script.js:68 | shortening a label again leaves it unchanged |
| Display.DisplayNameCollides | script.js:68 | two long names with the same first 12 characters get the same label |
| Placement.InsertionPoint | script.js:128-131 | the dragged item goes after every other item whose midpoint is above the pointer and before the first one whose midpoint is at or below it, or at the end |
| Placement.InsertionPointMonotone | script.js:129-131 | a lower pointer never places the dragged item earlier |
| Placement.DragOverOrder | script.js:133-137 | the grid order after `insertBefore` or `appendChild`; specified by DragOverOrderSpec |
| Placement.DragOverOrderSpec | script.js:133-137 | the dragover produces the other items in their order with the dragged one inserted at the insertion point, losing nothing |
| Overlay.RunKeepsValid | script.js:215-246 | along any container events, a shown overlay always has a positive counter |
| Overlay.RunCounter | script.js:216-231 | without a drop, the counter moves by enters minus leaves |
| Overlay.BalancedDragHides | script.js:215-231 | a drag that leaves as often as it enters ends with counter 0 and the overlay hidden |
| Overlay.EmptyListNeverShows | script.js:219 | over an empty list the overlay is never shown |
| Overlay.OverlayTracksDrag | script.js:215-246 | over a list with files, while enters and leaves nest, the overlay is shown exactly when the counter is positive |
| Overlay.DragEnter | script.js:216-223 | `dragenter` on the counter and overlay; specified by RunKeepsValid, RunCounter, EmptyListNeverShows and OverlayTracksDrag |
| Overlay.DragLeave | script.js:225-231 | `dragleave` on the counter and overlay; specified by RunKeepsValid, RunCounter, BalancedDragHides and OverlayTracksDrag |
| Overlay.Drop | script.js:238-242 | `drop` resets the counter and hides the overlay; specified by RunKeepsValid and OverlayTracksDrag |
| App.DeleteZoneDropSpec | script.js:402-410 | a delete drop carrying the index an item wrote removes exactly that entry, keeping the others in order; any other data (empty, out of range, not an index) leaves the list unchanged |
| App.Lookup | script.js:406 | `pdfFiles[pdfIndex]` for an array-index key; specified through DeleteZoneDropSpec |
| App.DeleteZoneDrop | script.js:404-410 | the list after a delete-zone drop; specified by DeleteZoneDropSpec |
| App.PdfMerger.constructor | script.js:8 | the list starts empty, the counter at 0 and the overlay hidden |
| App.PdfMerger.HandleFiles | script.js:175-193 | appends exactly the PDF files of the input in input order, leaves the existing entries alone, and reports whether any was added |
| App.PdfMerger.DropOnItem | script.js:140-150 | the list becomes `Move(files, fromIdx, toIdx)` and stays all-PDF |
| App.PdfMerger.DropOnDeleteZone | script.js:402-425 | the list becomes `DeleteZoneDrop(files, data)` |
| App.PdfMerger.ContainerDragEnter | script.js:216-223 | counts up, and shows the overlay only when the list has files and the counter is now 1 |
| App.PdfMerger.ContainerDragLeave | script.js:225-231 | counts down, and hides the overlay when the counter reaches 0 |
| App.PdfMerger.ContainerDrop | script.js:238-246 | resets the counter to 0 and hides the overlay; ingests the dropped files only when the list already had files |
| App.PdfMerger.DownloadClick | script.js:265-281 | its outcome is `Download(files, load)`, and the list is not modified |

## Left out

- DOM and presentation: building the grid, CSS classes, animations, `setTimeout`, particles and confetti (`Math.random`), alerts as dialogs, the button's label and disabled state. The alert texts are modelled as strings in the outcome.
- Preview rendering with pdf.js (canvas, viewport, the 0.3 scale): a foreign library with floating point; a failed preview only shows a placeholder and never touches the list.
- The PDF library's internals (`PDFDocument.create`, `load`, `copyPages`, `addPage`, `save`): modelled only as the per-file page oracle. A failure of `create` or of the final `save` is not modelled.
- Reading the bytes of a file (`arrayBuffer`) is folded into the oracle: its failure is a failure of that file.
- The Blob, object URL and anchor click that start the download: browser I/O. The outcome records the file name and the merged pages instead of bytes.
- Asynchrony: every `await` is a sequential step; two renders running at once are not modelled.
- The dragover handler's reordering of the grid is modelled as a pure placement (`Placement`); it changes neither `pdfFiles` nor the indices the items were rendered with, so it has no effect on the list.
- App.PdfMerger.DropOnItem: requires both indices to name entries. Drag data that `parseInt` reads as `NaN` or as an out-of-range index (dropping something that is not a grid item onto an item) is not modelled.
- App.DeleteZoneDrop, App.DeleteZoneDropSpec, App.PdfMerger.DropOnDeleteZone: a key that is not an array index but names another property of a JavaScript array is treated as naming nothing. In the source, for `length` (on a non-empty list) and for inherited member names such as `push` or `constructor`, `pdfFiles[key]` is truthy, and `splice(parseInt(key), 1)` is `splice(NaN, 1)`, which removes entry 0. The model leaves the list unchanged for those keys instead. Only drag data that some other page writes under the item type can carry such a key.
- Transfer.ArrayIndexKeyOfDecimal: needs the index to be at most 2^32 - 2; JavaScript arrays cannot be longer, and the model's list length is unbounded.
- Display.DisplayNameSpec: JavaScript counts a name's length and takes its substring in UTF-16 code units; the model counts characters, which differs for names with characters outside the Basic Multilingual Plane.
- Event bubbling between the drop area and the container (which would ingest one drop twice) depends on markup that is not part of this model.
- The drop area's own handlers and the file picker's `change` handler only toggle a CSS class and call `handleFiles`; they are covered by `HandleFiles`.
- There is no touch or long-press deletion path in `script.js`, so none is modelled.
