# Image-to-PDF builder: the image store and the page decisions

The application is a single browser component (`App`) that lets a user pick
image files, turn each one by quarter turns, move images into a queue and
save the queue as a multi-page PDF. Its state is two ordered lists of image
records — `images`, the records not yet queued, and `queue`, the records that
become pages — plus a selected position and the text of the file-name field.
Every button is a small, total list update.

This project models that state and its handlers in Dafny:

- `ImageData.dfy` (module `Images`): the image record (file, preview handle,
  angle), the quarter-turn rotation and what repeated rotation does.
- `ImageLists.dfy` (module `ImageLists`): each handler's list transform as a
  pure function over the pair of lists (`Store`), with lemmas on what each
  keeps, moves and loses.
- `Pdf.dfy` (module `Pdf`): the decisions of the PDF routine — which canvas an
  image is drawn on, one page per queued record in queue order, and the name
  of the saved file.
- `App.dfy` (module `Component`): the component as a class with the lists as
  fields and one method per handler. Each method replaces the fields with the
  value the matching transform computes and keeps the class invariant
  `Valid()`. `GeneratePdf` is the routine's loop, proved equal to
  `Pdf.Assemble`.

Modelling choices:

- A preview handle is `Url(n)`, where `n` counts the handles made so far
  (field `nextUrl`). The browser's object-URL factory never returns a handle
  twice, and a counter gives the same guarantee.
- A file is its name and the pixel size the browser decodes it to. The
  decoded size is what the canvas orientation decision reads.
- Angles are natural numbers. Every record starts at 0 and only ever becomes
  `(angle + 90) % 360`, so JavaScript's truncating `%` and Dafny's `%` agree.
- A placed image is an abstract `Page` record: its handle, its angle and the
  size of the canvas it was drawn on. A document is the list of pages, each
  with the images placed on it, and a file name.
- The two lists are not kept disjoint. Queueing the selected entry copies a
  record into the queue and leaves it in `images`
  (`ImageLists.AddSelectedOverlaps`). Only the handles within `images` are
  distinct, and that is part of `Valid()`.
- The file name is not trimmed. Only the empty string is replaced by
  `meu-pdf`; a name made of spaces is kept as typed. This follows the code at
  src/App.tsx:88, which neither trims the name nor treats a blank one as empty.

## Model

| member | source | states |
|---|---|---|
| `Images.Rotate` | src/App.tsx:206 | one press gives an angle below 360 with the same remainder modulo 90; a quarter-turn angle stays a quarter turn; 0→90→180→270→0 |
| `Images.RotateTimesClosedForm` | src/App.tsx:25 | n presses from any angle below 360 give `(angle + 90·n) % 360`, so a fresh record (angle 0) is at `(90·n) % 360` |
| `Images.RotateCycle` | src/App.tsx:202-209 | from a quarter-turn angle every reachable angle is in {0, 90, 180, 270}, and four more presses return to the same angle |
| `ImageLists.NewImages` | src/App.tsx:22-26 | one record per file, in file order; record i holds file i, the handle numbered first+i and angle 0 |
| `ImageLists.ImportKeepsUrlsFresh` | src/App.tsx:18-28 | appending an import keeps the image list's handles distinct and below the counter; the new handles occur neither in the old image list nor in the queue; new records are at a quarter turn |
| `ImageLists.RotateAt` | src/App.tsx:203-208 | rotating entry idx keeps the length, turns entry idx by one press and leaves every other entry equal |
| `ImageLists.RemoveAt` | src/App.tsx:57 | filtering out position k gives `s[..k] + s[k+1..]` when k is a position of s, and s unchanged otherwise |
| `ImageLists.RemoveAtMultiset` | src/App.tsx:56-58 | removing a position loses exactly the record at that position and nothing else |
| `ImageLists.RemoveAtKeeps` | src/App.tsx:46 | removing a position keeps handles distinct, below the counter and at quarter turns, and adds no handle |
| `ImageLists.UrlFilter` | src/App.tsx:39 | the kept records are exactly those of the input whose handle is (or is not) in the given set |
| `ImageLists.UrlFilterPartition` | src/App.tsx:38-41 | the records with and without a queued handle together are, as a multiset, exactly the input |
| `ImageLists.UrlFilterSingle` | src/App.tsx:39 | a one-record list keeps its record exactly when the record's handle passes the test |
| `ImageLists.UrlFilterAppend` | src/App.tsx:39-41 | filtering a concatenation is the concatenation of the filtered parts, in order; with `UrlFilterSingle` this fixes the filter's result completely |
| `ImageLists.UrlFilterOrder` | src/App.tsx:39-41 | two passing records keep their relative order in the result |
| `ImageLists.UrlFilterDistinct` | src/App.tsx:41 | filtering a list with distinct handles leaves distinct handles |
| `ImageLists.Include` | src/App.tsx:225-229 | entry idx whose handle is not queued is appended to the queue and position idx leaves the image list, order kept; a queued handle leaves both lists unchanged; no record is lost or copied |
| `ImageLists.IncludeNeverDuplicates` | src/App.tsx:175-181 | after an include the handle is queued, so including any entry with that handle again changes nothing; a queue without repeated handles keeps that property |
| `ImageLists.IncludeKeepsDisjoint` | src/App.tsx:177-179 | when no handle was in both lists, none is after an include |
| `ImageLists.IncludeAll` | src/App.tsx:37-42 | the old queue is a prefix of the new one; the appended part holds exactly the images whose handle was not queued; the image list keeps exactly the images whose handle was queued |
| `ImageLists.IncludeAllConserves` | src/App.tsx:38-41 | every old image lands in exactly one of the two new lists and the old queue is kept: the multiset of all records is unchanged |
| `ImageLists.IncludeAllKeepsOrder` | src/App.tsx:39-41 | of two images whose handles the queue lacked, the earlier one is appended before the later one; of two whose handles it had, the earlier one stays before the later one in the image list |
| `ImageLists.IncludeAllWhenDisjoint` | src/App.tsx:39-41 | when the lists share no handle, the image list becomes empty and the queue becomes old queue followed by all images in order |
| `ImageLists.IncludeAllIdempotent` | src/App.tsx:37-41 | pressing include-all a second time changes nothing |
| `ImageLists.IncludeAllKeepsQueueDistinct` | src/App.tsx:38-40 | with distinct handles in both lists, the new queue has no repeated handle |
| `ImageLists.AddSelectedOverlaps` | src/App.tsx:31-35 | queueing the selection appends `images[selected]` and makes no check for a repeated handle: afterwards the two lists share a handle, and the include button on that entry does nothing |
| `Pdf.CanvasSize` | src/App.tsx:100-106 | a quarter-turn angle that is an odd multiple of 90 transposes the canvas, every other angle keeps it; the area is unchanged |
| `Pdf.CanvasAfterTurns` | src/App.tsx:98-106 | a fresh record pressed n times is drawn transposed exactly when n is odd |
| `Pdf.Render` | src/App.tsx:94-118 | a placed image comes from the record's own handle, keeps its angle, and its canvas is the decoded size, transposed exactly for 90 and 270 degrees |
| `Pdf.Pages` | src/App.tsx:68-86 | one page per queued record; page i holds the image of record i alone |
| `Pdf.FileName` | src/App.tsx:88 | the name ends in ".pdf"; before it stands the field's text whenever that is non-empty (spaces included), and "meu-pdf" when it is empty |
| `Pdf.Assemble` | src/App.tsx:64-88 | nothing exactly when the queue is empty; otherwise as many pages as queued records, page i from record i, saved under `FileName` |
| `Component.App.constructor` | src/App.tsx:11-14 | both lists empty, no selection, file-name field "meu-pdf" |
| `Component.App.HandleFileChange` | src/App.tsx:18-29 | no file list changes nothing; otherwise the image list gains `NewImages` at its end with fresh handles; queue, selection and name unchanged |
| `Component.App.RotateImage` | src/App.tsx:202-209 | the image list becomes `RotateAt` of the old one; the invariant is kept |
| `Component.App.IncludeImage` | src/App.tsx:175-181 | the two lists become `Include` of the old ones (double-click and include button alike) |
| `Component.App.AddToQueue` | src/App.tsx:31-35 | no selection changes nothing; otherwise `images[selectedIndex]` is appended to the queue with no check for its handle, and the image list is unchanged |
| `Component.App.AddAllToQueue` | src/App.tsx:37-42 | the two lists become `IncludeAll` of the old ones |
| `Component.App.RemoveSelectedImage` | src/App.tsx:44-48 | the image list loses exactly the selected position and the selection is cleared |
| `Component.App.RemoveAllImages` | src/App.tsx:50-54 | both lists empty and the selection cleared |
| `Component.App.RemoveFromQueue` | src/App.tsx:56-58 | the queue becomes `RemoveAt` of the old one: exactly position `index` is lost (none when out of range); the image list is unchanged, so the record is not returned to it |
| `Component.App.ClearQueue` | src/App.tsx:60-62 | the queue is empty; the image list is unchanged |
| `Component.App.SetPdfName` | src/App.tsx:325 | the file-name field holds what was typed |
| `Component.App.GeneratePdf` | src/App.tsx:64-89 | the loop (one blank page at the start, a page added for every record but the first, each image placed on the last page) yields exactly `Pdf.Assemble(queue, pdfName)` |

## Left out

- Rendering, inline styles and the button that opens the file chooser: presentation only.
- The object-URL factory and `File`: browser APIs, modelled as a counter of handles and a record of name and pixel size.
- Loading an image through a promise that only listens for success: asynchronous browser I/O. A file that fails to decode makes the routine wait forever; the model assumes every file decodes to its recorded size.
- Drawing on the canvas (translate, rotate by the angle in radians, draw, encode as PNG): floating-point graphics. A placed image is reduced to its handle, angle and canvas size.
- The fit ratio against the page size and the scaled width and height: floating-point arithmetic against the PDF library's page size.
- The PDF library itself (image properties, adding pages and images, saving): a foreign library. The document is a list of pages plus a file name.
- `async`/`await` in the PDF routine: its loop is modelled as ordinary sequential iteration.
- Setting `selectedIndex` to a position: the code never does, so the selection buttons are unreachable. `Component.App.AddToQueue` and `Component.App.RemoveSelectedImage` are modelled anyway.
- Component.App.AddToQueue: requires a set selection to be a position of the image list; past the end the code would read `undefined` and queue it, which has no counterpart among image records.
