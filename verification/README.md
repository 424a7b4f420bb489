# A verified model of AirSane's document pipeline

AirSane serves SANE scanners over eSCL: a client creates a scan job and asks for its
documents with NextDocument requests. This project models, in Dafny, what happens between
such a request and the bytes a client receives, and proves what the design relies on:

- **Output.** `ImageEncoder` counts lines and pages and fires hooks; `PdfEncoder` numbers
  objects on the fly, records `tellp()` offsets and writes a cross-reference table; the
  chunked response stream is flushed after every scan line; `fdbuf` writes through a
  4096-byte buffer with short and interrupted writes. The files are `FdBuf`, `Chunked`,
  `ImageEncoder`, `PdfFormat`, `PdfReader`, `PdfProofs`, `PdfProgress`, `PdfReading` and
  `PdfEncoder`. The partners of the writer are an independent reader (`PdfReader`) that starts
  from the last line of the file and follows its offsets and references only, in its own words,
  and an RFC 7230 decoder (`Chunked.Dechunk`).
- **Jobs.** `JobModel` describes scan jobs as values, with every backend a script of start
  and read results; `JobProofs` proves what every interleaving of requests, worker steps and
  cancellation keeps; `NextDocument` proves what a client sees, and `Faults` what it sees
  when the device fails; `ScanJob` and `Server` are the imperative code, proved against that
  model and composed with the output side. `Fidelity` follows every sample from the device to
  the image stream of the PDF.
- **Handoff.** `WorkerThread` is the mutex and condition-variable protocol, as a state
  machine with an inductive invariant and a progress measure; `TwoCallers` puts a second
  calling thread beside it.
- **Smaller algorithms.** `Url`, `Ticket`, `Headers`, `Dictionary`, `Pixels`, `Scanner`.

The end-to-end results are `Server.ScanWholeFeed` and `Server.ScanNextSheet`: whatever the
pattern of short and interrupted writes, a client that reads the status line, the header
fields and the chunked body from the socket receives status 200 and a PDF in which a reader
finds one page per sheet, if and only if the file keeps to the two size limits named below.
Each page has the width, height, depth and colour space of the scan, and each of its samples is
the gamma-corrected, possibly gray, value of what the device delivered. A client that gets less
than the whole body notices.

Code that updates objects or buffers in place is a class or a method over an array here,
with its `ensures` tying it to a function whose properties are proved as lemmas. Bodies use
`hide` to keep irrelevant definitions out of a proof.

## Where the code does not do what one would expect

Each of these keeps the code as it is and states exactly when the property holds.

- `Response::setHeader` with an empty value is meant to remove a header, but it erases the
  key as given instead of the normalised one: `Headers.RemovedIff`, `Headers.CapitalKeeps`.
- Length is the product of two ints, so it overflows for a page of 2^31 bytes or more, such as
  an A4 page at 4800 dpi in 24-bit colour: `PdfProofs.ImageMisread`, `PdfReading.TooLarge`,
  `PdfReading.HighResolution`.
- Cross-reference entries have exactly 20 bytes only below 10^10, so a longer file cannot be
  read: `PdfProofs.EveryObjectFound`, `PdfReading.TooLong`, `PdfReading.TenHugePages`.
- A document that is ended while a page is open, as after an aborted transfer, lists one kid
  more than its Count: `PdfReading.KidsMatchCount`, `PdfReading.TooManyKids`. A file gives its
  pages back if and only if none of the three happens: `PdfReading.ReadBack`.
- A fault of the device gives the job its own reason only if the lines read make whole pages;
  if the fault breaks off a page, the check behind it replaces the reason:
  `Faults.FirstSheetBreaks`, `Faults.FaultInFeed`.
- The transfer loop of `finishTransfer` does not always end. On a socket that never fails, and
  with image libraries that do not throw, it ends if and only if the stream is good on entry
  and scan lines have at least one byte or the encoder refuses a line (a PDF without
  resolution, a second JPEG or PNG image, a JPEG depth other than 8 and 16):
  `JobProofs.EndsIff`. Failures of socket or library only end it sooner:
  `JobProofs.AlwaysEndsIff`. A NextDocument request always hands over a stream that is good,
  because the constructor of the chunked stream makes it so (`Chunked.ChunkStream`), so the
  case of a bad stream on entry is not reachable from there.
- `executeSynchronously` can leave a caller asleep with nobody to wake it if two threads, such
  as two HTTP requests for one job, call it at the same time, in a run that trips neither
  assert of the source: `TwoCallers.OneCallAtATime`. A later call may release the waiting
  thread, but then waits in its place (`TwoCallers.FatePassesOn`); short of a spurious wakeup
  there is always one left (`TwoCallers.SomeoneStaysLeft`).
- Printing a parsed URL loses the delimiter of an empty component: `Urls.PrintAfterParse`,
  `Urls.EmptyPortIsLost`.

## Model

| member | source | states |
|---|---|---|
| `FdBuffer.FdBuf.SyncBuffer` | basic/fdbuf.cpp:53-72 | against every script of short, empty, interrupted and failing writes: success means all buffered bytes are on the descriptor in order; failure means a proper prefix of them is; without a failing write it succeeds |
| `FdBuffer.FdBuf.Overflow` | basic/fdbuf.cpp:41-51 | the byte that does not fit goes to the reserved slot, inside the 4096-byte array, and leaves with the rest |
| `FdBuffer.FdBuf.PutByte` | basic/fdbuf.cpp:31-51 | one more byte in the stream, the put pointer never reaching the end of the array |
| `FdBuffer.FdBuf.PutAll` | basic/fdbuf.cpp:41-72 | all bytes in order, or on failure a prefix of them |
| `FdBuffer.FdBuf.TellPut` | basic/fdbuf.cpp:103-111 | the put position is the number of bytes put, however syncs fell |
| `FdBuffer.FdBuf.Perform` | basic/fdbuf.cpp:25-72 | every sequence of puts and syncs against every write script: nothing lost, duplicated or reordered until a sync fails; afterwards the descriptor holds a prefix |
| `Chunked.HeadDecodes` | web/httpserver.cpp:622-634 | one encoded chunk in front of anything decodes to its data in front of what the rest decodes to; an empty chunk terminates the body (section 4.1 of RFC 7230) |
| `Chunked.DechunkEncode` | web/httpserver.cpp:617-634 | a client recovers exactly the concatenation of the chunks if and only if none of them is empty |
| `Chunked.ChunkStream.SyncChunk` | web/httpserver.cpp:622-634 | a flush turns the pending bytes into one chunk, never an empty one, and changes neither the payload nor the position |
| `Chunked.ChunkStream.Tell` | web/httpserver.cpp:635-643 | the position is the payload length, independent of flushes; -1 on a failed stream |
| `Chunked.ChunkStream.Flush` | web/httpserver.cpp:622-634 | the stream is good afterwards if and only if it was before and the socket has taken everything; nothing is lost on the way |
| `Chunked.CutBody` | web/httpserver.cpp:617-634 | a body that is cut off anywhere does not decode, so a client never takes it for a whole one |
| `Chunked.ChunkStream.Close` | web/httpserver.cpp:617-621 | the body on the descriptor decodes to exactly the bytes inserted if no write failed, and to nothing otherwise |
| `ImageEncoding.NextLine` | imageformats/imageencoder.cpp:148-151 | one more line completes the open image or extends it, with the counters the quotient and remainder of the lines written |
| `ImageEncoding.TraceStep` | imageformats/imageencoder.cpp:139-155 | the hooks of k+1 lines are those of k lines and the ones the next line fires: one document, complete groups of h lines, one open group |
| `ImageEncoding.FirstLine` | imageformats/imageencoder.cpp:142-143 | both counters are zero only before the first line, so the document begins once |
| `ImageEncoding.ImageEncoder.BeforeLine` | imageformats/imageencoder.cpp:142-145 | the document hook is due exactly before the first line, the image hook exactly at an image boundary |
| `ImageEncoding.ImageEncoder.AfterLine` | imageformats/imageencoder.cpp:148-153 | the counters stay quotient and remainder of the lines written; the hooks logged where they were called are the trace of these lines, up to the image end that is due exactly at a boundary |
| `ImageEncoding.ImageEncoder.LinesLeftInCurrentImage` | imageformats/imageencoder.cpp:177-181 | the height minus the lines of the open image |
| `PdfProofs.Pad10Reads` | imageformats/pdfencoder.cpp:281-282 | a padded offset reads back as itself, and has ten digits if and only if it is below 10^10 |
| `PdfProofs.TableEntry` | imageformats/pdfencoder.cpp:281-282 | entry i of the table stands at byte 20 i |
| `PdfProofs.StartxrefRead` | imageformats/pdfencoder.cpp:290-292 | the offset written before the end-of-file marker is the one read from the end of the file |
| `PdfProofs.ObjectAt` | imageformats/pdfencoder.cpp:318-324 | each recorded offset is where the text of that object begins, whatever follows |
| `PdfProofs.XrefRead` | imageformats/pdfencoder.cpp:276-292 | startxref leads to the cross-reference section, which gives the number of objects, the table and the trailer |
| `PdfProofs.EveryObjectFound` | imageformats/pdfencoder.cpp:276-282 | entry k of the table leads to the bytes of object k for every k, if and only if the last object begins below 10^10 |
| `PdfProofs.DefinedOnce` | imageformats/pdfencoder.cpp:218-274 | in a document of n pages each number 1 to 3n+3 is defined by exactly one object, and where |
| `PdfProofs.ImageScan` | imageformats/pdfencoder.cpp:227-233 | a reader takes as many bytes of an image stream as the printed Length says, whatever the data |
| `PdfProofs.ImageRead` | imageformats/pdfencoder.cpp:227-246 | below 2^31 bytes a reader of an image object finds the width, height, depth and colour space of the page and, between the stream marker and the end marker, exactly Length bytes, the page's data |
| `PdfProofs.NegativeLength` | imageformats/pdfencoder.cpp:232-233 | a Length that has become negative cannot be read |
| `PdfProofs.ImageMisread` | imageformats/pdfencoder.cpp:232-233 | from 2^31 bytes on, a reader that follows Length never gets the page's data |
| `PdfProofs.ContentsRead` | imageformats/pdfencoder.cpp:239-251 | the same for a page's drawing instructions |
| `PdfProofs.PageRead` | imageformats/pdfencoder.cpp:218-251 | the references of page i lead to its own image and its own contents, and its rotation and media box are the page's |
| `PdfProofs.KidsRead` | imageformats/pdfencoder.cpp:266-268 | the kids lead to the pages, in order |
| `PdfProofs.PagesRead` | imageformats/pdfencoder.cpp:262-268 | the page tree has exactly Count kids, and they are the pages |
| `PdfProofs.InfoReached` | imageformats/pdfencoder.cpp:273-287 | the trailer's Info reference leads to the information dictionary, whatever the pages |
| `PdfProofs.TreeReached` | imageformats/pdfencoder.cpp:262-287 | the trailer's Root reference leads to the catalog and from there to the page tree |
| `PdfReading.TooLong` | imageformats/pdfencoder.cpp:276-288 | a file whose last object begins at 10^10 or later cannot be read: the trailer is not where a table of 20-byte entries ends |
| `PdfReading.TooManyBytes` | imageformats/pdfencoder.cpp:276-288 | page streams of 10^10 bytes or more in all make such a file |
| `PdfReading.TenHugePages` | imageformats/pdfencoder.cpp:276-288 | concrete pages that do, each with a Length that fits |
| `PdfReading.TooLarge` | imageformats/pdfencoder.cpp:232-233 | the pages of a document are not shown if they have 2^31 bytes or more, and nothing is shown if Length is negative |
| `PdfReading.HighResolution` | imageformats/pdfencoder.cpp:232-233 | a concrete page for which nothing is shown, at a resolution scanners have |
| `PdfReading.KidsMatchCount` | imageformats/pdfencoder.cpp:262-268 | the page tree lists exactly Count kids if and only if no page is open, otherwise one more |
| `PdfReading.TooManyKids` | imageformats/pdfencoder.cpp:262-268 | a reader that wants exactly Count kids rejects a page tree with more |
| `PdfReading.ReadBack` | imageformats/pdfencoder.cpp:178-293 | for every file the encoder can end: a reader that starts at the end of the file and follows offsets and references recovers every page, with the attributes and data of its image, its contents, rotation and media box, in order, if and only if no page is open, the last object begins below 10^10, and there is no page or pages have less than 2^31 bytes; it gets nothing with a page open, past 10^10 or with a negative Length |
| `PdfProgress.SortByIdSorts` | imageformats/pdfencoder.cpp:280-280 | sorting by id gives an ordered permutation of the definitions |
| `PdfProgress.SortedDefs` | imageformats/pdfencoder.cpp:262-282 | the order of definition 2, ..., m+1, 1, m+2, m+3 sorts to 1, ..., m+3 with the offset of each, whole pages or not |
| `PdfProgress.CollectSplits` | imageformats/imageencoder.cpp:139-155 | lines are cut into pages of exactly h lines in order, none lost, with as many pages as the encoder counts images |
| `PdfProgress.PageLengths` | imageformats/pdfencoder.cpp:232-233 | every finished page stream has the declared height times bytesPerLine bytes |
| `PdfProgress.PageCompleted` | imageformats/pdfencoder.cpp:202-251 | the objects written for one more page are those of a document with one more page |
| `PdfEncoding.SwapPairsSample` | imageformats/pdfencoder.cpp:299-308 | each 16-bit sample is emitted most significant byte first (section 8.9.3 of ISO 32000-1) |
| `PdfEncoding.SwapPairsInvolutive` | imageformats/pdfencoder.cpp:299-308 | the conversion loses nothing: applied twice it gives the line back |
| `PdfEncoding.EncodedIsStored` | imageformats/pdfencoder.cpp:295-311 | of each 16-bit sample the most significant byte is stored first, and at any other depth the bytes are the line's |
| `PdfEncoding.ToBigEndian` | imageformats/pdfencoder.cpp:299-308 | the loop converts every sample of a line |
| `PdfEncoding.LineCollected` | imageformats/pdfencoder.cpp:295-311 | the objects in the file after one more line, both when it completes a page and when it does not |
| `PdfEncoding.PdfEncoder.DefineObject` | imageformats/pdfencoder.cpp:318-324 | the recorded offset of an object is where it begins, relative to the start of the document, whatever the stream carried before and however it was flushed |
| `PdfEncoding.PdfEncoder.OnDocumentBegin` | imageformats/pdfencoder.cpp:178-200 | starts an empty file at the current position, or fails without output if no resolution is set |
| `PdfEncoding.PdfEncoder.OnImageBegin` | imageformats/pdfencoder.cpp:202-234 | after n pages, opens page object 3n+2 and image object 3n+3 |
| `PdfEncoding.PdfEncoder.OnWriteLine` | imageformats/pdfencoder.cpp:295-311 | the bytes appended to the stream are the line's, each pair exchanged at 16 bits; they extend the open image and move no recorded offset |
| `PdfEncoding.PdfEncoder.OnImageEnd` | imageformats/pdfencoder.cpp:236-251 | the file then consists of the objects of n+1 complete pages |
| `PdfEncoding.PdfEncoder.WriteLine` | imageformats/imageencoder.cpp:139-155 | after any number of lines the file consists of the objects of the finished pages and of the open one, each recorded where it begins; the only failure is a missing resolution at the first line |
| `PdfEncoding.PdfEncoder.WritePageTree` | imageformats/pdfencoder.cpp:262-268 | Count is the number of images completed, and the kids are every third number up to the last object written, that of an open page included |
| `PdfEncoding.PdfEncoder.WriteCatalogAndInfo` | imageformats/pdfencoder.cpp:270-274 | the last two objects of the file, numbered after all pages |
| `PdfEncoding.PdfEncoder.WriteTable` | imageformats/pdfencoder.cpp:280-282 | one entry per definition, in the order of the numbers |
| `PdfEncoding.PdfEncoder.WriteXref` | imageformats/pdfencoder.cpp:276-292 | completes the objects of any number of pages, the last one whole or not, to a file |
| `PdfEncoding.PdfEncoder.EndDocument` | imageformats/pdfencoder.cpp:253-293 | the stream carries exactly the file over the lines written, behind what it carried before, whether or not they fill the last page; on a failed stream nothing changes |
| `Sane.Session.Start` | sanecpp/sanecpp.cpp:564-577 | takes the next scripted start result and its frame; an exhausted feeder reports no documents |
| `Sane.Session.Read` | sanecpp/sanecpp.cpp:589-609 | Good if and only if enough bytes are left to fill the whole buffer, whatever the fragments; then buffer and rest are what was left; otherwise the status is that of the failing read |
| `Pixels.PackReads` | server/scanjob.cpp:408-415 | a sample stored in a line buffer is the sample read from it, at both widths |
| `Pixels.ApplyGamma` | server/scanjob.cpp:400-416 | in place, every whole sample becomes its table value; a table of any other size changes nothing |
| `Pixels.LumaLaws` | server/scanjob.cpp:421-437 | gray stays in range without the cap, maps (v,v,v) to v and is monotone in each channel |
| `Pixels.GrayPixelAt` | server/scanjob.cpp:429-447 | sample i of the gray line is the luma of pixel i of the colour line |
| `Pixels.GrayLineIsGray` | server/scanjob.cpp:429-447 | what lies behind the line buffer does not reach the gray line if samples have 8 bits or the line has whole gray samples |
| `Pixels.SynthesizeGray` | server/scanjob.cpp:418-448 | for lines of any length, although it overwrites its input, the leading third becomes the gray line of the original contents |
| `Fidelity.GammaSample` | server/scanjob.cpp:400-416 | every sample becomes its table value, truncated to the depth, or stays if there is no table |
| `Fidelity.LumaIsNearest` | server/scanjob.cpp:421-437 | gray is 0.2126 r + 0.7152 g + 0.0722 b to the nearest integer |
| `Fidelity.LineIsFaithful` | server/scanjob.cpp:757-762 | at 8 and 16 bits, every sample of a stored line, read most significant byte first, is the corrected raw sample, or with synthesized gray the weighted mean of the three corrected raw samples of its pixel |
| `Fidelity.SheetIsFaithful` | server/scanjob.cpp:752-773 | line r of a page's image data is faithful to line r of what the device delivered for its sheet |
| `JobModel.RefusalIsFirst` | imageformats/jpegencoder.cpp:175-183 | the first line an encoder refuses, and exactly which configurations have one |
| `JobModel.Run` | server/scanjob.cpp:749-785 | for every backend script and every fate of the lines, the transfer loop ends and the job is no longer processing, also with empty lines if the encoder refuses one |
| `JobProofs.UpdateStatusSettles` | server/scanjob.cpp:474-545 | through any number of restarts: completed means images were counted and the session is closed, aborted means it is closed, processing means it is open, and the image count does not change (which fault gives which reason: `Faults`) |
| `JobProofs.BeginContract` | server/scanjob.cpp:591-607 | a begin that succeeds leaves the job processing with an open session, one that claimed the job and fails leaves no session, one on any other job changes nothing |
| `JobProofs.StepInv` | server/scanjob.cpp:749-785 | each step of a transfer keeps the job invariant, keeps "stream good or job not processing", and counts at most one image |
| `JobProofs.ApplyInv` | server/scanjob.cpp:591-798 | every request, worker step and cancellation keeps the system invariant |
| `JobProofs.EveryRunKeepsInv` | server/scanjob.cpp:468-798 | every run keeps that invariant, from any state that has it |
| `JobProofs.EveryRunFromTheStart` | server/scanjob.cpp:468-798 | in every state of every run of a new job: completed implies at least one image and no session, a single job counts at most one image and is then finished, processing implies a session and a good stream |
| `JobProofs.FinishedForever` | server/scanjob.cpp:854-867 | a finished job stays finished and counts no further image in every run |
| `JobProofs.CanceledForever` | server/scanjob.cpp:791-798 | a cancel request in any state, also in the middle of a transfer, leaves the job canceled without a session in every later state |
| `JobProofs.EndsAtBoundary` | server/scanjob.cpp:775-784 | a transfer ends pending or completed only with the encoder between two images |
| `JobProofs.RunIsIterate` | server/scanjob.cpp:749-785 | for every fate of the lines, the loop as a terminating function is the loop as iterated steps, with the number of steps it takes |
| `JobProofs.AlwaysEnds` | server/scanjob.cpp:749-785 | on a good stream with lines of at least one byte the iterated loop ends, whatever becomes of each line |
| `JobProofs.EndsAtRefusal` | server/scanjob.cpp:761-771 | empty lines do not get past a line the encoder refuses, and the exception ends the loop |
| `JobProofs.Livelock` | server/scanjob.cpp:749-785 | on a stream that is bad on entry, or with empty lines that are all taken, the loop is still processing after any number of steps |
| `JobProofs.EndsIff` | server/scanjob.cpp:749-785 | with the encoder's own checks and a socket that never fails, the loop ends if and only if the stream is good on entry and either a line has at least one byte or the encoder refuses one |
| `JobProofs.AlwaysEndsIff` | server/scanjob.cpp:749-785 | under the same condition, and no other, the loop ends for all fates that reject the lines the encoder refuses |
| `NextDocument.NextKeepsInv` | server/server.cpp:632-655 | the job invariant holds between any two requests |
| `NextDocument.SendPage` | server/scanjob.cpp:754-784 | a transfer whose encoder takes the lines of a frame sends exactly its whole lines before it ends the page |
| `NextDocument.OneSheet` | server/server.cpp:635-643 | one request on an adfSingle job sends exactly the lines of the next sheet and leaves the job pending behind it, its session open |
| `NextDocument.NotFoundForever` | server/server.cpp:635-637 | a finished job answers 404 to every request and does not change |
| `NextDocument.CanceledIsGone` | server/scanjob.cpp:791-798 | a canceled job answers 404 to every later request |
| `NextDocument.OrdinaryLines` | server/scanjob.cpp:731-747 | a device whose lines have the size its parameters say is not aborted |
| `NextDocument.OnePlatenScan` | server/server.cpp:632-655 | a platen job answers one request with the lines on the glass, ends completed with one image and the session closed, and answers 404 from then on |
| `NextDocument.SheetBySheet` | server/server.cpp:632-655 | over n good sheets an adfSingle job answers 200 exactly n times, then 409, then 404 for ever, counts n images and ends completed, or aborted if n is 0 |
| `NextDocument.FeedThrough` | server/scanjob.cpp:507-538 | the recursion through start takes all good sheets, one image each, and ends completed with the session closed |
| `NextDocument.WholeFeedInOne` | server/server.cpp:632-655 | over n good sheets an adfConcat job, which is always a PDF job, answers one request with one document of n images, ends completed with the session closed, and answers 404 from then on; an empty feeder gives 409 |
| `NextDocument.NaturalRun` | server/scanjob.cpp:761-771 | a transfer in which neither socket nor image library fails ends as the encoder's own checks determine |
| `Faults.FirstStartFails` | server/server.cpp:644-651 | a pending job of any kind whose next sheet does not start: 409 for an empty, jammed or open feeder and 503 for every other fault, the reason and feeder status of that fault, no session, and 404 from then on |
| `Faults.FirstStartIsEof` | server/scanjob.cpp:507-527 | a sheet that ends at once: 503 and still pending, or, in a concatenating job, the same as without that sheet |
| `Faults.FirstSheetBreaks` | server/scanjob.cpp:775-784 | a pending job of any kind whose next sheet breaks off: its lines are sent, the page is counted, the job is aborted with the fault's feeder status, and its reason is the fault's exactly if the lines make whole pages |
| `Faults.FaultAfterSheets` | server/server.cpp:632-655 | the same for an adfSingle job after n good sheets: the codes of all requests, and how the job ends |
| `Faults.FaultInFeed` | server/scanjob.cpp:507-545 | the same for an adfConcat job after n good sheets, in one document with all lines read |
| `Faults.NothingScanned` | server/scanjob.cpp:712-747 | a format without an encoder, or lines that do not fit it, abort the job with their own reasons before a line is read |
| `Faults.LineFails` | server/scanjob.cpp:761-771 | a line that is rejected or lost aborts the job, closes its session, and its page is not counted |
| `ScanJobs.ScanJob.UpdateStatus` | server/scanjob.cpp:474-545 | the recursive method does to job and session what the model's function says, for every status and script |
| `ScanJobs.ScanJob.BeginTransfer` | server/scanjob.cpp:591-607 | job, session and result are as the model's begin says |
| `ScanJobs.ScanJob.Cancel` | server/scanjob.cpp:791-798 | from every state the job is canceled with no session and nothing else changed |
| `ScanJobs.PrepareLine` | server/scanjob.cpp:757-760 | the bytes handed to the encoder are the gamma-corrected, possibly gray, line, of exactly the encoder's length |
| `ScanJobs.LineEncoder.WriteLine` | server/scanjob.cpp:761-762 | a line is taken if and only if the encoder's own checks and, for JPEG and PNG, its library allow it; a PDF then has one more line, any other document the bytes of the library |
| `ScanJobs.LineEncoder.ImageHooks` | imageformats/jpegencoder.cpp:175-183 | a JPEG or PNG encoder throws exactly at a second image and, for JPEG, at a depth other than 8 and 16 |
| `ScanJobs.ScanJob.HandOver` | server/scanjob.cpp:761-771 | an encoder that throws, which it does exactly for the lines it does not take, or a stream that fails aborts the job and closes its session; nothing is lost if the socket never fails |
| `ScanJobs.ScanJob.TransferLine` | server/scanjob.cpp:754-772 | one pass of the inner loop is one step of the model, its read Good exactly if a whole line is left |
| `ScanJobs.ScanJob.FinishPage` | server/scanjob.cpp:775-784 | a page end counts the image, follows the status and checks the encoder as the model does |
| `ScanJobs.ScanJob.TransferLines` | server/scanjob.cpp:752-773 | the inner loop ends at a failing read or an abort, at the place the model's transfer has reached |
| `ScanJobs.ScanJob.TransferPage` | server/scanjob.cpp:749-785 | one pass of the outer loop leads to where the model's transfer goes on, and takes a sheet if it goes on |
| `ScanJobs.ScanJob.TransferPages` | server/scanjob.cpp:749-785 | the nested loops terminate where the model's transfer ends |
| `ScanJobs.ScanJob.FinishTransfer` | server/scanjob.cpp:691-789 | the loop terminates, the job ends as the model says, the lines rejected are exactly those the encoder does not take, and on a good stream the response carries exactly the PDF file over the lines read, also after an abort inside a page |
| `Server.CollectSheets` | imageformats/imageencoder.cpp:139-155 | the lines of n good sheets make exactly n pages, page i holding the lines of sheet i |
| `Server.SheetsAreShown` | imageformats/pdfencoder.cpp:178-293 | a reader of the document over n good sheets finds n pages if and only if the last object begins below 10^10 and a page, if there is one, has less than 2^31 bytes; page i has the width, height, depth and colour space of the scan, and its data is faithful to sheet i |
| `Server.Received` | web/httpserver.cpp:701-723 | a client that reads a printed response gets its status, its type, the connection field and, with the chunked coding undone, its body |
| `Server.SendHeaders` | web/httpserver.cpp:687-723 | fails exactly for an unknown transfer coding, before anything is written; otherwise the socket carries the block with the entries the coding calls for |
| `Server.SendStatus` | server/server.cpp:644-651 | a client receives the status of a reply without body, with "close" as connection |
| `Server.SendDocument` | server/server.cpp:640-643 | on a socket that takes all bytes, the client receives the status, the type of the format and exactly what the transfer inserted; if only the header block got through, it receives that or nothing |
| `Server.HandleNextDocument` | server/server.cpp:632-655 | job and status code are as the model says for every job, script and socket; on a socket that takes all bytes the client receives that code, with an empty body or, with 200, the type and the document over the lines read; on one that fails behind the header block it never receives a truncated document |
| `Server.AnswerFailedStart` | server/server.cpp:644-651 | the client of a job whose next sheet does not start receives 409 or 503, by the fault, and no body |
| `Server.ScanWholeFeed` | server/server.cpp:632-655 | one request on an adfConcat PDF job over good sheets: the job completes, and the client receives 200, "application/pdf" and a PDF in which a reader finds one page per sheet if and only if the file keeps to its size limits; page i has the attributes of the scan and is faithful to sheet i, sample by sample |
| `Server.ScanNextSheet` | server/server.cpp:632-655 | each request on an adfSingle PDF job takes the next sheet, and the client receives 200 and a PDF in which a reader finds this sheet alone, under the same condition |
| `WorkerThread.FireKeepsInv` | basic/workerthread.cpp:39-88 | every event, spurious wakeups included, keeps mutual exclusion, one execution per call, and that a sleeping thread with something to do is about to be notified |
| `WorkerThread.EveryRunKeepsInv` | basic/workerthread.cpp:39-88 | that invariant holds after every interleaving |
| `WorkerThread.ExactlyOnce` | basic/workerthread.cpp:59-88 | calls are executed in order, and when the caller is back each was executed exactly once; both asserts of the source hold |
| `WorkerThread.NeverStuck` | basic/workerthread.cpp:39-88 | while a call, the constructor or the destructor is under way, some thread can go on without a spurious wakeup |
| `WorkerThread.RankFalls` | basic/workerthread.cpp:39-88 | every statement of either thread lowers a common rank, and a spurious wakeup raises it by at most three |
| `WorkerThread.RunsAreBounded` | basic/workerthread.cpp:39-88 | a run that asks for nothing new has at most as many events as the rank plus four per spurious wakeup |
| `WorkerThread.LeavesOnceDestroyed` | basic/workerthread.cpp:48-57 | a run that contains a destruction ends in the destructor or behind it |
| `WorkerThread.EndsWell` | basic/workerthread.cpp:48-67 | a run that can go no further has every call executed and returned, and one that contains a destruction has joined its thread |
| `TwoCallers.SerialRun` | basic/workerthread.cpp:59-67 | as long as calls of two threads do not overlap, every interleaving keeps the invariant of a single caller |
| `TwoCallers.SecondCallerOvertakes` | basic/workerthread.cpp:59-66 | a run in which a second caller gets the mutex after the first call was run and before its caller wakes |
| `TwoCallers.NotificationGoesAstray` | basic/workerthread.cpp:66-85 | the run goes on so that both calls are executed, the first caller takes the only notification, and the second one waits |
| `TwoCallers.SomeoneStaysLeft` | basic/workerthread.cpp:59-88 | once a caller was left behind, every later run without spurious wakeups leaves one behind, however many calls are made |
| `TwoCallers.FatePassesOn` | basic/workerthread.cpp:59-88 | a later call whose notification releases the waiting caller and leaves its own |
| `TwoCallers.OneCallAtATime` | basic/workerthread.cpp:59-88 | no run leaves a caller waiting with nobody to wake it if and only if calls do not overlap |
| `Dictionaries.PutGet` | basic/dictionary.cpp:105-119 | writing a key changes what is read under this key and under no other |
| `Dictionaries.EraseGet` | basic/dictionary.cpp:76-82 | erasing a key removes this key and no other |
| `Dictionaries.Dictionary.EraseKey` | basic/dictionary.cpp:76-82 | keeps keys unique and the order of the other entries |
| `Dictionaries.Dictionary.Set` | basic/dictionary.cpp:112-119 | keeps keys unique and old entries at their places |
| `Dictionaries.Dictionary.FindEntry` | basic/dictionary.cpp:52-59 | the first entry with the key, or the end |
| `Headers.SetHeaderPrintable` | web/httpserver.cpp:660-671 | setting a header keeps the store printable: unique normalised keys, non-empty values free of space |
| `Headers.RemovedIff` | web/httpserver.cpp:664-669 | an empty value removes a header if and only if it was absent or its name was given normalised |
| `Headers.CapitalKeeps` | web/httpserver.cpp:664-669 | a concrete header that an empty value does not remove |
| `Headers.HeaderLinesRead` | web/httpserver.cpp:734-749 | the reader takes printed header lines one by one, in order, and stops at the empty line |
| `Headers.HeaderRead` | web/httpserver.cpp:734-749 | a header line is stored under its name in small letters and without spaces, however it was written |
| `Headers.BadLine` | web/httpserver.cpp:735-742 | a line without carriage return or without colon makes the request invalid |
| `Headers.OneWord` | web/httpserver.cpp:730-733 | so does a first line of one word |
| `Headers.HeadersRoundTrip` | web/httpserver.cpp:701-750 | for every sequence of setHeader calls the request reader accepts the block the response prints, recovers exactly its entries in order, and stops at the body |
| `Headers.ResponseRoundTrip` | web/httpserver.cpp:715-719 | a client recovers the status number, the entries in order and the start of the body from what a response prints |
| `Headers.OutgoingPrintable` | web/httpserver.cpp:687-713 | the entries added before sending keep the store printable and the transfer coding as it was, unless it is the identity |
| `Headers.OutgoingFields` | web/httpserver.cpp:687-713 | a client finds the type as it was set, "close" as connection, the coding, and no length |
| `Headers.DocumentIsChunked` | server/server.cpp:641-642 | whatever was set before, a document goes out with its type and the chunked coding |
| `Headers.SetOther` | web/httpserver.cpp:660-671 | for names in normal form, setting one header changes this one and no other |
| `Headers.RemoveSpace` | web/httpserver.cpp:78-86 | the loop removes all white space and nothing else |
| `Headers.Response.Set` | web/httpserver.cpp:660-671 | the store changes as the model of setHeader says |
| `Headers.Response.Print` | web/httpserver.cpp:715-719 | prints the status line, every non-empty entry and the empty line |
| `Headers.ParseRequest` | web/httpserver.cpp:725-750 | the loop accepts and stores what the recursive reader does, for every input |
| `Urls.PrintAfterParse` | basic/url.cpp:51-104 | printing a parsed URL gives the input back if and only if no delimited component is empty |
| `Urls.EmptyPortIsLost` | basic/url.cpp:74-101 | a concrete URL that is not printed as it was read |
| `Urls.ParseAfterPrint` | basic/url.cpp:51-104 | parsing a printed URL gives all six components back if and only if they are well-formed |
| `Urls.AllComponents` | basic/url.cpp:51-87 | a concrete URL with all six components |
| `Urls.SkipProtocol` | basic/url.cpp:53-60 | the position behind the protocol |
| `Urls.SkipUser` | basic/url.cpp:61-73 | the position behind the user information, and its two parts |
| `Urls.ParseUrl` | basic/url.cpp:51-87 | the position-based constructor computes the six components of the specification |
| `Tickets.EntryMatches` | server/scanjob.cpp:61-70 | the pattern matches a written entry at its opening tag and yields its value |
| `Tickets.OtherEntryFails` | server/scanjob.cpp:61-70 | no position inside an entry of another name matches |
| `Tickets.EditedHolds` | server/scannerpage.cpp:44-52 | what the edited copy holds under every key |
| `Tickets.BuildScanJobTicket` | server/scannerpage.cpp:41-58 | the loop writes one element per entry of the edited copy, in order, behind the units |
| `Tickets.TicketRoundTrip` | server/scannerpage.cpp:41-58 | the job reads from the ticket the resolution for both axes, the fixed offsets, units and concat flag, nothing for the dropped keys, and the form's own value for every other key |
| `Scanners.RoundDownBounds` | server/scanner.cpp:151-155 | the last grid point not above the value |
| `Scanners.DiscretizeResolutions` | server/scanner.cpp:157-176 | strictly increasing from the minimum to the last grid point not above the maximum, all on the grid, containing every rounded 75, 150, 300, ... in between |
| `Scanners.StandardDoubles` | server/scanner.cpp:164-169 | the standard resolutions are 75 times the powers of two |
| `Scanners.StableUniqueName` | server/scanner.cpp:452-463 | terminates within one more trial than there are names, with the prefix and the first number from 1 on whose name is not taken |
| `Scanners.UniquePublishedName` | server/server.cpp:430-448 | the plain name if it is free, else the name with the first number from 2 on, in parentheses, that is, within the same bound |
| `Scanners.StablePrefixText` | server/scanner.cpp:445-451 | the prefix is the device name up to its first colon, which is added if there is none, and the model with a colon |
| `Scanners.Registry.Add` | server/scanner.cpp:441-474 | the new scanner's name differs from all others and no other name changes |
| `Scanners.Registry.Perform` | server/scanner.cpp:238-255 | after any run of creations and deletions all stable names are pairwise distinct |

## Left out

Assumptions and granularity of what is modelled:

- FdBuffer.FdBuf: a finite number of short, empty and interrupted writes, then every write accepts all; the reading side (`underflow`) is not modelled.
- WorkerThread.EveryRunKeepsInv: one caller at a time, as the assert at basic/workerthread.cpp:62 demands (`TwoCallers.OneCallAtATime` says why); the read of `mTerminate` outside the lock at line 75 is taken as atomic. `TwoCallers` models an object in use, not its construction and destruction.
- PdfEncoding.PdfEncoder: `<<` chains that contain `++mObj` are taken left to right, as the comments at imageformats/pdfencoder.cpp:218, 227 and 246 intend; C++11 does not fix that order.
- PdfEncoding.PdfEncoder.EndDocument: promises nothing about the output of a document without lines, where the source reads `mObj` before it is initialised.
- PdfEncoding.LayoutOf: the digits of formatted numbers (width and height in points, the rotation) are opaque strings, and so are the information entries, the date and the file id; a negative line count prints as 0, because no such page is ever completed.
- PdfProgress.SortByIdSorts: `std::sort` is replaced by a function proved to be a sorted permutation; ids are distinct, so the result is the only one.
- ImageEncoding.ImageEncoder: settings are fixed at construction and a destination is set; changing them inside an image, which throws, is not modelled. The log of hooks holds those of lines written: a line whose hook throws leaves none.
- ScanJobs.LineEncoder.WriteLine: what libjpeg and libpng do with a line, an exception and the bytes they insert, is a script; flushes inside libpng, which only move chunk boundaries, are not modelled.
- Sane.Session: a finite script; no documents after the last sheet, end of file when a frame runs dry, and a failing read ends its frame. Scan parameters do not change during a transfer. The result of opening the device is ignored, as the source ignores it.
- ScanJobs.ScanJob.FinishTransfer: requires a stream that is good on entry and a configuration for which the loop ends (`JobProofs.EndsIff` shows that it does not otherwise).
- JobProofs.EveryRunKeepsInv: cancellation happens between worker steps; the check-then-act pairs at server/scanjob.cpp:754-755 and 775-778 are not atomic in the source. An aborted job is claimed to have no session only after updateStatus and beginTransfer; the abort paths at server/scanjob.cpp:716, 737, 745 and 781 leave it open.
- Server.ScanWholeFeed: requires formatted values without line feeds, which is what formatting numbers yields.
- Server.HandleNextDocument: starts from a response without a transfer coding, as every response is constructed.
- Pixels.LumaLaws: the float weights are exact decimals; the gamma table is arbitrary.
- Pixels.SynthesizeGray: the source reads past a buffer that does not hold whole RGB pixels, which C++ leaves undefined; here it reads arbitrary bytes there, and a byte written behind the buffer is dropped.
- Fidelity.LineIsFaithful: for the depths 8 and 16 that the job also asked for, and a gamma table of 2^depth entries or none, which is what server/scanjob.cpp:382-398 builds; other combinations are modelled, but stated only through `ScanJobs.PreparedLine`.
- Scanners.DiscretizeResolutions: resolutions are integers.
- Tickets.TicketRoundTrip: names are alphabetic and values free of "<", so that the regular expression has one way to match.
- Headers.HeadersRoundTrip: keys are free of colons.
- PdfFormat.DeclaredLength: the overflow of height times bytesPerLine, which C++ leaves undefined, is taken as two's complement. Other ints are unbounded; the product of components, width and depth at imageformats/imageencoder.cpp:204 is taken not to overflow. Bytes are `char` values.

Parts of the repository that are not modelled:

- The SANE initialisation count, option setting and option descriptors.
- Sockets, the poll loop, signals, the purge thread and detached request threads.
- Zeroconf announcement and hotplug notification.
- HTML pages, capability and status XML, the temporary ADF status, form data decoding.
- The access file, the options and ignore files, uuid hashing, logging.
- PDF name and string encoding of the information dictionary.
