# geo-import: polygon values, the KMZ decoder and summary path selection

This project models three pieces of the geo-import service in Dafny:

- **The SoQL polygon value** (`polygon.dfy`, module `Polygon`). A polygon is a sequence of rings, and each ring is a sequence of positions. Positions are a type parameter, so no floating point appears. The model covers the two type tags, `mapCoordinates` (used for reprojection) and `vertexCount`.
- **The KMZ decoder** (`kmz.dfy`, module `Kmz`; `pathname.dfy`, module `PathName`). This is a duplex stream:
  - Uploaded bytes are buffered into a scratch archive file.
  - Once that file is complete, the archive is opened as a ZIP.
  - Every `.kml` member is piped into the KML decoder.
  - The decoded features are pushed out under back-pressure.

  The model is an explicit state machine. `KmzState` is the state, `KmzEvent` lists what can happen to the decoder (the handlers' triggers), and `Step`/`Run` are the transitions. `PathName.Extname` models Node's POSIX `path.extname`, which the entry filter uses.
- **The summary service** (`summary.dfy`, module `Summary`). It covers:
  - how the `X-Blob-Length` header is read;
  - `_fullSummary`;
  - the branch in `post` that picks one of four paths: error, full merge, decoder summary, or abbreviated first-datum summary;
  - the responses a request produces as the decoder, merger and summarizer report back, including the once-only error responder.

`values.dfy` (module `Values`) holds the `Option`/`Result` wrappers.

Behaviour of the code that the model keeps as written:

- Every `.kml` member is piped into the same KML decoder instance, created once in the constructor (es6-lib/decoders/kmz.js:36, 58). Each pipe adds its own `data`, `error` and `end` listeners to that decoder. So with `n` members attached, one decoded feature is pushed `n` times (`TwoMembersPushTwice`), and one KML error is emitted `n` times. A separate decoder per member would push each feature once.
- Two `_read` calls before `readable` each register a `once('readable')` listener. When the archive file finishes, the start routine then runs twice and opens the archive twice (`TwoEarlyReadsStartTwice`).
- A `_read` that arrives after the archive file finished, while Node's `emittedReadable` flag is still unset, waits for a `readable` that was already emitted. Nothing starts unless a later `_read` sees the flag set (`LateReadNeverStarts`).
- End of output is pushed only from the KML decoder's `end` handler, and only if `entriesRead === entryCount` at that moment. An archive without `.kml` members therefore never ends (`NoKmlNeverEnds`).
- Emitting `error` does not stop the KMZ stream. Later events are still handled (`ErrorDoesNotEnd`).
- In `post`, only the error responder is wrapped in `_.once`; `ok` is not. After an error, the merger's `end` still calls `ok` a second time (`OkAfterErrorStillResponds`).
- All values are immutable Dafny values. The source's `mapCoordinates` returns a bare nested array of new rings; the Dafny `MapCoordinates` wraps those rings in a `SoQLPolygon` and never alters its argument.

## Model

| member | source | states |
|---|---|---|
| `Polygon.ColumnTagIsLowerTypeName` | es6-lib/soql/polygon.js:4-10 | every polygon has type name `Polygon` and column tag `polygon`, and the tag is the name in lower case |
| `Polygon.MapCoordinates` | es6-lib/soql/polygon.js:12-14 | the result has as many rings as the input, each ring keeps its length, and position `j` of ring `i` is `f` of the input's position `j` of ring `i` |
| `Polygon.MapCoordinatesInOrder` | es6-lib/soql/polygon.js:13 | flattening the mapped polygon ring by ring equals mapping `f` over the flattened input, so the mapped positions appear in ring order, then position order |
| `Polygon.MapCoordinatesIdentity` | es6-lib/soql/polygon.js:13 | mapping with the identity returns an equal polygon |
| `Polygon.MapCoordinatesCompose` | es6-lib/soql/polygon.js:13 | mapping with `f` and then `g` equals mapping once with `g` after `f` |
| `Polygon.VertexCount` | es6-lib/soql/polygon.js:16-18 | the vertex count is the number of positions over all rings, and 0 for a polygon with no rings |
| `Polygon.RingSumIsPositionCount` | es6-lib/soql/polygon.js:17 | the sum of ring lengths equals the length of the concatenated rings |
| `Polygon.VertexCountAddRing` | es6-lib/soql/polygon.js:16-18 | adding a ring raises the vertex count by that ring's length |
| `Polygon.MapCoordinatesKeepsVertexCount` | es6-lib/soql/polygon.js:12-18 | mapping with any function leaves the vertex count unchanged |
| `Polygon.Wgs84FixtureUnchanged` | test/merger.js:287-302 | the two-ring WGS84 fixture has 10 vertices and an identity reprojection returns it unchanged |
| `PathName.Extname` | es6-lib/decoders/kmz.js:86 | a non-empty extension starts with a dot, contains no further dot, is a proper suffix of the last path component |
| `PathName.IsKmlEntry` | es6-lib/decoders/kmz.js:86 | an accepted name's last component ends in `.kml` with at least one character before it (the converse is `KmlEntryCharacterized`) |
| `PathName.KmlEntryCharacterized` | es6-lib/decoders/kmz.js:86 | an entry passes the `.kml` filter exactly when its last path component ends in `.kml` and has at least one character before that dot |
| `PathName.ExtnameOfPlainName` | es6-lib/decoders/kmz.js:86 | for a slash-free name `stem.ext` with a non-empty stem and an `ext` without `.` or `/`, the extension is `.ext`, except for the name `..` |
| `PathName.KmlFilterAcceptsKml` | es6-lib/decoders/kmz.js:86 | an entry named `doc.kml` passes the filter |
| `PathName.KmlFilterIsCaseSensitive` | es6-lib/decoders/kmz.js:86 | `doc.KML` does not pass: the comparison with `.kml` is case-sensitive |
| `PathName.KmlFilterIgnoresFolders` | es6-lib/decoders/kmz.js:86 | `files/doc.kml`, a member inside a folder of the archive, passes the filter |
| `PathName.KmlFilterSkipsDotFile` | es6-lib/decoders/kmz.js:86 | a bare `.kml` has no extension (a leading dot does not start one), so it does not pass |
| `PathName.LastDotIsLast` | es6-lib/decoders/kmz.js:86 | the index `LastDot` returns, when not -1, holds a dot, and no dot follows it |
| `PathName.LastDotOfSuffix` | es6-lib/decoders/kmz.js:86 | a dot with no dot after it is the one `LastDot` finds; the extension starts there only when that index is above 0 and the component is not `..` |
| `PathName.BasenameOfPlainName` | es6-lib/decoders/kmz.js:86 | a slash-free entry name is its own last path component |
| `Kmz.KmzCapabilities` | es6-lib/decoders/kmz.js:39-41 | the decoder claims exactly the KMZ media type, and (lines 110-112) never summarizes quickly |
| `Kmz.OnBuffered` | es6-lib/decoders/kmz.js:52-54 | the first buffered callback after finish marks the file buffered and runs every waiting start (none is lost or added); otherwise nothing changes |
| `Kmz.OnRead` | es6-lib/decoders/kmz.js:98-104 | a `_read` starts now exactly when not pushing and `readable` was emitted, registers a waiting start exactly when not pushing and it was not, and does nothing while pushing |
| `Kmz.OnInnerData` | es6-lib/decoders/kmz.js:62-68 | a live KML decoder's feature is appended once per attached listener and nothing else is output; a refused push pauses; end and errors are untouched |
| `Kmz.OnInnerEnd` | es6-lib/decoders/kmz.js:70-74 | end of output is pushed exactly when a live KML decoder ends after every entry was read; no feature or error is added |
| `Kmz.Step` | es6-lib/decoders/kmz.js:43-104 | pushed output and emitted errors only grow, the start count never drops, and end of output and `_isPushing` stay set |
| `Kmz.StepFrame` | es6-lib/decoders/kmz.js:43-104 | only `_read` and the buffered callback touch the start routine's state; only writes, finish and buffered touch the intake; only KML data pushes output; only the KML end ends it; only an opened entry stream adds a listener set |
| `Kmz.Run` | es6-lib/decoders/kmz.js:43-104 | over any sequence of events, output and errors only grow, the start count never drops, and end of output stays pushed |
| `Kmz.RunAppend` | es6-lib/decoders/kmz.js:43-104 | running two event sequences one after the other equals running their concatenation |
| `Kmz.WriteBuffersChunk` | es6-lib/decoders/kmz.js:43-45 | before the writable side finishes, a chunk is appended to the archive file and nothing else changes |
| `Kmz.ArchiveHoldsWrittenChunks` | es6-lib/decoders/kmz.js:43-45 | after a sequence of writes, the archive file holds exactly those chunks in order, and nothing else has changed |
| `Kmz.FinishThenBufferedStarts` | es6-lib/decoders/kmz.js:47-54 | write-side finish closes the archive file; the file's finish marks it buffered, emits `readable`, and runs every waiting start; output and archive state are untouched |
| `Kmz.NoBufferedBeforeFinish` | es6-lib/decoders/kmz.js:47-50 | the archive file cannot finish before the writable side has closed it: as a whole `Step`, a buffered event before finish leaves every part of the state unchanged |
| `Kmz.ReadDefersUntilReadable` | es6-lib/decoders/kmz.js:98-100 | a `_read` before `readable`, while not pushing, registers one more waiting start and starts nothing |
| `Kmz.ReadAfterReadableStarts` | es6-lib/decoders/kmz.js:101-103 | a `_read` with `readable` already emitted, while not pushing, runs the start routine once and sets `_isPushing` |
| `Kmz.ReadWhilePushingDoesNotStart` | es6-lib/decoders/kmz.js:98-104 | once `_isPushing` is set, `_read` changes nothing |
| `Kmz.StartsBoundedByReads` | es6-lib/decoders/kmz.js:98-104 | starts plus waiting starts grow by at most the number of `_read` calls |
| `Kmz.PushingNeverRestarts` | es6-lib/decoders/kmz.js:77-78 | when pushing with no waiting listener, no sequence of events runs the start routine again |
| `Kmz.TwoEarlyReadsStartTwice` | es6-lib/decoders/kmz.js:99-100 | two `_read` calls before `readable`, then finish and buffering, run the start routine twice |
| `Kmz.LateReadNeverStarts` | es6-lib/decoders/kmz.js:98-100 | after buffering, without a `_read` that sees `emittedReadable` set, nothing ever starts |
| `Kmz.ArchiveOpenedRecordsDirectory` | es6-lib/decoders/kmz.js:79-85 | once the start routine has run, the first successful open records the archive's entry count with no entry read yet, changing nothing else; a later open callback changes nothing |
| `Kmz.NonKmlEntrySkipped` | es6-lib/decoders/kmz.js:85-86 | an entry that fails the filter is only counted as read; nothing else changes |
| `Kmz.KmlEntryRequested` | es6-lib/decoders/kmz.js:85-92 | a `.kml` entry is counted as read and its read stream is requested; nothing else changes |
| `Kmz.EntryOpenedAttaches` | es6-lib/decoders/kmz.js:88-91 | an opened `.kml` read stream uses up one requested open and attaches one more listener set to the shared KML decoder; nothing else changes |
| `Kmz.StartAndOpen` | es6-lib/decoders/kmz.js:47-104 | from a fresh decoder, an early `_read`, the upload finishing and the archive opening leave the routine started once, nothing waiting, and the entry count recorded with nothing pushed |
| `Kmz.AttachTwoKml` | es6-lib/decoders/kmz.js:85-91 | in a two-entry archive, two entries that pass the filter and their two opened streams leave both entries read and two listener sets attached, with nothing pushed |
| `Kmz.TwoAttachedPushTwiceThenEnd` | es6-lib/decoders/kmz.js:62-74 | with both entries read and two listener sets attached, one feature is pushed twice and the KML decoder's end then ends the output |
| `Kmz.TwoKmlMembersFromStart` | es6-lib/decoders/kmz.js:43-104 | the duplicate push is reachable from a fresh decoder: for any two names that pass the filter, the event trace early `_read` (before `readable`), write-side finish, archive-file finish, archive open with two entries, the two entries, and their two opened streams reaches two attached listener sets, pushes one feature twice, and ends |
| `Kmz.InnerDataBackpressure` | es6-lib/decoders/kmz.js:62-68 | a KML feature is pushed once per attached listener; a refused push pauses the entry stream; an accepted push leaves the paused flag as it was |
| `Kmz.SingleMemberPushesOnce` | es6-lib/decoders/kmz.js:62-63 | with one member attached, a feature is appended to the output exactly once |
| `Kmz.TwoMembersPushTwice` | es6-lib/decoders/kmz.js:57-63 | with two members piped into the shared KML decoder, a feature is appended twice |
| `Kmz.DrainResumes` | es6-lib/decoders/kmz.js:64-67 | `drain` resumes the entry stream; a refused push followed by `drain` leaves it running |
| `Kmz.EndOnlyFromInnerEnd` | es6-lib/decoders/kmz.js:70-74 | if an event pushes end of output, it is the KML decoder's `end`, with a member attached and entries read equal to entry count |
| `Kmz.InnerEndAfterLastEntryEnds` | es6-lib/decoders/kmz.js:70-74 | the KML decoder's `end` after the last entry was read pushes end of output |
| `Kmz.StepWithoutKmlStream` | es6-lib/decoders/kmz.js:56-86 | with no member attached or requested, any event other than a `.kml` entry attaches nothing, pushes nothing and does not end |
| `Kmz.NoKmlNeverEnds` | es6-lib/decoders/kmz.js:70-86 | an archive whose entries all fail the `.kml` filter never pushes a feature or end of output |
| `Kmz.ErrorsForwarded` | es6-lib/decoders/kmz.js:59-89 | errors from opening the archive, from the open archive, and from opening an entry are appended as this stream's errors; a KML decoder error is appended once per attached listener |
| `Kmz.ErrorDoesNotEnd` | es6-lib/decoders/kmz.js:59-61 | a KML decoder error does not end the output and leaves the archive state alone |
| `Summary.DecimalRoundTrip` | es6-lib/services/summary.js:19 | reading back the decimal spelling of a length gives that length |
| `Summary.ReadBlobLength` | es6-lib/services/summary.js:17-18 | the header counts as missing exactly when it is absent or empty |
| `Summary.HeaderRoundTrip` | es6-lib/services/summary.js:17-19 | a header holding the decimal spelling of `n` reads as length `n` |
| `Summary.FullSummary` | es6-lib/services/summary.js:14-20 | the result is falsy-undefined exactly when the header is missing, and true exactly when a length is present and below the threshold |
| `Summary.SelectPath` | es6-lib/services/summary.js:32-74 | error path iff lookup failed; full merge iff lookup succeeded, `_fullSummary` is truthy and the decoder cannot summarize quickly; decoder summary iff not truthy and not quick; abbreviated iff quick |
| `Summary.NoHeaderNoFullMerge` | es6-lib/services/summary.js:17-18 | without the header, or with an empty one, the full merge is never chosen |
| `Summary.FullMergeExactlyWhenSmall` | es6-lib/services/summary.js:19 | for a decoder that is not quick and a numeric header `n`, the full merge is chosen iff `n` is below the threshold; otherwise the decoder summarizes |
| `Summary.QuickIgnoresSize` | es6-lib/services/summary.js:41-58 | a quick decoder takes the abbreviated path whatever the header and threshold |
| `Summary.FullMergeMonotone` | es6-lib/services/summary.js:19 | if an upload of `n2` bytes gets the full merge, so does any smaller upload |
| `Summary.KmzSummaryPath` | es6-lib/services/summary.js:41-57 | a KMZ upload takes the full merge or the decoder summary, never the abbreviated path, and takes the full merge exactly when its length is below the threshold |
| `Summary.OnErr` | es6-lib/services/summary.js:27-30 | the first call appends one error response and marks the responder used; every later call changes nothing |
| `Summary.Respond` | es6-lib/services/summary.js:35-39 | `ok` adds one 200 call with the body whether or not an error was answered, and adds no error response |
| `Summary.OnSummarized` | es6-lib/services/summary.js:54-57 | a summarize callback goes to `onErr` for an error (answered only if none was) and to `ok` for a summary; without a `summarize` call nothing happens |
| `Summary.Post` | es6-lib/services/summary.js:23-57 | the chosen path matches the branch; a failed lookup responds with its error; otherwise no response yet; the decoder's `summarize` has been called exactly when the path is the decoder summary |
| `Summary.Handle` | es6-lib/services/summary.js:41-74 | an event never changes the path, only appends responses, and never unmarks the error responder |
| `Summary.HandleAll` | es6-lib/services/summary.js:41-74 | over any sequence of events, the path stays fixed and responses are only appended |
| `Summary.HandleKeepsErrorCount` | es6-lib/services/summary.js:27-74 | every listener keeps the number of error responses equal to 1 when `onErr` has fired and 0 otherwise |
| `Summary.AtMostOneErrorResponse` | es6-lib/services/summary.js:27-30 | whatever the decoder, merger and summarizer report, the error responses number one if the responder ran and none otherwise, so never more than one |
| `Summary.PostErrorCount` | es6-lib/services/summary.js:27-33 | every request `post` starts gets at most one error response over any sequence of events |
| `Summary.LookupErrorShortCircuits` | es6-lib/services/summary.js:32-33 | a failed decoder lookup takes the error path, responds with that error, never calls `summarize`, and ignores every later event |
| `Summary.EpipeIgnored` | es6-lib/services/summary.js:70-72 | on the abbreviated path, an `EPIPE` decoder error changes nothing |
| `Summary.FirstDatumSummarizes` | es6-lib/services/summary.js:63-68 | on the abbreviated path, the first datum pauses the decoder and calls `summarize` once, with no response yet |
| `Summary.AbbreviatedSummarizesAtMostOnce` | es6-lib/services/summary.js:63-68 | on the abbreviated path, `summarize` is called at most once, however many data arrive |
| `Summary.FirstErrorWins` | es6-lib/services/summary.js:27-30 | of a decoder error followed by a merger error, only the first is answered |
| `Summary.OkAfterErrorStillResponds` | es6-lib/services/summary.js:35-51 | after a decoder error, a merger `end` still calls `ok` a second time, because `ok` is not once-only |

## Left out

- Node stream machinery is left out. That covers `Duplex` buffering, `pipe`, high-water marks and `_readableState`. Its effects appear only as events (`KmzEvent`) and as facts those events carry: whether `push` accepted a datum, and Node's `emittedReadable` flag at a `_read`.
- The ZIP reader (yauzl), the scratch-file allocation (`Disk`) and the uuid file name are foreign libraries and I/O. Opening the archive, its entries and their read streams are events; archive contents are never parsed.
- The KML decoder, the merger, the GeoJSON decoder and the other SoQL types are not part of this model.
- `summarize` on the KMZ decoder only forwards its callback to the KML decoder (es6-lib/decoders/kmz.js:106-108). The KML decoder is not modelled, so there is nothing of its own to state.
- Reprojection and the floating-point coordinate checks of the merger tests are left out. `MapCoordinates` takes any function, so reprojection is one instance.
- Kmz.Step: the start routine may run more than once (`TwoEarlyReadsStartTwice`), and each run opens its own archive handle. Only one handle's counters are tracked. Events of a second handle are not told apart.
- Kmz.Step: events that cannot occur in a state leave that state unchanged. Examples are an entry before the archive is open, or data from a KML decoder nothing was piped into. So is a write after the writable side finished, which Node rejects before `_write` runs.
- Kmz.Step: the `drain` listener is registered on the stream's pipe destination. The case where the stream has no destination, in which that lookup fails, is not modelled.
- Kmz.Step: the timing of pushes after end of output, and Node's errors for them, are not modelled.
- Summary.ReadBlobLength: only plain decimal digit strings are read as lengths. JavaScript's string-to-number conversion also accepts surrounding white space, a sign, a fraction, an exponent and hex/octal/binary prefixes; those headers are read here as not-a-number, which compares false.
- Summary.Handle: decoder errors on the decoder-summary path have no listener in `post`, and neither do merger events off the full-merge path. Emitting `error` with no listener throws in Node; these events are assumed not to occur, and the model leaves the request unchanged if they do.
- Summary.Post: a second send on a response that was already answered is not modelled. The HTTP layer refuses it, so `responses` records responder calls, not what goes out on the wire.
- Summary.FullSummary: with the header missing the result is whatever `logger.warn` returns. The logger is not part of this model and is assumed to return a falsy value, modelled as `None`.
- Polygon.MapCoordinates: `coords.map(fn)` calls `fn(position, index, ring)` and passes on anything `fn` throws. The model's `f` sees only the position and cannot fail, so reprojection is an instance only for a callback that ignores the extra arguments and never throws.
- Kmz.Step: with `n` attached listeners, each `push` returns its own result, and each refusal pauses that listener's own entry stream. `accepted` stands for "every push accepted", and `paused` for "some entry stream is paused"; which streams are paused is not tracked.
- The HTTP response bodies, logging and configuration loading are left out. The size threshold is a parameter.
