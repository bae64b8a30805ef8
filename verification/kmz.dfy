/**
 * The KMZ decoder as an explicit state machine over the events its handlers
 * react to. The decoder is a duplex stream: bytes written to it are buffered
 * into a scratch archive file; once that file is complete the archive is
 * opened, every `.kml` member is piped into the KML decoder, and the KML
 * decoder's features are pushed to this stream's readable side.
 *
 * Stream machinery, the ZIP reader and the KML decoder are outside the model;
 * what they do shows up only as events (`KmzEvent`) and as the facts those
 * events carry (Node's `emittedReadable` flag, whether `push` accepted).
 */
module Kmz {
  import opened Values
  import PathName

  /** The one content type this decoder accepts. */
  const KmzContentType: string := "application/vnd.google-earth.kmz"

  /** Content types this decoder declares it can decode. */
  function CanDecode(): seq<string>
  {
    [KmzContentType]
  }

  /** The decoder must read the whole input before it knows a schema. */
  function CanSummarizeQuickly(): bool
  {
    false
  }

  /** The decoder accepts exactly the KMZ media type and never summarizes quickly. */
  lemma KmzCapabilities(contentType: string)
    ensures contentType in CanDecode() <==> contentType == "application/vnd.google-earth.kmz"
    ensures |CanDecode()| == 1
    ensures !CanSummarizeQuickly()
  {
  }

  /** The ZIP reader's counters for the opened archive. */
  datatype ZipDirectory = ZipDirectory(entryCount: nat, entriesRead: nat)

  /**
   * The writable side.
   *  - archive: chunks written to the scratch archive file, in order
   *  - writeFinished: the writable side finished and the archive file was closed
   *  - buffered: the archive file finished and 'readable' was emitted
   */
  datatype Intake = Intake(archive: seq<seq<bv8>>, writeFinished: bool, buffered: bool)

  /**
   * Starting the readable side.
   *  - isPushing: the `_isPushing` flag
   *  - waiting: `once('readable')` listeners that will run the start routine
   *  - starts: runs of the start routine, each of which opens the archive
   */
  datatype Starter = Starter(isPushing: bool, waiting: nat, starts: nat)

  /**
   * The opened archive and the KML decoder fed from it.
   *  - zip: the opened archive's directory counters
   *  - pendingOpens: `.kml` entries whose read stream was requested
   *  - attached: entry streams piped into the one shared KML decoder; each
   *    added its own data, error and end listener to that decoder
   *  - paused: some entry stream is paused by a refused push
   *  - innerEnded: the KML decoder emitted 'end'
   */
  datatype Unzip = Unzip(zip: Option<ZipDirectory>, pendingOpens: nat, attached: nat,
                         paused: bool, innerEnded: bool)

  /**
   * What the stream has emitted. `D` is a decoded feature, `E` an error value.
   *  - output: features pushed to the readable side
   *  - ended: end of output (`push(null)`) was pushed
   *  - errors: errors emitted on this stream, in order
   */
  datatype Outbox<D, E> = Outbox(output: seq<D>, ended: bool, errors: seq<E>)

  datatype KmzState<D, E> = KmzState(intake: Intake, starter: Starter, unzip: Unzip, out: Outbox<D, E>)

  /** What can happen to the decoder. */
  datatype KmzEvent<D, E> =
    | Write(chunk: seq<bv8>)                  // `_write` with one incoming chunk
    | WriteFinish                             // the writable side emitted 'finish'
    | BufferFinish                            // the archive file emitted 'finish'
    | Read(emittedReadable: bool)             // `_read`, with Node's emittedReadable flag
    | ArchiveOpened(entryCount: nat)          // the ZIP reader opened the archive
    | ArchiveOpenFailed(openError: E)         // the ZIP reader could not open it
    | ZipError(zipError: E)                   // the open archive emitted 'error'
    | Entry(fileName: string)                 // the archive emitted 'entry'
    | EntryOpened                             // an entry read stream was opened
    | EntryOpenFailed(entryError: E)          // opening an entry read stream failed
    | InnerData(datum: D, accepted: bool)     // the KML decoder emitted a feature; every `push` accepted it
    | Drain                                   // the downstream consumer emitted 'drain'
    | InnerEnd                                // the KML decoder emitted 'end'
    | InnerError(kmlError: E)                 // the KML decoder emitted 'error'

  function Init<D, E>(): KmzState<D, E>
  {
    KmzState(Intake([], false, false), Starter(false, 0, 0),
             Unzip(None, 0, 0, false, false), Outbox([], false, []))
  }

  /** `n` copies of `x`: one per listener that receives the same event. */
  function Copies<T>(x: T, n: nat): (r: seq<T>)
    ensures |r| == n
    ensures forall k :: 0 <= k < n ==> r[k] == x
  {
    if n == 0 then [] else [x] + Copies(x, n - 1)
  }

  /** `_write`: the chunk goes to the archive file; writes after finish never reach `_write`. */
  function OnWrite(i: Intake, chunk: seq<bv8>): Intake
  {
    if i.writeFinished then i else i.(archive := i.archive + [chunk])
  }

  /** 'finish' on the writable side closes the archive file. */
  function OnWriteFinish(i: Intake): Intake
  {
    i.(writeFinished := true)
  }

  /** 'finish' on the archive file: 'readable' is emitted and runs every waiting listener. */
  function OnBuffered<D, E>(s: KmzState<D, E>): (r: KmzState<D, E>)
    ensures !s.intake.writeFinished || s.intake.buffered ==> r == s
    ensures s.intake.writeFinished && !s.intake.buffered ==> r.intake.buffered && r.starter.waiting == 0
    ensures r.starter.starts + r.starter.waiting == s.starter.starts + s.starter.waiting
    ensures r.starter.isPushing <==> s.starter.isPushing || r.starter.starts > s.starter.starts
    ensures r.unzip == s.unzip && r.out == s.out && r.intake.archive == s.intake.archive
  {
    if !s.intake.writeFinished || s.intake.buffered then s
    else
      var st := s.starter;
      s.(intake := s.intake.(buffered := true),
         starter := Starter(st.isPushing || st.waiting > 0, 0, st.starts + st.waiting))
  }

  /** The start routine: set the flag and open the archive. */
  function StartPushing(st: Starter): Starter
  {
    st.(isPushing := true, starts := st.starts + 1)
  }

  /** `_read`: defer to 'readable', start now, or do nothing. */
  function OnRead(st: Starter, emittedReadable: bool): (r: Starter)
    ensures r.starts > st.starts <==> !st.isPushing && emittedReadable
    ensures r.waiting > st.waiting <==> !st.isPushing && !emittedReadable
    ensures r.starts + r.waiting == st.starts + st.waiting + (if st.isPushing then 0 else 1)
    ensures r.isPushing <==> st.isPushing || emittedReadable
  {
    if !emittedReadable && !st.isPushing then st.(waiting := st.waiting + 1)
    else if !st.isPushing then StartPushing(st)
    else st
  }

  /** The ZIP reader's open callback succeeded. */
  function OnArchiveOpened(u: Unzip, starts: nat, entryCount: nat): Unzip
  {
    if starts == 0 || u.zip.Some? then u else u.(zip := Some(ZipDirectory(entryCount, 0)))
  }

  /** 'entry': counted as read; the read stream of an entry that passed the `.kml` filter is requested. */
  function OnEntry(u: Unzip, isKml: bool): Unzip
  {
    if u.zip.None? || u.zip.value.entriesRead >= u.zip.value.entryCount then u
    else
      var read := Some(u.zip.value.(entriesRead := u.zip.value.entriesRead + 1));
      if isKml then u.(zip := read, pendingOpens := u.pendingOpens + 1)
      else u.(zip := read)
  }

  /** An entry read stream opened: it is piped into the shared KML decoder. */
  function OnEntryOpened(u: Unzip): Unzip
  {
    if u.pendingOpens == 0 then u else u.(pendingOpens := u.pendingOpens - 1, attached := u.attached + 1)
  }

  /** 'data' from the KML decoder: every attached listener pushes it; a refused push pauses. */
  function OnInnerData<D, E>(s: KmzState<D, E>, d: D, accepted: bool): (r: KmzState<D, E>)
    ensures s.out.output <= r.out.output
    ensures |r.out.output| == |s.out.output| + (if s.unzip.innerEnded then 0 else s.unzip.attached)
    ensures forall k :: |s.out.output| <= k < |r.out.output| ==> r.out.output[k] == d
    ensures r.unzip.paused <==> s.unzip.paused || (!accepted && s.unzip.attached > 0 && !s.unzip.innerEnded)
    ensures r.out.ended == s.out.ended && r.out.errors == s.out.errors
  {
    if s.unzip.attached == 0 || s.unzip.innerEnded then s
    else s.(out := s.out.(output := s.out.output + Copies(d, s.unzip.attached)),
            unzip := s.unzip.(paused := s.unzip.paused || !accepted))
  }

  /** 'end' from the KML decoder: end of output only if every entry has been read. */
  function OnInnerEnd<D, E>(s: KmzState<D, E>): (r: KmzState<D, E>)
    ensures r.out.ended <==>
              s.out.ended || (s.unzip.attached > 0 && !s.unzip.innerEnded &&
                              s.unzip.zip.Some? && s.unzip.zip.value.entriesRead == s.unzip.zip.value.entryCount)
    ensures r.out.output == s.out.output && r.out.errors == s.out.errors
    ensures s.unzip.attached > 0 ==> r.unzip.innerEnded
  {
    if s.unzip.attached == 0 || s.unzip.innerEnded then s
    else
      var done := s.unzip.zip.Some? && s.unzip.zip.value.entriesRead == s.unzip.zip.value.entryCount;
      s.(unzip := s.unzip.(innerEnded := true), out := s.out.(ended := s.out.ended || done))
  }

  /** Emits errors on this stream, when their source exists in this state. */
  function Emit<D, E>(s: KmzState<D, E>, sourceExists: bool, errs: seq<E>): KmzState<D, E>
  {
    if sourceExists then s.(out := s.out.(errors := s.out.errors + errs)) else s
  }

  /**
   * One event. Events that cannot occur in the current state (an entry before
   * the archive is open, data from a KML decoder nothing was piped into) leave
   * the state unchanged. Output, errors and starts only ever grow, and end of
   * output, once pushed, stays pushed.
   */
  function Step<D, E>(s: KmzState<D, E>, e: KmzEvent<D, E>): (r: KmzState<D, E>)
    ensures s.out.output <= r.out.output
    ensures s.out.errors <= r.out.errors
    ensures s.starter.starts <= r.starter.starts
    ensures s.out.ended ==> r.out.ended
    ensures s.starter.isPushing ==> r.starter.isPushing
  {
    match e
    case Write(chunk) => s.(intake := OnWrite(s.intake, chunk))
    case WriteFinish => s.(intake := OnWriteFinish(s.intake))
    case BufferFinish => OnBuffered(s)
    case Read(emittedReadable) => s.(starter := OnRead(s.starter, emittedReadable))
    case ArchiveOpened(n) => s.(unzip := OnArchiveOpened(s.unzip, s.starter.starts, n))
    case ArchiveOpenFailed(err) => Emit(s, s.starter.starts > 0, [err])
    case ZipError(err) => Emit(s, s.unzip.zip.Some?, [err])
    case Entry(name) => s.(unzip := OnEntry(s.unzip, PathName.IsKmlEntry(name)))
    case EntryOpened => s.(unzip := OnEntryOpened(s.unzip))
    case EntryOpenFailed(err) =>
      if s.unzip.pendingOpens == 0 then s
      else Emit(s.(unzip := s.unzip.(pendingOpens := s.unzip.pendingOpens - 1)), true, [err])
    case InnerData(d, accepted) => OnInnerData(s, d, accepted)
    case Drain => s.(unzip := s.unzip.(paused := false))
    case InnerEnd => OnInnerEnd(s)
    case InnerError(err) => Emit(s, s.unzip.attached > 0, Copies(err, s.unzip.attached))
  }

  /** Each part of the state changes only under the events that concern it. */
  lemma StepFrame<D, E>(s: KmzState<D, E>, e: KmzEvent<D, E>)
    ensures !e.Read? && !e.BufferFinish? ==> Step(s, e).starter == s.starter
    ensures !e.Write? && !e.WriteFinish? && !e.BufferFinish? ==> Step(s, e).intake == s.intake
    ensures !e.InnerData? ==> Step(s, e).out.output == s.out.output
    ensures !e.InnerEnd? ==> Step(s, e).out.ended == s.out.ended
    ensures !e.EntryOpened? ==> Step(s, e).unzip.attached == s.unzip.attached
  {
    match e
    case Write(_) =>
    case WriteFinish =>
    case BufferFinish =>
    case Read(_) =>
    case ArchiveOpened(_) =>
    case ArchiveOpenFailed(_) =>
    case ZipError(_) =>
    case Entry(name) => StepEntry(s, name);
    case EntryOpened =>
    case EntryOpenFailed(_) =>
    case InnerData(_, _) =>
    case Drain =>
    case InnerEnd =>
    case InnerError(_) =>
  }

  /** The state after a sequence of events, applied in order. */
  function Run<D, E>(s: KmzState<D, E>, events: seq<KmzEvent<D, E>>): (r: KmzState<D, E>)
    ensures s.out.output <= r.out.output
    ensures s.out.errors <= r.out.errors
    ensures s.starter.starts <= r.starter.starts
    ensures s.out.ended ==> r.out.ended
    decreases |events|
  {
    if |events| == 0 then s else Run(Step(s, events[0]), events[1..])
  }

  lemma {:induction false} RunAppend<D, E>(s: KmzState<D, E>, a: seq<KmzEvent<D, E>>, b: seq<KmzEvent<D, E>>)
    ensures Run(s, a + b) == Run(Run(s, a), b)
    decreases |a|
  {
    if |a| == 0 {
      assert a + b == b;
    } else {
      assert (a + b)[0] == a[0];
      assert (a + b)[1..] == a[1..] + b;
      RunAppend(Step(s, a[0]), a[1..], b);
    }
  }

  lemma RunPair<D, E>(s: KmzState<D, E>, e1: KmzEvent<D, E>, e2: KmzEvent<D, E>)
    ensures Run(s, [e1, e2]) == Step(Step(s, e1), e2)
  {
    var evs := [e1, e2];
    assert evs[0] == e1 && evs[1..] == [e2];
    assert Run(s, evs) == Run(Step(s, e1), [e2]);
    assert [e2][0] == e2 && [e2][1..] == [];
    assert Run(Step(s, e1), [e2]) == Run(Step(Step(s, e1), e2), []);
  }

  // ---------------------------------------------------------------------
  // Writable side: buffering the archive
  // ---------------------------------------------------------------------

  /** Before the writable side finishes, each chunk is appended to the archive file and nothing else changes. */
  lemma WriteBuffersChunk<D, E>(s: KmzState<D, E>, chunk: seq<bv8>)
    requires !s.intake.writeFinished
    ensures Step(s, Write(chunk)) == s.(intake := s.intake.(archive := s.intake.archive + [chunk]))
  {
  }

  /** Chunk writes, in order. */
  function Writes<D, E>(chunks: seq<seq<bv8>>): seq<KmzEvent<D, E>>
  {
    if |chunks| == 0 then [] else [Write(chunks[0])] + Writes(chunks[1..])
  }

  /** The archive file holds exactly the written chunks, in the order written, and nothing else changes. */
  lemma {:induction false} ArchiveHoldsWrittenChunks<D, E>(s: KmzState<D, E>, chunks: seq<seq<bv8>>)
    requires !s.intake.writeFinished
    ensures Run(s, Writes(chunks)).intake == s.intake.(archive := s.intake.archive + chunks)
    ensures Run(s, Writes(chunks)).starter == s.starter
    ensures Run(s, Writes(chunks)).unzip == s.unzip
    ensures Run(s, Writes(chunks)).out == s.out
    decreases |chunks|
  {
    var evs: seq<KmzEvent<D, E>> := Writes(chunks);
    if |chunks| == 0 {
      assert s.intake.archive + chunks == s.intake.archive;
    } else {
      var s1 := Step(s, Write(chunks[0]));
      assert s1.intake == s.intake.(archive := s.intake.archive + [chunks[0]]);
      assert s1.starter == s.starter && s1.unzip == s.unzip && s1.out == s.out;
      assert evs == [Write(chunks[0])] + Writes(chunks[1..]);
      assert evs[0] == Write(chunks[0]);
      assert evs[1..] == Writes(chunks[1..]);
      assert Run(s, evs) == Run(s1, evs[1..]);
      ArchiveHoldsWrittenChunks(s1, chunks[1..]);
      assert s1.intake.archive + chunks[1..] == s.intake.archive + chunks;
    }
  }

  /**
   * Finishing the writable side closes the archive file; the file finishing
   * emits 'readable', which runs every `_read` that was waiting for it.
   */
  lemma FinishThenBufferedStarts<D, E>(s: KmzState<D, E>)
    requires !s.intake.buffered
    ensures var r := Run(s, [WriteFinish, BufferFinish]);
      && r.intake.writeFinished && r.intake.buffered
      && r.starter.waiting == 0
      && r.starter.starts == s.starter.starts + s.starter.waiting
      && (r.starter.isPushing <==> s.starter.isPushing || s.starter.waiting > 0)
      && r.out == s.out && r.unzip == s.unzip
  {
    RunPair(s, WriteFinish, BufferFinish);
  }

  /** The archive file cannot finish before the writable side has closed it. */
  lemma NoBufferedBeforeFinish<D, E>(s: KmzState<D, E>)
    requires !s.intake.writeFinished
    ensures Step(s, BufferFinish) == s
  {
  }

  // ---------------------------------------------------------------------
  // Readable side: starting
  // ---------------------------------------------------------------------

  /** A `_read` before 'readable' was emitted defers starting to a `once('readable')` listener. */
  lemma ReadDefersUntilReadable<D, E>(s: KmzState<D, E>)
    requires !s.starter.isPushing
    ensures Step(s, Read(false)).starter == s.starter.(waiting := s.starter.waiting + 1)
  {
  }

  /** A `_read` after 'readable' starts pushing straight away. */
  lemma ReadAfterReadableStarts<D, E>(s: KmzState<D, E>)
    requires !s.starter.isPushing
    ensures Step(s, Read(true)).starter.starts == s.starter.starts + 1
    ensures Step(s, Read(true)).starter.isPushing
  {
  }

  /** Once pushing, `_read` never runs the start routine again. */
  lemma ReadWhilePushingDoesNotStart<D, E>(s: KmzState<D, E>, emittedReadable: bool)
    requires s.starter.isPushing
    ensures Step(s, Read(emittedReadable)) == s
  {
  }

  /** Number of `_read` calls in a sequence of events. */
  function ReadCount<D, E>(events: seq<KmzEvent<D, E>>): nat
  {
    if |events| == 0 then 0 else (if events[0].Read? then 1 else 0) + ReadCount(events[1..])
  }

  /** The start routine runs at most once per `_read` call: runs plus waiting listeners never exceed the reads. */
  lemma {:induction false} StartsBoundedByReads<D, E>(s: KmzState<D, E>, events: seq<KmzEvent<D, E>>)
    ensures Run(s, events).starter.starts + Run(s, events).starter.waiting
            <= s.starter.starts + s.starter.waiting + ReadCount(events)
    decreases |events|
  {
    if |events| > 0 {
      var s1 := Step(s, events[0]);
      StepFrame(s, events[0]);
      assert s1.starter.starts + s1.starter.waiting
          <= s.starter.starts + s.starter.waiting + (if events[0].Read? then 1 else 0);
      StartsBoundedByReads(s1, events[1..]);
    }
  }

  /** Pushing with no waiting listener: no sequence of events runs the start routine again. */
  lemma {:induction false} PushingNeverRestarts<D, E>(s: KmzState<D, E>, events: seq<KmzEvent<D, E>>)
    requires s.starter.isPushing && s.starter.waiting == 0
    ensures Run(s, events).starter.starts == s.starter.starts
    decreases |events|
  {
    if |events| > 0 {
      var s1 := Step(s, events[0]);
      StepFrame(s, events[0]);
      assert s1.starter == s.starter;
      PushingNeverRestarts(s1, events[1..]);
    }
  }

  /**
   * Two `_read` calls before 'readable' each register a listener, so the
   * archive is opened twice when the archive file finishes.
   */
  lemma TwoEarlyReadsStartTwice<D, E>()
    ensures Run(Init<D, E>(), [Read(false), Read(false), WriteFinish, BufferFinish]).starter.starts == 2
  {
    var s0 := Init<D, E>();
    var early: seq<KmzEvent<D, E>> := [Read(false), Read(false)];
    var finish: seq<KmzEvent<D, E>> := [WriteFinish, BufferFinish];
    assert early + finish == [Read(false), Read(false), WriteFinish, BufferFinish];
    RunAppend(s0, early, finish);
    RunPair(s0, Read(false), Read(false));
    var s2 := Run(s0, early);
    assert s2.starter == Starter(false, 2, 0) && !s2.intake.buffered;
    FinishThenBufferedStarts(s2);
  }

  /** No `_read` in the sequence sees Node's emittedReadable flag set. */
  predicate NoReadAfterReadable<D, E>(events: seq<KmzEvent<D, E>>)
  {
    forall k :: 0 <= k < |events| ==> events[k] != Read(true)
  }

  /**
   * After the archive file has finished, a `_read` that sees Node's
   * emittedReadable flag unset registers a listener for a 'readable' that was
   * already emitted: unless some later `_read` sees the flag set, nothing starts.
   */
  lemma {:induction false} LateReadNeverStarts<D, E>(s: KmzState<D, E>, events: seq<KmzEvent<D, E>>)
    requires s.intake.buffered && !s.starter.isPushing
    requires NoReadAfterReadable(events)
    ensures Run(s, events).starter.starts == s.starter.starts
    ensures !Run(s, events).starter.isPushing
    decreases |events|
  {
    if |events| > 0 {
      var s1 := Step(s, events[0]);
      StepFrame(s, events[0]);
      assert events[0] != Read(true);
      assert s1.intake.buffered && !s1.starter.isPushing && s1.starter.starts == s.starter.starts;
      assert NoReadAfterReadable(events[1..]) by {
        forall k | 0 <= k < |events[1..]|
          ensures events[1..][k] != Read(true)
        {
          assert events[1..][k] == events[k + 1];
        }
      }
      LateReadNeverStarts(s1, events[1..]);
    }
  }

  // ---------------------------------------------------------------------
  // Archive entries
  // ---------------------------------------------------------------------

  /** An 'entry' event touches only the archive part of the state. */
  lemma StepEntry<D, E>(s: KmzState<D, E>, name: string)
    ensures Step(s, Entry(name)) == s.(unzip := OnEntry(s.unzip, PathName.IsKmlEntry(name)))
  {
    var r := Step(s, Entry(name));
    assert r.unzip == OnEntry(s.unzip, PathName.IsKmlEntry(name));
    assert r.out == s.out;
    assert r.intake == s.intake;
    assert r.starter == s.starter;
  }

  /** An entry that is not a `.kml` file is only counted as read; nothing else happens. */
  lemma NonKmlEntrySkipped<D, E>(s: KmzState<D, E>, name: string)
    requires s.unzip.zip.Some? && s.unzip.zip.value.entriesRead < s.unzip.zip.value.entryCount
    requires !PathName.IsKmlEntry(name)
    ensures Step(s, Entry(name))
         == s.(unzip := s.unzip.(zip := Some(s.unzip.zip.value.(entriesRead := s.unzip.zip.value.entriesRead + 1))))
  {
    StepEntry(s, name);
    var u := s.unzip.(zip := Some(s.unzip.zip.value.(entriesRead := s.unzip.zip.value.entriesRead + 1)));
    assert OnEntry(s.unzip, false) == u;
  }

  /** A `.kml` entry is counted as read and its read stream is requested. */
  lemma KmlEntryRequested<D, E>(s: KmzState<D, E>, name: string)
    requires s.unzip.zip.Some? && s.unzip.zip.value.entriesRead < s.unzip.zip.value.entryCount
    requires PathName.IsKmlEntry(name)
    ensures Step(s, Entry(name))
         == s.(unzip := s.unzip.(zip := Some(s.unzip.zip.value.(entriesRead := s.unzip.zip.value.entriesRead + 1)),
                                 pendingOpens := s.unzip.pendingOpens + 1))
  {
    StepEntry(s, name);
    var u := s.unzip.(zip := Some(s.unzip.zip.value.(entriesRead := s.unzip.zip.value.entriesRead + 1)),
                      pendingOpens := s.unzip.pendingOpens + 1);
    assert OnEntry(s.unzip, true) == u;
  }

  /**
   * The open callback of a started routine records the archive's entry count,
   * with no entry read yet; a second open callback changes nothing.
   */
  lemma ArchiveOpenedRecordsDirectory<D, E>(s: KmzState<D, E>, n: nat)
    requires s.starter.starts > 0
    ensures s.unzip.zip.None? ==>
              Step(s, ArchiveOpened(n)) == s.(unzip := s.unzip.(zip := Some(ZipDirectory(n, 0))))
    ensures s.unzip.zip.Some? ==> Step(s, ArchiveOpened(n)) == s
  {
  }

  /**
   * An opened `.kml` read stream is piped into the shared KML decoder: one
   * requested open is used up, one more listener set is attached, and nothing
   * else changes.
   */
  lemma EntryOpenedAttaches<D, E>(s: KmzState<D, E>)
    requires s.unzip.pendingOpens > 0
    ensures Step(s, EntryOpened).unzip.pendingOpens == s.unzip.pendingOpens - 1
    ensures Step(s, EntryOpened).unzip.attached == s.unzip.attached + 1
    ensures Step(s, EntryOpened).unzip.zip == s.unzip.zip
    ensures Step(s, EntryOpened).unzip.paused == s.unzip.paused
    ensures Step(s, EntryOpened).unzip.innerEnded == s.unzip.innerEnded
    ensures Step(s, EntryOpened).intake == s.intake
    ensures Step(s, EntryOpened).starter == s.starter
    ensures Step(s, EntryOpened).out == s.out
  {
  }

  /** An early `_read`, the upload finishing, and the archive opening with `n` entries. */
  lemma StartAndOpen<D, E>(n: nat)
    ensures Step(Step(Step(Step(Init<D, E>(), Read(false)), WriteFinish), BufferFinish), ArchiveOpened(n))
         == KmzState(Intake([], true, true), Starter(true, 0, 1),
                     Unzip(Some(ZipDirectory(n, 0)), 0, 0, false, false), Outbox([], false, []))
  {
    var s1 := Step(Init<D, E>(), Read(false));
    assert s1.starter == Starter(false, 1, 0);
    var s2 := Step(s1, WriteFinish);
    assert s2.intake == Intake([], true, false) && s2.starter == s1.starter;
    var s3 := Step(s2, BufferFinish);
    assert s3.starter == Starter(true, 0, 1);
  }

  /** Two `.kml` entries of a two-entry archive, both read streams opened. */
  lemma AttachTwoKml<D, E>(s: KmzState<D, E>, a: string, b: string)
    requires s.unzip == Unzip(Some(ZipDirectory(2, 0)), 0, 0, false, false)
    requires PathName.IsKmlEntry(a) && PathName.IsKmlEntry(b)
    ensures Step(Step(Step(Step(s, Entry(a)), Entry(b)), EntryOpened), EntryOpened).unzip
         == Unzip(Some(ZipDirectory(2, 2)), 0, 2, false, false)
    ensures Step(Step(Step(Step(s, Entry(a)), Entry(b)), EntryOpened), EntryOpened).out == s.out
  {
    var s1 := Step(s, Entry(a));
    StepEntry(s, a);
    assert s1.unzip == Unzip(Some(ZipDirectory(2, 1)), 1, 0, false, false) && s1.out == s.out;
    var s2 := Step(s1, Entry(b));
    StepEntry(s1, b);
    assert s2.unzip == Unzip(Some(ZipDirectory(2, 2)), 2, 0, false, false) && s2.out == s.out;
    EntryOpenedAttaches(s2);
    var s3 := Step(s2, EntryOpened);
    assert s3.unzip == Unzip(Some(ZipDirectory(2, 2)), 1, 1, false, false);
    EntryOpenedAttaches(s3);
  }

  /**
   * Once two `.kml` members of a two-entry archive are attached, one feature
   * is pushed twice, and the KML decoder's end then ends the output.
   */
  lemma TwoAttachedPushTwiceThenEnd<D, E>(s: KmzState<D, E>, d: D)
    requires s.unzip == Unzip(Some(ZipDirectory(2, 2)), 0, 2, false, false) && s.out == Outbox([], false, [])
    ensures Step(s, InnerData(d, true)).out.output == [d, d]
    ensures Step(Step(s, InnerData(d, true)), InnerEnd).out.ended
  {
    var s1 := Step(s, InnerData(d, true));
    assert Copies(d, 2) == [d, d];
    assert s1.unzip == s.unzip;
  }

  /**
   * From a fresh decoder: an early `_read`, the upload finishing, an archive
   * of two `.kml` members, and both read streams opened. Both streams are
   * attached to the one KML decoder, so a single feature is pushed twice, and
   * the KML decoder's end then ends the output.
   */
  lemma TwoKmlMembersFromStart<D, E>(a: string, b: string, d: D)
    requires PathName.IsKmlEntry(a) && PathName.IsKmlEntry(b)
    ensures var s := Step(Step(Step(Step(Step(Step(Step(Step(Init<D, E>(),
                       Read(false)), WriteFinish), BufferFinish), ArchiveOpened(2)),
                       Entry(a)), Entry(b)), EntryOpened), EntryOpened);
            s.unzip.attached == 2 &&
            Step(s, InnerData(d, true)).out.output == [d, d] &&
            Step(Step(s, InnerData(d, true)), InnerEnd).out.ended
  {
    StartAndOpen<D, E>(2);
    var s4 := Step(Step(Step(Step(Init<D, E>(), Read(false)), WriteFinish), BufferFinish), ArchiveOpened(2));
    AttachTwoKml(s4, a, b);
    TwoAttachedPushTwiceThenEnd(Step(Step(Step(Step(s4, Entry(a)), Entry(b)), EntryOpened), EntryOpened), d);
  }

  // ---------------------------------------------------------------------
  // Back-pressure
  // ---------------------------------------------------------------------

  /**
   * A feature from the KML decoder is pushed once per attached listener; when
   * `push` refuses it the entry stream is paused, when `push` accepts it the
   * paused flag is left as it was.
   */
  lemma InnerDataBackpressure<D, E>(s: KmzState<D, E>, d: D, accepted: bool)
    requires s.unzip.attached > 0 && !s.unzip.innerEnded
    ensures Step(s, InnerData(d, accepted)).out.output == s.out.output + Copies(d, s.unzip.attached)
    ensures !accepted ==> Step(s, InnerData(d, accepted)).unzip.paused
    ensures accepted ==> Step(s, InnerData(d, accepted)).unzip.paused == s.unzip.paused
  {
  }

  /** With a single `.kml` member, each feature is pushed exactly once. */
  lemma SingleMemberPushesOnce<D, E>(s: KmzState<D, E>, d: D, accepted: bool)
    requires s.unzip.attached == 1 && !s.unzip.innerEnded
    ensures Step(s, InnerData(d, accepted)).out.output == s.out.output + [d]
  {
    assert Copies(d, 1) == [d];
  }

  /** With two members piped into the shared KML decoder, each feature is pushed twice. */
  lemma TwoMembersPushTwice<D, E>(s: KmzState<D, E>, d: D)
    requires s.unzip.attached == 2 && !s.unzip.innerEnded
    ensures Step(s, InnerData(d, true)).out.output == s.out.output + [d, d]
  {
    assert Copies(d, 2) == [d, d];
  }

  /** A 'drain' resumes the paused entry stream; a refused push followed by a drain leaves it running. */
  lemma DrainResumes<D, E>(s: KmzState<D, E>, d: D)
    requires s.unzip.attached > 0 && !s.unzip.innerEnded
    ensures !Step(s, Drain).unzip.paused
    ensures Step(s, InnerData(d, false)).unzip.paused
    ensures !Run(s, [InnerData(d, false), Drain]).unzip.paused
  {
    var s1 := OnInnerData(s, d, false);
    assert s1.unzip.paused;
    assert Step(s, InnerData(d, false)) == s1;
    var s2 := s1.(unzip := s1.unzip.(paused := false));
    assert Step(s1, Drain) == s2;
    RunPair(s, InnerData(d, false), Drain);
  }

  // ---------------------------------------------------------------------
  // End of output
  // ---------------------------------------------------------------------

  /** End of output is pushed only by the KML decoder's 'end' once every entry has been read. */
  lemma EndOnlyFromInnerEnd<D, E>(s: KmzState<D, E>, e: KmzEvent<D, E>)
    requires !s.out.ended && Step(s, e).out.ended
    ensures e.InnerEnd?
    ensures s.unzip.attached > 0
    ensures s.unzip.zip.Some? && s.unzip.zip.value.entriesRead == s.unzip.zip.value.entryCount
  {
  }

  /** The KML decoder ending after the last entry was read ends the output. */
  lemma InnerEndAfterLastEntryEnds<D, E>(s: KmzState<D, E>)
    requires s.unzip.attached > 0 && !s.unzip.innerEnded
    requires s.unzip.zip.Some? && s.unzip.zip.value.entriesRead == s.unzip.zip.value.entryCount
    ensures Step(s, InnerEnd).out.ended
  {
  }

  /** No entry in the sequence passes the `.kml` filter. */
  predicate NoKmlEntries<D, E>(events: seq<KmzEvent<D, E>>)
  {
    forall k :: 0 <= k < |events| && events[k].Entry? ==> !PathName.IsKmlEntry(events[k].fileName)
  }

  /** Without an attached or requested entry stream, an event that is not a `.kml` entry attaches nothing and pushes nothing. */
  lemma StepWithoutKmlStream<D, E>(s: KmzState<D, E>, e: KmzEvent<D, E>)
    requires s.unzip.attached == 0 && s.unzip.pendingOpens == 0
    requires e.Entry? ==> !PathName.IsKmlEntry(e.fileName)
    ensures Step(s, e).unzip.attached == 0 && Step(s, e).unzip.pendingOpens == 0
    ensures Step(s, e).out.output == s.out.output && Step(s, e).out.ended == s.out.ended
  {
    match e
    case Entry(name) =>
      assert !PathName.IsKmlEntry(name);
      assert Step(s, e).unzip == OnEntry(s.unzip, false);
    case EntryOpened =>
    case EntryOpenFailed(_) =>
    case InnerData(_, _) =>
    case InnerEnd =>
    case _ =>
  }

  /** An archive with no `.kml` entries never pushes a feature or end of output. */
  lemma {:induction false} NoKmlNeverEnds<D, E>(s: KmzState<D, E>, events: seq<KmzEvent<D, E>>)
    requires !s.out.ended && s.unzip.attached == 0 && s.unzip.pendingOpens == 0
    requires NoKmlEntries(events)
    ensures !Run(s, events).out.ended
    ensures Run(s, events).out.output == s.out.output
    decreases |events|
  {
    if |events| > 0 {
      var s1 := Step(s, events[0]);
      StepWithoutKmlStream(s, events[0]);
      assert NoKmlEntries(events[1..]) by {
        forall k | 0 <= k < |events[1..]| && events[1..][k].Entry?
          ensures !PathName.IsKmlEntry(events[1..][k].fileName)
        {
          assert events[1..][k] == events[k + 1];
        }
      }
      NoKmlNeverEnds(s1, events[1..]);
    }
  }

  // ---------------------------------------------------------------------
  // Errors
  // ---------------------------------------------------------------------

  /**
   * Errors from opening the archive, from the open archive, from opening an
   * entry stream and from the KML decoder are emitted as this stream's errors.
   */
  lemma ErrorsForwarded<D, E>(s: KmzState<D, E>, err: E)
    ensures s.starter.starts > 0 ==> Step(s, ArchiveOpenFailed(err)).out.errors == s.out.errors + [err]
    ensures s.unzip.zip.Some? ==> Step(s, ZipError(err)).out.errors == s.out.errors + [err]
    ensures s.unzip.pendingOpens > 0 ==> Step(s, EntryOpenFailed(err)).out.errors == s.out.errors + [err]
    ensures s.unzip.attached > 0 ==>
              Step(s, InnerError(err)).out.errors == s.out.errors + Copies(err, s.unzip.attached)
  {
  }

  /** An emitted error does not end the output: the stream keeps reacting to later events. */
  lemma ErrorDoesNotEnd<D, E>(s: KmzState<D, E>, err: E)
    requires s.unzip.attached > 0 && !s.out.ended
    ensures !Step(s, InnerError(err)).out.ended
    ensures Step(s, InnerError(err)).unzip == s.unzip
  {
  }
}
