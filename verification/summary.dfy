/**
 * The summary service: how a summary request picks one of its decoding paths,
 * and how its responses are produced as the decoder, merger and summarizer
 * report back. HTTP plumbing, logging and configuration loading are outside
 * the model; the size threshold is a parameter.
 */
module Summary {
  import opened Values
  import Kmz

  // ---------------------------------------------------------------------
  // The X-Blob-Length header
  // ---------------------------------------------------------------------

  predicate IsDigit(c: char)
  {
    '0' <= c <= '9'
  }

  predicate AllDigits(s: string)
  {
    forall k :: 0 <= k < |s| ==> IsDigit(s[k])
  }

  /** The decimal value of a digit string, most significant digit first. */
  function DecimalValue(s: string): nat
    requires AllDigits(s)
  {
    if |s| == 0 then 0
    else DecimalValue(s[..|s| - 1]) * 10 + (s[|s| - 1] as int - '0' as int)
  }

  /** The shortest decimal spelling of `n`. */
  function DecimalString(n: nat): (s: string)
    ensures |s| > 0 && AllDigits(s)
  {
    var last := [(n % 10 + '0' as int) as char];
    if n < 10 then last else DecimalString(n / 10) + last
  }

  /** Reading back a spelled-out length gives the length. */
  lemma {:induction false} DecimalRoundTrip(n: nat)
    ensures DecimalValue(DecimalString(n)) == n
  {
    var s := DecimalString(n);
    if n >= 10 {
      DecimalRoundTrip(n / 10);
      assert s[..|s| - 1] == DecimalString(n / 10);
    }
  }

  /**
   * The header as the comparison with the threshold sees it: missing (absent
   * or empty, both falsy), a length, or not a number.
   */
  datatype BlobLength = Missing | Length(bytes: nat) | NotANumber

  function ReadBlobLength(header: Option<string>): (b: BlobLength)
    ensures b.Missing? <==> header == None || header == Some("")
  {
    match header
    case None => Missing
    case Some(raw) =>
      if raw == "" then Missing
      else if AllDigits(raw) then Length(DecimalValue(raw))
      else NotANumber
  }

  /** A header carrying the decimal spelling of a length reads back as that length. */
  lemma HeaderRoundTrip(n: nat)
    ensures ReadBlobLength(Some(DecimalString(n))) == Length(n)
  {
    DecimalRoundTrip(n);
  }

  /**
   * `_fullSummary`: `None` when the header is missing (the falsy result of the
   * warning), otherwise whether the length is below the threshold. A value
   * that is not a number compares false.
   */
  function FullSummary(b: BlobLength, threshold: int): (full: Option<bool>)
    ensures full == None <==> b.Missing?
    ensures full == Some(true) <==> b.Length? && b.bytes < threshold
  {
    match b
    case Missing => None
    case Length(n) => Some(n < threshold)
    case NotANumber => Some(false)
  }

  /** Whether a possibly missing boolean is truthy. */
  predicate Truthy(full: Option<bool>)
  {
    full == Some(true)
  }

  // ---------------------------------------------------------------------
  // Path selection
  // ---------------------------------------------------------------------

  /** A request's error: HTTP status and machine-readable code. */
  datatype SummaryError = SummaryError(status: nat, code: string)

  /** What the service needs to know about the decoder picked for the content type. */
  datatype Decoder = Decoder(canSummarizeQuickly: bool)

  /** The four ways a summary request can go. */
  datatype SummaryPath =
    | ErrorPath       // no decoder for the content type: respond with the error
    | FullMerge       // decode everything and merge it into layers
    | DecoderSummary  // ask the decoder for its summary
    | Abbreviated     // summarize after the first decoded datum

  /**
   * The branch in `post`. A failed decoder lookup short-circuits; a full
   * merge needs a truthy `_fullSummary` and a decoder that cannot summarize
   * quickly; such a decoder otherwise summarizes itself; a decoder that can
   * summarize quickly always takes the abbreviated path.
   */
  function SelectPath(lookup: Result<Decoder, SummaryError>, full: Option<bool>): (p: SummaryPath)
    ensures p == ErrorPath <==> lookup.Err?
    ensures p == FullMerge <==> lookup.Ok? && Truthy(full) && !lookup.value.canSummarizeQuickly
    ensures p == DecoderSummary <==> lookup.Ok? && !Truthy(full) && !lookup.value.canSummarizeQuickly
    ensures p == Abbreviated <==> lookup.Ok? && lookup.value.canSummarizeQuickly
  {
    if lookup.Err? then ErrorPath
    else if Truthy(full) && !lookup.value.canSummarizeQuickly then FullMerge
    else if !lookup.value.canSummarizeQuickly then DecoderSummary
    else Abbreviated
  }

  /** The path for a request with the given header and threshold. */
  function PathFor(lookup: Result<Decoder, SummaryError>, header: Option<string>, threshold: int): SummaryPath
  {
    SelectPath(lookup, FullSummary(ReadBlobLength(header), threshold))
  }

  /** Without the header the full merge is never chosen. */
  lemma NoHeaderNoFullMerge(lookup: Result<Decoder, SummaryError>, threshold: int)
    ensures PathFor(lookup, None, threshold) != FullMerge
    ensures PathFor(lookup, Some(""), threshold) != FullMerge
  {
  }

  /** With a numeric header, the full merge is chosen exactly when the length is below the threshold. */
  lemma FullMergeExactlyWhenSmall(d: Decoder, n: nat, threshold: int)
    requires !d.canSummarizeQuickly
    ensures PathFor(Ok(d), Some(DecimalString(n)), threshold) == FullMerge <==> n < threshold
    ensures PathFor(Ok(d), Some(DecimalString(n)), threshold) == DecoderSummary <==> n >= threshold
  {
    HeaderRoundTrip(n);
  }

  /** A quick decoder takes the abbreviated path whatever the size. */
  lemma QuickIgnoresSize(d: Decoder, h1: Option<string>, h2: Option<string>, t1: int, t2: int)
    requires d.canSummarizeQuickly
    ensures PathFor(Ok(d), h1, t1) == PathFor(Ok(d), h2, t2) == Abbreviated
  {
  }

  /** A smaller upload never loses the full merge a larger one got. */
  lemma FullMergeMonotone(d: Decoder, n1: nat, n2: nat, threshold: int)
    requires n1 <= n2
    requires PathFor(Ok(d), Some(DecimalString(n2)), threshold) == FullMerge
    ensures PathFor(Ok(d), Some(DecimalString(n1)), threshold) == FullMerge
  {
    HeaderRoundTrip(n1);
    HeaderRoundTrip(n2);
  }

  /** The KMZ decoder never takes the abbreviated path: small uploads merge, others ask the decoder. */
  lemma KmzSummaryPath(header: Option<string>, threshold: int)
    ensures var p := PathFor(Ok(Decoder(Kmz.CanSummarizeQuickly())), header, threshold);
      && (p == FullMerge || p == DecoderSummary)
      && (p == FullMerge <==> ReadBlobLength(header).Length? && ReadBlobLength(header).bytes < threshold)
  {
  }

  // ---------------------------------------------------------------------
  // Responding
  // ---------------------------------------------------------------------

  /**
   * A call of one of the request's responders that reaches `res`: the error
   * responder's first call, or a call of `ok`. `S` is the JSON summary body.
   */
  datatype Response<S> = ErrorSent(error: SummaryError) | OkSent(body: S)

  /**
   * A request in flight.
   *  - path: the decoding path chosen
   *  - errorReported: the once-only error responder has run
   *  - responses: responder calls that reach `res`, in order (whether a later
   *    send on an already answered response goes out is up to the HTTP layer)
   *  - summarizeCalls: calls of the decoder's `summarize`
   *  - decoderPaused: the decoder was paused after its first datum
   *  - sawDatum: the once-only 'data' listener has run
   */
  datatype Request<S> = Request(
    path: SummaryPath,
    errorReported: bool,
    responses: seq<Response<S>>,
    summarizeCalls: nat,
    decoderPaused: bool,
    sawDatum: bool
  )

  /** What can happen to a request in flight. */
  datatype RequestEvent<S> =
    | DecoderError(decoderError: SummaryError)          // the decoder emitted 'error'
    | MergerError(mergerError: SummaryError)            // the merger emitted 'error'
    | MergerEnd(layers: S)                              // the merger ended with these layers
    | Datum                                             // the decoder emitted 'data'
    | Summarized(result: Result<S, SummaryError>)       // the `summarize` callback ran

  /** `onErr`: the first error is answered; every later call does nothing. */
  function OnErr<S>(q: Request<S>, err: SummaryError): (r: Request<S>)
    ensures q.errorReported ==> r == q
    ensures !q.errorReported ==> r.errorReported && r.responses == q.responses + [ErrorSent(err)]
  {
    if q.errorReported then q
    else q.(errorReported := true, responses := q.responses + [ErrorSent(err)])
  }

  /** `ok`: a 200 response with the body; this one is not once-only. */
  function Respond<S>(q: Request<S>, body: S): (r: Request<S>)
    ensures r.errorReported == q.errorReported
    ensures |r.responses| == |q.responses| + 1 && r.responses[|q.responses|] == OkSent(body)
    ensures q.responses <= r.responses
    ensures ErrorResponses(r.responses) == ErrorResponses(q.responses)
  {
    ErrorResponsesAppend(q.responses, OkSent(body));
    q.(responses := q.responses + [OkSent(body)])
  }

  /** The summarizer's callback: its error goes to `onErr`, its summary to `ok`. */
  function OnSummarized<S>(q: Request<S>, result: Result<S, SummaryError>): (r: Request<S>)
    ensures q.summarizeCalls == 0 || (result.Err? && q.errorReported) ==> r == q
    ensures q.summarizeCalls > 0 && result.Ok? ==>
              r.responses == q.responses + [OkSent(result.value)] && r.errorReported == q.errorReported
    ensures q.summarizeCalls > 0 && result.Err? && !q.errorReported ==>
              r.responses == q.responses + [ErrorSent(result.error)] && r.errorReported
  {
    if q.summarizeCalls == 0 then q
    else match result
      case Err(err) => OnErr(q, err)
      case Ok(summary) => Respond(q, summary)
  }

  function IsEpipe(err: SummaryError): bool
  {
    err.code == "EPIPE"
  }

  /** `post` up to the point where it returns: lookup, path choice, and the first action of the path. */
  function Post<S>(lookup: Result<Decoder, SummaryError>, header: Option<string>, threshold: int): (q: Request<S>)
    ensures q.path == PathFor(lookup, header, threshold)
    ensures lookup.Err? ==> q.responses == [ErrorSent(lookup.error)]
    ensures lookup.Ok? ==> q.responses == []
    ensures q.summarizeCalls == (if q.path == DecoderSummary then 1 else 0)
  {
    var path := PathFor(lookup, header, threshold);
    var start := Request(path, false, [], 0, false, false);
    match lookup
    case Err(err) => OnErr(start, err)
    case Ok(_) => if path == DecoderSummary then start.(summarizeCalls := 1) else start
  }

  /** The listeners `post` installed for the chosen path react to one event. */
  function Handle<S>(q: Request<S>, e: RequestEvent<S>): (r: Request<S>)
    ensures r.path == q.path
    ensures q.responses <= r.responses
    ensures q.errorReported ==> r.errorReported
  {
    match q.path
    case ErrorPath => q
    case FullMerge =>
      (match e
       case DecoderError(err) => OnErr(q, err)
       case MergerError(err) => OnErr(q, err)
       case MergerEnd(layers) => Respond(q, layers)
       case _ => q)
    case DecoderSummary =>
      (match e
       case Summarized(result) => OnSummarized(q, result)
       case _ => q)
    case Abbreviated =>
      (match e
       case Datum =>
         if q.sawDatum then q
         else q.(sawDatum := true, decoderPaused := true, summarizeCalls := q.summarizeCalls + 1)
       case DecoderError(err) => if IsEpipe(err) then q else OnErr(q, err)
       case Summarized(result) => OnSummarized(q, result)
       case _ => q)
  }

  function HandleAll<S>(q: Request<S>, events: seq<RequestEvent<S>>): (r: Request<S>)
    ensures r.path == q.path
    ensures q.responses <= r.responses
    decreases |events|
  {
    if |events| == 0 then q else HandleAll(Handle(q, events[0]), events[1..])
  }

  lemma HandlePair<S>(q: Request<S>, e1: RequestEvent<S>, e2: RequestEvent<S>)
    ensures HandleAll(q, [e1, e2]) == Handle(Handle(q, e1), e2)
  {
    var evs := [e1, e2];
    assert evs[0] == e1 && evs[1..] == [e2];
    assert HandleAll(q, evs) == HandleAll(Handle(q, e1), [e2]);
    assert [e2][0] == e2 && [e2][1..] == [];
    assert HandleAll(Handle(q, e1), [e2]) == HandleAll(Handle(Handle(q, e1), e2), []);
  }

  /** Number of error responses among the responses. */
  function ErrorResponses<S>(rs: seq<Response<S>>): nat
  {
    if |rs| == 0 then 0 else (if rs[|rs| - 1].ErrorSent? then 1 else 0) + ErrorResponses(rs[..|rs| - 1])
  }

  /** Error responses so far: one once the responder ran, none before. */
  predicate ErrorsMatchFlag<S>(q: Request<S>)
  {
    ErrorResponses(q.responses) == if q.errorReported then 1 else 0
  }

  lemma ErrorResponsesAppend<S>(rs: seq<Response<S>>, x: Response<S>)
    ensures ErrorResponses(rs + [x]) == ErrorResponses(rs) + (if x.ErrorSent? then 1 else 0)
  {
    assert (rs + [x])[..|rs|] == rs;
  }

  lemma OnErrKeepsErrorCount<S>(q: Request<S>, err: SummaryError)
    requires ErrorsMatchFlag(q)
    ensures ErrorsMatchFlag(OnErr(q, err))
  {
    if !q.errorReported {
      ErrorResponsesAppend(q.responses, ErrorSent(err));
    }
  }

  lemma RespondKeepsErrorCount<S>(q: Request<S>, body: S)
    requires ErrorsMatchFlag(q)
    ensures ErrorsMatchFlag(Respond(q, body))
  {
    ErrorResponsesAppend(q.responses, OkSent(body));
  }

  lemma OnSummarizedKeepsErrorCount<S>(q: Request<S>, result: Result<S, SummaryError>)
    requires ErrorsMatchFlag(q)
    ensures ErrorsMatchFlag(OnSummarized(q, result))
  {
    if q.summarizeCalls > 0 {
      match result
      case Err(err) => OnErrKeepsErrorCount(q, err);
      case Ok(summary) => RespondKeepsErrorCount(q, summary);
    }
  }

  lemma HandleKeepsErrorCount<S>(q: Request<S>, e: RequestEvent<S>)
    requires ErrorsMatchFlag(q)
    ensures ErrorsMatchFlag(Handle(q, e))
  {
    var r := Handle(q, e);
    match q.path
    case ErrorPath =>
      assert r == q;
    case FullMerge =>
      match e {
        case DecoderError(err) => OnErrKeepsErrorCount(q, err); assert r == OnErr(q, err);
        case MergerError(err) => OnErrKeepsErrorCount(q, err); assert r == OnErr(q, err);
        case MergerEnd(layers) => RespondKeepsErrorCount(q, layers); assert r == Respond(q, layers);
        case Datum => assert r == q;
        case Summarized(_) => assert r == q;
      }
    case DecoderSummary =>
      match e {
        case Summarized(result) => OnSummarizedKeepsErrorCount(q, result); assert r == OnSummarized(q, result);
        case _ => assert r == q;
      }
    case Abbreviated =>
      match e {
        case Datum => assert r.responses == q.responses && r.errorReported == q.errorReported;
        case DecoderError(err) =>
          if IsEpipe(err) {
            assert r == q;
          } else {
            OnErrKeepsErrorCount(q, err);
            assert r == OnErr(q, err);
          }
        case Summarized(result) => OnSummarizedKeepsErrorCount(q, result); assert r == OnSummarized(q, result);
        case MergerError(_) => assert r == q;
        case MergerEnd(_) => assert r == q;
      }
  }

  /** Whatever the decoder, merger and summarizer report, a request gets at most one error response. */
  lemma {:induction false} AtMostOneErrorResponse<S>(q: Request<S>, events: seq<RequestEvent<S>>)
    requires ErrorsMatchFlag(q)
    ensures ErrorResponses(HandleAll(q, events).responses) <= 1
    ensures ErrorsMatchFlag(HandleAll(q, events))
    decreases |events|
  {
    if |events| > 0 {
      HandleKeepsErrorCount(q, events[0]);
      AtMostOneErrorResponse(Handle(q, events[0]), events[1..]);
    }
  }

  /** Every request `post` starts satisfies the error-count invariant, so the bound holds from the start. */
  lemma PostErrorCount<S>(lookup: Result<Decoder, SummaryError>, header: Option<string>, threshold: int,
                          events: seq<RequestEvent<S>>)
    ensures ErrorResponses(HandleAll(Post<S>(lookup, header, threshold), events).responses) <= 1
  {
    var q := Post<S>(lookup, header, threshold);
    if lookup.Err? {
      assert q.responses == [] + [ErrorSent(lookup.error)];
      ErrorResponsesAppend<S>([], ErrorSent(lookup.error));
    }
    AtMostOneErrorResponse(q, events);
  }

  /** A failed decoder lookup answers with its error, and nothing afterwards runs a decoding path. */
  lemma {:induction false} LookupErrorShortCircuits<S>(err: SummaryError, header: Option<string>, threshold: int,
                                                        events: seq<RequestEvent<S>>)
    ensures var q := Post<S>(Err(err), header, threshold);
      && q.path == ErrorPath
      && HandleAll(q, events) == q
      && q.responses == [ErrorSent(err)]
      && q.summarizeCalls == 0
    decreases |events|
  {
    var q := Post<S>(Err(err), header, threshold);
    if |events| > 0 {
      assert Handle(q, events[0]) == q;
      LookupErrorShortCircuits<S>(err, header, threshold, events[1..]);
    }
  }

  /** On the abbreviated path an `EPIPE` error from the decoder is ignored. */
  lemma EpipeIgnored<S>(q: Request<S>, err: SummaryError)
    requires q.path == Abbreviated && IsEpipe(err)
    ensures Handle(q, DecoderError(err)) == q
  {
  }

  /** On the abbreviated path the first datum pauses the decoder and asks it for a summary. */
  lemma FirstDatumSummarizes<S>(q: Request<S>)
    requires q.path == Abbreviated && !q.sawDatum
    ensures Handle(q, Datum).decoderPaused
    ensures Handle(q, Datum).summarizeCalls == q.summarizeCalls + 1
    ensures Handle(q, Datum).responses == q.responses
  {
  }

  /** Further data do not summarize again. */
  lemma {:induction false} AbbreviatedSummarizesAtMostOnce<S>(q: Request<S>, events: seq<RequestEvent<S>>)
    requires q.path == Abbreviated
    requires q.summarizeCalls == (if q.sawDatum then 1 else 0)
    ensures HandleAll(q, events).summarizeCalls <= 1
    decreases |events|
  {
    if |events| > 0 {
      var q1 := Handle(q, events[0]);
      assert q1.summarizeCalls == (if q1.sawDatum then 1 else 0);
      AbbreviatedSummarizesAtMostOnce(q1, events[1..]);
    }
  }

  /** The first of several errors is the one reported. */
  lemma FirstErrorWins<S>(q: Request<S>, e1: SummaryError, e2: SummaryError)
    requires q.path == FullMerge && !q.errorReported
    ensures HandleAll(q, [DecoderError(e1), MergerError(e2)]).responses == q.responses + [ErrorSent(e1)]
  {
    HandlePair(q, DecoderError(e1), MergerError(e2));
  }

  /**
   * Only the error responder is once-only: after a decoder error, a merger
   * that still ends calls `ok` a second time.
   */
  lemma OkAfterErrorStillResponds<S>(q: Request<S>, err: SummaryError, layers: S)
    requires q.path == FullMerge && !q.errorReported
    ensures HandleAll(q, [DecoderError(err), MergerEnd(layers)]).responses
         == q.responses + [ErrorSent(err), OkSent(layers)]
  {
    HandlePair(q, DecoderError(err), MergerEnd(layers));
  }
}
