/**
 * The `/scan` handler: the request body is validated, the product is looked
 * up, and the outcome decides the HTTP status.
 */
module Scan {
  import opened Wrappers
  import opened JsonValue
  import opened PyStr
  import opened AiAnalysis
  import opened Product

  /** What `request.get_json()` produces: a decoded body, or an exception (wrong content type, malformed JSON). */
  datatype RequestBody = Unreadable | Body(data: Json)

  /** The JSON payload of a response: an error dict of the handler's own, or what the lookup returned. */
  datatype Payload = ErrorPayload(error: string) | ProductPayload(result: ProductData)

  datatype Response = Response(status: int, payload: Payload)

  const NoBarcodeMessage: string := "No barcode provided"
  const EmptyBarcodeMessage: string := "Barcode cannot be empty"
  const ServerErrorMessage: string := "Server error processing request"

  /**
   * Python's `'barcode' in data` on a truthy body: a key test on a dict, an
   * element test on a list, a substring test on a string; None where `in`
   * raises (numbers and booleans are not containers).
   */
  function HasBarcodeKey(data: Json): Option<bool> {
    match data
    case JObj(fields) => Some("barcode" in fields)
    case JArr(items) => Some(JStr("barcode") in items)
    case JStr(s) => Some(Contains(s, "barcode"))
    case _ => None
  }

  /** The raw barcode, when the body is a dict whose `barcode` is a string (so `.strip()` does not raise). */
  function SubmittedBarcode(request: RequestBody): Option<string> {
    if request.Body? && request.data.JObj? && "barcode" in request.data.fields
       && request.data.fields["barcode"].JStr?
    then Some(request.data.fields["barcode"].s)
    else None
  }

  /** `scan_barcode`: a chain of early returns, every exception ending in 500. */
  function ScanBarcode(request: RequestBody, upstream: Upstream, groq: GroqOutcome, loads: string -> Option<Json>): (resp: Response)
    ensures resp.status in {200, 400, 404, 500}
    ensures resp.status == 200 <==> resp.payload.ProductPayload? && resp.payload.result.Found?
    ensures resp.status == 404 <==> resp.payload.ProductPayload? && resp.payload.result.Failed?
  {
    match request
    case Unreadable => Response(500, ErrorPayload(ServerErrorMessage))
    case Body(data) =>
      if !Truthy(data) then Response(400, ErrorPayload(NoBarcodeMessage))
      else match HasBarcodeKey(data)
        case None => Response(500, ErrorPayload(ServerErrorMessage))
        case Some(false) => Response(400, ErrorPayload(NoBarcodeMessage))
        case Some(true) =>
          // `data['barcode']` raises on a list or a string, `.strip()` on a non-string
          if !data.JObj? || !data.fields["barcode"].JStr? then Response(500, ErrorPayload(ServerErrorMessage))
          else
            var barcode := Strip(data.fields["barcode"].s);
            if barcode == [] then Response(400, ErrorPayload(EmptyBarcodeMessage))
            else
              var productData := FetchResult(barcode, upstream, groq, loads);
              if productData.Failed? then Response(404, ProductPayload(productData))
              else Response(200, ProductPayload(productData))
  }

  /** A client error: no body to speak of, no `barcode` in it, or a barcode of whitespace only. */
  predicate BadRequest(request: RequestBody) {
    && request.Body?
    && (|| !Truthy(request.data)
        || HasBarcodeKey(request.data) == Some(false)
        || (SubmittedBarcode(request).Some? && AllSpace(SubmittedBarcode(request).value)))
  }

  /** 400 is returned exactly for a bad request, with the message for its case. */
  lemma BadRequestIs400(request: RequestBody, upstream: Upstream, groq: GroqOutcome, loads: string -> Option<Json>)
    ensures var resp := ScanBarcode(request, upstream, groq, loads);
      && (resp.status == 400 <==> BadRequest(request))
      && (resp.status == 400 ==> resp.payload.ErrorPayload?)
      && (resp.status == 400 && SubmittedBarcode(request).Some? ==> resp.payload.error == EmptyBarcodeMessage)
      && (resp.status == 400 && SubmittedBarcode(request).None? ==> resp.payload.error == NoBarcodeMessage)
  {
    if request.Body? && Truthy(request.data) && HasBarcodeKey(request.data) == Some(true) && request.data.JObj?
       && request.data.fields["barcode"].JStr? {
      StripSpec(request.data.fields["barcode"].s);
    }
  }

  /** A dict body without a `barcode` key (the empty dict included) is rejected with 400 "No barcode provided". */
  lemma MissingBarcodeIs400(fields: map<string, Json>, upstream: Upstream, groq: GroqOutcome, loads: string -> Option<Json>)
    requires "barcode" !in fields
    ensures ScanBarcode(Body(JObj(fields)), upstream, groq, loads) == Response(400, ErrorPayload(NoBarcodeMessage))
  {
  }

  /** A barcode of whitespace only is rejected with 400 "Barcode cannot be empty". */
  lemma BlankBarcodeIs400(fields: map<string, Json>, raw: string, upstream: Upstream, groq: GroqOutcome, loads: string -> Option<Json>)
    requires "barcode" in fields && fields["barcode"] == JStr(raw) && AllSpace(raw)
    ensures ScanBarcode(Body(JObj(fields)), upstream, groq, loads) == Response(400, ErrorPayload(EmptyBarcodeMessage))
  {
    assert Truthy(JObj(fields));
    StripSpec(raw);
  }

  /** Past validation, the lookup runs on the stripped barcode: 404 with its error when it fails, 200 with the record when not. */
  lemma ValidBarcodeIsLookedUp(request: RequestBody, raw: string, upstream: Upstream, groq: GroqOutcome, loads: string -> Option<Json>)
    requires SubmittedBarcode(request) == Some(raw) && !AllSpace(raw)
    ensures var resp, productData := ScanBarcode(request, upstream, groq, loads), FetchResult(Strip(raw), upstream, groq, loads);
      && resp.payload == ProductPayload(productData)
      && resp.status == (if productData.Failed? then 404 else 200)
  {
    assert Truthy(request.data);
    StripSpec(raw);
  }

  /** Timeouts, network errors, other exceptions and unknown products all give 404 with `success` False. */
  lemma FetchFailureIs404(request: RequestBody, raw: string, upstream: Upstream, groq: GroqOutcome, loads: string -> Option<Json>)
    requires SubmittedBarcode(request) == Some(raw) && !AllSpace(raw)
    requires || upstream.Timeout? || upstream.NetworkError? || upstream.OtherError?
             || (upstream.Reply? && upstream.data.JObj? && !IsOne(Get(upstream.data.fields, "status", JNull)))
    ensures ScanBarcode(request, upstream, groq, loads).status == 404
    ensures ScanBarcode(request, upstream, groq, loads).payload.result.Failed?
  {
    ValidBarcodeIsLookedUp(request, raw, upstream, groq, loads);
  }

  /** A 200 carries a complete record for the barcode as submitted, stripped of surrounding whitespace. */
  lemma SuccessCarriesRecord(request: RequestBody, upstream: Upstream, groq: GroqOutcome, loads: string -> Option<Json>)
    requires ScanBarcode(request, upstream, groq, loads).status == 200
    ensures SubmittedBarcode(request).Some? && !AllSpace(SubmittedBarcode(request).value)
    ensures var resp := ScanBarcode(request, upstream, groq, loads);
      resp.payload.result.record.barcode == Strip(SubmittedBarcode(request).value)
  {
    assert request.Body? && Truthy(request.data) && HasBarcodeKey(request.data) == Some(true);
    assert SubmittedBarcode(request).Some?;
    var raw := SubmittedBarcode(request).value;
    StripSpec(raw);
    FoundKeepsBarcode(Strip(raw), upstream, groq, loads);
  }

  /** The decision to reject a request never depends on the lookup or the AI outcome. */
  lemma RejectionIgnoresLookup(request: RequestBody,
                               upstream: Upstream, groq: GroqOutcome, loads: string -> Option<Json>,
                               upstream': Upstream, groq': GroqOutcome, loads': string -> Option<Json>)
    requires ScanBarcode(request, upstream, groq, loads).status in {400, 500}
    ensures ScanBarcode(request, upstream, groq, loads) == ScanBarcode(request, upstream', groq', loads')
  {
  }

  /** A body that is not a dict yet passes the `in` test, or a barcode that is not a string, ends in 500. */
  lemma MalformedBarcodeIs500(request: RequestBody, upstream: Upstream, groq: GroqOutcome, loads: string -> Option<Json>)
    requires request.Body? && Truthy(request.data) && HasBarcodeKey(request.data) != Some(false)
    requires SubmittedBarcode(request).None?
    ensures ScanBarcode(request, upstream, groq, loads) == Response(500, ErrorPayload(ServerErrorMessage))
  {
  }
}
