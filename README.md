# Product scanner core, modelled in Dafny

The product scanner is a Flask service. A client posts a barcode to `/scan`.
The service looks the barcode up in the Open Food Facts product database and
normalises the product it gets back into a flat record with one field per
attribute and documented defaults. When the database gives no Nutri-Score or
no Eco-Score, the service asks a chat-completion model for the missing grade
and a summary. A second route, `/upload`, accepts image files whose name ends
in an allowed extension.

This project models the sequential logic of `app.py` and proves properties
about it:

- `upload.dfy`: the upload filename check `allowed_file` and the checks
  `upload_image` makes before saving.
- `ai_analysis.dfy`: `generate_ai_scores`. This covers the code-fence
  stripping of the model's reply with Python's `find` and slicing semantics,
  the reshaping of the decoded reply, and the two fallbacks: no client
  configured, and any exception.
- `product.dfy`: `fetch_product_data`. The upstream outcome is mapped to an
  error dict or to a normalised record, and missing grades are filled in from
  the AI scores.
- `scan.dfy`: `scan_barcode`, the chain of early returns that decides the
  HTTP status.
- `py_str.dfy`: the Python `str` semantics these rely on: `in`, `find`,
  slicing with negative indices, `strip`, and the ASCII part of
  `lower`/`upper`.
- `json_value.dfy`: decoded JSON values, `dict.get` with a default, and
  Python truthiness.
- `wrappers.dfy`: an `Option` type.

The model keeps the source's form:

- The fence stripping, `generate_ai_scores` and `fetch_product_data` work by
  reassigning and updating local values step by step. They are methods
  (`StripFences`, `GenerateAiScores`, `FetchProductData`). Each is proved to
  compute a reference function (`Unfenced`, `AiScores`, `FetchResult`), and
  the properties are proved about that function.
- `allowed_file` and `scan_barcode` are a boolean expression and a decision
  chain. They are modelled as functions.

The external services are abstract values, passed in as parameters:

- The product lookup is an `Upstream` value: `Timeout`, `NetworkError`,
  `OtherError`, or `Reply` with the decoded response body.
- The chat call is a `GroqOutcome`: `NoClient`, `CallRaised`, or `Replied`
  with the message content.
- `json.loads` is an arbitrary partial function `string -> Option<Json>`.
- The request body is a `RequestBody`: `Unreadable` when `get_json` raises,
  otherwise the decoded JSON.

Python exceptions are modelled where the handlers catch them:

- In `fetch_product_data`, a response body that is not a dict makes `.get`
  raise. So does a `product` that is not a dict. A grade that is not a string
  makes `.upper()` raise. A `nutriments` that is not a dict makes `.get`
  raise. Each of these gives "An unexpected error occurred".
- In `generate_ai_scores`, an undecodable reply, one that is not a dict, or
  one whose grades are not strings gives the failure scores.
- In `scan_barcode`, any exception gives 500. This covers a body where `in`
  raises (a number or `true`), a list or string body that passes the `in`
  test but cannot be indexed by `'barcode'`, and a barcode that is not a
  string.

One might expect upstream, network and timeout errors to give 500, as
other server-side failures do. The code does not do that: `fetch_product_data`
catches those errors itself and returns a `success: False` dict, which
`scan_barcode` answers with 404. The model follows the code, and
`Scan.FetchFailureIs404` proves the 404.

When a ```` ```json ```` or ```` ``` ```` marker has no closing fence,
`find` returns -1. The slice `text[start:-1]` then stops before the last
character. The model keeps this behaviour, and `AiAnalysis.UnterminatedReply`
states it.

A JSON dict is a Dafny `map`. The normalised product record is the datatype
`Product.ProductRecord`, with one field per key of the dict:

- A grade the database gives is `Given(grade)`. In Python only the grade key
  is present.
- A grade filled in from the AI is `Filled(grade, summary)`. In Python,
  `<score>_summary` is set and `<score>_ai` is True.

## Model

| member | source | states |
|---|---|---|
| PyStr.Find | app.py:104-105 | `find` returns -1 or an index at or after the (normalised) start where the substring occurs |
| PyStr.FindFirst | app.py:104-105 | no occurrence lies between the start and the index `find` returns; -1 means no occurrence at or after the start |
| PyStr.FindIs | app.py:104-105 | the first occurrence at or after the start is exactly what `find` returns |
| PyStr.ContainsIff | app.py:103 | `sub in s` holds iff `sub` occurs at some index of `s` |
| PyStr.ContainsChar | app.py:35 | `'.' in filename` is membership of the character |
| PyStr.PySlice | app.py:106 | Python slicing: an in-range slice is the Dafny slice, and a stop of -1 drops the last character (empty when the start is at or past it) |
| PyStr.LStripSpec | app.py:106 | `lstrip` removes an all-whitespace prefix and leaves a suffix that does not start with whitespace |
| PyStr.RStripSpec | app.py:106 | `rstrip` removes an all-whitespace suffix and leaves a prefix that does not end with whitespace |
| PyStr.StripSpec | app.py:240 | `strip()` leaves no whitespace at either end and is empty exactly when the text is all whitespace |
| PyStr.StripPadded | app.py:106 | stripping whitespace, then a stripped text, then whitespace gives back exactly that text |
| PyStr.UpperIsUpper | app.py:167-168 | after `upper()` no lower-case ASCII letter remains, and the result is empty only for an empty input |
| Upload.LastIndexOf | app.py:35 | the index of the last occurrence of a character, -1 exactly when it does not occur |
| Upload.RSplitOnce | app.py:35 | `rsplit('.', 1)`: one part when there is no dot, else the text before and after the last dot |
| Upload.AllowedFile | app.py:33-35 | true iff the name has a last dot and the lower-cased text after it is one of png, jpg, jpeg, gif |
| Upload.LastExtensionDecides | app.py:33-35 | for `stem + "." + ext` with no dot in `ext`, the verdict depends only on whether lower-cased `ext` is allowed |
| Upload.AllowedFileIgnoresCase | app.py:35 | for ASCII names, upper-casing the whole name does not change the verdict |
| Upload.AcceptsUpperCasePng | app.py:17 | `"a.PNG"` is accepted |
| Upload.AcceptsLastOfSeveralExtensions | app.py:35 | any name ending in `.tar.gif` is accepted, since only the last extension is read |
| Upload.RejectsMissingDot | app.py:35 | `"png"` is rejected |
| Upload.RejectsBmp | app.py:17 | any name ending in `.bmp` is rejected |
| Upload.RejectsOtherExtension | app.py:17 | `"a.bmp"` is rejected |
| Upload.CheckUpload | app.py:272-292 | accepted iff a file part is present and its name passes `allowed_file`; each rejection carries its own message |
| Upload.UploadAnswer | app.py:272-304 | the route answers 200 iff a file part is present and its name passes `allowed_file`, and 400 otherwise |
| AiAnalysis.StripFences | app.py:103-110 | the reassigned `response_text` equals `Unfenced(text)` |
| AiAnalysis.SliceIsFenceBody | app.py:105-106 | slicing up to what `find` returned, -1 included, is the fence body |
| AiAnalysis.UnfencedJson | app.py:103-106 | with a ```` ```json ```` marker, the result is the stripped body after its first occurrence |
| AiAnalysis.UnfencedPlain | app.py:107-110 | with only a ```` ``` ```` marker, the result is the stripped body after its first occurrence |
| AiAnalysis.FenceBodyClosed | app.py:105-106 | a body with a closing fence ends at that fence |
| AiAnalysis.FenceBodyUnclosed | app.py:105-106 | a body without a closing fence runs to the end of the text minus its last character |
| AiAnalysis.FencedReply | app.py:103-106 | prose, ```` ```json ````, a payload, ```` ``` ```` and anything after give exactly the stripped payload |
| AiAnalysis.UnterminatedReply | app.py:104-106 | a ```` ```json ```` block with no closing fence loses the payload's last character |
| AiAnalysis.JsonBlockBetween | app.py:103-106 | for any text, with `i` the first ```` ```json ```` and `j` the first ```` ``` ```` at or after `i+7`, the result is the text between them, stripped |
| AiAnalysis.JsonBlockUnclosed | app.py:103-106 | for any text whose first ```` ```json ```` is followed by no ```` ``` ````, the result runs from after the marker to the end but its last character, stripped |
| AiAnalysis.PlainBlockUnclosed | app.py:107-110 | for any text with no ```` ```json ```` whose first ```` ``` ```` is followed by no other, the result runs from after that fence to the end but its last character, stripped |
| AiAnalysis.PlainBlockBetween | app.py:107-110 | for any text with no ```` ```json ````, with `i` the first ```` ``` ```` and `j` the next one at or after `i+3`, the result is the text between them, stripped |
| AiAnalysis.PlainFencedReply | app.py:107-110 | prose, ```` ``` ````, payload, ```` ``` ````, trailer, in a text with no ```` ```json ````, gives the stripped payload |
| AiAnalysis.PlainBlockNotJson | app.py:103 | a bare ```` ``` ```` block whose contents do not start with `j` contains no ```` ```json ```` |
| AiAnalysis.BarePlainBlock | app.py:107-110 | a bare ```` ``` ```` block whose contents do not start with `j` gives its stripped contents |
| AiAnalysis.UnfencedReply | app.py:103-110 | a reply with no fence is decoded unchanged, surrounding whitespace included |
| AiAnalysis.AiScores | app.py:49-130 | both grades and both summaries are present, the grades are strings with no lower-case ASCII letter, and `ai_generated` is present (and True) exactly when a client exists |
| AiAnalysis.ScoresWithoutClient | app.py:49-55 | without a client both grades are 'C' with the "not configured" summary, and there is no `ai_generated` |
| AiAnalysis.ScoresOnFailure | app.py:122-130 | a raised call or an unusable reply gives 'C' with the failure summary and `ai_generated` True |
| AiAnalysis.ScoresFromReply | app.py:112-120 | a usable reply gives its grade upper-cased (default 'C') and its summary (default "Analysis completed") |
| AiAnalysis.GenerateAiScores | app.py:49-130 | the step-by-step handler returns `AiScores(groq, loads)` |
| AiAnalysis.FencedReplyGrades | app.py:103-120 | a fenced reply decoding to a usable object gives that object's grade, upper-cased |
| Product.NutrimentsOf | app.py:173-180 | each of the six nutrients is the upstream per-100g value when present, else 'N/A' |
| Product.Normalised | app.py:161-181 | the record has the barcode, each text field copied or defaulted ('Unknown Product', 'Unknown Brand', 'Not available', 'None specified', ''), both grades upper-cased from upstream ('' when absent), and the nutriments dict |
| Product.EmptyProductDefaults | app.py:161-181 | an empty product gives every default and two empty grades |
| Product.MissingIffNoUpstreamGrade | app.py:167-168 | a normalised grade is empty exactly when the upstream grade is absent or empty |
| Product.FillGrade | app.py:188-196 | the grade filled is the AI's when it was missing and the record's own when present; the other grade and every other field stay the same |
| Product.MergedGrades | app.py:184-196 | after the merge each grade is the record's when present and the AI's when missing, and no other field changes |
| Product.MergeIgnoresAiWhenGraded | app.py:184 | a record with both grades comes out of the merge unchanged |
| Product.FetchProductData | app.py:143-214 | the step-by-step lookup returns `FetchResult`, and it calls the AI step exactly when a found record lacks a grade |
| Product.TransportFailures | app.py:200-214 | a timeout, a network error and any other exception each give their own `success: False` message |
| Product.StatusNotOneIsNotFound | app.py:152-156 | a reply whose status is not 1 gives "Product not found in database" |
| Product.FoundIff | app.py:149-181 | the lookup succeeds exactly for a dict reply with status 1 whose product is a dict that can be normalised |
| Product.UpstreamGradeKept | app.py:188-196 | a grade given by the database is kept, with no summary or AI mark added |
| Product.MissingGradeFilled | app.py:188-196 | a missing grade becomes the AI grade with the AI summary, marked as AI-generated |
| Product.OnlyGradesMerged | app.py:184-196 | the merge changes no field but the two grades |
| Product.GradesUpperCase | app.py:167-168 | both grades of a found record contain no lower-case ASCII letter, whether given or filled in |
| Product.AiIrrelevantWhenGraded | app.py:184-185 | when the database gives both grades, the AI outcome makes no difference to the result |
| Product.FoundKeepsBarcode | app.py:163 | a found record is for the barcode that was looked up |
| Scan.ScanBarcode | app.py:231-260 | the status is 200, 400, 404 or 500; 200 exactly for a found record and 404 exactly for a lookup failure |
| Scan.BadRequestIs400 | app.py:234-246 | 400 exactly for a falsy body, a body without `barcode`, or a whitespace-only barcode, each with its message |
| Scan.MissingBarcodeIs400 | app.py:234-238 | a dict body without `barcode` gives 400 "No barcode provided" |
| Scan.BlankBarcodeIs400 | app.py:240-246 | a whitespace-only barcode gives 400 "Barcode cannot be empty" |
| Scan.ValidBarcodeIsLookedUp | app.py:249-254 | a valid barcode is looked up stripped; the payload is the lookup result, 404 on failure and 200 otherwise |
| Scan.FetchFailureIs404 | app.py:251-252 | a timeout, network error, other error or status other than 1 gives 404 with `success` False |
| Scan.SuccessCarriesRecord | app.py:254 | a 200 means a string barcode that is not all whitespace was submitted, and the record carries it stripped |
| Scan.RejectionIgnoresLookup | app.py:231-246 | a 400 or 500 is the same whatever the lookup and the AI would have returned |
| Scan.MalformedBarcodeIs500 | app.py:256-260 | a truthy body that passes or breaks the `in` test but has no string barcode gives 500 |

The contracts above are stated over these definitions, each of which encodes a rule of the source directly:

- `JsonValue.Truthy` (app.py:234): Python's truth value of the decoded body for `not data`: null, false, zero, and the empty string, list and dict are false.
- `Scan.HasBarcodeKey` (app.py:234): `'barcode' in data` for a truthy body. It is a key test on a dict, an element test on a list and a substring test on a string. On a number or a boolean it is None, because `in` raises there.
- `Product.IsOne` (app.py:152): the values for which `data.get('status') != 1` is false, namely 1, 1.0 and True.
- `Product.Catalogued` (app.py:143-181, app.py:200-214): the lookup before any AI step. It is an error message for each exception and for a status other than 1, and the normalised record otherwise.
- `Product.Merged` (app.py:184-196): the two fill steps, Nutri-Score first.
- `AiAnalysis.UsableReply` (app.py:100-118): the decoded unfenced reply, when the call returned, `json.loads` succeeded and the result can be reshaped without raising.
- `AiAnalysis.Reshaped` (app.py:114-120): the dict built from a usable reply. Its grades are upper-cased with default 'C', its summaries are copied with default "Analysis completed", and `ai_generated` is True.
- `Upload.UploadStatus` (app.py:272-304): 400 for a rejected upload and 200 for an accepted one.

## Left out

- Network I/O is not modelled. `requests.get`, `raise_for_status`, `response.json()` and the chat-completion call are the abstract `Upstream` and `GroqOutcome` values. Which exception class a non-JSON response body raises depends on the `requests` version: `NetworkError` covers the newer `RequestException` subclass and `OtherError` the older `ValueError`.
- `json.loads` is a parameter. Its decoding is library code outside this model.
- A message `content` of None is not a separate case. It makes the `in` test raise, so it is the same as `CallRaised`.
- The prompt text (app.py:59-85) is left out. It is formatting for the external service, and the AI outcome is a parameter.
- Flask plumbing is left out: routing, `jsonify`, `render_template`, the 413 handler, configuration and `app.run`. Dicts are modelled without key order. The product record is a datatype, not the serialised JSON.
- `request.get_json()` is only `Unreadable` or a decoded body. Older Flask versions return None instead of raising. That case is `Body(JNull)`, which gives 400.
- Upload.CheckUpload: stops before `secure_filename` and `file.save`. `secure_filename` belongs to werkzeug, which is not part of this model, and saving is file I/O. The generic 500 handler of `upload_image` is left out with them.
- PyStr.UpperIsUpper: `lower()` and `upper()` are modelled on ASCII letters only. Python's full Unicode case mapping (say `'ß'.upper() == 'SS'`) is not captured.
- JSON numbers are exact reals. Only two tests look at them: `status != 1`, which accepts 1, 1.0 and True as Python does, and the truth test `if not data` in `scan_barcode`, where a number is false exactly when it is zero.
- Features that `app.py` does not contain are not modelled, among them certification keywords, health warnings, concurrent enrichment, sustainability averaging, ZIP geocoding and a market search.
- The `print` of the exception in `generate_ai_scores` (app.py:123) is console output and is left out; the failure scores it precedes are modelled.
- Upload.AllowedFileIgnoresCase: holds for ASCII names only. Python's `upper()` maps some other characters to ASCII letters, so `'a.gıf'.upper() == 'A.GIF'`: `allowed_file` rejects the first and accepts the second.
