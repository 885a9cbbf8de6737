/**
 * `generate_ai_scores`: the fallback scores used when no client is
 * configured or the call fails, the stripping of Markdown code fences from
 * the model's reply, and the reshaping of the decoded reply into grades and
 * summaries. The chat call is an outcome given as a parameter, and
 * `json.loads` is an abstract partial decoder `loads`.
 */
module AiAnalysis {

  import opened Wrappers
  import opened JsonValue
  import opened PyStr

  /** The two letter grades the record carries, with the keys that belong to each. */
  datatype Score = NutriScore | EcoScore {

    function Key(): string {
      if NutriScore? then "nutriscore" else "ecoscore"
    }

    function SummaryKey(): string {
      if NutriScore? then "nutriscore_summary" else "ecoscore_summary"
    }
  }

  const ScoreKeys: set<string> := {"nutriscore", "nutriscore_summary", "ecoscore", "ecoscore_summary"}

  // ---------------------------------------------------------------------
  // Code-fence stripping

  const JsonFence: string := "```json"
  const Fence: string := "```"

  /** `s` holds no backtick at all, so no fence can start inside it. */
  predicate NoBacktick(s: string) {
    forall k :: 0 <= k < |s| ==> s[k] != '`'
  }

  /**
   * The text after an opening marker that ends at `start`: up to the next
   * closing fence, or, when no fence follows, up to but excluding the last
   * character (the effect of slicing to an index of -1).
   */
  function FenceBody(text: string, start: nat): string
    requires start <= |text|
  {
    var close := Find(text, Fence, start);
    if close >= 0 then text[start..close]
    else if start < |text| - 1 then text[start..|text| - 1]
    else ""
  }

  /** A block opened by the first `marker`, its contents stripped. */
  function OpenedBlock(text: string, marker: string): string
    requires Contains(text, marker)
  {
    Strip(FenceBody(text, Find(text, marker, 0) + |marker|))
  }

  /** What the reply becomes before it is decoded: a ```json block first, else a plain ``` block, else unchanged. */
  function Unfenced(text: string): string {
    if Contains(text, JsonFence) then OpenedBlock(text, JsonFence)
    else if Contains(text, Fence) then OpenedBlock(text, Fence)
    else text
  }

  /** Slicing up to what `find` returned, -1 included, gives the fence body. */
  lemma SliceIsFenceBody(text: string, start: nat)
    requires start <= |text|
    ensures PySlice(text, start, Find(text, Fence, start)) == FenceBody(text, start)
  {
  }

  /** The reply is reassigned step by step through `find` and slicing, as the handler does. */
  method StripFences(text: string) returns (responseText: string)
    ensures responseText == Unfenced(text)
  {
    assert |JsonFence| == 7 && |Fence| == 3;
    responseText := text;
    if Contains(responseText, JsonFence) {
      var jsonStart := Find(responseText, JsonFence, 0) + 7;
      var jsonEnd := Find(responseText, Fence, jsonStart);
      SliceIsFenceBody(responseText, jsonStart);
      assert Unfenced(text) == OpenedBlock(text, JsonFence);
      assert OpenedBlock(text, JsonFence) == Strip(FenceBody(text, jsonStart));
      responseText := Strip(PySlice(responseText, jsonStart, jsonEnd));
    } else if Contains(responseText, Fence) {
      var jsonStart := Find(responseText, Fence, 0) + 3;
      var jsonEnd := Find(responseText, Fence, jsonStart);
      SliceIsFenceBody(responseText, jsonStart);
      assert Unfenced(text) == OpenedBlock(text, Fence);
      assert OpenedBlock(text, Fence) == Strip(FenceBody(text, jsonStart));
      responseText := Strip(PySlice(responseText, jsonStart, jsonEnd));
    }
  }

  /** A block opened by a marker that occurs starts after the marker's first occurrence. */
  lemma OpenedBlockAt(t: string, marker: string)
    requires Contains(t, marker)
    ensures Find(t, marker, 0) + |marker| <= |t|
    ensures OpenedBlock(t, marker) == Strip(FenceBody(t, Find(t, marker, 0) + |marker|))
  {
  }

  /** A text with a ```json marker is cut after the first one. */
  lemma UnfencedJson(t: string)
    requires Contains(t, JsonFence)
    ensures Find(t, JsonFence, 0) + |JsonFence| <= |t|
    ensures Unfenced(t) == Strip(FenceBody(t, Find(t, JsonFence, 0) + |JsonFence|))
  {
    OpenedBlockAt(t, JsonFence);
  }

  /** A text with a plain ``` marker and no ```json one is cut after the first ```. */
  lemma UnfencedPlain(t: string)
    requires !Contains(t, JsonFence) && Contains(t, Fence)
    ensures Find(t, Fence, 0) + |Fence| <= |t|
    ensures Unfenced(t) == Strip(FenceBody(t, Find(t, Fence, 0) + |Fence|))
  {
    OpenedBlockAt(t, Fence);
  }

  /** A closed block ends at the closing fence. */
  lemma FenceBodyClosed(t: string, start: nat, close: nat)
    requires start <= |t| && Find(t, Fence, start) == close
    ensures start <= close && FenceBody(t, start) == t[start..close]
  {
  }

  /** An unclosed block runs to the end of the text but its last character. */
  lemma FenceBodyUnclosed(t: string, start: nat)
    requires start <= |t| && Find(t, Fence, start) == -1
    ensures FenceBody(t, start) == if start < |t| - 1 then t[start..|t| - 1] else ""
  {
  }

  /**
   * The general rule for a ```json block: with `i` the first ```json and
   * `j` the first ``` at or after the end of that marker, the decoded text
   * is what lies between them, stripped.
   */
  lemma JsonBlockBetween(t: string, i: nat, j: nat)
    requires OccursAt(t, JsonFence, i) && forall k :: 0 <= k < i ==> !OccursAt(t, JsonFence, k)
    requires i + |JsonFence| <= j && OccursAt(t, Fence, j)
    requires forall k :: i + |JsonFence| <= k < j ==> !OccursAt(t, Fence, k)
    ensures Unfenced(t) == Strip(t[i + |JsonFence|..j])
  {
    FindIs(t, JsonFence, 0, i);
    FindIs(t, Fence, i + |JsonFence|, j);
    assert FenceBody(t, i + |JsonFence|) == t[i + |JsonFence|..j] by {
      FenceBodyClosed(t, i + |JsonFence|, j);
    }
    UnfencedJson(t);
  }

  /** The same rule when no ``` follows the first ```json: the block runs to the end but its last character. */
  lemma JsonBlockUnclosed(t: string, i: nat)
    requires OccursAt(t, JsonFence, i) && forall k :: 0 <= k < i ==> !OccursAt(t, JsonFence, k)
    requires forall k :: i + |JsonFence| <= k ==> !OccursAt(t, Fence, k)
    ensures Unfenced(t) == Strip(if i + |JsonFence| < |t| - 1 then t[i + |JsonFence|..|t| - 1] else "")
  {
    FindIs(t, JsonFence, 0, i);
    assert Find(t, Fence, i + |JsonFence|) == -1;
    FenceBodyUnclosed(t, i + |JsonFence|);
    UnfencedJson(t);
  }

  /** The rule for a plain ``` block in a text with no ```json: between the first ``` and the next one. */
  lemma PlainBlockBetween(t: string, i: nat, j: nat)
    requires forall k :: !OccursAt(t, JsonFence, k)
    requires OccursAt(t, Fence, i) && forall k :: 0 <= k < i ==> !OccursAt(t, Fence, k)
    requires i + |Fence| <= j && OccursAt(t, Fence, j)
    requires forall k :: i + |Fence| <= k < j ==> !OccursAt(t, Fence, k)
    ensures Unfenced(t) == Strip(t[i + |Fence|..j])
  {
    ContainsIff(t, JsonFence);
    FindIs(t, Fence, 0, i);
    FindIs(t, Fence, i + |Fence|, j);
    assert FenceBody(t, i + |Fence|) == t[i + |Fence|..j] by {
      FenceBodyClosed(t, i + |Fence|, j);
    }
    UnfencedPlain(t);
  }

  /** The plain rule when no ``` follows the first one: the block runs to the end but its last character. */
  lemma PlainBlockUnclosed(t: string, i: nat)
    requires forall k :: !OccursAt(t, JsonFence, k)
    requires OccursAt(t, Fence, i) && forall k :: 0 <= k < i ==> !OccursAt(t, Fence, k)
    requires forall k :: i + |Fence| <= k ==> !OccursAt(t, Fence, k)
    ensures Unfenced(t) == Strip(if i + |Fence| < |t| - 1 then t[i + |Fence|..|t| - 1] else "")
  {
    ContainsIff(t, JsonFence);
    FindIs(t, Fence, 0, i);
    assert Find(t, Fence, i + |Fence|) == -1;
    FenceBodyUnclosed(t, i + |Fence|);
    UnfencedPlain(t);
  }

  /** The first fence at or after `lo` in a text without backticks between `lo` and `i` is the one at `i`. */
  lemma FirstFenceAt(t: string, fence: string, lo: nat, i: int)
    requires |fence| > 0 && fence[0] == '`' && lo <= i && OccursAt(t, fence, i)
    requires forall k :: lo <= k < i ==> t[k] != '`'
    ensures Find(t, fence, lo) == i
  {
    assert forall j :: lo <= j < i ==> !OccursAt(t, fence, j) by {
      forall j | lo <= j < i ensures !OccursAt(t, fence, j) {
        if j + |fence| <= |t| {
          assert t[j..j + |fence|][0] == t[j];
        }
      }
    }
    FindIs(t, fence, lo, i);
  }

  /** A fence written after a text whose part from `lo` on has no backticks is the first one `find` meets. */
  lemma FindFenceAfter(pre: string, fence: string, rest: string, lo: nat)
    requires |fence| > 0 && fence[0] == '`' && lo <= |pre| && NoBacktick(pre[lo..])
    ensures Find(pre + fence + rest, fence, lo) == |pre|
  {
    var t := pre + fence + rest;
    assert t[|pre|..|pre| + |fence|] == fence;
    assert forall k :: lo <= k < |pre| ==> t[k] == pre[lo..][k - lo];
    FirstFenceAt(t, fence, lo, |pre|);
  }

  /** No fence starts in a tail without backticks. */
  lemma NoFenceInTail(pre: string, tail: string)
    requires NoBacktick(tail)
    ensures Find(pre + tail, Fence, |pre|) == -1
  {
    var t := pre + tail;
    forall j | |pre| <= j ensures !OccursAt(t, Fence, j) {
      if j + 3 <= |t| {
        assert t[j..j + 3][0] == t[j] == tail[j - |pre|];
      }
    }
  }

  /** A ```json block with prose before it and anything after it yields its stripped contents. */
  lemma FencedReply(prose: string, payload: string, trailer: string)
    requires NoBacktick(prose) && NoBacktick(payload)
    ensures Unfenced(prose + JsonFence + payload + Fence + trailer) == Strip(payload)
  {
    assert |JsonFence| == 7;
    var body := prose + JsonFence + payload;
    var t := body + Fence + trailer;
    assert Find(t, JsonFence, 0) == |prose| by {
      assert t == prose + JsonFence + (payload + Fence + trailer);
      assert prose[0..] == prose;
      FindFenceAfter(prose, JsonFence, payload + Fence + trailer, 0);
    }
    assert Find(t, Fence, |prose| + 7) == |body| by {
      assert body[|prose| + 7..] == payload;
      FindFenceAfter(body, Fence, trailer, |prose| + 7);
    }
    assert FenceBody(t, |prose| + 7) == payload by {
      FenceBodyClosed(t, |prose| + 7, |body|);
      assert t[|prose| + 7..|body|] == payload;
    }
    assert Unfenced(t) == Strip(FenceBody(t, |prose| + 7)) by {
      UnfencedJson(t);
    }
  }

  lemma DropLastOfSuffix(head: string, payload: string)
    requires payload != []
    ensures (head + payload)[|head|..|head| + |payload| - 1] == payload[..|payload| - 1]
  {
  }

  /** Without a closing fence the last character of the reply is lost. */
  lemma UnterminatedReply(prose: string, payload: string)
    requires NoBacktick(prose) && NoBacktick(payload) && payload != []
    ensures Unfenced(prose + JsonFence + payload) == Strip(payload[..|payload| - 1])
  {
    var head := prose + JsonFence;
    var t := head + payload;
    assert Find(t, JsonFence, 0) == |prose| by {
      assert prose[0..] == prose;
      FindFenceAfter(prose, JsonFence, payload, 0);
    }
    assert Find(t, Fence, |head|) == -1 by {
      NoFenceInTail(head, payload);
    }
    var body := payload[..|payload| - 1];
    assert FenceBody(t, |head|) == body by {
      FenceBodyUnclosed(t, |head|);
      DropLastOfSuffix(head, payload);
    }
    assert Unfenced(t) == Strip(FenceBody(t, |head|)) by {
      assert |head| == |prose| + |JsonFence|;
      UnfencedJson(t);
    }
  }

  /** A plain ``` block whose contents do not begin with `j` holds no ```json marker. */
  lemma PlainBlockNotJson(payload: string)
    requires NoBacktick(payload) && (payload == [] || payload[0] != 'j')
    ensures !Contains(Fence + payload + Fence, JsonFence)
  {
    assert |JsonFence| == 7 && |Fence| == 3;
    var t := Fence + payload + Fence;
    var close := 3 + |payload|;
    assert forall k :: 3 <= k < close ==> t[k] == payload[k - 3];
    assert forall k :: close <= k < |t| ==> t[k] == '`';
    forall j | 0 <= j ensures !OccursAt(t, JsonFence, j) {
      if j + 7 <= |t| {
        assert t[j..j + 7][2] == t[j + 2] && t[j..j + 7][3] == t[j + 3];
      }
    }
  }

  /** A plain ``` block with prose before it and anything after it, in a text with no ```json, yields its stripped contents. */
  lemma PlainFencedReply(prose: string, payload: string, trailer: string)
    requires NoBacktick(prose) && NoBacktick(payload)
    requires !Contains(prose + Fence + payload + Fence + trailer, JsonFence)
    ensures Unfenced(prose + Fence + payload + Fence + trailer) == Strip(payload)
  {
    assert |Fence| == 3;
    var body := prose + Fence + payload;
    var t := body + Fence + trailer;
    assert Find(t, Fence, 0) == |prose| by {
      assert t == prose + Fence + (payload + Fence + trailer);
      assert prose[0..] == prose;
      FindFenceAfter(prose, Fence, payload + Fence + trailer, 0);
    }
    assert Find(t, Fence, |prose| + 3) == |body| by {
      assert body[|prose| + 3..] == payload;
      FindFenceAfter(body, Fence, trailer, |prose| + 3);
    }
    assert FenceBody(t, |prose| + 3) == payload by {
      FenceBodyClosed(t, |prose| + 3, |body|);
      assert t[|prose| + 3..|body|] == payload;
    }
    assert Unfenced(t) == Strip(FenceBody(t, |prose| + 3)) by {
      UnfencedPlain(t);
    }
  }

  /** A bare ``` block whose contents do not begin with `j` meets the condition of `PlainFencedReply`. */
  lemma BarePlainBlock(payload: string)
    requires NoBacktick(payload) && (payload == [] || payload[0] != 'j')
    ensures Unfenced(Fence + payload + Fence) == Strip(payload)
  {
    PlainBlockNotJson(payload);
    assert [] + Fence + payload + Fence + [] == Fence + payload + Fence;
    PlainFencedReply([], payload, []);
  }

  /** A reply without any fence is decoded as it is, whitespace included. */
  lemma UnfencedReply(text: string)
    requires !Contains(text, Fence)
    ensures Unfenced(text) == text
  {
    if Contains(text, JsonFence) {
      ContainsIff(text, JsonFence);
      ContainsIff(text, Fence);
      var i :| OccursAt(text, JsonFence, i);
      assert text[i..i + 3] == text[i..i + 7][..3];
      assert OccursAt(text, Fence, i);
    }
  }

  // ---------------------------------------------------------------------
  // Shaping the scores

  /** The outcome of the chat-completion call. */
  datatype GroqOutcome =
    | NoClient                     // no API key, so `client` is None
    | CallRaised                   // the call raised an exception
    | Replied(content: string)     // the reply's message content

  const UnavailableSummary: string := "AI analysis unavailable - API key not configured"
  const FailedSummary: string := "Unable to generate detailed analysis"
  const CompletedSummary: string := "Analysis completed"
  const DefaultGrade: string := "C"

  /** Both grades 'C', both summaries `summary`. */
  function PlaceholderScores(summary: string): map<string, Json> {
    map["nutriscore" := JStr(DefaultGrade), "nutriscore_summary" := JStr(summary),
        "ecoscore" := JStr(DefaultGrade), "ecoscore_summary" := JStr(summary)]
  }

  /** What the exception handler returns. */
  function FailedScores(): map<string, Json> {
    PlaceholderScores(FailedSummary)["ai_generated" := JBool(true)]
  }

  /** The decoded reply can be reshaped without raising: a dict whose grades are strings when present. */
  predicate Usable(reply: Json) {
    reply.JObj? && StringOrAbsent(reply.fields, "nutriscore") && StringOrAbsent(reply.fields, "ecoscore")
  }

  /** The reshaped reply: grades upper-cased (default 'C'), summaries copied (default 'Analysis completed'). */
  function Reshaped(fields: map<string, Json>): map<string, Json>
    requires Usable(JObj(fields))
  {
    map["nutriscore" := JStr(Upper(Get(fields, "nutriscore", JStr(DefaultGrade)).s)),
        "nutriscore_summary" := Get(fields, "nutriscore_summary", JStr(CompletedSummary)),
        "ecoscore" := JStr(Upper(Get(fields, "ecoscore", JStr(DefaultGrade)).s)),
        "ecoscore_summary" := Get(fields, "ecoscore_summary", JStr(CompletedSummary)),
        "ai_generated" := JBool(true)]
  }

  /** The decoded, unfenced reply, when there is one that can be reshaped. */
  function UsableReply(groq: GroqOutcome, loads: string -> Option<Json>): Option<map<string, Json>> {
    if groq.Replied? && loads(Unfenced(groq.content)).Some? && Usable(loads(Unfenced(groq.content)).value)
    then Some(loads(Unfenced(groq.content)).value.fields)
    else None
  }

  /** The dict `generate_ai_scores` returns. */
  function AiScores(groq: GroqOutcome, loads: string -> Option<Json>): (r: map<string, Json>)
    ensures ScoreKeys <= r.Keys
    ensures ("ai_generated" in r) <==> !groq.NoClient?
    ensures "ai_generated" in r ==> r["ai_generated"] == JBool(true)
    ensures r["nutriscore"].JStr? && NoLowerAscii(r["nutriscore"].s)
    ensures r["ecoscore"].JStr? && NoLowerAscii(r["ecoscore"].s)
  {
    assert NoLowerAscii(DefaultGrade);
    match groq
    case NoClient => PlaceholderScores(UnavailableSummary)
    case CallRaised => FailedScores()
    case Replied(_) =>
      match UsableReply(groq, loads)
      case None => FailedScores()
      case Some(fields) =>
        UpperIsUpper(Get(fields, "nutriscore", JStr(DefaultGrade)).s);
        UpperIsUpper(Get(fields, "ecoscore", JStr(DefaultGrade)).s);
        Reshaped(fields)
  }

  /** Without a client both grades are 'C' with the "not configured" summary, and nothing is marked AI-generated. */
  lemma ScoresWithoutClient(loads: string -> Option<Json>, s: Score)
    ensures var r := AiScores(NoClient, loads);
      && r[s.Key()] == JStr("C") && r[s.SummaryKey()] == JStr(UnavailableSummary)
      && "ai_generated" !in r
  {
  }

  /** A failed call, an undecodable reply, or one whose grades are not strings gives 'C' with the failure summary. */
  lemma ScoresOnFailure(groq: GroqOutcome, loads: string -> Option<Json>, s: Score)
    requires !groq.NoClient? && UsableReply(groq, loads).None?
    ensures var r := AiScores(groq, loads);
      && r[s.Key()] == JStr("C") && r[s.SummaryKey()] == JStr(FailedSummary)
      && r["ai_generated"] == JBool(true)
  {
  }

  /** A usable reply gives its grade upper-cased (default 'C') and its summary (default "Analysis completed"). */
  lemma ScoresFromReply(groq: GroqOutcome, loads: string -> Option<Json>, s: Score)
    requires UsableReply(groq, loads).Some?
    ensures var r, fields := AiScores(groq, loads), UsableReply(groq, loads).value;
      && r[s.Key()] == (if s.Key() in fields then JStr(Upper(fields[s.Key()].s)) else JStr("C"))
      && r[s.SummaryKey()] == Get(fields, s.SummaryKey(), JStr(CompletedSummary))
      && r["ai_generated"] == JBool(true)
  {
  }

  /** `generate_ai_scores`, step by step: client check, call, fence stripping, decoding, reshaping. */
  method GenerateAiScores(groq: GroqOutcome, loads: string -> Option<Json>) returns (aiScores: map<string, Json>)
    ensures aiScores == AiScores(groq, loads)
  {
    if groq.NoClient? {
      return PlaceholderScores(UnavailableSummary);
    }
    if groq.CallRaised? {
      return FailedScores();
    }
    var responseText := StripFences(groq.content);
    var decoded := loads(responseText);
    if decoded.None? || !decoded.value.JObj? {
      return FailedScores();
    }
    var fields := decoded.value.fields;
    var nutriscore := Get(fields, "nutriscore", JStr(DefaultGrade));
    var ecoscore := Get(fields, "ecoscore", JStr(DefaultGrade));
    if !nutriscore.JStr? || !ecoscore.JStr? {
      return FailedScores();
    }
    aiScores := map[
      "nutriscore" := JStr(Upper(nutriscore.s)),
      "nutriscore_summary" := Get(fields, "nutriscore_summary", JStr(CompletedSummary)),
      "ecoscore" := JStr(Upper(ecoscore.s)),
      "ecoscore_summary" := Get(fields, "ecoscore_summary", JStr(CompletedSummary)),
      "ai_generated" := JBool(true)
    ];
  }

  /** A fenced reply whose contents decode to a usable object gives that object's grades, upper-cased. */
  lemma FencedReplyGrades(prose: string, payload: string, trailer: string,
                          loads: string -> Option<Json>, fields: map<string, Json>, s: Score)
    requires NoBacktick(prose) && NoBacktick(payload)
    requires loads(Strip(payload)) == Some(JObj(fields)) && Usable(JObj(fields))
    requires s.Key() in fields
    ensures AiScores(Replied(prose + JsonFence + payload + Fence + trailer), loads)[s.Key()]
            == JStr(Upper(fields[s.Key()].s))
  {
    FencedReply(prose, payload, trailer);
    ScoresFromReply(Replied(prose + JsonFence + payload + Fence + trailer), loads, s);
  }
}
