/**
 * The LLM field extractors of app/extractors/llm.py: reading a JSON object
 * out of a chat reply, the extractor that asks the OpenAI-compatible API,
 * the fixed mock, and the choice between them.
 */
module LlmExtractor {
  import opened Common
  import opened Values
  import opened OpenAiCompat

  /**
   * `_parse_json_response(text)`. `decodeObject` is `json.loads` on the
   * slice; the slice starts with `{` and ends with `}`, and JSON text of
   * that shape can only decode to an object, so the decoder yields a
   * dictionary or None for a decode error.
   */
  function ParsedJson(text: string, decodeObject: string -> Option<map<string, Value>>): map<string, Value>
  {
    if text == [] then map[]
    else
      var start := Find(text, '{');
      var end := RFind(text, '}');
      if start.None? || end.None? || end.value <= start.value then map[]
      else
        var decoded := decodeObject(text[start.value..end.value + 1]);
        if decoded.Some? then decoded.value else map[]
  }

  /** The text between the first `{` and the last `}` of `text`, both
      included. */
  predicate IsJsonSlice(text: string, i: nat, j: nat)
  {
    && i < j < |text| && text[i] == '{' && text[j] == '}'
    && (forall k :: 0 <= k < i ==> text[k] != '{')
    && (forall k :: j < k < |text| ==> text[k] != '}')
  }

  /**
   * `_parse_json_response` decodes exactly the slice from the first `{` to
   * the last `}` when the first comes before the last, and falls back to
   * `{}` in every other case (empty text, a brace missing, the braces the
   * wrong way round, a decode error). Only a `JSONDecodeError` is caught; a
   * decoder that raises anything else (a `RecursionError` on deep nesting,
   * a `ValueError` on a very long integer) is outside this model.
   */
  lemma ParsedJsonSpec(text: string, decodeObject: string -> Option<map<string, Value>>)
    ensures (exists i: nat, j: nat :: IsJsonSlice(text, i, j))
            || ParsedJson(text, decodeObject) == map[]
    ensures forall i: nat, j: nat :: IsJsonSlice(text, i, j) ==>
              ParsedJson(text, decodeObject) ==
                (if decodeObject(text[i..j + 1]).Some? then decodeObject(text[i..j + 1]).value else map[])
  {
    forall i: nat, j: nat | IsJsonSlice(text, i, j)
      ensures ParsedJson(text, decodeObject) ==
                (if decodeObject(text[i..j + 1]).Some? then decodeObject(text[i..j + 1]).value else map[])
    {
      FirstFound(text, '{', 0, i);
      RFindIs(text, '}', j);
    }
    var start := Find(text, '{');
    var end := RFind(text, '}');
    if text != [] && start.Some? && end.Some? && start.value < end.value {
      assert IsJsonSlice(text, start.value, end.value);
    }
  }

  /** `rfind` finds the last occurrence. */
  lemma RFindIs(s: string, c: char, j: nat)
    requires j < |s| && s[j] == c && forall k :: j < k < |s| ==> s[k] != c
    ensures RFind(s, c) == Some(j)
  {
  }

  /** A reply wrapped in a code fence still yields its object. */
  lemma FencedReply(decodeObject: string -> Option<map<string, Value>>)
    ensures ParsedJson("```json\n{\"title\": 1}\n```", decodeObject) ==
              (if decodeObject("{\"title\": 1}").Some? then decodeObject("{\"title\": 1}").value else map[])
  {
    var text := "```json\n{\"title\": 1}\n```";
    assert IsJsonSlice(text, 8, 19);
    ParsedJsonSpec(text, decodeObject);
    assert text[8..20] == "{\"title\": 1}";
  }

  /** A `}` before the first `{` leaves nothing to decode. */
  lemma BracesReversed(decodeObject: string -> Option<map<string, Value>>)
    ensures ParsedJson("} no json {", decodeObject) == map[]
  {
    assert Find("} no json {", '{') == Some(10);
    assert RFind("} no json {", '}') == Some(0);
  }

  // --------------------------------------------------------- the extractors

  /** What `MockLLMFieldExtractor.extract` returns, whatever it is given. */
  function MockExtract(rawText: string): (fields: map<string, Value>)
    ensures fields.Keys == {"title", "store"}
    ensures fields["title"] == Str("LLM-보완-제품") && fields["store"] == Str("LLM-상점")
  {
    map["title" := Str("LLM-보완-제품"), "store" := Str("LLM-상점")]
  }

  /** The instruction `SolarLLMFieldExtractor.extract` sends. */
  const ExtractionQuestion: string :=
    "다음 OCR 텍스트에서 제품 정보를 JSON으로 추출해줘.\n"
    + "필드는 title, purchase_date, amount, store, order_id, refund_deadline, "
    + "warranty_end_date, as_contact, product_category 만 포함해.\n"
    + "날짜는 YYYY-MM-DD 형식, amount는 숫자만 포함해.\n"
    + "없으면 null로 반환해.\n"

  /**
   * `SolarLLMFieldExtractor.extract(raw_text)`: the OCR text goes to the
   * client as the single evidence snippet, and the reply is read as JSON.
   * None when reading the reply raises.
   */
  function SolarExtract(c: LlmClient, rawText: string, exchange: ChatRequest -> Value,
                        show: Value -> string, decodeObject: string -> Option<map<string, Value>>)
    : Option<map<string, Value>>
  {
    var reply := Generate(c, ExtractionQuestion, Some([Some(rawText)]), exchange, show);
    if reply.Some? then Some(ParsedJson(reply.value, decodeObject)) else None
  }

  /** The user message of an extraction request carries the instruction
      and then the OCR text under the evidence heading. */
  lemma ExtractionPrompt(c: LlmClient, rawText: string)
    requires rawText != []
    ensures RequestFor(c, ExtractionQuestion, Some([Some(rawText)])).messages[1].content
              == ExtractionQuestion + "\n" + "\n근거:\n" + rawText
  {
    SingleSnippetPrompt(ExtractionQuestion, rawText);
  }

  /** The extractor `build_llm_extractor` returns. */
  datatype ExtractorChoice =
    | Solar(client: LlmClient)
    | MockExtractor

  /** `build_llm_extractor` with the settings it reads: the API extractor
      exactly when both the base URL and the key are set. */
  function BuildLlmExtractor(baseUrl: Option<string>, apiKey: Option<string>, model: string): (e: ExtractorChoice)
    ensures e.Solar? <==> baseUrl.Some? && baseUrl.value != [] && apiKey.Some? && apiKey.value != []
    ensures e.Solar? ==> e.client.baseUrl == StripSlashes(baseUrl.value) && e.client.apiKey == apiKey.value
                         && e.client.model == model && e.client.timeout == 20
  {
    if baseUrl.Some? && baseUrl.value != [] && apiKey.Some? && apiKey.value != [] then
      Solar(NewLlmClient(baseUrl.value, apiKey.value, model, 20))
    else MockExtractor
  }
}
