/**
 * The OpenAI-compatible chat client of app/llm/openai_compat.py: the base
 * URL it keeps, the prompt it builds from a question and its evidence, the
 * request it sends, and how it reads the reply. The POST itself is a
 * parameter.
 */
module OpenAiCompat {
  import opened Common
  import opened Values

  /** `OpenAICompatibleLLMClient(base_url, api_key, model, timeout)` */
  datatype LlmClient = LlmClient(baseUrl: string, apiKey: string, model: string, timeout: int)

  /** `s.rstrip("/")` */
  function StripSlashes(s: string): (r: string)
    ensures |r| <= |s| && r == s[..|r|]
    ensures r == [] || r[|r| - 1] != '/'
    ensures forall k :: |r| <= k < |s| ==> s[k] == '/'
  {
    if s != [] && s[|s| - 1] == '/' then StripSlashes(s[..|s| - 1]) else s
  }

  /** The constructor keeps the base URL without its trailing slashes. */
  function NewLlmClient(baseUrl: string, apiKey: string, model: string, timeout: int): (c: LlmClient)
    ensures c.baseUrl == StripSlashes(baseUrl) && c.apiKey == apiKey && c.model == model && c.timeout == timeout
  {
    LlmClient(StripSlashes(baseUrl), apiKey, model, timeout)
  }

  /** The endpoint every request goes to. */
  function CompletionsUrl(c: LlmClient): string
  {
    c.baseUrl + "/chat/completions"
  }

  /** However many slashes the configured URL ends with, exactly one
      separates it from the endpoint path. */
  lemma UrlHasOneSlash(baseUrl: string, apiKey: string, model: string, timeout: int)
    ensures var url := CompletionsUrl(NewLlmClient(baseUrl, apiKey, model, timeout));
            var b := StripSlashes(baseUrl);
            && url == b + "/chat/completions"
            && (b == [] || url[|b| - 1] != '/')
            && baseUrl == b + baseUrl[|b|..]
            && forall k :: |b| <= k < |baseUrl| ==> baseUrl[k] == '/'
  {
  }

  // -------------------------------------------------------------- prompt

  /** The non-empty snippets of the evidence, in order; each item is
      represented by its `snippet` entry (None when it has none or it is
      null). */
  function Snippets(evidence: seq<Option<string>>): (r: seq<string>)
    ensures forall t :: t in r ==> t != [] && Some(t) in evidence
  {
    if evidence == [] then []
    else (if evidence[0].Some? && evidence[0].value != [] then [evidence[0].value] else []) + Snippets(evidence[1..])
  }

  const EvidenceHeading: string := "\n근거:\n"

  /** `_build_prompt(question, evidence)` */
  function BuildPrompt(question: string, evidence: Option<seq<Option<string>>>): string
  {
    var snippets := if evidence.Some? then Snippets(evidence.value) else [];
    var parts := [question] + (if snippets != [] then [EvidenceHeading + Join(snippets, "\n")] else []);
    Join(parts, "\n")
  }

  /** Snippets keep their order across a split of the evidence. */
  lemma {:induction false} SnippetsConcat(a: seq<Option<string>>, b: seq<Option<string>>)
    ensures Snippets(a + b) == Snippets(a) + Snippets(b)
  {
    if a == [] {
      assert a + b == b;
    } else {
      assert (a + b)[0] == a[0];
      assert (a + b)[1..] == a[1..] + b;
      SnippetsConcat(a[1..], b);
    }
  }

  /** A missing or empty snippet is dropped; a non-empty one is kept. */
  lemma SnippetsOne(item: Option<string>)
    ensures Snippets([item]) == if item.Some? && item.value != [] then [item.value] else []
  {
    assert [item][1..] == [];
  }

  /** Without a usable snippet the question goes out unchanged; with one,
      the snippets follow it under the evidence heading, one per line. */
  lemma PromptShape(question: string, evidence: Option<seq<Option<string>>>)
    ensures var snippets := if evidence.Some? then Snippets(evidence.value) else [];
            && (snippets == [] ==> BuildPrompt(question, evidence) == question)
            && (snippets != [] ==> BuildPrompt(question, evidence) == question + "\n" + "\n근거:\n" + Join(snippets, "\n"))
  {
    var snippets := if evidence.Some? then Snippets(evidence.value) else [];
    if snippets != [] {
      var parts := [question, EvidenceHeading + Join(snippets, "\n")];
      assert parts[1..] == [EvidenceHeading + Join(snippets, "\n")];
      assert Join(parts, "\n") == question + "\n" + (EvidenceHeading + Join(snippets, "\n"));
    }
  }

  /** The prompt of the field extractor: one snippet holding the OCR text. */
  lemma SingleSnippetPrompt(question: string, raw: string)
    ensures BuildPrompt(question, Some([Some(raw)])) == if raw == [] then question else question + "\n" + "\n근거:\n" + raw
  {
    SnippetsOne(Some(raw));
    PromptShape(question, Some([Some(raw)]));
  }

  // ------------------------------------------------------------- request

  /** One chat message. */
  datatype Message = Message(role: string, content: string)

  const SystemPrompt: string := "너는 OCR 텍스트에서 필드를 추출하는 도우미야."

  /** What `generate` posts: the endpoint, the bearer token, the model and
      the two messages. */
  datatype ChatRequest = ChatRequest(url: string, authorization: string, model: string, messages: seq<Message>)

  function RequestFor(c: LlmClient, question: string, evidence: Option<seq<Option<string>>>): (req: ChatRequest)
    ensures |req.messages| == 2
    ensures req.messages[0] == Message("system", SystemPrompt)
    ensures req.messages[1] == Message("user", BuildPrompt(question, evidence))
    ensures req.url == CompletionsUrl(c) && req.authorization == "Bearer " + c.apiKey && req.model == c.model
  {
    ChatRequest(CompletionsUrl(c), "Bearer " + c.apiKey, c.model,
                [Message("system", SystemPrompt), Message("user", BuildPrompt(question, evidence))])
  }

  // --------------------------------------------------------------- reply

  /**
   * `_parse_response` on the decoded reply: None where Python raises (the
   * reply or its first choice or message is not a dictionary, or `choices`
   * is a non-empty value that cannot be indexed as a list).
   */
  function ParsedReply(data: Value, show: Value -> string): (r: Option<string>)
    ensures data.Dict? && !Truthy(GetOr(data.entries, "choices", List([]))) ==> r == Some("")
    ensures r.Some? ==> r.value == [] || (!IsSpace(r.value[0]) && !IsSpace(r.value[|r.value| - 1]))
  {
    if !data.Dict? then None
    else
      var choices := GetOr(data.entries, "choices", List([]));
      if !Truthy(choices) then Some("")
      else if choices.List? && choices.items[0].Dict? then
        var message := GetOr(choices.items[0].entries, "message", Dict(map[]));
        if message.Dict? then Some(ContentText(message.entries, show)) else None
      else None
  }

  /** `str(message.get("content", "")).strip()`: no white space is left at
      either end, and a message without content gives the empty string. */
  function ContentText(message: map<string, Value>, show: Value -> string): (text: string)
    ensures text == [] || (!IsSpace(text[0]) && !IsSpace(text[|text| - 1]))
    ensures "content" !in message ==> text == ""
  {
    var raw := PyStr(GetOr(message, "content", Str("")), show);
    if "content" !in message then
      StripEmpty();
      Strip(raw)
    else Strip(raw)
  }

  lemma StripEmpty()
    ensures Strip("") == ""
  {
  }

  /** The first choice's content is returned stripped, whatever follows
      it; a message without content gives the empty string. */
  lemma ReplyContent(data: map<string, Value>, choice: map<string, Value>, rest: seq<Value>, show: Value -> string)
    requires "choices" in data && data["choices"] == List([Dict(choice)] + rest)
    requires "message" in choice && choice["message"].Dict?
    ensures ParsedReply(Dict(data), show) == Some(ContentText(choice["message"].entries, show))
    ensures "content" !in choice["message"].entries ==> ParsedReply(Dict(data), show) == Some("")
  {
    var choices := GetOr(data, "choices", List([]));
    assert choices.items[0] == Dict(choice);
    assert Truthy(choices);
    var message := GetOr(choice, "message", Dict(map[]));
    assert message == choice["message"];
  }

  /** A null content comes back as the text "None", as `str(None)`. */
  lemma NullContent(message: map<string, Value>, show: Value -> string)
    requires "content" in message && message["content"] == Null
    ensures ContentText(message, show) == "None"
  {
    assert StripStart("None") == "None";
    assert StripEnd("None") == "None";
  }

  /**
   * `generate(question, evidence)`: `exchange` stands for the POST and the
   * decoding of its answer.
   */
  function Generate(c: LlmClient, question: string, evidence: Option<seq<Option<string>>>,
                    exchange: ChatRequest -> Value, show: Value -> string): Option<string>
  {
    ParsedReply(exchange(RequestFor(c, question, evidence)), show)
  }
}
