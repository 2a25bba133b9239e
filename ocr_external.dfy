/**
 * The Google Cloud Vision client of app/ocr/external.py: the constructor's
 * check, the request payload, the reading of a decoded response, and the
 * choice between the external and the mock client. The HTTP call itself and
 * the URL construction are not part of this model. JSON values are `Value`s
 * built from Null, Bool, Int, Str, List and Dict.
 */
module OcrExternal {
  import opened Common
  import opened Values
  import opened DocumentFields

  // ---------------------------------------------------------- the clients

  /** The client `build_ocr_client` returns. */
  datatype OcrClientChoice =
    | External(baseUrl: string, apiKey: string, timeout: int)
    | Mock

  const ConfigError: string := "OCR base_url/api_key is required"

  /** `ExternalOCRClient(base_url, api_key, timeout)`: an empty URL or key
      raises. */
  function NewExternalClient(baseUrl: string, apiKey: string, timeout: int): (r: Result<OcrClientChoice, string>)
    ensures r.Err? <==> baseUrl == [] || apiKey == []
    ensures r.Err? ==> r.error == ConfigError
    ensures r.Ok? ==> r.value == External(baseUrl, apiKey, timeout)
  {
    if baseUrl == [] || apiKey == [] then Err(ConfigError) else Ok(External(baseUrl, apiKey, timeout))
  }

  /** `build_ocr_client`: the external client exactly when both settings
      are non-empty, the mock otherwise. */
  function BuildOcrClient(baseUrl: Option<string>, apiKey: Option<string>, timeout: int): (c: OcrClientChoice)
    ensures c.External? <==> baseUrl.Some? && baseUrl.value != [] && apiKey.Some? && apiKey.value != []
    ensures c.External? ==> NewExternalClient(baseUrl.value, apiKey.value, timeout) == Ok(c)
  {
    if baseUrl.Some? && baseUrl.value != [] && apiKey.Some? && apiKey.value != [] then
      External(baseUrl.value, apiKey.value, timeout)
    else Mock
  }

  /** The text `MockOCRClient.extract_text` returns whatever it is given. */
  const MockText: string := "상호: 테스트마트\n구매일: 2024-01-10\n금액: 12,000원\n주문번호: A-1004"

  // ------------------------------------------------------------ the payload

  function Feature(kind: string): Value
  {
    List([Dict(map["type" := Str(kind)])])
  }

  /**
   * `_build_payload`; `encoded` is the file's base64 text. A PDF is sent as
   * an `inputConfig` for document text detection, with the page list when
   * there is a non-empty one; anything else as an `image` for text
   * detection.
   */
  function BuildPayload(imagePath: string, encoded: string, pages: Option<seq<int>>): (payload: Value)
    ensures payload.Dict? && payload.entries.Keys == {"requests"}
    ensures var requests := payload.entries["requests"];
            requests.List? && |requests.items| == 1 && requests.items[0].Dict?
  {
    var request :=
      if IsPdf(imagePath) then
        var base := map["inputConfig" := Dict(map["content" := Str(encoded), "mimeType" := Str("application/pdf")]),
                        "features" := Feature("DOCUMENT_TEXT_DETECTION")];
        if pages.Some? && pages.value != [] then base["pages" := List(seq(|pages.value|, k requires 0 <= k < |pages.value| => Int(pages.value[k])))]
        else base
      else
        map["image" := Dict(map["content" := Str(encoded)]), "features" := Feature("TEXT_DETECTION")];
    Dict(map["requests" := List([Dict(request)])])
  }

  /** The one request of a payload. */
  function RequestOf(payload: Value): map<string, Value>
    requires payload.Dict? && "requests" in payload.entries
    requires payload.entries["requests"].List? && |payload.entries["requests"].items| >= 1
    requires payload.entries["requests"].items[0].Dict?
  {
    payload.entries["requests"].items[0].entries
  }

  /** A PDF asks for document text detection on `application/pdf` content,
      with a page list only when pages are given; an image asks for text
      detection and has no page list. */
  lemma PayloadShape(imagePath: string, encoded: string, pages: Option<seq<int>>)
    ensures var r := RequestOf(BuildPayload(imagePath, encoded, pages));
            && (IsPdf(imagePath) ==>
                  && r.Keys == (if pages.Some? && pages.value != [] then {"inputConfig", "features", "pages"} else {"inputConfig", "features"})
                  && r["inputConfig"] == Dict(map["content" := Str(encoded), "mimeType" := Str("application/pdf")])
                  && r["features"] == Feature("DOCUMENT_TEXT_DETECTION"))
            && (!IsPdf(imagePath) ==>
                  && r.Keys == {"image", "features"}
                  && r["image"] == Dict(map["content" := Str(encoded)])
                  && r["features"] == Feature("TEXT_DETECTION"))
  {
  }

  // ------------------------------------------------------ _parse_response

  /** Why reading a response raises: a file-level error (reported with a
      fixed message, never the original), an item's error with its
      message, or a value of an unexpected kind (a Python TypeError,
      AttributeError or KeyError). */
  datatype OcrFailure =
    | FileAnnotateError
    | ItemError(message: Value)
    | Malformed

  /** The image responses one file response contributes: its `responses`
      list. Iterating a string or a dictionary gives only non-dictionary
      items, which are skipped later, so they contribute nothing; any other
      value cannot be iterated. */
  function NestedOf(fileResponse: Value): Result<seq<Value>, OcrFailure>
  {
    if !fileResponse.Dict? then Ok([])
    else if Truthy(Get(fileResponse.entries, "error")) then Err(FileAnnotateError)
    else match GetOr(fileResponse.entries, "responses", List([]))
      case List(items) => Ok(items)
      case Str(_) => Ok([])
      case Dict(_) => Ok([])
      case _ => Err(Malformed)
  }

  /** All image responses of a files:annotate reply, in order. */
  function FlattenFiles(files: seq<Value>): (r: Result<seq<Value>, OcrFailure>)
    ensures r.Err? ==> r.error == FileAnnotateError || r.error == Malformed
  {
    if files == [] then Ok([])
    else match FlattenFiles(files[..|files| - 1])
      case Err(e) => Err(e)
      case Ok(before) =>
        match NestedOf(files[|files| - 1])
        case Err(e) => Err(e)
        case Ok(nested) => Ok(before + nested)
  }

  /** The text of one image response: None to skip it. */
  function ItemText(item: Value, show: Value -> string): Result<Option<string>, OcrFailure>
  {
    if !item.Dict? then Ok(None)
    else
      var fields := item.entries;
      var error := Get(fields, "error");
      if Truthy(error) then
        (if error.Dict? then Err(ItemError(GetOr(error.entries, "message", Str("OCR error")))) else Err(Malformed))
      else
        var full := GetOr(fields, "fullTextAnnotation", Dict(map[]));
        if !full.Dict? then Err(Malformed)
        else
          var fullText := GetOr(full.entries, "text", Str(""));
          if Truthy(fullText) then Ok(Some(PyStr(fullText, show)))
          else
            var annotations := GetOr(fields, "textAnnotations", List([]));
            if !Truthy(annotations) then Ok(None)
            else if annotations.List? && annotations.items[0].Dict? then
              Ok(Some(PyStr(GetOr(annotations.items[0].entries, "description", Str("")), show)))
            else Err(Malformed)
  }

  /** The texts of the image responses, in order. */
  function ItemTexts(items: seq<Value>, show: Value -> string): Result<seq<string>, OcrFailure>
  {
    if items == [] then Ok([])
    else match ItemTexts(items[..|items| - 1], show)
      case Err(e) => Err(e)
      case Ok(before) =>
        match ItemText(items[|items| - 1], show)
        case Err(e) => Err(e)
        case Ok(t) => Ok(before + (if t.Some? then [t.value] else []))
  }

  /** `isinstance(responses[0], dict) and "responses" in responses[0]` */
  predicate NestedShape(responses: seq<Value>)
  {
    responses != [] && responses[0].Dict? && "responses" in responses[0].entries
  }

  /** The image responses a reply holds. */
  function ImageResponses(responses: seq<Value>): Result<seq<Value>, OcrFailure>
  {
    if NestedShape(responses) then FlattenFiles(responses) else Ok(responses)
  }

  /** `_parse_response` on the decoded reply. */
  function ParsedResponse(data: Value, show: Value -> string): Result<string, OcrFailure>
  {
    if !data.Dict? then Err(Malformed)
    else
      var responses := GetOr(data.entries, "responses", List([]));
      if !Truthy(responses) then Ok("")
      else match responses
        case List(rs) =>
          (match ImageResponses(rs)
           case Err(e) => Err(e)
           case Ok(items) =>
             match ItemTexts(items, show)
             case Err(e) => Err(e)
             case Ok(texts) => Ok(Join(texts, "\n")))
        case Str(_) => Ok("")
        case _ => Err(Malformed)
  }

  /** The files loop: collect the nested image responses, raising on the
      first file-level error. */
  method CollectImageResponses(files: seq<Value>) returns (r: Result<seq<Value>, OcrFailure>)
    ensures r == FlattenFiles(files)
  {
    var imageResponses: seq<Value> := [];
    for i := 0 to |files|
      invariant FlattenFiles(files[..i]) == Ok(imageResponses)
    {
      FlattenFilesSnoc(files, i);
      var nested := NestedOf(files[i]);
      if nested.Err? {
        FlattenFilesErrSticks(files, i + 1);
        return Err(nested.error);
      }
      imageResponses := imageResponses + nested.value;
    }
    assert files[..|files|] == files;
    return Ok(imageResponses);
  }

  /** The items loop: the text of each image response, raising on the first
      item error. */
  method CollectTexts(items: seq<Value>, show: Value -> string) returns (r: Result<seq<string>, OcrFailure>)
    ensures r == ItemTexts(items, show)
  {
    var texts: seq<string> := [];
    for i := 0 to |items|
      invariant ItemTexts(items[..i], show) == Ok(texts)
    {
      ItemTextsSnoc(items, i, show);
      var text := ItemText(items[i], show);
      if text.Err? {
        ItemTextsErrSticks(items, i + 1, show);
        return Err(text.error);
      }
      if text.value.Some? {
        texts := texts + [text.value.value];
      } else {
        assert texts + [] == texts;
      }
    }
    assert items[..|items|] == items;
    return Ok(texts);
  }

  /** `_parse_response` */
  method ParseResponse(data: Value, show: Value -> string) returns (r: Result<string, OcrFailure>)
    ensures r == ParsedResponse(data, show)
  {
    if !data.Dict? {
      return Err(Malformed);
    }
    var responses := GetOr(data.entries, "responses", List([]));
    if !Truthy(responses) {
      return Ok("");
    }
    if responses.Str? {
      return Ok("");
    }
    if !responses.List? {
      return Err(Malformed);
    }
    var imageResponses: Result<seq<Value>, OcrFailure> := Ok(responses.items);
    if NestedShape(responses.items) {
      imageResponses := CollectImageResponses(responses.items);
    }
    if imageResponses.Err? {
      return Err(imageResponses.error);
    }
    var texts := CollectTexts(imageResponses.value, show);
    if texts.Err? {
      return Err(texts.error);
    }
    r := Ok(Join(texts.value, "\n"));
  }

  /**
   * `ExternalOCRClient.extract_text`: build the payload (with the page list
   * only for a PDF), send it, and read the reply. `exchange` stands for the
   * POST and the decoding of its answer; its flag says whether the
   * files:annotate endpoint was chosen, which happens exactly for a PDF.
   */
  function ExtractText(imagePath: string, encoded: string, pages: Option<seq<int>>,
                       exchange: (bool, Value) -> Value, show: Value -> string): Result<string, OcrFailure>
  {
    var isPdf := IsPdf(imagePath);
    ParsedResponse(exchange(isPdf, BuildPayload(imagePath, encoded, if isPdf then pages else None)), show)
  }

  /** An image request never carries a page list, whatever pages are
      passed; a PDF request carries exactly the non-empty list given. */
  lemma PagesOnlyForPdf(imagePath: string, encoded: string, pages: Option<seq<int>>)
    ensures var r := RequestOf(BuildPayload(imagePath, encoded, if IsPdf(imagePath) then pages else None));
            && ("pages" in r <==> IsPdf(imagePath) && pages.Some? && pages.value != [])
            && ("pages" in r ==>
                  && r["pages"].List? && |r["pages"].items| == |pages.value|
                  && forall k :: 0 <= k < |pages.value| ==> r["pages"].items[k] == Int(pages.value[k]))
  {
  }

  // ------------------------------------------------------------ properties

  /** One more file extends the flattened prefix. */
  lemma FlattenFilesSnoc(files: seq<Value>, i: nat)
    requires i < |files|
    ensures FlattenFiles(files[..i + 1]) ==
              match FlattenFiles(files[..i])
              case Err(e) => Err(e)
              case Ok(before) =>
                match NestedOf(files[i])
                case Err(e) => Err(e)
                case Ok(nested) => Ok(before + nested)
  {
    assert files[..i + 1][..i] == files[..i];
    assert files[..i + 1][i] == files[i];
  }

  /** The first failing file decides the outcome of the whole reply. */
  lemma {:induction false} FlattenFilesErrSticks(files: seq<Value>, m: nat)
    requires m <= |files| && FlattenFiles(files[..m]).Err?
    ensures FlattenFiles(files) == FlattenFiles(files[..m])
  {
    if m == |files| {
      assert files[..m] == files;
    } else {
      var init := files[..|files| - 1];
      assert init[..m] == files[..m];
      FlattenFilesErrSticks(init, m);
    }
  }

  /** One more item extends the texts of the prefix. */
  lemma ItemTextsSnoc(items: seq<Value>, i: nat, show: Value -> string)
    requires i < |items|
    ensures ItemTexts(items[..i + 1], show) ==
              match ItemTexts(items[..i], show)
              case Err(e) => Err(e)
              case Ok(before) =>
                match ItemText(items[i], show)
                case Err(e) => Err(e)
                case Ok(t) => Ok(before + (if t.Some? then [t.value] else []))
  {
    assert items[..i + 1][..i] == items[..i];
    assert items[..i + 1][i] == items[i];
  }

  /** The first failing item decides the outcome of the whole reply. */
  lemma {:induction false} ItemTextsErrSticks(items: seq<Value>, m: nat, show: Value -> string)
    requires m <= |items| && ItemTexts(items[..m], show).Err?
    ensures ItemTexts(items, show) == ItemTexts(items[..m], show)
  {
    if m == |items| {
      assert items[..m] == items;
    } else {
      var init := items[..|items| - 1];
      assert init[..m] == items[..m];
      ItemTextsErrSticks(init, m, show);
    }
  }

  /** A reply without responses, or with an empty list, reads as no
      text. */
  lemma NoResponses(data: map<string, Value>, show: Value -> string)
    requires "responses" !in data || data["responses"] == List([])
    ensures ParsedResponse(Dict(data), show) == Ok("")
  {
  }

  /** A file-level error never surfaces its own message: the reply fails
      with the fixed file error, or earlier with a malformed file. */
  lemma FileErrorIsFixed(files: seq<Value>, k: nat)
    requires k < |files| && files[k].Dict? && Truthy(Get(files[k].entries, "error"))
    ensures FlattenFiles(files) == Err(FileAnnotateError) || FlattenFiles(files) == Err(Malformed)
  {
    FlattenFilesSnoc(files, k);
    FlattenFilesErrSticks(files, k + 1);
  }

  /** Items that are not dictionaries are skipped, whatever they hold. */
  lemma NonDictSkipped(item: Value, show: Value -> string)
    requires !item.Dict?
    ensures ItemText(item, show) == Ok(None)
  {
  }

  /** An item's error is raised with its message, or "OCR error" when it
      has none. */
  lemma ItemErrorMessage(fields: map<string, Value>, error: map<string, Value>, show: Value -> string)
    requires "error" in fields && fields["error"] == Dict(error) && error != map[]
    ensures ItemText(Dict(fields), show) == Err(ItemError(if "message" in error then error["message"] else Str("OCR error")))
  {
  }

  /** The full text annotation wins over the first text annotation. */
  lemma FullTextWins(fields: map<string, Value>, text: string, show: Value -> string)
    requires !Truthy(Get(fields, "error"))
    requires "fullTextAnnotation" in fields && fields["fullTextAnnotation"].Dict?
    requires "text" in fields["fullTextAnnotation"].entries && fields["fullTextAnnotation"].entries["text"] == Str(text)
    requires text != []
    ensures ItemText(Dict(fields), show) == Ok(Some(text))
  {
  }

  /** The items are read successfully exactly when each one is; then
      there is at most one text per item. */
  lemma {:induction false} ItemTextsOkIff(items: seq<Value>, show: Value -> string)
    ensures ItemTexts(items, show).Ok? <==> forall k :: 0 <= k < |items| ==> ItemText(items[k], show).Ok?
    ensures ItemTexts(items, show).Ok? ==> |ItemTexts(items, show).value| <= |items|
  {
    if items != [] {
      var init := items[..|items| - 1];
      ItemTextsOkIff(init, show);
      assert forall k :: 0 <= k < |init| ==> init[k] == items[k];
    }
  }

  /** The images:annotate reply of a single image. */
  lemma ImagesAnnotateShape(show: Value -> string)
    ensures ParsedResponse(
              Dict(map["responses" := List([Dict(map["textAnnotations" := List([Dict(map["description" := Str("이미지 텍스트")])])])])]),
              show) == Ok("이미지 텍스트")
  {
    var item := Dict(map["textAnnotations" := List([Dict(map["description" := Str("이미지 텍스트")])])]);
    assert ItemText(item, show) == Ok(Some("이미지 텍스트"));
    assert [item][..0] == [];
    assert ItemTexts([], show) == Ok([]);

    assert ItemTexts([item], show).Ok? && ItemTexts([item], show).value == ["이미지 텍스트"];
  }

  /** The files:annotate reply of a PDF. */
  lemma FilesAnnotateShape(show: Value -> string)
    ensures ParsedResponse(
              Dict(map["responses" := List([Dict(map["responses" := List([Dict(map["fullTextAnnotation" := Dict(map["text" := Str("PDF 텍스트")])])])])])]),
              show) == Ok("PDF 텍스트")
  {
    var item := Dict(map["fullTextAnnotation" := Dict(map["text" := Str("PDF 텍스트")])]);
    var file := Dict(map["responses" := List([item])]);
    assert [file][..0] == [];
    assert FlattenFiles([]) == Ok([]);
    assert NestedOf(file) == Ok([item]);
    assert FlattenFiles([file]).Ok? && FlattenFiles([file]).value == [item];
    assert ItemText(item, show) == Ok(Some("PDF 텍스트"));
    assert [item][..0] == [];
    assert ItemTexts([], show) == Ok([]);
    assert ItemTexts([item], show).Ok? && ItemTexts([item], show).value == ["PDF 텍스트"];
  }
}
