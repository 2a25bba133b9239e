/**
 * The response middleware of app/api/middlewares/redaction.py: the raw
 * header filter and the decisions of `RedactionMiddleware.dispatch`. Header
 * names and values are the latin-1 decoding of their bytes, one character
 * per byte; the JSON decoder and encoder are parameters.
 */
module RedactionMiddleware {
  import opened Common
  import opened Values
  import opened Redaction
  import opened RedactionStructure
  import opened DocumentFields

  /** One raw header, name and value. */
  datatype Header = Header(name: string, value: string)

  const ContentLength: string := "content-length"
  const ContentType: string := "content-type"

  /** The keys whose values are always redacted. */
  const SensitiveKeys: set<string> :=
    {"raw_text", "parsed_fields", "evidence", "ocr_text", "llm_prompt", "llm_response", "error", "error_detail", "logs"}

  /** Paths whose responses are never redacted. */
  const SkipPathPrefixes: seq<string> := ["/auth"]

  predicate IsLengthHeader(h: Header) { Lower(h.name) == ContentLength }

  predicate IsTypeHeader(h: Header) { Lower(h.name) == ContentType }

  // ----------------------------------------------------- _filter_raw_headers

  /** The headers kept from `hs` when a content-type was already kept
      before them iff `seen`. */
  function Kept(hs: seq<Header>, seen: bool): seq<Header>
  {
    if hs == [] then []
    else if IsLengthHeader(hs[0]) then Kept(hs[1..], seen)
    else if IsTypeHeader(hs[0]) then (if seen then Kept(hs[1..], true) else [hs[0]] + Kept(hs[1..], true))
    else [hs[0]] + Kept(hs[1..], seen)
  }

  predicate HasTypeHeader(hs: seq<Header>)
  {
    exists i :: 0 <= i < |hs| && IsTypeHeader(hs[i])
  }

  /** `_filter_raw_headers(raw_headers, content_type)` */
  function FilteredHeaders(hs: seq<Header>, contentType: Option<string>): seq<Header>
  {
    Kept(hs, false)
      + (if !HasTypeHeader(hs) && contentType.Some? && contentType.value != [] then [Header(ContentType, contentType.value)] else [])
  }

  /** The loop of `_filter_raw_headers`. */
  method FilterRawHeaders(rawHeaders: seq<Header>, contentType: Option<string>) returns (filtered: seq<Header>)
    ensures filtered == FilteredHeaders(rawHeaders, contentType)
  {
    filtered := [];
    var seenContentType := false;
    for i := 0 to |rawHeaders|
      invariant filtered + Kept(rawHeaders[i..], seenContentType) == Kept(rawHeaders, false)
      invariant seenContentType <==> HasTypeHeader(rawHeaders[..i])
    {
      var h := rawHeaders[i];
      KeptStep(rawHeaders, i, seenContentType);
      if Lower(h.name) == ContentLength {
        PrefixTypeStep(rawHeaders, i);
      } else if Lower(h.name) == ContentType {
        PrefixTypeFound(rawHeaders, i);
        if !seenContentType {
          AppendKept(filtered, h, Kept(rawHeaders[i + 1..], true));
          seenContentType := true;
          filtered := filtered + [h];
        }
      } else {
        PrefixTypeStep(rawHeaders, i);
        AppendKept(filtered, h, Kept(rawHeaders[i + 1..], seenContentType));
        filtered := filtered + [h];
      }
    }
    assert rawHeaders[..|rawHeaders|] == rawHeaders;
    if !seenContentType && contentType.Some? && contentType.value != [] {
      filtered := filtered + [Header(ContentType, contentType.value)];
    }
  }

  /** One step of the filter: what it keeps from the i-th header on. */
  lemma KeptStep(hs: seq<Header>, i: nat, seen: bool)
    requires i < |hs|
    ensures Kept(hs[i..], seen) ==
              if IsLengthHeader(hs[i]) then Kept(hs[i + 1..], seen)
              else if IsTypeHeader(hs[i]) then (if seen then Kept(hs[i + 1..], true) else [hs[i]] + Kept(hs[i + 1..], true))
              else [hs[i]] + Kept(hs[i + 1..], seen)
  {
    assert hs[i..][1..] == hs[i + 1..];
  }

  lemma AppendKept(filtered: seq<Header>, h: Header, rest: seq<Header>)
    ensures (filtered + [h]) + rest == filtered + ([h] + rest)
  {
  }

  /** A content-type header makes the prefix through it hold one. */
  lemma PrefixTypeFound(hs: seq<Header>, i: nat)
    requires i < |hs| && IsTypeHeader(hs[i])
    ensures HasTypeHeader(hs[..i + 1])
  {
    assert hs[..i + 1][i] == hs[i];
  }

  /** A header that is not a content-type does not change whether the
      prefix holds one. */
  lemma PrefixTypeStep(hs: seq<Header>, i: nat)
    requires i < |hs| && !IsTypeHeader(hs[i])
    ensures HasTypeHeader(hs[..i + 1]) <==> HasTypeHeader(hs[..i])
  {
    if HasTypeHeader(hs[..i + 1]) {
      var j :| 0 <= j < i + 1 && IsTypeHeader(hs[..i + 1][j]);
      assert hs[..i][j] == hs[..i + 1][j];
    }
    if HasTypeHeader(hs[..i]) {
      var j :| 0 <= j < i && IsTypeHeader(hs[..i][j]);
      assert hs[..i + 1][j] == hs[..i][j];
    }
  }

  // --------------------------------------------------- what the filter keeps

  /** The content-type headers of a list, in order. */
  function TypeHeaders(hs: seq<Header>): (r: seq<Header>)
    ensures forall h :: h in r ==> h in hs && IsTypeHeader(h)
  {
    if hs == [] then [] else (if IsTypeHeader(hs[0]) then [hs[0]] else []) + TypeHeaders(hs[1..])
  }

  /** The headers that are neither content-length nor content-type, in
      order, duplicates included. */
  function OtherHeaders(hs: seq<Header>): seq<Header>
  {
    if hs == [] then []
    else (if !IsLengthHeader(hs[0]) && !IsTypeHeader(hs[0]) then [hs[0]] else []) + OtherHeaders(hs[1..])
  }

  lemma {:induction false} TypeHeadersConcat(a: seq<Header>, b: seq<Header>)
    ensures TypeHeaders(a + b) == TypeHeaders(a) + TypeHeaders(b)
  {
    if a != [] {
      assert (a + b)[0] == a[0];
      assert (a + b)[1..] == a[1..] + b;
      TypeHeadersConcat(a[1..], b);
    } else {
      assert a + b == b;
    }
  }

  lemma {:induction false} OtherHeadersConcat(a: seq<Header>, b: seq<Header>)
    ensures OtherHeaders(a + b) == OtherHeaders(a) + OtherHeaders(b)
  {
    if a != [] {
      assert (a + b)[0] == a[0];
      assert (a + b)[1..] == a[1..] + b;
      OtherHeadersConcat(a[1..], b);
    } else {
      assert a + b == b;
    }
  }

  lemma {:induction false} TypeHeadersEmpty(hs: seq<Header>)
    ensures TypeHeaders(hs) == [] <==> !HasTypeHeader(hs)
  {
    if hs != [] {
      TypeHeadersEmpty(hs[1..]);
      if HasTypeHeader(hs) && !IsTypeHeader(hs[0]) {
        var i :| 0 <= i < |hs| && IsTypeHeader(hs[i]);
        assert hs[1..][i - 1] == hs[i];
      }
      if HasTypeHeader(hs[1..]) {
        var i :| 0 <= i < |hs[1..]| && IsTypeHeader(hs[1..][i]);
        assert hs[i + 1] == hs[1..][i];
      }
    }
  }

  /** The kept headers: none is a content-length; the content-type is the
      first of the input unless one was kept before; the others are all
      there, in order; and nothing is added. */
  lemma {:induction false} KeptHeaders(hs: seq<Header>, seen: bool)
    ensures forall h :: h in Kept(hs, seen) ==> !IsLengthHeader(h)
    ensures TypeHeaders(Kept(hs, seen)) == if seen || TypeHeaders(hs) == [] then [] else [TypeHeaders(hs)[0]]
    ensures OtherHeaders(Kept(hs, seen)) == OtherHeaders(hs)
    ensures |Kept(hs, seen)| <= |hs|
  {
    if hs != [] {
      KeptHeaders(hs[1..], seen);
      KeptHeaders(hs[1..], true);
      if IsTypeHeader(hs[0]) && !seen {
        assert TypeHeaders([hs[0]] + Kept(hs[1..], true)) == [hs[0]] + TypeHeaders(Kept(hs[1..], true)) by {
          TypeHeadersConcat([hs[0]], Kept(hs[1..], true));
        }
        assert OtherHeaders([hs[0]] + Kept(hs[1..], true)) == OtherHeaders(Kept(hs[1..], true)) by {
          OtherHeadersConcat([hs[0]], Kept(hs[1..], true));
        }
      } else if !IsLengthHeader(hs[0]) && !IsTypeHeader(hs[0]) {
        TypeHeadersConcat([hs[0]], Kept(hs[1..], seen));
        OtherHeadersConcat([hs[0]], Kept(hs[1..], seen));
      }
    }
  }

  /**
   * What `_filter_raw_headers` promises: no content-length survives; the
   * one content-type left is the first of the input, or the given one
   * appended at the end when the input has none; every other header is
   * kept in its order, duplicates included; at most one header is
   * added.
   */
  lemma FilteredHeadersSpec(hs: seq<Header>, contentType: Option<string>)
    ensures TypeHeaders(hs) != [] <==> HasTypeHeader(hs)
    ensures var out := FilteredHeaders(hs, contentType);
            && (forall h :: h in out ==> !IsLengthHeader(h))
            && TypeHeaders(out) ==
                 (if TypeHeaders(hs) != [] then [TypeHeaders(hs)[0]]
                  else if contentType.Some? && contentType.value != [] then [Header(ContentType, contentType.value)]
                  else [])
            && OtherHeaders(out) == OtherHeaders(hs)
            && |out| <= |hs| + 1
            && (!HasTypeHeader(hs) && contentType.Some? && contentType.value != [] ==>
                  out[|out| - 1] == Header(ContentType, contentType.value))
  {
    KeptHeaders(hs, false);
    TypeHeadersEmpty(hs);
    var added := if !HasTypeHeader(hs) && contentType.Some? && contentType.value != [] then [Header(ContentType, contentType.value)] else [];
    TypeHeadersConcat(Kept(hs, false), added);
    OtherHeadersConcat(Kept(hs, false), added);
    if added != [] {
      AddedHeader(added[0].value);
      assert TypeHeaders(added) == added;
      assert OtherHeaders(added) == [];
    }
  }

  /** The header the filter appends is a content-type header. */
  lemma AddedHeader(value: string)
    ensures IsTypeHeader(Header(ContentType, value)) && !IsLengthHeader(Header(ContentType, value))
  {
    assert Lower(ContentType) == ContentType;
    assert Lower(ContentType)[8] != ContentLength[8];
  }

  /** Several set-cookie headers all survive, in order, with a second
      content-type dropped and the content-length removed. */
  lemma CookiesKept()
    ensures FilteredHeaders([Header("Content-Type", "application/json"), Header("set-cookie", "a=1"),
                             Header("Content-Length", "10"), Header("set-cookie", "b=2"),
                             Header("content-type", "text/plain")], None)
         == [Header("Content-Type", "application/json"), Header("set-cookie", "a=1"), Header("set-cookie", "b=2")]
  {
    var hs := [Header("Content-Type", "application/json"), Header("set-cookie", "a=1"),
               Header("Content-Length", "10"), Header("set-cookie", "b=2"),
               Header("content-type", "text/plain")];
    assert IsTypeHeader(hs[0]);
    assert !IsLengthHeader(hs[1]) && !IsTypeHeader(hs[1]) by { assert Lower(hs[1].name)[0] == 's'; }
    assert IsLengthHeader(hs[2]);
    assert !IsLengthHeader(hs[3]) && !IsTypeHeader(hs[3]) by { assert Lower(hs[3].name)[0] == 's'; }
    assert IsTypeHeader(hs[4]);
    assert HasTypeHeader(hs);
    assert hs[1..][1..][1..][1..][1..] == [];
  }

  // ------------------------------------------------------------- dispatch

  /** The response classes `dispatch` can be handed. */
  datatype ResponseKind = Plain | Streaming | File

  /** A response: its class, status, raw headers, body and media type. */
  datatype Response = Response(kind: ResponseKind, status: int, headers: seq<Header>,
                               body: seq<Byte>, mediaType: Option<string>)

  /** `response.headers.get(name)`: the value of the first header with that
      name, compared case-insensitively. */
  function HeaderGet(hs: seq<Header>, name: string): (r: Option<string>)
    ensures r.Some? <==> exists i :: 0 <= i < |hs| && Lower(hs[i].name) == name
  {
    if hs == [] then None
    else if Lower(hs[0].name) == name then Some(hs[0].value)
    else
      var r := HeaderGet(hs[1..], name);
      assert r.Some? ==> exists i :: 0 <= i < |hs| && Lower(hs[i].name) == name by {
        if r.Some? {
          var i :| 0 <= i < |hs[1..]| && Lower(hs[1..][i].name) == name;
          assert hs[i + 1] == hs[1..][i];
        }
      }
      assert (exists i :: 0 <= i < |hs| && Lower(hs[i].name) == name) ==> r.Some? by {
        if exists i :: 0 <= i < |hs| && Lower(hs[i].name) == name {
          var i :| 0 <= i < |hs| && Lower(hs[i].name) == name;
          assert hs[1..][i - 1] == hs[i];
        }
      }
      r
  }

  function HeaderGetOr(hs: seq<Header>, name: string, default: string): string
  {
    var v := HeaderGet(hs, name);
    if v.Some? then v.value else default
  }

  /** The first three checks of `dispatch`: streaming and file responses,
      skipped paths and non-JSON bodies go back untouched. */
  predicate PassesThrough(path: string, response: Response)
  {
    || response.kind != Plain
    || (exists k :: 0 <= k < |SkipPathPrefixes| && StartsWith(path, SkipPathPrefixes[k]))
    || !Contains(Lower(HeaderGetOr(response.headers, ContentType, "")), "application/json")
  }

  /** What `json.loads` does with the body bytes: it returns a value, or
      raises `JSONDecodeError` for text that is not JSON, or raises
      `UnicodeDecodeError` for bytes that are not text in the encoding it
      detects. `NotText` also stands for the other errors it can raise and
      `except json.JSONDecodeError` does not catch (`RecursionError` on deep
      nesting, `ValueError` on a very long integer). */
  datatype Loaded = Decoded(value: Value) | NotJson | NotText

  /** What `dispatch` does: it returns a response, or the
      `UnicodeDecodeError`, which its `except` clause does not catch,
      propagates out of it. */
  datatype Outcome = Returned(response: Response) | Raised

  /** The value written back for decoded JSON `data`: a dictionary has its
      sensitive keys redacted first, and then every value is walked. */
  function RedactedBody(data: Value, strict: bool): Value
  {
    var first := if data.Dict? then Dict(RedactDictKeys(data.entries, SensitiveKeys, {}, strict)) else data;
    RedactInStructure(first, {}, strict)
  }

  /** `json.dumps(value, ensure_ascii=False).encode("utf-8")` of the
      redacted value: None when writing it back raises, which a value nested
      past the recursion limit does (in the redaction walk or in the
      encoder; the redacted value has its input's shape) and a string
      holding a lone surrogate does. */
  type Encoder = Value -> Option<seq<Byte>>

  /**
   * `dispatch` on the response `call_next` produced. `decode` is
   * `json.loads` and `encode` writes the redacted value back. The strict
   * flag comes from the environment and settings, since the middleware
   * passes none.
   */
  function Dispatched(path: string, response: Response, decode: seq<Byte> -> Loaded,
                      encode: Encoder, env: Option<string>, setting: Option<Value>): Outcome
  {
    if PassesThrough(path, response) then Returned(response)
    else
      match decode(response.body)
      case NotText => Raised
      case NotJson =>
        var typeValue := HeaderGet(response.headers, ContentType);
        Returned(Response(Plain, response.status,
                          FilteredHeaders(response.headers, if typeValue.Some? then typeValue else response.mediaType),
                          response.body, response.mediaType))
      case Decoded(data) =>
        var strict := EffectiveStrict(None, env, setting);
        match encode(RedactedBody(data, strict))
        case None => Raised
        case Some(body) =>
          Returned(Response(Plain, response.status,
                            FilteredHeaders(response.headers, Some(HeaderGetOr(response.headers, ContentType, "application/json"))),
                            body,
                            if response.mediaType.Some? && response.mediaType.value != [] then response.mediaType else Some("application/json")))
  }

  /** `b"".join(body_chunks)` over the body iterator. */
  function Concat(chunks: seq<seq<Byte>>): seq<Byte>
  {
    if chunks == [] then [] else Concat(chunks[..|chunks| - 1]) + chunks[|chunks| - 1]
  }

  method CollectBody(chunks: seq<seq<Byte>>) returns (body: seq<Byte>)
    ensures body == Concat(chunks)
  {
    body := [];
    for i := 0 to |chunks|
      invariant body == Concat(chunks[..i])
    {
      assert chunks[..i + 1][..i] == chunks[..i];
      body := body + chunks[i];
    }
    assert chunks[..|chunks|] == chunks;
  }

  /** `RedactionMiddleware.dispatch`, as its chain of early returns. The
      response's body is the concatenation of `chunks`. */
  method Dispatch(path: string, response: Response, chunks: seq<seq<Byte>>,
                  decode: seq<Byte> -> Loaded, encode: Encoder,
                  env: Option<string>, setting: Option<Value>) returns (r: Outcome)
    requires response.body == Concat(chunks)
    ensures r == Dispatched(path, response, decode, encode, env, setting)
  {
    if response.kind == Streaming || response.kind == File {
      return Returned(response);
    }
    if exists k :: 0 <= k < |SkipPathPrefixes| && StartsWith(path, SkipPathPrefixes[k]) {
      return Returned(response);
    }
    var contentType := Lower(HeaderGetOr(response.headers, ContentType, ""));
    if !Contains(contentType, "application/json") {
      return Returned(response);
    }
    var bodyBytes := CollectBody(chunks);
    var data := decode(bodyBytes);
    if data.NotText? {
      return Raised;
    }
    if data.NotJson? {
      var typeValue := HeaderGet(response.headers, ContentType);
      var filtered := FilterRawHeaders(response.headers, if typeValue.Some? then typeValue else response.mediaType);
      return Returned(Response(Plain, response.status, filtered, bodyBytes, response.mediaType));
    }
    var strict := EffectiveStrict(None, env, setting);
    var redacted := if data.value.Dict? then Dict(RedactDictKeys(data.value.entries, SensitiveKeys, {}, strict)) else data.value;
    redacted := RedactInStructure(redacted, {}, strict);
    var newBody := encode(redacted);
    if newBody.None? {
      return Raised;
    }
    var filtered := FilterRawHeaders(response.headers, Some(HeaderGetOr(response.headers, ContentType, "application/json")));
    var mediaType := if response.mediaType.Some? && response.mediaType.value != [] then response.mediaType else Some("application/json");
    return Returned(Response(Plain, response.status, filtered, newBody.value, mediaType));
  }

  // ----------------------------------------------------- dispatch properties

  /** Streaming and file responses, `/auth` paths and non-JSON bodies come
      back as they were. */
  lemma PassThroughUntouched(path: string, response: Response, decode: seq<Byte> -> Loaded,
                             encode: Encoder, env: Option<string>, setting: Option<Value>)
    requires response.kind == Streaming || response.kind == File || StartsWith(path, "/auth")
             || !Contains(Lower(HeaderGetOr(response.headers, ContentType, "")), "application/json")
    ensures Dispatched(path, response, decode, encode, env, setting) == Returned(response)
  {
    assert SkipPathPrefixes[0] == "/auth";
  }

  /** A JSON response whose body is text but not JSON keeps its body, status
      and media type byte for byte; only the headers are filtered. */
  lemma BrokenJsonKept(path: string, response: Response, decode: seq<Byte> -> Loaded,
                       encode: Encoder, env: Option<string>, setting: Option<Value>)
    requires !PassesThrough(path, response) && decode(response.body).NotJson?
    ensures Dispatched(path, response, decode, encode, env, setting).Returned?
    ensures var r := Dispatched(path, response, decode, encode, env, setting).response;
            && r.body == response.body && r.status == response.status && r.mediaType == response.mediaType
            && TypeHeaders(response.headers) != []
            && TypeHeaders(r.headers) == [TypeHeaders(response.headers)[0]]
            && OtherHeaders(r.headers) == OtherHeaders(response.headers)
  {
    var typeValue := HeaderGet(response.headers, ContentType);
    FilteredHeadersSpec(response.headers, if typeValue.Some? then typeValue else response.mediaType);
    TypeHeaderPresent(path, response);
  }

  /**
   * The value written back for a decoded body: it keeps its shape, and
   * every string in it is the redaction of a string of the decoded body
   * (twice over for the values under a sensitive key).
   */
  lemma RedactedBodyTexts(data: Value, strict: bool)
    ensures Erase(RedactedBody(data, strict)) == Erase(data)
    ensures forall t :: t in Texts(RedactedBody(data, strict)) ==>
              RedactedFrom(t, data, strict)
              || exists u :: u in Texts(data) && t == RedactedText(RedactedText(u, strict), strict)
  {
    var first := if data.Dict? then Dict(RedactDictKeys(data.entries, SensitiveKeys, {}, strict)) else data;
    RedactKeepsShape(first, {}, strict);
    TextsRedacted(first, {}, strict);
    if data.Dict? {
      DictKeysKeepShape(data.entries, SensitiveKeys, {}, strict);
      DictKeysTexts(data.entries, SensitiveKeys, {}, strict);
      forall t | t in Texts(RedactedBody(data, strict))
        ensures RedactedFrom(t, data, strict)
                || exists u :: u in Texts(data) && t == RedactedText(RedactedText(u, strict), strict)
      {
        RedactedOnceOrTwice(t, Texts(first), Texts(data), strict);
      }
    }
  }

  /** The second pass over a string the first pass may have redacted:
      `once` holds the strings of the first pass, `texts` those of the
      decoded body. */
  lemma RedactedOnceOrTwice(t: string, once: set<string>, texts: set<string>, strict: bool)
    requires exists v :: v in once && t == RedactedText(v, strict)
    requires forall v :: v in once ==> v in texts || exists u :: u in texts && v == RedactedText(u, strict)
    ensures (exists u :: u in texts && t == RedactedText(u, strict))
            || exists u :: u in texts && t == RedactedText(RedactedText(u, strict), strict)
  {
    var v :| v in once && t == RedactedText(v, strict);
    if v !in texts {
      var u :| u in texts && v == RedactedText(u, strict);
      assert u in texts && t == RedactedText(RedactedText(u, strict), strict);
    }
  }

  /** A decoded JSON body is written back as its redaction whenever that
      can be encoded, and the headers keep exactly one content-type, the
      response's first. */
  lemma JsonBodyRedacted(path: string, response: Response, decode: seq<Byte> -> Loaded,
                         encode: Encoder, env: Option<string>, setting: Option<Value>)
    requires !PassesThrough(path, response) && decode(response.body).Decoded?
    ensures var body := encode(RedactedBody(decode(response.body).value, EffectiveStrict(None, env, setting)));
            Dispatched(path, response, decode, encode, env, setting).Returned? <==> body.Some?
    ensures var body := encode(RedactedBody(decode(response.body).value, EffectiveStrict(None, env, setting)));
            body.Some? ==>
            var r := Dispatched(path, response, decode, encode, env, setting).response;
            && r.body == body.value
            && r.status == response.status
            && TypeHeaders(response.headers) != []
            && TypeHeaders(r.headers) == [TypeHeaders(response.headers)[0]]
            && OtherHeaders(r.headers) == OtherHeaders(response.headers)
  {
    FilteredHeadersSpec(response.headers, Some(HeaderGetOr(response.headers, ContentType, "application/json")));
    TypeHeaderPresent(path, response);
  }

  /** `dispatch` raises exactly for a JSON response whose bytes are not
      text, or whose decoded body cannot be written back; every other one
      comes back as a response. */
  lemma DispatchRaises(path: string, response: Response, decode: seq<Byte> -> Loaded,
                       encode: Encoder, env: Option<string>, setting: Option<Value>)
    ensures Dispatched(path, response, decode, encode, env, setting).Raised?
            <==> && !PassesThrough(path, response)
                 && (|| decode(response.body).NotText?
                     || (&& decode(response.body).Decoded?
                         && encode(RedactedBody(decode(response.body).value, EffectiveStrict(None, env, setting))).None?))
  {
  }

  /** A response that reaches the body check has a content-type header. */
  lemma TypeHeaderPresent(path: string, response: Response)
    requires !PassesThrough(path, response)
    ensures HasTypeHeader(response.headers)
  {
    var v := HeaderGet(response.headers, ContentType);
    assert v.Some?;
    var i :| 0 <= i < |response.headers| && Lower(response.headers[i].name) == ContentType;
    assert IsTypeHeader(response.headers[i]);
  }
}
