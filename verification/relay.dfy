/**
 * The REST handler `gg_ai_chat_response`: a single pass over one inbound request
 * that checks the nonce, reads the message and history, builds the prompt, checks
 * the API key, makes at most one call to the chat-completion service and maps
 * its outcome into the JSON envelope sent back to the browser.
 */
module Relay {
  import opened PhpValues
  import opened Sanitizer
  import opened Prompt

  /**
   * The WordPress functions the handler relies on, whose code is not part of this
   * model: whether `wp_verify_nonce($nonce, 'wp_rest')` accepts a nonce,
   * `sanitize_text_field` and `wp_strip_all_tags`.
   */
  datatype Platform = Platform(
    verifyNonce: string -> bool,
    sanitizeText: Value -> string,
    stripTags: string -> string)

  /**
   * An inbound request: the `X-WP-Nonce` header if one was sent, and the body as
   * `json_decode` reads it (None when it is not valid JSON).
   */
  datatype Request = Request(nonceHeader: Option<string>, body: Option<Value>)

  /** The one outbound POST to the completion service (temperature left out). */
  datatype Outbound = Outbound(
    url: string,
    authorization: string,
    model: string,
    messages: seq<Turn>,
    timeoutSeconds: nat)

  /**
   * What `wp_remote_post` gives back: a transport error with its message, or an
   * HTTP status code with the body as `json_decode` reads it.
   */
  datatype Upstream =
    | TransportError(message: string)
    | HttpResponse(code: int, body: Option<Value>)

  /** `{success: true, data: {reply}}` or `{success: false, data: {error}}`. */
  datatype Envelope = Success(reply: Value) | Failure(error: Value)

  /** What the handler answers, and the outbound call it made, if any. */
  datatype Response = Response(status: int, envelope: Envelope, sent: Option<Outbound>)

  const CompletionsUrl := "https://api.openai.com/v1/chat/completions"
  const ModelId := "gpt-4o-mini"
  const TimeoutSeconds: nat := 30

  const InvalidNonceError := "Invalid nonce."
  const EmptyMessageError := "Empty message."
  const MissingKeyError := "Missing OPENAI_API_KEY in wp-config.php."
  /** The fallback reply, as the source file spells it (a UTF-8 apostrophe read back as Windows-1252). */
  const Apology := "Sorry, I couldn\U{E2}\U{20AC}\U{2122}t get a response."

  /** `$nonce && wp_verify_nonce($nonce, 'wp_rest')`: a header that is present, truthy and verified. */
  predicate NonceAccepted(p: Platform, header: Option<string>)
    ensures header.None? || header == Some("") || header == Some("0") ==> !NonceAccepted(p, header)
    ensures NonceAccepted(p, header) ==> header.Some? && p.verifyNonce(header.value)
  {
    header.Some? && !FalsyString(header.value) && p.verifyNonce(header.value)
  }

  /** `json_decode(...) ?: []`: an undecodable or falsy body reads as an empty array. */
  function DecodedBody(body: Option<Value>): (r: Value)
    ensures body.None? || Falsy(body.value) ==> r == Arr([])
    ensures body.Some? && !Falsy(body.value) ==> r == body.value
    ensures !Falsy(r) || r == Arr([])
  {
    if body.None? || Falsy(body.value) then Arr([]) else body.value
  }

  /** The new message: the sanitised `message` field, or "" when it is absent or null. */
  function MessageOf(p: Platform, body: Value): (m: string)
    ensures IssetGet(body, "message").None? ==> m == ""
    ensures IssetGet(body, "message").Some? ==> m == p.sanitizeText(IssetGet(body, "message").value)
  {
    match IssetGet(body, "message")
    case Some(v) => p.sanitizeText(v)
    case None => ""
  }

  /**
   * The client's history: the values of the `history` field, in order, when that
   * field is an array; anything else reads as an empty history, never an error.
   */
  function HistoryOf(body: Value): (h: seq<Value>)
    ensures IssetGet(body, "history").Some? && IssetGet(body, "history").value.Arr? ==>
              var entries := IssetGet(body, "history").value.entries;
              |h| == |entries| && forall i :: 0 <= i < |entries| ==> h[i] == entries[i].1
    ensures IssetGet(body, "history").None? || !IssetGet(body, "history").value.Arr? ==> h == []
  {
    match IssetGet(body, "history")
    case Some(Arr(entries)) => Values(entries)
    case _ => []
  }

  /** The values of an array, in order (what `foreach ($a as $v)` visits). */
  function Values(entries: seq<(string, Value)>): (vs: seq<Value>)
    ensures |vs| == |entries| && forall i :: 0 <= i < |entries| ==> vs[i] == entries[i].1
  {
    if entries == [] then [] else [entries[0].1] + Values(entries[1..])
  }

  /** `empty($api_key)` for an API key that may not be defined at all. */
  predicate KeyMissing(apiKey: Option<string>)
    ensures apiKey.None? || apiKey == Some("") || apiKey == Some("0") ==> KeyMissing(apiKey)
    ensures !KeyMissing(apiKey) ==> apiKey.Some? && |apiKey.value| >= 1
  {
    apiKey.None? || FalsyString(apiKey.value)
  }

  /** `wp_send_json_error(['error' => text], status)`, answered without any outbound call. */
  function Refuse(status: int, text: string): (r: Response)
    ensures r.sent.None? && r.status == status && r.envelope == Failure(Str(text))
  {
    Response(status, Failure(Str(text)), None)
  }

  /** The outbound request for a prompt, authorised with the server-held key. */
  function OutboundFor(apiKey: string, messages: seq<Turn>): (o: Outbound)
    ensures o.messages == messages && o.authorization == "Bearer " + apiKey
  {
    Outbound(CompletionsUrl, "Bearer " + apiKey, ModelId, messages, TimeoutSeconds)
  }

  /** The failure text for a non-2xx upstream answer: its `error.message`, else a generic one. */
  function UpstreamErrorText(code: int, data: Option<Value>): (e: Value)
    ensures !e.Null?
    ensures Dig(data, ["error", "message"]).Some? ==> e == Dig(data, ["error", "message"]).value
    ensures Dig(data, ["error", "message"]).None? ==> e == Str("OpenAI error (HTTP " + IntToString(code) + ").")
  {
    match Dig(data, ["error", "message"])
    case Some(v) => v
    case None => Str("OpenAI error (HTTP " + IntToString(code) + ").")
  }

  /** The reply of a 2xx upstream answer: `choices[0].message.content`, else the apology. */
  function ReplyText(data: Option<Value>): (e: Value)
    ensures !e.Null?
    ensures Dig(data, ["choices", "0", "message", "content"]).None? ==> e == Str(Apology)
    ensures Dig(data, ["choices", "0", "message", "content"]).Some? ==>
              e == Dig(data, ["choices", "0", "message", "content"]).value
  {
    match Dig(data, ["choices", "0", "message", "content"])
    case Some(v) => v
    case None => Str(Apology)
  }

  predicate IsSuccessCode(code: int) {
    200 <= code < 300
  }

  /**
   * The status and envelope for the completion service's outcome: success only
   * for a 2xx code (answered 200); a transport error is a 500; any other code is
   * echoed as the status.
   */
  function MapUpstream(u: Upstream): (r: (int, Envelope))
    ensures r.1.Success? <==> u.HttpResponse? && IsSuccessCode(u.code)
    ensures r.1.Success? ==> r.0 == 200
    ensures r.1.Failure? ==> r.0 == if u.TransportError? then 500 else u.code
    ensures u.TransportError? ==> r.1 == Failure(Str(u.message))
  {
    match u
    case TransportError(message) => (500, Failure(Str(message)))
    case HttpResponse(code, data) =>
      if code < 200 || code >= 300 then (code, Failure(UpstreamErrorText(code, data)))
      else (200, Success(ReplyText(data)))
  }

  /**
   * Everything after the nonce check: the empty-message check, the prompt, the
   * API-key check and the single call through `gateway`.
   */
  function Proceed(p: Platform, apiKey: Option<string>, message: string, history: seq<Value>,
                   gateway: Outbound -> Upstream): (r: Response)
    ensures r.sent.Some? <==> message != "" && !KeyMissing(apiKey)
  {
    if message == "" then Refuse(400, EmptyMessageError)
    else
      var messages := BuildMessages(history, p.stripTags, message);
      if KeyMissing(apiKey) then Refuse(500, MissingKeyError)
      else
        var out := OutboundFor(apiKey.value, messages);
        var (status, envelope) := MapUpstream(gateway(out));
        Response(status, envelope, Some(out))
  }

  /**
   * `gg_ai_chat_response`. An outbound call is made exactly when the nonce is
   * accepted, the message is non-empty and the API key is set; it carries the
   * assembled prompt and the key, and the answer is then the mapped upstream
   * outcome. Every other answer is one of the handler's own refusals.
   */
  function Handle(p: Platform, apiKey: Option<string>, req: Request, gateway: Outbound -> Upstream): (r: Response)
    ensures r.sent.Some? <==>
              NonceAccepted(p, req.nonceHeader) && MessageOf(p, DecodedBody(req.body)) != "" && !KeyMissing(apiKey)
    ensures r.sent.Some? ==>
              var body := DecodedBody(req.body);
              r.sent.value.messages == BuildMessages(HistoryOf(body), p.stripTags, MessageOf(p, body)) &&
              r.sent.value.authorization == "Bearer " + apiKey.value &&
              (r.status, r.envelope) == MapUpstream(gateway(r.sent.value))
    ensures r.sent.None? ==> r.envelope.Failure? && r.status in {403, 400, 500}
  {
    if !NonceAccepted(p, req.nonceHeader) then Refuse(403, InvalidNonceError)
    else
      var body := DecodedBody(req.body);
      Proceed(p, apiKey, MessageOf(p, body), HistoryOf(body), gateway)
  }

  /**
   * When the nonce passes, the message is non-empty and the key is set (exactly the
   * cases in which a call is made), the client's `message` field was present and its
   * `sanitize_text_field` result is the last turn of the prompt, as a user turn.
   */
  lemma MessageReachesPrompt(p: Platform, apiKey: Option<string>, req: Request, gateway: Outbound -> Upstream)
    requires NonceAccepted(p, req.nonceHeader) && MessageOf(p, DecodedBody(req.body)) != "" && !KeyMissing(apiKey)
    ensures Handle(p, apiKey, req, gateway).sent.Some?
    ensures var ms := Handle(p, apiKey, req, gateway).sent.value.messages;
            var field := IssetGet(DecodedBody(req.body), "message");
            field.Some? && |ms| >= 2 && ms[|ms| - 1] == Turn("user", p.sanitizeText(field.value))
  {
  }

  /**
   * The nonce is checked first: without an accepted nonce the answer is 403
   * whatever the body, the key or the completion service would do.
   */
  lemma NonceCheckedFirst(p: Platform, key1: Option<string>, key2: Option<string>,
                          req1: Request, req2: Request, g1: Outbound -> Upstream, g2: Outbound -> Upstream)
    requires req1.nonceHeader == req2.nonceHeader && !NonceAccepted(p, req1.nonceHeader)
    ensures Handle(p, key1, req1, g1) == Handle(p, key2, req2, g2) == Refuse(403, InvalidNonceError)
  {
  }

  /** A missing header, or the falsy header "0", is refused without consulting the verifier. */
  lemma FalsyNonceRefused(p: Platform, apiKey: Option<string>, body: Option<Value>, gateway: Outbound -> Upstream)
    ensures Handle(p, apiKey, Request(None, body), gateway) == Refuse(403, InvalidNonceError)
    ensures Handle(p, apiKey, Request(Some("0"), body), gateway) == Refuse(403, InvalidNonceError)
    ensures Handle(p, apiKey, Request(Some(""), body), gateway) == Refuse(403, InvalidNonceError)
  {
  }

  /**
   * An empty message is refused with 400 before the history is looked at: the
   * answer does not depend on the history, the key or the completion service.
   */
  lemma EmptyMessageBeforeHistory(p: Platform, key1: Option<string>, key2: Option<string>,
                                  h1: seq<Value>, h2: seq<Value>, g1: Outbound -> Upstream, g2: Outbound -> Upstream)
    ensures Proceed(p, key1, "", h1, g1) == Proceed(p, key2, "", h2, g2) == Refuse(400, EmptyMessageError)
  {
  }

  /**
   * Once the nonce is accepted, any request whose message reads as "" is refused
   * with 400, whatever its history, the key or the completion service.
   */
  lemma EmptyMessageRefused(p: Platform, apiKey: Option<string>, req: Request, gateway: Outbound -> Upstream)
    requires NonceAccepted(p, req.nonceHeader) && MessageOf(p, DecodedBody(req.body)) == ""
    ensures Handle(p, apiKey, req, gateway) == Refuse(400, EmptyMessageError)
  {
  }

  /** A body that is not JSON, is falsy, or has no message, is an empty message. */
  lemma UndecodableBodyIsEmptyMessage(p: Platform, apiKey: Option<string>, header: Option<string>,
                                      body: Option<Value>, gateway: Outbound -> Upstream)
    requires NonceAccepted(p, header)
    requires body.None? || Falsy(body.value) || IssetGet(body.value, "message").None?
    ensures Handle(p, apiKey, Request(header, body), gateway) == Refuse(400, EmptyMessageError)
  {
    if body.Some? && !Falsy(body.value) {
      assert DecodedBody(body) == body.value;
    }
    EmptyMessageRefused(p, apiKey, Request(header, body), gateway);
  }

  /** A history field that is not an array is the same as no history at all. */
  lemma NonArrayHistoryIsEmpty(p: Platform, apiKey: Option<string>, header: Option<string>,
                               message: Value, history: Value, gateway: Outbound -> Upstream)
    requires !history.Arr?
    ensures Handle(p, apiKey, Request(header, Some(Arr([("message", message), ("history", history)]))), gateway)
         == Handle(p, apiKey, Request(header, Some(Arr([("message", message)]))), gateway)
  {
    var withHistory := Arr([("message", message), ("history", history)]);
    var without := Arr([("message", message)]);
    assert "message" != "history" by { assert "message"[0] != "history"[0]; }
    assert withHistory.entries[1..] == [("history", history)];
    assert HistoryOf(withHistory) == [] by {
      assert Find(withHistory.entries, "history") == Find(withHistory.entries[1..], "history");
    }
    assert HistoryOf(without) == [] by {
      assert without.entries[1..] == [];
    }
    assert MessageOf(p, withHistory) == MessageOf(p, without) by {
      assert IssetGet(withHistory, "message") == IssetGet(without, "message");
    }
    assert DecodedBody(Some(withHistory)) == withHistory;
    assert DecodedBody(Some(without)) == without;
  }

  /**
   * A missing API key (undefined, "" or "0") is a 500 and no outbound call is
   * made, once the nonce and the message have passed.
   */
  lemma MissingKeyMakesNoCall(p: Platform, apiKey: Option<string>, req: Request, gateway: Outbound -> Upstream)
    requires NonceAccepted(p, req.nonceHeader) && MessageOf(p, DecodedBody(req.body)) != ""
    requires KeyMissing(apiKey)
    ensures Handle(p, apiKey, req, gateway) == Refuse(500, MissingKeyError)
  {
  }

  /** When no call is made, the completion service cannot influence the answer. */
  lemma NoCallIgnoresGateway(p: Platform, apiKey: Option<string>, req: Request,
                             g1: Outbound -> Upstream, g2: Outbound -> Upstream)
    requires Handle(p, apiKey, req, g1).sent.None?
    ensures Handle(p, apiKey, req, g1) == Handle(p, apiKey, req, g2)
  {
  }

  /** A transport error (for example a timeout) is a 500 carrying the transport message. */
  lemma TransportErrorIs500(message: string)
    ensures MapUpstream(TransportError(message)) == (500, Failure(Str(message)))
  {
  }

  /**
   * A non-2xx answer is echoed: the status is the upstream code and the error is
   * the upstream `error.message` if there is one, else a generic text naming the code.
   */
  lemma UpstreamErrorEchoed(code: int, data: Option<Value>)
    requires !IsSuccessCode(code)
    ensures MapUpstream(HttpResponse(code, data)).0 == code
    ensures MapUpstream(HttpResponse(code, data)).1 ==
            Failure(if Dig(data, ["error", "message"]).Some? then Dig(data, ["error", "message"]).value
                    else Str("OpenAI error (HTTP " + IntToString(code) + ")."))
  {
  }

  /** A 2xx answer is a success with the first choice's content, or the apology. */
  lemma SuccessReplyExtracted(code: int, data: Option<Value>)
    requires IsSuccessCode(code)
    ensures MapUpstream(HttpResponse(code, data)) ==
            (200, Success(if Dig(data, ["choices", "0", "message", "content"]).Some?
                          then Dig(data, ["choices", "0", "message", "content"]).value
                          else Str(Apology)))
  {
  }

  /** `{"error": {"message": "X"}}` with a 429 is answered 429 with error "X". */
  lemma UpstreamMessagePassedThrough(text: string)
    ensures MapUpstream(HttpResponse(429, Some(Arr([("error", Arr([("message", Str(text))]))])))) ==
            (429, Failure(Str(text)))
  {
    var data := Some(Arr([("error", Arr([("message", Str(text))]))]));
    assert Dig(data, ["error", "message"]) == Some(Str(text)) by {
      assert ["error", "message"][1..] == ["message"];
      assert ["message"][1..] == [];
    }
  }

  /** The completion service's JSON answer carrying one choice whose content is `text`. */
  function CompletionBody(text: string): Value {
    Arr([("choices", Arr([("0", Arr([("message", Arr([("content", Str(text))]))]))]))])
  }

  /** The reply read out of such an answer is its content. */
  lemma CompletionBodyReply(text: string)
    ensures ReplyText(Some(CompletionBody(text))) == Str(text)
  {
    var path := ["choices", "0", "message", "content"];
    assert path[1..] == ["0", "message", "content"];
    assert path[1..][1..] == ["message", "content"];
    assert path[1..][1..][1..] == ["content"];
    assert path[1..][1..][1..][1..] == [];
  }

  /**
   * A request `{message: "hi"}` with no history, an accepted nonce and a key, whose
   * completion answers 200 with content "Hello!", sends the system turn and "hi",
   * and replies "Hello!".
   */
  lemma HelloScenario(p: Platform, nonce: string, apiKey: string, gateway: Outbound -> Upstream)
    requires NonceAccepted(p, Some(nonce)) && !KeyMissing(Some(apiKey))
    requires p.sanitizeText(Str("hi")) == "hi"
    requires gateway(OutboundFor(apiKey, [SystemTurn, Turn("user", "hi")])) ==
             HttpResponse(200, Some(CompletionBody("Hello!")))
    ensures Handle(p, Some(apiKey), Request(Some(nonce), Some(Arr([("message", Str("hi"))]))), gateway) ==
            Response(200, Success(Str("Hello!")), Some(OutboundFor(apiKey, [SystemTurn, Turn("user", "hi")])))
  {
    var body := Arr([("message", Str("hi"))]);
    assert DecodedBody(Some(body)) == body;
    assert MessageOf(p, body) == "hi" by {
      assert IssetGet(body, "message") == Some(Str("hi"));
    }
    assert HistoryOf(body) == [] by { assert body.entries[1..] == []; }
    var req := Request(Some(nonce), Some(body));
    assert Handle(p, Some(apiKey), req, gateway) == Proceed(p, Some(apiKey), "hi", [], gateway);
    EmptyHistoryGivesTwoMessages(p.stripTags, "hi");
    var out := OutboundFor(apiKey, [SystemTurn, Turn("user", "hi")]);
    CompletionBodyReply("Hello!");
    assert MapUpstream(gateway(out)) == (200, Success(Str("Hello!")));
  }
}
