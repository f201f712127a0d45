/**
 * The serverless relay (api/proxy.js): a fixed order of precondition checks on
 * the request and the server configuration, then one upstream call for a chat
 * reply or an image, with the upstream answer turned into a uniform JSON reply.
 * The upstream calls are not made here: how each one ended is an input.
 */
module Relay {
  import opened Wrappers

  /** The text handleChat falls back to when the reply has no usable text. */
  const ChatFallback := "Sorry, I couldn't get a valid chat response."

  /** The truthiness of an optional JavaScript string: present and not empty. */
  predicate Truthy(s: Option<string>) {
    s.Some? && s.value != ""
  }

  /** The environment: `GEMINI_API_KEY` and `GOOGLE_CLOUD_PROJECT_ID`, unset as `None`. */
  datatype Env = Env(apiKey: Option<string>, projectId: Option<string>)

  /**
   * A request: its HTTP method and the fields `type`, `history` and `prompt`
   * of its body. The history itself is forwarded untouched, so only its
   * truthiness matters here (an array, even an empty one, is truthy).
   */
  datatype Request = Request(httpMethod: string, kind: Option<string>, hasHistory: bool, prompt: Option<string>)

  /** How an awaited upstream call ended. */
  datatype Upstream<T> =
    | Thrown(message: string)   // the fetch rejected, or the body was not JSON
    | NotOk(errorText: string)  // a non-success status, with the body's text
    | Ok(data: T)               // a success status, with the decoded body

  /** The parts of a text-generation reply that `candidates?.[0]?.content?.parts?.[0]?.text` walks. */
  datatype Part = Part(text: Option<string>)
  datatype Content = Content(parts: Option<seq<Part>>)
  datatype Candidate = Candidate(content: Option<Content>)
  datatype ChatData = ChatData(candidates: Option<seq<Candidate>>)

  /** An image-generation reply; a `null` entry of `predictions` reads like one without the field. */
  datatype Prediction = Prediction(bytesBase64Encoded: Option<string>)
  datatype ImageData = ImageData(predictions: Option<seq<Prediction>>)

  /** The JSON body of the relay's answer. */
  datatype Body =
    | MessageBody(message: string)                    // `{message}`
    | ErrorBody(error: string)                        // `{error}`
    | ResultBody(response: Option<string>, kind: string)  // `{response, type}`; an undefined response is dropped
  datatype Reply = Reply(status: int, body: Body)

  /** `data.candidates?.[0]?.content?.parts?.[0]?.text`. */
  function CandidateText(d: ChatData): (r: Option<string>)
    ensures r.Some? ==>
      d.candidates.Some? && |d.candidates.value| > 0 && d.candidates.value[0].content.Some?
      && d.candidates.value[0].content.value.parts.Some? && |d.candidates.value[0].content.value.parts.value| > 0
      && d.candidates.value[0].content.value.parts.value[0].text == r
    ensures (d.candidates.Some? && |d.candidates.value| > 0 && d.candidates.value[0].content.Some?
             && d.candidates.value[0].content.value.parts.Some? && |d.candidates.value[0].content.value.parts.value| > 0)
            ==> r == d.candidates.value[0].content.value.parts.value[0].text
  {
    match d.candidates
    case None => None
    case Some(cs) =>
      if |cs| == 0 then None
      else match cs[0].content
        case None => None
        case Some(c) =>
          match c.parts
          case None => None
          case Some(ps) => if |ps| == 0 then None else ps[0].text
  }

  /** The text handleChat returns for a decoded reply: the first part's text, or the fallback. */
  function ChatReplyText(d: ChatData): (r: string)
    ensures r != ""
    ensures r == ChatFallback || CandidateText(d) == Some(r)
    ensures Truthy(CandidateText(d)) ==> r == CandidateText(d).value
  {
    if Truthy(CandidateText(d)) then CandidateText(d).value else ChatFallback
  }

  /** handleChat: the reply text, or the message of the error it throws. */
  function HandleChat(up: Upstream<ChatData>): (r: Result<string, string>)
    ensures r.Success? <==> up.Ok?
    ensures r.Success? ==> r.value != ""
    ensures up.Ok? ==> r == Success(ChatReplyText(up.data))
    ensures up.NotOk? ==> r == Failure("Chat API Error: " + up.errorText)
    ensures up.Thrown? ==> r == Failure(up.message)
  {
    match up
    case Thrown(m) => Failure(m)
    case NotOk(text) => Failure("Chat API Error: " + text)
    case Ok(d) => Success(ChatReplyText(d))
  }

  /** handleImageGeneration: the first prediction's payload (possibly undefined), or the error it throws. */
  function HandleImage(up: Upstream<ImageData>): (r: Result<Option<string>, string>)
    ensures r.Success? <==> up.Ok? && up.data.predictions.Some? && |up.data.predictions.value| > 0
    ensures r.Success? ==> r.value == up.data.predictions.value[0].bytesBase64Encoded
    ensures up.NotOk? ==> r == Failure("Image API Error: " + up.errorText)
    ensures up.Thrown? ==> r == Failure(up.message)
    ensures up.Ok? && r.Failure? ==> r.error == "API returned no predictions."
  {
    match up
    case Thrown(m) => Failure(m)
    case NotOk(text) => Failure("Image API Error: " + text)
    case Ok(d) =>
      if d.predictions.None? || |d.predictions.value| == 0 then Failure("API returned no predictions.")
      else Success(d.predictions.value[0].bytesBase64Encoded)
  }

  /** The upstream half of the handler, once every check has passed: a 200 result or a 500 error. */
  function Dispatch(req: Request, chat: Upstream<ChatData>, image: Upstream<ImageData>): (r: Reply)
    ensures r.status == 200 || r.status == 500
    ensures r.status == 200 ==> r.body.ResultBody? && r.body.kind == (if req.kind == Some("image") then "image" else "chat")
    ensures r.status == 500 ==> r.body.ErrorBody?
  {
    if req.kind == Some("image") then
      match HandleImage(image)
      case Success(b) => Reply(200, ResultBody(b, "image"))
      case Failure(m) => Reply(500, ErrorBody(m))
    else
      match HandleChat(chat)
      case Success(t) => Reply(200, ResultBody(Some(t), "chat"))
      case Failure(m) => Reply(500, ErrorBody(m))
  }

  /** The handler. `chat` and `image` say how the call to each upstream would end; only the branch taken uses one. */
  function Handle(req: Request, env: Env, chat: Upstream<ChatData>, image: Upstream<ImageData>): (r: Reply)
    ensures r.status in {200, 400, 405, 500}
    ensures r.status == 405 <==> req.httpMethod != "POST"
    ensures r.status == 405 ==> r.body == MessageBody("Method Not Allowed")
    ensures r.status == 400 || r.status == 500 ==> r.body.ErrorBody?
    ensures r.status == 200 ==> r.body.ResultBody? && r.body.kind == (if req.kind == Some("image") then "image" else "chat")
  {
    if req.httpMethod != "POST" then Reply(405, MessageBody("Method Not Allowed"))
    else if !Truthy(env.apiKey) then Reply(500, ErrorBody("API key not configured."))
    else if req.kind == Some("image") then
      if !Truthy(env.projectId) then Reply(500, ErrorBody("Project ID not configured."))
      else if !Truthy(req.prompt) then Reply(400, ErrorBody("Image prompt is missing."))
      else Dispatch(req, chat, image)
    else if !req.hasHistory then Reply(400, ErrorBody("Chat history is missing."))
    else Dispatch(req, chat, image)
  }

  // ---------------------------------------------------------------------------
  // The check order as data: the handler's guards restated as a list, so that
  // their order can be read off in one place. The properties themselves are
  // stated by the lemmas in the next section.
  // ---------------------------------------------------------------------------

  /** One guard of the handler: when `fails` holds, the handler answers `reply` at once. */
  datatype Guard = Guard(fails: bool, reply: Reply)

  /** The guards in the order the handler tries them. */
  function Guards(req: Request, env: Env): seq<Guard> {
    var image := req.kind == Some("image");
    [ Guard(req.httpMethod != "POST", Reply(405, MessageBody("Method Not Allowed"))),
      Guard(!Truthy(env.apiKey), Reply(500, ErrorBody("API key not configured."))),
      Guard(image && !Truthy(env.projectId), Reply(500, ErrorBody("Project ID not configured."))),
      Guard(image && !Truthy(req.prompt), Reply(400, ErrorBody("Image prompt is missing."))),
      Guard(!image && !req.hasHistory, Reply(400, ErrorBody("Chat history is missing."))) ]
  }

  /** The answer of the first guard that fails, if one does. */
  function FirstFailing(guards: seq<Guard>): (r: Option<Reply>)
    ensures r.None? <==> forall i :: 0 <= i < |guards| ==> !guards[i].fails
    ensures r.Some? ==> exists i :: 0 <= i < |guards| && guards[i].fails && guards[i].reply == r.value
                                 && forall j :: 0 <= j < i ==> !guards[j].fails
  {
    if guards == [] then None
    else if guards[0].fails then Some(guards[0].reply)
    else
      var r := FirstFailing(guards[1..]);
      assert r.Some? ==> exists i :: 0 <= i < |guards| && guards[i].fails && guards[i].reply == r.value
                                 && forall j :: 0 <= j < i ==> !guards[j].fails by {
        if r.Some? {
          var i :| 0 <= i < |guards[1..]| && guards[1..][i].fails && guards[1..][i].reply == r.value
                   && forall j :: 0 <= j < i ==> !guards[1..][j].fails;
          assert guards[i + 1].fails && forall j :: 0 <= j < i + 1 ==> !guards[j].fails;
        }
      }
      r
  }

  /** The handler answers with the first failing guard, and only when all pass does it call upstream. */
  lemma HandleFollowsGuardOrder(req: Request, env: Env, chat: Upstream<ChatData>, image: Upstream<ImageData>)
    ensures Handle(req, env, chat, image) ==
      match FirstFailing(Guards(req, env))
      case Some(r) => r
      case None => Dispatch(req, chat, image)
  {
    var g := Guards(req, env);
    var g1, g2, g3, g4 := g[1..], g[2..], g[3..], g[4..];
    assert g1[1..] == g2 && g2[1..] == g3 && g3[1..] == g4 && g4[1..] == [];
    assert FirstFailing(g4) == if g4[0].fails then Some(g4[0].reply) else None;
    assert FirstFailing(g3) == if g3[0].fails then Some(g3[0].reply) else FirstFailing(g4);
    assert FirstFailing(g2) == if g2[0].fails then Some(g2[0].reply) else FirstFailing(g3);
    assert FirstFailing(g1) == if g1[0].fails then Some(g1[0].reply) else FirstFailing(g2);
    assert FirstFailing(g) == if g[0].fails then Some(g[0].reply) else FirstFailing(g1);
  }

  // ---------------------------------------------------------------------------
  // Properties of the handler
  // ---------------------------------------------------------------------------

  /** Any method but POST gets 405, whatever the body, the configuration and the upstream. */
  lemma NonPostIsRejected(req: Request, env: Env, chat: Upstream<ChatData>, image: Upstream<ImageData>)
    requires req.httpMethod != "POST"
    ensures Handle(req, env, chat, image) == Reply(405, MessageBody("Method Not Allowed"))
  {
  }

  /** A POST without an API key gets 500 before `type`, `history` or `prompt` are looked at. */
  lemma MissingKeyComesFirst(kind: Option<string>, hasHistory: bool, prompt: Option<string>,
                             env: Env, chat: Upstream<ChatData>, image: Upstream<ImageData>)
    requires !Truthy(env.apiKey)
    ensures Handle(Request("POST", kind, hasHistory, prompt), env, chat, image)
            == Reply(500, ErrorBody("API key not configured."))
  {
  }

  /** For an image request the project id is checked before the prompt. */
  lemma ImageChecksProjectThenPrompt(req: Request, env: Env, chat: Upstream<ChatData>, image: Upstream<ImageData>)
    requires req.httpMethod == "POST" && Truthy(env.apiKey) && req.kind == Some("image")
    ensures !Truthy(env.projectId) ==> Handle(req, env, chat, image) == Reply(500, ErrorBody("Project ID not configured."))
    ensures Truthy(env.projectId) && !Truthy(req.prompt) ==>
      Handle(req, env, chat, image) == Reply(400, ErrorBody("Image prompt is missing."))
  {
  }

  /** Every `type` other than 'image', absent included, takes the same chat path. */
  lemma NonImageKindsAreChat(req: Request, kind: Option<string>, env: Env, chat: Upstream<ChatData>, image: Upstream<ImageData>)
    requires req.kind != Some("image") && kind != Some("image")
    ensures Handle(req.(kind := kind), env, chat, image) == Handle(req, env, chat, image)
    ensures req.httpMethod == "POST" && Truthy(env.apiKey) && !req.hasHistory ==>
      Handle(req, env, chat, image) == Reply(400, ErrorBody("Chat history is missing."))
  {
  }

  /** Once the guards pass, a failed upstream call becomes a 500 carrying its error message. */
  lemma UpstreamFailureIs500(req: Request, env: Env, chat: Upstream<ChatData>, image: Upstream<ImageData>)
    requires FirstFailing(Guards(req, env)).None?
    ensures req.kind == Some("image") && HandleImage(image).Failure? ==>
      Handle(req, env, chat, image) == Reply(500, ErrorBody(HandleImage(image).error))
    ensures req.kind != Some("image") && HandleChat(chat).Failure? ==>
      Handle(req, env, chat, image) == Reply(500, ErrorBody(HandleChat(chat).error))
  {
    HandleFollowsGuardOrder(req, env, chat, image);
  }

  /**
   * The handler answers 200 exactly when every guard passes and the helper of
   * the branch taken succeeds; the body then holds that helper's result.
   */
  lemma SuccessExactly(req: Request, env: Env, chat: Upstream<ChatData>, image: Upstream<ImageData>)
    ensures Handle(req, env, chat, image).status == 200 <==>
      FirstFailing(Guards(req, env)).None?
      && (if req.kind == Some("image") then HandleImage(image).Success? else HandleChat(chat).Success?)
    ensures Handle(req, env, chat, image).status == 200 ==>
      Handle(req, env, chat, image).body.response ==
        (if req.kind == Some("image") then HandleImage(image).value else Some(HandleChat(chat).value))
  {
    HandleFollowsGuardOrder(req, env, chat, image);
  }

  /** A successful chat request always carries a non-empty reply text. */
  lemma ChatSuccessHasText(req: Request, env: Env, chat: Upstream<ChatData>, image: Upstream<ImageData>)
    requires req.kind != Some("image")
    requires Handle(req, env, chat, image).status == 200
    ensures Handle(req, env, chat, image).body.response.Some?
    ensures Handle(req, env, chat, image).body.response.value != ""
  {
  }
}
