/**
 * `Backend.FetchSceneByMarkerId`: one GET request for the scene bound to a
 * marker. The network, `UnityWebRequest.EscapeURL` and the JSON decoder are
 * parameters: `send` answers the request made to a URL, `escape` is the URL
 * escaping and `decode` is `JsonUtility.FromJson` on the response body.
 */
module Backend {
  import opened Results
  import opened SceneModels
  import Strings

  const ScenePath: string := "/api/rookie/ar-scenes/by-marker-id/"

  /** `UnityWebRequest.Result` once the request is done. */
  datatype RequestResult = Success | ConnectionError | ProtocolError | DataProcessingError

  datatype Response = Response(result: RequestResult, text: string)

  /** What the decoder makes of a body: a scene (possibly null) or an exception. */
  datatype Decoded = Parsed(scene: Option<Scene>) | Malformed

  datatype FetchError =
    | NullBackendBase   // TrimEnd on a null base URL
    | RequestFailed     // non-success request result
    | DecodeFailed      // body is not JSON the decoder accepts

  /** The request URL: the base without the trailing slashes it may carry,
      then the fixed path, then the escaped marker id. */
  function RequestUrl(backendBase: string, markerId: string, escape: string -> string): (url: string)
    ensures exists n :: (0 <= n <= |backendBase|
                         && (forall i :: n <= i < |backendBase| ==> backendBase[i] == '/')
                         && (n == 0 || backendBase[n - 1] != '/')
                         && url == backendBase[..n] + ScenePath + escape(markerId))
  {
    var trimmed := Strings.TrimEnd(backendBase, '/');
    assert backendBase[..|trimmed|] == trimmed;
    trimmed + ScenePath + escape(markerId)
  }

  /** Trailing slashes on the base do not change the request URL. */
  lemma RequestUrlIgnoresTrailingSlash(backendBase: string, markerId: string, escape: string -> string)
    ensures RequestUrl(backendBase + "/", markerId, escape) == RequestUrl(backendBase, markerId, escape)
  {
    var s := backendBase + "/";
    assert s[..|s| - 1] == backendBase;
  }

  /** The outcome of the request once it is done: a non-success result throws
      (there is no retry), otherwise the decoded body is returned. */
  function SceneFromResponse(response: Response, decode: string -> Decoded): (r: Result<Option<Scene>, FetchError>)
    ensures response.result != Success ==> r == Err(RequestFailed)
    ensures response.result == Success && decode(response.text).Malformed? ==> r == Err(DecodeFailed)
    ensures r.Ok? <==> response.result == Success && decode(response.text).Parsed?
    ensures r.Ok? ==> r.value == decode(response.text).scene
  {
    if response.result != Success then Err(RequestFailed)
    else match decode(response.text)
      case Malformed => Err(DecodeFailed)
      case Parsed(scene) => Ok(scene)
  }

  /** `FetchSceneByMarkerId`: exactly one request, to `RequestUrl`. */
  function FetchSceneByMarkerId(
    backendBase: Option<string>, markerId: string,
    escape: string -> string, send: string -> Response, decode: string -> Decoded
  ): (r: Result<Option<Scene>, FetchError>)
    ensures backendBase.None? ==> r == Err(NullBackendBase)
    ensures r.Ok? <==> (backendBase.Some?
                        && send(RequestUrl(backendBase.value, markerId, escape)).result == Success
                        && decode(send(RequestUrl(backendBase.value, markerId, escape)).text).Parsed?)
    ensures r.Ok? ==> r.value == decode(send(RequestUrl(backendBase.value, markerId, escape)).text).scene
  {
    match backendBase
    case None => Err(NullBackendBase)
    case Some(b) => SceneFromResponse(send(RequestUrl(b, markerId, escape)), decode)
  }
}
