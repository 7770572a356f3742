/**
 * The fetch lifecycle of the `FetchHoc` component (package apputils):
 * a three-state machine PENDING / SUCCESS / FAILED over the component state
 * `{ data, apiStatus, error }`, the normaliser that turns a thrown request
 * error into a display message, and the choice of view made by `render`.
 *
 * The network call itself is not modelled: `TryFetch` returns the GET
 * request it issues, and the outcome of that request comes back through
 * `FetchSucceeded` (the response body) or `FetchFailed` (the thrown error).
 */
module Apputils {
  import opened Wrappers

  /** Message for a 401 response without a `detail`. */
  const UnauthorizedMessage: string := "Unauthorized API request. Please login"

  /** Last-resort text of the failed view (spelled as the component spells it). */
  const DefaultErrorMessage: string := "Error occured while fetching data"

  /** The values of API_STATUSES that FetchHoc uses. */
  datatype ApiStatus = Pending | Success | Failed

  /**
   * A thrown request error, as far as the normaliser reads it:
   * an optional `detail` field and an optional HTTP `status`.
   */
  datatype RequestError = RequestError(detail: Option<string>, status: Option<int>)

  /** An outbound HTTP request: its method (verb) and its URL. */
  datatype HttpRequest = HttpRequest(verb: string, url: string)

  /**
   * What `render` produces:
   * - `Loader(message)`: the inline loader showing the `loadingMessage` prop;
   * - `ErrorView(text)`: the error paragraph showing `text`, followed by the
   *   "Try again" button that calls `tryFetch`;
   * - `Content(data)`: whatever the `children` render prop makes of `data`.
   */
  datatype View<T> = Loader(message: Option<string>) | ErrorView(text: string) | Content(data: Option<T>)

  /** JavaScript truthiness of an optional string: present and not empty. */
  predicate Truthy(s: Option<string>)
  {
    s.Some? && s.value != ""
  }

  /** The fixed status-code mapping: only 401 has a message. */
  function GenericErrorForStatus(status: Option<int>): (msg: string)
    ensures msg != "" <==> status == Some(401)
    ensures msg != "" ==> msg == UnauthorizedMessage
  {
    match status
    case Some(401) => UnauthorizedMessage
    case _ => ""
  }

  /**
   * The error normaliser: a truthy `detail` wins whatever the status;
   * otherwise the status mapping decides; otherwise the message is empty.
   */
  function GetErrorMessage(e: RequestError): (msg: string)
    ensures Truthy(e.detail) ==> msg == e.detail.value
    ensures !Truthy(e.detail) && e.status == Some(401) ==> msg == UnauthorizedMessage
    ensures msg == "" <==> !Truthy(e.detail) && e.status != Some(401)
  {
    if Truthy(e.detail) then e.detail.value
    else
      // `genericErrorForStatus(e.status) || ''` is the mapping itself,
      // since the mapping already yields '' for every unmapped status
      GenericErrorForStatus(e.status)
  }

  /**
   * The text of the failed view: the stored `error`, else a truthy
   * `genericErrorMessage` prop, else the default literal.
   */
  function ErrorText(error: string, genericErrorMessage: Option<string>): (text: string)
    ensures text != ""
    ensures error != "" ==> text == error
    ensures error == "" && Truthy(genericErrorMessage) ==> text == genericErrorMessage.value
    ensures error == "" && !Truthy(genericErrorMessage) ==> text == DefaultErrorMessage
  {
    if error != "" then error
    else if Truthy(genericErrorMessage) then genericErrorMessage.value
    else DefaultErrorMessage
  }

  /**
   * The branch selection of `render`: total over the three statuses, each
   * status giving its own kind of view. In particular the "Try again"
   * button (carried by `ErrorView`) is on screen exactly when the fetch failed.
   */
  function Render<T>(apiStatus: ApiStatus, data: Option<T>, error: string,
                     loadingMessage: Option<string>, genericErrorMessage: Option<string>): (v: View<T>)
    ensures v.Loader? <==> apiStatus == Pending
    ensures v.ErrorView? <==> apiStatus == Failed
    ensures v.Content? <==> apiStatus == Success
    ensures v.Loader? ==> v.message == loadingMessage
    ensures v.ErrorView? ==> v.text == ErrorText(error, genericErrorMessage)
    ensures v.Content? ==> v.data == data
  {
    match apiStatus
    case Pending => Loader(loadingMessage)
    case Failed => ErrorView(ErrorText(error, genericErrorMessage))
    case Success => Content(data)
  }

  /**
   * The whole priority chain seen by the user after a failed request:
   * server `detail`, then the 401 mapping, then `genericErrorMessage`,
   * then the default literal; each level applies only when the ones
   * before it yield nothing.
   */
  lemma FailureTextPriority(e: RequestError, genericErrorMessage: Option<string>)
    ensures var shown := ErrorText(GetErrorMessage(e), genericErrorMessage);
      if Truthy(e.detail) then shown == e.detail.value
      else if e.status == Some(401) then shown == UnauthorizedMessage
      else if Truthy(genericErrorMessage) then shown == genericErrorMessage.value
      else shown == DefaultErrorMessage
  {
  }

  /**
   * The component state of one mounted FetchHoc, with the props it reads.
   * `issued` and `answered` are bookkeeping for the proof: every request
   * the component has sent, and how many of them have come back.
   */
  class FetchHoc<T> {
    const url: string
    const loadingMessage: Option<string>
    const genericErrorMessage: Option<string>

    var apiStatus: ApiStatus
    var data: Option<T>
    var error: string

    ghost var issued: seq<HttpRequest>
    ghost var answered: nat

    /**
     * The invariant every operation keeps: each request sent is a GET to
     * `url`; no more answers than requests; the state leaves PENDING only
     * through an answer; SUCCESS always holds the body it received.
     */
    ghost predicate Valid()
      reads this
    {
      answered <= |issued| &&
      (forall i :: 0 <= i < |issued| ==> issued[i] == HttpRequest("GET", url)) &&
      (apiStatus != Pending ==> answered > 0) &&
      (apiStatus == Success ==> data.Some?)
    }

    /** At most one request is outstanding, and only while PENDING. */
    ghost predicate SingleFlight()
      reads this
    {
      |issued| - answered <= 1 &&
      (|issued| - answered == 1 ==> apiStatus == Pending)
    }

    /** The initial state: PENDING, no data, empty error, nothing sent yet. */
    constructor (url: string, loadingMessage: Option<string>, genericErrorMessage: Option<string>)
      ensures Valid() && SingleFlight()
      ensures this.url == url && this.loadingMessage == loadingMessage
      ensures this.genericErrorMessage == genericErrorMessage
      ensures apiStatus == Pending && data == None && error == ""
      ensures issued == [] && answered == 0
    {
      this.url := url;
      this.loadingMessage := loadingMessage;
      this.genericErrorMessage := genericErrorMessage;
      apiStatus := Pending;
      data := None;
      error := "";
      issued := [];
      answered := 0;
    }

    /**
     * The synchronous part of `tryFetch`: back to PENDING, leaving `data`
     * and `error` as they were, and exactly one GET request to `url` sent.
     */
    method TryFetch() returns (request: HttpRequest)
      requires Valid()
      modifies this
      ensures Valid()
      ensures request == HttpRequest("GET", url)
      ensures issued == old(issued) + [request] && answered == old(answered)
      ensures apiStatus == Pending && data == old(data) && error == old(error)
    {
      apiStatus := Pending;
      request := HttpRequest("GET", url);
      issued := issued + [request];
    }

    /** `componentDidMount`: the first fetch, made once when the component mounts. */
    method DidMount() returns (request: HttpRequest)
      requires Valid() && issued == []
      modifies this
      ensures Valid() && SingleFlight()
      ensures request == HttpRequest("GET", url) && issued == [request] && answered == 0
      ensures apiStatus == Pending && data == old(data) && error == old(error)
    {
      request := TryFetch();
    }

    /**
     * A click on "Try again". The button exists only in the failed view
     * (see Render), so this is only reachable from FAILED.
     */
    method TryAgain() returns (request: HttpRequest)
      requires Valid() && apiStatus == Failed
      modifies this
      ensures Valid()
      ensures old(SingleFlight()) ==> SingleFlight()
      ensures request == HttpRequest("GET", url)
      ensures issued == old(issued) + [request] && answered == old(answered)
      ensures apiStatus == Pending && data == old(data) && error == old(error)
    {
      request := TryFetch();
    }

    /** The awaited request returned `body`: SUCCESS with that body; `error` is left as it was. */
    method FetchSucceeded(body: T)
      requires Valid() && answered < |issued|
      modifies this
      ensures Valid()
      ensures old(SingleFlight()) ==> SingleFlight()
      ensures apiStatus == Success && data == Some(body) && error == old(error)
      ensures issued == old(issued) && answered == old(answered) + 1
    {
      data := Some(body);
      apiStatus := Success;
      answered := answered + 1;
    }

    /** The awaited request threw `e`: FAILED with the normalised message; `data` is left as it was. */
    method FetchFailed(e: RequestError)
      requires Valid() && answered < |issued|
      modifies this
      ensures Valid()
      ensures old(SingleFlight()) ==> SingleFlight()
      ensures apiStatus == Failed && error == GetErrorMessage(e) && data == old(data)
      ensures issued == old(issued) && answered == old(answered) + 1
    {
      apiStatus := Failed;
      error := GetErrorMessage(e);
      answered := answered + 1;
    }
  }

  /**
   * A client of the component, as the user-details page uses it: the first
   * fetch is refused with 401, the retry succeeds, and the stale error
   * message survives the success.
   */
  method UserDetailsSession<T>(body: T)
  {
    var hoc := new FetchHoc<T>("/api/me", Some("Fetching user information"),
                               Some("Error fetching user information"));
    var request := hoc.DidMount();
    assert request == HttpRequest("GET", "/api/me");
    assert Render(hoc.apiStatus, hoc.data, hoc.error, hoc.loadingMessage, hoc.genericErrorMessage)
      == Loader(Some("Fetching user information"));

    hoc.FetchFailed(RequestError(None, Some(401)));
    assert Render(hoc.apiStatus, hoc.data, hoc.error, hoc.loadingMessage, hoc.genericErrorMessage)
      == ErrorView(UnauthorizedMessage);

    request := hoc.TryAgain();
    assert hoc.SingleFlight() && |hoc.issued| == 2;
    hoc.FetchSucceeded(body);
    assert Render(hoc.apiStatus, hoc.data, hoc.error, hoc.loadingMessage, hoc.genericErrorMessage)
      == Content(Some(body));
    assert hoc.error == UnauthorizedMessage;
  }
}
