/**
 * What the application learns from an agent's HTTP interface: the
 * `InstanceStatus` record built by `get_status`, and the payload choice of
 * `run_order`. The HTTP exchange itself is an input: a `FetchOutcome` says
 * what the status request produced.
 */
module Client {
  import opened Wrappers
  import Text

  /** `InstanceStatus` with its dataclass defaults. */
  datatype InstanceStatus = InstanceStatus(
    state: string,
    isExecuting: bool,
    hasPendingOrder: bool,
    hasIncompleteOrders: bool,
    currentFile: string,
    apiStatus: string,
    botRunning: bool,
    reachable: bool,
    error: Option<string>,
    characterName: string,
    worldName: string,
    runtimeSeconds: int)

  const DefaultStatus: InstanceStatus :=
    InstanceStatus("unknown", false, false, false, "None", "Unknown", false, false, None,
                   "Unknown", "Unknown", 0)

  /** The JSON body of `GET /status`; an absent key is `None`. */
  datatype StatusBody = StatusBody(
    state: Option<string>,
    isExecuting: Option<bool>,
    hasPendingOrder: Option<bool>,
    hasIncompleteOrders: Option<bool>,
    currentFile: Option<string>,
    apiStatus: Option<string>,
    botRunning: Option<bool>,
    characterName: Option<string>,
    worldName: Option<string>,
    runtimeSeconds: Option<int>)

  /**
   * How the status request ended: an HTTP reply (whose body, if read, either
   * decodes or raises with a message), or one of the three kinds of
   * exception the client tells apart.
   */
  datatype FetchOutcome =
    | HttpReply(code: int, body: Result<StatusBody, string>)
    | ConnectionError
    | Timeout
    | OtherException(message: string)

  function OrElse<T>(o: Option<T>, default: T): T {
    if o.Some? then o.value else default
  }

  /** `WranglerClient.get_status`: start from the defaults and fill in what the reply gives. */
  function GetStatus(f: FetchOutcome): (st: InstanceStatus)
    ensures st.reachable <==> f.HttpReply? && f.code == 200 && f.body.Ok?
    ensures st.reachable ==> st.error == None
    ensures !st.reachable ==> st.error.Some? && st == DefaultStatus.(error := st.error)
    ensures !st.reachable ==> !st.isExecuting && !st.hasIncompleteOrders
    ensures f.HttpReply? && f.code != 200 ==> st.error == Some("HTTP " + Text.IntToString(f.code))
  {
    match f
    case HttpReply(code, body) =>
      if code != 200 then DefaultStatus.(error := Some("HTTP " + Text.IntToString(code)))
      else if body.Err? then DefaultStatus.(error := Some(body.error))
      else
        var b := body.value;
        InstanceStatus(
          OrElse(b.state, DefaultStatus.state),
          OrElse(b.isExecuting, DefaultStatus.isExecuting),
          OrElse(b.hasPendingOrder, DefaultStatus.hasPendingOrder),
          OrElse(b.hasIncompleteOrders, DefaultStatus.hasIncompleteOrders),
          OrElse(b.currentFile, DefaultStatus.currentFile),
          OrElse(b.apiStatus, DefaultStatus.apiStatus),
          OrElse(b.botRunning, DefaultStatus.botRunning),
          true,
          None,
          OrElse(b.characterName, DefaultStatus.characterName),
          OrElse(b.worldName, DefaultStatus.worldName),
          OrElse(b.runtimeSeconds, DefaultStatus.runtimeSeconds))
    case ConnectionError => DefaultStatus.(error := Some("Connection refused"))
    case Timeout => DefaultStatus.(error := Some("Timeout"))
    case OtherException(m) => DefaultStatus.(error := Some(m))
  }

  /** A reachable status carries exactly what the body said, and the default for each absent key. */
  lemma ReachableStatusFromBody(b: StatusBody)
    ensures var st := GetStatus(HttpReply(200, Ok(b)));
            && st.reachable && st.error == None
            && st.isExecuting == (b.isExecuting == Some(true))
            && st.hasPendingOrder == (b.hasPendingOrder == Some(true))
            && st.hasIncompleteOrders == (b.hasIncompleteOrders == Some(true))
            && st.botRunning == (b.botRunning == Some(true))
            && st.state == (if b.state.Some? then b.state.value else "unknown")
            && st.currentFile == (if b.currentFile.Some? then b.currentFile.value else "None")
            && st.apiStatus == (if b.apiStatus.Some? then b.apiStatus.value else "Unknown")
            && st.characterName == (if b.characterName.Some? then b.characterName.value else "Unknown")
            && st.worldName == (if b.worldName.Some? then b.worldName.value else "Unknown")
            && st.runtimeSeconds == (if b.runtimeSeconds.Some? then b.runtimeSeconds.value else 0)
  {
  }

  /** Distinct HTTP codes give distinct error texts, so the code can be read back from the text. */
  lemma HttpErrorNamesCode(c1: int, c2: int, b1: Result<StatusBody, string>, b2: Result<StatusBody, string>)
    requires c1 != 200 && c2 != 200
    requires GetStatus(HttpReply(c1, b1)).error == GetStatus(HttpReply(c2, b2)).error
    ensures c1 == c2
  {
    var s1, s2 := Text.IntToString(c1), Text.IntToString(c2);
    assert ("HTTP " + s1)[5..] == s1;
    assert ("HTTP " + s2)[5..] == s2;
    if c1 < 0 && c2 < 0 {
      assert s1[1..] == Text.NatToString(-c1) && s2[1..] == Text.NatToString(-c2);
      Text.NatToStringInjective(-c1, -c2);
    } else if c1 >= 0 && c2 >= 0 {
      Text.NatToStringInjective(c1, c2);
    }
  }

  /** The body of `POST /run`. */
  datatype RunPayload = JsonPath(path: string) | JsonContent(json: string)

  /**
   * `run_order`'s choice of payload: a non-empty path wins, then non-empty
   * content; with neither the call fails without any request.
   */
  function RunPayloadFor(jsonPath: Option<string>, jsonContent: Option<string>)
    : (r: Result<RunPayload, string>)
    ensures r.Ok? <==> ((jsonPath.Some? && jsonPath.value != []) || (jsonContent.Some? && jsonContent.value != []))
    ensures r.Ok? && r.value.JsonPath? ==> jsonPath == Some(r.value.path) && r.value.path != []
    ensures r.Ok? && r.value.JsonContent? ==>
              (jsonPath.None? || jsonPath.value == []) && jsonContent == Some(r.value.json)
    ensures r.Err? ==> r.error == "Must provide jsonPath or json content"
  {
    if jsonPath.Some? && jsonPath.value != [] then Ok(JsonPath(jsonPath.value))
    else if jsonContent.Some? && jsonContent.value != [] then Ok(JsonContent(jsonContent.value))
    else Err("Must provide jsonPath or json content")
  }
}
