/**
 * The session side of the PureResponse client: one object holding the
 * credentials and the session context, which gates every request to the
 * remote `handleRequest` operation, and the pure rules that read the
 * decoded response envelope.
 *
 * The remote operation itself is not modelled: the caller of a request
 * supplies the paintArray the service answers with, and the client keeps a
 * ghost log of the requests it sent, so that "no remote call" and "exactly
 * one remote call" can be stated.
 */
module Session {
  import opened Wrappers
  import opened Codec

  // Bean processes, classes and types
  const LOGIN := "login"
  const LOGOUT := "logout"
  const CONTEXT := "context"
  const ENTITY := "bus_entity"
  const FACADE := "bus_facade"

  // Field names
  const USERNAME := "username"
  const PASSWORD := "password"
  const BEAN_ID := "beanId"
  const RESULT := "result"
  const RESULT_DATA := "resultData"

  // Result markers
  const SUCCESS := "success"
  const VALIDATION := "bean_exception_validation"

  // Error codes
  const NOT_AUTHENTICATED := "ERROR_NOT_AUTHENTICATED"
  const AUTH_PARAMS := "ERROR_AUTHENTICATION_PARAMETERS"
  const AUTH_PROCESS := "ERROR_AUTHENTICATION_PROCESS"

  /** One call of `handleRequest`, with its five arguments; a `None`
      context is the SOAP null. */
  datatype Request = Request(
    context: Option<string>,
    bean: string,
    process: string,
    entityData: Wire,
    processData: Wire)

  /** What a request returns: the not-authenticated code when it was refused
      locally, `True` when the caller asked for no response, or the decoded
      response otherwise. */
  datatype Reply = Refused(code: string) | Acknowledged | Response(data: Option<Mapping>)

  /** A subscript into a decoded response: a value, the `False` returned for
      an invalid combination of arguments, or the KeyError / TypeError that
      a missing key or a non-mapping raises. */
  datatype Lookup = Found(value: Decoded) | Rejected | Missing

  /** The client-facing result envelope `{ok, result, meta}`:
      `Ok` is what `_dict_ok` builds, `Err` what `_dict_err` builds. */
  datatype Envelope = Ok(result: string) | Err(error: string, meta: Mapping)

  /** The end of an authentication attempt: an envelope returned, or an
      exception raised while reading the response. */
  datatype Outcome = Returned(envelope: Envelope) | Raised

  // ---------------------------------------------------------------------------
  // The gate
  // ---------------------------------------------------------------------------

  /** Python truthiness of the stored context: absent and empty both count
      as "no session". */
  predicate Held(context: Option<string>) {
    context.Some? && context.value != ""
  }

  /** A request goes out when a session is held or when it is the login
      itself: the login always goes out, nothing else goes out before a
      session exists, and an empty context is no session. */
  predicate Admits(context: Option<string>, process: string): (go: bool)
    ensures process == LOGIN ==> go
    ensures context.None? ==> (go <==> process == LOGIN)
    ensures context == Some("") ==> (go <==> process == LOGIN)
    ensures process != LOGIN && context.Some? && context.value != "" ==> go
  {
    Held(context) || process == LOGIN
  }

  /** `api_context or suds.null()`: the context sent with a request. */
  function ContextArgument(context: Option<string>): (c: Option<string>)
    ensures c.Some? <==> Held(context)
    ensures c.Some? ==> c == context
  {
    if Held(context) then context else None
  }

  /** The bean a request is addressed to: `bean_type + "_" + bean_class`. */
  function BeanName(beanType: string, beanClass: string): (b: string)
    ensures |b| == |beanType| + 1 + |beanClass|
    ensures b[..|beanType|] == beanType && b[|beanType|] == '_'
    ensures b[|beanType| + 1..] == beanClass
  {
    beanType + "_" + beanClass
  }

  // ---------------------------------------------------------------------------
  // Reading a response envelope
  // ---------------------------------------------------------------------------

  /** Python's `v[key]` on a decoded value. */
  function Subscript(v: Lookup, key: string): Lookup {
    if v.Found? && v.value.DMap? && key in v.value.m then Found(v.value.m[key]) else Missing
  }

  /** `_response_data`: with both a bean type and a bean class, the bean's
      entry under `field`; with exactly one of them, the `False` marker; with
      neither, the whole of `field`. An empty string counts as not given. */
  function ResponseData(response: Mapping, beanType: string, beanClass: string, field: string): (r: Lookup)
    ensures r.Rejected? <==> (beanType == "") != (beanClass == "")
    ensures beanType == "" && beanClass == "" ==>
      (r.Found? <==> field in response) &&
      (field in response ==> r.value == response[field])
    ensures beanType != "" && beanClass != "" ==>
      (r.Found? <==>
        field in response && response[field].DMap? &&
        BeanName(beanType, beanClass) in response[field].m) &&
      (r.Found? ==> r.value == response[field].m[BeanName(beanType, beanClass)])
  {
    var whole := Found(DMap(response));
    if beanType != "" && beanClass != "" then
      Subscript(Subscript(whole, field), BeanName(beanType, beanClass))
    else if beanType != "" || beanClass != "" then
      Rejected
    else
      Subscript(whole, field)
  }

  /** `_result_success` and `_result_exception`: whether the `result` field
      of a response is the given marker. Reading a response without that
      field raises, which is `None` here. */
  function ResultIs(response: Mapping, marker: string): (r: Option<bool>)
    ensures r.None? <==> RESULT !in response
    ensures r == Some(true) <==> RESULT in response && response[RESULT] == DStr(marker)
  {
    match ResponseData(response, "", "", RESULT)
    case Found(v) => Some(v == DStr(marker))
    case _ => None
  }

  /** The session token of a successful login:
      `resultData["bus_entity_context"]["beanId"]`, when it is a string. */
  function SessionToken(response: Mapping): (t: Option<string>)
    ensures t.Some? <==>
      RESULT_DATA in response && response[RESULT_DATA].DMap? &&
      "bus_entity_context" in response[RESULT_DATA].m &&
      response[RESULT_DATA].m["bus_entity_context"].DMap? &&
      BEAN_ID in response[RESULT_DATA].m["bus_entity_context"].m &&
      response[RESULT_DATA].m["bus_entity_context"].m[BEAN_ID].DStr?
    ensures t.Some? ==>
      response[RESULT_DATA].m["bus_entity_context"].m[BEAN_ID] == DStr(t.value)
  {
    assert BeanName(ENTITY, CONTEXT) == "bus_entity_context";
    var id := Subscript(ResponseData(response, ENTITY, CONTEXT, RESULT_DATA), BEAN_ID);
    if id.Found? && id.value.DStr? then Some(id.value.s) else None
  }

  /** The token lookup with the arguments in the order the client passes
      them: the bean id goes in as the field and `resultData` is never read. */
  function SessionTokenAsWritten(response: Mapping): (r: Lookup)
    ensures r.Found? <==>
      BEAN_ID in response && response[BEAN_ID].DMap? &&
      "bus_entity_context" in response[BEAN_ID].m
  {
    assert BeanName(ENTITY, CONTEXT) == "bus_entity_context";
    ResponseData(response, ENTITY, CONTEXT, BEAN_ID)
  }

  /** How `api_authenticate` reads the decoded login response. A missing
      response or `result` field raises; `success` yields the session token
      (and raises when it cannot be read); the validation exception is a
      parameter error; anything else is a process error. Both errors carry
      the response as `meta`. */
  function Classify(auth: Option<Mapping>): (o: Outcome)
    ensures auth.None? || RESULT !in auth.value ==> o == Raised
    ensures auth.Some? && RESULT in auth.value && auth.value[RESULT] == DStr(SUCCESS) ==>
      (SessionToken(auth.value).Some? ==> o == Returned(Ok(SessionToken(auth.value).value))) &&
      (SessionToken(auth.value).None? ==> o == Raised)
    ensures auth.Some? && RESULT in auth.value && auth.value[RESULT] == DStr(VALIDATION) ==>
      o == Returned(Err(AUTH_PARAMS, auth.value))
    ensures auth.Some? && RESULT in auth.value && auth.value[RESULT] != DStr(SUCCESS) &&
            auth.value[RESULT] != DStr(VALIDATION) ==>
              o == Returned(Err(AUTH_PROCESS, auth.value))
  {
    match auth
    case None => Raised
    case Some(response) =>
      if ResultIs(response, SUCCESS).None? then
        Raised
      else if ResultIs(response, SUCCESS) == Some(true) then
        match SessionToken(response)
        case Some(token) => Returned(Ok(token))
        case None => Raised
      else if ResultIs(response, VALIDATION) == Some(true) then
        Returned(Err(AUTH_PARAMS, response))
      else
        Returned(Err(AUTH_PROCESS, response))
  }

  /** The entity data of the login request: the service reads back exactly
      the username and the password under their field names. */
  function Credentials(username: string, password: string): (es: seq<Entry>)
    ensures CanonicalEntries(es)
    ensures MeaningOf(es) == map[USERNAME := DStr(username), PASSWORD := DStr(password)]
  {
    var es := [Entry(USERNAME, Text(username)), Entry(PASSWORD, Text(password))];
    assert CanonicalEntries(es) && es[0].key == USERNAME && es[1].key == PASSWORD by {
      assert IsAscii(USERNAME) && IsAscii(PASSWORD);
    }
    assert MeaningOf(es)[es[0].key] == Meaning(es[0].value);
    assert MeaningOf(es)[es[1].key] == Meaning(es[1].value);
    assert MeaningOf(es).Keys == {USERNAME, PASSWORD};
    es
  }

  /** The login request's entity data, once the service decodes it, is
      exactly the username and the password under their field names. */
  lemma LoginCarriesCredentials(username: string, password: string)
    ensures Decode(EncodeArgument(Some(Credentials(username, password)))) ==
      Some(map[USERNAME := DStr(username), PASSWORD := DStr(password)])
  {
    RoundTrip(Credentials(username, password));
  }

  // ---------------------------------------------------------------------------
  // The client
  // ---------------------------------------------------------------------------

  class Client {
    const username: string
    const password: string
    /** The session context; absent before login and after logout. */
    var context: Option<string>
    /** Every `handleRequest` call made so far, in order. */
    ghost var sent: seq<Request>

    constructor (username: string, password: string)
      requires username != "" && password != ""
      ensures this.username == username && this.password == password
      ensures context == None && sent == []
    {
      this.username := username;
      this.password := password;
      context := None;
      sent := [];
    }

    /** `__init__`: a client is made only from a non-empty username and
        password; otherwise the authentication-parameters error is raised. */
    static method Open(username: string, password: string) returns (r: Result<Client, string>)
      ensures r.Failure? <==> username == "" || password == ""
      ensures r.Failure? ==> r.error == AUTH_PARAMS
      ensures r.Success? ==>
        fresh(r.value) && r.value.username == username && r.value.password == password &&
        r.value.context == None && r.value.sent == []
    {
      if username == "" || password == "" {
        return Failure(AUTH_PARAMS);
      }
      var c := new Client(username, password);
      return Success(c);
    }

    /** `api_make_request`: refused locally, with no remote call, unless a
        session is held or the process is the login; otherwise exactly one
        call goes out, addressed to `bean_type_bean_class`, carrying the held
        context (or null) and the encoded data, and the reply is `True` or
        the decoded response. The context is never changed. */
    method MakeRequest(
      beanType: string, beanClass: string, process: string,
      entityData: Option<seq<Entry>>, processData: Option<seq<Entry>>,
      noResponse: bool, response: Wire)
      returns (reply: Reply)
      modifies this`sent
      ensures !Admits(context, process) ==>
        sent == old(sent) && reply == Refused(NOT_AUTHENTICATED)
      ensures Admits(context, process) ==>
        sent == old(sent) + [Request(ContextArgument(context), BeanName(beanType, beanClass), process,
                                     EncodeArgument(entityData), EncodeArgument(processData))] &&
        reply == (if noResponse then Acknowledged else Response(Decode(response)))
    {
      if !Admits(context, process) {
        return Refused(NOT_AUTHENTICATED);
      }
      var contextArgument := if Held(context) then context else None;
      var entityWire := BuildWire(entityData);
      var processWire := BuildWire(processData);
      sent := sent + [Request(contextArgument, beanType + "_" + beanClass, process, entityWire, processWire)];
      if noResponse {
        return Acknowledged;
      }
      var decoded := ReadWire(response);
      reply := Response(decoded);
    }

    /** `api_authenticate`: one login call; the context is stored only when
        the login succeeded, and the outcome is the classification of the
        decoded response. */
    method Authenticate(response: Wire) returns (o: Outcome)
      modifies this`context, this`sent
      ensures sent == old(sent) + [Request(ContextArgument(old(context)), BeanName(FACADE, CONTEXT), LOGIN,
                                           EncodeArgument(Some(Credentials(username, password))), EncodeArgument(None))]
      ensures o == Classify(Decode(response))
      ensures o.Returned? && o.envelope.Ok? ==> context == Some(o.envelope.result)
      ensures !(o.Returned? && o.envelope.Ok?) ==> context == old(context)
    {
      var credentials := Credentials(username, password);
      var reply := MakeRequest(FACADE, CONTEXT, LOGIN, Some(credentials), None, false, response);
      assert reply == Response(Decode(response));
      o := Classify(reply.data);
      if o.Returned? && o.envelope.Ok? {
        context := Some(o.envelope.result);
      }
    }

    /** `api_invalidate`: a logout call goes out only when a session is held;
        the context is cleared in every case. */
    method Invalidate()
      modifies this`context, this`sent
      ensures context == None
      ensures Held(old(context)) ==>
        sent == old(sent) + [Request(old(context), BeanName(FACADE, CONTEXT), LOGOUT, Null, Null)]
      ensures !Held(old(context)) ==> sent == old(sent)
    {
      var _ := MakeRequest(FACADE, CONTEXT, LOGOUT, None, None, true, Null);
      context := None;
    }
  }

  // ---------------------------------------------------------------------------
  // Sessions as a caller sees them
  // ---------------------------------------------------------------------------

  /** The paintArray of a successful login that hands out `token`. */
  function LoginResponse(token: string): Wire {
    Array([
      Pair(RESULT, Str(SUCCESS)),
      Pair(RESULT_DATA, Arr(Array([
        Pair("bus_entity_context", Arr(Array([Pair(BEAN_ID, Str(token))])))])))])
  }

  /** A login answered with `success` and a bean id of "abc123" returns
      `{ok: True, result: "abc123"}`. */
  lemma LoginExample()
    ensures Classify(Decode(LoginResponse("abc123"))) == Returned(Ok("abc123"))
  {
  }

  /** On the same response, the lookup as the client writes it raises a
      KeyError where the intended one finds the token. */
  lemma AsWrittenLookupMissesToken()
    ensures Decode(LoginResponse("abc123")).Some?
    ensures SessionTokenAsWritten(Decode(LoginResponse("abc123")).value) == Missing
    ensures SessionToken(Decode(LoginResponse("abc123")).value) == Some("abc123")
  {
  }

  /** Before any login, a request for any process but the login is refused
      and nothing is sent. */
  method RequestBeforeLogin(
    username: string, password: string, beanType: string, beanClass: string,
    process: string, response: Wire)
    returns (reply: Reply, ghost calls: nat)
    requires username != "" && password != ""
    requires process != LOGIN
    ensures reply == Refused(NOT_AUTHENTICATED) && calls == 0
  {
    var made := Client.Open(username, password);
    var client := made.value;
    reply := client.MakeRequest(beanType, beanClass, process, None, None, false, response);
    calls := |client.sent|;
  }

  /** A fresh client that has logged in with the token "abc123". */
  method LoggedIn(username: string, password: string) returns (client: Client)
    requires username != "" && password != ""
    ensures fresh(client) && client.context == Some("abc123") && |client.sent| == 1
  {
    var made := Client.Open(username, password);
    client := made.value;
    LoginExample();
    var _ := client.Authenticate(LoginResponse("abc123"));
  }

  /** After a successful login the next request carries the token and is
      answered; after a logout the same request is refused again. */
  method RequestAroundLogout(
    username: string, password: string, beanType: string, beanClass: string,
    process: string, response: Wire)
    returns (during: Reply, after: Reply, ghost calls: nat, ghost carried: Option<string>)
    requires username != "" && password != ""
    requires process != LOGIN
    ensures during == Response(Decode(response)) && carried == Some("abc123")
    ensures after == Refused(NOT_AUTHENTICATED) && calls == 3
  {
    var client := LoggedIn(username, password);
    during := client.MakeRequest(beanType, beanClass, process, None, None, false, response);
    carried := client.sent[1].context;
    client.Invalidate();
    after := client.MakeRequest(beanType, beanClass, process, None, None, false, response);
    calls := |client.sent|;
  }
}
