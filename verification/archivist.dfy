/** The connection object of archivist/archivist.py: configuration, the auth
    token cache, request-header construction and the lazily populated registry
    of endpoint clients.

    The Python object is mutable. Here it is an immutable record, and every
    operation that may change it returns a `Step`: the object as it is
    afterwards together with the value returned or the exception raised. */
module Archivist {
  import opened Outcomes
  import opened Json
  import opened Text
  import Constants

  /** `MachineAuth`: a client-credentials pair. */
  datatype MachineAuth = MachineAuth(clientId: string, clientSecret: string)

  /** The `auth` argument of the constructor: a tuple, or anything else (a
      bearer token or `None`). */
  datatype Credentials = Token(token: Option<string>) | Machine(pair: MachineAuth)

  /** An endpoint client made by the registry; `serial` identifies one
      constructed instance, so two handles are the same object iff equal. */
  datatype Client = Client(name: string, serial: nat)

  datatype Archivist = Archivist(
    url: string,
    root: string,
    auth: Option<string>,          // `_auth`: the bearer token, if any
    machine: Option<MachineAuth>,  // `_client_id` and `_client_secret`
    expiresAt: int,                // `_expires_at`, in whole seconds
    fixtures: Object,
    clients: map<string, Client>,  // the attributes set by `__getattr__`
    constructed: nat)              // clients constructed so far

  /** The result of an operation on the connection object. */
  datatype Step<+T> = Step(state: Archivist, outcome: Result<T>)

  /** The reply of the token endpoint (`appidp.token`): the `access_token`
      and `expires_in` entries, each possibly missing. */
  datatype Fetched = Fetched(accessToken: Option<string>, expiresIn: Option<int>)

  /** The token endpoint, called with the client id and secret. */
  type TokenEndpoint = (string, string) -> Result<Fetched>

  /** Seconds subtracted from a fresh token's lifetime. */
  const ExpiryMargin := 10

  const AuthorizationHeader := "authorization"
  const BearerPrefix := "Bearer "

  /** Keys of `CLIENTS`, the attributes created on demand. */
  const ClientNames: set<string> := {
    "access_policies", "assets", "assetattachments", "appidp", "applications",
    "attachments", "compliance", "compliance_policies", "composite", "events",
    "locations", "runner", "sboms", "subjects"
  }

  /** What every connection object reachable through this module satisfies. */
  ghost predicate Valid(a: Archivist) {
    && !EndsWith(a.url, "/")
    && a.root == a.url + "/archivist"
    && (forall n :: n in a.clients ==> n in ClientNames && a.clients[n].name == n)
    && (forall n :: n in a.clients ==> a.clients[n].serial < a.constructed)
    && (forall n, m :: n in a.clients && m in a.clients && n != m ==>
          a.clients[n].serial != a.clients[m].serial)
  }

  /** Every client cached in `a` is still cached, unchanged, in `b`. */
  ghost predicate Extends(a: Archivist, b: Archivist) {
    forall n :: n in a.clients ==> n in b.clients && b.clients[n] == a.clients[n]
  }

  /** `Archivist.__init__`. */
  function New(url: string, credentials: Credentials, fixtures: Object): (r: Result<Archivist>)
    ensures r.Err? <==> |url| > 0 && url[|url| - 1] == '/'
    ensures r.Err? ==> r.error == ArchivistError("URL " + url + " has trailing /")
    ensures r.Ok? ==> Valid(r.value)
    ensures r.Ok? ==> && r.value.url == url
                      && r.value.root == url + "/archivist"
                      && r.value.expiresAt == 0
                      && r.value.fixtures == fixtures
                      && r.value.clients == map[]
    ensures r.Ok? && credentials.Machine? ==>
              r.value.machine == Some(credentials.pair) && r.value.auth == None
    ensures r.Ok? && credentials.Token? ==>
              r.value.machine == None && r.value.auth == credentials.token
  {
    var (auth, machine) :=
      match credentials
      case Machine(pair) => (None, Some(pair))
      case Token(token) => (token, None);
    if EndsWith(url, Constants.Sep) then
      Err(ArchivistError("URL " + url + " has trailing /"))
    else
      Ok(Archivist(url, url + Constants.Sep + Constants.Root, auth, machine, 0, fixtures, map[], 0))
  }

  /** `Archivist.__str__`. */
  function Str(a: Archivist): (r: string)
    ensures |r| == |a.url| + 11
    ensures r[..10] == "Archivist(" && r[|r| - 1] == ')'
    ensures r[10..|r| - 1] == a.url
  {
    "Archivist(" + a.url + ")"
  }

  /** Two connection objects print alike exactly when their URLs agree. */
  lemma StrInjective(a: Archivist, b: Archivist)
    ensures Str(a) == Str(b) <==> a.url == b.url
  {
  }

  /** The `public` property. */
  function IsPublic(a: Archivist): (r: bool)
    ensures !r
  {
    false
  }

  /** Looking up an endpoint client attribute. Python's attribute lookup finds
      a client already set; otherwise `__getattr__` constructs the client named
      in `CLIENTS`, keeps it as an attribute and returns it. */
  function GetClient(a: Archivist, name: string): (r: Step<Client>)
    ensures name !in ClientNames && name !in a.clients ==> r == Step(a, Err(AttributeError))
    ensures Valid(a) ==> (r.outcome == Err(AttributeError) <==> name !in ClientNames)
    ensures name in a.clients ==> r == Step(a, Ok(a.clients[name]))
    ensures name in ClientNames && name !in a.clients ==>
              && r.outcome.Ok? && r.outcome.value.name == name
              && r.state == a.(clients := a.clients[name := r.outcome.value],
                               constructed := a.constructed + 1)
    ensures Valid(a) ==> Valid(r.state) && Extends(a, r.state)
    ensures Valid(a) && r.outcome.Ok? ==> r.state.clients[name] == r.outcome.value
    ensures Valid(a) && name !in a.clients && r.outcome.Ok? ==>
              forall n :: n in a.clients ==> a.clients[n].serial != r.outcome.value.serial
  {
    if name in a.clients then
      Step(a, Ok(a.clients[name]))
    else if name !in ClientNames then
      Step(a, Err(AttributeError))
    else
      var c := Client(name, a.constructed);
      Step(a.(clients := a.clients[name := c], constructed := a.constructed + 1), Ok(c))
  }

  /** An operation on the connection object that may touch the registry. */
  datatype Op = Lookup(name: string) | ReadToken(now: int, endpoint: TokenEndpoint)

  /** The connection object after performing `op`, whatever it returned or raised. */
  function Apply(a: Archivist, op: Op): (b: Archivist)
    ensures Valid(a) ==> Valid(b) && Extends(a, b)
  {
    match op
    case Lookup(name) => GetClient(a, name).state
    case ReadToken(now, endpoint) => ReadAuth(a, now, endpoint).state
  }

  /** The connection object after performing `ops` in order. */
  function Run(a: Archivist, ops: seq<Op>): Archivist
    decreases |ops|
  {
    if |ops| == 0 then a else Run(Apply(a, ops[0]), ops[1..])
  }

  /** Once a client has been made, every later lookup of its name, after any
      other lookups and token reads, returns that same client. */
  lemma {:induction false} LookupMemoised(a: Archivist, name: string, ops: seq<Op>)
    requires Valid(a)
    requires GetClient(a, name).outcome.Ok?
    ensures var b := Run(GetClient(a, name).state, ops);
            GetClient(b, name) == Step(b, GetClient(a, name).outcome)
  {
    RunExtends(GetClient(a, name).state, ops);
  }

  lemma {:induction false} RunExtends(a: Archivist, ops: seq<Op>)
    requires Valid(a)
    ensures Valid(Run(a, ops)) && Extends(a, Run(a, ops))
    decreases |ops|
  {
    if |ops| > 0 {
      RunExtends(Apply(a, ops[0]), ops[1..]);
    }
  }

  /** Whether reading `auth` at time `now` calls the token endpoint. */
  predicate RefreshDue(a: Archivist, now: int) {
    a.machine.Some? && a.expiresAt < now
  }

  /** The `auth` property read at time `now`. With client credentials and an
      expired deadline it fetches a new token through the `appidp` client. */
  function ReadAuth(a: Archivist, now: int, endpoint: TokenEndpoint): (r: Step<Option<string>>)
    ensures !RefreshDue(a, now) ==> r == Step(a, Ok(a.auth))
    ensures RefreshDue(a, now) ==>
              var reply := endpoint(a.machine.value.clientId, a.machine.value.clientSecret);
              && r.state.url == a.url && r.state.root == a.root
              && r.state.machine == a.machine && r.state.fixtures == a.fixtures
              && r.state.clients == GetClient(a, "appidp").state.clients
              && r.state.constructed == GetClient(a, "appidp").state.constructed
              && "appidp" in r.state.clients
              && (reply.Err? ==> r.outcome == Err(reply.error) && r.state.auth == a.auth
                                 && r.state.expiresAt == a.expiresAt)
              && (reply.Ok? && reply.value.accessToken.None? ==>
                    r.outcome.Err? && r.outcome.error.ArchivistError? && r.state.auth == None
                    && r.state.expiresAt == a.expiresAt)
              && (reply.Ok? && reply.value.accessToken.Some? && reply.value.expiresIn.None? ==>
                    r.outcome == Err(KeyError("expires_in")) && r.state.auth == reply.value.accessToken
                    && r.state.expiresAt == a.expiresAt)
              && (reply.Ok? && reply.value.accessToken.Some? && reply.value.expiresIn.Some? ==>
                    r.outcome == Ok(reply.value.accessToken) && r.state.auth == reply.value.accessToken
                    && r.state.expiresAt == now + reply.value.expiresIn.value - 10)
    ensures Valid(a) ==> Valid(r.state) && Extends(a, r.state)
  {
    if !RefreshDue(a, now) then
      Step(a, Ok(a.auth))
    else
      var idp := GetClient(a, "appidp").state;
      match endpoint(a.machine.value.clientId, a.machine.value.clientSecret)
      case Err(e) => Step(idp, Err(e))
      case Ok(reply) =>
        var b := idp.(auth := reply.accessToken);
        if reply.accessToken.None? then
          Step(b, Err(ArchivistError("Auth token from client id,secret is invalid")))
        else if reply.expiresIn.None? then
          Step(b, Err(KeyError("expires_in")))
        else
          Step(b.(expiresAt := now + reply.expiresIn.value - ExpiryMargin), Ok(reply.accessToken))
  }

  /** Reading `auth` never changes the configuration or the mode. */
  lemma ReadAuthKeepsConfiguration(a: Archivist, now: int, endpoint: TokenEndpoint)
    ensures var b := ReadAuth(a, now, endpoint).state;
            b.url == a.url && b.root == a.root && b.machine == a.machine && b.fixtures == a.fixtures
  {
  }

  /** A token fetched at `fetchedAt` with lifetime `lifetime` is served from the
      cache, without calling the endpoint, exactly up to `ExpiryMargin` seconds
      before it expires; later reads refresh it. */
  lemma CachedUntilMargin(a: Archivist, fetchedAt: int, e1: TokenEndpoint, now: int, e2: TokenEndpoint)
    requires a.machine.Some?
    requires var f := e1(a.machine.value.clientId, a.machine.value.clientSecret);
             f.Ok? && f.value.accessToken.Some? && f.value.expiresIn.Some?
    requires RefreshDue(a, fetchedAt)
    ensures var f := e1(a.machine.value.clientId, a.machine.value.clientSecret).value;
            var b := ReadAuth(a, fetchedAt, e1).state;
            && (now + ExpiryMargin <= fetchedAt + f.expiresIn.value <==> !RefreshDue(b, now))
            && (!RefreshDue(b, now) ==> ReadAuth(b, now, e2) == Step(b, Ok(f.accessToken)))
            && (!RefreshDue(b, now) ==> now < fetchedAt + f.expiresIn.value)
  {
  }

  /** In static-token mode every read returns the token given at construction
      and changes nothing. */
  lemma StaticTokenStable(url: string, token: Option<string>, fixtures: Object, now: int, endpoint: TokenEndpoint)
    requires New(url, Token(token), fixtures).Ok?
    ensures var a := New(url, Token(token), fixtures).value;
            ReadAuth(a, now, endpoint) == Step(a, Ok(token))
  {
  }

  /** The pure part of `_add_headers`: a copy of the caller's headers with an
      `authorization` entry added when there is a token. */
  function WithAuthorization(headers: Option<map<string, string>>, auth: Option<string>): (r: map<string, string>)
    ensures var given := if headers.Some? then headers.value else map[];
            && r.Keys == given.Keys + (if auth.Some? then {"authorization"} else {})
            && (forall k :: k in given && (auth.None? || k != "authorization") ==> r[k] == given[k])
    ensures auth.Some? ==>
              var v := r["authorization"];
              |v| >= 7 && v[..7] == "Bearer " && StripsTo(auth.value, v[7..])
  {
    var given := if headers.Some? then headers.value else map[];
    if auth.Some? then given[AuthorizationHeader := BearerPrefix + Strip(auth.value)] else given
  }

  /** `Archivist._add_headers`: reads `auth` once (possibly refreshing it) and
      adds the bearer header. */
  function AddHeaders(a: Archivist, headers: Option<map<string, string>>, now: int, endpoint: TokenEndpoint)
    : (r: Step<map<string, string>>)
    ensures var read := ReadAuth(a, now, endpoint);
            && r.state == read.state
            && (read.outcome.Err? ==> r.outcome == Err(read.outcome.error))
            && (read.outcome.Ok? ==>
                  && r.outcome.Ok?
                  && r.outcome.value == WithAuthorization(headers, read.outcome.value)
                  && ("authorization" in r.outcome.value <==>
                        read.outcome.value.Some? || (headers.Some? && "authorization" in headers.value))
                  && (read.outcome.value.Some? ==>
                        var v := r.outcome.value["authorization"];
                        |v| >= 7 && v[..7] == "Bearer " && StripsTo(read.outcome.value.value, v[7..]))
                  && (headers.Some? ==>
                        forall k :: k in headers.value ==>
                          && k in r.outcome.value
                          && (read.outcome.value.None? || k != "authorization" ==>
                                r.outcome.value[k] == headers.value[k])))
    ensures !RefreshDue(a, now) && a.auth.None? ==> r == Step(a, Ok(if headers.Some? then headers.value else map[]))
  {
    var read := ReadAuth(a, now, endpoint);
    match read.outcome
    case Err(e) => Step(read.state, Err(e))
    case Ok(auth) => Step(read.state, Ok(WithAuthorization(headers, auth)))
  }

  /** A connection made with no token sends no headers of its own. */
  lemma NoTokenNoHeaders(url: string, now: int, endpoint: TokenEndpoint)
    requires !EndsWith(url, "/")
    ensures var a := New(url, Token(None), map[]).value;
            AddHeaders(a, None, now, endpoint) == Step(a, Ok(map[]))
  {
  }

  /** `Archivist.__copy__`: a new connection with the same URL and fixtures,
      whose static token is the current value of `auth`. */
  function Copy(a: Archivist, now: int, endpoint: TokenEndpoint): (r: Step<Archivist>)
    ensures var read := ReadAuth(a, now, endpoint);
            && r.state == read.state
            && (read.outcome.Err? ==> r.outcome == Err(read.outcome.error))
    ensures Valid(a) && ReadAuth(a, now, endpoint).outcome.Ok? ==>
              && r.outcome.Ok?
              && r.outcome.value.url == a.url && r.outcome.value.root == a.root
              && r.outcome.value.fixtures == a.fixtures
              && r.outcome.value.auth == ReadAuth(a, now, endpoint).outcome.value
              && r.outcome.value.machine == None
              && r.outcome.value.expiresAt == 0
              && r.outcome.value.clients == map[]
  {
    var read := ReadAuth(a, now, endpoint);
    match read.outcome
    case Err(e) => Step(read.state, Err(e))
    case Ok(auth) => Step(read.state, New(a.url, Token(auth), a.fixtures))
  }

  /** A copy keeps the original's URL, root and printed form, and in every
      later read, at any time and with any token endpoint, returns the token
      it was given without refreshing. */
  lemma CopyNeverRefreshes(a: Archivist, now: int, endpoint: TokenEndpoint, later: int, other: TokenEndpoint)
    requires Valid(a)
    requires ReadAuth(a, now, endpoint).outcome.Ok?
    ensures var copy := Copy(a, now, endpoint).outcome.value;
            && Valid(copy)
            && Str(copy) == Str(a)
            && ReadAuth(copy, later, other) == Step(copy, Ok(ReadAuth(a, now, endpoint).outcome.value))
  {
  }
}
