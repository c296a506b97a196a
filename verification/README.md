# archivist-python client core, modelled in Dafny

This project models the client-side bookkeeping of the `archivist` Python SDK for the
RKVST ledger REST API:

- **Connection configuration** (`Archivist.__init__`). The URL must not end in `/`. The
  endpoint root is `url + "/archivist"`. The `auth` argument picks one of two modes: a
  static bearer token, or a client-credentials pair with an `expires_at` deadline that
  starts at 0.
- **Token cache** (`auth` property). In client-credentials mode, reading `auth` fetches a
  new token only when `expires_at < now`. It keeps the token until
  `now + expires_in - 10`. The fetch goes through the `appidp` client of the registry.
- **Request headers** (`_add_headers`). The caller's headers are copied and
  `authorization: Bearer <token.strip()>` is added when there is a token. Python's
  `str.strip()` is modelled exactly (`Text.Strip`), including Python's set of white-space
  characters, and checked against an independent slice-based definition.
- **Client registry** (`CLIENTS` / `__getattr__`). A client is constructed on first lookup
  and cached, so later lookups return that same client. Any other name raises
  `AttributeError`.
- **`__copy__`, `__str__` and `public`.**
- **Locations endpoint** (`archivist/locations.py`). It covers:
  - the total `Location.name` accessor;
  - the client's `subpath`/label paths and the `read` path;
  - `__params`: props copied, with `attrs` placed under `"attributes"` when non-empty,
    then merged over the `locations` fixture;
  - `create`, `create_from_data`, `read_by_signature`, `count` and `list`, as requests to
    abstract remote calls;
  - the three-way decision of `create_if_not_exists`.

The mutable Python object is an immutable record (`Archivist.Archivist`). Each operation
that may change it returns a `Step`: the state afterwards plus the value returned or the
exception raised (`Outcomes.Result`). This keeps partial updates that happen before an
exception. For example, a token reply without `access_token` leaves `_auth` set to `None`.
The clock is an injected `now: int`. The token endpoint is a function parameter that
returns an optional `access_token` and an optional `expires_in`. Remote calls,
`_deepmerge` and `selector_signature` are function parameters, because their definitions
are not part of this model. JSON is `Json.Json`, with objects as `map<string, Json>`.
Python's `deepcopy` is value semantics here, so "the caller's dict is not mutated" holds
by construction.

Files:
- `outcomes.dfy`: Option, errors and Result.
- `json.dfy`: the JSON values.
- `constants.dfy`: the path constants.
- `text.dfy`: `endswith` and `strip`.
- `archivist.dfy`: the connection object.
- `locations.dfy`: the locations endpoint.

`__copy__` passes the current value of `auth` as a static token. The copy therefore has no
client credentials and never refreshes its token (`Archivist.Copy`,
`Archivist.CopyNeverRefreshes`).

The unit test `unittests/testpublicevents.py` looks up a `publicevents` client and
`PUBLICASSETS_*` constants. Neither appears in `CLIENTS` in `archivist/archivist.py` or in
`archivist/constants.py`, so in this model that lookup raises `AttributeError`.

## Model

| member | source | states |
|---|---|---|
| Text.Strip | archivist/archivist.py:221 | `token.strip()` yields a slice of the token whose ends are not white space and which is surrounded only by white space (Python's `isspace` set) |
| Text.StripsToUnique | archivist/archivist.py:221 | at most one string is the strip of a given string, so `Strip` is fully determined by that characterisation |
| Text.StripIdempotent | archivist/archivist.py:221 | stripping an already stripped token changes nothing |
| Archivist.New | archivist/archivist.py:104-133 | construction fails with `ArchivistError` exactly when the URL's last character is `/`; otherwise the URL is stored unchanged, the root is `url + "/archivist"`, `expires_at` is 0, no client exists yet, and a tuple gives client credentials with no token while anything else gives that token with no credentials |
| Archivist.Str | archivist/archivist.py:151-152 | `str()` is `Archivist(` + url + `)`, and the URL can be read back from it |
| Archivist.StrInjective | archivist/archivist.py:151-152 | two connections print alike exactly when their URLs are equal |
| Archivist.IsPublic | archivist/archivist.py:166-169 | the connection is never public |
| Archivist.GetClient | archivist/archivist.py:154-164 | a name outside `CLIENTS` raises `AttributeError` and changes nothing; a cached client is returned as is; otherwise a new client, distinct from every earlier one, is made and cached under its name; the registry invariant holds afterwards and no entry is replaced |
| Archivist.RunExtends | archivist/archivist.py:154-164 | after any sequence of lookups and token reads, every cached client is still cached unchanged |
| Archivist.LookupMemoised | archivist/archivist.py:154-164 | once a lookup has made a client, every later lookup of that name returns the same client, whatever happened in between |
| Archivist.ReadAuth | archivist/archivist.py:181-192 | with no client credentials, or while `now <= expires_at`, reading `auth` returns the stored token and changes nothing; otherwise the endpoint is called and the registry changes only by the `appidp` client, if that one was not cached yet: its failure propagates, a missing `access_token` raises `ArchivistError` with `_auth` cleared, a missing `expires_in` raises `KeyError` with the new token kept, and success stores and returns the token with `expires_at = now + expires_in - 10` |
| Archivist.ReadAuthKeepsConfiguration | archivist/archivist.py:181-192 | reading `auth` never changes the URL, root, credentials or fixtures |
| Archivist.CachedUntilMargin | archivist/archivist.py:184-189 | after a successful refresh at time t with lifetime e, a later read makes no new fetch and returns the cached token exactly when `now + 10 <= t + e`; such a read happens strictly before the token's real expiry |
| Archivist.StaticTokenStable | archivist/archivist.py:119-192 | a connection built with a static token returns that token on every read, whatever the clock, and never changes |
| Archivist.WithAuthorization | archivist/archivist.py:212-223 | the result has exactly the caller's header keys plus `authorization` when there is a token; every other caller header keeps its value; the added value is `Bearer ` followed by the stripped token |
| Archivist.AddHeaders | archivist/archivist.py:212-223 | `auth` is read once, so its error propagates and its state change is kept; the result is the caller's headers with `authorization` added, so every caller header is kept (its value too, except an `authorization` overridden by a token) and the added value is `Bearer ` followed by the stripped token; `authorization` is present exactly when there is a token or the caller supplied one; with no token and no refresh due, the caller's headers (or `{}`) are returned and nothing changes |
| Archivist.NoTokenNoHeaders | unittests/testpublicevents.py:75-83 | a connection made with no token sends an empty header map when the caller gives none |
| Archivist.CopyNeverRefreshes | archivist/archivist.py:203-210 | when reading `auth` succeeds, the copy is a well-formed connection that prints like the original and, at any later time and with any token endpoint, returns the token it was given without refreshing |
| Archivist.Copy | archivist/archivist.py:203-210 | copying reads `auth` (keeping its state change and error); the copy has the same URL, root and fixtures, holds the current token as a static token without credentials, starts at `expires_at` 0 and has no clients |
| Locations.Name | archivist/locations.py:49-58 | `name` returns the `display_name` value when that key is present and nothing otherwise; it is total |
| Locations.NameReadsDisplayName | archivist/locations.py:49-58 | `name` reads back a stored `display_name`, is empty once the key is removed, and ignores every other key |
| Locations.Open | archivist/locations.py:72-75 | the client's subpath is `root + "/v2"` and its collection path is `subpath + "/locations"`, i.e. `url + "/archivist/v2/locations"` |
| Locations.Str | archivist/locations.py:77-78 | `str()` is `LocationsClient(` + connection URL + `)`, with the URL readable back |
| Locations.ReadPath | archivist/locations.py:170 | the read path is the subpath, a `/`, then the identity, which can be read back from the path |
| Locations.ReadPathInjective | archivist/locations.py:158-170 | distinct identities map to distinct read paths, and every read path is `url + "/archivist/v2/" + identity` |
| Locations.Read | archivist/locations.py:158-170 | `read(identity)` gets `url + "/archivist/v2/" + identity` |
| Locations.BaseParams | archivist/locations.py:172-175 | the parameters hold exactly the props' keys (none when props are empty or missing) plus `attributes` when attrs are non-empty; the props' values are kept except that non-empty attrs override `attributes` |
| Locations.BaseParamsStable | archivist/locations.py:172-175 | rebuilding parameters with the same attrs changes nothing, and without attrs the props pass through unchanged |
| Locations.Params | archivist/locations.py:172-177 | the built parameters are merged over the connection's `locations` fixture, or over nothing when there is none |
| Locations.CreateFromData | archivist/locations.py:96-109 | `create_from_data` posts the data unchanged to `url + "/archivist/v2/locations"` |
| Locations.Create | archivist/locations.py:80-94 | `create(props, attrs)` is `create_from_data` of the built parameters, which are posted to the collection path |
| Locations.ReadBySignature | archivist/locations.py:227-248 | the signature lookup queries the collection path under the `locations` field with the built parameters |
| Locations.CountLocations | archivist/locations.py:179-194 | counting queries the collection path with the built parameters |
| Locations.ListLocations | archivist/locations.py:196-225 | listing queries the collection path under the `locations` field with the page size and the built parameters |
| Locations.CreateIfNotExists | archivist/locations.py:111-156 | a missing `selector` raises `KeyError`; a successful lookup returns the existing location marked as existing; "not found" creates from the data without `selector` and marks it new; any other lookup error propagates |
| Locations.CreatesOnlyWhenNotFound | archivist/locations.py:111-156 | unless the lookup reports "not found", the result does not depend on the create call, so nothing is created |
| Locations.CreatedFromDataWithoutSelector | archivist/locations.py:140-156 | the body sent to create is the caller's data with every entry except `selector` |

## Left out

- `post`, `post_file`, `delete` and `patch` are I/O over a `requests` session and a multipart encoder. Their bodies are not modelled. The form-encoded branch of `post` (archivist/archivist.py:249-254) sends no headers at all, so it never reads `auth`.
- Remote calls are pure function parameters: `post`, `get`, `get_by_signature`, `count`, `list`, the token endpoint, `_deepmerge` and `selector_signature`. Their definitions are not part of this model. The refresh of `auth` that the real `post`/`get` would trigger is therefore not visible in `Locations`.
- The 429 retry decorator, the confirmation poller and `MAX_TIME`, the response ring buffer, pagination and `_dotdict` are not part of this model. Their definitions are outside the modelled files.
- `ArchivistPublic` is not part of this model: the session, `verify`, `max_time`, and how a missing `fixtures` argument is defaulted. Fixtures are taken as a JSON object. The `Public` property, which builds an `ArchivistPublic`, is left out for the same reason.
- `archivist/publicevents.py` and `functests/execpublicassets.py` are left out: the first is an events client that is not part of this model, the second consists of network-bound tests.
- Archivist.ReadAuth: the source calls `time()` twice, once for the expiry check and once for the new deadline. The model uses one instant `now` for both, in whole seconds rather than floats.
- Archivist.ReadAuth: the reply's `access_token` is taken to be a string or absent. A JSON `null` counts as absent, as it does for `dict.get`. Other JSON types, which Python would store and fail on later at `strip()`, are not modelled. `expires_in` is taken to be an integer.
- Locations.Name: a `display_name` whose value is JSON `null` gives `Some(JNull)`, while Python returns `None` for it just as for a missing key.
- `_deepmerge` and `selector_signature` are taken to be total: the `Merge` and `Signature` parameters cannot fail, so an exception raised inside either is not modelled.
- Logging calls are not modelled; they do not affect results.
