# PureResponse client: mapping codec and session gate

A Dafny model of the two pieces of logic in `PureResponseClient` (the
Python wrapper for Pure360's PureResponse "PAINT" SOAP API).

- **Codec** (`codec.dfy`): the conversion between a nested, string-keyed
  mapping and the service's `paintArray`, an array of `paintKeyValuePair`s.
  Each pair's value is tagged `str` (a string) or `arr` (a nested
  paintArray). The recursion is given as specification functions (`Encode`,
  `Decode` and their helpers). The client's own loops (`BuildWire` for
  `_dict_to_ptarr`, `ReadWire` for `_ptarr_to_dict`) are proved to compute
  exactly those functions. Lemmas then prove the encoder's shape, the
  decoder's "last tagged pair wins" rule, the absent-vs-empty distinction and
  the round trip.
- **Session** (`session.dfy`): a `Client` class whose one mutable field is
  the session `context`. `MakeRequest` is the gate in front of the remote
  `handleRequest` operation. `Authenticate` stores the context on success and
  classifies failures. `Invalidate` clears the context. `Client.Open` is the
  constructor's credential check. The remote operation is not modelled: the
  caller supplies the paintArray the service answers with, and the client
  keeps a ghost log `sent` of every request, with its five arguments. So
  "no remote call" means `sent` is unchanged, and "exactly one call" means
  one request is appended. The pure rules that read the response envelope
  (`_response_data`, `_result_success`/`_result_exception`, the token lookup,
  the classification) are functions. `_dict_ok` and `_dict_err` are the
  two constructors `Ok` and `Err` of the `Envelope` datatype.
- `wrappers.dfy` holds `Option` and `Result`.

Modelling choices:

- A mapping is a sequence of entries in its iteration order.
- A value is a string (`Text`), a non-string scalar carried with its
  `str()` text (`Scalar`), or a nested mapping (`Nested`).
- The decoded mapping is `Option<map<string, Decoded>>`. `None` is Python's
  `None`, the "absent" result.
- Python truthiness is modelled explicitly. An empty bean type or bean class
  counts as not given. An empty-string context counts as no session, just as
  `self.api_context or ...` treats it.

The code cannot run as written in several places. The model follows the
evident intent at each of them:

- The default `field` argument at line 164 names the class inside its own
  body; the model passes `resultData` explicitly.
- `_get_result` at line 173 passes `response=`, which `_response_data`
  does not accept; the model looks up the `result` field.
- Lines 110-114 call `self.response_data` (missing underscore) and
  `BEAN_TYPE_ENTITY` (does not exist); the model uses `bus_entity`. The line
  also passes the bean id as the `field` argument; see "## Findings".
- Line 125 names `BEAN_CLASS.CONTEXT`, which does not exist; the model uses
  `context`.
- Lines 148, 176 and 179 compare strings with `is`; the model uses value
  equality.

Three behaviours of the code worth stating plainly:

- The login token is read from the `bus_entity` + `context` bean, that is
  from `resultData.bus_entity_context.beanId` (lines 110-114).
- `_response_data` with only one of bean type and bean class returns
  `False`; it does not raise (line 168).
- The WSDL is loaded at line 91, before the credential check at line 95; the
  model covers only the check.

## Model

| member | source | states |
|---|---|---|
| `Codec.StripNonAscii` | pypurepaint.py:193 | the wire key is all ASCII, holds exactly the key's ASCII characters, is no longer than the key, and equals the key exactly when the key is ASCII; a single character is kept exactly when it is ASCII |
| `Codec.StripConcat` | pypurepaint.py:193 | stripping a concatenation strips each part and concatenates the results; with the single-character case this fixes the wire key completely, order and repeated characters included |
| `Codec.Encode` | pypurepaint.py:187-202 | a mapping is sent as the SOAP null exactly when it is empty |
| `Codec.EncodePairs` | pypurepaint.py:190-201 | a non-empty mapping gives exactly one pair per key, in iteration order, pair `i` being the encoding of entry `i` |
| `Codec.EncodeValue` | pypurepaint.py:195-200 | a pair's value is tagged `arr` exactly when it is a nested mapping; a string is carried verbatim, any other scalar as its `str()` text; no value is left untagged |
| `Codec.EncodePair` | pypurepaint.py:192-200 | the pair's key is the key without its non-ASCII characters; a nested mapping is tagged `arr` with its own encoding, a string is tagged `str` verbatim, any other scalar is tagged `str` with its `str()` text; no pair is untagged |
| `Codec.EncodeArgument` | pypurepaint.py:187-189 | an absent mapping and an empty one are both sent as the SOAP null; a present one as its encoding |
| `Codec.Decode` | pypurepaint.py:204-207 | a wire value without pairs decodes to absent, and only such a value does; an array with no pairs decodes to the empty mapping |
| `Codec.DecodeTagged` | pypurepaint.py:209-218 | a `str` pair contributes its string verbatim; an `arr` pair whose array is null contributes an empty mapping (not absent), otherwise the decoded nested array; a pair with neither tag contributes nothing |
| `Codec.DecodePairs` | pypurepaint.py:208-218 | reading the pairs in order never gives more keys than there are pairs; which keys and which values are stated by `DecodeLastWins` |
| `Codec.DecodeLastWins` | pypurepaint.py:205-219 | a key is in the decoded mapping iff some pair with that key carries a tag, and its value is the one decoded from the last such pair |
| `Codec.RoundTrip` | pypurepaint.py:187-219 | for a mapping with distinct ASCII keys at every level, decoding its encoding gives back the mapping with every scalar turned into its string; an empty mapping comes back as absent |
| `Codec.PairsRoundTrip` | pypurepaint.py:191-218 | for distinct ASCII keys, reading back the encoded pairs gives the mapping from each key to the meaning of its value |
| `Codec.ValueRoundTrip` | pypurepaint.py:195-216 | an entry's value survives encoding and decoding as its meaning, whatever its key; a nested empty mapping comes back as an empty mapping, not absent; an ASCII key is sent unchanged |
| `Codec.StrippedRoundTrip` | pypurepaint.py:187-219 | for keys that are not ASCII, as long as the stripped keys stay distinct, decoding the encoding maps each stripped key to the meaning of its value |
| `Codec.EncodedKeys` | pypurepaint.py:191-218 | for any non-empty mapping, the decoded encoding has exactly the mapping's keys with their non-ASCII characters dropped |
| `Codec.PairsKeys` | pypurepaint.py:191-218 | the keys read back from the encoded pairs are the stripped keys of the entries |
| `Codec.BuildWire` | pypurepaint.py:187-202 | the loop that appends one pair per key, recursing into nested mappings, builds exactly `EncodeArgument` of its input |
| `Codec.ReadWire` | pypurepaint.py:204-219 | the loop that fills a mapping pair by pair, recursing into nested arrays, returns exactly `Decode` of its input |
| `Session.Admits` | pypurepaint.py:148 | a login request always goes out; before any session (context absent or empty) nothing else does; with a non-empty context everything does |
| `Session.BeanName` | pypurepaint.py:152 | the bean name is the bean type, an underscore and the bean class, in that order (the same name is looked up at line 166) |
| `Session.ContextArgument` | pypurepaint.py:149 | a request carries the stored context exactly when a (non-empty) session is held, and the SOAP null otherwise |
| `Session.ResponseData` | pypurepaint.py:164-170 | with bean type and bean class, the value under `field` then under `type_class`; with exactly one of them, `False`; with neither, the value under `field`; a missing key (or a non-mapping) raises |
| `Session.ResultIs` | pypurepaint.py:172-179 | reading the `result` field raises exactly when it is missing, and the answer is true exactly when the field is the given marker string |
| `Session.SessionToken` | pypurepaint.py:110-115 | the token is found exactly when `resultData["bus_entity_context"]["beanId"]` exists and is a string, and it is that string |
| `Session.SessionTokenAsWritten` | pypurepaint.py:110-115 | with the bean id passed as the field, the lookup reads `response["beanId"]["bus_entity_context"]` and never `resultData` |
| `Session.Classify` | pypurepaint.py:109-120 | a response without `result` raises; `success` returns `{ok: True, result: token}` or raises when the token cannot be read; the validation exception returns `{ok: False, result: AUTH_PARAMS, meta: response}`; any other result returns the same shape with AUTH_PROCESS |
| `Session.Credentials` | pypurepaint.py:103-106 | the login entity data has distinct ASCII keys and means exactly `{username: <username>, password: <password>}` |
| `Session.LoginCarriesCredentials` | pypurepaint.py:99-106 | the service decodes the login request's entity data to exactly the username and the password under their field names |
| `Session.Client.constructor` | pypurepaint.py:91-96 | a client is built only from a non-empty username and password; it stores them, holds no context and has sent nothing |
| `Session.Client.Open` | pypurepaint.py:88-96 | a client is made exactly when username and password are both non-empty; otherwise the authentication-parameters error is raised |
| `Session.Client.MakeRequest` | pypurepaint.py:146-162 | with no session held and a process other than `login`, returns `ERROR_NOT_AUTHENTICATED` and sends nothing; otherwise sends exactly one request to `bean_type_bean_class` with the held context or null and the encoded data, and returns `True` if no response is wanted, else the decoded response; the context never changes |
| `Session.Client.Authenticate` | pypurepaint.py:98-120 | sends exactly one login request carrying the encoded credentials; its outcome is `Classify` of the decoded response; the context becomes the token on success and is unchanged otherwise |
| `Session.Client.Invalidate` | pypurepaint.py:122-129 | sends one logout request when a session is held and none otherwise, and always leaves the context absent |
| `Session.LoginExample` | pypurepaint.py:109-116 | a login answered with `success` and bean id `abc123` returns `{ok: True, result: "abc123"}` |
| `Session.AsWrittenLookupMissesToken` | pypurepaint.py:110-115 | on that response, the lookup as written raises while the intended lookup finds `abc123` |
| `Session.RequestBeforeLogin` | pypurepaint.py:146-162 | on a fresh client, a request for any process but `login` is refused with `ERROR_NOT_AUTHENTICATED` and no remote call is made |
| `Session.LoggedIn` | pypurepaint.py:98-116 | a fresh client that logs in against a successful response holds the token after one call |
| `Session.RequestAroundLogout` | pypurepaint.py:122-162 | after a successful login a request carries the token and is answered; after logout the same request is refused; three calls in all |

## Left out

- The suds client, WSDL loading and endpoint selection (lines 12-13, 23-27, 91) are not modelled. They are a foreign library and network I/O.
- The transport of `handleRequest` (lines 150-156) is not modelled, and neither are its faults. The caller supplies the response, and faults would propagate unwrapped.
- The stubs `api_send_to_list`, `api_send_to_contact`, `api_add_contact` and `api_add_contacts` (lines 131-141) are left out. Each only returns `False`.
- The constant tables (lines 23-86) are left out, apart from the strings the logic compares against or sends.
- Python 2's `str`/`unicode` split is not modelled. Keys and values are one text type, so a byte-string key with non-ASCII bytes, on which `encode('ascii', 'ignore')` would raise, is not modelled.
- Identity (`is`) comparison of strings is not modelled. The model uses value equality, which is the evident intent.
- The iteration order of a Python 2 dict is hash order. The model takes the order as the sequence of entries it is given, and sends the login credentials as username then password.
- A suds factory object may carry both value attributes at once. The model gives each pair's value exactly one tag, or none.
- `Codec.DecodePairs`: its own contract only bounds the number of keys. The full rule (which keys, which values) is stated once, by `Codec.DecodeLastWins`, because a quantified contract on the recursive function makes every proof that mentions it far more expensive.
- `Session.Classify`: a `beanId` that decodes to a nested mapping is treated as a failed read (raised). Python would store that mapping as the context.

## Findings

| source | as written | input that shows it | evidently intended | confidence | as-written member | corrected member |
|---|---|---|---|---|---|---|
| pypurepaint.py:110-115 | the bean id `beanId` is passed as the `field` argument, so the lookup is `response["beanId"]["bus_entity_context"]` | the login response `{result: "success", resultData: {bus_entity_context: {beanId: "abc123"}}}`: the lookup raises KeyError | `response["resultData"]["bus_entity_context"]["beanId"]`, giving `"abc123"` | high; not executed | `Session.SessionTokenAsWritten`, exhibited by `Session.AsWrittenLookupMissesToken` | `Session.SessionToken`, used by `Session.Classify` |
