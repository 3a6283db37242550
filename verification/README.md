# rspotify request core and string vocabularies, in Dafny

This project models two pieces of decision logic from rspotify, a client
library for the Spotify Web API:

- the closed string vocabularies `AlbumType`, `Type`, `AdditionalType`,
  `CurrentlyPlayingType` and `SearchType`, whose variants each carry one
  canonical string used by the strum-derived `from_str`, `as_ref` and
  `to_string`; and `EnumError`;
- the blocking (ureq) backend's `Spotify::request` and the five verbs that
  call it: how headers are chosen, how a token failure returns early, and how
  a response becomes a result.

Files:

- `results.dfy` — `Option` and `Result`.
- `vocabulary.dfy` — a table-driven reference parser for any closed
  vocabulary, and its round-trip law on tables with distinct strings.
- `types.dfy` — one module per enum (`Serialize`, `FromStr` and their laws),
  `EnumErrors`, and `VocabularyFacts` relating the vocabularies.
- `http.dfy` — requests, header setting with insert-replace semantics, query
  appending, and string maps as iterated pairs.
- `ureq.dfy` — `from_response`, the status mapping, header resolution,
  `request` and the five verbs.
- `request_policy.dfy` — properties common to all verbs.

The derived `from_str` is modelled as the match the derive generates;
`FromStrIsTableLookup` proves it equal, on every string, to the reference
lookup in `Vocabulary`. `Serialize` models `as_ref` and `to_string` at once:
both derives print the same `serialize` attribute, so the two always agree.

The crate's `Headers`, `Query` and `Form` are hash maps of strings; the model
takes them as sequences of pairs with distinct keys, in iteration order, and
proves that the header set does not depend on that order
(`Http.SetAllOrderIrrelevant`). The token (`get_token`'s result), the
`bearer_auth` header builder and the network call are parameters:
`Ureq.Request` takes the token outcome, a function from token to one
(name, value) pair, the verb's closure as a request transformer, and the
network call as a function from request to response. Each call yields an
`Exchange`: the request handed to the network call, if there was one, and the
result.

Three behaviours of the code are easy to miss:

- A failed `from_str` returns strum's `ParseError::VariantNotFound`, which
  carries no string. The crate's own `ErrorKind::NoEnum(String)`
  (src/model/enums/types.rs:23-26) is not what the derived parsers return, so
  the model's parse failure is `Vocabulary.VariantNotFound`.
- Caller-supplied headers replace the default completely (`request`,
  src/http/ureq.rs:27-37), so a request can be sent with no authorization
  header at all (`RequestPolicy.EmptyCallerHeadersSendNone`). Exactly one
  bearer header is sent only when no headers are supplied.
- `request` has no transport-error branch: once a request is sent, the result
  depends only on whether the response is ok (src/http/ureq.rs:40-46,
  `RequestPolicy.SentOutcomes`).

## Model

| member | source | states |
|---|---|---|
| AlbumTypes.Serialize | src/model/enums/types.rs:47-56 | every `AlbumType` prints as a non-empty snake_case string (lower-case letters and `_`), the `serialize` attribute shared by `as_ref` and `to_string` |
| AlbumTypes.FromStr | src/model/enums/types.rs:47-56 | a successful parse returns the variant whose canonical string is the input; a failure means no variant has that string |
| AlbumTypes.AllIsComplete | src/model/enums/types.rs:47-56 | the table lists every `AlbumType` variant |
| AlbumTypes.TableIsDistinct | src/model/enums/types.rs:47-56 | the canonical strings of the `AlbumType` variants are pairwise distinct |
| AlbumTypes.RoundTrip | src/model/enums/types.rs:153-163 | `from_str(to_string(v)) == Ok(v)` for every variant |
| AlbumTypes.SerializeIsInjective | src/model/enums/types.rs:47-56 | two variants with the same string are the same variant |
| AlbumTypes.FromStrInvertsSerialize | src/model/enums/types.rs:47-56 | `from_str(s) == Ok(v)` exactly when `s` is `v`'s canonical string (both directions) |
| AlbumTypes.FromStrIsTableLookup | src/model/enums/types.rs:47-56 | on every string the derived parser agrees with the table-driven reference parser `Vocabulary.ParseByTable` |
| Types.Serialize | src/model/enums/types.rs:63-78 | every `Type` prints as a non-empty snake_case string (lower-case letters and `_`), the `serialize` attribute shared by `as_ref` and `to_string` |
| Types.FromStr | src/model/enums/types.rs:63-78 | a successful parse returns the variant whose canonical string is the input; a failure means no variant has that string |
| Types.AllIsComplete | src/model/enums/types.rs:63-78 | the table lists every `Type` variant |
| Types.TableIsDistinct | src/model/enums/types.rs:63-78 | the canonical strings of the `Type` variants are pairwise distinct |
| Types.RoundTrip | src/model/enums/types.rs:174-181 | `from_str(to_string(v)) == Ok(v)` for every variant |
| Types.SerializeIsInjective | src/model/enums/types.rs:63-78 | two variants with the same string are the same variant |
| Types.FromStrInvertsSerialize | src/model/enums/types.rs:63-78 | `from_str(s) == Ok(v)` exactly when `s` is `v`'s canonical string (both directions) |
| Types.FromStrIsTableLookup | src/model/enums/types.rs:63-78 | on every string the derived parser agrees with the table-driven reference parser `Vocabulary.ParseByTable` |
| AdditionalTypes.Serialize | src/model/enums/types.rs:85-90 | every `AdditionalType` prints as a non-empty snake_case string (lower-case letters and `_`), the `serialize` attribute shared by `as_ref` and `to_string` |
| AdditionalTypes.FromStr | src/model/enums/types.rs:85-90 | a successful parse returns the variant whose canonical string is the input; a failure means no variant has that string |
| AdditionalTypes.AllIsComplete | src/model/enums/types.rs:85-90 | the table lists every `AdditionalType` variant |
| AdditionalTypes.TableIsDistinct | src/model/enums/types.rs:85-90 | the canonical strings of the `AdditionalType` variants are pairwise distinct |
| AdditionalTypes.RoundTrip | src/model/enums/types.rs:185-189 | `from_str(to_string(v)) == Ok(v)` for every variant |
| AdditionalTypes.SerializeIsInjective | src/model/enums/types.rs:85-90 | two variants with the same string are the same variant |
| AdditionalTypes.FromStrInvertsSerialize | src/model/enums/types.rs:85-90 | `from_str(s) == Ok(v)` exactly when `s` is `v`'s canonical string (both directions) |
| AdditionalTypes.FromStrIsTableLookup | src/model/enums/types.rs:85-90 | on every string the derived parser agrees with the table-driven reference parser `Vocabulary.ParseByTable` |
| CurrentlyPlayingTypes.Serialize | src/model/enums/types.rs:97-106 | every `CurrentlyPlayingType` prints as a non-empty snake_case string (lower-case letters and `_`), the `serialize` attribute shared by `as_ref` and `to_string` |
| CurrentlyPlayingTypes.FromStr | src/model/enums/types.rs:97-106 | a successful parse returns the variant whose canonical string is the input; a failure means no variant has that string |
| CurrentlyPlayingTypes.AllIsComplete | src/model/enums/types.rs:97-106 | the table lists every `CurrentlyPlayingType` variant |
| CurrentlyPlayingTypes.TableIsDistinct | src/model/enums/types.rs:97-106 | the canonical strings of the `CurrentlyPlayingType` variants are pairwise distinct |
| CurrentlyPlayingTypes.RoundTrip | src/model/enums/types.rs:193-198 | `from_str(to_string(v)) == Ok(v)` for every variant |
| CurrentlyPlayingTypes.SerializeIsInjective | src/model/enums/types.rs:97-106 | two variants with the same string are the same variant |
| CurrentlyPlayingTypes.FromStrInvertsSerialize | src/model/enums/types.rs:97-106 | `from_str(s) == Ok(v)` exactly when `s` is `v`'s canonical string (both directions) |
| CurrentlyPlayingTypes.FromStrIsTableLookup | src/model/enums/types.rs:97-106 | on every string the derived parser agrees with the table-driven reference parser `Vocabulary.ParseByTable` |
| SearchTypes.Serialize | src/model/enums/types.rs:113-126 | every `SearchType` prints as a non-empty snake_case string (lower-case letters and `_`), the `serialize` attribute shared by `as_ref` and `to_string` |
| SearchTypes.FromStr | src/model/enums/types.rs:113-126 | a successful parse returns the variant whose canonical string is the input; a failure means no variant has that string |
| SearchTypes.AllIsComplete | src/model/enums/types.rs:113-126 | the table lists every `SearchType` variant |
| SearchTypes.TableIsDistinct | src/model/enums/types.rs:113-126 | the canonical strings of the `SearchType` variants are pairwise distinct |
| SearchTypes.RoundTrip | src/model/enums/types.rs:166-169 | `from_str(to_string(v)) == Ok(v)` for every variant |
| SearchTypes.SerializeIsInjective | src/model/enums/types.rs:113-126 | two variants with the same string are the same variant |
| SearchTypes.FromStrInvertsSerialize | src/model/enums/types.rs:113-126 | `from_str(s) == Ok(v)` exactly when `s` is `v`'s canonical string (both directions) |
| SearchTypes.FromStrIsTableLookup | src/model/enums/types.rs:113-126 | on every string the derived parser agrees with the table-driven reference parser `Vocabulary.ParseByTable` |
| Vocabulary.Lookup | src/model/enums/types.rs:43-45 | reference lookup: a found value is in the table and carries the string; nothing is found exactly when no entry carries it |
| Vocabulary.ParseByTable | src/model/enums/types.rs:43-45 | reference parser: succeeds only with a table value whose string is the input, fails with `VariantNotFound` exactly on unlisted strings |
| Vocabulary.LookupShow | src/model/enums/types.rs:43-45 | on a table with distinct strings, looking up a value's string finds that value |
| Vocabulary.TableParseInvertsShow | src/model/enums/types.rs:43-45 | on a table with distinct strings the reference parser returns `t` exactly for `t`'s string |
| EnumErrors.New | src/model/enums/types.rs:12-14 | `EnumError::new(k).kind()` is `k` |
| EnumErrors.NewOfKind | src/model/enums/types.rs:12-19 | rebuilding an error from its kind gives the same error, so `new` and `kind` are inverse |
| VocabularyFacts.UnknownStringsRejected | src/model/enums/types.rs:157-158 | "not exist album", "unknown_search_type" and "not_exist_type" are rejected by their parsers |
| VocabularyFacts.AttributeNotVariantName | src/model/enums/types.rs:52-53 | `AppearsOn` prints "appears_on" and `Advertisement` prints "ad"; the variant names and serde's "advertisement" are rejected |
| VocabularyFacts.UserIsNotASearchType | src/model/enums/types.rs:72-73 | "user" parses as `Type::User` but is rejected by `SearchType` |
| VocabularyFacts.AdOnlyCurrentlyPlaying | src/model/enums/types.rs:102-103 | "ad" parses only as `CurrentlyPlayingType::Advertisement`; the other four vocabularies reject it |
| VocabularyFacts.SearchTypesAreTypesWithoutUser | src/model/enums/types.rs:63-126 | a string is a search type exactly when it is an object type other than "user" |
| VocabularyFacts.AdditionalTypesArePlayable | src/model/enums/types.rs:85-106 | every additional-type string is also a currently-playing-type string |
| Http.SetAll | src/http/ureq.rs:29-31 | setting pairs one by one changes only the headers; they gain exactly the pairs' keys and keep every other header's value |
| Http.SetAllLastWins | src/http/ureq.rs:29-31 | with insert-replace semantics each key ends up with the value of its last occurrence |
| Http.SetAllDistinct | src/http/ureq.rs:29-31 | for a hash map (distinct keys) every (key, value) pair is set verbatim |
| Http.SetAllIsOverride | src/http/ureq.rs:27-32 | the resulting headers are the request's headers overridden by the caller's map, whatever the iteration order |
| Http.SetAllOrderIrrelevant | src/http/ureq.rs:29-31 | two iteration orders of the same map set the same headers |
| Http.AddQueries | src/http/ureq.rs:58-60 | adding query pairs one by one appends exactly those pairs, in order, and changes nothing else |
| Ureq.FromResponse | src/http/ureq.rs:10-14 | the client error built from a response is a `StatusCode` error carrying that response's status code and status text |
| Ureq.IntoResult | src/http/ureq.rs:42-46 | success iff the response is ok and its body reads; the body is returned as is; a read failure becomes `Io`; a `StatusCode` error arises exactly when the response is not ok, carrying its status and status text |
| Ureq.ResolveHeaders | src/http/ureq.rs:26-37 | caller headers override the request's headers; without them exactly one pair, `bearer_auth(token)`, is set; it fails only without caller headers and with a failed token, returning that error; nothing but headers changes |
| Ureq.Request | src/http/ureq.rs:17-47 | nothing is sent iff there are no caller headers and the token fails, and then the token error is returned; otherwise the closure's request over the resolved headers is sent and the result is the mapping of its response |
| Ureq.Get | src/http/ureq.rs:52-64 | a fresh GET with the query pairs added, no body, sent under the shared header policy and status mapping |
| Ureq.Post | src/http/ureq.rs:66-71 | a fresh POST with the JSON body, sent under the shared header policy and status mapping |
| Ureq.PostForm | src/http/ureq.rs:73-88 | a fresh POST whose body is the form's pairs unchanged, sent under the shared header policy and status mapping |
| Ureq.Put | src/http/ureq.rs:90-95 | a fresh PUT with the JSON body, sent under the shared header policy and status mapping |
| Ureq.Delete | src/http/ureq.rs:97-107 | a fresh DELETE with the JSON body, sent under the shared header policy and status mapping |
| RequestPolicy.DefaultHeaderIsSingleBearer | src/http/ureq.rs:33-36 | without caller headers and with a token, the request carries exactly one header, the `bearer_auth` pair of that token |
| RequestPolicy.CallerHeadersVerbatim | src/http/ureq.rs:27-32 | with caller headers, the sent header names are exactly the caller's and each value is the caller's |
| RequestPolicy.CallerHeadersIgnoreToken | src/http/ureq.rs:27-32 | with caller headers the token's outcome does not affect the exchange |
| RequestPolicy.TokenFailureShortCircuits | src/http/ureq.rs:34 | a failed token without caller headers is returned unchanged and nothing is sent |
| RequestPolicy.SentOutcomes | src/http/ureq.rs:40-46 | after sending, the result is the body, an `Io` error or `StatusCode(status, status_text)`; no other failure branch exists |
| RequestPolicy.OkDecidesOutcome | src/http/ureq.rs:42-46 | two ok responses with the same body, or two non-ok responses with the same status line, give the same result |
| RequestPolicy.VerbsShareHeaderPolicy | src/http/ureq.rs:52-107 | GET, POST, POST-form, PUT and DELETE send under the same condition, with the same headers, and fail alike when nothing is sent |
| RequestPolicy.GetSendsQuery | src/http/ureq.rs:57-61 | a sent GET carries every query pair in iteration order and no body |
| RequestPolicy.PostFormSendsPairs | src/http/ureq.rs:80-87 | a sent form POST carries the form's pairs unchanged and no query |
| RequestPolicy.EmptyCallerHeadersSendNone | src/http/ureq.rs:27-32 | an empty caller header map sends a request with no header at all |

## Left out

- Networking: `ureq::get`/`post`/`put`/`delete`, `call`, `send_json`, `send_form` and `into_string` are not modelled; the network call is a parameter, and any headers ureq itself adds (such as a content type) are not modelled.
- `Response::ok` is a field of the response record; ureq's rule for it (a 2xx status) is not part of this model.
- `endpoint_url` is not modelled; each verb takes the final URL.
- The `log::info!` line is a side effect with no bearing on the result.
- How `get_token` obtains or refreshes a token, and how `headers::bearer_auth` builds its header, are not part of this model; both are parameters.
- The crate's `ClientError` is reduced to `StatusCode`, `Io` (the conversion of a body-read error) and `Other` for the variants only the token provider can return; its definition and its `From` conversions are not part of this model.
- ureq's own rules for matching and repeating header names are not modelled; the model replaces on an exact name match.
- A JSON payload is kept as its text; `serde_json::Value` and its serialisation are not modelled.
- `DeviceType` derives no string conversion of its own, so it has no parser or printer to model.
- Serde's `Serialize`/`Deserialize` derives with `rename_all = "snake_case"` are a separate spelling (for example "advertisement" for `Advertisement`) and are not modelled.
- The `Display` and `description` texts of `EnumError` are formatting only.
- The `top_tracks` example program reads the environment, calls the network and prints; it has no logic to model.
