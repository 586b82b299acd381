# onesky-go request addresses, modelled in Dafny

This project models the core of the OneSky Go client, `onesky.go`. The client holds a secret, an API key and a project identifier. From these it builds the address of a OneSky API request in four steps:

1. It looks the endpoint up in the package table `apiEndpoints` and puts the project identifier into the endpoint's `projects/%d/...` path template.
2. It puts the versioned base address `https://platform.api.onesky.io/1/` in front of the path.
3. It signs the request. The `timestamp` is the current Unix time in decimal. The `dev_hash` is the lower-case hex of the MD5 digest of the timestamp followed by the secret.
4. It writes `api_key`, `timestamp` and `dev_hash` into the caller's `url.Values`, replacing any values already there, and appends the encoded query after `?`.

`DownloadFile` runs these steps for the `getFile` endpoint, with `locale` and `source_file_name` as the caller's query. It then fetches the address and returns the response body.

The model has one module per concern:

- **`OneSky`** (`onesky.dfy`): the client, the endpoint table and the four operations of `onesky.go`.
- **`UrlQuery`** (`query.dfy`): the part of Go's `net/url` that the client relies on.
  - `QueryEscape`: unreserved bytes are written as they are, a space becomes `+`, and every other byte becomes `%XY` with upper-case hex.
  - `Values`: a class with a mutable map field, and its `Set` and `Encode` methods. `Encode` writes the keys in ascending order, one `key=value` item per value, joined by `&`.
- **`Fmt`** (`fmt.dfy`): `fmt.Sprintf` with one `int` argument, including Go's `%!d(MISSING)`, `%!(NOVERB)` and `%!(EXTRA ...)` outputs.
- **`Decimal`** (`decimal.dfy`): `strconv.Itoa`, with `strconv.Atoi` as its inverse.
- **`Hex`** (`hex.dfy`): `hex.EncodeToString`, with its decoder.
- **`Utf8`** (`utf8.dfy`): the bytes that a Go string of valid UTF-8 text holds, with a decoder as their inverse.
- **`Order`** (`order.dfy`): Go's `<` on strings.
- **`Wrappers`** (`wrappers.dfy`): `Option`.

Some inputs of the client become parameters:

- The clock is `now`, the Unix time in seconds.
- MD5 is an uninterpreted function `md5` from bytes to bytes.
- The HTTP request is `fetch`, a function from an address to a `Fetched` outcome: a body, or a failure.
- The endpoint table is a parameter of `GetURLForEndpoint` and `DownloadFile`, because Go's `apiEndpoints` is a package variable. `ApiEndpoints` is the table the package ships. The lemmas state what happens with that table.

**Where the code and the tests disagree:**

- `onesky_test.go:142-150` expects `DownloadFile` to report `bad status: 500` for a 500 response. The test file was written against a later version of the package: it calls `endpoint.full` (`onesky_test.go:42`) and `getEndpoint` (`onesky_test.go:56`), which `onesky.go` does not define.
- `onesky.go:43-63` never looks at the status code. The model follows the code: whatever body comes back is returned, with no error.
- When the fetch itself fails, `onesky.go:59-61` returns an empty string and a `nil` error. `DownloadFile` keeps that behaviour.

## Model

| member | source | states |
|---|---|---|
| OneSky.GetAuthHashAndTime | onesky.go:80-86 | The timestamp is `now` in decimal and reads back as `now`. The hash is lower-case hex, twice the digest's length, and decodes to exactly the digest of the timestamp's bytes followed by the secret's bytes. |
| OneSky.SignedInputInjective | onesky.go:82-83 | The bytes given to the digest, the timestamp followed by the secret, are equal for two times if and only if the times are equal. |
| OneSky.HashLength | onesky.go:81-85 | With a 16-byte digest such as MD5's, `dev_hash` is 32 characters long. |
| OneSky.GetURLForEndpoint | onesky.go:88-100 | An unknown name gives an empty address and the "endpoint not found" error. A known name gives no error. The error occurs exactly when the name is absent, and every address starts with the versioned base address. |
| OneSky.GetFileURL | onesky.go:38-40 | With the package table, "getFile" resolves to `https://platform.api.onesky.io/1/projects/<id>/translations`, with the project identifier in decimal. |
| OneSky.UnknownEndpoint | onesky.go:89-91 | With the package table, every name other than "getFile" gives the "endpoint not found" error. |
| OneSky.GetFileURLExample | onesky_test.go:31-41 | For project 1 the address is `https://platform.api.onesky.io/1/projects/1/translations`. |
| OneSky.GetFileURLInjective | onesky.go:93-94 | Two clients get the same "getFile" address if and only if their project identifiers are equal. |
| OneSky.WithAuth | onesky.go:109-111 | After the three `Set` calls, the keys are the caller's keys plus `api_key`, `timestamp` and `dev_hash`. Each of those three keys holds exactly the client's one value, and every other key keeps its values. |
| OneSky.GetFinalEndpointURL | onesky.go:102-114 | The caller's `Values` is changed in place to exactly `WithAuth` of its old contents. The result is the address, `?` and the encoding of the new contents, with no error. |
| OneSky.AuthValuesUnescaped | onesky.go:107-113 | Query escaping leaves the hash and the timestamp unchanged, since both consist only of unreserved characters. |
| OneSky.FinalQueryOrder | onesky_test.go:37-51 | A caller query holding only `test_key=test_val` encodes as `api_key=<escaped key>&dev_hash=<hash>&test_key=test_val&timestamp=<timestamp>`, in that order. |
| OneSky.TestQueryEncoding | onesky_test.go:37-41 | The merged test query encodes as its four items in ascending key order. |
| OneSky.DownloadQuery | onesky.go:54-56 | The download query holds exactly `locale` and `source_file_name`, each with its one value. |
| OneSky.DownloadQueryMerged | onesky.go:54-57 | After the authentication keys are merged in, the download query holds exactly five keys, each with its one value. |
| OneSky.DownloadQueryEncoding | onesky.go:54-57 | The merged download query encodes as `api_key`, `dev_hash`, `locale`, `source_file_name` and `timestamp` items, in that order, joined by `&`. |
| OneSky.DownloadAddressShape | onesky.go:43-57 | With the package table, the fetched address is the project's translations address, `?`, then those five items. |
| OneSky.DownloadFile | onesky.go:43-63 | Without "getFile" in the table, the result is an empty body and the "endpoint not found" error. Otherwise there is no error, and the result is the fetched body of the download address, or an empty body when the fetch fails. |
| OneSky.DecimalUnescaped | onesky.go:110 | Query escaping leaves any decimal timestamp unchanged. |
| OneSky.HexUnescaped | onesky.go:111 | Query escaping leaves any lower-case hex hash unchanged. |
| OneSky.WordUnescaped | onesky.go:55-56 | Query escaping leaves the query keys used by the client, and the test value, unchanged. |
| OneSky.DownloadKeysSorted | onesky.go:54-57 | The five download keys are in strictly ascending order. |
| OneSky.TestKeysSorted | onesky_test.go:41 | The four test keys are in strictly ascending order. |
| UrlQuery.Values.Set | onesky.go:109-111 | `Set` replaces whatever the key held with exactly one value and changes nothing else. |
| UrlQuery.Values.Encode | onesky.go:113 | The loop's output is exactly `EncodeQuery` of the contents: keys in ascending order, one item per value in stored order, `&` between items. |
| UrlQuery.AppendPairs | onesky.go:113 | The inner loop appends one key's items to the encoding so far, with `&` only where an item comes before. |
| UrlQuery.EncodeQuery | onesky.go:113 | The encoding is empty exactly when no key holds a value. `Values.Encode` is proved equal to it, and `SortedKeysSorted` and `SortedKeysUnique` fix its key order. |
| UrlQuery.JoinEmpty | onesky.go:113 | Non-empty items join to the empty string only when there are none. |
| UrlQuery.ItemsEmpty | onesky.go:113 | A list of keys has no items exactly when none of its keys holds a value. |
| UrlQuery.SortedKeysSorted | onesky.go:113 | The sorted key list holds exactly the query's keys, in strictly ascending order. |
| UrlQuery.SortedKeysUnique | onesky.go:113 | Any strictly ascending listing of exactly the keys is the sorted key list. |
| UrlQuery.EncodeSingleValued | onesky.go:113 | A query with single-valued keys encodes as its `key=value` items in ascending key order. |
| UrlQuery.EncodeFour | onesky.go:113 | The four-key case of `EncodeSingleValued`, for keys that escaping leaves unchanged. |
| UrlQuery.EncodeFive | onesky.go:113 | The five-key case of `EncodeSingleValued`, for keys that escaping leaves unchanged. |
| UrlQuery.LeastExists | onesky.go:113 | Every non-empty key set has a least key. |
| UrlQuery.LeastUnique | onesky.go:113 | The least key of a set is unique. |
| UrlQuery.EscapeByte | onesky.go:113 | A byte stands for itself exactly when it is unreserved. A space becomes `+`. Every other byte becomes `%` and two upper-case hex digits whose value is the byte. No output contains `&` or `=`. |
| UrlQuery.QueryEscape | onesky.go:113 | An escaped value contains only ASCII, and never `&` or `=`. `QueryEscapeRoundTrip` proves that `QueryUnescape` inverts it. |
| UrlQuery.QueryUnescape | onesky.go:113 | Unescaping fails exactly when some `%` is not followed by two hex digits; in particular a string without `%` always unescapes. |
| UrlQuery.UnescapeEscapeBytes | onesky.go:113 | Unescaping the escape of any bytes gives those bytes back. |
| UrlQuery.QueryEscapeRoundTrip | onesky.go:109-113 | Unescaping an escaped value gives back the value's UTF-8 bytes. |
| UrlQuery.QueryEscapeUnreserved | onesky.go:113 | A string of unreserved characters is written unchanged. |
| UrlQuery.Join | onesky.go:113 | Joining items whose last item is non-empty gives a non-empty string. |
| UrlQuery.PairsOf | onesky.go:113 | One key yields one `key=value` item per value, in the values' order. |
| UrlQuery.Items | onesky.go:113 | Every item of a query is non-empty. |
| UrlQuery.ItemsSingleValued | onesky.go:113 | For single-valued keys, the items are the `key=value` pairs in the order of the keys. |
| Fmt.SprintfOneVerb | onesky.go:93 | A template with one `%d` and no other `%` gets the decimal argument in place of the verb. |
| Fmt.SprintfExtra | onesky.go:93 | A template without verbs is copied, followed by `%!(EXTRA int=N)` for the unused argument. |
| Fmt.SprintfMissing | onesky.go:93 | A second `%d` is written `%!d(MISSING)`, and no extra argument is reported. |
| Fmt.SprintfNoVerb | onesky.go:93 | A `%` at the end is written `%!(NOVERB)`, followed by the report of the unused argument. |
| Fmt.SprintfPercent | onesky.go:93 | `%%` is written as one `%` and uses no argument, which is then reported as extra. |
| Fmt.FormatLiteral | onesky.go:93 | Text without `%` is copied unchanged. |
| Decimal.NatToDecimal | onesky.go:82 | The rendering is a non-empty string of digits. It is `0` for zero and never has a leading zero otherwise. |
| Decimal.IntToDecimal | onesky.go:82 | `strconv.Itoa`: digits, with a leading minus sign exactly when the number is negative; zero is `"0"` and no other number has a leading zero. `IntToDecimalRoundTrip` proves that `ParseInt` inverts it. |
| Decimal.ParseInt | onesky.go:82 | Parsing succeeds exactly on an optional sign followed by at least one digit, and without a minus sign the value is never negative. |
| Decimal.NatToDecimalValue | onesky.go:82 | The digits of `n` have the value `n`. |
| Decimal.IntToDecimalRoundTrip | onesky.go:82 | Parsing the rendering of `n` gives `n`. |
| Decimal.IntToDecimalInjective | onesky.go:82 | Renderings are equal if and only if the integers are equal. |
| Hex.HexEncode | onesky.go:85 | Two lower-case hex characters per byte. |
| Hex.HexDecode | onesky.go:85 | A successful decode takes exactly two characters per byte. `HexRoundTrip` proves that it inverts `HexEncode`. |
| Hex.HexRoundTrip | onesky.go:85 | Decoding the encoding of any bytes gives those bytes back. |
| Utf8.EncodeRune | onesky.go:83 | A scalar value takes the shortest UTF-8 form for it, 1 to 4 bytes. Its lead byte announces that length, continuation bytes follow, and the payload bits carry exactly the code point. |
| Utf8.Encode | onesky.go:83 | A string takes between one and four bytes per character. |
| Utf8.DecodeEncode | onesky.go:83 | Decoding the encoding of any string gives the string back. |
| Utf8.EncodeInjective | onesky.go:83 | Two strings have the same bytes if and only if they are equal. |
| Utf8.EncodeConcat | onesky.go:83 | The bytes of `time + secret` are the bytes of `time` followed by the bytes of `secret`. |
| Utf8.EncodeAscii | onesky.go:83 | An ASCII string is one byte per character, each byte the character's code. |
| Order.Less | onesky.go:113 | Go's `<` on strings: a string never sorts before itself, and a proper prefix sorts before the longer string. |
| Order.LessIrreflexive | onesky.go:113 | No string sorts before itself. |
| Order.LessTransitive | onesky.go:113 | The key order is transitive. |
| Order.LessTotal | onesky.go:113 | Two distinct strings are ordered one way, and never both ways. |

## Left out

- Network I/O: `getFileAsString` (onesky.go:65-78) is the parameter `fetch`. The model has no HTTP request, body read or body close, so the difference between a transport failure and a read failure is lost. Both become `Failed`.
- The clock: `time.Now().Unix()` is the parameter `now`.
- The MD5 algorithm: it is an uninterpreted `md5` function. Only `HashLength` assumes a 16-byte digest.
- `url.Parse` and `String` are modelled as the identity, and the two parse-error branches (onesky.go:95-97 and 103-106) are not modelled. With the package table the identity is exact, since its one template holds a single `%d`. An endpoint table passed in as a parameter may hold a template with no `%d`, a second `%d` or a trailing `%` (for example `projects/%d/import-tasks/%d`); `Sprintf` then writes a `%!` report (`SprintfExtra`, `SprintfMissing`, `SprintfNoVerb`), which Go's `url.Parse` rejects as an invalid escape, so Go returns "can not parse url address" where the model returns the address with no error.
- `DownloadFile` ignores the error that `getFinalEndpointURL` returns at onesky.go:57. The model does the same: its `GetFinalEndpointURL` always returns a nil error.
- The `api` struct (onesky.go:34-36) is declared but never used, so it has no counterpart.
- Fmt.Sprintf: models only the `%d` and `%%` verbs and a trailing `%`, since those are the only ones the templates can hit. Any other verb is copied as text.
- Decimal.ParseInt: does not model the 64-bit range check of `strconv.Atoi`, because integers here are unbounded.
- OneSky.GetAuthHashAndTime: does not model the 64-bit width of Go's `int(time.Now().Unix())`. The timestamp is the decimal of the unbounded `now`.
- Client.ProjectID is an unbounded `int`, not Go's 64-bit `int`.
- Utf8.Encode / UrlQuery.QueryEscape: only Go strings that are valid UTF-8 are modelled, since a Dafny string is a sequence of Unicode scalar values. A `fileName`, `locale` or `Secret` holding arbitrary bytes cannot be represented, nor can a response body (`string(res)` at onesky.go:77) in a legacy encoding, which `Fetched.Body` only passes through; so the byte-by-byte `%XY` escaping and the byte order of such strings are not captured.
- Order.Less: compares code points, while Go compares UTF-8 bytes. The two orders agree on valid UTF-8, but the model does not prove this.
- Test helpers in onesky_test.go (`testEndpoints`, `endpoint.full`, `getEndpoint` and the HTTP mocks) belong to a later version of the package. Only the addresses the tests expect are stated, as lemmas.
