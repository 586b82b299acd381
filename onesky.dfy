/**
 * The request-address builder of the OneSky client: the endpoint table, the
 * resolution of an endpoint name to its versioned address, the signature
 * (`dev_hash`) over the timestamp and the secret, the merge of the
 * authentication parameters into the caller's query, and `DownloadFile`'s
 * control flow around the fetch.
 *
 * The clock, the MD5 digest and the HTTP fetch are parameters: `now` is the
 * Unix time in seconds, `md5` a function from bytes to digest bytes, and
 * `fetch` the outcome of requesting an address.
 */
module OneSky {
  import opened Wrappers
  import opened Utf8
  import opened Decimal
  import opened Hex
  import opened UrlQuery
  import opened Fmt
  import opened Order

  const APIAddress: string := "https://platform.api.onesky.io"
  const APIVersion: string := "1"

  /** What every endpoint address starts with. */
  const BaseAddress: string := APIAddress + "/" + APIVersion + "/"

  /** The credentials a client is built from; the client never changes them. */
  datatype Client = Client(secret: string, apiKey: string, projectId: int)

  /** A path template with one `%d` for the project, and the HTTP method. */
  datatype ApiEndpoint = ApiEndpoint(path: string, httpMethod: string)

  /** The package's endpoint table. */
  const ApiEndpoints: map<string, ApiEndpoint> :=
    map["getFile" := ApiEndpoint("projects/%d/translations", "GET")]

  /** Go's `error`: `nil`, or an error carrying a message. */
  datatype Error = Nil | Err(msg: string)

  /** Go's `(string, error)` result pair. */
  datatype Reply = Reply(value: string, err: Error)

  const EndpointNotFound: string := "endpoint not found"

  /** The three query keys the client owns. */
  const APIKeyKey: string := "api_key"
  const TimestampKey: string := "timestamp"
  const DevHashKey: string := "dev_hash"
  /** The query keys `DownloadFile` sets. */
  const LocaleKey: string := "locale"
  const SourceFileNameKey: string := "source_file_name"
  /** The key and value the package's own test puts in the caller's query. */
  const TestKey: string := "test_key"
  const TestValue: string := "test_val"

  /** The digest function (MD5 in the client), left uninterpreted. */
  type Digest = seq<byte> -> seq<byte>

  /** The outcome of fetching an address: the response body, or a transport or read failure. */
  datatype Fetched = Body(text: string) | Failed(reason: string)

  /**
   * `getAuthHashAndTime` at Unix time `now`: the timestamp is `now` in
   * decimal, and the hash is the lower-case hex of the digest of the
   * timestamp's bytes followed by the secret's bytes.  Returned as
   * (hash, timestamp).
   */
  function GetAuthHashAndTime(c: Client, now: int, md5: Digest): (r: (string, string))
    ensures r.1 == IntToDecimal(now) && ParseInt(r.1) == Some(now)
    ensures HexDecode(r.0) == Some(md5(Utf8.Encode(r.1) + Utf8.Encode(c.secret)))
    ensures |r.0| == 2 * |md5(Utf8.Encode(r.1) + Utf8.Encode(c.secret))|
    ensures forall i :: 0 <= i < |r.0| ==> IsLowerHex(r.0[i])
  {
    var timestamp := IntToDecimal(now);
    var digest := md5(Utf8.Encode(timestamp + c.secret));
    IntToDecimalRoundTrip(now);
    EncodeConcat(timestamp, c.secret);
    HexRoundTrip(digest);
    (HexEncode(digest), timestamp)
  }

  /** With a 16-byte digest such as MD5's, `dev_hash` is 32 lower-case hex characters. */
  lemma HashLength(c: Client, now: int, md5: Digest)
    requires forall bs :: |md5(bs)| == 16
    ensures |GetAuthHashAndTime(c, now, md5).0| == 32
  {
    var ts := IntToDecimal(now);
    assert |md5(Utf8.Encode(ts) + Utf8.Encode(c.secret))| == 16;
  }

  /**
   * The digest covers distinct inputs at distinct times: the bytes of
   * timestamp followed by secret differ whenever the times differ.
   */
  lemma SignedInputInjective(secret: string, a: int, b: int)
    ensures Utf8.Encode(IntToDecimal(a) + secret) == Utf8.Encode(IntToDecimal(b) + secret) <==> a == b
  {
    var x, y := IntToDecimal(a), IntToDecimal(b);
    EncodeInjective(x + secret, y + secret);
    if x + secret == y + secret {
      assert |x| == |y|;
      assert x == (x + secret)[..|x|] && y == (y + secret)[..|y|];
    }
    IntToDecimalInjective(a, b);
  }

  /**
   * `getURLForEndpoint`: the base address followed by the endpoint's path
   * with the project identifier in place of `%d`, or the "endpoint not
   * found" error with an empty address.  The address is not re-parsed.
   */
  function GetURLForEndpoint(c: Client, endpoints: map<string, ApiEndpoint>, name: string): (r: Reply)
    ensures r.err.Err? <==> name !in endpoints
    ensures name !in endpoints ==> r == Reply("", Err(EndpointNotFound))
    ensures name in endpoints ==> |BaseAddress| <= |r.value| && r.value[..|BaseAddress|] == BaseAddress
  {
    if name !in endpoints then Reply("", Err(EndpointNotFound))
    else
      var urlWithProjectID := Sprintf(endpoints[name].path, c.projectId);
      Reply(APIAddress + "/" + APIVersion + "/" + urlWithProjectID, Nil)
  }

  /** In the package table, "getFile" resolves to the project's translations address. */
  lemma GetFileURL(c: Client)
    ensures GetURLForEndpoint(c, ApiEndpoints, "getFile")
         == Reply("https://platform.api.onesky.io/1/projects/" + IntToDecimal(c.projectId) + "/translations", Nil)
  {
    var pre, post := "projects/", "/translations";
    assert ApiEndpoints["getFile"].path == pre + "%d" + post;
    SprintfOneVerb(pre, post, c.projectId);
    TranslationsAddress(IntToDecimal(c.projectId));
  }

  /** The literal parts of the translations address, joined; a lemma of its own so that callers never unfold the literals. */
  lemma TranslationsAddress(d: string)
    ensures BaseAddress + ("projects/" + d + "/translations")
         == "https://platform.api.onesky.io/1/projects/" + d + "/translations"
  {
    assert BaseAddress + "projects/" == "https://platform.api.onesky.io/1/projects/";
  }

  /** Any name other than "getFile" is unknown to the package table. */
  lemma UnknownEndpoint(c: Client, name: string)
    requires name != "getFile"
    ensures GetURLForEndpoint(c, ApiEndpoints, name) == Reply("", Err(EndpointNotFound))
  {
  }

  /** The address of the test client of project 1. */
  lemma GetFileURLExample(c: Client)
    requires c.projectId == 1
    ensures GetURLForEndpoint(c, ApiEndpoints, "getFile")
         == Reply("https://platform.api.onesky.io/1/projects/1/translations", Nil)
  {
    GetFileURL(c);
    assert IntToDecimal(1) == "1";
    ProjectOneAddress();
  }

  /** The address of project 1 as one literal; a lemma of its own so that callers never unfold the literals. */
  lemma ProjectOneAddress()
    ensures "https://platform.api.onesky.io/1/projects/" + "1" + "/translations"
         == "https://platform.api.onesky.io/1/projects/1/translations"
  {
  }

  /** Different projects get different "getFile" addresses. */
  lemma GetFileURLInjective(c: Client, d: Client)
    ensures GetURLForEndpoint(c, ApiEndpoints, "getFile") == GetURLForEndpoint(d, ApiEndpoints, "getFile")
        <==> c.projectId == d.projectId
  {
    GetFileURL(c);
    GetFileURL(d);
    var pre, post := "https://platform.api.onesky.io/1/projects/", "/translations";
    var x, y := IntToDecimal(c.projectId), IntToDecimal(d.projectId);
    if pre + x + post == pre + y + post {
      assert |x| == |y|;
      assert x == (pre + x + post)[|pre|..|pre| + |x|];
      assert y == (pre + y + post)[|pre|..|pre| + |y|];
    }
    IntToDecimalInjective(c.projectId, d.projectId);
  }

  /**
   * The caller's query after the client's three `Set` calls: `api_key`,
   * `timestamp` and `dev_hash` each hold exactly the client's value, and
   * every other key keeps its values.
   */
  function WithAuth(m: Query, apiKey: string, timestamp: string, hash: string): (r: Query)
    ensures r.Keys == m.Keys + {APIKeyKey, TimestampKey, DevHashKey}
    ensures r[APIKeyKey] == [apiKey] && r[TimestampKey] == [timestamp] && r[DevHashKey] == [hash]
    ensures forall k :: k in m && k != APIKeyKey && k != TimestampKey && k != DevHashKey ==> r[k] == m[k]
  {
    m[APIKeyKey := [apiKey]][TimestampKey := [timestamp]][DevHashKey := [hash]]
  }

  /**
   * `getFinalEndpointURL`: sets the three authentication keys in the
   * caller's query, in place, and returns the address followed by `?` and
   * the encoded query.  The address is not re-parsed, so no error arises.
   */
  method GetFinalEndpointURL(c: Client, endpointURL: string, additionalArgs: Values, now: int, md5: Digest)
    returns (r: Reply)
    modifies additionalArgs
    ensures var (hash, timestamp) := GetAuthHashAndTime(c, now, md5);
      additionalArgs.entries == WithAuth(old(additionalArgs.entries), c.apiKey, timestamp, hash)
    ensures r == Reply(endpointURL + "?" + EncodeQuery(additionalArgs.entries), Nil)
  {
    var (hash, timestamp) := GetAuthHashAndTime(c, now, md5);
    additionalArgs.Set(APIKeyKey, c.apiKey);
    additionalArgs.Set(TimestampKey, timestamp);
    additionalArgs.Set(DevHashKey, hash);
    var query := additionalArgs.Encode();
    r := Reply(endpointURL + "?" + query, Nil);
  }

  /** A decimal rendering is digits and perhaps a minus sign, all unreserved, so escaping leaves it as it is. */
  lemma DecimalUnescaped(n: int)
    ensures QueryEscape(IntToDecimal(n)) == IntToDecimal(n)
  {
    var s := IntToDecimal(n);
    forall i | 0 <= i < |s|
      ensures UnreservedChar(s[i])
    {
      if n < 0 && i > 0 {
        assert s[i] == s[1..][i - 1];
      }
    }
    QueryEscapeUnreserved(s);
  }

  /** Lower-case hex is unreserved, so escaping leaves it as it is. */
  lemma HexUnescaped(h: string)
    requires forall i :: 0 <= i < |h| ==> IsLowerHex(h[i])
    ensures QueryEscape(h) == h
  {
    QueryEscapeUnreserved(h);
  }

  /** The timestamp and the hash are made of unreserved characters, so the encoding leaves them as they are. */
  lemma AuthValuesUnescaped(c: Client, now: int, md5: Digest)
    ensures var (hash, timestamp) := GetAuthHashAndTime(c, now, md5);
      QueryEscape(hash) == hash && QueryEscape(timestamp) == timestamp
  {
    var r := GetAuthHashAndTime(c, now, md5);
    HexUnescaped(r.0);
    DecimalUnescaped(now);
  }

  /** The query keys and the test value used here are unreserved words, so the encoding leaves them as they are. */
  lemma WordUnescaped(w: string)
    requires w == APIKeyKey || w == DevHashKey || w == TimestampKey || w == LocaleKey || w == SourceFileNameKey
          || w == TestKey || w == TestValue
    ensures QueryEscape(w) == w
  {
    QueryEscapeUnreserved(w);
  }

  lemma DownloadKeysSorted()
    ensures Increasing([APIKeyKey, DevHashKey, LocaleKey, SourceFileNameKey, TimestampKey])
  {
    var ks := [APIKeyKey, DevHashKey, LocaleKey, SourceFileNameKey, TimestampKey];
    assert Less(ks[0], ks[1]) && Less(ks[1], ks[2]) && Less(ks[2], ks[3]) && Less(ks[3], ks[4]);
    IncreasingFromNeighbours(ks);
  }

  lemma TestKeysSorted()
    ensures Increasing([APIKeyKey, DevHashKey, TestKey, TimestampKey])
  {
    var ks := [APIKeyKey, DevHashKey, TestKey, TimestampKey];
    assert Less(ks[0], ks[1]) && Less(ks[1], ks[2]) && Less(ks[2], ks[3]);
    IncreasingFromNeighbours(ks);
  }

  /**
   * The merged query of a caller who set only `test_key`: the items come
   * out in ascending key order, api_key, dev_hash, test_key, timestamp.
   */
  lemma FinalQueryOrder(c: Client, now: int, md5: Digest)
    ensures var (hash, timestamp) := GetAuthHashAndTime(c, now, md5);
      EncodeQuery(WithAuth(map[TestKey := [TestValue]], c.apiKey, timestamp, hash))
        == Join([APIKeyKey + "=" + QueryEscape(c.apiKey), DevHashKey + "=" + hash, TestKey + "=" + TestValue,
                 TimestampKey + "=" + timestamp])
  {
    var (hash, timestamp) := GetAuthHashAndTime(c, now, md5);
    AuthValuesUnescaped(c, now, md5);
    TestQueryEncoding(c.apiKey, hash, timestamp);
  }

  /**
   * The merged test query holds exactly four keys, each with its one value.
   * Stated apart from its caller so that the map facts about literal keys
   * and the encoding proof are never in one context.
   */
  lemma TestQueryMerged(apiKey: string, hash: string, timestamp: string)
    ensures var m := WithAuth(map[TestKey := [TestValue]], apiKey, timestamp, hash);
      && m.Keys == {APIKeyKey, DevHashKey, TestKey, TimestampKey}
      && m[APIKeyKey] == [apiKey] && m[DevHashKey] == [hash] && m[TestKey] == [TestValue]
      && m[TimestampKey] == [timestamp]
  {
  }

  lemma TestKeysUnescaped()
    ensures QueryEscape(APIKeyKey) == APIKeyKey && QueryEscape(DevHashKey) == DevHashKey
    ensures QueryEscape(TestKey) == TestKey && QueryEscape(TimestampKey) == TimestampKey
    ensures QueryEscape(TestValue) == TestValue
  {
    WordUnescaped(APIKeyKey);
    WordUnescaped(DevHashKey);
    WordUnescaped(TestKey);
    WordUnescaped(TimestampKey);
    WordUnescaped(TestValue);
  }

  lemma TestQueryEncoding(apiKey: string, hash: string, timestamp: string)
    ensures EncodeQuery(WithAuth(map[TestKey := [TestValue]], apiKey, timestamp, hash))
         == Join([APIKeyKey + "=" + QueryEscape(apiKey), DevHashKey + "=" + QueryEscape(hash), TestKey + "=" + TestValue,
                  TimestampKey + "=" + QueryEscape(timestamp)])
  {
    var m := WithAuth(map[TestKey := [TestValue]], apiKey, timestamp, hash);
    TestKeysSorted();
    TestQueryMerged(apiKey, hash, timestamp);
    TestKeysUnescaped();
    EncodeFour(m, APIKeyKey, DevHashKey, TestKey, TimestampKey, apiKey, hash, TestValue, timestamp);
  }

  /** The query `DownloadFile` starts from, before the authentication keys. */
  function DownloadQuery(fileName: string, locale: string): (m: Query)
    ensures m.Keys == {LocaleKey, SourceFileNameKey}
    ensures m[LocaleKey] == [locale] && m[SourceFileNameKey] == [fileName]
  {
    map[LocaleKey := [locale], SourceFileNameKey := [fileName]]
  }

  /**
   * The address `DownloadFile` fetches: the "getFile" address, `?`, and the
   * encoded download query with the authentication keys merged in.
   */
  ghost function DownloadAddress(c: Client, endpoints: map<string, ApiEndpoint>, fileName: string, locale: string,
                                 now: int, md5: Digest): string
  {
    var (hash, timestamp) := GetAuthHashAndTime(c, now, md5);
    GetURLForEndpoint(c, endpoints, "getFile").value + "?"
      + EncodeQuery(WithAuth(DownloadQuery(fileName, locale), c.apiKey, timestamp, hash))
  }

  /** The items of the query `DownloadFile` sends, once the authentication keys are merged in. */
  function DownloadItems(apiKey: string, hash: string, timestamp: string, fileName: string, locale: string)
    : seq<string>
  {
    [APIKeyKey + "=" + QueryEscape(apiKey), DevHashKey + "=" + QueryEscape(hash), LocaleKey + "=" + QueryEscape(locale),
     SourceFileNameKey + "=" + QueryEscape(fileName), TimestampKey + "=" + QueryEscape(timestamp)]
  }

  /**
   * The merged download query holds exactly the five keys, each with its
   * one value.  Stated apart from its caller so that the map facts about
   * literal keys and the encoding proof are never in one context.
   */
  lemma DownloadQueryMerged(apiKey: string, hash: string, timestamp: string, fileName: string, locale: string)
    ensures var m := WithAuth(DownloadQuery(fileName, locale), apiKey, timestamp, hash);
      && m.Keys == {APIKeyKey, DevHashKey, LocaleKey, SourceFileNameKey, TimestampKey}
      && m[APIKeyKey] == [apiKey] && m[DevHashKey] == [hash] && m[LocaleKey] == [locale]
      && m[SourceFileNameKey] == [fileName] && m[TimestampKey] == [timestamp]
  {
  }

  lemma DownloadKeysUnescaped()
    ensures QueryEscape(APIKeyKey) == APIKeyKey && QueryEscape(DevHashKey) == DevHashKey
    ensures QueryEscape(LocaleKey) == LocaleKey && QueryEscape(SourceFileNameKey) == SourceFileNameKey
    ensures QueryEscape(TimestampKey) == TimestampKey
  {
    WordUnescaped(APIKeyKey);
    WordUnescaped(DevHashKey);
    WordUnescaped(LocaleKey);
    WordUnescaped(SourceFileNameKey);
    WordUnescaped(TimestampKey);
  }

  lemma DownloadQueryEncoding(apiKey: string, hash: string, timestamp: string, fileName: string, locale: string)
    ensures EncodeQuery(WithAuth(DownloadQuery(fileName, locale), apiKey, timestamp, hash))
         == Join(DownloadItems(apiKey, hash, timestamp, fileName, locale))
  {
    var m := WithAuth(DownloadQuery(fileName, locale), apiKey, timestamp, hash);
    DownloadKeysSorted();
    DownloadQueryMerged(apiKey, hash, timestamp, fileName, locale);
    DownloadKeysUnescaped();
    EncodeFive(m, APIKeyKey, DevHashKey, LocaleKey, SourceFileNameKey, TimestampKey,
               apiKey, hash, locale, fileName, timestamp);
  }

  /**
   * The address `DownloadFile` fetches with the package table: the project's
   * translations address, `?`, then the items api_key, dev_hash, locale,
   * source_file_name and timestamp in that order, joined by `&`.
   */
  lemma DownloadAddressShape(c: Client, fileName: string, locale: string, now: int, md5: Digest)
    ensures var (hash, timestamp) := GetAuthHashAndTime(c, now, md5);
      DownloadAddress(c, ApiEndpoints, fileName, locale, now, md5)
        == "https://platform.api.onesky.io/1/projects/" + IntToDecimal(c.projectId) + "/translations"
           + "?" + Join(DownloadItems(c.apiKey, hash, timestamp, fileName, locale))
  {
    var (hash, timestamp) := GetAuthHashAndTime(c, now, md5);
    DownloadQueryEncoding(c.apiKey, hash, timestamp, fileName, locale);
    GetFileURL(c);
  }

  /**
   * `DownloadFile`: a failed lookup of "getFile" is returned with an empty
   * body; otherwise the body of the fetched address is returned, and a
   * failed fetch gives an empty body and no error.
   */
  method DownloadFile(c: Client, endpoints: map<string, ApiEndpoint>, fileName: string, locale: string,
                      now: int, md5: Digest, fetch: string -> Fetched) returns (r: Reply)
    ensures "getFile" !in endpoints ==> r == Reply("", Err(EndpointNotFound))
    ensures "getFile" in endpoints ==> r.err == Nil
    ensures "getFile" in endpoints ==>
      r.value == match fetch(DownloadAddress(c, endpoints, fileName, locale, now, md5))
                 case Body(text) => text
                 case Failed(_) => ""
  {
    var probe := GetURLForEndpoint(c, endpoints, "getFile");
    if probe.err.Err? {
      return Reply("", probe.err);
    }
    var endpointURL := GetURLForEndpoint(c, endpoints, "getFile");
    if endpointURL.err.Err? {
      // The first lookup of the same name succeeded.
      assert false;
    }
    var v := new Values();
    v.Set(LocaleKey, locale);
    v.Set(SourceFileNameKey, fileName);
    var address := GetFinalEndpointURL(c, endpointURL.value, v, now, md5);
    match fetch(address.value)
    case Body(text) =>
      r := Reply(text, Nil);
    case Failed(_) =>
      r := Reply("", Nil);
  }
}
