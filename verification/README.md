# fabric8 Kubernetes client: HTTP client builders, modelled in Dafny

The Kubernetes client reaches the API server through a backend-neutral
`HttpClient` interface. Callers configure a client through chained
`HttpClient.Builder` calls: timeouts, interceptors, TLS material, proxy, HTTP/1.1
preference and TLS versions. Then they `build()` it and derive further builders
and requests from it. This project models the configuration side of two
backends:

- **The JDK backend's `AbstractBuilder`** (module `JdkBuilder`). It covers:
  - every setter;
  - `addOrReplaceInterceptor` over an insertion-ordered `LinkedHashMap` (module `LinkedMap`);
  - `copyTo`, which derives one builder from another.

  Builders, interceptor maps and `TlsVersion[]` arrays are Java objects. They
  live on a small heap, so the model can say which objects a derived builder
  shares with its source and which it does not.
- **The Vert.x backend** (modules `VertxClientBuilder` and `VertxRequests`).
  - Its builder writes straight into a Vert.x `HttpClientOptions` object. Each
    option is unsupported (throws `UnsupportedOperationException`), ignored, or
    applied.
  - `build()` hands that same options object to the client.
  - A client's `newBuilder()` copies its options.
  - The request builder mutates a `RequestOptions`, a body and a URI, and
    `build()` snapshots them.
  - The WebSocket builder mutates a `WebSocketConnectOptions`.

Java semantics the builders rely on are written out in module `JavaLang`:
- the `long` and `int` ranges and the `(int)` narrowing cast;
- saturation;
- truncating division;
- `String.valueOf(long)` and its inverse;
- `null` as `Option`;
- exceptions as `Call<S>`. An exception does not roll back state, so
  `Threw(state, error)` carries the state as the exception left it.

`TimeUnits` covers `TimeUnit.toNanos` / `toMillis`, which saturate instead of
overflowing. `HttpApi` holds the values that cross the interface.

Four behaviours of the code are easy to miss, and the model keeps each of them:

- **Zero `connectTimeout`.** Unlike `readTimeout` and `writeTimeout`, which
  treat zero as "none", the JDK builder's `connectTimeout(0, unit)` stores a
  zero-length `Duration` (`JdkBuilder.ConnectTimeout`).
- **Vert.x `build()` does not snapshot.** The Vert.x `build()` passes the
  builder's own options object to the client. A setter called on the builder
  after `build()` therefore changes the client's `options` field, and so the
  builders the client derives later (`VertxClientBuilder.BuildSharesOptions`).
- **The `TlsVersion[]` array is shared, not copied.** `copyTo` copies the scalar
  fields, but hands the target the caller's mutable `TlsVersion[]` array itself
  (`JdkBuilder.CopySharesTlsVersionsArray`).
- **Vert.x `tlsVersions` adds cipher suites.** It adds the version names to
  Vert.x's enabled *cipher suites*, an insertion-ordered set, rather than to the
  enabled protocols.

## Model

| member | source | states |
|---|---|---|
| JdkBuilder.NewBuilder | httpclient-jdk/src/main/java/io/fabric8/kubernetes/client/jdkhttp/AbstractBuilder.java:35-46 | a new builder has an empty interceptor map of its own, no timeouts, SSL context, proxy or TLS versions, and every flag false |
| JdkBuilder.NewBuilderLeavesOthers | httpclient-jdk/src/main/java/io/fabric8/kubernetes/client/jdkhttp/AbstractBuilder.java:35 | creating a builder (with its own new map) changes no existing builder's configuration |
| JdkBuilder.ReadTimeout | httpclient-jdk/src/main/java/io/fabric8/kubernetes/client/jdkhttp/AbstractBuilder.java:48-56 | zero clears the read timeout; any other value is stored as the saturated nanosecond count of timeout × unit; no other field or builder changes |
| JdkBuilder.ConnectTimeout | httpclient-jdk/src/main/java/io/fabric8/kubernetes/client/jdkhttp/AbstractBuilder.java:58-62 | the connect timeout is always present, the saturated nanosecond count, so zero gives a zero-length duration; nothing else changes |
| JdkBuilder.ForStreaming | httpclient-jdk/src/main/java/io/fabric8/kubernetes/client/jdkhttp/AbstractBuilder.java:64-68 | the streaming flag is set and no other field or builder changes |
| JdkBuilder.WriteTimeout | httpclient-jdk/src/main/java/io/fabric8/kubernetes/client/jdkhttp/AbstractBuilder.java:70-78 | zero clears the write timeout, any other value is stored saturated in nanoseconds; nothing else changes |
| JdkBuilder.AddOrReplaceInterceptor | httpclient-jdk/src/main/java/io/fabric8/kubernetes/client/jdkhttp/AbstractBuilder.java:80-88 | afterwards the name looks up exactly the given interceptor (null meaning removed), every other name looks up as before, the map object and the other builders are untouched |
| JdkBuilder.AuthenticatorNone | httpclient-jdk/src/main/java/io/fabric8/kubernetes/client/jdkhttp/AbstractBuilder.java:90-94 | the no-authenticator flag is set and nothing else changes |
| JdkBuilder.SetSslContext | httpclient-jdk/src/main/java/io/fabric8/kubernetes/client/jdkhttp/AbstractBuilder.java:96-100 | the stored SSL context is the one built from exactly the given key and trust managers; nothing else changes |
| JdkBuilder.FollowAllRedirects | httpclient-jdk/src/main/java/io/fabric8/kubernetes/client/jdkhttp/AbstractBuilder.java:102-106 | the follow-redirects flag is set and nothing else changes |
| JdkBuilder.ProxyAddress | httpclient-jdk/src/main/java/io/fabric8/kubernetes/client/jdkhttp/AbstractBuilder.java:108-112 | the proxy address becomes the argument, null included; nothing else changes |
| JdkBuilder.ProxyAuthorization | httpclient-jdk/src/main/java/io/fabric8/kubernetes/client/jdkhttp/AbstractBuilder.java:114-118 | the proxy credentials become the argument, null included; nothing else changes |
| JdkBuilder.PreferHttp11 | httpclient-jdk/src/main/java/io/fabric8/kubernetes/client/jdkhttp/AbstractBuilder.java:120-124 | the HTTP/1.1 flag is set and nothing else changes |
| JdkBuilder.TlsVersions | httpclient-jdk/src/main/java/io/fabric8/kubernetes/client/jdkhttp/AbstractBuilder.java:126-130 | the builder keeps a reference to the caller's array itself (or null), so it reads the array's current contents; nothing else changes |
| JdkBuilder.CopyTo | httpclient-jdk/src/main/java/io/fabric8/kubernetes/client/jdkhttp/AbstractBuilder.java:132-146 | the copy's configuration equals the source's; its interceptor map is a new object, while the TLS version array and the SSL context are the source's own |
| JdkBuilder.CopiedIsValid | httpclient-jdk/src/main/java/io/fabric8/kubernetes/client/jdkhttp/AbstractBuilder.java:132-146 | after copyTo every builder still has its own interceptor map, the copy's being new |
| JdkBuilder.CopyToLeavesOthers | httpclient-jdk/src/main/java/io/fabric8/kubernetes/client/jdkhttp/AbstractBuilder.java:132-146 | copying writes only the copy: the source and every other builder keep their configuration |
| JdkBuilder.Apply | httpclient-jdk/src/main/java/io/fabric8/kubernetes/client/jdkhttp/AbstractBuilder.java:48-130 | any setter call keeps the heap well formed (distinct interceptor maps per builder), creates no builders and writes no arrays |
| JdkBuilder.SetterChangesOnlyItsField | httpclient-jdk/src/main/java/io/fabric8/kubernetes/client/jdkhttp/AbstractBuilder.java:48-130 | every setter changes only its own field of its own builder |
| JdkBuilder.AssignChangesOnlyItsField | httpclient-jdk/src/main/java/io/fabric8/kubernetes/client/jdkhttp/AbstractBuilder.java:48-130 | the assignment each setter other than addOrReplaceInterceptor performs shows, on any heap, only in that setter's own field |
| JdkBuilder.StoreChangesOnlyItsField | httpclient-jdk/src/main/java/io/fabric8/kubernetes/client/jdkhttp/AbstractBuilder.java:48-130 | storing that assignment into a builder changes only the setter's own field of that builder's view |
| JdkBuilder.TimeoutSetterChangesOnlyItsField | httpclient-jdk/src/main/java/io/fabric8/kubernetes/client/jdkhttp/AbstractBuilder.java:48-78 | the three timeout setters change only their own field of their own builder |
| JdkBuilder.FlagSetterChangesOnlyItsField | httpclient-jdk/src/main/java/io/fabric8/kubernetes/client/jdkhttp/AbstractBuilder.java:64-124 | the four flag setters change only their own flag of their own builder |
| JdkBuilder.ValueSetterChangesOnlyItsField | httpclient-jdk/src/main/java/io/fabric8/kubernetes/client/jdkhttp/AbstractBuilder.java:96-130 | the SSL, proxy and TLS-version setters change only their own field of their own builder |
| JdkBuilder.SettersNeverClearFlags | httpclient-jdk/src/main/java/io/fabric8/kubernetes/client/jdkhttp/AbstractBuilder.java:64-124 | no setter resets a flag: forStreaming, authenticatorNone, followRedirects and preferHttp11 stay true once set |
| JdkBuilder.SettersIdempotent | httpclient-jdk/src/main/java/io/fabric8/kubernetes/client/jdkhttp/AbstractBuilder.java:48-130 | calling any setter twice with the same arguments leaves the same heap as calling it once |
| JdkBuilder.ScalarSetterIdempotent | httpclient-jdk/src/main/java/io/fabric8/kubernetes/client/jdkhttp/AbstractBuilder.java:48-130 | the same for every setter other than addOrReplaceInterceptor |
| JdkBuilder.AssignIdempotent | httpclient-jdk/src/main/java/io/fabric8/kubernetes/client/jdkhttp/AbstractBuilder.java:48-130 | writing a field a second time with the same value leaves the builder's fields as after the first write |
| JdkBuilder.CopiesAreIsolated | httpclient-jdk/src/main/java/io/fabric8/kubernetes/client/jdkhttp/AbstractBuilder.java:132-146 | after copyTo, any setter on the copy leaves the source as it was, and any setter on the source leaves the copy equal to the source's earlier configuration, interceptors included |
| JdkBuilder.CopySharesTlsVersionsArray | httpclient-jdk/src/main/java/io/fabric8/kubernetes/client/jdkhttp/AbstractBuilder.java:140 | after copyTo, writing new contents into the source's TLS version array changes what both the source and the copy see |
| LinkedMap.Put | httpclient-jdk/src/main/java/io/fabric8/kubernetes/client/jdkhttp/AbstractBuilder.java:85 | a present name keeps its position and takes the new value, an absent name is appended last, and names stay unique |
| LinkedMap.Remove | httpclient-jdk/src/main/java/io/fabric8/kubernetes/client/jdkhttp/AbstractBuilder.java:83 | the name's entry disappears and the others keep their order; removing an absent name changes nothing |
| LinkedMap.PutIsMapUpdate | httpclient-jdk/src/main/java/io/fabric8/kubernetes/client/jdkhttp/AbstractBuilder.java:85 | put is an update of the mapping the ordered entries denote |
| LinkedMap.RemoveIsMapRemoval | httpclient-jdk/src/main/java/io/fabric8/kubernetes/client/jdkhttp/AbstractBuilder.java:83 | remove takes the name out of the denoted mapping |
| LinkedMap.PutOrRemove | httpclient-jdk/src/main/java/io/fabric8/kubernetes/client/jdkhttp/AbstractBuilder.java:81-88 | put for an interceptor and remove for null: the name then looks up exactly that value and the other names are unaffected; a new name is appended, an existing one keeps its position |
| LinkedMap.PutOrRemoveKeepsOrder | httpclient-jdk/src/main/java/io/fabric8/kubernetes/client/jdkhttp/AbstractBuilder.java:81-88 | the other entries keep their order: a put leaves every other entry at its position, a removal closes the gap without reordering |
| LinkedMap.PutOrRemoveIdempotent | httpclient-jdk/src/main/java/io/fabric8/kubernetes/client/jdkhttp/AbstractBuilder.java:81-88 | adding or removing the same interceptor under the same name twice gives the same map as once |
| TimeUnits.ToNanos | httpclient-jdk/src/main/java/io/fabric8/kubernetes/client/jdkhttp/AbstractBuilder.java:53 | the unit conversion is the exact product saturated to the long range; it is zero exactly for zero and keeps the sign |
| TimeUnits.ToMillis | httpclient-vertx/src/main/java/io/fabric8/kubernetes/client/vertx/VertxHttpClientFactory.java:71 | conversion to milliseconds is the exact duration truncated toward zero and saturated to the long range |
| JavaLang.Int32Cast | httpclient-vertx/src/main/java/io/fabric8/kubernetes/client/vertx/VertxHttpClientFactory.java:71 | the int cast keeps the value modulo 2^32 inside the int range, and keeps any value already in range |
| JavaLang.LongToString | httpclient-vertx/src/main/java/io/fabric8/kubernetes/client/vertx/VertxHttpClientFactory.java:270 | `String.valueOf(long)`: a minus sign exactly for negatives, then a digit string without leading zeros |
| JavaLang.LongStringRoundTrip | httpclient-vertx/src/main/java/io/fabric8/kubernetes/client/vertx/VertxHttpClientFactory.java:270 | the decimal text of a long parses back to the same long |
| VertxClientBuilder.Apply | httpclient-vertx/src/main/java/io/fabric8/kubernetes/client/vertx/VertxHttpClientFactory.java:64-137 | exactly the unsupported options (read timeout, interceptors, proxy address and authorization) throw UnsupportedOperationException, and do so with nothing changed; the ignored ones change nothing; any call writes only the builder's own options |
| VertxClientBuilder.ConnectTimeout | httpclient-vertx/src/main/java/io/fabric8/kubernetes/client/vertx/VertxHttpClientFactory.java:69-73 | the options receive the duration in whole milliseconds, truncated toward zero, saturated to a long and then narrowed to an int; nothing else changes |
| VertxClientBuilder.ConnectTimeoutInMillis | httpclient-vertx/src/main/java/io/fabric8/kubernetes/client/vertx/VertxHttpClientFactory.java:71 | a millisecond value in the int range is stored as given |
| VertxClientBuilder.ConnectTimeoutWrapsAround | httpclient-vertx/src/main/java/io/fabric8/kubernetes/client/vertx/VertxHttpClientFactory.java:71 | 25 days, 2 160 000 000 ms, does not fit an int and is passed to `setConnectTimeout` as -2 134 967 296 |
| VertxClientBuilder.SslContext | httpclient-vertx/src/main/java/io/fabric8/kubernetes/client/vertx/VertxHttpClientFactory.java:98-107 | a null trust array throws NullPointerException with nothing changed; a non-empty trust array sets the first trust manager; a null key array then throws NullPointerException, a first key manager that is not X509 throws ClassCastException, both with the trust options already written; an empty array leaves its option alone |
| VertxClientBuilder.SslContextReadsFirstElementsOnly | httpclient-vertx/src/main/java/io/fabric8/kubernetes/client/vertx/VertxHttpClientFactory.java:98-107 | arrays with the same first elements (or both empty) give the same outcome: later elements are never read |
| VertxClientBuilder.AddCipherSuites | httpclient-vertx/src/main/java/io/fabric8/kubernetes/client/vertx/VertxHttpClientFactory.java:128 | adding suite names one by one keeps the existing suites as a prefix, in order |
| VertxClientBuilder.AddCipherSuitesMembers | httpclient-vertx/src/main/java/io/fabric8/kubernetes/client/vertx/VertxHttpClientFactory.java:128 | afterwards the enabled suites are exactly the old ones plus the added names |
| VertxClientBuilder.AddCipherSuitesNoDuplicates | httpclient-vertx/src/main/java/io/fabric8/kubernetes/client/vertx/VertxHttpClientFactory.java:128 | the enabled suites stay a set: no name is enabled twice |
| VertxClientBuilder.AddCipherSuitesAppendsNew | httpclient-vertx/src/main/java/io/fabric8/kubernetes/client/vertx/VertxHttpClientFactory.java:128 | distinct names not yet enabled are appended in the order given |
| VertxClientBuilder.AddCipherSuitesPresent | httpclient-vertx/src/main/java/io/fabric8/kubernetes/client/vertx/VertxHttpClientFactory.java:128 | names already enabled add nothing |
| VertxClientBuilder.AddCipherSuitesSnoc | httpclient-vertx/src/main/java/io/fabric8/kubernetes/client/vertx/VertxHttpClientFactory.java:128 | one more name is appended exactly when it is not enabled yet |
| VertxClientBuilder.AddCipherSuitesKeepsFirstNew | httpclient-vertx/src/main/java/io/fabric8/kubernetes/client/vertx/VertxHttpClientFactory.java:128 | for any names, repeats and enabled ones included, the suites grow by exactly the names not yet enabled, each at its first occurrence, in the order given |
| VertxClientBuilder.TlsVersions | httpclient-vertx/src/main/java/io/fabric8/kubernetes/client/vertx/VertxHttpClientFactory.java:125-131 | a null or empty array changes nothing; otherwise only the enabled suites change, keeping the old ones first, and they then hold exactly the old suites and the versions' Java names |
| VertxClientBuilder.TlsVersionsAppendInOrder | httpclient-vertx/src/main/java/io/fabric8/kubernetes/client/vertx/VertxHttpClientFactory.java:125-131 | distinct versions whose names are not enabled yet end up at the end of the suites, in array order |
| VertxClientBuilder.TlsVersionsAppendFirstNew | httpclient-vertx/src/main/java/io/fabric8/kubernetes/client/vertx/VertxHttpClientFactory.java:125-131 | for any array, the suites grow by the names of the versions not yet enabled, each once, in the order of first occurrence |
| VertxClientBuilder.PreferHttp11 | httpclient-vertx/src/main/java/io/fabric8/kubernetes/client/vertx/VertxHttpClientFactory.java:133-137 | the protocol version becomes HTTP/1.1 and nothing else changes |
| VertxClientBuilder.AppliedSettersIdempotent | httpclient-vertx/src/main/java/io/fabric8/kubernetes/client/vertx/VertxHttpClientFactory.java:69-137 | a setter call that returned normally, repeated with the same arguments, changes nothing more |
| VertxClientBuilder.NewBuilder | httpclient-vertx/src/main/java/io/fabric8/kubernetes/client/vertx/VertxHttpClientFactory.java:304-308 | the factory's builder works on a new options object holding the initial options |
| VertxClientBuilder.Build | httpclient-vertx/src/main/java/io/fabric8/kubernetes/client/vertx/VertxHttpClientFactory.java:59-62 | the client's `options` field is the builder's own options object, not a copy |
| VertxClientBuilder.CreateHttpClient | httpclient-vertx/src/main/java/io/fabric8/kubernetes/client/vertx/VertxHttpClientFactory.java:46-50 | the client gets a new options object with the initial options; the configuration argument plays no part |
| VertxClientBuilder.DeriveBuilder | httpclient-vertx/src/main/java/io/fabric8/kubernetes/client/vertx/VertxHttpClientFactory.java:155-160 | a client's new builder works on a new options object holding a copy of the client's options |
| VertxClientBuilder.DerivedBuilderIsolated | httpclient-vertx/src/main/java/io/fabric8/kubernetes/client/vertx/VertxHttpClientFactory.java:155-160 | no setter on a derived builder changes the options of the client it came from |
| VertxClientBuilder.BuildSharesOptions | httpclient-vertx/src/main/java/io/fabric8/kubernetes/client/vertx/VertxHttpClientFactory.java:59-62 | preferHttp11 called on a builder after build() changes the protocol version in the built client's `options` field, and so in the builders the client derives afterwards |
| VertxRequests.AddHeader | httpclient-vertx/src/main/java/io/fabric8/kubernetes/client/vertx/VertxHttpClientFactory.java:282-286 | adding a header appends one value to that name's values and leaves every other name's values alone |
| VertxRequests.PutHeader | httpclient-vertx/src/main/java/io/fabric8/kubernetes/client/vertx/VertxHttpClientFactory.java:288-292 | putting a header leaves exactly that one value for the name and every other name's values alone |
| VertxRequests.RemoveAll | httpclient-vertx/src/main/java/io/fabric8/kubernetes/client/vertx/VertxHttpClientFactory.java:288-292 | after removal the name has no values and every other name keeps its values |
| VertxRequests.PutHeaderIdempotent | httpclient-vertx/src/main/java/io/fabric8/kubernetes/client/vertx/VertxHttpClientFactory.java:288-292 | putting the same header twice gives the same entries as putting it once |
| VertxRequests.NewRequestBuilder | httpclient-vertx/src/main/java/io/fabric8/kubernetes/client/vertx/VertxHttpClientFactory.java:228-233 | a new request builder has no URI and no body, and holds the initial request options |
| VertxRequests.Uri | httpclient-vertx/src/main/java/io/fabric8/kubernetes/client/vertx/VertxHttpClientFactory.java:250-254 | `uri(URI)`: only the target URI changes, to the argument or to null |
| VertxRequests.UriText | httpclient-vertx/src/main/java/io/fabric8/kubernetes/client/vertx/VertxHttpClientFactory.java:240-248 | `uri(String)` and `url(URL)`: null throws NullPointerException with the builder unchanged; otherwise only the target URI changes, to the text |
| VertxRequests.Post | httpclient-vertx/src/main/java/io/fabric8/kubernetes/client/vertx/VertxHttpClientFactory.java:256-262 | the method becomes POST and Content-Type holds only the given type; then the body becomes the bytes, or a null array throws NullPointerException with those two writes kept; the other headers and the URI are unchanged |
| VertxRequests.PostStream | httpclient-vertx/src/main/java/io/fabric8/kubernetes/client/vertx/VertxHttpClientFactory.java:264-272 | the call always throws UnsupportedOperationException, after setting Content-Length to the decimal length, and changes nothing else |
| VertxRequests.Method | httpclient-vertx/src/main/java/io/fabric8/kubernetes/client/vertx/VertxHttpClientFactory.java:274-280 | the method becomes the given name and Content-Type holds only the given type; then the body becomes the text, or a null string throws NullPointerException with those two writes kept; the other headers and the URI are unchanged |
| VertxRequests.Header | httpclient-vertx/src/main/java/io/fabric8/kubernetes/client/vertx/VertxHttpClientFactory.java:282-286 | one more value for the name, other names and the rest of the builder unchanged |
| VertxRequests.SetHeader | httpclient-vertx/src/main/java/io/fabric8/kubernetes/client/vertx/VertxHttpClientFactory.java:288-292 | the value becomes the name's only value, other names and the rest of the builder unchanged |
| VertxRequests.ExpectContinue | httpclient-vertx/src/main/java/io/fabric8/kubernetes/client/vertx/VertxHttpClientFactory.java:294-299 | Expect holds exactly 100-continue, other names and the rest of the builder unchanged |
| VertxRequests.Build | httpclient-vertx/src/main/java/io/fabric8/kubernetes/client/vertx/VertxHttpClientFactory.java:235-238 | a missing URI throws NullPointerException; with a URI set, the request carries the builder's method, headers and body, with the URI as absolute URI |
| VertxRequests.ApplyRequest | httpclient-vertx/src/main/java/io/fabric8/kubernetes/client/vertx/VertxHttpClientFactory.java:240-299 | over every setter of the request builder, the uri overloads included: only `uri(URI)`, `uri(String)` and `url(URL)` change the builder's URI; the stream post always throws UnsupportedOperationException; otherwise a setter throws, with NullPointerException, exactly when uri(String)/url(URL) gets null or post/method gets a null body |
| VertxRequests.OnlyUriDecidesBuild | httpclient-vertx/src/main/java/io/fabric8/kubernetes/client/vertx/VertxHttpClientFactory.java:235-299 | no setter other than the uri overloads changes whether build throws for a missing URI, the stream post and failing posts included; after uri(URI) it throws exactly for a null URI, and after uri(String)/url(URL) exactly when the argument is null and no URI was set before |
| VertxRequests.StreamLengthOutlivesFailedPost | httpclient-vertx/src/main/java/io/fabric8/kubernetes/client/vertx/VertxHttpClientFactory.java:264-272 | the Content-Length left by a failed stream post survives a later byte post, whether it returns or throws, and is sent by the built request, still reading back as the stream length |
| VertxRequests.Subprotocol | httpclient-vertx/src/main/java/io/fabric8/kubernetes/client/vertx/VertxHttpClientFactory.java:201-205 | the subprotocol list becomes the single given protocol; headers and URI unchanged |
| VertxRequests.SubprotocolLastWins | httpclient-vertx/src/main/java/io/fabric8/kubernetes/client/vertx/VertxHttpClientFactory.java:201-205 | of two subprotocol calls only the last has an effect |
| VertxRequests.WebSocketHeader | httpclient-vertx/src/main/java/io/fabric8/kubernetes/client/vertx/VertxHttpClientFactory.java:207-211 | one more value for the name; nothing else changes |
| VertxRequests.WebSocketSetHeader | httpclient-vertx/src/main/java/io/fabric8/kubernetes/client/vertx/VertxHttpClientFactory.java:213-217 | the value becomes the name's only value; nothing else changes |
| VertxRequests.WebSocketUri | httpclient-vertx/src/main/java/io/fabric8/kubernetes/client/vertx/VertxHttpClientFactory.java:219-223 | a null URI throws NullPointerException with nothing changed, otherwise the absolute URI becomes its text |

## Left out

- Sending and transport: `sendAsync`, `consumeBytes`, `consumeLines`, `close`,
  the WebSocket builder's `buildAsync` and `VertxWebSocket`. These are
  asynchronous I/O against a live Vert.x instance. The `Vertx` instance itself
  and `getFactory` are left out too.
- `SSLUtils.sslContext`. It is not part of this model. The JDK builder's SSL
  context is identified with the key and trust managers it is built from, and
  failures while building it are not modelled.
- Vert.x library objects are reduced to the fields the builders write:
  - `HttpClientOptions`;
  - `RequestOptions`;
  - `WebSocketConnectOptions`;
  - `TrustOptions.wrap`;
  - `KeyCertOptions.wrap`.

  Their initial values are parameters (`VertxClientBuilder.NewBuilder`'s
  `defaults`, `VertxRequests.NewRequestBuilder`'s `initial`), because Vert.x's
  defaults are library code.
- VertxClientBuilder.ConnectTimeout: the options receive the narrowed value as
  handed over. Vert.x's `setConnectTimeout` rejects a negative value with
  `IllegalArgumentException`, which the model does not express: a negative
  timeout such as `connectTimeout(-1, SECONDS)`, or one that wraps negative as
  in `VertxClientBuilder.ConnectTimeoutWrapsAround`, is stored here where Vert.x
  throws.
- VertxRequests.AddHeader, VertxRequests.PutHeader: header names are compared
  exactly. Vert.x's header multimap compares names case-insensitively, so a
  `setHeader` that differs only in case is treated here as a different name.
  `content-type` and `content-length` are spelled in lower case, as Vert.x's
  `HttpHeaders` constants are, so they match a caller's lower-case names.
- VertxRequests.UriText: `URI.create` parsing is not modelled. A URI is kept as
  its text, and a malformed string's `IllegalArgumentException` is out of scope.
- VertxRequests.Build, VertxRequests.OnlyUriDecidesBuild, VertxRequests.WebSocketUri:
  the parsing inside `RequestOptions.setAbsoluteURI` and
  `WebSocketConnectOptions.setAbsoluteURI` is library code and is not modelled.
  Any URI text is accepted here, so the exceptions they raise for a relative or
  non-HTTP URI are not modelled either.
- VertxClientBuilder.Build: the transport the client creates from its options
  with `vertx.createHttpClient(options)` (VertxHttpClientFactory.java:146) is not
  modelled. Vert.x copies the options there, so later setter calls on the builder
  reach only the client's `options` field, not the transport.
- `null` elements inside arrays, and `null` header names, header values,
  content types or method names, are not modelled. The `null`s modelled through
  `Option` are the key and trust manager arrays, the `TlsVersion[]` array, URIs,
  interceptors, proxy settings, and the byte and text bodies of `post` and
  `method`.
- VertxRequests.Method, VertxRequests.ApplyRequest: `HttpMethod.valueOf` is
  reduced to keeping the method name. Netty rejects an empty name, or one
  holding whitespace, with `IllegalArgumentException` before anything is
  written; the model accepts every name, so that exception is not among the
  outcomes `ApplyRequest` lists.
- VertxRequests.Method: `Buffer.buffer(String)` is not encoded to UTF-8 bytes;
  the body keeps the text.
- HttpApi.JavaName: the protocol names come from the client API's `TlsVersion`
  enum and its `javaName()`, which is not part of this model; the table
  restates them.
- `java.time.Duration` is kept as a single nanosecond count rather than seconds
  plus nanoseconds. `TimeUnit` is restated from its documented saturating
  behaviour.
- Concurrency: the builders are not thread-safe and the model is sequential.
- `generate.go` (the camel-k code generator) is unrelated to the client builders
  and is not part of this model.
