/**
 The request and WebSocket builders a Vert.x-backed client hands out. Both
 collect their settings in a Vert.x options object (`RequestOptions`,
 `WebSocketConnectOptions`); the request builder also keeps the target URI and
 the body. Headers form a multimap: `addHeader` appends another value,
 `putHeader` replaces every value of that name with one.
 */
module VertxRequests {
  import opened JavaLang

  /** Header entries in insertion order; a name may occur several times. */
  type Headers = seq<(string, string)>

  /** The values stored under `name`, in insertion order: the reference view of a header multimap. */
  function ValuesOf(hs: Headers, name: string): seq<string> {
    if hs == [] then []
    else (if hs[0].0 == name then [hs[0].1] else []) + ValuesOf(hs[1..], name)
  }

  lemma {:induction false} ValuesOfConcat(a: Headers, b: Headers, name: string)
    ensures ValuesOf(a + b, name) == ValuesOf(a, name) + ValuesOf(b, name)
  {
    if a == [] {
      assert a + b == b;
    } else {
      assert (a + b)[0] == a[0] && (a + b)[1..] == a[1..] + b;
      ValuesOfConcat(a[1..], b, name);
    }
  }

  lemma ValuesOfSingle(e: (string, string), name: string)
    ensures ValuesOf([e], name) == if e.0 == name then [e.1] else []
  {
    assert [e][1..] == [];
  }

  /** Drops every entry named `name` and keeps the rest in order. */
  function RemoveAll(hs: Headers, name: string): (r: Headers)
    ensures ValuesOf(r, name) == []
    ensures forall n :: n != name ==> ValuesOf(r, n) == ValuesOf(hs, n)
  {
    if hs == [] then []
    else
      var rest := RemoveAll(hs[1..], name);
      if hs[0].0 == name then rest
      else
        assert ([hs[0]] + rest)[1..] == rest;
        [hs[0]] + rest
  }

  /** `addHeader(name, value)`: one more value for `name`; the other names are untouched. */
  function AddHeader(hs: Headers, name: string, value: string): (r: Headers)
    ensures ValuesOf(r, name) == ValuesOf(hs, name) + [value]
    ensures forall n :: n != name ==> ValuesOf(r, n) == ValuesOf(hs, n)
  {
    var r := hs + [(name, value)];
    assert forall n :: ValuesOf(r, n) == ValuesOf(hs, n) + (if n == name then [value] else []) by {
      forall n
        ensures ValuesOf(r, n) == ValuesOf(hs, n) + (if n == name then [value] else [])
      {
        ValuesOfConcat(hs, [(name, value)], n);
        ValuesOfSingle((name, value), n);
      }
    }
    r
  }

  /** `putHeader(name, value)`: `value` becomes the only value of `name`; the other names are untouched. */
  function PutHeader(hs: Headers, name: string, value: string): (r: Headers)
    ensures ValuesOf(r, name) == [value]
    ensures forall n :: n != name ==> ValuesOf(r, n) == ValuesOf(hs, n)
  {
    var removed := RemoveAll(hs, name);
    var r := removed + [(name, value)];
    assert forall n :: ValuesOf(r, n) == ValuesOf(removed, n) + (if n == name then [value] else []) by {
      forall n
        ensures ValuesOf(r, n) == ValuesOf(removed, n) + (if n == name then [value] else [])
      {
        ValuesOfConcat(removed, [(name, value)], n);
        ValuesOfSingle((name, value), n);
      }
    }
    r
  }

  /** Removing the same name twice removes nothing more. */
  lemma {:induction false} RemoveAllIdempotent(hs: Headers, name: string)
    ensures RemoveAll(RemoveAll(hs, name), name) == RemoveAll(hs, name)
  {
    if hs != [] {
      RemoveAllIdempotent(hs[1..], name);
      var rest := RemoveAll(hs[1..], name);
      if hs[0].0 != name {
        assert ([hs[0]] + rest)[1..] == rest;
      }
    }
  }

  lemma {:induction false} RemoveAllAppend(hs: Headers, e: (string, string), name: string)
    requires e.0 == name
    ensures RemoveAll(hs + [e], name) == RemoveAll(hs, name)
  {
    if hs != [] {
      assert (hs + [e])[1..] == hs[1..] + [e];
      RemoveAllAppend(hs[1..], e, name);
    }
  }

  /** Putting the same header twice leaves the entries as after the first put. */
  lemma PutHeaderIdempotent(hs: Headers, name: string, value: string)
    ensures PutHeader(PutHeader(hs, name, value), name, value) == PutHeader(hs, name, value)
  {
    RemoveAllAppend(RemoveAll(hs, name), (name, value), name);
    RemoveAllIdempotent(hs, name);
  }

  /** Vert.x's `HttpHeaders.CONTENT_TYPE` and `CONTENT_LENGTH` are spelled in lower case. */
  const ContentType := "content-type"
  const ContentLength := "content-length"
  const Expect := "Expect"
  const ContinueExpectation := "100-continue"

  /** The fields of a Vert.x `RequestOptions` the builder writes. */
  datatype RequestOptions = RequestOptions(verb: string, headers: Headers, absoluteUri: Option<string>)

  /** `Buffer.buffer(bytes)` or `Buffer.buffer(string)`: the body as handed over. */
  datatype Body = Bytes(bytes: seq<bv8>) | Text(text: string)

  /** The request builder: the URI (`null` until set, kept as its string form), the options, the body. */
  datatype RequestBuilder = RequestBuilder(uri: Option<string>, options: RequestOptions, body: Option<Body>)

  /** What `build()` hands to the request. */
  datatype Request = Request(uri: string, options: RequestOptions, body: Option<Body>)

  /** A new request builder around Vert.x's initial `RequestOptions`. */
  function NewRequestBuilder(initial: RequestOptions): (b: RequestBuilder)
    ensures b.uri.None? && b.body.None? && b.options == initial
  {
    RequestBuilder(None, initial, None)
  }

  /** `uri(URI)`: only the target changes; `null` clears it. */
  function Uri(b: RequestBuilder, uri: Option<string>): (r: RequestBuilder)
    ensures r.uri == uri && r.options == b.options && r.body == b.body
  {
    b.(uri := uri)
  }

  /**
   `uri(String)` and `url(URL)`: the text goes through `uri(URI)`, but a `null`
   argument throws `NullPointerException` in the conversion, before the builder
   is touched.
   */
  function UriText(b: RequestBuilder, uri: Option<string>): (r: Call<RequestBuilder>)
    ensures uri.None? <==> r == Threw(b, NullPointer)
    ensures uri.Some? ==> r.Returned? && r.state.uri == uri && r.state.options == b.options && r.state.body == b.body
  {
    if uri.None? then Threw(b, NullPointer) else Returned(Uri(b, uri))
  }

  /**
   `post(contentType, bytes)`: method POST and that content type alone are
   written first; then `Buffer.buffer(bytes)` makes the bytes the body, or
   throws `NullPointerException` for a `null` array and leaves both writes behind.
   */
  function Post(b: RequestBuilder, contentType: string, bytes: Option<seq<bv8>>): (r: Call<RequestBuilder>)
    ensures r.Threw? <==> bytes.None?
    ensures r.Threw? ==> r.error == NullPointer && r.state.body == b.body
    ensures r.Returned? ==> r.state.body == Some(Bytes(bytes.value))
    ensures r.state.options.verb == "POST"
    ensures ValuesOf(r.state.options.headers, ContentType) == [contentType]
    ensures forall n :: n != ContentType ==> ValuesOf(r.state.options.headers, n) == ValuesOf(b.options.headers, n)
    ensures r.state.uri == b.uri && r.state.options.absoluteUri == b.options.absoluteUri
  {
    var o := b.options;
    var written := b.(options := o.(verb := "POST", headers := PutHeader(o.headers, ContentType, contentType)));
    if bytes.None? then Threw(written, NullPointer) else Returned(written.(body := Some(Bytes(bytes.value))))
  }

  /**
   `post(contentType, stream, length)`: the length goes into `Content-Length`
   and then the call throws `UnsupportedOperationException`; the header stays
   behind in the builder, the body and method do not change.
   */
  function PostStream(b: RequestBuilder, length: Long): (r: Call<RequestBuilder>)
    ensures r.Threw? && r.error == UnsupportedOperation
    ensures ValuesOf(r.state.options.headers, ContentLength) == [LongToString(length)]
    ensures forall n :: n != ContentLength ==> ValuesOf(r.state.options.headers, n) == ValuesOf(b.options.headers, n)
    ensures r.state == b.(options := r.state.options)
    ensures r.state.options == b.options.(headers := r.state.options.headers)
  {
    var o := b.options;
    Threw(b.(options := o.(headers := PutHeader(o.headers, ContentLength, LongToString(length)))), UnsupportedOperation)
  }

  /**
   `method(method, contentType, s)`: any method name and that content type alone
   are written first; then `Buffer.buffer(s)` makes the text the body, or throws
   `NullPointerException` for a `null` string and leaves both writes behind.
   */
  function Method(b: RequestBuilder, verb: string, contentType: string, s: Option<string>): (r: Call<RequestBuilder>)
    ensures r.Threw? <==> s.None?
    ensures r.Threw? ==> r.error == NullPointer && r.state.body == b.body
    ensures r.Returned? ==> r.state.body == Some(Text(s.value))
    ensures r.state.options.verb == verb
    ensures ValuesOf(r.state.options.headers, ContentType) == [contentType]
    ensures forall n :: n != ContentType ==> ValuesOf(r.state.options.headers, n) == ValuesOf(b.options.headers, n)
    ensures r.state.uri == b.uri && r.state.options.absoluteUri == b.options.absoluteUri
  {
    var o := b.options;
    var written := b.(options := o.(verb := verb, headers := PutHeader(o.headers, ContentType, contentType)));
    if s.None? then Threw(written, NullPointer) else Returned(written.(body := Some(Text(s.value))))
  }

  /** `header(k, v)`: adds a value, keeping the earlier ones. */
  function Header(b: RequestBuilder, k: string, v: string): (r: RequestBuilder)
    ensures ValuesOf(r.options.headers, k) == ValuesOf(b.options.headers, k) + [v]
    ensures forall n :: n != k ==> ValuesOf(r.options.headers, n) == ValuesOf(b.options.headers, n)
    ensures r == b.(options := b.options.(headers := r.options.headers))
  {
    b.(options := b.options.(headers := AddHeader(b.options.headers, k, v)))
  }

  /** `setHeader(k, v)`: `v` becomes the only value of `k`. */
  function SetHeader(b: RequestBuilder, k: string, v: string): (r: RequestBuilder)
    ensures ValuesOf(r.options.headers, k) == [v]
    ensures forall n :: n != k ==> ValuesOf(r.options.headers, n) == ValuesOf(b.options.headers, n)
    ensures r == b.(options := b.options.(headers := r.options.headers))
  {
    b.(options := b.options.(headers := PutHeader(b.options.headers, k, v)))
  }

  /** `expectContinue()`: the header `Expect: 100-continue`, set rather than added. */
  function ExpectContinue(b: RequestBuilder): (r: RequestBuilder)
    ensures ValuesOf(r.options.headers, Expect) == [ContinueExpectation]
    ensures forall n :: n != Expect ==> ValuesOf(r.options.headers, n) == ValuesOf(b.options.headers, n)
    ensures r == b.(options := b.options.(headers := r.options.headers))
  {
    SetHeader(b, Expect, ContinueExpectation)
  }

  /**
   `build()`: a request over a copy of the options whose absolute URI is the
   builder's URI. Without a URI, `uri.toString()` throws `NullPointerException`.
   */
  function Build(b: RequestBuilder): (r: Result<Request>)
    ensures r.Ok? <==> b.uri.Some?
    ensures r.Err? ==> r.error == NullPointer
    ensures r.Ok? ==>
              && r.value.uri == b.uri.value
              && r.value.options.absoluteUri == b.uri
              && r.value.options.verb == b.options.verb
              && r.value.options.headers == b.options.headers
              && r.value.body == b.body
  {
    if b.uri.None? then Err(NullPointer)
    else Ok(Request(b.uri.value, b.options.(absoluteUri := Some(b.uri.value)), b.body))
  }

  /**
   One call on the request builder, for stating what `build()` sees: `uri(URI)`,
   `uri(String)` or `url(URL)`, the two `post`s, `method`, the header setters.
   The stream `post` reads neither its content type nor its stream, so only its
   length is kept.
   */
  datatype RequestSetter =
    | SetUri(uri: Option<string>)
    | SetUriText(uri: Option<string>)
    | SetStreamPost(length: Long)
    | SetPost(contentType: string, bytes: Option<seq<bv8>>)
    | SetMethod(verb: string, contentType: string, text: Option<string>)
    | AddHeaderValue(k: string, v: string)
    | SetHeaderValue(k: string, v: string)
    | SetExpectContinue

  function ApplyRequest(b: RequestBuilder, s: RequestSetter): (r: Call<RequestBuilder>)
    ensures !s.SetUri? && !s.SetUriText? ==> r.state.uri == b.uri
    ensures r.Threw? <==>
              || (s.SetUriText? && s.uri.None?)
              || s.SetStreamPost?
              || (s.SetPost? && s.bytes.None?)
              || (s.SetMethod? && s.text.None?)
    ensures s.SetStreamPost? ==> r.error == UnsupportedOperation
    ensures r.Threw? && !s.SetStreamPost? ==> r.error == NullPointer
  {
    match s
    case SetUri(u) => Returned(Uri(b, u))
    case SetUriText(u) => UriText(b, u)
    case SetStreamPost(length) => PostStream(b, length)
    case SetPost(ct, bytes) => Post(b, ct, bytes)
    case SetMethod(m, ct, text) => Method(b, m, ct, text)
    case AddHeaderValue(k, v) => Returned(Header(b, k, v))
    case SetHeaderValue(k, v) => Returned(SetHeader(b, k, v))
    case SetExpectContinue => Returned(ExpectContinue(b))
  }

  /**
   The `Content-Length` written by a failed stream post stays in the builder: a
   later `post(contentType, bytes)`, whether or not it throws, and `build()` send
   it, and it still reads back as the stream's length.
   */
  lemma {:induction false} StreamLengthOutlivesFailedPost(b: RequestBuilder, length: Long, contentType: string, bytes: Option<seq<bv8>>)
    requires b.uri.Some?
    ensures var after := Post(PostStream(b, length).state, contentType, bytes).state;
            && Build(after).Ok?
            && ValuesOf(Build(after).value.options.headers, ContentLength) == [LongToString(length)]
            && ParseLong(ValuesOf(Build(after).value.options.headers, ContentLength)[0]) == Some(length as int)
  {
    assert ContentLength != ContentType by {
      assert ContentLength[0] != ContentType[0] || ContentLength[1] != ContentType[1] || ContentLength[8] != ContentType[8];
    }
    LongStringRoundTrip(length);
  }

  /**
   Every setter other than the `uri`s, the stream `post` and a `post` or
   `method` that throws on a `null` body included, leaves whether `build()`
   succeeds unchanged: only the URI decides between a request and
   `NullPointerException`. `uri(URI)` decides by its argument alone; a `null`
   given to `uri(String)` or `url(URL)` throws first and leaves the old URI.
   */
  lemma {:induction false} OnlyUriDecidesBuild(b: RequestBuilder, s: RequestSetter)
    ensures !s.SetUri? && !s.SetUriText? ==> (Build(ApplyRequest(b, s).state).Ok? <==> Build(b).Ok?)
    ensures s.SetUri? ==> (Build(ApplyRequest(b, s).state).Ok? <==> s.uri.Some?)
    ensures s.SetUriText? ==> (Build(ApplyRequest(b, s).state).Ok? <==> s.uri.Some? || Build(b).Ok?)
  {
  }

  /** The fields of a Vert.x `WebSocketConnectOptions` the WebSocket builder writes. */
  datatype WebSocketOptions = WebSocketOptions(subProtocols: Option<seq<string>>, headers: Headers, absoluteUri: Option<string>)

  /** `subprotocol(protocol)`: the list becomes that one protocol, whatever was there before. */
  function Subprotocol(o: WebSocketOptions, protocol: string): (r: WebSocketOptions)
    ensures r.subProtocols == Some([protocol])
    ensures r.headers == o.headers && r.absoluteUri == o.absoluteUri
  {
    o.(subProtocols := Some([protocol]))
  }

  /** The WebSocket builder's `header(name, value)`: adds a value. */
  function WebSocketHeader(o: WebSocketOptions, name: string, value: string): (r: WebSocketOptions)
    ensures ValuesOf(r.headers, name) == ValuesOf(o.headers, name) + [value]
    ensures forall n :: n != name ==> ValuesOf(r.headers, n) == ValuesOf(o.headers, n)
    ensures r == o.(headers := r.headers)
  {
    o.(headers := AddHeader(o.headers, name, value))
  }

  /** The WebSocket builder's `setHeader(k, v)`: replaces the values. */
  function WebSocketSetHeader(o: WebSocketOptions, k: string, v: string): (r: WebSocketOptions)
    ensures ValuesOf(r.headers, k) == [v]
    ensures forall n :: n != k ==> ValuesOf(r.headers, n) == ValuesOf(o.headers, n)
    ensures r == o.(headers := r.headers)
  {
    o.(headers := PutHeader(o.headers, k, v))
  }

  /** The WebSocket builder's `uri(uri)`: the absolute URI; `null` throws `NullPointerException` with nothing changed. */
  function WebSocketUri(o: WebSocketOptions, uri: Option<string>): (r: Call<WebSocketOptions>)
    ensures uri.None? ==> r == Threw(o, NullPointer)
    ensures uri.Some? ==> r == Returned(o.(absoluteUri := uri))
  {
    if uri.None? then Threw(o, NullPointer) else Returned(o.(absoluteUri := uri))
  }

  /** The last `subprotocol` call wins. */
  lemma SubprotocolLastWins(o: WebSocketOptions, p: string, q: string)
    ensures Subprotocol(Subprotocol(o, p), q) == Subprotocol(o, q)
  {
  }
}
