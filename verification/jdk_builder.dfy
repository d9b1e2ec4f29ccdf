/**
 The JDK backend's `AbstractBuilder`: a record of client options behind the
 `HttpClient.Builder` setters, and `copyTo`, which derives one builder from
 another.

 Builders, interceptor maps and `TlsVersion[]` arrays are Java objects, so they
 live on a small heap addressed by `Ref`. That is what lets the model say which
 objects a derived builder shares with its source and which it does not. A
 setter returns `this`: chaining calls means applying the setters in turn to the
 same `Ref`.
 */
module JdkBuilder {
  import opened JavaLang
  import opened TimeUnits
  import opened HttpApi
  import LinkedMap

  /** An address on this module's heap; the Vert.x heap has its own. */
  type Ref = nat

  /** A `java.time.Duration`, held as its length in nanoseconds. */
  datatype Duration = Duration(nanos: int)

  /**
   The `SSLContext` that `SSLUtils.sslContext` builds. It is opaque here, so it
   is identified with the key and trust managers it was built from.
   */
  datatype SslContext = SslContextOf(keyManagers: Option<seq<KeyManager>>, trustManagers: Option<seq<TrustManager>>)

  /** The fields of one builder object; `interceptors` and `tlsVersions` are references. */
  datatype Fields = Fields(
    interceptors: Ref,
    connectTimeout: Option<Duration>,
    readTimeout: Option<Duration>,
    sslContext: Option<SslContext>,
    proxyAuthorization: Option<string>,
    proxyAddress: Option<SocketAddress>,
    followRedirects: bool,
    preferHttp11: bool,
    tlsVersions: Option<Ref>,
    forStreaming: bool,
    writeTimeout: Option<Duration>,
    authenticatorNone: bool)

  /** Builder objects, `LinkedHashMap` objects and `TlsVersion[]` objects, plus the next free address. */
  datatype Heap = Heap(
    builders: map<Ref, Fields>,
    maps: map<Ref, LinkedMap.Entries<Interceptor>>,
    arrays: map<Ref, seq<TlsVersion>>,
    next: Ref)

  /**
   The heap invariant: every reference resolves, every interceptor map has
   unique names, and no two builders hold the same interceptor map.
   */
  predicate Valid(h: Heap) {
    && (forall r :: r in h.builders ==> r < h.next)
    && (forall r :: r in h.maps ==> r < h.next && LinkedMap.UniqueKeys(h.maps[r]))
    && (forall r :: r in h.arrays ==> r < h.next)
    && (forall b :: b in h.builders ==> h.builders[b].interceptors in h.maps)
    && (forall b :: b in h.builders && h.builders[b].tlsVersions.Some? ==> h.builders[b].tlsVersions.value in h.arrays)
    && (forall b, c :: b in h.builders && c in h.builders && b != c ==> h.builders[b].interceptors != h.builders[c].interceptors)
  }

  /** What a builder's owner can observe: its fields with the interceptor map and the array dereferenced. */
  datatype Config = Config(
    interceptors: LinkedMap.Entries<Interceptor>,
    connectTimeout: Option<Duration>,
    readTimeout: Option<Duration>,
    sslContext: Option<SslContext>,
    proxyAuthorization: Option<string>,
    proxyAddress: Option<SocketAddress>,
    followRedirects: bool,
    preferHttp11: bool,
    tlsVersions: Option<seq<TlsVersion>>,
    forStreaming: bool,
    writeTimeout: Option<Duration>,
    authenticatorNone: bool)

  /** The fields `f` would show on heap `h`, once their references are resolved there. */
  function ViewOf(h: Heap, f: Fields): Config
    requires f.interceptors in h.maps && (f.tlsVersions.Some? ==> f.tlsVersions.value in h.arrays)
  {
    Config(
      h.maps[f.interceptors], f.connectTimeout, f.readTimeout, f.sslContext,
      f.proxyAuthorization, f.proxyAddress, f.followRedirects, f.preferHttp11,
      if f.tlsVersions.Some? then Some(h.arrays[f.tlsVersions.value]) else None,
      f.forStreaming, f.writeTimeout, f.authenticatorNone)
  }

  function View(h: Heap, b: Ref): Config
    requires Valid(h) && b in h.builders
  {
    ViewOf(h, h.builders[b])
  }

  /** The builder's options, one name per field. */
  datatype Field =
    | InterceptorsField | ConnectTimeoutField | ReadTimeoutField | SslContextField
    | ProxyAuthorizationField | ProxyAddressField | FollowRedirectsField | PreferHttp11Field
    | TlsVersionsField | ForStreamingField | WriteTimeoutField | AuthenticatorNoneField

  /** The configuration with field `k` reset to its initial value. */
  function Forget(c: Config, k: Field): Config {
    match k
    case InterceptorsField => c.(interceptors := [])
    case ConnectTimeoutField => c.(connectTimeout := None)
    case ReadTimeoutField => c.(readTimeout := None)
    case SslContextField => c.(sslContext := None)
    case ProxyAuthorizationField => c.(proxyAuthorization := None)
    case ProxyAddressField => c.(proxyAddress := None)
    case FollowRedirectsField => c.(followRedirects := false)
    case PreferHttp11Field => c.(preferHttp11 := false)
    case TlsVersionsField => c.(tlsVersions := None)
    case ForStreamingField => c.(forStreaming := false)
    case WriteTimeoutField => c.(writeTimeout := None)
    case AuthenticatorNoneField => c.(authenticatorNone := false)
  }

  /** Every field other than `k` is unchanged: the two agree once `k` is forgotten. */
  predicate SameExcept(c: Config, d: Config, k: Field) {
    Forget(c, k) == Forget(d, k)
  }

  /** Creating a builder leaves the existing builders as they were. */
  lemma NewBuilderLeavesOthers(h: Heap)
    requires Valid(h)
    ensures forall c :: c in h.builders ==> View(NewBuilder(h).0, c) == View(h, c)
  {
    var r := NewBuilder(h).0;
    forall c | c in h.builders
      ensures View(r, c) == View(h, c)
    {
      assert r.builders[c] == h.builders[c];
      assert h.builders[c].interceptors < h.next;
    }
  }

  /** Replaces the fields of builder `b`, leaving every other object alone. */
  function Store(h: Heap, b: Ref, f: Fields): (r: Heap)
    requires Valid(h) && b in h.builders
    requires f.interceptors == h.builders[b].interceptors
    requires f.tlsVersions.Some? ==> f.tlsVersions.value in h.arrays
    ensures Valid(r)
    ensures r.builders.Keys == h.builders.Keys && r.maps == h.maps && r.arrays == h.arrays
    ensures View(r, b) == ViewOf(h, f)
    ensures forall c :: c in h.builders && c != b ==> View(r, c) == View(h, c)
  {
    h.(builders := h.builders[b := f])
  }

  /** A new builder: an empty interceptor map, no timeouts, no TLS or proxy settings, all flags false. */
  function NewBuilder(h: Heap): (r: (Heap, Ref))
    requires Valid(h)
    ensures Valid(r.0) && r.1 !in h.builders && r.0.builders.Keys == h.builders.Keys + {r.1}
    ensures View(r.0, r.1) == Config([], None, None, None, None, None, false, false, None, false, None, false)
  {
    var b := h.next;
    var m := h.next + 1;
    var f := Fields(m, None, None, None, None, None, false, false, None, false, None, false);
    (Heap(h.builders[b := f], h.maps[m := []], h.arrays, h.next + 2), b)
  }

  /** `readTimeout(timeout, unit)`: zero clears the read timeout; any other value is stored in nanoseconds. */
  function ReadTimeout(h: Heap, b: Ref, timeout: Long, unit: TimeUnit): (r: Heap)
    requires Valid(h) && b in h.builders
    ensures Valid(r) && r.builders.Keys == h.builders.Keys
    ensures timeout == 0 ==> View(r, b).readTimeout == None
    ensures timeout != 0 ==> View(r, b).readTimeout == Some(Duration(Saturate(timeout * NanosPer(unit))))
    ensures SameExcept(View(h, b), View(r, b), ReadTimeoutField)
    ensures forall c :: c in h.builders && c != b ==> View(r, c) == View(h, c)
  {
    StoreChangesOnlyItsField(h, b, SetReadTimeout(timeout, unit), ReadTimeoutField);
    Store(h, b, Assign(h.builders[b], SetReadTimeout(timeout, unit)))
  }

  /** `connectTimeout(timeout, unit)`: always stores a duration, so zero gives a zero-length timeout, not none. */
  function ConnectTimeout(h: Heap, b: Ref, timeout: Long, unit: TimeUnit): (r: Heap)
    requires Valid(h) && b in h.builders
    ensures Valid(r) && r.builders.Keys == h.builders.Keys
    ensures View(r, b).connectTimeout == Some(Duration(Saturate(timeout * NanosPer(unit))))
    ensures timeout == 0 ==> View(r, b).connectTimeout == Some(Duration(0))
    ensures SameExcept(View(h, b), View(r, b), ConnectTimeoutField)
    ensures forall c :: c in h.builders && c != b ==> View(r, c) == View(h, c)
  {
    StoreChangesOnlyItsField(h, b, SetConnectTimeout(timeout, unit), ConnectTimeoutField);
    Store(h, b, Assign(h.builders[b], SetConnectTimeout(timeout, unit)))
  }

  /** `writeTimeout(timeout, unit)`: the same clear-on-zero rule as `readTimeout`. */
  function WriteTimeout(h: Heap, b: Ref, timeout: Long, unit: TimeUnit): (r: Heap)
    requires Valid(h) && b in h.builders
    ensures Valid(r) && r.builders.Keys == h.builders.Keys
    ensures timeout == 0 ==> View(r, b).writeTimeout == None
    ensures timeout != 0 ==> View(r, b).writeTimeout == Some(Duration(Saturate(timeout * NanosPer(unit))))
    ensures SameExcept(View(h, b), View(r, b), WriteTimeoutField)
    ensures forall c :: c in h.builders && c != b ==> View(r, c) == View(h, c)
  {
    StoreChangesOnlyItsField(h, b, SetWriteTimeout(timeout, unit), WriteTimeoutField);
    Store(h, b, Assign(h.builders[b], SetWriteTimeout(timeout, unit)))
  }

  /** `forStreaming()`. */
  function ForStreaming(h: Heap, b: Ref): (r: Heap)
    requires Valid(h) && b in h.builders
    ensures Valid(r) && r.builders.Keys == h.builders.Keys
    ensures View(r, b).forStreaming
    ensures SameExcept(View(h, b), View(r, b), ForStreamingField)
    ensures forall c :: c in h.builders && c != b ==> View(r, c) == View(h, c)
  {
    StoreChangesOnlyItsField(h, b, SetForStreaming, ForStreamingField);
    Store(h, b, Assign(h.builders[b], SetForStreaming))
  }

  /** `authenticatorNone()`. */
  function AuthenticatorNone(h: Heap, b: Ref): (r: Heap)
    requires Valid(h) && b in h.builders
    ensures Valid(r) && r.builders.Keys == h.builders.Keys
    ensures View(r, b).authenticatorNone
    ensures SameExcept(View(h, b), View(r, b), AuthenticatorNoneField)
    ensures forall c :: c in h.builders && c != b ==> View(r, c) == View(h, c)
  {
    StoreChangesOnlyItsField(h, b, SetAuthenticatorNone, AuthenticatorNoneField);
    Store(h, b, Assign(h.builders[b], SetAuthenticatorNone))
  }

  /** `followAllRedirects()`. */
  function FollowAllRedirects(h: Heap, b: Ref): (r: Heap)
    requires Valid(h) && b in h.builders
    ensures Valid(r) && r.builders.Keys == h.builders.Keys
    ensures View(r, b).followRedirects
    ensures SameExcept(View(h, b), View(r, b), FollowRedirectsField)
    ensures forall c :: c in h.builders && c != b ==> View(r, c) == View(h, c)
  {
    StoreChangesOnlyItsField(h, b, SetFollowAllRedirects, FollowRedirectsField);
    Store(h, b, Assign(h.builders[b], SetFollowAllRedirects))
  }

  /** `preferHttp11()`. */
  function PreferHttp11(h: Heap, b: Ref): (r: Heap)
    requires Valid(h) && b in h.builders
    ensures Valid(r) && r.builders.Keys == h.builders.Keys
    ensures View(r, b).preferHttp11
    ensures SameExcept(View(h, b), View(r, b), PreferHttp11Field)
    ensures forall c :: c in h.builders && c != b ==> View(r, c) == View(h, c)
  {
    StoreChangesOnlyItsField(h, b, SetPreferHttp11, PreferHttp11Field);
    Store(h, b, Assign(h.builders[b], SetPreferHttp11))
  }

  /** `sslContext(keyManagers, trustManagers)`: the stored context is built from exactly these inputs. */
  function SetSslContext(h: Heap, b: Ref, keyManagers: Option<seq<KeyManager>>, trustManagers: Option<seq<TrustManager>>): (r: Heap)
    requires Valid(h) && b in h.builders
    ensures Valid(r) && r.builders.Keys == h.builders.Keys
    ensures View(r, b).sslContext.Some?
    ensures View(r, b).sslContext.value.keyManagers == keyManagers
    ensures View(r, b).sslContext.value.trustManagers == trustManagers
    ensures SameExcept(View(h, b), View(r, b), SslContextField)
    ensures forall c :: c in h.builders && c != b ==> View(r, c) == View(h, c)
  {
    StoreChangesOnlyItsField(h, b, SetSsl(keyManagers, trustManagers), SslContextField);
    Store(h, b, Assign(h.builders[b], SetSsl(keyManagers, trustManagers)))
  }

  /** `proxyAddress(address)`; `null` clears it. */
  function ProxyAddress(h: Heap, b: Ref, address: Option<SocketAddress>): (r: Heap)
    requires Valid(h) && b in h.builders
    ensures Valid(r) && r.builders.Keys == h.builders.Keys
    ensures View(r, b).proxyAddress == address
    ensures SameExcept(View(h, b), View(r, b), ProxyAddressField)
    ensures forall c :: c in h.builders && c != b ==> View(r, c) == View(h, c)
  {
    StoreChangesOnlyItsField(h, b, SetProxyAddress(address), ProxyAddressField);
    Store(h, b, Assign(h.builders[b], SetProxyAddress(address)))
  }

  /** `proxyAuthorization(credentials)`; `null` clears it. */
  function ProxyAuthorization(h: Heap, b: Ref, credentials: Option<string>): (r: Heap)
    requires Valid(h) && b in h.builders
    ensures Valid(r) && r.builders.Keys == h.builders.Keys
    ensures View(r, b).proxyAuthorization == credentials
    ensures SameExcept(View(h, b), View(r, b), ProxyAuthorizationField)
    ensures forall c :: c in h.builders && c != b ==> View(r, c) == View(h, c)
  {
    StoreChangesOnlyItsField(h, b, SetProxyAuthorization(credentials), ProxyAuthorizationField);
    Store(h, b, Assign(h.builders[b], SetProxyAuthorization(credentials)))
  }

  /** `tlsVersions(array)`: keeps a reference to the caller's array (or `null`), not a copy of it. */
  function TlsVersions(h: Heap, b: Ref, versions: Option<Ref>): (r: Heap)
    requires Valid(h) && b in h.builders
    requires versions.Some? ==> versions.value in h.arrays
    ensures Valid(r) && r.builders.Keys == h.builders.Keys
    ensures r.builders[b].tlsVersions == versions
    ensures View(r, b).tlsVersions == if versions.Some? then Some(h.arrays[versions.value]) else None
    ensures SameExcept(View(h, b), View(r, b), TlsVersionsField)
    ensures forall c :: c in h.builders && c != b ==> View(r, c) == View(h, c)
  {
    StoreChangesOnlyItsField(h, b, SetTlsVersions(versions), TlsVersionsField);
    Store(h, b, Assign(h.builders[b], SetTlsVersions(versions)))
  }

  /**
   `addOrReplaceInterceptor(name, interceptor)` on the builder's own map:
   afterwards a lookup of `name` answers exactly `interceptor` (`null` meaning
   absent) and every other name answers as before. A replaced name keeps its
   position, a new name goes last, and removing an absent name changes nothing.
   */
  function AddOrReplaceInterceptor(h: Heap, b: Ref, name: string, interceptor: Option<Interceptor>): (r: Heap)
    requires Valid(h) && b in h.builders
    ensures Valid(r) && r.builders == h.builders && r.arrays == h.arrays
    ensures View(r, b).interceptors == LinkedMap.PutOrRemove(View(h, b).interceptors, name, interceptor)
    ensures LinkedMap.Get(View(r, b).interceptors, name) == interceptor
    ensures forall n :: n != name ==> LinkedMap.Get(View(r, b).interceptors, n) == LinkedMap.Get(View(h, b).interceptors, n)
    ensures SameExcept(View(h, b), View(r, b), InterceptorsField)
    ensures forall c :: c in h.builders && c != b ==> View(r, c) == View(h, c)
  {
    var m := h.builders[b].interceptors;
    h.(maps := h.maps[m := LinkedMap.PutOrRemove(h.maps[m], name, interceptor)])
  }

  /**
   `copyTo(copy)`: `copy` takes every field of this builder. The interceptor map
   is a fresh `LinkedHashMap` holding the same entries in the same order; the
   `SSLContext` and the `TlsVersion[]` array are the same objects as the source's.
   */
  function CopyTo(h: Heap, src: Ref, dst: Ref): (r: Heap)
    requires Valid(h) && src in h.builders && dst in h.builders
    ensures Valid(r) && r.builders.Keys == h.builders.Keys && r.arrays == h.arrays
    ensures View(r, dst) == View(h, src)
    ensures r.builders[dst].interceptors !in h.maps
    ensures r.builders[dst].tlsVersions == h.builders[src].tlsVersions
    ensures r.builders[dst].sslContext == h.builders[src].sslContext
  {
    CopiedIsValid(h, src, dst);
    Copied(h, src, dst)
  }

  /** The heap after `copyTo`: `dst` takes `src`'s fields and a new map, at the next free address, with `src`'s entries. */
  function Copied(h: Heap, src: Ref, dst: Ref): Heap
    requires Valid(h) && src in h.builders && dst in h.builders
  {
    var f := h.builders[src];
    Heap(h.builders[dst := f.(interceptors := h.next)], h.maps[h.next := h.maps[f.interceptors]], h.arrays, h.next + 1)
  }

  lemma CopiedIsValid(h: Heap, src: Ref, dst: Ref)
    requires Valid(h) && src in h.builders && dst in h.builders
    ensures Valid(Copied(h, src, dst))
  {
    var r := Copied(h, src, dst);
    forall b, c | b in r.builders && c in r.builders && b != c
      ensures r.builders[b].interceptors != r.builders[c].interceptors
    {
      assert h.builders[src].interceptors < h.next;
      if b != dst && c != dst {
        assert r.builders[b] == h.builders[b] && r.builders[c] == h.builders[c];
      }
    }
  }

  /** `copyTo` writes only the copy: every other builder, the source included, shows what it did before. */
  lemma CopyToLeavesOthers(h: Heap, src: Ref, dst: Ref)
    requires Valid(h) && src in h.builders && dst in h.builders
    ensures forall c :: c in h.builders && c != dst ==> View(CopyTo(h, src, dst), c) == View(h, c)
  {
    var r := CopyTo(h, src, dst);
    forall c | c in h.builders && c != dst
      ensures View(r, c) == View(h, c)
    {
      assert r.builders[c] == h.builders[c];
      assert h.builders[c].interceptors < h.next;
    }
  }

  /** A caller writing new contents into an array it owns, such as one it passed to `tlsVersions`. */
  function WriteArray(h: Heap, a: Ref, contents: seq<TlsVersion>): (r: Heap)
    requires Valid(h) && a in h.arrays
    ensures Valid(r) && r.builders == h.builders && r.maps == h.maps
    ensures r.arrays == h.arrays[a := contents]
  {
    h.(arrays := h.arrays[a := contents])
  }

  /**
   One call of the `HttpClient.Builder` interface, with its arguments. The
   Vert.x builder has its own copy of this type, because there `tlsVersions`
   is read at once instead of being kept as an array reference.
   */
  datatype Setter =
    | SetReadTimeout(timeout: Long, unit: TimeUnit)
    | SetConnectTimeout(timeout: Long, unit: TimeUnit)
    | SetForStreaming
    | SetWriteTimeout(timeout: Long, unit: TimeUnit)
    | SetInterceptor(name: string, interceptor: Option<Interceptor>)
    | SetAuthenticatorNone
    | SetSsl(keyManagers: Option<seq<KeyManager>>, trustManagers: Option<seq<TrustManager>>)
    | SetFollowAllRedirects
    | SetProxyAddress(address: Option<SocketAddress>)
    | SetProxyAuthorization(credentials: Option<string>)
    | SetPreferHttp11
    | SetTlsVersions(versions: Option<Ref>)

  /** The one field each setter writes. */
  function FieldOf(s: Setter): Field {
    match s
    case SetReadTimeout(_, _) => ReadTimeoutField
    case SetConnectTimeout(_, _) => ConnectTimeoutField
    case SetForStreaming => ForStreamingField
    case SetWriteTimeout(_, _) => WriteTimeoutField
    case SetInterceptor(_, _) => InterceptorsField
    case SetAuthenticatorNone => AuthenticatorNoneField
    case SetSsl(_, _) => SslContextField
    case SetFollowAllRedirects => FollowRedirectsField
    case SetProxyAddress(_) => ProxyAddressField
    case SetProxyAuthorization(_) => ProxyAuthorizationField
    case SetPreferHttp11 => PreferHttp11Field
    case SetTlsVersions(_) => TlsVersionsField
  }

  /** A setter's arguments refer only to objects that exist. */
  predicate Applicable(h: Heap, s: Setter) {
    s.SetTlsVersions? && s.versions.Some? ==> s.versions.value in h.arrays
  }

  /** The assignment to its own field that a setter other than `addOrReplaceInterceptor` performs. */
  function Assign(f: Fields, s: Setter): (g: Fields)
    requires !s.SetInterceptor?
    ensures g.interceptors == f.interceptors
    ensures g.tlsVersions == if s.SetTlsVersions? then s.versions else f.tlsVersions
    ensures f.forStreaming ==> g.forStreaming
    ensures f.authenticatorNone ==> g.authenticatorNone
    ensures f.followRedirects ==> g.followRedirects
    ensures f.preferHttp11 ==> g.preferHttp11
  {
    match s
    case SetReadTimeout(t, u) => f.(readTimeout := if t == 0 then None else Some(Duration(ToNanos(t, u))))
    case SetConnectTimeout(t, u) => f.(connectTimeout := Some(Duration(ToNanos(t, u))))
    case SetForStreaming => f.(forStreaming := true)
    case SetWriteTimeout(t, u) => f.(writeTimeout := if t == 0 then None else Some(Duration(ToNanos(t, u))))
    case SetAuthenticatorNone => f.(authenticatorNone := true)
    case SetSsl(k, t) => f.(sslContext := Some(SslContextOf(k, t)))
    case SetFollowAllRedirects => f.(followRedirects := true)
    case SetProxyAddress(a) => f.(proxyAddress := a)
    case SetProxyAuthorization(c) => f.(proxyAuthorization := c)
    case SetPreferHttp11 => f.(preferHttp11 := true)
    case SetTlsVersions(v) => f.(tlsVersions := v)
  }

  /** On any heap, the assignment a setter performs shows only in its own field. */
  lemma AssignChangesOnlyItsField(h: Heap, f: Fields, s: Setter)
    requires !s.SetInterceptor? && f.interceptors in h.maps
    requires f.tlsVersions.Some? ==> f.tlsVersions.value in h.arrays
    requires Applicable(h, s)
    ensures SameExcept(ViewOf(h, f), ViewOf(h, Assign(f, s)), FieldOf(s))
  {
    if s.SetReadTimeout? || s.SetConnectTimeout? || s.SetWriteTimeout? || s.SetSsl? {
      AssignTimeoutOrSsl(h, f, s);
    } else if s.SetForStreaming? || s.SetAuthenticatorNone? || s.SetFollowAllRedirects? || s.SetPreferHttp11? {
      AssignFlag(h, f, s);
    } else {
      AssignProxyOrTls(h, f, s);
    }
  }

  lemma AssignTimeoutOrSsl(h: Heap, f: Fields, s: Setter)
    requires s.SetReadTimeout? || s.SetConnectTimeout? || s.SetWriteTimeout? || s.SetSsl?
    requires f.interceptors in h.maps && (f.tlsVersions.Some? ==> f.tlsVersions.value in h.arrays)
    ensures SameExcept(ViewOf(h, f), ViewOf(h, Assign(f, s)), FieldOf(s))
  {
    var c, d := ViewOf(h, f), ViewOf(h, Assign(f, s));
    match s
    case SetReadTimeout(_, _) => assert Forget(c, ReadTimeoutField) == Forget(d, ReadTimeoutField);
    case SetConnectTimeout(_, _) => assert Forget(c, ConnectTimeoutField) == Forget(d, ConnectTimeoutField);
    case SetWriteTimeout(_, _) => assert Forget(c, WriteTimeoutField) == Forget(d, WriteTimeoutField);
    case SetSsl(_, _) => assert Forget(c, SslContextField) == Forget(d, SslContextField);
  }

  lemma AssignFlag(h: Heap, f: Fields, s: Setter)
    requires s.SetForStreaming? || s.SetAuthenticatorNone? || s.SetFollowAllRedirects? || s.SetPreferHttp11?
    requires f.interceptors in h.maps && (f.tlsVersions.Some? ==> f.tlsVersions.value in h.arrays)
    ensures SameExcept(ViewOf(h, f), ViewOf(h, Assign(f, s)), FieldOf(s))
  {
    var c, d := ViewOf(h, f), ViewOf(h, Assign(f, s));
    match s
    case SetForStreaming => assert Forget(c, ForStreamingField) == Forget(d, ForStreamingField);
    case SetAuthenticatorNone => assert Forget(c, AuthenticatorNoneField) == Forget(d, AuthenticatorNoneField);
    case SetFollowAllRedirects => assert Forget(c, FollowRedirectsField) == Forget(d, FollowRedirectsField);
    case SetPreferHttp11 => assert Forget(c, PreferHttp11Field) == Forget(d, PreferHttp11Field);
  }

  lemma AssignProxyOrTls(h: Heap, f: Fields, s: Setter)
    requires s.SetProxyAddress? || s.SetProxyAuthorization? || s.SetTlsVersions?
    requires f.interceptors in h.maps && (f.tlsVersions.Some? ==> f.tlsVersions.value in h.arrays)
    requires Applicable(h, s)
    ensures SameExcept(ViewOf(h, f), ViewOf(h, Assign(f, s)), FieldOf(s))
  {
    var c, d := ViewOf(h, f), ViewOf(h, Assign(f, s));
    match s
    case SetProxyAddress(_) => assert Forget(c, ProxyAddressField) == Forget(d, ProxyAddressField);
    case SetProxyAuthorization(_) => assert Forget(c, ProxyAuthorizationField) == Forget(d, ProxyAuthorizationField);
    case SetTlsVersions(_) => assert Forget(c, TlsVersionsField) == Forget(d, TlsVersionsField);
  }

  /** Storing that assignment into builder `b` shows, in `b`'s view, only in the setter's own field. */
  lemma StoreChangesOnlyItsField(h: Heap, b: Ref, s: Setter, k: Field)
    requires Valid(h) && b in h.builders && !s.SetInterceptor? && Applicable(h, s) && k == FieldOf(s)
    ensures SameExcept(View(h, b), View(Store(h, b, Assign(h.builders[b], s)), b), k)
  {
    AssignChangesOnlyItsField(h, h.builders[b], s);
  }

  /** Calls setter `s` on builder `b`; the call returns `b` itself. */
  function Apply(h: Heap, b: Ref, s: Setter): (r: Heap)
    requires Valid(h) && b in h.builders && Applicable(h, s)
    ensures Valid(r) && r.builders.Keys == h.builders.Keys && r.arrays == h.arrays
  {
    if s.SetInterceptor? then AddOrReplaceInterceptor(h, b, s.name, s.interceptor)
    else Store(h, b, Assign(h.builders[b], s))
  }

  /** Each setter writes its own field of its own builder and nothing else. */
  lemma SetterChangesOnlyItsField(h: Heap, b: Ref, s: Setter)
    requires Valid(h) && b in h.builders && Applicable(h, s)
    ensures SameExcept(View(h, b), View(Apply(h, b, s), b), FieldOf(s))
    ensures forall c :: c in h.builders && c != b ==> View(Apply(h, b, s), c) == View(h, c)
  {
    if s.SetReadTimeout? || s.SetConnectTimeout? || s.SetWriteTimeout? {
      TimeoutSetterChangesOnlyItsField(h, b, s);
    } else if s.SetForStreaming? || s.SetAuthenticatorNone? || s.SetFollowAllRedirects? || s.SetPreferHttp11? {
      FlagSetterChangesOnlyItsField(h, b, s);
    } else if s.SetSsl? || s.SetProxyAddress? || s.SetProxyAuthorization? || s.SetTlsVersions? {
      ValueSetterChangesOnlyItsField(h, b, s);
    } else {
      assert Apply(h, b, s) == AddOrReplaceInterceptor(h, b, s.name, s.interceptor);
    }
  }

  lemma TimeoutSetterChangesOnlyItsField(h: Heap, b: Ref, s: Setter)
    requires Valid(h) && b in h.builders && Applicable(h, s)
    requires s.SetReadTimeout? || s.SetConnectTimeout? || s.SetWriteTimeout?
    ensures SameExcept(View(h, b), View(Apply(h, b, s), b), FieldOf(s))
    ensures forall c :: c in h.builders && c != b ==> View(Apply(h, b, s), c) == View(h, c)
  {
    AssignChangesOnlyItsField(h, h.builders[b], s);
  }

  lemma FlagSetterChangesOnlyItsField(h: Heap, b: Ref, s: Setter)
    requires Valid(h) && b in h.builders && Applicable(h, s)
    requires s.SetForStreaming? || s.SetAuthenticatorNone? || s.SetFollowAllRedirects? || s.SetPreferHttp11?
    ensures SameExcept(View(h, b), View(Apply(h, b, s), b), FieldOf(s))
    ensures forall c :: c in h.builders && c != b ==> View(Apply(h, b, s), c) == View(h, c)
  {
    AssignChangesOnlyItsField(h, h.builders[b], s);
  }

  lemma ValueSetterChangesOnlyItsField(h: Heap, b: Ref, s: Setter)
    requires Valid(h) && b in h.builders && Applicable(h, s)
    requires s.SetSsl? || s.SetProxyAddress? || s.SetProxyAuthorization? || s.SetTlsVersions?
    ensures SameExcept(View(h, b), View(Apply(h, b, s), b), FieldOf(s))
    ensures forall c :: c in h.builders && c != b ==> View(Apply(h, b, s), c) == View(h, c)
  {
    AssignChangesOnlyItsField(h, h.builders[b], s);
  }

  /** No setter resets a flag: once true, each of the four flags stays true. */
  lemma SettersNeverClearFlags(h: Heap, b: Ref, s: Setter)
    requires Valid(h) && b in h.builders && Applicable(h, s)
    ensures var before, after := View(h, b), View(Apply(h, b, s), b);
            && (before.forStreaming ==> after.forStreaming)
            && (before.authenticatorNone ==> after.authenticatorNone)
            && (before.followRedirects ==> after.followRedirects)
            && (before.preferHttp11 ==> after.preferHttp11)
  {
    if s.SetInterceptor? {
      assert Forget(View(h, b), InterceptorsField) == Forget(View(Apply(h, b, s), b), InterceptorsField);
    }
  }

  /** Calling any setter twice with the same arguments leaves the heap as calling it once. */
  lemma SettersIdempotent(h: Heap, b: Ref, s: Setter)
    requires Valid(h) && b in h.builders && Applicable(h, s)
    ensures Apply(Apply(h, b, s), b, s) == Apply(h, b, s)
  {
    if s.SetInterceptor? {
      var once := Apply(h, b, s);
      var m := h.builders[b].interceptors;
      LinkedMap.PutOrRemoveIdempotent(h.maps[m], s.name, s.interceptor);
      assert once.maps[m := once.maps[m]] == once.maps;
    } else {
      ScalarSetterIdempotent(h, b, s);
    }
  }

  lemma ScalarSetterIdempotent(h: Heap, b: Ref, s: Setter)
    requires Valid(h) && b in h.builders && Applicable(h, s) && !s.SetInterceptor?
    ensures Apply(Apply(h, b, s), b, s) == Apply(h, b, s)
  {
    var once := Apply(h, b, s);
    var f := h.builders[b];
    assert once == h.(builders := h.builders[b := Assign(f, s)]);
    AssignIdempotent(f, s);
    assert once.builders[b := Assign(Assign(f, s), s)] == once.builders;
  }

  lemma AssignIdempotent(f: Fields, s: Setter)
    requires !s.SetInterceptor?
    ensures Assign(Assign(f, s), s) == Assign(f, s)
  {
    match s
    case SetReadTimeout(_, _) =>
    case SetConnectTimeout(_, _) =>
    case SetForStreaming =>
    case SetWriteTimeout(_, _) =>
    case SetAuthenticatorNone =>
    case SetSsl(_, _) =>
    case SetFollowAllRedirects =>
    case SetProxyAddress(_) =>
    case SetProxyAuthorization(_) =>
    case SetPreferHttp11 =>
    case SetTlsVersions(_) =>
  }

  /**
   After `copyTo`, source and copy are independent: any setter on either one
   leaves the other's configuration as it was, interceptors included.
   */
  lemma CopiesAreIsolated(h: Heap, src: Ref, dst: Ref, s: Setter)
    requires Valid(h) && src in h.builders && dst in h.builders && src != dst && Applicable(h, s)
    ensures var copied := CopyTo(h, src, dst);
            && View(Apply(copied, dst, s), src) == View(h, src)
            && View(Apply(copied, src, s), dst) == View(h, src)
  {
    var copied := CopyTo(h, src, dst);
    CopyToLeavesOthers(h, src, dst);
    SetterChangesOnlyItsField(copied, dst, s);
    SetterChangesOnlyItsField(copied, src, s);
  }

  /**
   The `TlsVersion[]` array, by contrast, is shared: when the caller later
   writes into the array it gave the source, the copy sees the new contents too.
   */
  lemma CopySharesTlsVersionsArray(h: Heap, src: Ref, dst: Ref, contents: seq<TlsVersion>)
    requires Valid(h) && src in h.builders && dst in h.builders && h.builders[src].tlsVersions.Some?
    ensures var a := h.builders[src].tlsVersions.value;
            var written := WriteArray(CopyTo(h, src, dst), a, contents);
            && View(written, dst).tlsVersions == Some(contents)
            && View(written, src).tlsVersions == Some(contents)
  {
  }
}
