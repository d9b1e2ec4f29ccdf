/**
 The Vert.x backend's client builder. It keeps no options of its own: every
 setter either throws `UnsupportedOperationException`, returns without doing
 anything, or writes into a Vert.x `HttpClientOptions` object. Those objects are
 shared by reference between a builder and the client it builds, so they live
 on a heap addressed by `Ref`; only the fields this builder writes are modelled.
 */
module VertxClientBuilder {
  import opened JavaLang
  import opened TimeUnits
  import opened HttpApi

  /** An address of an `HttpClientOptions` object; a separate heap from the JDK builders'. */
  type Ref = nat

  datatype HttpVersion = HTTP_1_0 | HTTP_1_1 | HTTP_2

  /** `TrustOptions.wrap(manager)`. */
  datatype TrustOptions = WrappedTrustManager(manager: TrustManager)

  /** `KeyCertOptions.wrap(manager)`, which takes an `X509KeyManager`. */
  datatype KeyCertOptions = WrappedKeyManager(manager: KeyManager)

  /** The fields of a Vert.x `HttpClientOptions` that the builder writes. */
  datatype ClientOptions = ClientOptions(
    connectTimeout: Int,
    trustOptions: Option<TrustOptions>,
    keyCertOptions: Option<KeyCertOptions>,
    enabledCipherSuites: seq<string>,
    protocolVersion: HttpVersion)

  /** `HttpClientOptions` objects and the next free address. */
  datatype Heap = Heap(options: map<Ref, ClientOptions>, next: Ref)

  predicate Valid(h: Heap) {
    forall r :: r in h.options ==> r < h.next
  }

  /** A builder is a handle on one options object; so is a built client. */
  datatype Builder = Builder(options: Ref)
  datatype Client = Client(options: Ref)

  predicate NoDuplicates(s: seq<string>) {
    forall i, j :: 0 <= i < j < |s| ==> s[i] != s[j]
  }

  /**
   `addEnabledCipherSuite` for each name in turn. The suites form an
   insertion-ordered set: a name already present is not added again.
   */
  function AddCipherSuites(suites: seq<string>, names: seq<string>): (r: seq<string>)
    ensures |r| >= |suites| && r[..|suites|] == suites
    decreases |names|
  {
    if names == [] then suites
    else
      var once := if names[0] in suites then suites else suites + [names[0]];
      var r := AddCipherSuites(once, names[1..]);
      assert r[..|suites|] == r[..|once|][..|suites|];
      r
  }

  /** Afterwards the suites are exactly the old ones and the added names. */
  lemma {:induction false} AddCipherSuitesMembers(suites: seq<string>, names: seq<string>)
    ensures forall x :: x in AddCipherSuites(suites, names) <==> x in suites || x in names
    decreases |names|
  {
    if names != [] {
      var once := if names[0] in suites then suites else suites + [names[0]];
      AddCipherSuitesMembers(once, names[1..]);
      assert forall x :: x in names <==> x == names[0] || x in names[1..];
    }
  }

  /** Adding to a set of suites keeps it a set. */
  lemma {:induction false} AddCipherSuitesNoDuplicates(suites: seq<string>, names: seq<string>)
    requires NoDuplicates(suites)
    ensures NoDuplicates(AddCipherSuites(suites, names))
    decreases |names|
  {
    if names != [] {
      var once := if names[0] in suites then suites else suites + [names[0]];
      AddCipherSuitesNoDuplicates(once, names[1..]);
    }
  }

  /** Names that are new and pairwise distinct are appended in the order given. */
  lemma {:induction false} AddCipherSuitesAppendsNew(suites: seq<string>, names: seq<string>)
    requires NoDuplicates(names)
    requires forall x :: x in names ==> x !in suites
    ensures AddCipherSuites(suites, names) == suites + names
    decreases |names|
  {
    if names != [] {
      var once := suites + [names[0]];
      assert names[0] !in suites by {
        assert names[0] in names;
      }
      AppendedTailStaysNew(suites, names);
      AddCipherSuitesAppendsNew(once, names[1..]);
      assert once + names[1..] == suites + names;
    }
  }

  /** After the first name is appended, the remaining names are still new and distinct. */
  lemma AppendedTailStaysNew(suites: seq<string>, names: seq<string>)
    requires names != [] && NoDuplicates(names)
    requires forall x :: x in names ==> x !in suites
    ensures NoDuplicates(names[1..])
    ensures forall x :: x in names[1..] ==> x !in suites + [names[0]]
  {
    forall x | x in names[1..]
      ensures x !in suites + [names[0]]
    {
      var i :| 0 <= i < |names[1..]| && names[1..][i] == x;
      assert names[i + 1] == x;
      assert x in names;
    }
    forall i, j | 0 <= i < j < |names[1..]|
      ensures names[1..][i] != names[1..][j]
    {
      assert names[1..][i] == names[i + 1] && names[1..][j] == names[j + 1];
    }
  }

  /** Names that are all present already add nothing. */
  lemma {:induction false} AddCipherSuitesPresent(suites: seq<string>, names: seq<string>)
    requires forall x :: x in names ==> x in suites
    ensures AddCipherSuites(suites, names) == suites
    decreases |names|
  {
    if names != [] {
      assert names[0] in names;
      assert forall x :: x in names[1..] ==> x in names;
      AddCipherSuitesPresent(suites, names[1..]);
    }
  }

  /**
   The names of `names` that `suites` does not hold, each at its first
   occurrence, in the order given.
   */
  function FirstNew(suites: seq<string>, names: seq<string>): (r: seq<string>)
    decreases |names|
  {
    if names == [] then []
    else
      var init, last := names[..|names| - 1], names[|names| - 1];
      FirstNew(suites, init) + (if last in suites || last in init then [] else [last])
  }

  /** Adding one more name appends it unless it is already enabled. */
  lemma {:induction false} AddCipherSuitesSnoc(suites: seq<string>, names: seq<string>, x: string)
    ensures var a := AddCipherSuites(suites, names);
            AddCipherSuites(suites, names + [x]) == if x in a then a else a + [x]
    decreases |names|
  {
    if names == [] {
      assert names + [x] == [x];
    } else {
      var once := if names[0] in suites then suites else suites + [names[0]];
      assert (names + [x])[0] == names[0];
      assert (names + [x])[1..] == names[1..] + [x];
      AddCipherSuitesSnoc(once, names[1..], x);
    }
  }

  /**
   For any names, repeats and enabled ones included, the enabled suites grow by
   exactly the new names, each at its first occurrence, in the order given.
   */
  lemma {:induction false} AddCipherSuitesKeepsFirstNew(suites: seq<string>, names: seq<string>)
    ensures AddCipherSuites(suites, names) == suites + FirstNew(suites, names)
    decreases |names|
  {
    if names != [] {
      var init, last := names[..|names| - 1], names[|names| - 1];
      assert names == init + [last];
      AddCipherSuitesSnoc(suites, init, last);
      AddCipherSuitesKeepsFirstNew(suites, init);
      AddCipherSuitesMembers(suites, init);
    }
  }

  /** The names of the versions, in array order. */
  function VersionNames(versions: seq<TlsVersion>): (names: seq<string>)
    ensures |names| == |versions|
    ensures forall i :: 0 <= i < |versions| ==> names[i] == JavaName(versions[i])
  {
    seq(|versions|, i requires 0 <= i < |versions| => JavaName(versions[i]))
  }

  /** Replaces the options object `o`. */
  function Write(h: Heap, o: Ref, opts: ClientOptions): (r: Heap)
    requires Valid(h) && o in h.options
    ensures Valid(r) && r.next == h.next && r.options.Keys == h.options.Keys
    ensures r.options[o] == opts
    ensures forall p :: p in h.options && p != o ==> r.options[p] == h.options[p]
  {
    h.(options := h.options[o := opts])
  }

  /**
   `connectTimeout(l, unit)`: the duration in whole milliseconds (truncated
   toward zero, saturated to a `long`), then narrowed to an `int`. Nothing else
   changes.
   */
  function ConnectTimeout(h: Heap, b: Builder, l: Long, unit: TimeUnit): (r: Heap)
    requires Valid(h) && b.options in h.options
    ensures Valid(r) && r.next == h.next && r.options.Keys == h.options.Keys
    ensures r.options[b.options] ==
              h.options[b.options].(connectTimeout := Int32Cast(Saturate(TruncDiv(l * NanosPer(unit), NanosPerMilli))))
    ensures forall p :: p in h.options && p != b.options ==> r.options[p] == h.options[p]
  {
    var o := h.options[b.options];
    Write(h, b.options, o.(connectTimeout := Int32Cast(ToMillis(l, unit))))
  }

  /**
   `sslContext(keyManagers, trustManagers)`: wraps the first trust manager, then
   the first key manager, each only when its array is non-empty. A `null` array
   throws `NullPointerException` and a first key manager that is not an
   `X509KeyManager` throws `ClassCastException`; an exception on the key array
   comes after the trust options were already written.
   */
  function SslContext(h: Heap, b: Builder, keyManagers: Option<seq<KeyManager>>, trustManagers: Option<seq<TrustManager>>): (r: Call<Heap>)
    requires Valid(h) && b.options in h.options
    ensures Valid(r.state) && r.state.next == h.next && r.state.options.Keys == h.options.Keys
    ensures forall p :: p in h.options && p != b.options ==> r.state.options[p] == h.options[p]
    ensures trustManagers.None? ==> r == Threw(h, NullPointer)
    ensures trustManagers.Some? ==>
              var before, after := h.options[b.options], r.state.options[b.options];
              && after.trustOptions == (if |trustManagers.value| > 0 then Some(WrappedTrustManager(trustManagers.value[0])) else before.trustOptions)
              && after.connectTimeout == before.connectTimeout
              && after.enabledCipherSuites == before.enabledCipherSuites
              && after.protocolVersion == before.protocolVersion
              && (keyManagers.None? ==> r.Threw? && r.error == NullPointer && after.keyCertOptions == before.keyCertOptions)
              && (keyManagers.Some? && |keyManagers.value| > 0 && keyManagers.value[0].OtherKeyManager? ==>
                    r.Threw? && r.error == ClassCast && after.keyCertOptions == before.keyCertOptions)
              && (keyManagers.Some? && |keyManagers.value| == 0 ==> r.Returned? && after.keyCertOptions == before.keyCertOptions)
              && (keyManagers.Some? && |keyManagers.value| > 0 && keyManagers.value[0].X509KeyManager? ==>
                    r.Returned? && after.keyCertOptions == Some(WrappedKeyManager(keyManagers.value[0])))
  {
    if trustManagers.None? then Threw(h, NullPointer)
    else
      var o := h.options[b.options];
      var trusted := if |trustManagers.value| > 0 then Write(h, b.options, o.(trustOptions := Some(WrappedTrustManager(trustManagers.value[0])))) else h;
      if keyManagers.None? then Threw(trusted, NullPointer)
      else if |keyManagers.value| == 0 then Returned(trusted)
      else if keyManagers.value[0].OtherKeyManager? then Threw(trusted, ClassCast)
      else
        var o' := trusted.options[b.options];
        Returned(Write(trusted, b.options, o'.(keyCertOptions := Some(WrappedKeyManager(keyManagers.value[0])))))
  }

  /**
   `tlsVersions(versions)`: a `null` or empty array changes nothing; otherwise
   each version's Java name is added to the enabled cipher suites, in array order.
   */
  function TlsVersions(h: Heap, b: Builder, versions: Option<seq<TlsVersion>>): (r: Heap)
    requires Valid(h) && b.options in h.options
    ensures Valid(r) && r.next == h.next && r.options.Keys == h.options.Keys
    ensures forall p :: p in h.options && p != b.options ==> r.options[p] == h.options[p]
    ensures versions.None? || versions.value == [] ==> r == h
    ensures versions.Some? && versions.value != [] ==>
              var before, after := h.options[b.options], r.options[b.options];
              && after == before.(enabledCipherSuites := after.enabledCipherSuites)
              && |after.enabledCipherSuites| >= |before.enabledCipherSuites|
              && after.enabledCipherSuites[..|before.enabledCipherSuites|] == before.enabledCipherSuites
              && (forall x :: x in after.enabledCipherSuites <==> x in before.enabledCipherSuites || exists v :: v in versions.value && x == JavaName(v))
  {
    if versions.None? || versions.value == [] then h
    else
      var o := h.options[b.options];
      var names := VersionNames(versions.value);
      assert forall x :: x in names <==> exists v :: v in versions.value && x == JavaName(v) by {
        forall x | x in names
          ensures exists v :: v in versions.value && x == JavaName(v)
        {
          var i :| 0 <= i < |names| && names[i] == x;
          assert versions.value[i] in versions.value;
        }
        forall x | exists v :: v in versions.value && x == JavaName(v)
          ensures x in names
        {
          var v :| v in versions.value && x == JavaName(v);
          var i :| 0 <= i < |versions.value| && versions.value[i] == v;
          assert names[i] == x;
        }
      }
      AddCipherSuitesMembers(o.enabledCipherSuites, names);
      Write(h, b.options, o.(enabledCipherSuites := AddCipherSuites(o.enabledCipherSuites, names)))
  }

  /** `preferHttp11()`: selects HTTP/1.1. */
  function PreferHttp11(h: Heap, b: Builder): (r: Heap)
    requires Valid(h) && b.options in h.options
    ensures Valid(r) && r.next == h.next && r.options.Keys == h.options.Keys
    ensures r.options[b.options].protocolVersion == HTTP_1_1
    ensures r.options[b.options] == h.options[b.options].(protocolVersion := HTTP_1_1)
    ensures forall p :: p in h.options && p != b.options ==> r.options[p] == h.options[p]
  {
    Write(h, b.options, h.options[b.options].(protocolVersion := HTTP_1_1))
  }

  /**
   One call of the `HttpClient.Builder` interface, with its arguments. It differs
   from the JDK builder's type in `tlsVersions`, whose array is read at once
   here and so is passed by contents rather than by reference.
   */
  datatype Setter =
    | SetReadTimeout(timeout: Long, unit: TimeUnit)
    | SetConnectTimeout(timeout: Long, unit: TimeUnit)
    | SetForStreaming
    | SetWriteTimeout(timeout: Long, unit: TimeUnit)
    | SetInterceptor(name: string, interceptor: Option<Interceptor>)
    | SetAuthenticatorNone
    | SetSsl(keyManagers: Option<seq<KeyManager>>, trustManagers: Option<seq<TrustManager>>)
    | SetFollowAllRedirects
    | SetProxyAddress(address: Option<SocketAddress>)
    | SetProxyAuthorization(credentials: Option<string>)
    | SetPreferHttp11
    | SetTlsVersions(versions: Option<seq<TlsVersion>>)

  /** How this backend treats an option. */
  datatype Capability = Unsupported | Ignored | Applied

  /** The capability table of the Vert.x builder. */
  function CapabilityOf(s: Setter): Capability {
    match s
    case SetReadTimeout(_, _) => Unsupported
    case SetInterceptor(_, _) => Unsupported
    case SetProxyAddress(_) => Unsupported
    case SetProxyAuthorization(_) => Unsupported
    case SetForStreaming => Ignored
    case SetWriteTimeout(_, _) => Ignored
    case SetAuthenticatorNone => Ignored
    case SetFollowAllRedirects => Ignored
    case SetConnectTimeout(_, _) => Applied
    case SetSsl(_, _) => Applied
    case SetTlsVersions(_) => Applied
    case SetPreferHttp11 => Applied
  }

  /**
   Calls setter `s` on builder `b`. Exactly the unsupported options throw
   `UnsupportedOperationException`, and they do so before touching anything; the
   ignored options return with nothing changed; the applied ones write only the
   builder's own options object.
   */
  function Apply(h: Heap, b: Builder, s: Setter): (r: Call<Heap>)
    requires Valid(h) && b.options in h.options
    ensures Valid(r.state) && r.state.next == h.next && r.state.options.Keys == h.options.Keys
    ensures forall p :: p in h.options && p != b.options ==> r.state.options[p] == h.options[p]
    ensures CapabilityOf(s) == Unsupported <==> r == Threw(h, UnsupportedOperation)
    ensures CapabilityOf(s) == Ignored ==> r == Returned(h)
    ensures r.Threw? && r.error == UnsupportedOperation ==> CapabilityOf(s) == Unsupported
  {
    match s
    case SetReadTimeout(_, _) => Threw(h, UnsupportedOperation)
    case SetConnectTimeout(l, u) => Returned(ConnectTimeout(h, b, l, u))
    case SetForStreaming => Returned(h)
    case SetWriteTimeout(_, _) => Returned(h)
    case SetInterceptor(_, _) => Threw(h, UnsupportedOperation)
    case SetAuthenticatorNone => Returned(h)
    case SetSsl(k, t) => SslContext(h, b, k, t)
    case SetFollowAllRedirects => Returned(h)
    case SetProxyAddress(_) => Threw(h, UnsupportedOperation)
    case SetProxyAuthorization(_) => Threw(h, UnsupportedOperation)
    case SetPreferHttp11 => Returned(PreferHttp11(h, b))
    case SetTlsVersions(v) => Returned(TlsVersions(h, b, v))
  }

  /** The factory's `newBuilder()`: a builder over a new options object holding `defaults`, Vert.x's initial options. */
  function NewBuilder(h: Heap, defaults: ClientOptions): (r: (Heap, Builder))
    requires Valid(h)
    ensures Valid(r.0) && r.1.options !in h.options
    ensures r.0.options == h.options[r.1.options := defaults]
  {
    (Heap(h.options[h.next := defaults], h.next + 1), Builder(h.next))
  }

  /** `build()`: the client's `options` field is the builder's own options object, not a copy of it. */
  function Build(b: Builder): (c: Client)
    ensures c.options == b.options
  {
    Client(b.options)
  }

  /** `createHttpClient(config)`: a new builder, built at once; the configuration argument is not consulted. */
  function CreateHttpClient(h: Heap, defaults: ClientOptions): (r: (Heap, Client))
    requires Valid(h)
    ensures Valid(r.0) && r.1.options !in h.options
    ensures r.0.options == h.options[r.1.options := defaults]
  {
    var (h', b) := NewBuilder(h, defaults);
    (h', Build(b))
  }

  /** A client's `newBuilder()`: a builder over a fresh copy of the client's options. */
  function DeriveBuilder(h: Heap, c: Client): (r: (Heap, Builder))
    requires Valid(h) && c.options in h.options
    ensures Valid(r.0) && r.1.options !in h.options && r.1.options != c.options
    ensures r.0.options == h.options[r.1.options := h.options[c.options]]
  {
    (Heap(h.options[h.next := h.options[c.options]], h.next + 1), Builder(h.next))
  }

  /** Whatever is set on a derived builder, the client it came from keeps its options. */
  lemma DerivedBuilderIsolated(h: Heap, c: Client, s: Setter)
    requires Valid(h) && c.options in h.options
    ensures var (h', b) := DeriveBuilder(h, c);
            Apply(h', b, s).state.options[c.options] == h.options[c.options]
  {
  }

  /**
   The converse does not hold for `build()`: the builder and the client it built
   share one options object, so a setter called on the builder afterwards shows
   up in the client's `options` field, and so in every builder the client
   derives later.
   */
  lemma BuildSharesOptions(h: Heap, b: Builder)
    requires Valid(h) && b.options in h.options && h.options[b.options].protocolVersion == HTTP_2
    ensures var c := Build(b);
            var h' := Apply(h, b, SetPreferHttp11).state;
            && h.options[c.options].protocolVersion == HTTP_2
            && h'.options[c.options].protocolVersion == HTTP_1_1
            && DeriveBuilder(h', c).0.options[DeriveBuilder(h', c).1.options].protocolVersion == HTTP_1_1
  {
  }

  /** In milliseconds and within the `int` range the timeout is stored as given. */
  lemma ConnectTimeoutInMillis(h: Heap, b: Builder, l: Long)
    requires Valid(h) && b.options in h.options && MinInt <= l <= MaxInt
    ensures ConnectTimeout(h, b, l, MILLISECONDS).options[b.options].connectTimeout == l
  {
  }

  /**
   The narrowing to `int` wraps: 25 days is 2 160 000 000 ms, the first whole
   number of days that does not fit in an `int`, and `setConnectTimeout` is
   handed -2 134 967 296. Vert.x's `setConnectTimeout` rejects a negative
   timeout with `IllegalArgumentException`, so there the call fails instead of
   storing this value; the model stores it.
   */
  lemma ConnectTimeoutWrapsAround(h: Heap, b: Builder)
    requires Valid(h) && b.options in h.options
    ensures ConnectTimeout(h, b, 25, DAYS).options[b.options].connectTimeout == -2_134_967_296
  {
    var ms := Saturate(TruncDiv(25 * NanosPer(DAYS), NanosPerMilli));
    assert ms == 2_160_000_000;
    var r := Int32Cast(ms);
    assert (ms as int - r as int) % 0x1_0000_0000 == 0;
  }

  /** Only the first element of each array is read. */
  lemma SslContextReadsFirstElementsOnly(h: Heap, b: Builder, k1: seq<KeyManager>, k2: seq<KeyManager>, t1: seq<TrustManager>, t2: seq<TrustManager>)
    requires Valid(h) && b.options in h.options
    requires |k1| > 0 <==> |k2| > 0
    requires |k1| > 0 ==> k1[0] == k2[0]
    requires |t1| > 0 <==> |t2| > 0
    requires |t1| > 0 ==> t1[0] == t2[0]
    ensures SslContext(h, b, Some(k1), Some(t1)) == SslContext(h, b, Some(k2), Some(t2))
  {
  }

  /**
   Versions that are pairwise distinct and whose names are not enabled yet end
   up at the end of the enabled suites, in array order.
   */
  lemma TlsVersionsAppendInOrder(h: Heap, b: Builder, versions: seq<TlsVersion>)
    requires Valid(h) && b.options in h.options
    requires forall i, j :: 0 <= i < j < |versions| ==> versions[i] != versions[j]
    requires forall v :: v in versions ==> JavaName(v) !in h.options[b.options].enabledCipherSuites
    ensures TlsVersions(h, b, Some(versions)).options[b.options].enabledCipherSuites ==
              h.options[b.options].enabledCipherSuites + VersionNames(versions)
  {
    var names := VersionNames(versions);
    forall i, j | 0 <= i < j < |names|
      ensures names[i] != names[j]
    {
      JavaNameInjective(versions[i], versions[j]);
    }
    forall x | x in names
      ensures x !in h.options[b.options].enabledCipherSuites
    {
      var i :| 0 <= i < |names| && names[i] == x;
      assert versions[i] in versions;
    }
    AddCipherSuitesAppendsNew(h.options[b.options].enabledCipherSuites, names);
  }

  /**
   For any array, the enabled suites grow by the versions' names that are not
   enabled yet, each once, in the order of their first occurrence.
   */
  lemma TlsVersionsAppendFirstNew(h: Heap, b: Builder, versions: seq<TlsVersion>)
    requires Valid(h) && b.options in h.options
    ensures TlsVersions(h, b, Some(versions)).options[b.options].enabledCipherSuites ==
              h.options[b.options].enabledCipherSuites + FirstNew(h.options[b.options].enabledCipherSuites, VersionNames(versions))
  {
    AddCipherSuitesKeepsFirstNew(h.options[b.options].enabledCipherSuites, VersionNames(versions));
  }

  /** Calling an applied setter a second time with the same arguments changes nothing more. */
  lemma {:induction false} AppliedSettersIdempotent(h: Heap, b: Builder, s: Setter)
    requires Valid(h) && b.options in h.options
    requires Apply(h, b, s).Returned?
    ensures Apply(Apply(h, b, s).state, b, s) == Apply(h, b, s)
  {
    var h1 := Apply(h, b, s).state;
    match s
    case SetTlsVersions(v) =>
      if v.Some? && v.value != [] {
        var names := VersionNames(v.value);
        var suites := h.options[b.options].enabledCipherSuites;
        AddCipherSuitesMembers(suites, names);
        AddCipherSuitesPresent(AddCipherSuites(suites, names), names);
        assert h1.options[b.options] == h1.options[b.options].(enabledCipherSuites := AddCipherSuites(AddCipherSuites(suites, names), names));
        assert h1.options[b.options := h1.options[b.options]] == h1.options;
      }
    case SetConnectTimeout(_, _) =>
      assert h1.options[b.options := h1.options[b.options]] == h1.options;
    case SetPreferHttp11 =>
      assert h1.options[b.options := h1.options[b.options]] == h1.options;
    case SetSsl(k, t) =>
      assert h1.options[b.options := h1.options[b.options]] == h1.options;
    case _ =>
  }
}
