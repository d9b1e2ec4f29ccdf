/**
 Values that cross the backend-neutral `HttpClient.Builder` interface. Key and
 trust managers, interceptors and socket addresses are opaque handles: the
 builders store or wrap them but never look inside.
 */
module HttpApi {

  /** A `javax.net.ssl.KeyManager`; only whether it is an `X509KeyManager` matters here. */
  datatype KeyManager = X509KeyManager(id: nat) | OtherKeyManager(id: nat)

  /** A `javax.net.ssl.TrustManager`. */
  datatype TrustManager = TrustManager(id: nat)

  /** A request/response interceptor; its behaviour is out of scope. */
  datatype Interceptor = Interceptor(id: nat)

  /** A `java.net.InetSocketAddress`. */
  datatype SocketAddress = SocketAddress(host: string, port: nat)

  /** The client's TLS protocol versions. */
  datatype TlsVersion = TLS_1_3 | TLS_1_2 | TLS_1_1 | TLS_1_0 | SSL_3_0

  /** `TlsVersion.javaName()`: the protocol name the JSSE uses. */
  function JavaName(v: TlsVersion): string {
    match v
    case TLS_1_3 => "TLSv1.3"
    case TLS_1_2 => "TLSv1.2"
    case TLS_1_1 => "TLSv1.1"
    case TLS_1_0 => "TLSv1"
    case SSL_3_0 => "SSLv3"
  }

  /** Distinct versions have distinct names, so a list of versions maps to a list of names one to one. */
  lemma JavaNameInjective(v: TlsVersion, w: TlsVersion)
    ensures JavaName(v) == JavaName(w) ==> v == w
  {
  }
}
