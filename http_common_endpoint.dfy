/** Camel's `HttpCommonEndpoint`: the option defaults of an HTTP endpoint,
    the path and port it derives from its URI, and the binding it creates
    lazily from its own options the first time one is asked for. */
module HttpCommonEndpoint {
  import opened JavaLang

  /** The parts of a `java.net.URI` the endpoint reads: the scheme and the
      path (either may be null) and the port (-1 when absent). */
  datatype Uri = Uri(scheme: Option<string>, path: Option<string>, port: int)

  /** A `HeaderFilterStrategy`; only its identity matters here. */
  class HeaderFilterStrategy {
    constructor () {}
  }

  /** An `HttpBinding` and the three options the endpoint copies into it. */
  class HttpBinding {
    var headerFilterStrategy: HeaderFilterStrategy?
    var transferException: bool
    var eagerCheckContentAvailable: bool

    /** `new DefaultHttpBinding()`. */
    constructor ()
      ensures headerFilterStrategy == null && !transferException && !eagerCheckContentAvailable
    {
      headerFilterStrategy := null;
      transferException := false;
      eagerCheckContentAvailable := false;
    }
  }

  /** The path used when the URI path is empty. */
  const DefaultPath := "/"

  /** The default port for "https". */
  const HttpsPort := 443

  /** The default port for every other scheme. */
  const HttpPort := 80

  class Endpoint {
    var httpUri: Uri
    var headerFilterStrategy: HeaderFilterStrategy
    var binding: HttpBinding?
    var throwExceptionOnFailure: bool
    var bridgeEndpoint: bool
    var matchOnUriPrefix: bool
    var chunked: bool
    var disableStreamCache: bool
    var transferException: bool
    var traceEnabled: bool
    var ignoreResponseBody: bool
    var copyHeaders: bool
    var eagerCheckContentAvailable: bool
    var okStatusCodeRange: string

    /** `new HttpCommonEndpoint(endpointUri, component, httpUri)`: the field
        initializers, then the URI. */
    constructor (httpUri: Uri)
      ensures this.httpUri == httpUri && fresh(headerFilterStrategy) && binding == null
      ensures throwExceptionOnFailure && chunked && copyHeaders
      ensures !bridgeEndpoint && !matchOnUriPrefix && !disableStreamCache && !transferException
      ensures !traceEnabled && !ignoreResponseBody && !eagerCheckContentAvailable
      ensures okStatusCodeRange == "200-299"
    {
      this.httpUri := httpUri;
      headerFilterStrategy := new HeaderFilterStrategy();
      binding := null;
      throwExceptionOnFailure := true;
      bridgeEndpoint := false;
      matchOnUriPrefix := false;
      chunked := true;
      disableStreamCache := false;
      transferException := false;
      traceEnabled := false;
      ignoreResponseBody := false;
      copyHeaders := true;
      eagerCheckContentAvailable := false;
      okStatusCodeRange := "200-299";
    }

    /** `getPath()`: "/" for an empty path, the path otherwise, and a
        NullPointerException for a URI without a path. */
    function Path(): (r: Result<string>)
      reads this
      ensures httpUri.path.None? <==> r == Thrown(NullPointerException)
      ensures r.Ok? ==> r.value != []
      ensures httpUri.path == Some([]) ==> r == Ok(DefaultPath)
      ensures r.Ok? && httpUri.path.value != [] ==> r.value == httpUri.path.value
    {
      match httpUri.path
      case None => Thrown(NullPointerException)
      case Some(p) => if |p| == 0 then Ok(DefaultPath) else Ok(p)
    }

    /** `getPort()`: the URI's port when it has one, else the default port
        of the scheme: 443 for "https", 80 for any other or no scheme. */
    function Port(): (r: int)
      reads this
      ensures httpUri.port != -1 ==> r == httpUri.port
      ensures httpUri.port == -1 && httpUri.scheme == Some("https") ==> r == HttpsPort
      ensures httpUri.port == -1 && httpUri.scheme != Some("https") ==> r == HttpPort
    {
      if httpUri.port == -1 then
        if httpUri.scheme == Some("https") then HttpsPort else HttpPort
      else httpUri.port
    }

    /** `getBinding()`: the first call without a binding creates one from
        the endpoint's header filter strategy, `transferException` and
        `eagerCheckContentAvailable`; otherwise the existing binding. */
    method GetBinding() returns (b: HttpBinding)
      modifies this`binding
      ensures binding == b
      ensures old(binding) != null ==> b == old(binding)
      ensures old(binding) == null ==>
                fresh(b) && b.headerFilterStrategy == headerFilterStrategy &&
                b.transferException == transferException && b.eagerCheckContentAvailable == eagerCheckContentAvailable
    {
      if binding == null {
        var created := new HttpBinding();
        created.headerFilterStrategy := headerFilterStrategy;
        created.transferException := transferException;
        created.eagerCheckContentAvailable := eagerCheckContentAvailable;
        binding := created;
      }
      b := binding;
    }

    /** `setBinding(b)`. */
    method SetBinding(b: HttpBinding?)
      modifies this`binding
      ensures binding == b
    {
      binding := b;
    }

    /** `setTransferException(v)`: a binding created before keeps its copy. */
    method SetTransferException(v: bool)
      modifies this`transferException
      ensures transferException == v
    {
      transferException := v;
    }

    /** Two `getBinding()` calls in a row return the same object, whose
        options are the endpoint's at the time of the first call. */
    method GetBindingTwice() returns (b1: HttpBinding, b2: HttpBinding)
      modifies this`binding
      ensures b1 == b2 && binding == b1
      ensures old(binding) == null ==> fresh(b1) && b1.transferException == transferException
    {
      b1 := GetBinding();
      b2 := GetBinding();
    }

    /** A setting changed after the binding exists does not reach it. */
    method CopiedAtCreation(v: bool) returns (b: HttpBinding)
      requires binding == null
      modifies this`binding, this`transferException
      ensures fresh(b) && binding == b && b.transferException == old(transferException)
      ensures transferException == v
    {
      b := GetBinding();
      SetTransferException(v);
    }
  }

  /** The port `getPort()` derives is a valid TCP port whenever the URI's
      own port is absent or valid. */
  lemma PortIsValid(e: Endpoint)
    requires e.httpUri.port == -1 || 0 <= e.httpUri.port <= 65535
    ensures 0 <= e.Port() <= 65535
  {
  }
}
