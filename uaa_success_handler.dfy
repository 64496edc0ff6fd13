/** UAA's `UaaSavedRequestAwareAuthenticationSuccessHandler`: after a
    successful login, where to send the user. An override attribute set on
    the request comes first, then a form redirect parameter whose host is
    the server's own, and the inherited saved-request target last. */
module UaaSuccessHandler {
  import opened JavaLang

  /** The session attribute the inherited handler keeps the saved request in. */
  const SavedRequestSessionAttribute := "SPRING_SECURITY_SAVED_REQUEST"

  /** The request attribute that overrides every other target. */
  const UriOverrideAttribute := "override.redirect_uri"

  /** The form parameter naming a redirect target. */
  const FormRedirectParameter := "form_redirect_uri"

  /** A request attribute's value: a `String`, or an object of another class. */
  datatype AttributeValue = StringValue(text: string) | OtherValue

  /** The parts of an `HttpServletRequest` the handler reads. An attribute
      or parameter missing from its map is null. */
  datatype Request = Request(
    attributes: map<string, AttributeValue>,
    parameters: map<string, string>,
    serverName: string)

  /** What `new URL(u).getHost()` gives: the host, or None when the URL is
      malformed (a MalformedURLException). The URL grammar is not part of
      this model. */
  type HostParser = string -> Option<string>

  /** `request.getAttribute(name)`, null when absent. */
  function Attribute(req: Request, name: string): (r: Option<AttributeValue>)
    ensures r.Some? <==> name in req.attributes
    ensures r.Some? ==> r.value == req.attributes[name]
  {
    if name in req.attributes then Some(req.attributes[name]) else None
  }

  /** `request.getParameter(name)`, null when absent. */
  function Parameter(req: Request, name: string): (r: Option<string>)
    ensures r.Some? <==> name in req.parameters
    ensures r.Some? ==> r.value == req.parameters[name]
  {
    if name in req.parameters then Some(req.parameters[name]) else None
  }

  /** `isApprovedFormRedirectUri(request, redirectUri)`: a null URI is not
      approved, a malformed one is not approved, and a well-formed one is
      approved exactly when its host is the request's server name. */
  function IsApprovedFormRedirectUri(req: Request, redirectUri: Option<string>, host: HostParser): (r: bool)
    ensures redirectUri.None? ==> !r
    ensures redirectUri.Some? && host(redirectUri.value).None? ==> !r
    ensures redirectUri.Some? && host(redirectUri.value).Some? ==>
              (r <==> req.serverName == host(redirectUri.value).value)
  {
    match redirectUri
    case None => false
    case Some(uri) =>
      match host(uri)
      case None => false
      case Some(h) => req.serverName == h
  }

  /** `determineTargetUrl(request, response)`; `inherited` is what the
      superclass's `determineTargetUrl` answers for the request. The cast of
      a non-String override attribute throws a ClassCastException. */
  function DetermineTargetUrl(req: Request, host: HostParser, inherited: string): (r: Result<string>)
    ensures r.Thrown? <==> Attribute(req, UriOverrideAttribute) == Some(OtherValue)
    ensures r.Thrown? ==> r.exception == ClassCastException
    ensures Attribute(req, UriOverrideAttribute).Some? && Attribute(req, UriOverrideAttribute).value.StringValue? ==>
              r == Ok(Attribute(req, UriOverrideAttribute).value.text)
    ensures Attribute(req, UriOverrideAttribute).None? ==>
              r == Ok(if IsApprovedFormRedirectUri(req, Parameter(req, FormRedirectParameter), host)
                      then Parameter(req, FormRedirectParameter).value else inherited)
  {
    var redirectAttribute := Attribute(req, UriOverrideAttribute);
    var redirectFormParam := Parameter(req, FormRedirectParameter);
    if redirectAttribute.Some? then
      match redirectAttribute.value
      case StringValue(s) => Ok(s)
      case OtherValue => Thrown(ClassCastException)
    else if IsApprovedFormRedirectUri(req, redirectFormParam, host) then
      Ok(redirectFormParam.value)
    else
      Ok(inherited)
  }

  /** A set override attribute decides the result whatever the form
      parameters, the host parser and the inherited target are. */
  lemma OverrideIgnoresForm(req: Request, parameters: map<string, string>, host1: HostParser, host2: HostParser,
                            inherited1: string, inherited2: string)
    requires UriOverrideAttribute in req.attributes
    ensures DetermineTargetUrl(req, host1, inherited1) ==
            DetermineTargetUrl(req.(parameters := parameters), host2, inherited2)
  {
  }

  /** Without an override, the form parameter is the result only when its
      host is the server's own; any other successful outcome is the
      inherited target. */
  lemma FormTargetNeedsOwnHost(req: Request, host: HostParser, inherited: string)
    requires UriOverrideAttribute !in req.attributes
    ensures var r := DetermineTargetUrl(req, host, inherited);
            r.Ok? &&
            (r.value != inherited ==>
               FormRedirectParameter in req.parameters && r.value == req.parameters[FormRedirectParameter] &&
               host(r.value) == Some(req.serverName))
  {
  }

  /** A malformed or foreign form URL falls through to the inherited target,
      and so does a missing one. */
  lemma UnapprovedFallsThrough(req: Request, host: HostParser, inherited: string)
    requires UriOverrideAttribute !in req.attributes
    requires FormRedirectParameter in req.parameters ==>
               host(req.parameters[FormRedirectParameter]) != Some(req.serverName)
    ensures DetermineTargetUrl(req, host, inherited) == Ok(inherited)
  {
  }

  /** An approved form parameter is returned as it is. */
  lemma ApprovedFormReturned(req: Request, host: HostParser, inherited: string)
    requires UriOverrideAttribute !in req.attributes
    requires FormRedirectParameter in req.parameters
    requires host(req.parameters[FormRedirectParameter]) == Some(req.serverName)
    ensures DetermineTargetUrl(req, host, inherited) == Ok(req.parameters[FormRedirectParameter])
  {
  }
}
