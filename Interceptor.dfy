/** The HTTP interceptor: requests to the API get an `Authorization: Bearer <token>` header
    when a token is stored; every other request passes through untouched. */
module Interceptor {
  import opened Common
  import opened Text
  import opened Json
  import opened Session

  const ApiBase: string := "https://fastapi-cultureradar.onrender.com"

  /** The relative paths that are also API calls. */
  const RelPrefixes: seq<string> := ["/evenements", "/utilisateurs", "/me", "/organizer"]

  /** An outgoing request; only `headers` can be changed by the interceptor. */
  datatype Request = Request(verb: string, url: string, headers: map<string, string>, body: Option<Json>)

  /** The interceptor's own token lookup: the `token` item first, then the `token`
      property of `JSON.parse(auth || '{}')`, null on a parse failure or a missing token. */
  function InterceptorToken(ls: Storage): Option<Json> {
    if HasItem(ls, "token") then Some(JStr(ls["token"]))
    else
      var raw := if HasItem(ls, "auth") then ls["auth"] else "{}";
      match Parse(raw)
      case Some(v) => NonNull(Get(v, "token"))
      case None => None
  }

  /** The interceptor and `AuthService.getToken` always find the same token. */
  lemma InterceptorTokenAgrees(ls: Storage)
    ensures InterceptorToken(ls) == TokenOf(ls)
  {
    if !HasItem(ls, "token") && !HasItem(ls, "auth") {
      var empty := JObj([]);
      assert Stringify(empty) == "{}";
      ParseStringify(empty);
    }
  }

  /** A URL needs the header when it starts with the API base or one of the relative prefixes. */
  predicate NeedsAuth(url: string) {
    StartsWith(url, ApiBase) || exists i :: 0 <= i < |RelPrefixes| && StartsWith(url, RelPrefixes[i])
  }

  /** The request handed on to the next handler. */
  function Intercept(req: Request, ls: Storage): (r: Request)
    ensures r.verb == req.verb && r.url == req.url && r.body == req.body
    ensures forall h :: h in req.headers && h != "Authorization" ==> h in r.headers && r.headers[h] == req.headers[h]
    ensures forall h :: h in r.headers && h != "Authorization" ==> h in req.headers
    ensures r != req ==> (NeedsAuth(req.url) && InterceptorToken(ls).Some? && Truthy(InterceptorToken(ls).value)
                          && "Authorization" in r.headers
                          && r.headers["Authorization"] == "Bearer " + JsString(InterceptorToken(ls).value))
  {
    if !NeedsAuth(req.url) then req
    else
      var token := InterceptorToken(ls);
      if token.None? || !Truthy(token.value) then req
      else req.(headers := req.headers["Authorization" := "Bearer " + JsString(token.value)])
  }

  /** The only change the interceptor makes is the bearer header, and it makes it exactly
      for API requests sent with a truthy token. */
  lemma InterceptAdds(req: Request, ls: Storage)
    requires NeedsAuth(req.url) && InterceptorToken(ls).Some? && Truthy(InterceptorToken(ls).value)
    ensures Intercept(req, ls).headers
         == req.headers["Authorization" := "Bearer " + JsString(InterceptorToken(ls).value)]
  {
  }

  /** Requests outside the API, and any request when no token is stored, pass unchanged. */
  lemma InterceptPasses(req: Request, ls: Storage)
    requires !NeedsAuth(req.url) || InterceptorToken(ls).None? || !Truthy(InterceptorToken(ls).value)
    ensures Intercept(req, ls) == req
  {
  }

  /** After a login with a non-empty token every API request carries that token. */
  lemma ApiRequestAfterLogin(req: Request, ls: Storage, token: string, user: Json)
    requires NeedsAuth(req.url) && token != ""
    requires !user.JNull? && WellFormed(user)
    ensures Intercept(req, LoggedInStorage(ls, token, user)).headers
         == req.headers["Authorization" := "Bearer " + token]
  {
    TokenAfterLogin(ls, token, user);
    RequestWithToken(req, LoggedInStorage(ls, token, user), token);
  }

  /** A stored non-empty token goes into the header of every API request. */
  lemma RequestWithToken(req: Request, ls: Storage, token: string)
    requires NeedsAuth(req.url) && token != "" && TokenOf(ls) == Some(JStr(token))
    ensures Intercept(req, ls).headers == req.headers["Authorization" := "Bearer " + token]
  {
    InterceptorTokenAgrees(ls);
  }

  /** After logout no request is changed. */
  lemma RequestAfterLogout(req: Request, ls: Storage)
    ensures Intercept(req, LoggedOutStorage(ls)) == req
  {
    LoggedOutGetters(ls);
    InterceptorTokenAgrees(LoggedOutStorage(ls));
  }

  /** Absolute API URLs always need the header; so does any relative path beginning with
      `/me`, which includes `/me/participations` and also, as a plain prefix test,
      paths such as `/media`. A static asset does not. */
  lemma NeedsAuthExamples()
    ensures NeedsAuth(ApiBase + "/me/participations")
    ensures NeedsAuth("/me/participations") && NeedsAuth("/media")
    ensures !NeedsAuth("/assets/Concert.jpg")
  {
    assert StartsWith("/me/participations", RelPrefixes[2]);
    assert StartsWith("/media", RelPrefixes[2]);
    var u := "/assets/Concert.jpg";
    assert u[0] == '/' && u[1] == 'a';
    assert ApiBase[0] == 'h';
    assert |ApiBase| > |u|;
    forall i | 0 <= i < |RelPrefixes|
      ensures !StartsWith(u, RelPrefixes[i])
    {
      var p := RelPrefixes[i];
      assert |p| >= 2 && p[1] != 'a' by {
        if i == 0 {} else if i == 1 {} else if i == 2 {} else {}
      }
      assert |p| <= |u| ==> u[..|p|][1] == 'a';
    }
  }
}
