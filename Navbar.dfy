/** The navigation bar: which page is showing, the subscriber and organizer state read
    from the user's profile, and the buttons that need a login. */
module Navbar {
  import opened Common
  import opened Text
  import opened Json
  import opened Session
  import Interceptor

  const MeUrl: string := Interceptor.ApiBase + "/utilisateurs/me"

  /** A navigation: the path and the `returnUrl` query parameter, if any. */
  datatype Nav = Nav(path: string, returnUrl: Option<string>)

  /** The URL of a `NavigationEnd`: `urlAfterRedirects || url`. */
  function NavigatedUrl(urlAfterRedirects: string, url: string): string {
    if urlAfterRedirects != "" then urlAfterRedirects else url
  }

  /** The role `loadMe` keeps from a profile: `me?.role || 'user'`. */
  function RoleOf(me: Json): (r: Json)
    ensures Truthy(r)
    ensures Get(me, "role").Some? && Truthy(Get(me, "role").value) ==> r == Get(me, "role").value
  {
    var role := Get(me, "role");
    if role.Some? && Truthy(role.value) then role.value else JStr("user")
  }

  /** A profile without a role, or with an empty one, is a plain user. */
  lemma RoleDefault(me: Json)
    requires Get(me, "role").None? || Get(me, "role") == Some(JStr(""))
    ensures RoleOf(me) == JStr("user")
  {
  }

  /** `!!me?.is_abonne`. */
  predicate Subscribed(me: Json) {
    Get(me, "is_abonne").Some? && Truthy(Get(me, "is_abonne").value)
  }

  /** The request of `loadMe`: a GET of the profile with the token's bearer header. */
  function MeRequest(token: Json): Interceptor.Request {
    Interceptor.Request("GET", MeUrl, map["Authorization" := Bearer(token)], None)
  }

  /** The interceptor finds the same token and leaves the header `loadMe` sets as it is. */
  lemma MeRequestIntercepted(ls: Storage)
    requires TruthyToken(TokenOf(ls))
    ensures Interceptor.Intercept(MeRequest(TokenOf(ls).value), ls) == MeRequest(TokenOf(ls).value)
  {
    Interceptor.InterceptorTokenAgrees(ls);
    var req := MeRequest(TokenOf(ls).value);
    var base := Interceptor.ApiBase;
    var rest := "/utilisateurs/me";
    assert (base + rest)[..|base|] == base;
    assert Interceptor.NeedsAuth(req.url);
    assert req.headers["Authorization" := "Bearer " + JsString(TokenOf(ls).value)] == req.headers;
  }

  class NavbarComponent {
    const auth: AuthService
    var isLoggedIn: bool
    var isHomePage: bool
    var isEventList: bool
    var showCenterCTA: bool
    var isAbonne: bool
    var userRole: Option<Json>
    var isOrganizer: bool

    /** The link in the centre shows everywhere but on the event list. */
    predicate RouteConsistent()
      reads this
    {
      showCenterCTA == !isEventList
    }

    /** The organizer flag agrees with the stored role. */
    predicate RoleConsistent()
      reads this
    {
      isOrganizer <==> userRole == Some(JStr("organizer"))
    }

    /** The state of a logged-out user, or of one whose profile could not be read. */
    predicate Anonymous()
      reads this
    {
      !isAbonne && userRole.None? && !isOrganizer
    }

    constructor (auth: AuthService)
      ensures this.auth == auth && !isLoggedIn && !isHomePage && !isEventList && showCenterCTA
      ensures Anonymous() && RouteConsistent() && RoleConsistent()
    {
      this.auth := auth;
      isLoggedIn := false;
      isHomePage := false;
      isEventList := false;
      showCenterCTA := true;
      isAbonne := false;
      userRole := None;
      isOrganizer := false;
    }

    method Reset()
      modifies this`isAbonne, this`userRole, this`isOrganizer
      ensures Anonymous() && RoleConsistent()
    {
      isAbonne := false;
      userRole := None;
      isOrganizer := false;
    }

    /** The route flags for `url`. */
    method ShowRoute(url: string)
      modifies this`isHomePage, this`isEventList, this`showCenterCTA
      ensures isHomePage <==> url == "/"
      ensures isEventList <==> StartsWith(url, "/event-list")
      ensures RouteConsistent()
    {
      isHomePage := url == "/";
      isEventList := StartsWith(url, "/event-list");
      showCenterCTA := !isEventList;
    }

    /** A `NavigationEnd` event. */
    method OnNavigationEnd(urlAfterRedirects: string, url: string)
      modifies this`isHomePage, this`isEventList, this`showCenterCTA
      ensures isHomePage <==> NavigatedUrl(urlAfterRedirects, url) == "/"
      ensures isEventList <==> StartsWith(NavigatedUrl(urlAfterRedirects, url), "/event-list")
      ensures RouteConsistent()
    {
      ShowRoute(NavigatedUrl(urlAfterRedirects, url));
    }

    /** `loadMe`: without a truthy token the state is anonymous and nothing is sent;
        otherwise the profile is requested. */
    method LoadMe() returns (request: Option<Interceptor.Request>)
      modifies this`isAbonne, this`userRole, this`isOrganizer
      ensures request.None? <==> !TruthyToken(auth.GetToken())
      ensures request.None? ==> Anonymous() && RoleConsistent()
      ensures request.Some? ==> (request.value == MeRequest(auth.GetToken().value)
        && isAbonne == old(isAbonne) && userRole == old(userRole) && isOrganizer == old(isOrganizer))
    {
      var token := auth.GetToken();
      if !TruthyToken(token) {
        Reset();
        return None;
      }
      request := Some(MeRequest(token.value));
    }

    /** The profile arrived: the subscription flag, the role (`user` by default), and the
        organizer flag exactly for the role `organizer`. */
    method OnMe(me: Json)
      modifies this`isAbonne, this`userRole, this`isOrganizer
      ensures isAbonne <==> Subscribed(me)
      ensures userRole == Some(RoleOf(me))
      ensures isOrganizer <==> RoleOf(me) == JStr("organizer")
      ensures RoleConsistent()
    {
      isAbonne := Subscribed(me);
      userRole := Some(RoleOf(me));
      isOrganizer := userRole == Some(JStr("organizer"));
    }

    method OnMeError()
      modifies this`isAbonne, this`userRole, this`isOrganizer
      ensures Anonymous() && RoleConsistent()
    {
      Reset();
    }

    /** A value of the logged-in subject: logged in, the profile is loaded; logged out,
        the state is anonymous. */
    method OnLoginStatus(status: bool) returns (request: Option<Interceptor.Request>)
      modifies this`isLoggedIn, this`isAbonne, this`userRole, this`isOrganizer
      ensures isLoggedIn == status
      ensures !status ==> Anonymous() && RoleConsistent() && request.None?
      ensures status ==> (request.None? <==> !TruthyToken(auth.GetToken()))
      ensures request.None? ==> Anonymous() && RoleConsistent()
      ensures status && request.Some? ==> request.value == MeRequest(auth.GetToken().value)
    {
      isLoggedIn := status;
      if status {
        request := LoadMe();
      } else {
        Reset();
        request := None;
      }
    }

    /** `ngOnInit`: the subject replays its current value at once, the route flags are set
        from the router's URL, and a stored user counts as logged in and loads the profile
        again. The requests are returned in the order they are sent. */
    method OnInit(routerUrl: string) returns (requests: seq<Interceptor.Request>)
      modifies this`isLoggedIn, this`isAbonne, this`userRole, this`isOrganizer
      modifies this`isHomePage, this`isEventList, this`showCenterCTA
      ensures isHomePage <==> routerUrl == "/"
      ensures isEventList <==> StartsWith(routerUrl, "/event-list")
      ensures RouteConsistent()
      ensures isLoggedIn <==> auth.loggedIn || auth.GetUser().Some?
      ensures !TruthyToken(auth.GetToken()) ==> requests == [] && Anonymous()
      ensures TruthyToken(auth.GetToken()) ==>
        requests == (if auth.loggedIn then [MeRequest(auth.GetToken().value)] else [])
                    + (if auth.GetUser().Some? then [MeRequest(auth.GetToken().value)] else [])
    {
      var first := OnLoginStatus(auth.loggedIn);
      requests := if first.Some? then [first.value] else [];
      ShowRoute(routerUrl);
      if auth.GetUser().Some? {
        isLoggedIn := true;
        var again := LoadMe();
        if again.Some? {
          requests := requests + [again.value];
        }
      }
    }

    /** A button that needs a login: logged out, to the login page with the target as
        `returnUrl`; logged in, to the target. */
    function Guarded(target: string): (n: Nav)
      reads this
      ensures n.returnUrl.Some? <==> !isLoggedIn
      ensures n.returnUrl.Some? ==> n.path == "/login" && n.returnUrl.value == target
      ensures n.returnUrl.None? ==> n.path == target
    {
      if !isLoggedIn then Nav("/login", Some(target)) else Nav(target, None)
    }

    /** `goAgenda`. */
    method GoAgenda() returns (n: Nav)
      ensures n == Guarded("/mes-participations")
    {
      n := Guarded("/mes-participations");
    }

    /** `goBecomeOrganizer`. */
    method GoBecomeOrganizer() returns (n: Nav)
      ensures n == Guarded("/devenir-organisateur")
    {
      n := Guarded("/devenir-organisateur");
    }

    method GoHome() returns (n: Nav)
      ensures n == Nav("/", None)
    {
      n := Nav("/", None);
    }

    method GoOrganize() returns (n: Nav)
      ensures n == Nav("/organizer", None)
    {
      n := Nav("/organizer", None);
    }

    /** `logout`: the session is cleared, the `false` the service emits reaches the
        subscription of `ngOnInit`, the state is anonymous, and the bar goes home. */
    method Logout() returns (n: Nav)
      modifies auth, this`isLoggedIn, this`isAbonne, this`userRole, this`isOrganizer
      ensures auth.storage == LoggedOutStorage(old(auth.storage)) && !auth.loggedIn
      ensures auth.emitted == old(auth.emitted) + [false]
      ensures !isLoggedIn && Anonymous() && RoleConsistent() && n == Nav("/", None)
    {
      auth.Logout();
      var request := OnLoginStatus(false);
      Reset();
      n := Nav("/", None);
    }
  }
}
