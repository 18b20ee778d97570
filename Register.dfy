/** The sign-up page: the checks that enable the button and gate the request, the body it
    posts, and the automatic login that follows a created account. */
module Register {
  import opened Common
  import opened Text
  import opened Json
  import opened Session
  import opened Days
  import Interceptor

  /** The form. `age` is the number input, null when empty. */
  datatype SignUp = SignUp(
    nom: string,
    email: string,
    password: string,
    age: Option<int>,
    preferredSlot: Option<string>,
    availableDays: seq<string>,
    mobility: Option<string>)

  const EmptySignUp: SignUp := SignUp("", "", "", None, None, [], None)

  const UsersUrl: string := Interceptor.ApiBase + "/utilisateurs"
  const LoginUrl: string := Interceptor.ApiBase + "/login"

  // ---------------------------------------------------------------------------
  // Validation

  /** A character of `[^\s@]`. */
  predicate EmailChar(c: char) {
    !IsSpace(c) && c != '@'
  }

  /** `s[a..b]` is a match of `[^\s@]+`. */
  predicate WordAt(s: string, a: int, b: int) {
    0 <= a < b <= |s| && forall i :: a <= i < b ==> EmailChar(s[i])
  }

  /** `s` matches the address pattern with its `@` at `at` and the dot the pattern uses at
      `dot`. */
  predicate EmailSplit(s: string, at: int, dot: int) {
    0 < at && at + 1 < dot < |s| - 1 && s[at] == '@' && s[dot] == '.'
    && WordAt(s, 0, at) && WordAt(s, at + 1, dot) && WordAt(s, dot + 1, |s|)
  }

  /** `/^[^\s@]+@[^\s@]+\.[^\s@]+$/.test(s)`: a word, `@`, a word, a dot, a word. The
      words may hold dots, so any dot after the second character past `@` can be the one
      the pattern uses. */
  predicate EmailOk(s: string) {
    exists at, dot | 0 < at < dot < |s| :: EmailSplit(s, at, dot)
  }

  /** `/[A-Z]/.test(p)`. */
  predicate HasUppercase(p: string) {
    exists i :: 0 <= i < |p| && 'A' <= p[i] <= 'Z'
  }

  /** The password rule: an uppercase letter and a JavaScript `length` of at least 8, so
      a character above U+FFFF counts twice. */
  predicate PasswordOk(p: string) {
    HasUppercase(p) && JsLength(p) >= 8
  }

  /** `Abcdef😀` passes: its seven characters are eight UTF-16 units. */
  lemma PasswordOkEmoji()
    ensures |"Abcdef\U{1F600}"| == 7 && PasswordOk("Abcdef\U{1F600}")
  {
    JsLengthEmoji();
    assert 'A' <= "Abcdef\U{1F600}"[0] <= 'Z';
  }

  /** An accepted address has no white space and exactly one `@`. */
  lemma EmailOkShape(s: string)
    requires EmailOk(s)
    ensures forall i :: 0 <= i < |s| ==> !IsSpace(s[i])
    ensures exists at :: 0 < at < |s| - 1 && s[at] == '@' && forall j :: 0 <= j < |s| && s[j] == '@' ==> j == at
  {
    var at, dot :| 0 < at < dot < |s| && EmailSplit(s, at, dot);
    forall j | 0 <= j < |s| && j != at
      ensures EmailChar(s[j])
    {
      if j == dot {
        assert s[j] == '.';
      } else if j < at {
        assert WordAt(s, 0, at);
      } else if j < dot {
        assert WordAt(s, at + 1, dot);
      } else {
        assert WordAt(s, dot + 1, |s|);
      }
    }
  }

  /** Examples of the pattern: an address with a dotted domain passes; one without a dot
      after `@`, or with a space, does not. */
  lemma EmailOkExamples()
    ensures EmailOk("a@b.c")
    ensures !EmailOk("a@b")
    ensures !EmailOk("a b@c.d")
  {
    assert EmailSplit("a@b.c", 1, 3);
    var s := "a b@c.d";
    if EmailOk(s) {
      EmailOkShape(s);
      assert IsSpace(s[1]);
      assert false;
    }
  }

  /** Lower-casing an accepted address keeps it accepted, so the address sent is one the
      pattern accepts. */
  lemma EmailOkLower(s: string)
    requires EmailOk(s)
    ensures EmailOk(ToLower(s))
  {
    var at, dot :| 0 < at < dot < |s| && EmailSplit(s, at, dot);
    WordAtLower(s, 0, at);
    WordAtLower(s, at + 1, dot);
    WordAtLower(s, dot + 1, |s|);
    LowerSeparators();
    assert EmailSplit(ToLower(s), at, dot);
  }

  lemma WordAtLower(s: string, a: int, b: int)
    requires WordAt(s, a, b)
    ensures WordAt(ToLower(s), a, b)
  {
    var t := ToLower(s);
    forall i | a <= i < b
      ensures EmailChar(t[i])
    {
      LowerEmailChar(s[i]);
    }
  }

  /** Lower-casing turns no character into white space or `@`. */
  lemma LowerEmailChar(c: char)
    requires EmailChar(c)
    ensures EmailChar(LowerChar(c))
  {
  }

  lemma LowerSeparators()
    ensures LowerChar('@') == '@' && LowerChar('.') == '.'
  {
  }

  // ---------------------------------------------------------------------------
  // The body of the sign-up request

  /** The members every body has: the trimmed name, the trimmed lower-cased address and
      the password. */
  function Required(u: SignUp): seq<Field> {
    With(With(With([], "nom", Some(JStr(Trim(u.nom)))), "email", Some(JStr(ToLower(Trim(u.email))))), "mot_de_passe", Some(JStr(u.password)))
  }

  function AgeMember(u: SignUp): Option<Json> {
    if u.age.Some? then Some(JNum(IntToString(u.age.value))) else None
  }

  function SlotMember(u: SignUp): Option<Json> {
    if u.preferredSlot.Some? && u.preferredSlot.value != [] then Some(JStr(u.preferredSlot.value)) else None
  }

  function DaysMember(u: SignUp): Option<Json> {
    if |u.availableDays| > 0 then Some(JArr(Strings(u.availableDays))) else None
  }

  function MobilityMember(u: SignUp): Option<Json> {
    if u.mobility.Some? && u.mobility.value != [] then Some(JStr(u.mobility.value)) else None
  }

  /** `payload`: the required members, then each optional field that is set (a number
      age, a truthy slot or mobility, a non-empty day list). */
  function SignUpPayload(u: SignUp): Json {
    JObj(With(With(With(With(Required(u), "age", AgeMember(u)), "preferred_slot", SlotMember(u)), "available_days", DaysMember(u)), "mobility", MobilityMember(u)))
  }

  function Strings(xs: seq<string>): (r: seq<Json>)
    ensures |r| == |xs| && forall i :: 0 <= i < |xs| ==> r[i] == JStr(xs[i])
  {
    seq(|xs|, i requires 0 <= i < |xs| => JStr(xs[i]))
  }

  /** What the body holds under `key`. */
  function SignUpValue(u: SignUp, key: string): Option<Json> {
    if key == "mobility" && MobilityMember(u).Some? then MobilityMember(u)
    else if key == "available_days" && DaysMember(u).Some? then DaysMember(u)
    else if key == "preferred_slot" && SlotMember(u).Some? then SlotMember(u)
    else if key == "age" && AgeMember(u).Some? then AgeMember(u)
    else if key == "mot_de_passe" then Some(JStr(u.password))
    else if key == "email" then Some(JStr(ToLower(Trim(u.email))))
    else if key == "nom" then Some(JStr(Trim(u.nom)))
    else None
  }

  lemma RequiredGet(u: SignUp, key: string)
    ensures LastBinding(Required(u), key) ==
      if key == "mot_de_passe" then Some(JStr(u.password))
      else if key == "email" then Some(JStr(ToLower(Trim(u.email))))
      else if key == "nom" then Some(JStr(Trim(u.nom)))
      else None
  {
    var a := With([], "nom", Some(JStr(Trim(u.nom))));
    var b := With(a, "email", Some(JStr(ToLower(Trim(u.email)))));
    WithGet([], "nom", Some(JStr(Trim(u.nom))));
    WithGet(a, "email", Some(JStr(ToLower(Trim(u.email)))));
    WithGet(b, "mot_de_passe", Some(JStr(u.password)));
  }

  lemma SignUpGet(u: SignUp, key: string)
    ensures Get(SignUpPayload(u), key) == SignUpValue(u, key)
  {
    var ms1 := With(Required(u), "age", AgeMember(u));
    var ms2 := With(ms1, "preferred_slot", SlotMember(u));
    var ms3 := With(ms2, "available_days", DaysMember(u));
    RequiredGet(u, key);
    WithGet(Required(u), "age", AgeMember(u));
    WithGet(ms1, "preferred_slot", SlotMember(u));
    WithGet(ms2, "available_days", DaysMember(u));
    WithGet(ms3, "mobility", MobilityMember(u));
  }

  /** The server reads the trimmed name, the trimmed lower-cased address and the password
      as typed. */
  lemma SignUpRequired(u: SignUp)
    ensures Get(SignUpPayload(u), "nom") == Some(JStr(Trim(u.nom)))
    ensures Get(SignUpPayload(u), "email") == Some(JStr(ToLower(Trim(u.email))))
    ensures Get(SignUpPayload(u), "mot_de_passe") == Some(JStr(u.password))
  {
    SignUpGet(u, "nom");
    SignUpGet(u, "email");
    SignUpGet(u, "mot_de_passe");
  }

  /** Each optional field is present exactly when it is set, the days only when there are
      some. */
  lemma SignUpOptional(u: SignUp)
    ensures Get(SignUpPayload(u), "age") == if u.age.Some? then Some(JNum(IntToString(u.age.value))) else None
    ensures Get(SignUpPayload(u), "preferred_slot") == if u.preferredSlot.Some? && u.preferredSlot.value != [] then Some(JStr(u.preferredSlot.value)) else None
    ensures Get(SignUpPayload(u), "available_days") == if |u.availableDays| > 0 then Some(JArr(Strings(u.availableDays))) else None
    ensures Get(SignUpPayload(u), "mobility") == if u.mobility.Some? && u.mobility.value != [] then Some(JStr(u.mobility.value)) else None
  {
    SignUpAgeSlot(u);
    SignUpDaysMobility(u);
  }

  lemma SignUpAgeSlot(u: SignUp)
    ensures Get(SignUpPayload(u), "age") == AgeMember(u)
    ensures Get(SignUpPayload(u), "preferred_slot") == SlotMember(u)
  {
    SignUpGet(u, "age");
    SignUpGet(u, "preferred_slot");
  }

  lemma SignUpDaysMobility(u: SignUp)
    ensures Get(SignUpPayload(u), "available_days") == DaysMember(u)
    ensures Get(SignUpPayload(u), "mobility") == MobilityMember(u)
  {
    SignUpGet(u, "available_days");
    SignUpGet(u, "mobility");
  }

  /** The body of `POST /login`. */
  function LoginBody(email: string, password: string): Json {
    JObj(With(With([], "email", Some(JStr(email))), "mot_de_passe", Some(JStr(password))))
  }

  /** The login that follows a sign-up reuses the address and password of its body. */
  function LoginFor(u: SignUp): (r: Json)
    ensures Get(r, "email") == Get(SignUpPayload(u), "email")
    ensures Get(r, "mot_de_passe") == Get(SignUpPayload(u), "mot_de_passe")
  {
    SignUpRequired(u);
    var email := ToLower(Trim(u.email));
    WithGet([], "email", Some(JStr(email)));
    WithGet(With([], "email", Some(JStr(email))), "mot_de_passe", Some(JStr(u.password)));
    LoginBody(email, u.password)
  }

  // ---------------------------------------------------------------------------
  // The automatic login

  /** `resp.user.id` handed to `login` as its user: JavaScript's `undefined` when missing,
      which `login` dereferences like null. */
  function IdArgument(user: Json): Json {
    var id := Get(user, "id");
    if id.Some? then id.value else JNull
  }

  /** The store after the success callback as written: `login(token, resp.user.id)`, then
      the `user` item overwritten with `resp.user`. */
  function AutoLoginAsWritten(ls: Storage, token: string, user: Json): Storage
    requires !IdArgument(user).JNull?
  {
    LoggedInStorage(ls, token, IdArgument(user))["user" := Stringify(user)]
  }

  /** The store after the success callback with the user object handed to `login`. */
  function AutoLogin(ls: Storage, token: string, user: Json): Storage
    requires !user.JNull?
  {
    LoggedInStorage(ls, token, user)["user" := Stringify(user)]
  }

  /** As written, a new account with id `n` is stored with `user_id` "undefined", so
      `getUserId` gives NaN instead of `n`. */
  lemma AutoLoginAsWrittenLosesId(ls: Storage, token: string, user: Json, n: int)
    requires Get(user, "id") == Some(JNum(IntToString(n)))
    ensures AutoLoginAsWritten(ls, token, user)["user_id"] == "undefined"
    ensures UserIdOf(AutoLoginAsWritten(ls, token, user)) == Some(NaN)
  {
    var arg := JNum(IntToString(n));
    assert IdArgument(user) == arg;
    assert Get(arg, "id").None?;
    UserIdWithoutId(ls, token, arg);
    var mid := LoggedInStorage(ls, token, arg);
    var after := AutoLoginAsWritten(ls, token, user);
    assert after == mid["user" := Stringify(user)];
    assert after["user_id"] == mid["user_id"];
    assert HasItem(after, "user_id") == HasItem(mid, "user_id");
  }

  /** Handing the user object to `login` stores its id, which `getUserId` gives back. */
  lemma AutoLoginKeepsId(ls: Storage, token: string, user: Json, n: int)
    requires !user.JNull? && Get(user, "id") == Some(JNum(IntToString(n)))
    ensures UserIdOf(AutoLogin(ls, token, user)) == Some(Finite(n))
  {
    UserIdAfterLogin(ls, token, user, n);
    LoggedInItems(ls, token, user);
  }

  const UnknownError: string := "Erreur inconnue"
  const AlertPrefix: string := "\U{274C} Erreur serveur : "

  /** `err?.error?.detail || err?.message || 'Erreur inconnue'`. */
  function ErrorMessage(detail: Option<Json>, message: Option<Json>): (r: Json)
    ensures Truthy(r)
    ensures detail.Some? && Truthy(detail.value) ==> r == detail.value
  {
    if detail.Some? && Truthy(detail.value) then detail.value
    else if message.Some? && Truthy(message.value) then message.value
    else JStr(UnknownError)
  }

  // ---------------------------------------------------------------------------
  // The component

  class RegisterComponent {
    const auth: AuthService
    var user: SignUp
    var emailExists: bool
    var passwordError: bool
    var emailError: bool
    var loading: bool

    constructor (auth: AuthService)
      ensures this.auth == auth && user == EmptySignUp
      ensures !emailExists && !passwordError && !emailError && !loading
    {
      this.auth := auth;
      user := EmptySignUp;
      emailExists := false;
      passwordError := false;
      emailError := false;
      loading := false;
    }

    /** `canSubmit`. */
    function CanSubmit(): (r: bool)
      reads this
      ensures r <==> !loading && Trim(user.nom) != [] && EmailOk(Trim(user.email)) && PasswordOk(user.password)
    {
      !loading && |Trim(user.nom)| > 0 && EmailOk(Trim(user.email)) && HasUppercase(user.password) && JsLength(user.password) >= 8
    }

    /** `toggleDay(code, checked)`. */
    method ToggleDay(code: string, checked: bool)
      modifies this`user
      ensures user == old(user).(availableDays := ToggleDays(old(user).availableDays, code, checked))
    {
      var days := ToggleDays(user.availableDays, code, checked);
      user := user.(availableDays := days);
    }

    /** `onSubmit`: the flags report a malformed address or a weak password, and nothing
        is sent then; otherwise the page starts loading and posts the body. The name is
        not checked here: only `canSubmit`, which disables the button, requires one. */
    method OnSubmit() returns (request: Option<Interceptor.Request>)
      modifies this`emailExists, this`emailError, this`passwordError, this`loading
      ensures !emailExists
      ensures emailError <==> !EmailOk(Trim(user.email))
      ensures passwordError <==> !PasswordOk(user.password)
      ensures request.None? <==> emailError || passwordError
      ensures old(CanSubmit()) ==> request.Some?
      ensures request.None? ==> loading == old(loading)
      ensures request.Some? ==> loading && request.value == Interceptor.Request("POST", UsersUrl, map[], Some(SignUpPayload(user)))
    {
      emailExists := false;
      emailError := false;
      var emailOk := EmailOk(Trim(user.email));
      var hasUppercase := HasUppercase(user.password);
      var hasMinLength := JsLength(user.password) >= 8;
      emailError := !emailOk;
      passwordError := !(hasUppercase && hasMinLength);
      if emailError || passwordError {
        return None;
      }
      var payload := SignUpPayload(user);
      loading := true;
      request := Some(Interceptor.Request("POST", UsersUrl, map[], Some(payload)));
    }

    /** The success callback of the sign-up, for the form `sent` as it was submitted: the
        created user is stored and the login request is sent with the address and password
        of the body. */
    method OnCreated(createdUser: Json, sent: SignUp) returns (request: Interceptor.Request)
      modifies auth`storage
      ensures auth.storage == old(auth.storage)["user" := Stringify(createdUser)]
      ensures request == Interceptor.Request("POST", LoginUrl, map[], Some(LoginFor(sent)))
    {
      auth.storage := auth.storage["user" := Stringify(createdUser)];
      var body := LoginBody(ToLower(Trim(sent.email)), sent.password);
      request := Interceptor.Request("POST", LoginUrl, map[], Some(body));
    }

    /** The login callback as written: the user's id is handed to `login` where the user
        is expected. A null user throws before `login` is called, and leaves the store as
        it was; a missing id throws inside `login`, after the `token` item is written. In
        both cases the flag is not raised, loading goes on and the page stays. */
    method OnLoginAsWritten(token: string, respUser: Json) returns (navigate: Option<string>)
      modifies auth, this`loading
      ensures respUser.JNull? ==> auth.storage == old(auth.storage)
      ensures !respUser.JNull? && IdArgument(respUser).JNull? ==> auth.storage == old(auth.storage)["token" := token]
      ensures IdArgument(respUser).JNull? ==>
        navigate.None? && loading == old(loading) && auth.loggedIn == old(auth.loggedIn) && auth.emitted == old(auth.emitted)
      ensures !IdArgument(respUser).JNull? ==>
        auth.storage == AutoLoginAsWritten(old(auth.storage), token, respUser)
        && auth.loggedIn && auth.emitted == old(auth.emitted) + [true]
        && !loading && navigate == Some("/")
    {
      if respUser.JNull? {
        return None;
      }
      var thrown := auth.Login(token, IdArgument(respUser));
      if thrown {
        return None;
      }
      auth.storage := auth.storage["user" := Stringify(respUser)];
      loading := false;
      navigate := Some("/");
    }

    /** The login callback with `login(resp.access_token, resp.user)`. */
    method OnLogin(token: string, respUser: Json) returns (navigate: Option<string>)
      modifies auth, this`loading
      ensures respUser.JNull? ==>
        auth.storage == old(auth.storage)["token" := token] && auth.loggedIn == old(auth.loggedIn)
        && auth.emitted == old(auth.emitted) && navigate.None? && loading == old(loading)
      ensures !respUser.JNull? ==>
        auth.storage == AutoLogin(old(auth.storage), token, respUser)
        && auth.loggedIn && auth.emitted == old(auth.emitted) + [true]
        && !loading && navigate == Some("/")
    {
      var thrown := auth.Login(token, respUser);
      if thrown {
        return None;
      }
      auth.storage := auth.storage["user" := Stringify(respUser)];
      loading := false;
      navigate := Some("/");
    }

    /** The login error callback: back to the login page. */
    method OnLoginError() returns (navigate: string)
      modifies this`loading
      ensures !loading && navigate == "/login"
    {
      loading := false;
      navigate := "/login";
    }

    /** The sign-up error callback: a 409 flags the address as taken; any other status
        raises an alert with the server's message. */
    method OnCreateError(status: int, detail: Option<Json>, message: Option<Json>) returns (alert: Option<string>)
      modifies this`loading, this`emailExists
      ensures !loading
      ensures status == 409 ==> emailExists && alert.None?
      ensures status != 409 ==> (emailExists == old(emailExists)
        && alert == Some(AlertPrefix + JsString(ErrorMessage(detail, message))))
    {
      loading := false;
      if status == 409 {
        emailExists := true;
        alert := None;
      } else {
        alert := Some(AlertPrefix + JsString(ErrorMessage(detail, message)));
      }
    }
  }

  /** The address a valid form sends is one the pattern accepts. */
  lemma SentEmailAccepted(u: SignUp)
    requires EmailOk(Trim(u.email))
    ensures Get(SignUpPayload(u), "email") == Some(JStr(ToLower(Trim(u.email))))
    ensures EmailOk(ToLower(Trim(u.email)))
  {
    SignUpRequired(u);
    EmailOkLower(Trim(u.email));
  }
}
