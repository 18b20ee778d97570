/** The client's session (`AuthService`): the token and the user the server returns at
    login, kept in the browser's `localStorage` under the keys `token`, `user_id`, `user`
    and `auth`, and the logged-in flag the rest of the application listens to. */
module Session {
  import opened Common
  import opened Text
  import opened Json

  /** `localStorage`: string values under string keys. */
  type Storage = map<string, string>

  /** `localStorage.getItem(key)` is truthy: the key is present and its value is not empty. */
  predicate HasItem(ls: Storage, key: string) {
    key in ls && ls[key] != ""
  }

  /** `x ?? null` for a property read `x`: a missing property and `null` both give null. */
  function NonNull(x: Option<Json>): (r: Option<Json>)
    ensures r.Some? <==> x.Some? && !x.value.JNull?
    ensures r.Some? ==> r == x
  {
    if x.Some? && !x.value.JNull? then x else None
  }

  // ---------------------------------------------------------------------------
  // Number(text)

  /** What JavaScript's `Number(text)` gives. After trimming, the empty text is 0, an integer
      written in decimal is its value, and text that cannot begin a numeric literal is NaN.
      Other numeric text (fractions, exponents, hexadecimal, `Infinity`) is kept unevaluated. */
  datatype NumberValue = Finite(n: int) | NaN | Unevaluated(text: string)

  function NumberOf(s: string): NumberValue {
    var t := Trim(s);
    if t == [] then Finite(0)
    else if AllDigits(t) then Finite(DigitsValue(t))
    else if |t| > 1 && t[0] == '-' && AllDigits(t[1..]) then Finite(-(DigitsValue(t[1..]) as int))
    else if |t| > 1 && t[0] == '+' && AllDigits(t[1..]) then Finite(DigitsValue(t[1..]))
    else if IsDigit(t[0]) || t[0] == '+' || t[0] == '-' || t[0] == '.' || t[0] == 'I' then Unevaluated(t)
    else NaN
  }

  /** Text with no white space at either end trims to itself. */
  lemma TrimUnpadded(s: string)
    requires s != [] && !IsSpace(s[0]) && !IsSpace(s[|s| - 1])
    ensures Trim(s) == s
  {
    assert TrimStart(s) == s;
  }

  /** `Number(String(n))` is `n`. */
  lemma NumberOfIntToString(n: int)
    ensures NumberOf(IntToString(n)) == Finite(n)
  {
    var s := IntToString(n);
    IntToStringValue(n);
    TrimUnpadded(s);
    if n < 0 {
      assert !IsDigit(s[0]);
    }
  }

  /** Text that cannot begin a numeric literal is NaN. */
  lemma NumberOfNonNumeric(s: string)
    requires s != [] && !IsSpace(s[0]) && !IsSpace(s[|s| - 1])
    requires !IsDigit(s[0]) && s[0] != '+' && s[0] != '-' && s[0] != '.' && s[0] != 'I'
    ensures NumberOf(s) == NaN
  {
    TrimUnpadded(s);
    assert !AllDigits(s);
  }

  /** `Number("undefined")` is NaN. */
  lemma NumberOfUndefined()
    ensures NumberOf("undefined") == NaN
  {
    NumberOfNonNumeric("undefined");
  }

  // ---------------------------------------------------------------------------
  // The getters, as functions of the store

  /** `getToken`: the `token` item when it is non-empty; otherwise the `token` property of
      the JSON under `auth`; null when neither gives one or when `auth` does not parse
      (`null.token` throws inside the same `try`, so a stored `null` gives null too). */
  function TokenOf(ls: Storage): (r: Option<Json>)
    ensures HasItem(ls, "token") ==> r == Some(JStr(ls["token"]))
    ensures !HasItem(ls, "token") && !HasItem(ls, "auth") ==> r == None
    ensures !HasItem(ls, "token") && HasItem(ls, "auth") && Parse(ls["auth"]).None? ==> r == None
    ensures !HasItem(ls, "token") && HasItem(ls, "auth") && Parse(ls["auth"]).Some? && !Parse(ls["auth"]).value.JObj? ==> r == None
    ensures r.Some? ==> !r.value.JNull?
  {
    if HasItem(ls, "token") then Some(JStr(ls["token"]))
    else if HasItem(ls, "auth") then
      match Parse(ls["auth"])
      case Some(v) => NonNull(Get(v, "token"))
      case None => None
    else None
  }

  /** `getUserId`: `Number` of the `user_id` item, or null when it is missing or empty. */
  function UserIdOf(ls: Storage): (r: Option<NumberValue>)
    ensures r.Some? <==> HasItem(ls, "user_id")
  {
    if HasItem(ls, "user_id") then Some(NumberOf(ls["user_id"])) else None
  }

  /** `user.id` is truthy. */
  predicate HasTruthyId(u: Json) {
    Get(u, "id").Some? && Truthy(Get(u, "id").value)
  }

  /** `getUser`: the parsed `user` item, provided a truthy token exists and the user has a
      truthy `id`; null otherwise, and when the item does not parse. */
  function UserOf(ls: Storage): (r: Option<Json>)
    ensures r.Some? ==> HasItem(ls, "user") && Parse(ls["user"]) == r && HasTruthyId(r.value)
    ensures r.Some? ==> TokenOf(ls).Some? && Truthy(TokenOf(ls).value)
  {
    var token := TokenOf(ls);
    if !(token.Some? && Truthy(token.value)) || !HasItem(ls, "user") then None
    else
      match Parse(ls["user"])
      case Some(u) => if Truthy(u) && HasTruthyId(u) then Some(u) else None
      case None => None
  }

  // ---------------------------------------------------------------------------
  // What login and logout write

  /** `{ ...user, token }`. */
  function UserWithToken(user: Json, token: string): Json {
    JObj(Assign(SpreadMembers(user), "token", JStr(token)))
  }

  /** `{ token, userId: user.id }`; `JSON.stringify` drops `userId` when it is undefined. */
  function AuthRecord(token: string, id: Option<Json>): Json {
    JObj([Field("token", JStr(token))] + (if id.Some? then [Field("userId", id.value)] else []))
  }

  /** `String(user.id)`. */
  function IdText(id: Option<Json>): string {
    if id.Some? then JsString(id.value) else "undefined"
  }

  /** The store after a `login(token, user)` that completes. */
  function LoggedInStorage(ls: Storage, token: string, user: Json): Storage {
    var id := Get(user, "id");
    ls["token" := token]
      ["user_id" := IdText(id)]
      ["user" := Stringify(UserWithToken(user, token))]
      ["auth" := Stringify(AuthRecord(token, id))]
  }

  /** The header value `Bearer ${token}`. */
  function Bearer(token: Json): string {
    "Bearer " + JsString(token)
  }

  /** `!!token`: a value is stored and it is truthy. */
  predicate TruthyToken(t: Option<Json>) {
    t.Some? && Truthy(t.value)
  }

  /** The store after `logout()`. */
  function LoggedOutStorage(ls: Storage): Storage {
    ls - {"token", "user_id", "user", "auth"}
  }

  class AuthService {
    /** `localStorage`. */
    var storage: Storage
    /** The current value of the `loggedIn` subject. */
    var loggedIn: bool
    /** The values pushed to the subject since the service was created. */
    var emitted: seq<bool>

    /** The subject starts as "a non-empty `token` item exists". */
    constructor (initial: Storage)
      ensures storage == initial && emitted == []
      ensures loggedIn <==> HasItem(initial, "token")
    {
      storage := initial;
      loggedIn := HasItem(initial, "token");
      emitted := [];
    }

    /** `login(token, user)`. Reading `user.id` throws a TypeError when `user` is null; by
        then only the `token` item has been written. */
    method Login(token: string, user: Json) returns (thrown: bool)
      modifies this
      ensures thrown <==> user.JNull?
      ensures thrown ==> (storage == old(storage)["token" := token]
                          && loggedIn == old(loggedIn) && emitted == old(emitted))
      ensures !thrown ==> (storage == LoggedInStorage(old(storage), token, user)
                           && loggedIn && emitted == old(emitted) + [true])
    {
      ghost var before := storage;
      storage := storage["token" := token];
      if user.JNull? {
        return true;
      }
      var id := Get(user, "id");
      var userText := Stringify(UserWithToken(user, token));
      var authText := Stringify(AuthRecord(token, id));
      storage := storage["user_id" := IdText(id)];
      storage := storage["user" := userText];
      storage := storage["auth" := authText];
      assert storage == LoggedInStorage(before, token, user);
      loggedIn := true;
      emitted := emitted + [true];
      return false;
    }

    /** `logout()`: the four keys are removed and `false` is pushed. */
    method Logout()
      modifies this
      ensures storage == LoggedOutStorage(old(storage))
      ensures "token" !in storage && "user_id" !in storage && "user" !in storage && "auth" !in storage
      ensures !loggedIn && emitted == old(emitted) + [false]
    {
      storage := storage - {"token"};
      storage := storage - {"user_id"};
      storage := storage - {"user"};
      storage := storage - {"auth"};
      assert storage == LoggedOutStorage(old(storage));
      loggedIn := false;
      emitted := emitted + [false];
    }

    function GetToken(): Option<Json>
      reads this
    {
      TokenOf(storage)
    }

    function GetUserId(): Option<NumberValue>
      reads this
    {
      UserIdOf(storage)
    }

    function GetUser(): Option<Json>
      reads this
    {
      UserOf(storage)
    }
  }

  // ---------------------------------------------------------------------------
  // Properties of the store

  lemma GetWellFormed(v: Json, key: string)
    requires WellFormed(v) && Get(v, key).Some?
    ensures WellFormed(Get(v, key).value)
  {
  }

  /** What a completed login leaves under each of the four keys. */
  lemma LoggedInItems(ls: Storage, token: string, user: Json)
    ensures var after, id := LoggedInStorage(ls, token, user), Get(user, "id");
      "token" in after && "user_id" in after && "user" in after && "auth" in after
      && after["token"] == token && after["user_id"] == IdText(id)
      && after["user"] == Stringify(UserWithToken(user, token))
      && after["auth"] == Stringify(AuthRecord(token, id))
  {
  }

  /** The `auth` record is well formed and its `token` is the token. */
  lemma AuthRecordFacts(token: string, user: Json)
    requires WellFormed(user)
    ensures WellFormed(AuthRecord(token, Get(user, "id")))
    ensures Get(AuthRecord(token, Get(user, "id")), "token") == Some(JStr(token))
  {
    var id := Get(user, "id");
    var first := Field("token", JStr(token));
    if id.Some? {
      GetWellFormed(user, "id");
      var ms := [first, Field("userId", id.value)];
      assert AuthRecord(token, id).members == ms;
      assert ms[..1] == [first];
      assert "userId" != "token";
      assert LastBinding(ms, "token") == LastBinding([first], "token");
    } else {
      assert AuthRecord(token, id).members == [first];
    }
  }

  /** Without a `token` item, the token comes from the `auth` JSON. */
  lemma TokenFromAuth(ls: Storage, a: Json)
    requires !HasItem(ls, "token") && "auth" in ls && ls["auth"] == Stringify(a) && WellFormed(a)
    ensures TokenOf(ls) == NonNull(Get(a, "token"))
  {
    ParseStringify(a);
    StringifyNonEmpty(a);
  }

  lemma StringifyNonEmpty(v: Json)
    requires WellFormed(v)
    ensures Stringify(v) != ""
  {
    if v.JNum? {
      assert LeadingDigits(if v.lit != [] && v.lit[0] == '-' then v.lit[1..] else v.lit) >= 1;
    }
  }

  /** After a completed login the token reads back, even the empty token (it is then found
      in the `auth` record). */
  lemma TokenAfterLogin(ls: Storage, token: string, user: Json)
    requires !user.JNull? && WellFormed(user)
    ensures TokenOf(LoggedInStorage(ls, token, user)) == Some(JStr(token))
  {
    var after := LoggedInStorage(ls, token, user);
    LoggedInItems(ls, token, user);
    if token == "" {
      AuthRecordFacts(token, user);
      TokenFromAuth(after, AuthRecord(token, Get(user, "id")));
    }
  }

  /** The members `{...user}` copies are well formed when `user` is. */
  lemma SpreadWellFormed(user: Json)
    requires WellFormed(user)
    ensures WellFormed(JObj(SpreadMembers(user)))
  {
  }

  /** The only key `{...user}` can take `id` from is the user's own `id`. */
  lemma SpreadId(user: Json)
    ensures LastBinding(SpreadMembers(user), "id") == Get(user, "id")
  {
    if user.JStr? {
      var ms := SpreadMembers(user);
      forall i | 0 <= i < |ms|
        ensures ms[i].key != "id"
      {
        assert ms[i].key == NatToString(i);
        assert IsDigit(ms[i].key[0]);
      }
    }
  }

  /** `{ ...user, token }` is well formed and has the user's `id`. */
  lemma UserWithTokenFacts(user: Json, token: string)
    requires WellFormed(user)
    ensures WellFormed(UserWithToken(user, token))
    ensures Get(UserWithToken(user, token), "id") == Get(user, "id")
  {
    SpreadWellFormed(user);
    AssignWellFormed(SpreadMembers(user), "token", JStr(token));
    SpreadId(user);
    var r := Assign(SpreadMembers(user), "token", JStr(token));
    assert LastBinding(r, "id") == LastBinding(SpreadMembers(user), "id");
  }

  lemma AssignWellFormed(ms: seq<Field>, key: string, v: Json)
    requires WellFormed(JObj(ms)) && WellFormed(v)
    ensures WellFormed(JObj(Assign(ms, key, v)))
  {
    var r := Assign(ms, key, v);
    AssignFrom(ms, key, v);
    forall i | 0 <= i < |r|
      ensures WellFormed(r[i].value)
    {
      if r[i] != Field(key, v) {
        var j :| 0 <= j < |ms| && ms[j] == r[i];
      }
    }
  }

  /** With the token known, `getUser` is decided by the stored user alone. */
  lemma UserFromItem(ls: Storage, t: string, u: Json)
    requires TokenOf(ls) == Some(JStr(t)) && "user" in ls && ls["user"] == Stringify(u) && WellFormed(u)
    ensures UserOf(ls) == if t != "" && Truthy(u) && HasTruthyId(u) then Some(u) else None
  {
    ParseStringify(u);
    StringifyNonEmpty(u);
  }

  /** After a completed login `getUser` gives the stored user with its token, provided the
      token is non-empty and the user has a truthy `id`; otherwise null. */
  lemma UserAfterLogin(ls: Storage, token: string, user: Json)
    requires !user.JNull? && WellFormed(user)
    ensures UserOf(LoggedInStorage(ls, token, user))
         == if token != "" && HasTruthyId(user) then Some(UserWithToken(user, token)) else None
  {
    var after := LoggedInStorage(ls, token, user);
    LoggedInItems(ls, token, user);
    TokenAfterLogin(ls, token, user);
    UserWithTokenFacts(user, token);
    UserFromItem(after, token, UserWithToken(user, token));
  }

  /** After a completed login whose user has an integer `id`, `getUserId` gives it back. */
  lemma UserIdAfterLogin(ls: Storage, token: string, user: Json, n: int)
    requires !user.JNull? && Get(user, "id") == Some(JNum(IntToString(n)))
    ensures UserIdOf(LoggedInStorage(ls, token, user)) == Some(Finite(n))
  {
    var after := LoggedInStorage(ls, token, user);
    LoggedInItems(ls, token, user);
    assert after["user_id"] == IntToString(n);
    NumberOfIntToString(n);
    assert UserIdOf(after) == Some(NumberOf(IntToString(n)));
  }

  /** A user value without an `id` (a bare number, say) stores `"undefined"` as `user_id`,
      which `getUserId` reads as NaN. */
  lemma UserIdWithoutId(ls: Storage, token: string, user: Json)
    requires !user.JNull? && Get(user, "id").None?
    ensures LoggedInStorage(ls, token, user)["user_id"] == "undefined"
    ensures UserIdOf(LoggedInStorage(ls, token, user)) == Some(NaN)
  {
    LoggedInItems(ls, token, user);
    NumberOfUndefined();
  }

  /** After logout every getter gives null. */
  lemma LoggedOutGetters(ls: Storage)
    ensures TokenOf(LoggedOutStorage(ls)) == None
    ensures UserIdOf(LoggedOutStorage(ls)) == None
    ensures UserOf(LoggedOutStorage(ls)) == None
  {
  }
}
