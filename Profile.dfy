/** The profile page: the editable copy of the signed-in user's profile, the check that
    decides whether there is anything to save, the body of the save request and the
    realignment of the form with the profile the server returns. */
module UserDashboard {
  import opened Common
  import opened Text
  import opened Json
  import opened Session
  import Interceptor
  import opened Days

  /** The profile `/utilisateurs/me` returns, with the fields the page reads; `None` is a
      null or missing field. */
  datatype Me = Me(
    id: int,
    email: string,
    nom: Option<string>,
    role: string,
    age: Option<int>,
    preferredSlot: Option<string>,
    availableDays: Option<seq<string>>,
    mobility: Option<string>)

  /** The edit form. */
  datatype Form = Form(
    nom: string,
    age: Option<int>,
    preferredSlot: Option<string>,
    availableDays: seq<string>,
    mobility: Option<string>)

  const EmptyForm: Form := Form("", None, None, [], None)

  const MeUrl: string := Interceptor.ApiBase + "/utilisateurs/me"

  /** `(me.nom || '')`. */
  function NomText(nom: Option<string>): string {
    if nom.Some? then nom.value else ""
  }

  /** `me.available_days || []`. */
  function DaysOf(m: Me): seq<string> {
    if m.availableDays.Some? then m.availableDays.value else []
  }

  /** The form filled from a profile, as after loading and after a save. */
  function FormOf(m: Me): Form {
    Form(Trim(NomText(m.nom)), m.age, m.preferredSlot, DaysOf(m), m.mobility)
  }

  // ---------------------------------------------------------------------------
  // Pending changes

  /** The normalized view both sides are brought to before comparing: the name trimmed,
      and the days in `sort()` order. */
  datatype Snapshot = Snapshot(nom: string, age: Option<int>, slot: Option<string>, days: seq<string>, mobility: Option<string>)

  function SortDays(days: seq<string>): seq<string> {
    SortBy(days, StrLess)
  }

  function FormSnapshot(f: Form): Snapshot {
    Snapshot(Trim(f.nom), f.age, f.preferredSlot, SortDays(f.availableDays), f.mobility)
  }

  function MeSnapshot(m: Me): Snapshot {
    Snapshot(Trim(NomText(m.nom)), m.age, m.preferredSlot, SortDays(DaysOf(m)), m.mobility)
  }

  lemma StrLessAsym()
    ensures Asymmetric(StrLess)
  {
    forall a, b | StrLess(a, b)
      ensures !StrLess(b, a)
    {
      StrLessAsymmetric(a, b);
    }
  }

  /** In a list that never steps down, no element is below the first. */
  lemma {:induction false} FirstIsLeast(s: seq<string>, j: nat)
    requires Ordered(s, StrLess) && j < |s|
    ensures !StrLess(s[j], s[0])
  {
    if j == 0 {
      StrLessIrreflexive(s[0]);
    } else {
      FirstIsLeast(s[1..], j - 1);
      assert !StrLess(s[j], s[1]) && !StrLess(s[1], s[0]);
      StrLessTotal(s[0], s[1]);
      if StrLess(s[0], s[1]) && StrLess(s[j], s[0]) {
        StrLessTransitive(s[j], s[0], s[1]);
      }
    }
  }

  lemma OrderedTail(s: seq<string>)
    requires s != [] && Ordered(s, StrLess)
    ensures Ordered(s[1..], StrLess)
  {
    forall k | 0 <= k < |s[1..]| - 1
      ensures !StrLess(s[1..][k + 1], s[1..][k])
    {
      assert s[1..][k + 1] == s[k + 2] && s[1..][k] == s[k + 1];
    }
  }

  /** Two ordered lists with the same elements start alike. */
  lemma SameHead(a: seq<string>, b: seq<string>)
    requires a != [] && Ordered(a, StrLess) && Ordered(b, StrLess) && multiset(a) == multiset(b)
    ensures b != [] && a[0] == b[0]
  {
    assert a[0] in multiset(b);
    assert b != [] && b[0] in multiset(a);
    var i :| 0 <= i < |a| && a[i] == b[0];
    var j :| 0 <= j < |b| && b[j] == a[0];
    FirstIsLeast(a, i);
    FirstIsLeast(b, j);
    StrLessTotal(a[0], b[0]);
  }

  lemma TailMultiset(s: seq<string>)
    requires s != []
    ensures multiset(s[1..]) == multiset(s) - multiset{s[0]}
  {
    assert s == [s[0]] + s[1..];
  }

  /** Two ordered lists with the same elements are the same list. */
  lemma {:induction false} OrderedUnique(a: seq<string>, b: seq<string>)
    requires Ordered(a, StrLess) && Ordered(b, StrLess) && multiset(a) == multiset(b)
    ensures a == b
    decreases |a|
  {
    if a == [] {
      assert |b| == |multiset(b)| == 0;
    } else {
      SameHead(a, b);
      TailMultiset(a);
      TailMultiset(b);
      OrderedTail(a);
      OrderedTail(b);
      OrderedUnique(a[1..], b[1..]);
      assert a == [a[0]] + a[1..] && b == [b[0]] + b[1..];
    }
  }

  /** Sorting makes the days' order irrelevant: two lists sort alike exactly when they hold
      the same days the same number of times. */
  lemma SortDaysEqual(a: seq<string>, b: seq<string>)
    ensures SortDays(a) == SortDays(b) <==> multiset(a) == multiset(b)
  {
    if multiset(a) == multiset(b) {
      StrLessAsym();
      SortByOrdered(a, StrLess);
      SortByOrdered(b, StrLess);
      OrderedUnique(SortDays(a), SortDays(b));
    }
  }

  /** The form filled from a profile has no pending change against that profile. */
  lemma RealignNoPending(m: Me)
    ensures FormSnapshot(FormOf(m)) == MeSnapshot(m)
  {
    TrimIdempotent(NomText(m.nom));
  }

  /** Surrounding white space in the name and the order of the days are not changes. */
  lemma PendingIgnoresLayout(f: Form, g: Form)
    requires Trim(f.nom) == Trim(g.nom) && multiset(f.availableDays) == multiset(g.availableDays)
    requires f.age == g.age && f.preferredSlot == g.preferredSlot && f.mobility == g.mobility
    ensures FormSnapshot(f) == FormSnapshot(g)
  {
    SortDaysEqual(f.availableDays, g.availableDays);
  }

  // ---------------------------------------------------------------------------
  // The save request

  /** The body of `PUT /utilisateurs/me`: the trimmed name, then each set field; a null
      field and an empty day list are left out. */
  function Payload(f: Form): Json {
    var ms0 := [Field("nom", JStr(Trim(f.nom)))];
    var ms1 := With(ms0, "age", if f.age.Some? then Some(JNum(IntToString(f.age.value))) else None);
    var ms2 := With(ms1, "preferred_slot", if f.preferredSlot.Some? then Some(JStr(f.preferredSlot.value)) else None);
    var ms3 := With(ms2, "available_days", if |f.availableDays| > 0 then Some(JArr(DayItems(f.availableDays))) else None);
    var ms4 := With(ms3, "mobility", if f.mobility.Some? then Some(JStr(f.mobility.value)) else None);
    JObj(ms4)
  }

  function DayItems(days: seq<string>): (r: seq<Json>)
    ensures |r| == |days| && forall i :: 0 <= i < |days| ==> r[i] == JStr(days[i])
  {
    seq(|days|, i requires 0 <= i < |days| => JStr(days[i]))
  }

  /** What the body holds under `key`. */
  function PayloadValue(f: Form, key: string): Option<Json> {
    if key == "mobility" && f.mobility.Some? then Some(JStr(f.mobility.value))
    else if key == "available_days" && |f.availableDays| > 0 then Some(JArr(DayItems(f.availableDays)))
    else if key == "preferred_slot" && f.preferredSlot.Some? then Some(JStr(f.preferredSlot.value))
    else if key == "age" && f.age.Some? then Some(JNum(IntToString(f.age.value)))
    else if key == "nom" then Some(JStr(Trim(f.nom)))
    else None
  }

  lemma PayloadGet(f: Form, key: string)
    ensures Get(Payload(f), key) == PayloadValue(f, key)
  {
    var ms0 := [Field("nom", JStr(Trim(f.nom)))];
    var ms1 := With(ms0, "age", if f.age.Some? then Some(JNum(IntToString(f.age.value))) else None);
    var ms2 := With(ms1, "preferred_slot", if f.preferredSlot.Some? then Some(JStr(f.preferredSlot.value)) else None);
    var ms3 := With(ms2, "available_days", if |f.availableDays| > 0 then Some(JArr(DayItems(f.availableDays))) else None);
    WithGet([], "nom", Some(JStr(Trim(f.nom))));
    assert With([], "nom", Some(JStr(Trim(f.nom)))) == ms0;
    WithGet(ms0, "age", if f.age.Some? then Some(JNum(IntToString(f.age.value))) else None);
    WithGet(ms1, "preferred_slot", if f.preferredSlot.Some? then Some(JStr(f.preferredSlot.value)) else None);
    WithGet(ms2, "available_days", if |f.availableDays| > 0 then Some(JArr(DayItems(f.availableDays))) else None);
    WithGet(ms3, "mobility", if f.mobility.Some? then Some(JStr(f.mobility.value)) else None);
  }

  /** The server reads the name trimmed, each optional field exactly when it is set, and
      the days, as strings in the form's order, only when there are some. */
  lemma PayloadFields(f: Form)
    ensures Get(Payload(f), "nom") == Some(JStr(Trim(f.nom)))
    ensures Get(Payload(f), "age") == if f.age.Some? then Some(JNum(IntToString(f.age.value))) else None
    ensures Get(Payload(f), "preferred_slot") == if f.preferredSlot.Some? then Some(JStr(f.preferredSlot.value)) else None
    ensures Get(Payload(f), "available_days") == if |f.availableDays| > 0 then Some(JArr(DayItems(f.availableDays))) else None
    ensures Get(Payload(f), "mobility") == if f.mobility.Some? then Some(JStr(f.mobility.value)) else None
  {
    PayloadRequired(f);
    PayloadOptional(f);
  }

  lemma PayloadRequired(f: Form)
    ensures Get(Payload(f), "nom") == Some(JStr(Trim(f.nom)))
    ensures Get(Payload(f), "age") == if f.age.Some? then Some(JNum(IntToString(f.age.value))) else None
  {
    PayloadGet(f, "nom");
    PayloadGet(f, "age");
  }

  lemma PayloadOptional(f: Form)
    ensures Get(Payload(f), "preferred_slot") == if f.preferredSlot.Some? then Some(JStr(f.preferredSlot.value)) else None
    ensures Get(Payload(f), "available_days") == if |f.availableDays| > 0 then Some(JArr(DayItems(f.availableDays))) else None
    ensures Get(Payload(f), "mobility") == if f.mobility.Some? then Some(JStr(f.mobility.value)) else None
  {
    PayloadGet(f, "preferred_slot");
    PayloadGet(f, "available_days");
    PayloadGet(f, "mobility");
  }

  /** `Bearer ${token}` for whatever `getToken` returns, null included. */
  function HeaderFor(token: Option<Json>): string {
    "Bearer " + (if token.Some? then JsString(token.value) else "null")
  }

  const SaveError: string := "Erreur lors de la sauvegarde."

  /** `roleLabel` for a loaded or missing profile. */
  function RoleLabel(me: Option<Me>): (r: string)
    ensures r == "Administrateur" <==> me.Some? && me.value.role == "admin"
    ensures r == "Organisateur" <==> me.Some? && me.value.role == "organizer"
    ensures r == "Utilisateur" <==> !(me.Some? && me.value.role in {"admin", "organizer"})
  {
    if me.Some? && me.value.role == "admin" then "Administrateur"
    else if me.Some? && me.value.role == "organizer" then "Organisateur"
    else "Utilisateur"
  }

  // ---------------------------------------------------------------------------
  // The component

  class UserDashboardComponent {
    const auth: AuthService
    var me: Option<Me>
    var form: Form
    var loading: bool
    var saving: bool
    var saveOk: bool
    var saveErr: Option<Json>

    constructor (auth: AuthService)
      ensures this.auth == auth && me.None? && form == EmptyForm
      ensures !loading && !saving && !saveOk && saveErr.None?
    {
      this.auth := auth;
      me := None;
      form := EmptyForm;
      loading := false;
      saving := false;
      saveOk := false;
      saveErr := None;
    }

    /** `disabledSave`: nothing to save without a profile or during a save; otherwise
        Save is disabled exactly when the normalized form equals the normalized profile
        (`JSON.stringify` of two such records is equal exactly when they are). */
    function DisabledSave(): (r: bool)
      reads this
      ensures me.None? || saving ==> r
      ensures me.Some? && !saving ==> (r <==> FormSnapshot(form) == MeSnapshot(me.value))
    {
      if me.None? then true
      else if saving then true
      else FormSnapshot(form) == MeSnapshot(me.value)
    }

    /** `ngOnInit`: without a truthy token the page goes to `/login` and fetches nothing;
        otherwise `fetchMe` starts loading the profile with the bearer header. */
    method OnInit() returns (navigate: Option<string>, request: Option<Interceptor.Request>)
      modifies this`loading
      ensures navigate.Some? <==> !TruthyToken(auth.GetToken())
      ensures navigate.Some? ==> navigate == Some("/login") && request.None? && loading == old(loading)
      ensures navigate.None? ==> loading && request == Some(Interceptor.Request("GET", MeUrl,
                map["Authorization" := HeaderFor(auth.GetToken())], None))
    {
      var token := auth.GetToken();
      if !(token.Some? && Truthy(token.value)) {
        return Some("/login"), None;
      }
      loading := true;
      navigate := None;
      request := Some(Interceptor.Request("GET", MeUrl, map["Authorization" := HeaderFor(auth.GetToken())], None));
    }

    /** The success callback of `fetchMe`. */
    method OnMe(m: Me)
      modifies this`me, this`form, this`loading
      ensures me == Some(m) && form == FormOf(m) && !loading
      ensures !saving ==> DisabledSave()
    {
      me := Some(m);
      form := FormOf(m);
      loading := false;
      RealignNoPending(m);
    }

    /** The error callback of `fetchMe`: a 401 sends the user to `/login`. */
    method OnMeError(status: int) returns (navigate: Option<string>)
      modifies this`loading
      ensures !loading && (navigate.Some? <==> status == 401) && (navigate.Some? ==> navigate.value == "/login")
    {
      loading := false;
      navigate := if status == 401 then Some("/login") else None;
    }

    /** `toggleDay(code, checked)`. */
    method ToggleDay(code: string, checked: bool)
      modifies this`form
      ensures form == old(form).(availableDays := ToggleDays(old(form).availableDays, code, checked))
    {
      var days := ToggleDays(form.availableDays, code, checked);
      form := form.(availableDays := days);
    }

    /** `save()`: nothing without a profile; otherwise the flags are reset and the body of
        the form is sent. */
    method Save() returns (request: Option<Interceptor.Request>)
      modifies this`saving, this`saveOk, this`saveErr
      ensures request.None? <==> me.None?
      ensures me.None? ==> saving == old(saving) && saveOk == old(saveOk) && saveErr == old(saveErr)
      ensures me.Some? ==> saving && !saveOk && saveErr.None? && DisabledSave()
      ensures me.Some? ==> request == Some(Interceptor.Request("PUT", MeUrl,
                map["Authorization" := HeaderFor(auth.GetToken())], Some(Payload(form))))
    {
      if me.None? {
        return None;
      }
      saving := true;
      saveOk := false;
      saveErr := None;
      request := Some(Interceptor.Request("PUT", MeUrl, map["Authorization" := HeaderFor(auth.GetToken())], Some(Payload(form))));
    }

    /** The success callback of `save`: the profile is replaced and the form realigned with
        it, so nothing is pending. */
    method OnSaved(updated: Me)
      modifies this`me, this`form, this`saving, this`saveOk
      ensures me == Some(updated) && form == FormOf(updated) && !saving && saveOk
      ensures DisabledSave()
    {
      me := Some(updated);
      saving := false;
      saveOk := true;
      form := FormOf(updated);
      RealignNoPending(updated);
    }

    /** The timer two seconds after a successful save. */
    method OnSaveOkTimeout()
      modifies this`saveOk
      ensures !saveOk
    {
      saveOk := false;
    }

    /** The error callback of `save`: the server's `detail` when truthy, the stock message
        otherwise. */
    method OnSaveError(detail: Option<Json>)
      modifies this`saving, this`saveErr
      ensures !saving
      ensures saveErr == if detail.Some? && Truthy(detail.value) then detail else Some(JStr(SaveError))
    {
      saving := false;
      saveErr := if detail.Some? && Truthy(detail.value) then detail else Some(JStr(SaveError));
    }
  }
}
