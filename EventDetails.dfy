/** The event page: the occurrences (time slots) of one event, sorted by start and grouped
    by month behind a month cursor, and the check boxes with which a logged-in user joins
    or leaves a slot. Each join or leave is a request whose answer arrives later, so it is
    modelled as a click that sends it and a success or failure callback that applies it. */
module EventDetails {
  import opened Common
  import opened Text
  import opened Civil
  import opened Json
  import opened Session
  import opened Participations
  import Interceptor

  /** One occurrence of the event. */
  datatype Occ = Occ(id: int, debut: string, fin: Option<string>, allDay: bool)

  // ---------------------------------------------------------------------------
  // Start order (`fetchEvent`)

  /** The comparator `new Date(a.debut).getTime() - new Date(b.debut).getTime()` is
      negative: both starts parse and `a` starts first. NaN, from a start that does not
      parse, is never negative. */
  predicate StartsBefore(parse: Parser, a: Occ, b: Occ) {
    parse(a.debut).Some? && parse(b.debut).Some? && parse(a.debut).value.ms < parse(b.debut).value.ms
  }

  function ByStart(parse: Parser): (Occ, Occ) -> bool {
    (a: Occ, b: Occ) => StartsBefore(parse, a, b)
  }

  lemma ByStartAsymmetric(parse: Parser)
    ensures Asymmetric(ByStart(parse))
  {
  }

  /** `occurrences.slice().sort(...)`: the same slots, no slot placed after one that starts
      later than it. */
  function SortByStart(occ: seq<Occ>, parse: Parser): (r: seq<Occ>)
    ensures multiset(r) == multiset(occ)
    ensures forall i :: 0 <= i < |r| - 1 ==> !StartsBefore(parse, r[i + 1], r[i])
  {
    ByStartAsymmetric(parse);
    SortByOrdered(occ, ByStart(parse));
    SortBy(occ, ByStart(parse))
  }

  /** When every start parses, the sorted slots are in chronological order. */
  lemma {:induction false} SortByStartChronological(occ: seq<Occ>, parse: Parser, i: nat, j: nat)
    requires forall o :: o in occ ==> parse(o.debut).Some?
    requires i <= j < |occ|
    ensures var r := SortByStart(occ, parse);
      parse(r[i].debut).Some? && parse(r[j].debut).Some?
      && parse(r[i].debut).value.ms <= parse(r[j].debut).value.ms
    decreases j - i
  {
    var r := SortByStart(occ, parse);
    assert r[i] in multiset(occ) && r[j] in multiset(occ);
    if i < j {
      SortByStartChronological(occ, parse, i, j - 1);
      assert r[j - 1] in multiset(occ);
      assert !StartsBefore(parse, r[j], r[j - 1]);
    }
  }

  // ---------------------------------------------------------------------------
  // Month groups (`buildMonthGroups`)

  /** `${d.getFullYear()}-${String(d.getMonth() + 1).padStart(2, '0')}`; an Invalid Date
      renders as `NaN-NaN`. */
  function MonthKey(d: Option<Moment>): string {
    match d
    case Some(m) => IntToString(m.local.year) + "-" + Pad2(m.local.month)
    case None => "NaN-NaN"
  }

  function OccMonth(parse: Parser, o: Occ): string {
    MonthKey(parse(o.debut))
  }

  function InMonth(parse: Parser, key: string): Occ -> bool {
    (o: Occ) => OccMonth(parse, o) == key
  }

  /** A group of the slots of one month (its locale label is not modelled). */
  datatype MonthGroup = MonthGroup(key: string, items: seq<Occ>)

  function Keys(gs: seq<MonthGroup>): set<string> {
    set g | g in gs :: g.key
  }

  predicate DistinctKeys(gs: seq<MonthGroup>) {
    forall i, j :: 0 <= i < j < |gs| ==> gs[i].key != gs[j].key
  }

  /** `a.key.localeCompare(b.key) < 0`, read as the code-unit order of the keys. */
  function ByKey(): (MonthGroup, MonthGroup) -> bool {
    (a: MonthGroup, b: MonthGroup) => StrLess(a.key, b.key)
  }

  /** The position of the group with `key`, or -1 (`byKey.has` / `byKey.get`). */
  function IndexOfKey(gs: seq<MonthGroup>, key: string): (j: int)
    ensures -1 <= j < |gs|
    ensures j >= 0 ==> gs[j].key == key
    ensures j < 0 ==> forall i :: 0 <= i < |gs| ==> gs[i].key != key
  {
    if gs == [] then -1
    else if gs[|gs| - 1].key == key then |gs| - 1
    else IndexOfKey(gs[..|gs| - 1], key)
  }

  /** The groups of `occ` keyed by start month: in ascending key order, one per month that
      occurs, each holding exactly that month's slots in their order in `occ`. */
  method GroupByMonth(occ: seq<Occ>, parse: Parser) returns (groups: seq<MonthGroup>)
    ensures StrictlyOrdered(groups, ByKey())
    ensures Keys(groups) == set o | o in occ :: OccMonth(parse, o)
    ensures forall g :: g in groups ==> g.items == Filter(occ, InMonth(parse, g.key))
  {
    var byKey: seq<MonthGroup> := [];
    for i := 0 to |occ|
      invariant DistinctKeys(byKey)
      invariant Keys(byKey) == set o | o in occ[..i] :: OccMonth(parse, o)
      invariant forall g :: g in byKey ==> g.items == Filter(occ[..i], InMonth(parse, g.key))
    {
      var o := occ[i];
      var key := OccMonth(parse, o);
      assert occ[..i + 1] == occ[..i] + [o];
      var j := IndexOfKey(byKey, key);
      ghost var before := byKey;
      if j < 0 {
        byKey := byKey + [MonthGroup(key, [o])];
      } else {
        byKey := byKey[j := byKey[j].(items := byKey[j].items + [o])];
      }
      GroupStep(before, byKey, occ[..i], o, parse, j);
    }
    assert occ[..|occ|] == occ;
    KeysComparable(byKey);
    SortByStrict(byKey, ByKey());
    groups := SortBy(byKey, ByKey());
    forall g | g in groups
      ensures g in byKey
    {
      assert g in multiset(groups);
    }
    forall g | g in byKey
      ensures g in groups
    {
      assert g in multiset(byKey);
    }
  }

  /** One pass of the grouping loop keeps its three invariants. */
  lemma GroupStep(before: seq<MonthGroup>, after: seq<MonthGroup>, done: seq<Occ>, o: Occ, parse: Parser, j: int)
    requires DistinctKeys(before)
    requires Keys(before) == set x | x in done :: OccMonth(parse, x)
    requires forall g :: g in before ==> g.items == Filter(done, InMonth(parse, g.key))
    requires j == IndexOfKey(before, OccMonth(parse, o))
    requires j < 0 ==> after == before + [MonthGroup(OccMonth(parse, o), [o])]
    requires j >= 0 ==> after == before[j := before[j].(items := before[j].items + [o])]
    ensures DistinctKeys(after)
    ensures Keys(after) == set x | x in done + [o] :: OccMonth(parse, x)
    ensures forall g :: g in after ==> g.items == Filter(done + [o], InMonth(parse, g.key))
  {
    var key := OccMonth(parse, o);
    GroupStepKeys(before, after, key, j);
    MonthsAppend(done, o, parse);
    forall g | g in after
      ensures g.items == Filter(done + [o], InMonth(parse, g.key))
    {
      var k :| 0 <= k < |after| && after[k] == g;
      GroupStepItems(before, after, done, o, parse, j, k);
    }
  }

  /** The months of the slots seen so far grow by the new slot's month. */
  lemma MonthsAppend(done: seq<Occ>, o: Occ, parse: Parser)
    ensures (set x | x in done + [o] :: OccMonth(parse, x)) == (set x | x in done :: OccMonth(parse, x)) + {OccMonth(parse, o)}
  {
  }

  /** The grouping step's keys: distinct, and the old ones plus the slot's month. */
  lemma GroupStepKeys(before: seq<MonthGroup>, after: seq<MonthGroup>, key: string, j: int)
    requires DistinctKeys(before)
    requires j == IndexOfKey(before, key)
    requires j < 0 ==> exists items :: after == before + [MonthGroup(key, items)]
    requires j >= 0 ==> exists items :: after == before[j := before[j].(items := items)]
    ensures DistinctKeys(after)
    ensures Keys(after) == Keys(before) + {key}
  {
    if j >= 0 {
      assert forall k :: 0 <= k < |after| ==> after[k].key == before[k].key;
      forall x | x in Keys(before)
        ensures x in Keys(after)
      {
        var g :| g in before && g.key == x;
        var k :| 0 <= k < |before| && before[k] == g;
        assert after[k].key == x;
      }
    } else {
      assert after[|before|].key == key;
      assert forall k :: 0 <= k < |before| ==> after[k] == before[k];
    }
  }

  /** The grouping step's items: group `k` holds the filtered slots. */
  lemma GroupStepItems(before: seq<MonthGroup>, after: seq<MonthGroup>, done: seq<Occ>, o: Occ, parse: Parser, j: int, k: int)
    requires DistinctKeys(before)
    requires Keys(before) == set x | x in done :: OccMonth(parse, x)
    requires forall g :: g in before ==> g.items == Filter(done, InMonth(parse, g.key))
    requires j == IndexOfKey(before, OccMonth(parse, o))
    requires j < 0 ==> after == before + [MonthGroup(OccMonth(parse, o), [o])]
    requires j >= 0 ==> after == before[j := before[j].(items := before[j].items + [o])]
    requires 0 <= k < |after|
    ensures after[k].items == Filter(done + [o], InMonth(parse, after[k].key))
  {
    var key := OccMonth(parse, o);
    var g := after[k];
    var p := InMonth(parse, g.key);
    FilterAppend(done, [o], p);
    assert Filter([o], p) == (if g.key == key then [o] else []) + Filter([o][1..], p);
    if k < |before| && (j < 0 || k != j) {
      assert g == before[k];
      assert g.key != key by {
        if j >= 0 { assert before[j].key == key; }
      }
    } else if j >= 0 {
      assert k == j && g.key == key;
      assert before[j] in before;
    } else {
      assert g == MonthGroup(key, [o]);
      forall x | x in done
        ensures !p(x)
      {
        assert OccMonth(parse, x) in Keys(before);
      }
      FilterNone(done, p);
    }
  }

  /** Two groups with distinct keys are ordered one way or the other. */
  lemma KeysComparable(gs: seq<MonthGroup>)
    requires DistinctKeys(gs)
    ensures forall i, j :: 0 <= i < j < |gs| ==> ByKey()(gs[i], gs[j]) || ByKey()(gs[j], gs[i])
  {
    forall i, j | 0 <= i < j < |gs|
      ensures ByKey()(gs[i], gs[j]) || ByKey()(gs[j], gs[i])
    {
      StrLessTotal(gs[i].key, gs[j].key);
    }
  }

  /** Consecutive keys ascending means every earlier key is below every later one, so
      the keys are distinct. */
  lemma {:induction false} AscendingKeys(gs: seq<MonthGroup>, i: nat, j: nat)
    requires StrictlyOrdered(gs, ByKey())
    requires i < j < |gs|
    ensures StrLess(gs[i].key, gs[j].key)
    decreases j - i
  {
    if i + 1 < j {
      AscendingKeys(gs, i, j - 1);
      StrLessTransitive(gs[i].key, gs[j - 1].key, gs[j].key);
    }
  }

  /** Every slot is in exactly one group, the one of its month. */
  lemma SlotInItsGroup(gs: seq<MonthGroup>, occ: seq<Occ>, parse: Parser, o: Occ)
    requires StrictlyOrdered(gs, ByKey())
    requires Keys(gs) == set x | x in occ :: OccMonth(parse, x)
    requires forall g :: g in gs ==> g.items == Filter(occ, InMonth(parse, g.key))
    requires o in occ
    ensures exists k :: 0 <= k < |gs| && gs[k].key == OccMonth(parse, o) && o in gs[k].items
    ensures forall k :: 0 <= k < |gs| && o in gs[k].items ==> gs[k].key == OccMonth(parse, o)
  {
    var key := OccMonth(parse, o);
    assert key in Keys(gs);
    var g :| g in gs && g.key == key;
    FilterKeeps(occ, InMonth(parse, key), o);
    var k :| 0 <= k < |gs| && gs[k] == g;
    assert o in gs[k].items;
  }

  // ---------------------------------------------------------------------------
  // Month cursor (`setInitialMonthIndex`, `prevMonth`, `nextMonth`)

  /** `findIndex(g => g.key >= curKey)`. */
  function FirstAtLeast(gs: seq<MonthGroup>, curKey: string): (r: int)
    ensures -1 <= r < |gs|
    ensures r >= 0 ==> StrGe(gs[r].key, curKey) && forall j :: 0 <= j < r ==> StrLess(gs[j].key, curKey)
    ensures r < 0 ==> forall j :: 0 <= j < |gs| ==> StrLess(gs[j].key, curKey)
  {
    if gs == [] then -1
    else if StrGe(gs[0].key, curKey) then 0
    else
      var r := FirstAtLeast(gs[1..], curKey);
      if r < 0 then -1 else r + 1
  }

  /** The month shown first: none for no groups, otherwise the first month at or after the
      current one, or else the last month. */
  function InitialMonthIndex(gs: seq<MonthGroup>, curKey: string): (r: int)
    ensures gs == [] ==> r == 0
    ensures gs != [] ==> 0 <= r < |gs|
    ensures gs != [] && StrGe(gs[r].key, curKey) ==> forall j :: 0 <= j < r ==> StrLess(gs[j].key, curKey)
    ensures gs != [] && StrLess(gs[r].key, curKey) ==> r == |gs| - 1 && forall j :: 0 <= j < |gs| ==> StrLess(gs[j].key, curKey)
  {
    if gs == [] then 0
    else
      var i := FirstAtLeast(gs, curKey);
      if i >= 0 then i else |gs| - 1
  }

  // ---------------------------------------------------------------------------
  // The page

  /** The request of `loadMyParticipationsForEvent`: a GET of the participations to come
      (`future=true`) under the bearer header of `token`. */
  function MineRequest(token: Json): Interceptor.Request {
    Interceptor.Request("GET", MineUrl(true), map["Authorization" := Bearer(token)], None)
  }

  /** The interceptor finds the same token and leaves the header the page sets as it is,
      so the request reaches the API signed once, with the stored token. */
  lemma MineRequestIntercepted(ls: Storage)
    requires TruthyToken(TokenOf(ls))
    ensures Interceptor.Intercept(MineRequest(TokenOf(ls).value), ls) == MineRequest(TokenOf(ls).value)
  {
    Interceptor.InterceptorTokenAgrees(ls);
    var req := MineRequest(TokenOf(ls).value);
    assert Interceptor.NeedsAuth(req.url);
    assert req.headers["Authorization" := "Bearer " + JsString(TokenOf(ls).value)] == req.headers;
  }

  /** What a click on a slot's check box leads to. */
  datatype Click =
    | PastSlot                     // the default action is prevented, nothing else
    | LoginFirst(redirect: string) // navigation to `/login?redirect=<current URL>`
    | AlreadyPending               // the default action is prevented, nothing else
    | NoParticipationId            // selected but no participation id known: nothing sent
    | DeleteSent(url: string, authorization: string)
    | CreateSent(url: string, occurrenceId: int, authorization: string)

  /** What a failed request leads to: on 401 an alert and a navigation to
      `/login?redirect=<current URL>`, otherwise the box is reverted and an alert shown. */
  datatype Failure = SessionExpired(redirect: string) | Reverted

  /** A row of `/me/participations` the page keeps: present, of this event, and going. */
  predicate Keeps(r: Option<Participation>, eventId: int) {
    r.Some? && r.value.eventId == eventId && r.value.status == "going"
  }

  /** The rows the page keeps, in list order. */
  function GoingRows(rows: seq<Option<Participation>>, eventId: int): seq<Participation> {
    if rows == [] then []
    else
      var last := rows[|rows| - 1];
      GoingRows(rows[..|rows| - 1], eventId) + (if Keeps(last, eventId) then [last.value] else [])
  }

  /** The kept rows are exactly the present rows of the event with status `going`. */
  lemma {:induction false} GoingRowsMembers(rows: seq<Option<Participation>>, eventId: int)
    ensures forall p :: p in GoingRows(rows, eventId) ==> Some(p) in rows && p.eventId == eventId && p.status == "going"
    ensures forall i :: 0 <= i < |rows| && Keeps(rows[i], eventId) ==> rows[i].value in GoingRows(rows, eventId)
    decreases |rows|
  {
    if rows != [] {
      var init := rows[..|rows| - 1];
      assert rows == init + [rows[|rows| - 1]];
      GoingRowsMembers(init, eventId);
    }
  }

  /** One more row extends the kept rows by that row when it is kept. */
  lemma GoingRowsStep(rows: seq<Option<Participation>>, i: nat, eventId: int)
    requires i < |rows|
    ensures GoingRows(rows[..i + 1], eventId)
         == GoingRows(rows[..i], eventId) + (if Keeps(rows[i], eventId) then [rows[i].value] else [])
  {
    assert rows[..i + 1][..i] == rows[..i];
  }

  /** The loop of the participations callback: the occurrence ids selected and the
      participation id of each, the last kept row of an occurrence winning. */
  method CollectGoing(list: seq<Option<Participation>>, id: int) returns (sel: set<int>, parts: map<int, int>)
    ensures parts == OccurrenceMap(GoingRows(list, id))
    ensures sel == parts.Keys
  {
    sel := {};
    parts := map[];
    assert list[..0] == [];
    for i := 0 to |list|
      invariant parts == OccurrenceMap(GoingRows(list[..i], id))
      invariant sel == parts.Keys
    {
      var r := list[i];
      ghost var g := GoingRows(list[..i], id);
      GoingRowsStep(list, i, id);
      if Keeps(r, id) {
        ghost var before := parts;
        sel := sel + {r.value.occurrenceId};
        parts := parts[r.value.occurrenceId := r.value.id];
        assert parts.Keys == before.Keys + {r.value.occurrenceId};
        OccurrenceMapAppend(g, r.value);
        assert GoingRows(list[..i + 1], id) == g + [r.value];
      } else {
        assert GoingRows(list[..i + 1], id) == g;
      }
    }
    assert list[..|list|] == list;
  }

  /** The state of `EventDetailsComponent` that the participation and month logic use. */
  class EventDetailsComponent {
    const auth: AuthService
    var isLoggedIn: bool
    /** `event?.id`, once the event has loaded. */
    var eventId: Option<int>
    var occurrences: seq<Occ>
    var selectedOccIds: set<int>
    /** Occurrence id to participation id, used to send a delete. */
    var partByOcc: map<int, int>
    var pendingOccIds: set<int>
    /** The occurrences with a request in flight. */
    ghost var inFlight: set<int>
    var monthGroups: seq<MonthGroup>
    var currentMonthIdx: int

    ghost predicate Valid()
      reads this
    {
      partByOcc.Keys <= selectedOccIds
      && inFlight == pendingOccIds
      && (monthGroups == [] ==> currentMonthIdx == 0)
      && (monthGroups != [] ==> 0 <= currentMonthIdx < |monthGroups|)
    }

    /** The component as its field initialisers leave it: logged out, no event, nothing
        selected, cached or pending. */
    constructor (auth: AuthService)
      ensures Valid() && this.auth == auth && !isLoggedIn
      ensures eventId == None && occurrences == [] && monthGroups == [] && currentMonthIdx == 0
      ensures selectedOccIds == {} && partByOcc == map[] && pendingOccIds == {} && inFlight == {}
    {
      this.auth := auth;
      isLoggedIn := false;
      eventId := None;
      occurrences := [];
      selectedOccIds := {};
      partByOcc := map[];
      pendingOccIds := {};
      inFlight := {};
      monthGroups := [];
      currentMonthIdx := 0;
    }

    /** `ngOnInit`: the flag is first set from a stored token or user; the subscription to
        the `isLoggedIn$` subject then delivers its current value at once, which overwrites
        the flag and applies the handler. The route's id and the event request are the
        `id` of `OnEventLoaded`. */
    method OnInit() returns (request: Option<Interceptor.Request>)
      requires Valid()
      modifies this
      ensures Valid() && isLoggedIn == auth.loggedIn
      ensures !auth.loggedIn ==> selectedOccIds == {} && partByOcc == map[] && request.None?
      ensures auth.loggedIn ==> selectedOccIds == old(selectedOccIds) && partByOcc == old(partByOcc)
      ensures auth.loggedIn ==> (request.Some? <==> eventId.Some? && TruthyToken(auth.GetToken()))
      ensures request.Some? ==> request.value == MineRequest(auth.GetToken().value)
      ensures pendingOccIds == old(pendingOccIds) && inFlight == old(inFlight)
      ensures eventId == old(eventId) && occurrences == old(occurrences)
      ensures monthGroups == old(monthGroups) && currentMonthIdx == old(currentMonthIdx)
    {
      isLoggedIn := TruthyToken(auth.GetToken()) || TruthyToken(auth.GetUser());
      request := OnLoggedInChange(auth.loggedIn);
    }

    /** `loadMyParticipationsForEvent`: with a truthy token, the GET of the participations
        to come, under the token's bearer header; nothing without one. */
    method RequestMine() returns (request: Option<Interceptor.Request>)
      ensures request.Some? <==> TruthyToken(auth.GetToken())
      ensures request.Some? ==> request.value == MineRequest(auth.GetToken().value)
    {
      var token := auth.GetToken();
      if TruthyToken(token) {
        request := Some(MineRequest(token.value));
      } else {
        request := None;
      }
    }

    /** The `isLoggedIn$` handler: a logged-out signal clears the selection and the
        participation ids; a logged-in one reloads them when the event is known. */
    method OnLoggedInChange(v: bool) returns (request: Option<Interceptor.Request>)
      requires Valid()
      modifies this
      ensures Valid() && isLoggedIn == v
      ensures !v ==> selectedOccIds == {} && partByOcc == map[] && request.None?
      ensures v ==> selectedOccIds == old(selectedOccIds) && partByOcc == old(partByOcc)
      ensures v ==> (request.Some? <==> eventId.Some? && TruthyToken(auth.GetToken()))
      ensures request.Some? ==> request.value == MineRequest(auth.GetToken().value)
      ensures pendingOccIds == old(pendingOccIds) && inFlight == old(inFlight)
      ensures eventId == old(eventId) && occurrences == old(occurrences)
      ensures monthGroups == old(monthGroups) && currentMonthIdx == old(currentMonthIdx)
    {
      isLoggedIn := v;
      request := None;
      if !v {
        selectedOccIds := {};
        partByOcc := map[];
      } else if eventId.Some? {
        request := RequestMine();
      }
    }

    /** The success callback of the event request: slots sorted by start, month groups
        built, the first month chosen; participations are requested when logged in. */
    method OnEventLoaded(id: int, occ: Option<seq<Occ>>, parse: Parser, now: Moment) returns (request: Option<Interceptor.Request>)
      requires Valid()
      modifies this
      ensures Valid()
      ensures eventId == Some(id)
      ensures occurrences == SortByStart(occ.GetOr([]), parse)
      ensures StrictlyOrdered(monthGroups, ByKey())
      ensures Keys(monthGroups) == set o | o in occurrences :: OccMonth(parse, o)
      ensures forall g :: g in monthGroups ==> g.items == Filter(occurrences, InMonth(parse, g.key))
      ensures currentMonthIdx == InitialMonthIndex(monthGroups, MonthKey(Some(now)))
      ensures request.Some? <==> isLoggedIn && TruthyToken(auth.GetToken())
      ensures request.Some? ==> request.value == MineRequest(auth.GetToken().value)
      ensures selectedOccIds == old(selectedOccIds) && partByOcc == old(partByOcc)
      ensures pendingOccIds == old(pendingOccIds) && inFlight == old(inFlight)
    {
      ShowEvent(id, occ, parse, now);
      request := None;
      if isLoggedIn {
        request := RequestMine();
      }
    }

    /** The slots and month groups the event request's answer puts on the page. */
    method ShowEvent(id: int, occ: Option<seq<Occ>>, parse: Parser, now: Moment)
      requires Valid()
      modifies this`eventId, this`occurrences, this`monthGroups, this`currentMonthIdx
      ensures Valid()
      ensures eventId == Some(id)
      ensures occurrences == SortByStart(occ.GetOr([]), parse)
      ensures StrictlyOrdered(monthGroups, ByKey())
      ensures Keys(monthGroups) == set o | o in occurrences :: OccMonth(parse, o)
      ensures forall g :: g in monthGroups ==> g.items == Filter(occurrences, InMonth(parse, g.key))
      ensures currentMonthIdx == InitialMonthIndex(monthGroups, MonthKey(Some(now)))
    {
      occurrences := SortByStart(occ.GetOr([]), parse);
      eventId := Some(id);
      monthGroups := GroupByMonth(occurrences, parse);
      currentMonthIdx := InitialMonthIndex(monthGroups, MonthKey(Some(now)));
    }

    /** The success callback of the participations request: both structures are rebuilt
        from the rows of this event with status `going`; the last row of an occurrence
        gives its participation id. */
    method OnMineLoaded(id: int, rows: Option<seq<Option<Participation>>>)
      requires Valid()
      modifies this
      ensures Valid()
      ensures partByOcc == OccurrenceMap(GoingRows(rows.GetOr([]), id))
      ensures selectedOccIds == partByOcc.Keys
      ensures pendingOccIds == old(pendingOccIds) && inFlight == old(inFlight)
      ensures isLoggedIn == old(isLoggedIn) && eventId == old(eventId) && occurrences == old(occurrences)
      ensures monthGroups == old(monthGroups) && currentMonthIdx == old(currentMonthIdx)
    {
      var sel, parts := CollectGoing(rows.GetOr([]), id);
      selectedOccIds := sel;
      partByOcc := parts;
    }

    /** `isBeforeToday`. `midnight` is the time value of today's local midnight. */
    predicate IsBeforeToday(o: Occ, parse: Parser, midnight: int) {
      parse(o.debut).Some? && parse(o.debut).value.ms < midnight
    }

    /** A click on the check box of slot `o`, up to the moment a request is sent. */
    method OnOccClick(o: Occ, parse: Parser, midnight: int, currentUrl: string) returns (c: Click)
      requires Valid()
      modifies this
      ensures Valid()
      ensures selectedOccIds == old(selectedOccIds) && partByOcc == old(partByOcc)
      ensures c == PastSlot <==> IsBeforeToday(o, parse, midnight)
      ensures c.LoginFirst? <==> !IsBeforeToday(o, parse, midnight) && !TruthyToken(auth.GetToken())
      ensures c.LoginFirst? ==> c == LoginFirst(currentUrl)
      ensures c == AlreadyPending <==>
                !IsBeforeToday(o, parse, midnight) && TruthyToken(auth.GetToken()) && o.id in old(pendingOccIds)
      ensures var go := !IsBeforeToday(o, parse, midnight) && TruthyToken(auth.GetToken()) && o.id !in old(pendingOccIds);
              && (go && o.id !in selectedOccIds ==> c == CreateSent(JoinUrl(), o.id, Bearer(auth.GetToken().value)))
              && (go && o.id in selectedOccIds && o.id in partByOcc && partByOcc[o.id] != 0 ==>
                    c == DeleteSent(CancelUrl(partByOcc[o.id]), Bearer(auth.GetToken().value)))
              && (go && o.id in selectedOccIds && (o.id !in partByOcc || partByOcc[o.id] == 0) ==> c == NoParticipationId)
      ensures !(c.DeleteSent? || c.CreateSent?) ==> pendingOccIds == old(pendingOccIds) && inFlight == old(inFlight)
      ensures c.DeleteSent? || c.CreateSent? ==>
                o.id !in old(inFlight) && inFlight == old(inFlight) + {o.id} && pendingOccIds == old(pendingOccIds) + {o.id}
      ensures isLoggedIn == old(isLoggedIn) && eventId == old(eventId) && occurrences == old(occurrences)
      ensures monthGroups == old(monthGroups) && currentMonthIdx == old(currentMonthIdx)
    {
      if IsBeforeToday(o, parse, midnight) {
        return PastSlot;
      }
      var token := auth.GetToken();
      if !TruthyToken(token) {
        return LoginFirst(currentUrl);
      }
      if o.id in pendingOccIds {
        return AlreadyPending;
      }
      var wasSelected := o.id in selectedOccIds;
      pendingOccIds := pendingOccIds + {o.id};
      inFlight := inFlight + {o.id};
      if wasSelected {
        var pid := if o.id in partByOcc then partByOcc[o.id] else 0;
        if pid == 0 {
          pendingOccIds := pendingOccIds - {o.id};
          inFlight := inFlight - {o.id};
          return NoParticipationId;
        }
        return DeleteSent(CancelUrl(pid), Bearer(token.value));
      } else {
        return CreateSent(JoinUrl(), o.id, Bearer(token.value));
      }
    }

    /** The delete succeeded: the slot is no longer selected, nor pending, and its
        participation id is forgotten. */
    method OnDeleteSuccess(occId: int)
      requires Valid() && occId in inFlight
      modifies this
      ensures Valid()
      ensures selectedOccIds == old(selectedOccIds) - {occId}
      ensures partByOcc == old(partByOcc) - {occId}
      ensures pendingOccIds == old(pendingOccIds) - {occId} && inFlight == old(inFlight) - {occId}
      ensures isLoggedIn == old(isLoggedIn) && eventId == old(eventId) && occurrences == old(occurrences)
      ensures monthGroups == old(monthGroups) && currentMonthIdx == old(currentMonthIdx)
    {
      selectedOccIds := selectedOccIds - {occId};
      partByOcc := partByOcc - {occId};
      pendingOccIds := pendingOccIds - {occId};
      inFlight := inFlight - {occId};
    }

    /** The create succeeded: the slot is selected, its participation id is kept when the
        answer carries a truthy one, and it is no longer pending. */
    method OnCreateSuccess(occId: int, returnedId: Option<int>)
      requires Valid() && occId in inFlight
      modifies this
      ensures Valid()
      ensures selectedOccIds == old(selectedOccIds) + {occId}
      ensures partByOcc == if returnedId.Some? && returnedId.value != 0
                           then old(partByOcc)[occId := returnedId.value] else old(partByOcc)
      ensures pendingOccIds == old(pendingOccIds) - {occId} && inFlight == old(inFlight) - {occId}
      ensures isLoggedIn == old(isLoggedIn) && eventId == old(eventId) && occurrences == old(occurrences)
      ensures monthGroups == old(monthGroups) && currentMonthIdx == old(currentMonthIdx)
    {
      selectedOccIds := selectedOccIds + {occId};
      if returnedId.Some? && returnedId.value != 0 {
        partByOcc := partByOcc[occId := returnedId.value];
      }
      pendingOccIds := pendingOccIds - {occId};
      inFlight := inFlight - {occId};
    }

    /** Either request failed: only the pending mark goes. */
    method OnRequestFailure(occId: int, status: int, currentUrl: string) returns (f: Failure)
      requires Valid() && occId in inFlight
      modifies this
      ensures Valid()
      ensures selectedOccIds == old(selectedOccIds) && partByOcc == old(partByOcc)
      ensures pendingOccIds == old(pendingOccIds) - {occId} && inFlight == old(inFlight) - {occId}
      ensures f == if status == 401 then SessionExpired(currentUrl) else Reverted
      ensures isLoggedIn == old(isLoggedIn) && eventId == old(eventId) && occurrences == old(occurrences)
      ensures monthGroups == old(monthGroups) && currentMonthIdx == old(currentMonthIdx)
    {
      pendingOccIds := pendingOccIds - {occId};
      inFlight := inFlight - {occId};
      f := if status == 401 then SessionExpired(currentUrl) else Reverted;
    }

    predicate CanPrev()
      reads this
    {
      currentMonthIdx > 0
    }

    predicate CanNext()
      reads this
    {
      currentMonthIdx < |monthGroups| - 1
    }

    method PrevMonth()
      requires Valid()
      modifies this`currentMonthIdx
      ensures Valid()
      ensures currentMonthIdx == if old(CanPrev()) then old(currentMonthIdx) - 1 else old(currentMonthIdx)
    {
      if CanPrev() {
        currentMonthIdx := currentMonthIdx - 1;
      }
    }

    method NextMonth()
      requires Valid()
      modifies this`currentMonthIdx
      ensures Valid()
      ensures currentMonthIdx == if old(CanNext()) then old(currentMonthIdx) + 1 else old(currentMonthIdx)
    {
      if CanNext() {
        currentMonthIdx := currentMonthIdx + 1;
      }
    }

    /** `monthGroups[currentMonthIdx] ?? null`. */
    function CurrentGroup(): (g: Option<MonthGroup>)
      reads this
      requires Valid()
      ensures g.Some? <==> monthGroups != []
      ensures g.Some? ==> g.value == monthGroups[currentMonthIdx]
    {
      if 0 <= currentMonthIdx < |monthGroups| then Some(monthGroups[currentMonthIdx]) else None
    }
  }
}
