/** The administrator's dashboard: the statistics loaded at start, the tabs, and two
    paged, searchable tables (users and events) with deletion. The requests are those of
    the administration service, named here by what they ask for. */
module AdminDashboard {
  import opened Common
  import opened Text
  import opened Json

  datatype Tab = Overview | Users | Events

  /** A row of either table: its id and the rest of what the server sends. */
  datatype Row = Row(id: int, rest: Json)

  /** A request of the administration service. */
  datatype AdminCall =
    | OverviewStats
    | SeriesStats(days: int)
    | TopEvents
    | ContentQuality
    | UserPage(page: int, perPage: int, q: string)
    | EventPage(page: int, perPage: int, q: string)
    | DeleteUserCall(id: int)
    | DeleteEventCall(id: int)

  const DashboardFailed: string := "Impossible de charger le dashboard."
  const UsersFailed: string := "Chargement utilisateurs impossible"
  const EventsFailed: string := "Chargement \U{00E9}v\U{00E9}nements impossible"
  const DeleteFailed: string := "Suppression impossible"

  /** `Math.round(x)`: the integer nearest to `x`, halves rounded up. */
  function Round(x: real): (w: int)
    ensures w as real - 0.5 <= x < w as real + 0.5
  {
    (x + 0.5).Floor
  }

  /** The bar width of `barW(n, max)` in percent: 0 for a zero maximum, otherwise `n/max`
      as a percentage rounded to the nearest integer. */
  function BarWidth(n: int, max: int): (w: int)
    ensures max == 0 ==> w == 0
    ensures max != 0 ==> w as real - 0.5 <= (n as real / max as real) * 100.0 < w as real + 0.5
  {
    if max == 0 then 0 else Round((n as real / max as real) * 100.0)
  }

  /** A count within the maximum gets a width between 0 and 100, the maximum itself 100. */
  lemma BarWidthBounds(n: int, max: int)
    requires 0 <= n <= max && max > 0
    ensures 0 <= BarWidth(n, max) <= 100
    ensures n == max ==> BarWidth(n, max) == 100
  {
    var r := n as real / max as real;
    RatioBounds(n as real, max as real);
    assert 0.0 <= r * 100.0 <= 100.0;
  }

  /** A share of a positive whole lies between 0 and 1, and the whole is 1. */
  lemma RatioBounds(n: real, m: real)
    requires 0.0 <= n <= m && m > 0.0
    ensures 0.0 <= n / m <= 1.0
    ensures n == m ==> n / m == 1.0
  {
    assert n / m * m == n;
  }

  /** A larger count never gets a narrower bar. */
  lemma BarWidthMonotonic(n1: int, n2: int, max: int)
    requires n1 <= n2 && max > 0
    ensures BarWidth(n1, max) <= BarWidth(n2, max)
  {
    var x1 := (n1 as real / max as real) * 100.0;
    var x2 := (n2 as real / max as real) * 100.0;
    assert n1 as real / max as real <= n2 as real / max as real;
    assert x1 <= x2;
  }

  /** `barW`'s style value. */
  function BarW(n: int, max: int): string {
    IntToString(BarWidth(n, max)) + "%"
  }

  /** The delete callbacks' test, `row.id !== id`. */
  function NotId(id: int): Row -> bool {
    (r: Row) => r.id != id
  }

  class DashboardAdminComponent {
    var loading: bool
    var error: string
    var ov: Option<Json>
    var series: Option<Json>
    var top: Option<Json>
    var quality: Option<Json>
    var tab: Tab
    var uLoading: bool
    var uError: string
    var uQ: string
    var uPage: int
    var uPer: int
    var users: seq<Row>
    var eLoading: bool
    var eError: string
    var eQ: string
    var ePage: int
    var ePer: int
    var events: seq<Row>

    constructor ()
      ensures loading && error == "" && ov.None? && series.None? && top.None? && quality.None?
      ensures tab == Overview
      ensures !uLoading && uError == "" && uQ == "" && uPage == 1 && uPer == 20 && users == []
      ensures !eLoading && eError == "" && eQ == "" && ePage == 1 && ePer == 20 && events == []
    {
      loading := true;
      error := "";
      ov, series, top, quality := None, None, None, None;
      tab := Overview;
      uLoading, uError, uQ, uPage, uPer, users := false, "", "", 1, 20, [];
      eLoading, eError, eQ, ePage, ePer, events := false, "", "", 1, 20, [];
    }

    /** `ngOnInit`: the four statistics requests, the series over 30 days. */
    method OnInit() returns (calls: seq<AdminCall>)
      ensures calls == [OverviewStats, SeriesStats(30), TopEvents, ContentQuality]
    {
      calls := [OverviewStats, SeriesStats(30), TopEvents, ContentQuality];
    }

    /** All four answered. */
    method OnStats(o: Json, s: Json, t: Json, q: Json)
      modifies this`ov, this`series, this`top, this`quality, this`loading
      ensures ov == Some(o) && series == Some(s) && top == Some(t) && quality == Some(q) && !loading
    {
      ov, series, top, quality := Some(o), Some(s), Some(t), Some(q);
      loading := false;
    }

    /** One of the four failed. */
    method OnStatsError()
      modifies this`error, this`loading
      ensures error == DashboardFailed && !loading
    {
      error := DashboardFailed;
      loading := false;
    }

    /** `setTab(t)`: the tab changes, and a table is loaded the first time it is shown
        empty. */
    method SetTab(t: Tab) returns (call: Option<AdminCall>)
      modifies this`tab, this`uLoading, this`uError, this`eLoading, this`eError
      ensures tab == t
      ensures call.Some? <==> (t == Users && old(users) == []) || (t == Events && old(events) == [])
      ensures t == Users && old(users) == [] ==> call == Some(UserPage(uPage, uPer, uQ)) && uLoading && uError == ""
      ensures t == Events && old(events) == [] ==> call == Some(EventPage(ePage, ePer, eQ)) && eLoading && eError == ""
      ensures call.None? ==> uLoading == old(uLoading) && uError == old(uError) && eLoading == old(eLoading) && eError == old(eError)
      ensures t != Users ==> uLoading == old(uLoading) && uError == old(uError)
      ensures t != Events ==> eLoading == old(eLoading) && eError == old(eError)
    {
      tab := t;
      call := None;
      if t == Users && |users| == 0 {
        var c := LoadUsers();
        call := Some(c);
      }
      if t == Events && |events| == 0 {
        var c := LoadEvents();
        call := Some(c);
      }
    }

    // -------------------------------------------------------------------------
    // Users

    method LoadUsers() returns (call: AdminCall)
      modifies this`uLoading, this`uError
      ensures uLoading && uError == "" && call == UserPage(uPage, uPer, uQ)
    {
      uLoading := true;
      uError := "";
      call := UserPage(uPage, uPer, uQ);
    }

    /** The answer of the users request; a null answer is an empty table. */
    method OnUsers(rows: Option<seq<Row>>)
      modifies this`users, this`uLoading
      ensures users == rows.GetOr([]) && !uLoading
    {
      users := rows.GetOr([]);
      uLoading := false;
    }

    method OnUsersError()
      modifies this`uError, this`uLoading
      ensures uError == UsersFailed && !uLoading
    {
      uError := UsersFailed;
      uLoading := false;
    }

    /** `uSearch`: back to the first page, then load. */
    method USearch() returns (call: AdminCall)
      modifies this`uPage, this`uLoading, this`uError
      ensures uPage == 1 && call == UserPage(1, uPer, uQ) && uLoading
    {
      uPage := 1;
      call := LoadUsers();
    }

    /** `uPrev`: only above the first page, so the page never drops below 1. */
    method UPrev() returns (call: Option<AdminCall>)
      modifies this`uPage, this`uLoading, this`uError
      ensures old(uPage) > 1 ==> uPage == old(uPage) - 1 && call == Some(UserPage(uPage, uPer, uQ))
      ensures old(uPage) <= 1 ==> uPage == old(uPage) && call.None? && uLoading == old(uLoading)
      ensures old(uPage) >= 1 ==> uPage >= 1
    {
      if uPage > 1 {
        uPage := uPage - 1;
        var c := LoadUsers();
        call := Some(c);
      } else {
        call := None;
      }
    }

    /** `uNext`. */
    method UNext() returns (call: AdminCall)
      modifies this`uPage, this`uLoading, this`uError
      ensures uPage == old(uPage) + 1 && call == UserPage(uPage, uPer, uQ)
    {
      uPage := uPage + 1;
      call := LoadUsers();
    }

    /** `deleteUser(id)`: sent only when confirmed. */
    method DeleteUser(id: int, confirmed: bool) returns (call: Option<AdminCall>)
      ensures call == if confirmed then Some(DeleteUserCall(id)) else None
    {
      call := if confirmed then Some(DeleteUserCall(id)) else None;
    }

    /** A completed user delete drops exactly the rows with that id, the others in order. */
    method OnUserDeleted(id: int)
      modifies this`users
      ensures users == Filter(old(users), NotId(id))
      ensures forall r :: r in users <==> r in old(users) && r.id != id
    {
      FilterExactly(users, NotId(id));
      users := Filter(users, NotId(id));
    }

    // -------------------------------------------------------------------------
    // Events

    method LoadEvents() returns (call: AdminCall)
      modifies this`eLoading, this`eError
      ensures eLoading && eError == "" && call == EventPage(ePage, ePer, eQ)
    {
      eLoading := true;
      eError := "";
      call := EventPage(ePage, ePer, eQ);
    }

    method OnEvents(rows: Option<seq<Row>>)
      modifies this`events, this`eLoading
      ensures events == rows.GetOr([]) && !eLoading
    {
      events := rows.GetOr([]);
      eLoading := false;
    }

    method OnEventsError()
      modifies this`eError, this`eLoading
      ensures eError == EventsFailed && !eLoading
    {
      eError := EventsFailed;
      eLoading := false;
    }

    method ESearch() returns (call: AdminCall)
      modifies this`ePage, this`eLoading, this`eError
      ensures ePage == 1 && call == EventPage(1, ePer, eQ) && eLoading
    {
      ePage := 1;
      call := LoadEvents();
    }

    method EPrev() returns (call: Option<AdminCall>)
      modifies this`ePage, this`eLoading, this`eError
      ensures old(ePage) > 1 ==> ePage == old(ePage) - 1 && call == Some(EventPage(ePage, ePer, eQ))
      ensures old(ePage) <= 1 ==> ePage == old(ePage) && call.None? && eLoading == old(eLoading)
      ensures old(ePage) >= 1 ==> ePage >= 1
    {
      if ePage > 1 {
        ePage := ePage - 1;
        var c := LoadEvents();
        call := Some(c);
      } else {
        call := None;
      }
    }

    method ENext() returns (call: AdminCall)
      modifies this`ePage, this`eLoading, this`eError
      ensures ePage == old(ePage) + 1 && call == EventPage(ePage, ePer, eQ)
    {
      ePage := ePage + 1;
      call := LoadEvents();
    }

    method DeleteEvent(id: int, confirmed: bool) returns (call: Option<AdminCall>)
      ensures call == if confirmed then Some(DeleteEventCall(id)) else None
    {
      call := if confirmed then Some(DeleteEventCall(id)) else None;
    }

    method OnEventDeleted(id: int)
      modifies this`events
      ensures events == Filter(old(events), NotId(id))
      ensures forall r :: r in events <==> r in old(events) && r.id != id
    {
      FilterExactly(events, NotId(id));
      events := Filter(events, NotId(id));
    }

    /** Either delete's error callback raises this alert. */
    method OnDeleteError() returns (alert: string)
      ensures alert == DeleteFailed
    {
      alert := DeleteFailed;
    }
  }
}
