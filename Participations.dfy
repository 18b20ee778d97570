/** The participations service: a user's sign-ups for occurrences (time slots) of events,
    the URLs the service requests and the occurrence-to-participation map it builds. */
module Participations {
  import opened Common
  import opened Text
  import Interceptor

  /** One row of `/me/participations`. `start` is `occurrence_debut`, which may be absent;
      `status` is `going` or `cancelled` for rows the server sends. */
  datatype Participation = Participation(
    id: int,
    status: string,
    occurrenceId: int,
    start: Option<string>,
    eventId: int)

  /** `getMine(future)`: the list request, with the flag in its query. */
  function MineUrl(future: bool): (url: string)
    ensures Interceptor.NeedsAuth(url)
  {
    var url := Interceptor.ApiBase + "/me/participations?future=" + (if future then "true" else "false");
    assert StartsWith(url, Interceptor.ApiBase);
    url
  }

  /** `join(occurrenceId)` posts `{ occurrence_id }` to this URL. */
  function JoinUrl(): (url: string)
    ensures Interceptor.NeedsAuth(url)
  {
    var url := Interceptor.ApiBase + "/me/participations";
    assert StartsWith(url, Interceptor.ApiBase);
    url
  }

  /** `cancel(participationId)`: the delete request for one participation. */
  function CancelUrl(participationId: int): (url: string)
    ensures Interceptor.NeedsAuth(url)
  {
    var url := JoinUrl() + "/" + IntToString(participationId);
    assert StartsWith(url, Interceptor.ApiBase) by {
      assert url[..|Interceptor.ApiBase|] == JoinUrl()[..|Interceptor.ApiBase|];
    }
    url
  }

  /** The two flags give two different requests, and the query ends with the flag. */
  lemma MineUrlFlag(future: bool)
    ensures MineUrl(true) != MineUrl(false)
    ensures var u := MineUrl(future); var f := if future then "true" else "false";
      |f| <= |u| && u[|u| - |f|..] == f
  {
    assert |MineUrl(true)| != |MineUrl(false)|;
  }

  /** Different participations have different delete URLs. */
  lemma CancelUrlInjective(a: int, b: int)
    requires CancelUrl(a) == CancelUrl(b)
    ensures a == b
  {
    var p := JoinUrl() + "/";
    assert CancelUrl(a) == p + IntToString(a) && CancelUrl(b) == p + IntToString(b);
    assert IntToString(a) == CancelUrl(a)[|p|..];
    assert IntToString(b) == CancelUrl(b)[|p|..];
    IntToStringInjective(a, b);
  }

  /** `getMyOccurrenceMap`: `new Map(list.map(p => [p.occurrence_id, p.id]))`. The map is
      filled in list order, so a later pair overwrites an earlier one with the same key. */
  function OccurrenceMap(list: seq<Participation>): (m: map<int, int>)
    ensures m.Keys == set p | p in list :: p.occurrenceId
    decreases |list|
  {
    if list == [] then map[]
    else
      var init, last := list[..|list| - 1], list[|list| - 1];
      assert list == init + [last];
      OccurrenceMap(init)[last.occurrenceId := last.id]
  }

  /** Appending a participation sets its occurrence's entry. */
  lemma OccurrenceMapAppend(list: seq<Participation>, p: Participation)
    ensures OccurrenceMap(list + [p]) == OccurrenceMap(list)[p.occurrenceId := p.id]
  {
    assert (list + [p])[..|list|] == list;
  }

  /** Each key is mapped to the id of the LAST participation of that occurrence, whatever
      its status. */
  lemma {:induction false} OccurrenceMapLastWins(list: seq<Participation>, i: nat)
    requires i < |list|
    requires forall j :: i < j < |list| ==> list[j].occurrenceId != list[i].occurrenceId
    ensures list[i].occurrenceId in OccurrenceMap(list)
    ensures OccurrenceMap(list)[list[i].occurrenceId] == list[i].id
    decreases |list|
  {
    if i < |list| - 1 {
      OccurrenceMapLastWins(list[..|list| - 1], i);
    }
  }

  /** The map has no more entries than the list has rows. */
  lemma {:induction false} OccurrenceMapSize(list: seq<Participation>)
    ensures |OccurrenceMap(list)| <= |list|
    decreases |list|
  {
    if list != [] {
      var init, last := list[..|list| - 1], list[|list| - 1];
      OccurrenceMapSize(init);
      var m := OccurrenceMap(init);
      assert OccurrenceMap(list).Keys == m.Keys + {last.occurrenceId};
      assert |m.Keys + {last.occurrenceId}| <= |m.Keys| + 1;
    }
  }
}
