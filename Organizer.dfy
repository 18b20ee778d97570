/** The organizer's event service (`OrganizerService`): the body it posts for a new event,
    with the server's defaults filled in, and the URLs of its three requests. */
module OrganizerService {
  import opened Common
  import opened Text
  import Interceptor

  /** One occurrence as the form hands it over: start and end as ISO text (null when
      missing) and the all-day flag. */
  datatype OccPayload = OccPayload(debut: Option<string>, fin: Option<string>, allDay: bool)

  /** `OrganizerEventPayload`: every optional member is `None` when it is missing,
      `undefined` or `null`. The file is only its name; it is never sent. */
  datatype EventPayload = EventPayload(
    titre: string,
    description: Option<string>,
    longdescription: Option<string>,
    conditions: Option<string>,
    imageUrl: Option<string>,
    imageFile: Option<string>,
    keywords: Option<seq<string>>,
    ageMin: Option<int>,
    ageMax: Option<int>,
    adresse: Option<string>,
    codePostal: Option<string>,
    commune: Option<string>,
    pays: Option<string>,
    latitude: Option<real>,
    longitude: Option<real>,
    occurrences: Option<seq<OccPayload>>)

  /** The body of `POST /organizer/events`. It has no member for the file. */
  datatype Body = Body(
    titre: string,
    description: string,
    longdescription: string,
    conditions: Option<string>,
    imageUrl: Option<string>,
    keywords: seq<string>,
    ageMin: Option<int>,
    ageMax: Option<int>,
    adresse: Option<string>,
    codePostal: Option<string>,
    commune: Option<string>,
    pays: Option<string>,
    latitude: Option<real>,
    longitude: Option<real>,
    occurrences: seq<OccPayload>)

  const EventsUrl: string := Interceptor.ApiBase + "/organizer/events"

  /** `x ?? d`. */
  function OrElse<T>(x: Option<T>, d: T): T {
    if x.Some? then x.value else d
  }

  /** `createEvent`'s body: `??` defaults for the texts and numbers, `||` for the image URL
      (so an empty URL is null) and the keywords, and the occurrences only when there
      are some. */
  function CreateBody(ev: EventPayload): Body {
    Body(
      ev.titre,
      OrElse(ev.description, ""),
      OrElse(ev.longdescription, ""),
      ev.conditions,
      if ev.imageUrl.Some? && ev.imageUrl.value != "" then ev.imageUrl else None,
      OrElse(ev.keywords, []),
      ev.ageMin,
      ev.ageMax,
      ev.adresse,
      ev.codePostal,
      ev.commune,
      ev.pays,
      ev.latitude,
      ev.longitude,
      if ev.occurrences.Some? && |ev.occurrences.value| > 0 then ev.occurrences.value else [])
  }

  /** The title passes unchanged; a set text, number or list passes unchanged and a
      missing one gets its default: `''` for the descriptions, `[]` for the keywords and
      occurrences, null for the rest. The image URL is null exactly when it is missing or
      empty, so the body never holds an empty URL. */
  lemma BodyDefaults(ev: EventPayload)
    ensures var b := CreateBody(ev);
      b.titre == ev.titre
      && (ev.description.Some? ==> b.description == ev.description.value)
      && (ev.description.None? ==> b.description == "")
      && (ev.longdescription.Some? ==> b.longdescription == ev.longdescription.value)
      && (ev.longdescription.None? ==> b.longdescription == "")
      && (ev.keywords.Some? ==> b.keywords == ev.keywords.value)
      && (ev.keywords.None? ==> b.keywords == [])
      && b.conditions == ev.conditions && b.ageMin == ev.ageMin && b.ageMax == ev.ageMax
      && b.adresse == ev.adresse && b.codePostal == ev.codePostal && b.commune == ev.commune
      && b.pays == ev.pays && b.latitude == ev.latitude && b.longitude == ev.longitude
      && (b.imageUrl.None? <==> ev.imageUrl.None? || ev.imageUrl.value == "")
      && (b.imageUrl.Some? ==> b.imageUrl == ev.imageUrl && b.imageUrl.value != "")
      && (ev.occurrences.Some? ==> b.occurrences == ev.occurrences.value)
      && (ev.occurrences.None? ==> b.occurrences == [])
  {
  }

  /** A body handed back as a payload, every member set, gives the same body: applying the
      defaults twice changes nothing. */
  function Resubmitted(b: Body): EventPayload {
    EventPayload(b.titre, Some(b.description), Some(b.longdescription), b.conditions, b.imageUrl,
      None, Some(b.keywords), b.ageMin, b.ageMax, b.adresse, b.codePostal, b.commune, b.pays,
      b.latitude, b.longitude, Some(b.occurrences))
  }

  lemma BodyIdempotent(ev: EventPayload)
    ensures CreateBody(Resubmitted(CreateBody(ev))) == CreateBody(ev)
  {
  }

  /** The body does not depend on the file. */
  lemma BodyIgnoresFile(ev: EventPayload, file: Option<string>)
    ensures CreateBody(ev.(imageFile := file)) == CreateBody(ev)
  {
  }

  /** A request of the service: verb, URL and, for the creation, the body. */
  datatype Call = Call(verb: string, url: string, body: Option<Body>)

  /** `getMyEvents`. */
  function MyEvents(): (c: Call)
    ensures c.verb == "GET" && c.url == EventsUrl && c.body.None?
  {
    Call("GET", EventsUrl, None)
  }

  /** `createEvent(ev)`. */
  function CreateEvent(ev: EventPayload): (c: Call)
    ensures c.verb == "POST" && c.url == EventsUrl && c.body == Some(CreateBody(ev))
  {
    Call("POST", EventsUrl, Some(CreateBody(ev)))
  }

  /** The URL of `deleteEvent(id)`. */
  function DeleteUrl(id: int): string {
    EventsUrl + "/" + IntToString(id)
  }

  /** `deleteEvent(id)`. */
  function DeleteEvent(id: int): (c: Call)
    ensures c.verb == "DELETE" && c.url == DeleteUrl(id) && c.body.None?
  {
    Call("DELETE", DeleteUrl(id), None)
  }

  /** Each event has its own delete URL. */
  lemma DeleteUrlInjective(a: int, b: int)
    requires DeleteUrl(a) == DeleteUrl(b)
    ensures a == b
  {
    var p := EventsUrl + "/";
    assert DeleteUrl(a)[|p|..] == IntToString(a);
    assert DeleteUrl(b)[|p|..] == IntToString(b);
    IntToStringInjective(a, b);
  }

  lemma StartsWithAppend(p: string, x: string)
    ensures StartsWith(p + x, p)
  {
    assert (p + x)[..|p|] == p;
  }

  /** The delete URL lies under the API base, so the interceptor signs it. */
  lemma DeleteUrlSigned(id: int)
    ensures Interceptor.NeedsAuth(DeleteUrl(id))
  {
    StartsWithAppend(Interceptor.ApiBase, "/organizer/events" + "/" + IntToString(id));
  }
}
