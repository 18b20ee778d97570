/** The home page: the feed it requests (a filtered search when the navbar holds a term
    or a place, the recommendation or home feed otherwise), the cards it builds with the
    date range of each event, the range label and the client-side title filter. */
module Home {
  import opened Common
  import opened Text
  import opened Civil
  import opened Json
  import opened Session
  import opened EventList

  // ---------------------------------------------------------------------------
  // Date range of an event

  /** One occurrence as the feed sends it: `debut`, and `fin` when the server has one. */
  datatype Occ = Occ(debut: string, fin: Option<string>)

  /** `new Date(text)`: `None` is an Invalid Date. */
  type Stamp = Option<Moment>

  /** The text an occurrence ends at: a truthy `fin`, otherwise `debut`. */
  function EndText(o: Occ): string {
    if o.fin.Some? && o.fin.value != [] then o.fin.value else o.debut
  }

  /** `a < b` on two `Date` objects: a comparison of their time values, false when either
      is an Invalid Date. */
  predicate Before(a: Stamp, b: Stamp) {
    a.Some? && b.Some? && a.value.ms < b.value.ms
  }

  /** The `debut` stamps, in order. */
  function Starts(occs: seq<Occ>, parse: Parser): seq<Stamp> {
    seq(|occs|, i requires 0 <= i < |occs| => parse(occs[i].debut))
  }

  /** The end stamps, in order. */
  function Ends(occs: seq<Occ>, parse: Parser): seq<Stamp> {
    seq(|occs|, i requires 0 <= i < |occs| => parse(EndText(occs[i])))
  }

  /** The value `minStart` ends with: the first stamp, replaced by every later stamp that is
      strictly before the current one. */
  function Earliest(ss: seq<Stamp>): Stamp
    requires |ss| > 0
    decreases |ss|
  {
    if |ss| == 1 then ss[0]
    else
      var acc := Earliest(ss[..|ss| - 1]);
      if Before(ss[|ss| - 1], acc) then ss[|ss| - 1] else acc
  }

  /** The value `maxEnd` ends with: the first stamp, replaced by every later stamp that is
      strictly after the current one. */
  function Latest(ss: seq<Stamp>): Stamp
    requires |ss| > 0
    decreases |ss|
  {
    if |ss| == 1 then ss[0]
    else
      var acc := Latest(ss[..|ss| - 1]);
      if Before(acc, ss[|ss| - 1]) then ss[|ss| - 1] else acc
  }

  /** `m` is the earliest valid stamp of `ss`, or an Invalid Date exactly when the first
      stamp is one (an invalid accumulator is never replaced, and an invalid stamp never
      replaces a valid one). */
  ghost predicate Least(ss: seq<Stamp>, m: Stamp)
    requires |ss| > 0
  {
    && (m.None? <==> ss[0].None?)
    && (m.Some? ==> m in ss && forall i :: 0 <= i < |ss| && ss[i].Some? ==> m.value.ms <= ss[i].value.ms)
  }

  ghost predicate Greatest(ss: seq<Stamp>, m: Stamp)
    requires |ss| > 0
  {
    && (m.None? <==> ss[0].None?)
    && (m.Some? ==> m in ss && forall i :: 0 <= i < |ss| && ss[i].Some? ==> ss[i].value.ms <= m.value.ms)
  }

  lemma {:induction false} EarliestLeast(ss: seq<Stamp>)
    requires |ss| > 0
    ensures Least(ss, Earliest(ss))
    decreases |ss|
  {
    if |ss| > 1 {
      var init := ss[..|ss| - 1];
      EarliestLeast(init);
      assert init[0] == ss[0];
      assert forall i :: 0 <= i < |init| ==> init[i] == ss[i];
    }
  }

  lemma {:induction false} LatestGreatest(ss: seq<Stamp>)
    requires |ss| > 0
    ensures Greatest(ss, Latest(ss))
    decreases |ss|
  {
    if |ss| > 1 {
      var init := ss[..|ss| - 1];
      LatestGreatest(init);
      assert init[0] == ss[0];
      assert forall i :: 0 <= i < |init| ==> init[i] == ss[i];
    }
  }

  /** The `{ start, end }` pair before rendering: `None` is null, `Some(None)` an Invalid
      Date, which `toISOString` refuses. */
  datatype Span = Span(start: Option<Stamp>, end: Option<Stamp>)

  /** What `computeRangeFromOccurrences` settles on before rendering. */
  function RangeOf(occs: seq<Occ>, parse: Parser): Span {
    if occs == [] then Span(None, None)
    else Span(Some(Earliest(Starts(occs, parse))), Some(Latest(Ends(occs, parse))))
  }

  /** No occurrences give no range; otherwise the start is the earliest `debut` and the end
      the latest `fin`, or `debut` where `fin` is missing. */
  lemma RangeBounds(occs: seq<Occ>, parse: Parser)
    ensures var r := RangeOf(occs, parse);
      && (r.start.None? <==> occs == [])
      && (r.end.None? <==> occs == [])
      && (occs != [] ==> Least(Starts(occs, parse), r.start.value))
      && (occs != [] ==> Greatest(Ends(occs, parse), r.end.value))
  {
    if occs != [] {
      EarliestLeast(Starts(occs, parse));
      LatestGreatest(Ends(occs, parse));
    }
  }

  /** One more stamp advances both folds by one comparison. */
  lemma FoldStep(ss: seq<Stamp>, i: nat)
    requires 0 < i < |ss|
    ensures var acc := Earliest(ss[..i]);
      Earliest(ss[..i + 1]) == if Before(ss[i], acc) then ss[i] else acc
    ensures var acc := Latest(ss[..i]);
      Latest(ss[..i + 1]) == if Before(acc, ss[i]) then ss[i] else acc
  {
    assert ss[..i + 1][..i] == ss[..i];
  }

  /** The loop of `computeRangeFromOccurrences`. */
  method ComputeRange(occs: seq<Occ>, parse: Parser) returns (r: Span)
    ensures r == RangeOf(occs, parse)
  {
    if |occs| == 0 {
      return Span(None, None);
    }
    var minStart: Option<Stamp> := None;
    var maxEnd: Option<Stamp> := None;
    ghost var starts, ends := Starts(occs, parse), Ends(occs, parse);
    for i := 0 to |occs|
      invariant minStart == (if i == 0 then None else Some(Earliest(starts[..i])))
      invariant maxEnd == (if i == 0 then None else Some(Latest(ends[..i])))
    {
      var o := occs[i];
      var s := parse(o.debut);
      var e := if o.fin.Some? && o.fin.value != [] then parse(o.fin.value) else parse(o.debut);
      assert s == starts[i];
      assert e == parse(EndText(o)) == ends[i];
      if i > 0 {
        FoldStep(starts, i);
        FoldStep(ends, i);
      }
      if minStart.None? || Before(s, minStart.value) {
        minStart := Some(s);
      }
      if maxEnd.None? || Before(maxEnd.value, e) {
        maxEnd := Some(e);
      }
    }
    assert starts[..|occs|] == starts && ends[..|occs|] == ends;
    r := Span(minStart, maxEnd);
  }

  /** `toISOString` throws a RangeError on an Invalid Date. */
  predicate Throws(r: Span) {
    r.start == Some(None) || r.end == Some(None)
  }

  // ---------------------------------------------------------------------------
  // Cards

  /** An event of the feed, with the fields the page reads. */
  datatype RawEvent = RawEvent(
    id: Json,
    titre: Option<string>,
    description: Option<string>,
    imageUrl: Option<string>,
    lieu: Option<string>,
    commune: Option<string>,
    occurrences: Option<seq<Occ>>)

  /** A card of the page. */
  datatype Card = Card(
    id: Json,
    title: Option<string>,
    description: Option<string>,
    imageUrl: string,
    lieu: Option<string>,
    rangeStart: Option<string>,
    rangeEnd: Option<string>,
    commune: Option<string>)

  const ImagePrefix: string := "https://img.openagenda.com/u/500x0/main/"
  const DefaultImage: string := "/assets/Concert.jpg"

  /** A truthy image name is served from the image host, anything else by the stock picture. */
  function ImageOf(u: Option<string>): string {
    if u.Some? && u.value != [] then ImagePrefix + u.value else DefaultImage
  }

  lemma ImageOfShape(u: Option<string>)
    ensures StartsWith(ImageOf(u), ImagePrefix) <==> u.Some? && u.value != []
    ensures u.Some? && u.value != [] ==> ImageOf(u)[|ImagePrefix|..] == u.value
    ensures !(u.Some? && u.value != []) ==> ImageOf(u) == DefaultImage
  {
    if !(u.Some? && u.value != []) {
      assert DefaultImage[0] != ImagePrefix[0];
    }
  }

  /** `e?.occurrences ?? []`. */
  function OccsOf(e: RawEvent): seq<Occ> {
    if e.occurrences.Some? then e.occurrences.value else []
  }

  /** The ISO text of a range end, null for a missing one. */
  function IsoOf(s: Option<Stamp>, iso: Moment -> string): Option<string>
    requires s != Some(None)
  {
    if s.Some? then Some(iso(s.value.value)) else None
  }

  function CardOf(e: RawEvent, r: Span, iso: Moment -> string): Card
    requires !Throws(r)
  {
    Card(e.id, e.titre, e.description, ImageOf(e.imageUrl), e.lieu,
         IsoOf(r.start, iso), IsoOf(r.end, iso), e.commune)
  }

  /** `list.map(...)` building the cards: `None` when `toISOString` throws on some event. */
  function Cards(list: seq<RawEvent>, parse: Parser, iso: Moment -> string): Option<seq<Card>>
    decreases |list|
  {
    if list == [] then Some([])
    else
      var last := list[|list| - 1];
      var r := RangeOf(OccsOf(last), parse);
      match Cards(list[..|list| - 1], parse, iso)
      case None => None
      case Some(cs) => if Throws(r) then None else Some(cs + [CardOf(last, r, iso)])
  }

  /** The cards of one more event. */
  lemma CardsStep(list: seq<RawEvent>, parse: Parser, iso: Moment -> string, i: nat, cards: seq<Card>)
    requires i < |list| && Cards(list[..i], parse, iso) == Some(cards)
    ensures var r := RangeOf(OccsOf(list[i]), parse);
      Cards(list[..i + 1], parse, iso) == if Throws(r) then None else Some(cards + [CardOf(list[i], r, iso)])
  {
    assert list[..i + 1][..i] == list[..i];
  }

  /** Once an event throws, the whole list does. */
  lemma {:induction false} CardsAbort(list: seq<RawEvent>, parse: Parser, iso: Moment -> string, k: nat)
    requires k <= |list| && Cards(list[..k], parse, iso).None?
    ensures Cards(list, parse, iso).None?
    decreases |list| - k
  {
    if k == |list| {
      assert list[..k] == list;
    } else {
      assert list[..k + 1][..k] == list[..k];
      CardsAbort(list, parse, iso, k + 1);
    }
  }

  /** The list throws exactly when some event's range has an end on an Invalid Date. */
  lemma {:induction false} CardsThrow(list: seq<RawEvent>, parse: Parser, iso: Moment -> string)
    ensures Cards(list, parse, iso).None? <==> exists i :: 0 <= i < |list| && Throws(RangeOf(OccsOf(list[i]), parse))
    decreases |list|
  {
    if list != [] {
      var init := list[..|list| - 1];
      CardsThrow(init, parse, iso);
      assert forall i :: 0 <= i < |init| ==> init[i] == list[i];
    }
  }

  /** Otherwise there is one card per event, in order, each built from its own range. */
  lemma {:induction false} CardsEach(list: seq<RawEvent>, parse: Parser, iso: Moment -> string)
    requires Cards(list, parse, iso).Some?
    ensures forall i :: 0 <= i < |list| ==> !Throws(RangeOf(OccsOf(list[i]), parse))
    ensures var cs := Cards(list, parse, iso).value;
      |cs| == |list| && forall i :: 0 <= i < |list| ==> cs[i] == CardOf(list[i], RangeOf(OccsOf(list[i]), parse), iso)
    decreases |list|
  {
    if list != [] {
      var init, last := list[..|list| - 1], list[|list| - 1];
      CardsEach(init, parse, iso);
      var cs := Cards(init, parse, iso).value;
      assert Cards(list, parse, iso).value == cs + [CardOf(last, RangeOf(OccsOf(last), parse), iso)];
      assert forall i :: 0 <= i < |init| ==> init[i] == list[i];
    }
  }

  /** A card states its range exactly when the event has occurrences. */
  lemma CardRange(e: RawEvent, parse: Parser, iso: Moment -> string)
    requires !Throws(RangeOf(OccsOf(e), parse))
    ensures var c := CardOf(e, RangeOf(OccsOf(e), parse), iso);
      && (c.rangeStart.Some? <==> OccsOf(e) != [])
      && (c.rangeEnd.Some? <==> OccsOf(e) != [])
      && c.id == e.id && c.title == e.titre && c.commune == e.commune
  {
  }

  // ---------------------------------------------------------------------------
  // The range label

  /** A stamp's calendar day in the browser's zone; `None` for an Invalid Date. */
  function DayOf(s: Stamp): Option<Day> {
    if s.Some? then Some(s.value.local) else None
  }

  /** `formatDateRange(start, end)`. `label` is `dateLabel` (day, short month and year) and
      `monthYear` the short month and year, both of the given day; they receive `None` for
      an Invalid Date. A part of a date that is NaN never equals another, so an invalid
      date falls through to the arrow form. */
  function FormatDateRange(start: Option<string>, end: Option<string>, parse: Parser,
                           dayLabel: Option<Day> -> string, monthYear: Option<Day> -> string): (r: string)
    ensures (start.None? || start.value == []) ==> r == []
    ensures start.Some? && start.value != [] && (end.None? || end.value == [])
      ==> r == dayLabel(DayOf(parse(start.value)))
  {
    if start.None? || start.value == [] then []
    else
      var d1 := DayOf(parse(start.value));
      if end.None? || end.value == [] then dayLabel(d1)
      else
        var d2 := DayOf(parse(end.value));
        if d1.Some? && d2.Some? && d1.value == d2.value then dayLabel(d1)
        else if d1.Some? && d2.Some? && d1.value.year == d2.value.year && d1.value.month == d2.value.month then
          IntToString(d1.value.day) + "\U{2013}" + IntToString(d2.value.day) + " " + monthYear(d1)
        else dayLabel(d1) + " \U{2192} " + dayLabel(d2)
  }

  /** Both ends on valid dates: one dayLabel for the same day, `d1–d2 <month year>` within one
      month, the two labels joined by an arrow otherwise. */
  lemma FormatBothEnds(start: string, end: string, parse: Parser,
                       dayLabel: Option<Day> -> string, monthYear: Option<Day> -> string)
    requires start != [] && end != [] && parse(start).Some? && parse(end).Some?
    ensures var d1, d2 := parse(start).value.local, parse(end).value.local;
      var r := FormatDateRange(Some(start), Some(end), parse, dayLabel, monthYear);
      && (d1 == d2 ==> r == dayLabel(Some(d1)))
      && (d1 != d2 && d1.year == d2.year && d1.month == d2.month
          ==> r == IntToString(d1.day) + "\U{2013}" + IntToString(d2.day) + " " + monthYear(Some(d1)))
      && ((d1.year != d2.year || d1.month != d2.month)
          ==> r == dayLabel(Some(d1)) + " \U{2192} " + dayLabel(Some(d2)))
  {
  }

  /** The dayLabel shows days, never hours: two starts (and two ends) that fall on the same
      calendar day, or are both invalid, give the same text. */
  lemma FormatDaysOnly(s1: string, s2: string, e1: Option<string>, e2: Option<string>, parse: Parser,
                       dayLabel: Option<Day> -> string, monthYear: Option<Day> -> string)
    requires s1 != [] && s2 != [] && DayOf(parse(s1)) == DayOf(parse(s2))
    requires (e1.None? || e1.value == []) <==> (e2.None? || e2.value == [])
    requires e1.Some? && e1.value != [] ==> DayOf(parse(e1.value)) == DayOf(parse(e2.value))
    ensures FormatDateRange(Some(s1), e1, parse, dayLabel, monthYear)
         == FormatDateRange(Some(s2), e2, parse, dayLabel, monthYear)
  {
  }

  /** Within one month the form names both days of the month, first the start's. */
  lemma FormatSameMonthDays(start: string, end: string, parse: Parser,
                            dayLabel: Option<Day> -> string, monthYear: Option<Day> -> string)
    requires start != [] && end != [] && parse(start).Some? && parse(end).Some?
    requires var d1, d2 := parse(start).value.local, parse(end).value.local;
      d1 != d2 && d1.year == d2.year && d1.month == d2.month
    ensures var r := FormatDateRange(Some(start), Some(end), parse, dayLabel, monthYear);
      var first := IntToString(parse(start).value.local.day);
      StartsWith(r, first) && r[|first|] == '\U{2013}'
  {
    var first := IntToString(parse(start).value.local.day);
    var r := FormatDateRange(Some(start), Some(end), parse, dayLabel, monthYear);
    assert r == first + ("\U{2013}" + IntToString(parse(end).value.local.day) + " " + monthYear(Some(parse(start).value.local)));
  }

  // ---------------------------------------------------------------------------
  // The title filter

  /** `(e.title || '')`. */
  function TitleText(c: Card): string {
    if c.title.Some? then c.title.value else ""
  }

  function TitleMatches(needle: string): Card -> bool {
    (c: Card) => Contains(ToLower(TitleText(c)), needle)
  }

  /** `filteredEvents` as written: the emptiness test trims the term, but the needle is the
      lowercased term with its white space kept. */
  function FilterAsWritten(events: seq<Card>, term: string): (r: seq<Card>)
    ensures Trim(term) == [] ==> r == events
  {
    if Trim(term) == [] then events else Filter(events, TitleMatches(ToLower(term)))
  }

  /** The filter with the needle trimmed as the emptiness test is: all events for a blank
      term, otherwise those whose lowercased title contains the lowercased trimmed term. */
  function Filtered(events: seq<Card>, term: string): (r: seq<Card>)
    ensures Trim(term) == [] ==> r == events
    ensures |r| <= |events|
  {
    if Trim(term) == [] then events else Filter(events, TitleMatches(ToLower(Trim(term))))
  }

  lemma TrimPaddedJazz()
    ensures Trim("jazz ") == "jazz"
  {
    assert TrimStart("jazz ") == "jazz ";
    assert "jazz "[..4] == "jazz";
    assert TrimEnd("jazz") == "jazz";
  }

  lemma LowerJazz()
    ensures ToLower("Jazz") == "jazz"
  {
    assert ToLower("Jazz")[0] == LowerChar('J') == 'j';
  }

  /** A search for "jazz " hides an event titled "Jazz" as written, and shows it once the
      needle is trimmed. */
  lemma PaddedTermHidesMatch()
    ensures var c := Card(JNum("1"), Some("Jazz"), None, DefaultImage, None, None, None, None);
      FilterAsWritten([c], "jazz ") == [] && Filtered([c], "jazz ") == [c]
  {
    var c := Card(JNum("1"), Some("Jazz"), None, DefaultImage, None, None, None, None);
    TrimPaddedJazz();
    LowerJazz();
    assert OccursAt("jazz", "jazz", 0) by {
      assert "jazz"[0..4] == "jazz";
    }
    assert TitleMatches("jazz")(c);
    assert !TitleMatches(ToLower("jazz "))(c) by {
      assert |ToLower("jazz ")| == 5;
    }
    assert [c][1..] == [];
  }

  /** Surrounding white space in the term changes nothing. */
  lemma FilteredPadding(events: seq<Card>, term: string)
    ensures Filtered(events, term) == Filtered(events, Trim(term))
  {
    TrimIdempotent(term);
  }

  /** For a non-blank term a card is shown exactly when it is an event of the page whose
      lowercased title contains the lowercased trimmed term. */
  lemma FilteredMembers(events: seq<Card>, term: string, c: Card)
    requires Trim(term) != []
    ensures c in Filtered(events, term) <==> c in events && Contains(ToLower(TitleText(c)), ToLower(Trim(term)))
  {
    if c in events && Contains(ToLower(TitleText(c)), ToLower(Trim(term))) {
      FilterKeeps(events, TitleMatches(ToLower(Trim(term))), c);
    }
  }

  /** The shown list keeps the page's order (filtering a concatenation filters each part). */
  lemma FilteredOrder(a: seq<Card>, b: seq<Card>, term: string)
    ensures Filtered(a + b, term) == Filtered(a, term) + Filtered(b, term)
  {
    if Trim(term) != [] {
      FilterAppend(a, b, TitleMatches(ToLower(Trim(term))));
    }
  }

  /** As written, for a non-blank term a card is shown exactly when it is an event of the
      page whose lowercased title contains the lowercased term, white space included. */
  lemma FilterAsWrittenMembers(events: seq<Card>, term: string, c: Card)
    requires Trim(term) != []
    ensures c in FilterAsWritten(events, term) <==> c in events && Contains(ToLower(TitleText(c)), ToLower(term))
  {
    if c in events && Contains(ToLower(TitleText(c)), ToLower(term)) {
      FilterKeeps(events, TitleMatches(ToLower(term)), c);
    }
  }

  lemma FilterAsWrittenExactly(events: seq<Card>, term: string)
    requires Trim(term) != []
    ensures forall c :: c in FilterAsWritten(events, term) <==> c in events && Contains(ToLower(TitleText(c)), ToLower(term))
  {
    forall c
      ensures c in FilterAsWritten(events, term) <==> c in events && Contains(ToLower(TitleText(c)), ToLower(term))
    {
      FilterAsWrittenMembers(events, term, c);
    }
  }

  /** The list as written also keeps the page's order. */
  lemma FilterAsWrittenOrder(a: seq<Card>, b: seq<Card>, term: string)
    ensures FilterAsWritten(a + b, term) == FilterAsWritten(a, term) + FilterAsWritten(b, term)
  {
    if Trim(term) != [] {
      FilterAppend(a, b, TitleMatches(ToLower(term)));
    }
  }

  // ---------------------------------------------------------------------------
  // The request `loadEvents` sends

  /** The request for the current term, place and session: with a non-blank term or place,
      the upcoming events in date order with the trimmed term and place; otherwise the
      recommendations under an explicit bearer header when logged in with a truthy token,
      else the home feed; twenty items in every case. */
  predicate HomeQuery(q: Query, term: string, location: string, isLoggedIn: bool, token: Option<Json>) {
    var t, l := Trim(term), Trim(location);
    if t != [] || l != [] then
      && q.url == EventsUrl && q.authorization.None?
      && q.params.Keys == {Limit, FutureOnly, Order} + (if t != [] then {Q} else {}) + (if l != [] then {City} else {})
      && q.params[Limit] == ["20"] && q.params[FutureOnly] == ["true"] && q.params[Order] == ["date_asc"]
      && (t != [] ==> q.params[Q] == [t])
      && (l != [] ==> q.params[City] == [l])
    else
      var reco := isLoggedIn && TruthyToken(token);
      && q.url == (if reco then RecoUrl else HomeUrl)
      && q.authorization == (if reco then Some(Bearer(token.value)) else None)
      && q.params == map[Limit := ["20"]]
  }

  /** The parameters of the search request, set one after another: twenty upcoming events
      in date order, and the term and the place when they are non-empty. */
  method SearchParams(t: string, l: string) returns (params: Params)
    ensures params.Keys == {Limit, FutureOnly, Order} + (if t != [] then {Q} else {}) + (if l != [] then {City} else {})
    ensures params[Limit] == ["20"] && params[FutureOnly] == ["true"] && params[Order] == ["date_asc"]
    ensures t != [] ==> params[Q] == [t]
    ensures l != [] ==> params[City] == [l]
  {
    params := map[];
    params := SetParam(params, Limit, "20");
    params := SetParam(params, FutureOnly, "true");
    params := SetParam(params, Order, "date_asc");
    if t != [] {
      params := SetParam(params, Q, t);
    }
    if l != [] {
      params := SetParam(params, City, l);
    }
  }

  lemma UrlsDiffer()
    ensures EventsUrl != RecoUrl && EventsUrl != HomeUrl && RecoUrl != HomeUrl
  {
    assert |EventsUrl| < |RecoUrl| && |EventsUrl| < |HomeUrl|;
    assert RecoUrl[|EventsUrl| + 1] == 'r' && HomeUrl[|EventsUrl| + 1] == 'h';
  }

  /** The search endpoint is used exactly when the trimmed term or place is non-empty, and
      the term and place it carries have no surrounding white space. */
  lemma HomeQueryFiltered(q: Query, term: string, location: string, isLoggedIn: bool, token: Option<Json>)
    requires HomeQuery(q, term, location, isLoggedIn, token)
    ensures q.url == EventsUrl <==> Trim(term) != [] || Trim(location) != []
    ensures Q in q.params ==> |q.params[Q]| == 1 && Trim(q.params[Q][0]) == q.params[Q][0] != []
    ensures City in q.params ==> |q.params[City]| == 1 && Trim(q.params[City][0]) == q.params[City][0] != []
  {
    UrlsDiffer();
    TrimIdempotent(term);
    TrimIdempotent(location);
  }

  /** White space around the term and the place changes nothing in the request. */
  lemma HomeQueryPadding(q: Query, term: string, location: string, isLoggedIn: bool, token: Option<Json>)
    ensures HomeQuery(q, term, location, isLoggedIn, token)
       <==> HomeQuery(q, Trim(term), Trim(location), isLoggedIn, token)
  {
    TrimIdempotent(term);
    TrimIdempotent(location);
  }

  /** Only an unfiltered request of a logged-in page with a truthy token is retried, on a
      401 or 403, on the home feed with the same twenty-item query. */
  lemma HomeRetry(q: Query, term: string, location: string, isLoggedIn: bool, token: Option<Json>, status: int)
    requires HomeQuery(q, term, location, isLoggedIn, token)
    ensures RetryOnError(q, status).Some?
        <==> Trim(term) == [] && Trim(location) == [] && isLoggedIn && TruthyToken(token)
             && (status == 401 || status == 403)
    ensures RetryOnError(q, status).Some? ==> RetryOnError(q, status).value == Query(HomeUrl, map[Limit := ["20"]], None)
  {
    UrlsDiffer();
  }

  /** A logged-out page never asks for recommendations nor sets a header itself. */
  lemma LoggedOutNoReco(q: Query, term: string, location: string, token: Option<Json>)
    requires HomeQuery(q, term, location, false, token)
    ensures q.url != RecoUrl && q.authorization.None?
  {
    UrlsDiffer();
  }

  const SelectedTitle: string := "\U{00C9}v\U{00E9}nements s\U{00E9}lectionn\U{00E9}s pour vous"
  const PlainTitle: string := "\U{00C9}v\U{00E9}nements pour vous"

  // ---------------------------------------------------------------------------
  // The component

  class HomeComponent {
    const auth: AuthService
    var events: seq<Card>
    var isLoggedIn: bool
    /** `user?.id ?? null`. */
    var userId: Option<Json>
    var searchTerm: string
    var location: string
    var loading: bool

    constructor (auth: AuthService)
      ensures this.auth == auth && events == [] && !isLoggedIn && userId.None?
      ensures searchTerm == [] && location == [] && !loading
    {
      this.auth := auth;
      events := [];
      isLoggedIn := false;
      userId := None;
      searchTerm := [];
      location := [];
      loading := false;
    }

    /** `showHero`. */
    function ShowHero(): (r: bool)
      reads this
      ensures r <==> !isLoggedIn && Trim(searchTerm) == []
    {
      !isLoggedIn && |Trim(searchTerm)| == 0
    }

    /** `sectionTitle`. */
    function SectionTitle(): (r: string)
      reads this
      ensures r == SelectedTitle <==> isLoggedIn
      ensures r == PlainTitle <==> !isLoggedIn
    {
      assert SelectedTitle != PlainTitle by { assert |SelectedTitle| != |PlainTitle|; }
      if isLoggedIn then SelectedTitle else PlainTitle
    }

    /** The `filteredEvents` getter as written: every event for a blank trimmed term,
        otherwise the events whose lowercased title contains the lowercased untrimmed
        term. */
    function FilteredEvents(): (r: seq<Card>)
      reads this
      ensures Trim(searchTerm) == [] ==> r == events
      ensures Trim(searchTerm) != [] ==>
        forall c :: c in r <==> c in events && Contains(ToLower(TitleText(c)), ToLower(searchTerm))
    {
      if Trim(searchTerm) != [] then FilterAsWrittenExactly(events, searchTerm); FilterAsWritten(events, searchTerm)
      else FilterAsWritten(events, searchTerm)
    }

    /** `loadEvents`: sets `loading` and returns the request it sends. */
    method LoadEvents() returns (q: Query)
      modifies this`loading
      ensures loading && HomeQuery(q, searchTerm, location, isLoggedIn, auth.GetToken())
    {
      loading := true;
      var t, l := Trim(searchTerm), Trim(location);
      if |t| > 0 || |l| > 0 {
        var params := SearchParams(t, l);
        return Query(EventsUrl, params, None);
      }
      var token := auth.GetToken();
      var useReco := isLoggedIn && TruthyToken(token);
      var url := if useReco then RecoUrl else HomeUrl;
      var params := SetParam(map[], Limit, "20");
      q := Query(url, params, if useReco then Some(Bearer(token.value)) else None);
    }

    /** `handleEvents`: the cards of the list (null as empty), and the page stops loading;
        when `toISOString` throws, nothing is assigned. */
    method HandleEvents(data: Option<seq<RawEvent>>, parse: Parser, iso: Moment -> string) returns (thrown: bool)
      modifies this`events, this`loading
      ensures var cards := Cards(if data.Some? then data.value else [], parse, iso);
        && (thrown <==> cards.None?)
        && (thrown ==> events == old(events) && loading == old(loading))
        && (!thrown ==> events == cards.value && !loading)
    {
      var list := if data.Some? then data.value else [];
      var cards: seq<Card> := [];
      for i := 0 to |list|
        invariant Cards(list[..i], parse, iso) == Some(cards)
        invariant events == old(events) && loading == old(loading)
      {
        var r := ComputeRange(OccsOf(list[i]), parse);
        CardsStep(list, parse, iso, i, cards);
        if Throws(r) {
          CardsAbort(list, parse, iso, i + 1);
          return true;
        }
        cards := cards + [CardOf(list[i], r, iso)];
      }
      assert list[..|list|] == list;
      events := cards;
      loading := false;
      thrown := false;
    }

    /** `handleError`. */
    method HandleError()
      modifies this`events, this`loading
      ensures events == [] && !loading
    {
      events := [];
      loading := false;
    }

    /** The error callback of a request `LoadEvents` sent: the retry on the home feed when
        there is one, the error handler otherwise. */
    method OnLoadError(q: Query, status: int) returns (retry: Option<Query>)
      modifies this`events, this`loading
      ensures retry == RetryOnError(q, status)
      ensures retry.Some? ==> events == old(events) && loading == old(loading)
      ensures retry.None? ==> events == [] && !loading
    {
      retry := RetryOnError(q, status);
      if retry.None? {
        HandleError();
      }
    }

    /** The `isLoggedIn$` handler. */
    method OnLoggedIn(v: bool) returns (q: Query)
      modifies this`isLoggedIn, this`loading
      ensures isLoggedIn == v && loading && HomeQuery(q, searchTerm, location, v, auth.GetToken())
    {
      isLoggedIn := v;
      q := LoadEvents();
    }

    /** The `searchTerm$` handler. */
    method OnSearchTerm(term: string) returns (q: Query)
      modifies this`searchTerm, this`loading
      ensures searchTerm == term && loading && HomeQuery(q, term, location, isLoggedIn, auth.GetToken())
    {
      searchTerm := term;
      q := LoadEvents();
    }

    /** The `location$` handler. */
    method OnLocation(loc: string) returns (q: Query)
      modifies this`location, this`loading
      ensures location == loc && loading && HomeQuery(q, searchTerm, loc, isLoggedIn, auth.GetToken())
    {
      location := loc;
      q := LoadEvents();
    }

    /** `ngOnInit`. The flag and the id come from `getUser()`; each subject then delivers
        its current value at once (`loggedIn`, and the navbar's `term` and `loc`), each
        delivery loading the feed, and a last load follows. */
    method OnInit(term: string, loc: string) returns (sent: seq<Query>)
      modifies this`isLoggedIn, this`userId, this`searchTerm, this`location, this`loading
      ensures isLoggedIn == auth.loggedIn && searchTerm == term && location == loc && loading
      ensures userId == (if auth.GetUser().Some? then NonNull(Get(auth.GetUser().value, "id")) else None)
      ensures |sent| == 4
      ensures HomeQuery(sent[0], old(searchTerm), old(location), auth.loggedIn, auth.GetToken())
      ensures HomeQuery(sent[1], term, old(location), auth.loggedIn, auth.GetToken())
      ensures HomeQuery(sent[2], term, loc, auth.loggedIn, auth.GetToken())
      ensures HomeQuery(sent[3], term, loc, auth.loggedIn, auth.GetToken())
    {
      var user := auth.GetUser();
      isLoggedIn := user.Some?;
      userId := if user.Some? then NonNull(Get(user.value, "id")) else None;
      var q0 := OnLoggedIn(auth.loggedIn);
      var q1 := OnSearchTerm(term);
      var q2 := OnLocation(loc);
      var q3 := LoadEvents();
      sent := [q0, q1, q2, q3];
    }
  }
}
