/** The event list page (`EventListComponent`): the filter form with its keyword chips,
    paging, the two kinds of request it sends (the filtered search and the default
    recommendation or home feed), the next start shown on each card and the rating stars. */
module EventList {
  import opened Common
  import opened Text
  import opened Civil
  import opened Json
  import opened Session
  import Interceptor

  // ---------------------------------------------------------------------------
  // Keyword normalization (`normalizeKw`)

  /** The characters of `\p{Diacritic}` that the keywords can hold once decomposed: the
      combining diacritical marks (U+0300 to U+034E, U+0350 to U+0357, U+035D to U+0362),
      which canonical decomposition (NFD) splits off the accented Latin letters, and the
      spacing accents of ASCII and Latin-1. `replace(/\p{Diacritic}/gu, '')` removes them. */
  predicate IsMark(c: char) {
    ('\U{0300}' <= c <= '\U{034E}') || ('\U{0350}' <= c <= '\U{0357}') || ('\U{035D}' <= c <= '\U{0362}')
    || c == '^' || c == '`' || c == '\U{00A8}' || c == '\U{00AF}' || c == '\U{00B4}'
    || c == '\U{00B7}' || c == '\U{00B8}'
  }

  /** The letter an accented letter of Latin Extended-A decomposes to. The letters with no
      canonical decomposition (such as `Đ`, `Ħ`, `ı`, `Ł`, `Ŋ`, `Œ`, `Ŧ`, and `Ĳ`, `ŀ`,
      `ŉ`, `ſ`, which only decompose for compatibility) are kept. Upper case sits on the
      even code points except in the `L`, `N` and `Z` runs. */
  function ExtendedBase(c: char): char
    requires '\U{0100}' <= c <= '\U{017F}'
  {
    var up := (c as int) % 2 == 0;
    if c <= '\U{0105}' then (if up then 'A' else 'a')
    else if c <= '\U{010D}' then (if up then 'C' else 'c')
    else if c <= '\U{010F}' then (if up then 'D' else 'd')
    else if c <= '\U{0111}' then c
    else if c <= '\U{011B}' then (if up then 'E' else 'e')
    else if c <= '\U{0123}' then (if up then 'G' else 'g')
    else if c <= '\U{0125}' then (if up then 'H' else 'h')
    else if c <= '\U{0127}' then c
    else if c <= '\U{0130}' then (if up then 'I' else 'i')
    else if c <= '\U{0133}' then c
    else if c <= '\U{0135}' then (if up then 'J' else 'j')
    else if c <= '\U{0137}' then (if up then 'K' else 'k')
    else if c <= '\U{0138}' then c
    else if c <= '\U{013E}' then (if up then 'l' else 'L')
    else if c <= '\U{0142}' then c
    else if c <= '\U{0148}' then (if up then 'n' else 'N')
    else if c <= '\U{014B}' then c
    else if c <= '\U{0151}' then (if up then 'O' else 'o')
    else if c <= '\U{0153}' then c
    else if c <= '\U{0159}' then (if up then 'R' else 'r')
    else if c <= '\U{0161}' then (if up then 'S' else 's')
    else if c <= '\U{0165}' then (if up then 'T' else 't')
    else if c <= '\U{0167}' then c
    else if c <= '\U{0173}' then (if up then 'U' else 'u')
    else if c <= '\U{0175}' then (if up then 'W' else 'w')
    else if c <= '\U{0177}' then (if up then 'Y' else 'y')
    else if c == '\U{0178}' then 'Y'
    else if c <= '\U{017E}' then (if up then 'z' else 'Z')
    else c
  }

  /** The letter an accented Latin-1 or Latin Extended-A letter decomposes to; every other
      character is kept. */
  function BaseLetter(c: char): char {
    if '\U{00C0}' <= c <= '\U{00C5}' then 'A'
    else if c == '\U{00C7}' then 'C'
    else if '\U{00C8}' <= c <= '\U{00CB}' then 'E'
    else if '\U{00CC}' <= c <= '\U{00CF}' then 'I'
    else if c == '\U{00D1}' then 'N'
    else if '\U{00D2}' <= c <= '\U{00D6}' then 'O'
    else if '\U{00D9}' <= c <= '\U{00DC}' then 'U'
    else if c == '\U{00DD}' then 'Y'
    else if '\U{00E0}' <= c <= '\U{00E5}' then 'a'
    else if c == '\U{00E7}' then 'c'
    else if '\U{00E8}' <= c <= '\U{00EB}' then 'e'
    else if '\U{00EC}' <= c <= '\U{00EF}' then 'i'
    else if c == '\U{00F1}' then 'n'
    else if '\U{00F2}' <= c <= '\U{00F6}' then 'o'
    else if '\U{00F9}' <= c <= '\U{00FC}' then 'u'
    else if c == '\U{00FD}' || c == '\U{00FF}' then 'y'
    else if '\U{0100}' <= c <= '\U{017F}' then ExtendedBase(c)
    else c
  }

  /** A character with no accent of its own. */
  predicate Plain(c: char) {
    !IsMark(c) && BaseLetter(c) == c
  }

  /** A character `normalizeKw` leaves as it is. */
  predicate Folded(c: char) {
    Plain(c) && LowerChar(c) == c
  }

  /** `normalize('NFD').replace(/\p{Diacritic}/gu, '')`: accents are dropped and accented
      letters become their base letters. */
  function StripDiacritics(s: string): string {
    if s == [] then [] else (if IsMark(s[0]) then [] else [BaseLetter(s[0])]) + StripDiacritics(s[1..])
  }

  /** No accent is left after stripping. */
  lemma {:induction false} StripPlain(s: string)
    ensures forall i :: 0 <= i < |StripDiacritics(s)| ==> Plain(StripDiacritics(s)[i])
  {
    if s != [] {
      StripPlain(s[1..]);
      PlainBase(s[0]);
    }
  }

  lemma PlainBase(c: char)
    ensures !IsMark(c) ==> Plain(BaseLetter(c))
  {
    if '\U{0100}' <= c <= '\U{017F}' {
      ExtendedBasePlain(c);
    }
  }

  lemma ExtendedBasePlain(c: char)
    requires '\U{0100}' <= c <= '\U{017F}'
    ensures Plain(ExtendedBase(c))
  {
  }

  /** Lower-casing a plain character gives a character `normalizeKw` keeps. */
  lemma LowerPlain(c: char)
    requires Plain(c)
    ensures Folded(LowerChar(c))
  {
    LowerCharIdempotent(c);
    if '\U{0100}' <= c <= '\U{017F}' {
      LowerPlainExtended(c);
    } else if c < '\U{0100}' {
      LowerPlainLatin1(c);
    }
  }

  lemma LowerPlainLatin1(c: char)
    requires c < '\U{0100}' && Plain(c)
    ensures Plain(LowerChar(c))
  {
  }

  lemma LowerPlainExtended(c: char)
    requires '\U{0100}' <= c <= '\U{017F}' && Plain(c)
    ensures Plain(LowerChar(c))
  {
    if c < '\U{0140}' {
      LowerPlainExtendedLow(c);
    } else {
      LowerPlainExtendedHigh(c);
    }
  }

  lemma LowerPlainExtendedLow(c: char)
    requires '\U{0100}' <= c < '\U{0140}' && Plain(c)
    ensures Plain(LowerChar(c))
  {
  }

  lemma LowerPlainExtendedHigh(c: char)
    requires '\U{0140}' <= c <= '\U{017F}' && Plain(c)
    ensures Plain(LowerChar(c))
  {
    // The two halves of the range separately.
    if c < '\U{0160}' {
      assert Plain(LowerChar(c));
    } else {
      assert Plain(LowerChar(c));
    }
  }

  /** `normalizeKw`: accents removed, lower case, trimmed. */
  function NormalizeKw(s: string): string {
    Trim(ToLower(StripDiacritics(s)))
  }

  /** A normalized keyword has no accent, no capital and no white space at either end. */
  lemma NormalizedFolded(s: string)
    ensures var k := NormalizeKw(s);
      (forall i :: 0 <= i < |k| ==> Folded(k[i])) && (k == [] || (!IsSpace(k[0]) && !IsSpace(k[|k| - 1])))
  {
    var t := ToLower(StripDiacritics(s));
    StripPlain(s);
    forall i | 0 <= i < |t|
      ensures Folded(t[i])
    {
      LowerPlain(StripDiacritics(s)[i]);
    }
    TrimIsInfix(t);
    TrimShape(t);
  }

  lemma {:induction false} StripFolded(s: string)
    requires forall i :: 0 <= i < |s| ==> Folded(s[i])
    ensures StripDiacritics(s) == s
  {
    if s != [] {
      StripFolded(s[1..]);
    }
  }

  /** Normalizing a normalized keyword changes nothing, so the `kw_any`/`kw_none` values sent
      are the chips the user sees. */
  lemma NormalizeIdempotent(s: string)
    ensures NormalizeKw(NormalizeKw(s)) == NormalizeKw(s)
  {
    var k := NormalizeKw(s);
    NormalizedFolded(s);
    StripFolded(k);
    assert ToLower(k) == k;
    TrimIdempotent(ToLower(StripDiacritics(s)));
  }

  /** Which chip list `addKeyword` adds to (`'include'`, the default, or `'exclude'`). */
  datatype Mode = Include | Exclude

  /** A keyword chip list as the page keeps it: no repeats, each entry normalized and
      non-empty. */
  predicate Keywords(kws: seq<string>) {
    Distinct(kws) && forall k :: k in kws ==> k != [] && NormalizeKw(k) == k
  }

  /** `kws.map(normalizeKw)`, the values appended one by one. */
  function NormalizeAll(kws: seq<string>): (r: seq<string>)
    ensures |r| == |kws| && forall i :: 0 <= i < |kws| ==> r[i] == NormalizeKw(kws[i])
  {
    seq(|kws|, i requires 0 <= i < |kws| => NormalizeKw(kws[i]))
  }

  /** The keywords the page holds are sent exactly as they are. */
  lemma SentAsStored(kws: seq<string>)
    requires Keywords(kws)
    ensures NormalizeAll(kws) == kws
  {
  }

  // ---------------------------------------------------------------------------
  // `nextStart`

  /** One element of an event's `occurrences`; `None` for a missing element or `debut`. */
  datatype RawOcc = RawOcc(debut: Option<string>)

  /** `o?.debut ? Date.parse(o.debut) : NaN`, with NaN as `None`. */
  function Timestamp(parse: Parser, o: RawOcc): (r: Option<int>)
    ensures r.Some? ==> o.debut.Some? && o.debut.value != []
  {
    if o.debut.Some? && o.debut.value != [] then
      match parse(o.debut.value)
      case Some(m) => Some(m.ms)
      case None => None
    else None
  }

  /** An occurrence that starts at or after `now`. */
  predicate Upcoming(parse: Parser, now: int, o: RawOcc) {
    Timestamp(parse, o).Some? && Timestamp(parse, o).value >= now
  }

  /** Occurrence `i` is the earliest upcoming one, and no earlier position starts at the
      same time. */
  predicate Earliest(occ: seq<RawOcc>, parse: Parser, now: int, i: int) {
    && 0 <= i < |occ| && Upcoming(parse, now, occ[i])
    && (forall j :: 0 <= j < i && Upcoming(parse, now, occ[j]) ==>
          Timestamp(parse, occ[j]).value > Timestamp(parse, occ[i]).value)
    && (forall j :: i < j < |occ| && Upcoming(parse, now, occ[j]) ==>
          Timestamp(parse, occ[j]).value >= Timestamp(parse, occ[i]).value)
  }

  /** At most one position is the earliest. */
  lemma EarliestUnique(occ: seq<RawOcc>, parse: Parser, now: int, i: int, k: int)
    requires Earliest(occ, parse, now, i) && Earliest(occ, parse, now, k)
    ensures i == k
  {
  }

  /** `nextStart(occurrences)`: the `debut` of the earliest upcoming occurrence, or null when
      the value is not an array or nothing is upcoming. `bestTs` starts at +infinity,
      written `None` here. */
  method NextStart(occurrences: Option<seq<RawOcc>>, parse: Parser, now: int) returns (best: Option<string>)
    ensures best.None? <==>
      (occurrences.None? || forall j :: 0 <= j < |occurrences.value| ==> !Upcoming(parse, now, occurrences.value[j]))
    ensures best.Some? ==>
      (occurrences.Some? && exists i :: Earliest(occurrences.value, parse, now, i) && best == occurrences.value[i].debut)
  {
    if occurrences.None? {
      return None;
    }
    var occ := occurrences.value;
    var bestTs: Option<int> := None;
    best := None;
    ghost var at := -1;
    for i := 0 to |occ|
      invariant bestTs.None? <==> forall j :: 0 <= j < i ==> !Upcoming(parse, now, occ[j])
      invariant best.None? <==> bestTs.None?
      invariant bestTs.Some? ==>
        (&& 0 <= at < i && Upcoming(parse, now, occ[at])
         && Timestamp(parse, occ[at]) == bestTs && best == occ[at].debut
         && (forall j :: 0 <= j < at && Upcoming(parse, now, occ[j]) ==> Timestamp(parse, occ[j]).value > bestTs.value)
         && (forall j :: at < j < i && Upcoming(parse, now, occ[j]) ==> Timestamp(parse, occ[j]).value >= bestTs.value))
    {
      var ts := Timestamp(parse, occ[i]);
      if ts.Some? && ts.value >= now && (bestTs.None? || ts.value < bestTs.value) {
        bestTs := ts;
        best := occ[i].debut;
        at := i;
      }
    }
    if best.Some? {
      assert Earliest(occ, parse, now, at);
    }
  }

  // ---------------------------------------------------------------------------
  // `makeStars`

  datatype Star = Full | Empty

  /** `Math.round`: to the nearest integer, halves upwards. */
  function Round(x: real): (n: int)
    ensures n as real - 0.5 <= x < n as real + 0.5
  {
    (x + 0.5).Floor
  }

  /** The number of full stars: `round(avg)` kept within 0..5, none for a null average. */
  function FullCount(avg: Option<real>): (n: nat)
    ensures n <= 5
  {
    match avg
    case None => 0
    case Some(a) => if Round(a) < 0 then 0 else if Round(a) > 5 then 5 else Round(a)
  }

  /** `makeStars(avg)`. */
  function MakeStars(avg: Option<real>): (r: seq<Star>)
    ensures |r| == 5
    ensures avg.None? ==> forall i :: 0 <= i < 5 ==> r[i] == Empty
    ensures avg.Some? ==> forall i :: 0 <= i < 5 ==> (r[i] == Full <==> i < Round(avg.value))
  {
    match avg
    case None => seq(5, _ => Empty)
    case Some(a) => seq(5, i => if i < Round(a) then Full else Empty)
  }

  /** The stars are `FullCount(avg)` full ones followed by empty ones. */
  lemma StarsFullFirst(avg: Option<real>)
    ensures MakeStars(avg) == seq(FullCount(avg), _ => Full) + seq(5 - FullCount(avg), _ => Empty)
  {
    var r := MakeStars(avg);
    var n := FullCount(avg);
    var t := seq(n, _ => Full) + seq(5 - n, _ => Empty);
    forall i | 0 <= i < 5
      ensures r[i] == t[i]
    {
      if i < n {
        assert t[i] == Full;
      } else {
        assert t[i] == Empty;
      }
    }
  }

  // ---------------------------------------------------------------------------
  // Requests

  /** The query parameters the page sends. */
  datatype Param =
    | Page | PerPage | FutureOnly | Order | Q | City | DateFrom | DateTo | HourFrom | HourTo
    | Lat | Lon | RadiusKm | AgeMinLte | AgeMaxGte | KwAny | KwNone | Limit | Offset
  {
    /** The name on the wire. */
    function Name(): string {
      match this
      case Page => "page" case PerPage => "per_page" case FutureOnly => "future_only"
      case Order => "order" case Q => "q" case City => "city" case DateFrom => "date_from"
      case DateTo => "date_to" case HourFrom => "hour_from" case HourTo => "hour_to"
      case Lat => "lat" case Lon => "lon" case RadiusKm => "radius_km"
      case AgeMinLte => "age_min_lte" case AgeMaxGte => "age_max_gte" case KwAny => "kw_any"
      case KwNone => "kw_none" case Limit => "limit" case Offset => "offset"
    }
  }

  /** `HttpParams`: the values sent under each parameter (`set` replaces, `append` adds). */
  type Params = map<Param, seq<string>>

  function Values(p: Params, key: Param): seq<string> {
    if key in p then p[key] else []
  }

  function SetParam(p: Params, key: Param, v: string): Params {
    p[key := [v]]
  }

  function AppendParam(p: Params, key: Param, v: string): Params {
    p[key := Values(p, key) + [v]]
  }

  /** A request: URL, query and the `Authorization` header, when the page sets one itself. */
  datatype Query = Query(url: string, params: Params, authorization: Option<string>)

  /** The filter fields of the form. The numbers (hours, ages, the coordinates and the
      radius) are kept as the text `String(x)` gives for them, `None` being null. */
  datatype Filters = Filters(
    q: string, city: string, dateFrom: string, dateTo: string,
    hourFrom: Option<string>, hourTo: Option<string>,
    ageMinLte: Option<string>, ageMaxGte: Option<string>,
    kwInclude: seq<string>, kwExclude: seq<string>,
    radiusKm: Option<string>, lat: Option<string>, lon: Option<string>)

  /** The form after `clearFilters`. */
  const NoFilters: Filters := Filters("", "", "", "", None, None, None, None, [], [], None, None, None)

  /** `hasFilters` in `load`. */
  predicate HasFilters(f: Filters) {
    Trim(f.q) != [] || Trim(f.city) != [] || f.dateFrom != [] || f.dateTo != []
    || f.hourFrom.Some? || f.hourTo.Some? || f.ageMinLte.Some? || f.ageMaxGte.Some?
    || |f.kwInclude| > 0 || |f.kwExclude| > 0
    || f.lat.Some? || f.lon.Some? || f.radiusKm.Some?
  }

  function NonEmpty(s: string): Option<string> {
    if s != [] then Some(s) else None
  }

  /** The parameter `key` carries the values `vs`, in order, and is absent when there are none. */
  predicate Listed(p: Params, key: Param, vs: seq<string>) {
    if vs == [] then key !in p else key in p && p[key] == vs
  }

  function OptSeq(v: Option<string>): seq<string> {
    if v.Some? then [v.value] else []
  }

  /** The texts `loadWithFilters` computes from the form before setting them: the paging
      numbers, the trimmed search text and city when something is left, each other filter
      when set, and the normalized keywords. */
  datatype Wire = Wire(
    page: string, perPage: string, q: Option<string>, city: Option<string>,
    dateFrom: Option<string>, dateTo: Option<string>, hourFrom: Option<string>, hourTo: Option<string>,
    lat: Option<string>, lon: Option<string>, radiusKm: Option<string>,
    ageMinLte: Option<string>, ageMaxGte: Option<string>, kwAny: seq<string>, kwNone: seq<string>)

  function WireOf(f: Filters, page: int, perPage: int): Wire {
    Wire(IntToString(page), IntToString(perPage), NonEmpty(Trim(f.q)), NonEmpty(Trim(f.city)),
      NonEmpty(f.dateFrom), NonEmpty(f.dateTo), f.hourFrom, f.hourTo,
      f.lat, f.lon, f.radiusKm, f.ageMinLte, f.ageMaxGte,
      NormalizeAll(f.kwInclude), NormalizeAll(f.kwExclude))
  }

  /** The values `loadWithFilters` sends under each parameter: paging, future events in date
      order, each filter that is set, the centre only when both coordinates are set (and the
      radius only with it), and one `kw_any`/`kw_none` per keyword. */
  function Expected(k: Param, w: Wire): seq<string> {
    var both := w.lat.Some? && w.lon.Some?;
    match k
    case Page => [w.page]
    case PerPage => [w.perPage]
    case FutureOnly => ["true"]
    case Order => ["date_asc"]
    case Q => OptSeq(w.q)
    case City => OptSeq(w.city)
    case DateFrom => OptSeq(w.dateFrom)
    case DateTo => OptSeq(w.dateTo)
    case HourFrom => OptSeq(w.hourFrom)
    case HourTo => OptSeq(w.hourTo)
    case Lat => if both then OptSeq(w.lat) else []
    case Lon => if both then OptSeq(w.lon) else []
    case RadiusKm => if both then OptSeq(w.radiusKm) else []
    case AgeMinLte => OptSeq(w.ageMinLte)
    case AgeMaxGte => OptSeq(w.ageMaxGte)
    case KwAny => w.kwAny
    case KwNone => w.kwNone
    case Limit => []
    case Offset => []
  }

  /** `p` is the filtered query for the form `f` on page `page`. */
  predicate FilterQuery(p: Params, f: Filters, page: int, perPage: int) {
    Sent(p, WireOf(f, page, perPage))
  }

  predicate Sent(p: Params, w: Wire) {
    forall k {:trigger Expected(k, w)} :: Listed(p, k, Expected(k, w))
  }

  /** The filtered query is determined by the form and the page. */
  lemma FilterQueryUnique(p1: Params, p2: Params, f: Filters, page: int, perPage: int)
    requires FilterQuery(p1, f, page, perPage) && FilterQuery(p2, f, page, perPage)
    ensures p1 == p2
  {
    var w := WireOf(f, page, perPage);
    forall k
      ensures k in p1 <==> k in p2
      ensures k in p1 ==> p1[k] == p2[k]
    {
      assert Listed(p1, k, Expected(k, w));
      assert Listed(p2, k, Expected(k, w));
    }
    assert p1.Keys == p2.Keys;
  }

  /** The centre goes out only as a pair, and the radius only with it. */
  lemma FilterQueryCentre(p: Params, f: Filters, page: int, perPage: int)
    requires FilterQuery(p, f, page, perPage)
    ensures Lat in p <==> f.lat.Some? && f.lon.Some?
    ensures Lon in p <==> Lat in p
    ensures RadiusKm in p <==> Lat in p && f.radiusKm.Some?
    ensures Lat in p ==> p[Lat] == [f.lat.value] && p[Lon] == [f.lon.value]
  {
    var w := WireOf(f, page, perPage);
    assert Listed(p, Lat, Expected(Lat, w));
    assert Listed(p, Lon, Expected(Lon, w));
    assert Listed(p, RadiusKm, Expected(RadiusKm, w));
  }

  /** The search text is sent trimmed and only when something is left, the page is sent,
      and nothing pages by `limit`/`offset`. */
  lemma FilterQueryText(p: Params, f: Filters, page: int, perPage: int)
    requires FilterQuery(p, f, page, perPage)
    ensures Q in p <==> Trim(f.q) != []
    ensures Q in p ==> p[Q] == [Trim(f.q)]
    ensures Page in p && p[Page] == [IntToString(page)]
    ensures Limit !in p && Offset !in p
  {
    var w := WireOf(f, page, perPage);
    assert Listed(p, Q, Expected(Q, w));
    assert Listed(p, Page, Expected(Page, w));
    assert Listed(p, Limit, Expected(Limit, w));
    assert Listed(p, Offset, Expected(Offset, w));
  }

  /** With chips as the page keeps them, one `kw_any` goes out per include chip and one
      `kw_none` per exclude chip, in order and as displayed. */
  lemma FilterQueryKeywords(p: Params, f: Filters, page: int, perPage: int)
    requires FilterQuery(p, f, page, perPage) && Keywords(f.kwInclude) && Keywords(f.kwExclude)
    ensures Values(p, KwAny) == f.kwInclude && Values(p, KwNone) == f.kwExclude
  {
    var w := WireOf(f, page, perPage);
    assert Listed(p, KwAny, Expected(KwAny, w));
    assert Listed(p, KwNone, Expected(KwNone, w));
    SentAsStored(f.kwInclude);
    SentAsStored(f.kwExclude);
  }

  /** The parameters in the order `loadWithFilters` sets them. */
  const SetOrder: seq<Param> := [
    Page, PerPage, FutureOnly, Order, Q, City, DateFrom, DateTo, HourFrom, HourTo,
    Lat, Lon, RadiusKm, AgeMinLte, AgeMaxGte, KwAny, KwNone]

  /** The position of each parameter in `SetOrder`; the paging parameters of the default feed
      come after all of them. */
  function Rank(k: Param): nat {
    match k
    case Page => 0 case PerPage => 1 case FutureOnly => 2 case Order => 3 case Q => 4
    case City => 5 case DateFrom => 6 case DateTo => 7 case HourFrom => 8 case HourTo => 9
    case Lat => 10 case Lon => 11 case RadiusKm => 12 case AgeMinLte => 13 case AgeMaxGte => 14
    case KwAny => 15 case KwNone => 16 case Limit => 17 case Offset => 18
  }

  lemma RankAt(i: nat)
    requires i < |SetOrder|
    ensures Rank(SetOrder[i]) == i
  {
  }

  /** `vs` stored under `key`, when there are any. */
  function Put(p: Params, key: Param, vs: seq<string>): Params {
    if vs == [] then p else p[key := vs]
  }

  /** The parameters after the first `n` steps of `loadWithFilters`. */
  function Prefix(w: Wire, n: nat): Params
    requires n <= |SetOrder|
  {
    if n == 0 then map[] else Put(Prefix(w, n - 1), SetOrder[n - 1], Expected(SetOrder[n - 1], w))
  }

  /** The first `n` parameters are as expected and no later one has been set yet. */
  ghost predicate Built(p: Params, w: Wire, n: nat) {
    && (forall k :: k in p ==> Rank(k) < n)
    && (forall k {:trigger Listed(p, k, Expected(k, w))} :: Rank(k) < n ==> Listed(p, k, Expected(k, w)))
  }

  /** Setting the next parameter to its expected values extends what has been built. */
  lemma BuiltPut(p: Params, key: Param, vs: seq<string>, w: Wire)
    requires Built(p, w, Rank(key)) && Expected(key, w) == vs
    ensures Built(Put(p, key, vs), w, Rank(key) + 1)
  {
    var after := Put(p, key, vs);
    forall k | Rank(k) < Rank(key) + 1
      ensures Listed(after, k, Expected(k, w))
    {
      if Rank(k) < Rank(key) {
        assert Listed(p, k, Expected(k, w));
      } else {
        assert k == key;
      }
    }
  }

  /** Each prefix of the steps has built its parameters and nothing else. */
  lemma {:induction false} PrefixBuilt(w: Wire, n: nat)
    requires n <= |SetOrder|
    ensures Built(Prefix(w, n), w, n)
  {
    if n > 0 {
      PrefixBuilt(w, n - 1);
      RankAt(n - 1);
      BuiltPut(Prefix(w, n - 1), SetOrder[n - 1], Expected(SetOrder[n - 1], w), w);
    }
  }

  /** Without both coordinates the three centre steps set nothing. */
  lemma CentreSkipped(w: Wire)
    requires !(w.lat.Some? && w.lon.Some?)
    ensures Prefix(w, 13) == Prefix(w, 10)
  {
    assert Prefix(w, 11) == Prefix(w, 10);
    assert Prefix(w, 12) == Prefix(w, 11);
  }

  /** Each step before the keywords sets at most one value. */
  lemma SingleValued(w: Wire, n: nat)
    requires n < 15
    ensures |Expected(SetOrder[n], w)| <= 1
  {
  }

  /** A step appending values appends them to a parameter not set before. */
  lemma PrefixAppend(w: Wire, n: nat)
    requires n < |SetOrder|
    ensures var p, key, vs := Prefix(w, n), SetOrder[n], Expected(SetOrder[n], w);
      Prefix(w, n + 1) == if vs == [] then p else p[key := Values(p, key) + vs]
  {
    PrefixBuilt(w, n);
    RankAt(n);
    var p, vs := Prefix(w, n), Expected(SetOrder[n], w);
    assert SetOrder[n] !in p;
    assert Values(p, SetOrder[n]) + vs == vs;
  }

  /** All parameters of the filtered query are built. */
  lemma BuiltAll(p: Params, w: Wire)
    requires Built(p, w, 17)
    ensures Sent(p, w)
  {
    forall k
      ensures Listed(p, k, Expected(k, w))
    {
      if Rank(k) >= 17 {
        assert k == Limit || k == Offset;
      }
    }
  }

  lemma UpdateTwice(p: Params, key: Param, a: seq<string>, b: seq<string>)
    ensures p[key := a][key := b] == p[key := b]
  {
  }

  /** `params = params.append(key, v)` for each value, in order (the `forEach`). */
  method AppendAll(params: Params, key: Param, vs: seq<string>) returns (r: Params)
    ensures vs == [] ==> r == params
    ensures vs != [] ==> r == params[key := Values(params, key) + vs]
  {
    r := params;
    for i := 0 to |vs|
      invariant i == 0 ==> r == params
      invariant i > 0 ==> r == params[key := Values(params, key) + vs[..i]]
    {
      ghost var before := r;
      r := AppendParam(r, key, vs[i]);
      assert vs[..i + 1] == vs[..i] + [vs[i]];
      if i > 0 {
        assert Values(before, key) == Values(params, key) + vs[..i];
        assert Values(before, key) + [vs[i]] == Values(params, key) + vs[..i + 1];
        UpdateTwice(params, key, Values(params, key) + vs[..i], Values(params, key) + vs[..i + 1]);
      } else {
        assert vs[..1] == [vs[0]];
      }
    }
    assert vs[..|vs|] == vs;
  }

  /** The `HttpParams` built by `loadWithFilters`, from the form and the page: the paging
      steps, the text filters, the centre when both coordinates are set, the age bounds and
      the keywords, in that order. */
  method FilterParams(f: Filters, page: int, perPage: int) returns (params: Params)
    ensures FilterQuery(params, f, page, perPage)
  {
    var w := WireOf(f, page, perPage);
    params := map[];
    params := SetStep(params, w, 0);   // page
    params := SetStep(params, w, 1);   // per_page
    params := SetStep(params, w, 2);   // future_only
    params := SetStep(params, w, 3);   // order
    params := SetStep(params, w, 4);   // q
    params := SetStep(params, w, 5);   // city
    params := SetStep(params, w, 6);   // date_from
    params := SetStep(params, w, 7);   // date_to
    params := SetStep(params, w, 8);   // hour_from
    params := SetStep(params, w, 9);   // hour_to
    if w.lat.Some? && w.lon.Some? {
      params := SetStep(params, w, 10);  // lat
      params := SetStep(params, w, 11);  // lon
      params := SetStep(params, w, 12);  // radius_km
    } else {
      CentreSkipped(w);
    }
    params := SetStep(params, w, 13);  // age_min_lte
    params := SetStep(params, w, 14);  // age_max_gte
    params := AppendStep(params, w, 15);  // kw_any
    params := AppendStep(params, w, 16);  // kw_none
    PrefixBuilt(w, 17);
    BuiltAll(params, w);
  }

  /** `if (v) params = params.set(key, v)` for the parameter of step `n` and its value. */
  method SetStep(p: Params, w: Wire, n: nat) returns (params: Params)
    requires n < 15 && p == Prefix(w, n)
    ensures params == Prefix(w, n + 1)
  {
    var key, vs := SetOrder[n], Expected(SetOrder[n], w);
    SingleValued(w, n);
    if vs != [] {
      params := SetParam(p, key, vs[0]);
      assert vs == [vs[0]];
    } else {
      params := p;
    }
  }

  /** `values.forEach(v => params = params.append(key, v))` for the keywords of step `n`. */
  method AppendStep(p: Params, w: Wire, n: nat) returns (params: Params)
    requires 15 <= n < 17 && p == Prefix(w, n)
    ensures params == Prefix(w, n + 1)
  {
    PrefixAppend(w, n);
    params := AppendAll(p, SetOrder[n], Expected(SetOrder[n], w));
  }

  const EventsUrl: string := Interceptor.ApiBase + "/evenements"
  const RecoUrl: string := Interceptor.ApiBase + "/evenements/reco"
  const HomeUrl: string := Interceptor.ApiBase + "/evenements/home"

  /** `loadDefault`: the recommendation feed with an explicit bearer header when logged in
      with a truthy token, the home feed otherwise; one page of `perPage` items. */
  function DefaultQuery(isLoggedIn: bool, token: Option<Json>, page: int, perPage: int): (r: Query)
    ensures r.url == RecoUrl <==> isLoggedIn && TruthyToken(token)
    ensures r.url == HomeUrl <==> !(isLoggedIn && TruthyToken(token))
    ensures r.authorization.Some? <==> r.url == RecoUrl
    ensures r.params.Keys == {Limit, Offset}
    ensures r.params[Limit] == [IntToString(perPage)]
    ensures r.params[Offset] == [IntToString((page - 1) * perPage)]
  {
    var useReco := isLoggedIn && TruthyToken(token);
    assert RecoUrl != HomeUrl by {
      assert RecoUrl[|EventsUrl| + 1] == 'r' && HomeUrl[|EventsUrl| + 1] == 'h';
    }
    var params := map[Limit := [IntToString(perPage)], Offset := [IntToString((page - 1) * perPage)]];
    if useReco then Query(RecoUrl, params, Some(Bearer(token.value)))
    else Query(HomeUrl, params, None)
  }

  /** Page `p + 1` starts where page `p` ends, and the first page at offset 0. */
  lemma DefaultPaging(isLoggedIn: bool, token: Option<Json>, page: int, perPage: int)
    ensures DefaultQuery(isLoggedIn, token, 1, perPage).params[Offset] == ["0"]
    ensures NumberOf(DefaultQuery(isLoggedIn, token, page + 1, perPage).params[Offset][0])
         == Finite(page * perPage)
    ensures NumberOf(DefaultQuery(isLoggedIn, token, page, perPage).params[Limit][0]) == Finite(perPage)
  {
    NumberOfIntToString(page * perPage);
    NumberOfIntToString(perPage);
  }

  /** The header the page sets on the recommendation request is the one the interceptor
      would add from the same store, so the interceptor leaves it as it is. */
  lemma RecoHeaderAgrees(ls: Storage, page: int, perPage: int, headers: map<string, string>)
    requires TruthyToken(TokenOf(ls))
    ensures var q := DefaultQuery(true, TokenOf(ls), page, perPage);
      var req := Interceptor.Request("GET", q.url, headers["Authorization" := q.authorization.value], None);
      Interceptor.Intercept(req, ls) == req
  {
    var q := DefaultQuery(true, TokenOf(ls), page, perPage);
    var req := Interceptor.Request("GET", q.url, headers["Authorization" := q.authorization.value], None);
    Interceptor.InterceptorTokenAgrees(ls);
    assert StartsWith(q.url, Interceptor.ApiBase);
    assert Interceptor.NeedsAuth(q.url);
    Interceptor.InterceptAdds(req, ls);
  }

  /** The error handler of the default feed: a refused recommendation request (401 or 403)
      is retried once on the home feed with the same paging and no header of its own. */
  function RetryOnError(q: Query, status: int): (r: Option<Query>)
    ensures r.Some? <==> q.url == RecoUrl && (status == 401 || status == 403)
    ensures r.Some? ==> r.value.url == HomeUrl && r.value.params == q.params && r.value.authorization.None?
  {
    if q.url == RecoUrl && (status == 401 || status == 403) then Some(Query(HomeUrl, q.params, None))
    else None
  }

  /** The retried request is never retried again. */
  lemma RetryOnce(q: Query, s1: int, s2: int)
    requires RetryOnError(q, s1).Some?
    ensures RetryOnError(RetryOnError(q, s1).value, s2).None?
  {
    assert RecoUrl != HomeUrl by {
      assert RecoUrl[|EventsUrl| + 1] == 'r' && HomeUrl[|EventsUrl| + 1] == 'h';
    }
  }

  /** The request `load()` sends for this form, page and session. */
  predicate QueryFor(q: Query, f: Filters, page: int, perPage: int, isLoggedIn: bool, token: Option<Json>) {
    if HasFilters(f) then q.url == EventsUrl && q.authorization.None? && FilterQuery(q.params, f, page, perPage)
    else q == DefaultQuery(isLoggedIn, token, page, perPage)
  }

  // ---------------------------------------------------------------------------
  // The component

  class EventListComponent {
    const auth: AuthService
    const perPage: int
    var filters: Filters
    var keywordInput: string
    var page: int
    var isLoggedIn: bool

    ghost predicate Valid()
      reads this
    {
      page >= 1 && perPage == 20 && Keywords(filters.kwInclude) && Keywords(filters.kwExclude)
    }

    /** The request `load()` would send now. */
    ghost predicate Sends(q: Query)
      reads this, auth
    {
      QueryFor(q, filters, page, perPage, isLoggedIn, auth.GetToken())
    }

    constructor (auth: AuthService)
      ensures Valid() && this.auth == auth
      ensures filters == NoFilters && keywordInput == [] && page == 1 && !isLoggedIn
    {
      this.auth := auth;
      perPage := 20;
      filters := NoFilters;
      keywordInput := [];
      page := 1;
      isLoggedIn := false;
    }

    /** `load()`: the filtered search when any filter is set, the default feed otherwise. */
    method Load() returns (q: Query)
      ensures Sends(q)
    {
      if HasFilters(filters) {
        var params := FilterParams(filters, page, perPage);
        q := Query(EventsUrl, params, None);
      } else {
        q := DefaultQuery(isLoggedIn, auth.GetToken(), page, perPage);
      }
    }

    /** `ngOnInit`: the flag is first read from `getUser()`, then the subscription to
        `isLoggedIn$` delivers the subject's current value at once, which overwrites it,
        resets the page and loads; `load()` then runs a second time. */
    method OnInit() returns (sent: seq<Query>)
      requires Valid()
      modifies this`isLoggedIn, this`page
      ensures Valid() && isLoggedIn == auth.loggedIn && page == 1
      ensures |sent| == 2 && sent[0] == sent[1] && Sends(sent[0])
    {
      isLoggedIn := auth.GetUser().Some?;
      var first := OnLoggedInChange(auth.loggedIn);
      var second := Load();
      if HasFilters(filters) {
        FilterQueryUnique(first.params, second.params, filters, page, perPage);
      }
      sent := [first, second];
    }

    /** The `isLoggedIn$` handler. */
    method OnLoggedInChange(v: bool) returns (q: Query)
      requires Valid()
      modifies this`isLoggedIn, this`page
      ensures Valid() && isLoggedIn == v && page == 1 && Sends(q)
    {
      isLoggedIn := v;
      page := 1;
      q := Load();
    }

    /** `addKeyword(mode)`: nothing happens for a blank input or one that normalizes to
        nothing; otherwise the normalized keyword joins the chosen list unless already there,
        the input is cleared and the search restarts at page 1. */
    method AddKeyword(mode: Mode) returns (q: Option<Query>)
      requires Valid()
      modifies this`filters, this`keywordInput, this`page
      ensures Valid()
      ensures var k := NormalizeKw(Trim(old(keywordInput)));
        if Trim(old(keywordInput)) == [] || k == [] then
          filters == old(filters) && keywordInput == old(keywordInput) && page == old(page) && q.None?
        else
          && filters == (if mode == Include then old(filters).(kwInclude := AddOnce(old(filters).kwInclude, k))
                         else old(filters).(kwExclude := AddOnce(old(filters).kwExclude, k)))
          && keywordInput == [] && page == 1 && q.Some? && Sends(q.value)
    {
      var raw := Trim(keywordInput);
      if raw == [] {
        return None;
      }
      var k := NormalizeKw(raw);
      if k == [] {
        return None;
      }
      NormalizeIdempotent(raw);
      KeywordsAddOnce(filters.kwInclude, k);
      KeywordsAddOnce(filters.kwExclude, k);
      if mode == Include {
        filters := filters.(kwInclude := AddOnce(filters.kwInclude, k));
      } else {
        filters := filters.(kwExclude := AddOnce(filters.kwExclude, k));
      }
      keywordInput := [];
      var r := ResetAndSearch();
      q := Some(r);
    }

    /** `removeInclude(k)`: every copy of `k` leaves the include list, the rest keep their
        order, and the search restarts at page 1. */
    method RemoveInclude(k: string) returns (q: Query)
      requires Valid()
      modifies this`filters, this`page
      ensures Valid() && page == 1 && Sends(q)
      ensures filters == old(filters).(kwInclude := Filter(old(filters).kwInclude, (x: string) => x != k))
    {
      KeywordsFilter(filters.kwInclude, (x: string) => x != k);
      filters := filters.(kwInclude := Filter(filters.kwInclude, (x: string) => x != k));
      q := ResetAndSearch();
    }

    /** `removeExclude(k)`, the same for the exclude list. */
    method RemoveExclude(k: string) returns (q: Query)
      requires Valid()
      modifies this`filters, this`page
      ensures Valid() && page == 1 && Sends(q)
      ensures filters == old(filters).(kwExclude := Filter(old(filters).kwExclude, (x: string) => x != k))
    {
      KeywordsFilter(filters.kwExclude, (x: string) => x != k);
      filters := filters.(kwExclude := Filter(filters.kwExclude, (x: string) => x != k));
      q := ResetAndSearch();
    }

    /** `usePresetLocation`: the centre of Paris, with a 30 km radius unless one is set. */
    method UsePresetLocation() returns (q: Query)
      requires Valid()
      modifies this`filters, this`page
      ensures Valid() && page == 1 && Sends(q)
      ensures filters == old(filters).(lat := Some("48.8566"), lon := Some("2.3522"),
                                       radiusKm := Some(old(filters).radiusKm.GetOr("30")))
    {
      filters := filters.(lat := Some("48.8566"), lon := Some("2.3522"));
      if filters.radiusKm.None? {
        filters := filters.(radiusKm := Some("30"));
      }
      q := ResetAndSearch();
    }

    method ResetAndSearch() returns (q: Query)
      requires Valid()
      modifies this`page
      ensures Valid() && page == 1 && Sends(q)
    {
      page := 1;
      q := Load();
    }

    method NextPage() returns (q: Query)
      requires Valid()
      modifies this`page
      ensures Valid() && page == old(page) + 1 && Sends(q)
    {
      page := page + 1;
      q := Load();
    }

    /** `prevPage`: only above the first page; the page never drops below 1. */
    method PrevPage() returns (q: Option<Query>)
      requires Valid()
      modifies this`page
      ensures Valid()
      ensures old(page) > 1 ==> page == old(page) - 1 && q.Some? && Sends(q.value)
      ensures old(page) <= 1 ==> page == old(page) && q.None?
    {
      if page > 1 {
        page := page - 1;
        var r := Load();
        q := Some(r);
      } else {
        q := None;
      }
    }

    /** `clearFilters`: every filter and the keyword input are emptied, so the page falls
        back to the default feed, from page 1. */
    method ClearFilters() returns (q: Query)
      requires Valid()
      modifies this`filters, this`keywordInput, this`page
      ensures Valid() && filters == NoFilters && keywordInput == [] && page == 1
      ensures !HasFilters(filters) && q == DefaultQuery(isLoggedIn, auth.GetToken(), 1, perPage)
    {
      filters := NoFilters;
      keywordInput := [];
      q := ResetAndSearch();
    }
  }

  /** Removing chips keeps a chip list valid. */
  /** Adding a normalized, non-empty keyword once keeps a chip list valid. */
  lemma KeywordsAddOnce(kws: seq<string>, k: string)
    requires Keywords(kws) && k != [] && NormalizeKw(k) == k
    ensures Keywords(AddOnce(kws, k))
  {
  }

  lemma KeywordsFilter(kws: seq<string>, p: string -> bool)
    requires Keywords(kws)
    ensures Keywords(Filter(kws, p))
  {
    FilterDistinct(kws, p);
  }
}
