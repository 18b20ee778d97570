/** The organizer's event form: the keyword list, the editor of time slots, the conversion
    of a slot's local times to ISO text, and `submit`, which turns the form into the
    payload the organizer service posts. */
module CreateEvent {
  import opened Common
  import opened Text
  import opened Civil
  import opened OrganizerService

  /** A slot of the editor, bound to `datetime-local` inputs. */
  datatype OccEdit = OccEdit(allDay: bool, debutLocal: string, finLocal: Option<string>)

  const EmptyForm: EventPayload := EventPayload("", Some(""), Some(""), Some(""), Some(""), None, Some([]),
    None, None, Some(""), Some(""), Some(""), Some(""), None, None, Some([]))

  const MissingFields: string := "Titre et au moins un cr\U{00E9}neau requis."
  const CreateFailed: string := "Erreur lors de la cr\U{00E9}ation."

  // ---------------------------------------------------------------------------
  // Keywords

  /** `keywords.some(x => x.toLowerCase() === k.toLowerCase())`. */
  predicate HasKeyword(kws: seq<string>, k: string) {
    exists i :: 0 <= i < |kws| && ToLower(kws[i]) == ToLower(k)
  }

  /** No two keywords differ only in case. */
  predicate DistinctIgnoringCase(kws: seq<string>) {
    forall i, j :: 0 <= i < j < |kws| ==> ToLower(kws[i]) != ToLower(kws[j])
  }

  /** The keyword list after `addKeyword` with `draft`. */
  function AddKeywordTo(kws: seq<string>, draft: string): (r: seq<string>)
    ensures r == kws || r == kws + [Trim(draft)]
  {
    var k := Trim(draft);
    if k == [] || HasKeyword(kws, k) then kws else kws + [k]
  }

  /** The trimmed draft is on the list afterwards, up to case, unless it is blank; it is
      appended exactly when no keyword matches it. */
  lemma AddKeywordResult(kws: seq<string>, draft: string)
    ensures Trim(draft) != [] ==> HasKeyword(AddKeywordTo(kws, draft), Trim(draft))
    ensures AddKeywordTo(kws, draft) != kws <==> Trim(draft) != [] && !HasKeyword(kws, Trim(draft))
  {
    var k := Trim(draft);
    var r := AddKeywordTo(kws, draft);
    if k != [] && !HasKeyword(kws, k) {
      assert r[|kws|] == k;
      assert |r| != |kws|;
    }
  }

  /** Adding keeps the list free of case-insensitive duplicates. */
  lemma AddKeywordDistinct(kws: seq<string>, draft: string)
    requires DistinctIgnoringCase(kws)
    ensures DistinctIgnoringCase(AddKeywordTo(kws, draft))
  {
    var k := Trim(draft);
    var r := AddKeywordTo(kws, draft);
    if r != kws {
      forall i, j | 0 <= i < j < |r|
        ensures ToLower(r[i]) != ToLower(r[j])
      {
        if j == |kws| {
          assert r[j] == k && r[i] == kws[i];
          assert !HasKeyword(kws, k);
        } else {
          assert r[i] == kws[i] && r[j] == kws[j];
        }
      }
    }
  }

  /** Removing one keyword keeps the list free of duplicates too. */
  lemma RemoveKeywordDistinct(kws: seq<string>, i: int)
    requires DistinctIgnoringCase(kws)
    ensures DistinctIgnoringCase(SpliceOne(kws, i))
  {
    var r := SpliceOne(kws, i);
    if r != kws {
      var at := if i < 0 then (if |kws| + i < 0 then 0 else |kws| + i) else i;
      assert 0 <= at < |kws| && r == RemoveAt(kws, at);
      forall a, b | 0 <= a < b < |r|
        ensures ToLower(r[a]) != ToLower(r[b])
      {
        var a' := if a < at then a else a + 1;
        var b' := if b < at then b else b + 1;
        assert r[a] == kws[a'];
        assert r[b] == kws[b'];
      }
    }
  }

  // ---------------------------------------------------------------------------
  // Times

  /** The result of `toISOFromLocal`: null, a text, or the `RangeError` that `toISOString`
      raises on an invalid date. */
  datatype Converted = Null | Text(iso: string) | Throws

  /** The text of an all-day slot: midnight UTC of the UTC day, `NaN` fields for an invalid
      date. */
  function MidnightIso(d: Option<CivilDate>): string {
    YmdOf(d) + "T00:00:00Z"
  }

  /** `toISOFromLocal(local, allDay)`. `utcDay` gives the UTC date of `new Date(text)`
      (None for an Invalid Date) and `localIso` the shifted `toISOString` with `.000`
      removed (None when it throws); both depend on the browser's time zone. */
  function ToIsoFromLocal(local: Option<string>, allDay: bool,
                          utcDay: string -> Option<CivilDate>, localIso: string -> Option<string>): (r: Converted)
    ensures local.None? || local == Some("") ==> r == Null
    ensures r.Null? ==> local.None? || local == Some("")
    ensures allDay && r.Text? ==> r.iso == MidnightIso(utcDay(local.value))
    ensures allDay ==> !r.Throws?
  {
    if local.None? || local.value == "" then Null
    else if allDay then Text(MidnightIso(utcDay(local.value)))
    else
      match localIso(local.value)
      case Some(t) => Text(t)
      case None => Throws
  }

  /** For a valid day with a four-digit year the all-day text is `YYYY-MM-DDT00:00:00Z`,
      every field zero-padded. */
  lemma MidnightIsoShape(d: CivilDate)
    requires Valid(d) && 1000 <= d.year <= 9999
    ensures var s := MidnightIso(Some(d));
      |s| == 20 && s[..4] == NatToString(d.year) && s[4] == '-' && s[5..7] == Pad2(d.month)
      && s[7] == '-' && s[8..10] == Pad2(d.day) && s[10..] == "T00:00:00Z"
  {
    NatToStringFourDigits(d.year);
    YmdShape(d);
    var y := Ymd(d);
    assert |y| == 10;
    var s := MidnightIso(Some(d));
    assert s[..10] == y;
    assert s[..4] == y[..4] && s[5..7] == y[5..7] && s[8..10] == y[8..];
  }

  /** Two all-day slots give the same text only on the same UTC day. */
  lemma MidnightIsoInjective(a: CivilDate, b: CivilDate)
    requires Valid(a) && Valid(b) && MidnightIso(Some(a)) == MidnightIso(Some(b))
    ensures a == b
  {
    var t := "T00:00:00Z";
    assert Ymd(a) == (Ymd(a) + t)[..|Ymd(a) + t| - |t|];
    assert Ymd(b) == (Ymd(b) + t)[..|Ymd(b) + t| - |t|];
    YmdInjective(a, b);
  }

  /** The occurrence a slot becomes, or None when converting one of its times throws. An
      all-day slot has no end. */
  function OccOf(e: OccEdit, utcDay: string -> Option<CivilDate>, localIso: string -> Option<string>): Option<OccPayload> {
    var debut := ToIsoFromLocal(Some(e.debutLocal), e.allDay, utcDay, localIso);
    var fin := if e.allDay then Null else ToIsoFromLocal(e.finLocal, false, utcDay, localIso);
    if debut.Throws? || fin.Throws? then None
    else Some(OccPayload(if debut.Text? then Some(debut.iso) else None, if fin.Text? then Some(fin.iso) else None, e.allDay))
  }

  /** Some slot makes the mapping throw. */
  predicate AnyThrows(edits: seq<OccEdit>, utcDay: string -> Option<CivilDate>, localIso: string -> Option<string>) {
    exists i :: 0 <= i < |edits| && OccOf(edits[i], utcDay, localIso).None?
  }

  /** `occEdits.map(...)` when no slot throws. */
  function Occurrences(edits: seq<OccEdit>, utcDay: string -> Option<CivilDate>, localIso: string -> Option<string>): (r: seq<OccPayload>)
    requires !AnyThrows(edits, utcDay, localIso)
    ensures |r| == |edits|
    ensures forall i :: 0 <= i < |edits| ==> Some(r[i]) == OccOf(edits[i], utcDay, localIso)
  {
    seq(|edits|, i requires 0 <= i < |edits| => OccOf(edits[i], utcDay, localIso).value)
  }

  /** The mapping is one occurrence per slot in the slot's place: it keeps the all-day
      flag, an all-day slot gets no end, and each start is the converted start. */
  lemma OccurrencesMapping(edits: seq<OccEdit>, utcDay: string -> Option<CivilDate>, localIso: string -> Option<string>, i: int)
    requires !AnyThrows(edits, utcDay, localIso) && 0 <= i < |edits|
    ensures var o := Occurrences(edits, utcDay, localIso)[i];
      o.allDay == edits[i].allDay
      && (o.allDay ==> o.fin.None?)
      && (o.debut.None? <==> edits[i].debutLocal == "")
      && (o.allDay && o.debut.Some? ==> o.debut.value == MidnightIso(utcDay(edits[i].debutLocal)))
  {
    assert Some(Occurrences(edits, utcDay, localIso)[i]) == OccOf(edits[i], utcDay, localIso);
  }

  /** The image URL sent: the trimmed typed URL, else what the upload gives when a file was
      chosen (`''` when the upload fails or gives none), else `''`. */
  function ImageUrlOf(typed: Option<string>, file: Option<string>, uploaded: Option<string>): (r: string)
    ensures Trim(OrElse(typed, "")) != [] ==> r == Trim(OrElse(typed, ""))
    ensures Trim(OrElse(typed, "")) == [] && file.None? ==> r == ""
  {
    var t := Trim(OrElse(typed, ""));
    if t != [] then t
    else if file.Some? && uploaded.Some? then uploaded.value
    else ""
  }

  /** The upload is attempted exactly when no URL was typed and a file is present. */
  predicate WantsUpload(typed: Option<string>, file: Option<string>) {
    Trim(OrElse(typed, "")) == [] && file.Some?
  }

  /** A typed URL wins over a file: the upload's result is then ignored. */
  lemma TypedUrlWins(typed: Option<string>, file: Option<string>, u1: Option<string>, u2: Option<string>)
    requires !WantsUpload(typed, file)
    ensures ImageUrlOf(typed, file, u1) == ImageUrlOf(typed, file, u2)
  {
  }

  /** The payload `submit` hands to the service: the form with the image URL, without the
      file, and with the converted occurrences. */
  function SubmitPayload(form: EventPayload, imageUrl: string, occs: seq<OccPayload>): (p: EventPayload)
    ensures p.imageFile.None? && p.imageUrl == Some(imageUrl) && p.occurrences == Some(occs)
    ensures p.titre == form.titre && p.keywords == form.keywords
  {
    form.(imageUrl := Some(imageUrl), imageFile := None, occurrences := Some(occs))
  }

  /** With no URL typed and no upload, the body's image URL is null, never `''`. */
  lemma NoImageIsNull(form: EventPayload, occs: seq<OccPayload>)
    ensures CreateBody(SubmitPayload(form, "", occs)).imageUrl.None?
  {
  }

  /** The slots reach the body unchanged when there is at least one. */
  lemma SlotsReachBody(form: EventPayload, url: string, occs: seq<OccPayload>)
    requires |occs| > 0
    ensures CreateBody(SubmitPayload(form, url, occs)).occurrences == occs
  {
  }

  class CreateEventComponent {
    var form: EventPayload
    var keywordDraft: string
    var imagePreview: Option<string>
    var occEdits: seq<OccEdit>
    var submitting: bool
    var error: string

    constructor ()
      ensures form == EmptyForm && keywordDraft == "" && imagePreview.None?
      ensures occEdits == [] && !submitting && error == ""
    {
      form := EmptyForm;
      keywordDraft := "";
      imagePreview := None;
      occEdits := [];
      submitting := false;
      error := "";
    }

    /** `addKeyword`: a blank draft changes nothing; otherwise the trimmed draft is added
        unless a keyword matches it ignoring case, and the draft is cleared. */
    method AddKeyword()
      modifies this`form, this`keywordDraft
      ensures Trim(old(keywordDraft)) == [] ==> form == old(form) && keywordDraft == old(keywordDraft)
      ensures Trim(old(keywordDraft)) != [] ==>
        (form == old(form).(keywords := Some(AddKeywordTo(OrElse(old(form).keywords, []), old(keywordDraft))))
         && keywordDraft == "")
    {
      var k := Trim(keywordDraft);
      if k == [] {
        return;
      }
      var kws := OrElse(form.keywords, []);
      if !HasKeyword(kws, k) {
        kws := kws + [k];
      }
      form := form.(keywords := Some(kws));
      keywordDraft := "";
    }

    /** `removeKeyword(i)`: `splice(i, 1)` when there is a list. */
    method RemoveKeyword(i: int)
      modifies this`form
      ensures old(form).keywords.None? ==> form == old(form)
      ensures old(form).keywords.Some? ==> form == old(form).(keywords := Some(SpliceOne(old(form).keywords.value, i)))
    {
      if form.keywords.Some? {
        form := form.(keywords := Some(SpliceOne(form.keywords.value, i)));
      }
    }

    /** `onFile`: the chosen file, if any; without one the preview is cleared. The preview
        of a chosen file arrives later from a `FileReader`. */
    method OnFile(file: Option<string>)
      modifies this`form, this`imagePreview
      ensures form == old(form).(imageFile := file)
      ensures file.None? ==> imagePreview.None?
      ensures file.Some? ==> imagePreview == old(imagePreview)
    {
      form := form.(imageFile := file);
      if file.None? {
        imagePreview := None;
      }
    }

    /** `addOcc`: one timed slot from now to two hours later, written as local
        `datetime-local` texts (given, since they depend on the clock and time zone). */
    method AddOcc(nowLocal: string, laterLocal: string)
      modifies this`occEdits
      ensures occEdits == old(occEdits) + [OccEdit(false, nowLocal, Some(laterLocal))]
    {
      occEdits := occEdits + [OccEdit(false, nowLocal, Some(laterLocal))];
    }

    /** `removeOcc(i)`. */
    method RemoveOcc(i: int)
      modifies this`occEdits
      ensures occEdits == SpliceOne(old(occEdits), i)
    {
      occEdits := SpliceOne(occEdits, i);
    }

    /** `submit`. With no title or no slot only the error is set. Otherwise the page is
        submitting, the upload is asked for when `WantsUpload`, and unless a slot's time
        throws the service's request is returned. `uploaded` is the URL the upload answers
        (None when it fails or gives none). */
    method Submit(uploaded: Option<string>, utcDay: string -> Option<CivilDate>, localIso: string -> Option<string>)
      returns (upload: bool, call: Option<Call>)
      modifies this`error, this`submitting
      ensures old(form).titre == "" || |occEdits| == 0 ==>
        error == MissingFields && submitting == old(submitting) && !upload && call.None?
      ensures old(form).titre != "" && |occEdits| > 0 ==>
        (error == "" && submitting && upload == WantsUpload(form.imageUrl, form.imageFile)
         && (call.None? <==> AnyThrows(occEdits, utcDay, localIso)))
      ensures call.Some? ==>
        call.value == CreateEvent(SubmitPayload(form, ImageUrlOf(form.imageUrl, form.imageFile, uploaded),
                                                Occurrences(occEdits, utcDay, localIso)))
    {
      error := "";
      upload := false;
      if form.titre == "" || |occEdits| == 0 {
        error := MissingFields;
        return upload, None;
      }
      submitting := true;
      upload := WantsUpload(form.imageUrl, form.imageFile);
      var imageUrl := ImageUrlOf(form.imageUrl, form.imageFile, uploaded);
      if AnyThrows(occEdits, utcDay, localIso) {
        return upload, None;
      }
      var occurrences := Occurrences(occEdits, utcDay, localIso);
      var payload := SubmitPayload(form, imageUrl, occurrences);
      call := Some(CreateEvent(payload));
    }

    /** The success callback: back to the organizer's dashboard. */
    method OnCreated() returns (navigate: string)
      modifies this`submitting
      ensures !submitting && navigate == "/organizer"
    {
      submitting := false;
      navigate := "/organizer";
    }

    /** The error callback. */
    method OnCreateError()
      modifies this`submitting, this`error
      ensures !submitting && error == CreateFailed
    {
      submitting := false;
      error := CreateFailed;
    }
  }
}
