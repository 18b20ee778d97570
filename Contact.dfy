/** The contact page: a form of five fields, of which `website` is a hidden trap field
    that people leave empty, posted once the required ones are filled in. */
module Contact {
  import opened Common
  import opened Text
  import opened Json
  import Interceptor

  const ContactUrl: string := Interceptor.ApiBase + "/utils/contact"
  const NoSubject: string := "(Sans objet)"
  const MissingFields: string := "Merci de remplir les champs requis."
  const SendFailed: string := "Envoi impossible pour le moment."

  /** The body of `POST /utils/contact`. */
  datatype ContactMessage = ContactMessage(name: string, email: string, subject: string, message: string, website: string)

  /** A text that `trim` leaves as it is. */
  predicate Trimmed(s: string) {
    s == [] || (!IsSpace(s[0]) && !IsSpace(s[|s| - 1]))
  }

  /** The body for the given fields: every text trimmed but the trap field, and a blank
      subject replaced. */
  function MessageOf(name: string, email: string, subject: string, message: string, website: string): ContactMessage {
    ContactMessage(Trim(name), Trim(email), if Trim(subject) != [] then Trim(subject) else NoSubject, Trim(message), website)
  }

  /** The sent texts carry no surrounding white space, the subject is never blank, and a
      subject with text is sent as typed, trimmed. */
  lemma MessageShape(name: string, email: string, subject: string, message: string, website: string)
    ensures var m := MessageOf(name, email, subject, message, website);
      Trimmed(m.name) && Trimmed(m.email) && Trimmed(m.subject) && Trimmed(m.message)
      && m.subject != [] && m.website == website
      && (Trim(subject) == [] ==> m.subject == NoSubject)
      && (Trim(subject) != [] ==> m.subject == Trim(subject))
  {
    TrimShape(name);
    TrimShape(email);
    TrimShape(subject);
    TrimShape(message);
  }

  /** Trimming what was sent changes nothing: the message is already in its final form. */
  lemma MessageStable(name: string, email: string, subject: string, message: string, website: string)
    ensures var m := MessageOf(name, email, subject, message, website);
      MessageOf(m.name, m.email, m.subject, m.message, m.website) == m
  {
    TrimIdempotent(name);
    TrimIdempotent(email);
    TrimIdempotent(subject);
    TrimIdempotent(message);
    assert Trim(NoSubject) == NoSubject by {
      assert TrimStart(NoSubject) == NoSubject;
      assert TrimEnd(NoSubject) == NoSubject;
    }
  }

  /** The message as the JSON object literal `submit` posts, members in source order. */
  function MessageJson(m: ContactMessage): Json {
    JObj(With(With(With(With(With([], "name", Some(JStr(m.name))), "email", Some(JStr(m.email))),
      "subject", Some(JStr(m.subject))), "message", Some(JStr(m.message))), "website", Some(JStr(m.website))))
  }

  /** `POST /utils/contact` with the message as its body and no header of its own. */
  function ContactRequest(m: ContactMessage): Interceptor.Request {
    Interceptor.Request("POST", ContactUrl, map[], Some(MessageJson(m)))
  }

  /** The members of the posted body, read one key at a time. */
  lemma MessagePairs(m: ContactMessage)
    ensures var ms := MessageJson(m).members;
      LastBinding(ms, "name") == Some(JStr(m.name)) && LastBinding(ms, "email") == Some(JStr(m.email))
      && LastBinding(ms, "subject") == Some(JStr(m.subject)) && LastBinding(ms, "message") == Some(JStr(m.message))
      && LastBinding(ms, "website") == Some(JStr(m.website))
  {
    var a := With([], "name", Some(JStr(m.name)));
    var b := With(a, "email", Some(JStr(m.email)));
    var c := With(b, "subject", Some(JStr(m.subject)));
    var d := With(c, "message", Some(JStr(m.message)));
    WithGet([], "name", Some(JStr(m.name)));
    WithGet(a, "email", Some(JStr(m.email)));
    WithGet(b, "subject", Some(JStr(m.subject)));
    WithGet(c, "message", Some(JStr(m.message)));
    WithGet(d, "website", Some(JStr(m.website)));
  }

  /** Every member of the posted body is a string, so the body is well-formed. */
  lemma MessageWellFormed(m: ContactMessage)
    ensures WellFormed(MessageJson(m))
  {
    var ms := MessageJson(m).members;
    assert ms == [Field("name", JStr(m.name)), Field("email", JStr(m.email)), Field("subject", JStr(m.subject)),
                  Field("message", JStr(m.message)), Field("website", JStr(m.website))];
  }

  /** The posted body is well-formed and reads back, member by member, as the message. */
  lemma MessageJsonReadsBack(m: ContactMessage)
    ensures WellFormed(MessageJson(m))
    ensures var v := MessageJson(m);
      Get(v, "name") == Some(JStr(m.name)) && Get(v, "email") == Some(JStr(m.email))
      && Get(v, "subject") == Some(JStr(m.subject)) && Get(v, "message") == Some(JStr(m.message))
      && Get(v, "website") == Some(JStr(m.website))
  {
    MessageWellFormed(m);
    MessagePairs(m);
  }

  class ContactComponent {
    var name: string
    var email: string
    var subject: string
    var message: string
    var website: string
    var loading: bool
    var ok: bool
    var error: string

    constructor ()
      ensures name == "" && email == "" && subject == "" && message == "" && website == ""
      ensures !loading && !ok && error == ""
    {
      name, email, subject, message, website := "", "", "", "", "";
      loading, ok, error := false, false, "";
    }

    /** `submit`: with a blank name, address or message only the error is set; otherwise
        the page is loading and the trimmed message is posted to `/utils/contact`. */
    method Submit() returns (sent: Option<Interceptor.Request>)
      modifies this`loading, this`error, this`ok
      ensures Trim(name) == [] || Trim(email) == [] || Trim(message) == [] ==>
        (sent.None? && error == MissingFields && loading == old(loading) && ok == old(ok))
      ensures sent.None? <==> Trim(name) == [] || Trim(email) == [] || Trim(message) == []
      ensures sent.Some? ==>
        (sent.value.verb == "POST" && sent.value.url == ContactUrl
         && sent.value == ContactRequest(MessageOf(name, email, subject, message, website))
         && loading && !ok && error == "")
    {
      if Trim(name) == [] || Trim(email) == [] || Trim(message) == [] {
        error := MissingFields;
        return None;
      }
      loading, error, ok := true, "", false;
      var subjectText := if Trim(subject) != [] then Trim(subject) else NoSubject;
      sent := Some(ContactRequest(ContactMessage(Trim(name), Trim(email), subjectText, Trim(message), website)));
    }

    /** Sent: the form is emptied. */
    method OnSent()
      modifies this
      ensures !loading && ok && error == old(error)
      ensures name == "" && email == "" && subject == "" && message == "" && website == ""
    {
      loading := false;
      ok := true;
      name, email, subject, message, website := "", "", "", "", "";
    }

    /** Not sent: the fields are kept so that the user can try again. */
    method OnSendError()
      modifies this`loading, this`error
      ensures !loading && error == SendFailed
    {
      loading := false;
      error := SendFailed;
    }
  }
}
