/** The Express application (server.js): its own copy of the admin gate,
    the CORS origin rule, the upload filename rule, the lead intake endpoint
    POST /api/contact with its notification mail, and two read-only admin
    routes that answer with the stored documents as they are. */
module Server {
  import opened Common
  import opened Leads
  import opened AdminGate
  import AdminRoutes

  // ---------------------------------------------------------------------------
  // checkAdminAuth

  /** The gate as server.js writes it; it shares the Decision type with the
      middleware file. */
  function CheckAdminAuth(apiKey: Option<string>, validApiKey: Option<string>): (d: Decision)
    ensures !Truthy(validApiKey) ==> d == Deny(500, MisconfiguredError)
    ensures Truthy(validApiKey) && !Truthy(apiKey) ==> d == Deny(401, UnauthorizedError)
    ensures d.Next? <==> Truthy(validApiKey) && apiKey == validApiKey
  {
    if !Truthy(validApiKey) then Deny(500, MisconfiguredError)
    else if Truthy(apiKey) && apiKey == validApiKey then Next
    else Deny(401, UnauthorizedError)
  }

  /** The copy in server.js decides every request as the middleware does. */
  lemma CheckAdminAuthIsAdminAuth(apiKey: Option<string>, validApiKey: Option<string>)
    ensures CheckAdminAuth(apiKey, validApiKey) == AdminAuth(apiKey, validApiKey)
  {
  }

  // ---------------------------------------------------------------------------
  // CORS

  const AllowedOrigins: seq<string> := [
    "http://localhost:5173",
    "http://localhost:3000",
    "https://profileera.com",
    "https://www.profileera.com"
  ]

  const CorsError := "Not allowed by CORS"

  datatype CorsDecision = Allow | Reject(message: string)

  /** The `origin` callback; `origin` is the request's Origin header. */
  function CorsOrigin(origin: Option<string>): (r: CorsDecision)
    // a missing (or empty) Origin header is let through, as are the four listed origins
    ensures r.Allow? <==> origin.None? || origin.value == "" || origin.value in AllowedOrigins
    ensures r.Reject? ==> r.message == CorsError
  {
    if !Truthy(origin) || IndexOf(AllowedOrigins, origin.value) != -1 then Allow
    else Reject(CorsError)
  }

  // ---------------------------------------------------------------------------
  // Uploads: multer disk storage under `uploads`, named `<Date.now()>-<originalname>`

  const UploadDir := "uploads"

  datatype UploadedFile = UploadedFile(originalName: string)

  /** The stored filename for a file uploaded at millisecond `nowMs`. */
  function UploadFilename(nowMs: nat, originalName: string): (f: string)
    ensures EndsWith(f, originalName)
    ensures StartsWith(f, NatToDecimal(nowMs) + "-")
  {
    var f := NatToDecimal(nowMs) + "-" + originalName;
    assert f[|f| - |originalName|..] == originalName;
    assert f[..|NatToDecimal(nowMs) + "-"|] == NatToDecimal(nowMs) + "-";
    f
  }

  /** Reads a stored filename back: the digits before the first '-' and the
      rest. The partner of UploadFilename. */
  function ParseUploadFilename(f: string): Option<(nat, string)>
  {
    var k := IndexOf(f, '-');
    if k <= 0 || !AllDigits(f[..k]) then None
    else Some((DecimalValue(f[..k]), f[k + 1..]))
  }

  lemma UploadFilenameRoundTrip(nowMs: nat, originalName: string)
    ensures ParseUploadFilename(UploadFilename(nowMs, originalName)) == Some((nowMs, originalName))
  {
    var d := NatToDecimal(nowMs);
    var f := UploadFilename(nowMs, originalName);
    assert f == d + "-" + originalName;
    assert f[|d|] == '-';
    var k := IndexOf(f, '-');
    // no '-' before position k, and none among the digits
    assert forall i :: 0 <= i < k ==> f[..k][i] != '-';
    assert forall i :: 0 <= i < |d| ==> f[i] == d[i] && IsDigit(d[i]);
    assert k == |d|;
    assert f[..k] == d;
    assert f[k + 1..] == originalName;
    DecimalRoundTrip(nowMs);
  }

  /** Distinct upload times, or distinct original names, give distinct files. */
  lemma UploadFilenameInjective(t1: nat, n1: string, t2: nat, n2: string)
    requires UploadFilename(t1, n1) == UploadFilename(t2, n2)
    ensures t1 == t2 && n1 == n2
  {
    UploadFilenameRoundTrip(t1, n1);
    UploadFilenameRoundTrip(t2, n2);
  }

  /** `req.file.path`: the destination directory joined with the filename. */
  function UploadPath(filename: string): (r: string)
    ensures StartsWith(r, UploadDir + "/") && EndsWith(r, filename)
    ensures |r| == |UploadDir| + 1 + |filename|
  {
    ConcatEnds(UploadDir + "/", filename);
    UploadDir + "/" + filename
  }

  /** The `resume` field of a new lead: the upload's path, or null. */
  function StoredResume(file: Option<UploadedFile>, uploadMs: nat): (r: Option<string>)
    ensures r.Some? <==> file.Some?
    ensures r.Some? ==> Truthy(r) && StartsWith(r.value, UploadDir + "/")
    ensures r.Some? ==> EndsWith(r.value, "-" + file.value.originalName)
  {
    if file.Some? then
      var name := UploadFilename(uploadMs, file.value.originalName);
      var p := UploadPath(name);
      var suffix := "-" + file.value.originalName;
      assert p == (UploadDir + "/" + NatToDecimal(uploadMs)) + suffix;
      ConcatEnds(UploadDir + "/", name);
      ConcatEnds(UploadDir + "/" + NatToDecimal(uploadMs), suffix);
      Some(p)
    else None
  }

  // ---------------------------------------------------------------------------
  // POST /api/contact

  /** The multipart text fields; a field the client did not send is None. */
  datatype ContactBody = ContactBody(
    name: Option<string>,
    contact: Option<string>,
    linkedin: Option<string>,
    naukri: Option<string>)

  datatype Mail = Mail(from: Option<string>, to: Option<string>, subject: string, text: string)

  const LeadSaved := "Lead saved successfully"
  const ServerError := "Server error"

  /** A template-literal interpolation: an absent field prints "undefined". */
  function Render(v: Option<string>): (r: string)
    ensures v.Some? ==> r == v.value
    ensures v.None? ==> r == "undefined"
  {
    if v.Some? then v.value else "undefined"
  }

  /** The notification mail for a saved lead; `hasFile` is whether a resume
      was uploaded. `from` and `to` are EMAIL_USER and ADMIN_EMAIL. */
  function NotificationMail(body: ContactBody, hasFile: bool, from: Option<string>, to: Option<string>): (m: Mail)
    ensures m.from == from && m.to == to
    ensures m.subject == "New Lead: " + Render(body.name)
    ensures StartsWith(m.text, "You have a new lead!")
    // one line per submitted field
    ensures Includes(m.text, "\nName: " + Render(body.name))
    ensures Includes(m.text, "\nContact: " + Render(body.contact))
    ensures Includes(m.text, "\nLinkedIn: " + Render(body.linkedin))
    ensures Includes(m.text, "\nNaukri: " + Render(body.naukri))
    // the last line says "Attached" exactly when a file came with the request
    ensures EndsWith(m.text, "Resume: Attached") <==> hasFile
  {
    var greeting := "You have a new lead!\n";
    var nameLine := "\nName: " + Render(body.name);
    var contactLine := "\nContact: " + Render(body.contact);
    var linkedinLine := "\nLinkedIn: " + Render(body.linkedin);
    var naukriLine := "\nNaukri: " + Render(body.naukri);
    var tail := ResumeLine(hasFile);
    var text := greeting + nameLine + contactLine + linkedinLine + naukriLine + tail;
    MailLines(greeting, nameLine, contactLine, linkedinLine, naukriLine, tail);
    assert StartsWith(greeting, "You have a new lead!");
    StartsWithPrefix(text, greeting, "You have a new lead!");
    EndsWithLastPart(greeting + nameLine + contactLine + linkedinLine + naukriLine, tail, "Resume: Attached");
    Mail(from, to, "New Lead: " + Render(body.name), text)
  }

  /** The mail's last line, after a line break. */
  function ResumeLine(hasFile: bool): (r: string)
    ensures |r| >= |"Resume: Attached"|
    ensures EndsWith(r, "Resume: Attached") <==> hasFile
  {
    var r := if hasFile then "\nResume: Attached" else "\nResume: Not provided";
    // without a file the line ends in "provided", whose third-last letter 'd'
    // is not the 'h' of "Attached"
    assert !hasFile ==> r[|r| - 3] == 'd' != "Resume: Attached"[13];
    assert hasFile ==> r[1..] == "Resume: Attached";
    r
  }

  /** Each of the four lines of a text made of a head, four lines and a
      tail is a part of it, and the text starts with the head. */
  lemma MailLines(head: string, l1: string, l2: string, l3: string, l4: string, tail: string)
    ensures var text := head + l1 + l2 + l3 + l4 + tail;
      Includes(text, l1) && Includes(text, l2) && Includes(text, l3) && Includes(text, l4) &&
      StartsWith(text, head)
  {
    var t1 := head + l1;
    var t2 := t1 + l2;
    var t3 := t2 + l3;
    var t4 := t3 + l4;
    IncludesLastPart(head, l1);
    IncludesGrow(t1, l2, l1);
    IncludesLastPart(t1, l2);
    IncludesGrow(t2, l3, l1);
    IncludesGrow(t2, l3, l2);
    IncludesLastPart(t2, l3);
    IncludesGrow(t3, l4, l1);
    IncludesGrow(t3, l4, l2);
    IncludesGrow(t3, l4, l3);
    IncludesLastPart(t3, l4);
    IncludesGrow(t4, tail, l1);
    IncludesGrow(t4, tail, l2);
    IncludesGrow(t4, tail, l3);
    IncludesGrow(t4, tail, l4);
    ConcatEnds(head, l1);
    StartsWithGrow(t1, l2, head);
    StartsWithGrow(t2, l3, head);
    StartsWithGrow(t3, l4, head);
    StartsWithGrow(t4, tail, head);
  }

  /** The document `new Lead({...})` builds: the four fields verbatim, with no
      validation, and the upload path or null. */
  function NewLead(id: LeadId, body: ContactBody, resume: Option<string>, date: int): (l: Lead)
    ensures l.id == id && l.date == date && l.resume == resume
    // the submitted fields are stored as sent, whatever they hold
    ensures l.name == body.name && l.contact == body.contact
    ensures l.linkedin == body.linkedin && l.naukri == body.naukri
  {
    Lead(id, body.name, body.contact, body.linkedin, body.naukri, resume, date)
  }

  /** The intake endpoint. `body` is `req.body` (None when the request was
      not parsed into one, so that destructuring it throws); `uploadMs` is the
      clock reading multer used for the filename, `now` the document's
      creation date, `saveFails` whether `save()` throws. The reply does not
      wait for, or depend on, the mail: `mail` is what is handed to the
      transporter. */
  method SubmitContact(store: Store, body: Option<ContactBody>, file: Option<UploadedFile>, uploadMs: nat,
                       now: int, saveFails: bool, emailUser: Option<string>, adminEmail: Option<string>)
    returns (resp: Response, mail: Option<Mail>)
    requires store.Valid()
    modifies store
    ensures store.Valid()
    ensures body.None? || saveFails ==>
      resp == Response(500, Error(ServerError)) && mail.None? && store.leads == old(store.leads)
    ensures body.Some? && !saveFails ==>
      resp == Response(201, Message(LeadSaved)) &&
      mail == Some(NotificationMail(body.value, file.Some?, emailUser, adminEmail)) &&
      store.leads == old(store.leads) + [NewLead(old(store.nextId), body.value, StoredResume(file, uploadMs), now)] &&
      !HasId(old(store.leads), old(store.nextId))
  {
    if body.None? || saveFails {
      resp := Response(500, Error(ServerError));
      mail := None;
      return;
    }
    var fields := body.value;
    var resume := StoredResume(file, uploadMs);
    var saved := store.Save(fields.name, fields.contact, fields.linkedin, fields.naukri, resume, now);
    mail := Some(NotificationMail(fields, file.Some?, emailUser, adminEmail));
    resp := Response(201, Message(LeadSaved));
  }

  /** Two submissions with identical fields become two documents with
      different ids. */
  method SubmitTwice(store: Store, body: ContactBody, now: int)
    requires store.Valid()
    modifies store
    ensures store.Valid()
    ensures |store.leads| == |old(store.leads)| + 2
    ensures store.leads[|store.leads| - 2].id != store.leads[|store.leads| - 1].id
  {
    var r1, m1 := SubmitContact(store, Some(body), None, 0, now, false, None, None);
    var r2, m2 := SubmitContact(store, Some(body), None, 0, now, false, None, None);
  }

  // ---------------------------------------------------------------------------
  // Admin routes mounted directly in server.js (documents are sent unformatted)

  datatype ServerRoute = ListAll | GetOne(id: LeadId)

  function ServerListReply(leads: seq<Lead>, dbFails: bool): (r: Response)
    ensures dbFails ==> r == Response(500, Error(AdminRoutes.ListError))
    ensures !dbFails ==> r.status == 200 && r.body.Documents?
    ensures !dbFails ==> DateDescending(r.body.docs) && multiset(r.body.docs) == multiset(leads)
  {
    if dbFails then Response(500, Error(AdminRoutes.ListError))
    else Response(200, Documents(SortByDateDesc(leads)))
  }

  function ServerGetReply(leads: seq<Lead>, id: LeadId, dbFails: bool): (r: Response)
    ensures dbFails ==> r == Response(500, Error(AdminRoutes.GetError))
    ensures !dbFails && !HasId(leads, id) ==> r == Response(404, Error(LeadNotFound))
    ensures !dbFails && HasId(leads, id) ==>
      r.status == 200 && r.body.Document? && r.body.doc in leads && r.body.doc.id == id
  {
    if dbFails then Response(500, Error(AdminRoutes.GetError))
    else match Lookup(leads, id)
      case None => Response(404, Error(LeadNotFound))
      case Some(l) => Response(200, Document(l))
  }

  /** The two read-only admin routes, each behind checkAdminAuth. */
  method HandleAdmin(store: Store, route: ServerRoute, apiKey: Option<string>,
                     validApiKey: Option<string>, dbFails: bool)
    returns (resp: Response)
    ensures CheckAdminAuth(apiKey, validApiKey).Deny? ==> resp == CheckAdminAuth(apiKey, validApiKey).Reply()
    ensures CheckAdminAuth(apiKey, validApiKey).Next? ==>
      match route
      case ListAll => resp == ServerListReply(store.leads, dbFails)
      case GetOne(id) => resp == ServerGetReply(store.leads, id, dbFails)
  {
    var gate := CheckAdminAuth(apiKey, validApiKey);
    if gate.Deny? {
      return gate.Reply();
    }
    match route
    case ListAll =>
      if dbFails {
        resp := Response(500, Error(AdminRoutes.ListError));
      } else {
        var sorted := store.FindSorted();
        resp := Response(200, Documents(sorted));
      }
    case GetOne(id) =>
      if dbFails {
        resp := Response(500, Error(AdminRoutes.GetError));
      } else {
        var found := store.FindById(id);
        resp := if found.None? then Response(404, Error(LeadNotFound)) else Response(200, Document(found.value));
      }
  }

  // ---------------------------------------------------------------------------
  // How the two server files meet

  /** server.js stores `req.file.path`, which already starts with `uploads/`,
      and the admin router prefixes `/uploads/` again: the link it builds for
      an uploaded resume names the upload directory twice. */
  lemma SavedResumeLinkRepeatsUploadDir(protocol: string, host: string, file: UploadedFile, uploadMs: nat)
    ensures AdminRoutes.ResumeUrl(protocol, host, StoredResume(Some(file), uploadMs)) ==
            protocol + "://" + host + "/uploads/uploads/" + UploadFilename(uploadMs, file.originalName)
  {
  }

  /** The router's list is the server's list with every document formatted:
      same documents, same order. */
  lemma RouterListFormatsServerList(leads: seq<Lead>, protocol: string, host: string)
    ensures AdminRoutes.ListReply(leads, protocol, host, false).body.items ==
            AdminRoutes.FormatAll(ServerListReply(leads, false).body.docs, protocol, host)
  {
  }
}
