/** The admin router (routes/adminRoutes.js). Every route sits behind the
    admin gate; the list and get routes reshape stored documents for the
    dashboard, and delete removes one document from the store. A thrown
    database call is the `dbFails` flag. */
module AdminRoutes {
  import opened Common
  import opened Leads
  import opened AdminGate

  const Verified := "Admin access verified"
  const NotProvided := "Not provided"
  const NoResume := "No resume uploaded"
  const Deleted := "Lead deleted successfully"
  const ListError := "Error fetching leads"
  const GetError := "Error fetching lead details"
  const DeleteError := "Error deleting lead"

  datatype Route = Verify | ListLeads | GetLead(id: LeadId) | DeleteLead(id: LeadId)

  /** `value || "Not provided"` */
  function OrNotProvided(v: Option<string>): (r: string)
    ensures Truthy(v) ==> r == v.value
    ensures !Truthy(v) ==> r == NotProvided
    // the dashboard never receives an empty link field
    ensures r != ""
  {
    if Truthy(v) then v.value else NotProvided
  }

  /** `resume ? <protocol>://<host>/uploads/<resume> : "No resume uploaded"` */
  function ResumeUrl(protocol: string, host: string, resume: Option<string>): (r: string)
    ensures Truthy(resume) ==> r == protocol + "://" + host + "/uploads/" + resume.value
    ensures !Truthy(resume) ==> r == NoResume
    // the placeholder cannot be mistaken for a link: it has no ':' while every link does
    ensures r == NoResume <==> !Truthy(resume)
  {
    if Truthy(resume) then
      var url := protocol + "://" + host + "/uploads/" + resume.value;
      assert url[|protocol|] == ':';
      assert forall i :: 0 <= i < |NoResume| ==> NoResume[i] != ':';
      url
    else NoResume
  }

  /** One stored document as the dashboard receives it. */
  function Format(l: Lead, protocol: string, host: string): (f: FormattedLead)
    // `_id` becomes `id`, `date` becomes `createdAt`; name and contact are copied
    ensures f.id == l.id && f.createdAt == l.date
    ensures f.name == l.name && f.contact == l.contact
    // the link fields are never empty
    ensures f.linkedin != "" && f.naukri != ""
    ensures Truthy(l.linkedin) ==> f.linkedin == l.linkedin.value
    ensures Truthy(l.naukri) ==> f.naukri == l.naukri.value
    // the placeholder appears exactly when there is no resume
    ensures f.resume == NoResume <==> !Truthy(l.resume)
  {
    FormattedLead(l.id, l.name, l.contact, OrNotProvided(l.linkedin), OrNotProvided(l.naukri),
                  ResumeUrl(protocol, host, l.resume), l.date)
  }

  function FormatAll(s: seq<Lead>, protocol: string, host: string): (r: seq<FormattedLead>)
    ensures |r| == |s|
    ensures forall i :: 0 <= i < |s| ==> r[i] == Format(s[i], protocol, host)
  {
    seq(|s|, i requires 0 <= i < |s| => Format(s[i], protocol, host))
  }

  ghost predicate CreatedAtDescending(s: seq<FormattedLead>)
  {
    forall i, j :: 0 <= i < j < |s| ==> s[i].createdAt >= s[j].createdAt
  }

  /** GET /verify: reached only through the gate, always the same message. */
  function VerifyReply(): (r: Response)
    ensures r.status == 200 && r.body.Message? && r.body.message == Verified
  {
    Response(200, Message(Verified))
  }

  /** GET /leads over the collection `leads`. */
  function ListReply(leads: seq<Lead>, protocol: string, host: string, dbFails: bool): (r: Response)
    ensures dbFails ==> r == Response(500, Error(ListError))
    ensures !dbFails ==> r.status == 200 && r.body.FormattedList?
    // one entry per stored document, newest first
    ensures !dbFails ==> |r.body.items| == |leads| && CreatedAtDescending(r.body.items)
    ensures !dbFails ==> forall l :: l in leads ==> Format(l, protocol, host) in r.body.items
    ensures !dbFails ==> forall f :: f in r.body.items ==> exists l :: l in leads && f == Format(l, protocol, host)
  {
    if dbFails then Response(500, Error(ListError))
    else
      SortedListItems(leads, protocol, host);
      Response(200, FormattedList(FormatAll(SortByDateDesc(leads), protocol, host)))
  }

  /** Formatting keeps a list's members: each document's formatting is in
      the result, and each entry formats some document. */
  lemma FormatAllMembers(s: seq<Lead>, protocol: string, host: string)
    ensures forall l :: l in s ==> Format(l, protocol, host) in FormatAll(s, protocol, host)
    ensures forall f :: f in FormatAll(s, protocol, host) ==> exists l :: l in s && f == Format(l, protocol, host)
  {
    var items := FormatAll(s, protocol, host);
    forall l | l in s ensures Format(l, protocol, host) in items {
      var i :| 0 <= i < |s| && s[i] == l;
      assert items[i] == Format(l, protocol, host);
    }
    forall f | f in items ensures exists l :: l in s && f == Format(l, protocol, host) {
      var i :| 0 <= i < |items| && items[i] == f;
      assert s[i] in s;
    }
  }

  /** The formatted sorted collection: one entry per document, newest first,
      and the same documents. */
  lemma SortedListItems(leads: seq<Lead>, protocol: string, host: string)
    ensures |FormatAll(SortByDateDesc(leads), protocol, host)| == |leads|
    ensures CreatedAtDescending(FormatAll(SortByDateDesc(leads), protocol, host))
    ensures forall l :: l in leads ==> Format(l, protocol, host) in FormatAll(SortByDateDesc(leads), protocol, host)
    ensures forall f :: f in FormatAll(SortByDateDesc(leads), protocol, host) ==>
              exists l :: l in leads && f == Format(l, protocol, host)
  {
    var sorted := SortByDateDesc(leads);
    SortedMembers(leads);
    FormatAllMembers(sorted, protocol, host);
  }

  /** GET /leads/:id */
  function GetReply(leads: seq<Lead>, id: LeadId, protocol: string, host: string, dbFails: bool): (r: Response)
    ensures dbFails ==> r == Response(500, Error(GetError))
    ensures !dbFails && !HasId(leads, id) ==> r == Response(404, Error(LeadNotFound))
    ensures !dbFails && HasId(leads, id) ==>
      r.status == 200 && r.body.FormattedItem? && r.body.item.id == id &&
      exists l :: l in leads && l.id == id && r.body.item == Format(l, protocol, host)
  {
    if dbFails then Response(500, Error(GetError))
    else match Lookup(leads, id)
      case None => Response(404, Error(LeadNotFound))
      case Some(l) => Response(200, FormattedItem(Format(l, protocol, host)))
  }

  /** DELETE /leads/:id, as a reply; the change to the store is DeleteById. */
  function DeleteReply(leads: seq<Lead>, id: LeadId, dbFails: bool): (r: Response)
    ensures dbFails ==> r == Response(500, Error(DeleteError))
    ensures !dbFails ==> (r.status == 404 <==> !HasId(leads, id))
    ensures !dbFails && HasId(leads, id) ==> r == Response(200, Message(Deleted))
    ensures !dbFails && !HasId(leads, id) ==> r == Response(404, Error(LeadNotFound))
  {
    if dbFails then Response(500, Error(DeleteError))
    else if Lookup(leads, id).None? then Response(404, Error(LeadNotFound))
    else Response(200, Message(Deleted))
  }

  /** With unique ids, the single-lead reply is exactly the list's entry for
      that id, and no other list entry carries the id. */
  lemma GetAgreesWithList(leads: seq<Lead>, id: LeadId, protocol: string, host: string)
    requires UniqueIds(leads) && HasId(leads, id)
    ensures GetReply(leads, id, protocol, host, false).body.item in ListReply(leads, protocol, host, false).body.items
    ensures forall f :: f in ListReply(leads, protocol, host, false).body.items && f.id == id ==>
              f == GetReply(leads, id, protocol, host, false).body.item
  {
    var items := ListReply(leads, protocol, host, false).body.items;
    var l := Lookup(leads, id).value;
    forall f | f in items && f.id == id
      ensures f == GetReply(leads, id, protocol, host, false).body.item
    {
      var m :| m in leads && f == Format(m, protocol, host);
      var i :| 0 <= i < |leads| && leads[i] == m;
      var j :| 0 <= j < |leads| && leads[j] == l;
      assert i == j;
    }
  }

  /** The router: `router.use(adminAuth)` runs the gate before every route. */
  method Handle(store: Store, route: Route, apiKey: Option<string>, validApiKey: Option<string>,
                protocol: string, host: string, dbFails: bool)
    returns (resp: Response)
    requires store.Valid()
    modifies store
    ensures store.Valid()
    // a denied request gets the gate's reply and touches nothing
    ensures AdminAuth(apiKey, validApiKey).Deny? ==>
      resp == AdminAuth(apiKey, validApiKey).Reply() && store.leads == old(store.leads)
    ensures AdminAuth(apiKey, validApiKey).Next? ==>
      match route
      case Verify => resp == VerifyReply() && store.leads == old(store.leads)
      case ListLeads => resp == ListReply(old(store.leads), protocol, host, dbFails) && store.leads == old(store.leads)
      case GetLead(id) => resp == GetReply(old(store.leads), id, protocol, host, dbFails) && store.leads == old(store.leads)
      case DeleteLead(id) =>
        resp == DeleteReply(old(store.leads), id, dbFails) &&
        store.leads == (if dbFails then old(store.leads) else DeleteById(old(store.leads), id))
  {
    var gate := AdminAuth(apiKey, validApiKey);
    if gate.Deny? {
      return gate.Reply();
    }
    match route
    case Verify =>
      resp := Response(200, Message(Verified));
    case ListLeads =>
      if dbFails {
        resp := Response(500, Error(ListError));
      } else {
        var sorted := store.FindSorted();
        resp := Response(200, FormattedList(FormatAll(sorted, protocol, host)));
      }
    case GetLead(id) =>
      if dbFails {
        resp := Response(500, Error(GetError));
      } else {
        var found := store.FindById(id);
        if found.None? {
          resp := Response(404, Error(LeadNotFound));
        } else {
          resp := Response(200, FormattedItem(Format(found.value, protocol, host)));
        }
      }
    case DeleteLead(id) =>
      if dbFails {
        resp := Response(500, Error(DeleteError));
      } else {
        var removed := store.FindByIdAndDelete(id);
        if removed.None? {
          resp := Response(404, Error(LeadNotFound));
        } else {
          resp := Response(200, Message(Deleted));
        }
      }
  }
}
