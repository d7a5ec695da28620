/** The lead collection. The MongoDB collection behind the `Lead` model is
    replaced by an in-memory store: a sequence of documents in insertion
    order, with identifiers issued by a counter. What the database library
    promises (find sorted by date descending, findById, findByIdAndDelete) is
    defined here once, as functions, and the store's methods are proved
    against them. The JSON replies of the route handlers live here too, since
    both server files and the admin router produce them. */
module Leads {
  import opened Common

  type LeadId = nat

  /** One stored document. A field the request did not carry is None; `resume`
      is the stored upload path, or None for null. */
  datatype Lead = Lead(
    id: LeadId,
    name: Option<string>,
    contact: Option<string>,
    linkedin: Option<string>,
    naukri: Option<string>,
    resume: Option<string>,
    date: int)

  /** The shape the admin router sends back for one lead. */
  datatype FormattedLead = FormattedLead(
    id: LeadId,
    name: Option<string>,
    contact: Option<string>,
    linkedin: string,
    naukri: string,
    resume: string,
    createdAt: int)

  /** The JSON payload of a reply. */
  datatype Body =
    | Message(message: string)
    | Error(error: string)
    | Documents(docs: seq<Lead>)
    | Document(doc: Lead)
    | FormattedList(items: seq<FormattedLead>)
    | FormattedItem(item: FormattedLead)

  datatype Response = Response(status: nat, body: Body)

  const LeadNotFound := "Lead not found"

  // ---------------------------------------------------------------------------
  // Identity

  ghost predicate UniqueIds(s: seq<Lead>)
  {
    forall i, j :: 0 <= i < j < |s| ==> s[i].id != s[j].id
  }

  predicate HasId(s: seq<Lead>, id: LeadId)
  {
    exists l :: l in s && l.id == id
  }

  /** Position of the first document with the given id. */
  function FindIndex(s: seq<Lead>, id: LeadId): (r: Option<nat>)
    ensures r.None? <==> !HasId(s, id)
    ensures r.Some? ==> r.value < |s| && s[r.value].id == id
    ensures r.Some? ==> forall j :: 0 <= j < r.value ==> s[j].id != id
  {
    if s == [] then None
    else if s[0].id == id then Some(0)
    else
      match FindIndex(s[1..], id)
      case None =>
        assert forall l :: l in s && l.id == id ==> l in s[1..];
        None
      case Some(k) => Some(k + 1)
  }

  /** findById: the document with that id, or null. */
  function Lookup(s: seq<Lead>, id: LeadId): (r: Option<Lead>)
    ensures r.Some? <==> HasId(s, id)
    ensures r.Some? ==> r.value in s && r.value.id == id
  {
    match FindIndex(s, id)
    case None => None
    case Some(k) => Some(s[k])
  }

  /** The collection after findByIdAndDelete: the first document with that id
      is removed, and nothing else changes. */
  function DeleteById(s: seq<Lead>, id: LeadId): (r: seq<Lead>)
    ensures !HasId(s, id) ==> r == s
    ensures HasId(s, id) ==> |r| == |s| - 1
    ensures forall l :: l in r ==> l in s
    ensures forall l :: l in s && l.id != id ==> l in r
  {
    match FindIndex(s, id)
    case None => s
    case Some(k) =>
      assert s == s[..k] + [s[k]] + s[k + 1..];
      s[..k] + s[k + 1..]
  }

  /** With unique ids, deleting by id is the same as keeping every document
      whose id differs: exactly that record goes, the rest keep their order. */
  lemma {:induction false} DeleteByIdIsFilter(s: seq<Lead>, id: LeadId)
    requires UniqueIds(s)
    ensures DeleteById(s, id) == Filter(s, (l: Lead) => l.id != id)
  {
    var p := (l: Lead) => l.id != id;
    if s != [] {
      UniqueIdsTail(s);
      if s[0].id == id {
        assert FindIndex(s, id) == Some(0);
        assert DeleteById(s, id) == s[1..];
        assert Filter(s, p) == Filter(s[1..], p);
        TailLacksHeadId(s);
        FilterKeepsAllIff(s[1..], p);
      } else {
        DeleteByIdIsFilter(s[1..], id);
        assert Filter(s, p) == [s[0]] + Filter(s[1..], p);
        DeleteByIdOfCons(s, id);
      }
    }
  }

  lemma DeleteByIdOfCons(s: seq<Lead>, id: LeadId)
    requires s != [] && s[0].id != id
    ensures DeleteById(s, id) == [s[0]] + DeleteById(s[1..], id)
  {
    match FindIndex(s[1..], id)
    case None =>
      assert s == [s[0]] + s[1..];
    case Some(k) =>
      var t := s[1..];
      assert FindIndex(s, id) == Some(k + 1);
      assert DeleteById(s, id) == s[..k + 1] + s[k + 2..];
      assert DeleteById(t, id) == t[..k] + t[k + 1..];
      assert s[..k + 1] == [s[0]] + t[..k];
      assert s[k + 2..] == t[k + 1..];
      assert ([s[0]] + t[..k]) + t[k + 1..] == [s[0]] + (t[..k] + t[k + 1..]);
  }

  /** With unique ids, no later document shares the head's id. */
  lemma TailLacksHeadId(s: seq<Lead>)
    requires s != [] && UniqueIds(s)
    ensures forall l :: l in s[1..] ==> l.id != s[0].id
  {
    forall l | l in s[1..] ensures l.id != s[0].id {
      var j :| 0 <= j < |s[1..]| && s[1..][j] == l;
      assert s[j + 1] == l;
    }
  }

  lemma UniqueIdsTail(s: seq<Lead>)
    requires s != [] && UniqueIds(s)
    ensures UniqueIds(s[1..])
  {
    forall i, j | 0 <= i < j < |s[1..]| ensures s[1..][i].id != s[1..][j].id {
      assert s[1..][i] == s[i + 1] && s[1..][j] == s[j + 1];
    }
  }

  /** After a delete with unique ids, no document with that id remains and the
      ids stay unique. */
  lemma DeleteRemovesId(s: seq<Lead>, id: LeadId)
    requires UniqueIds(s)
    ensures !HasId(DeleteById(s, id), id)
    ensures UniqueIds(DeleteById(s, id))
    ensures SubsequenceOf(DeleteById(s, id), s)
  {
    var p := (l: Lead) => l.id != id;
    DeleteByIdIsFilter(s, id);
    FilterIsSubsequence(s, p);
    SubsequenceKeepsUniqueIds(DeleteById(s, id), s);
  }

  lemma {:induction false} SubsequenceKeepsUniqueIds(r: seq<Lead>, s: seq<Lead>)
    requires SubsequenceOf(r, s) && UniqueIds(s)
    ensures UniqueIds(r)
    decreases |s|
  {
    if r != [] {
      UniqueIdsTail(s);
      if r[0] == s[0] && SubsequenceOf(r[1..], s[1..]) {
        SubsequenceKeepsUniqueIds(r[1..], s[1..]);
        SubsequenceMembers(r[1..], s[1..]);
        forall j | 0 < j < |r| ensures r[0].id != r[j].id {
          assert r[j] == r[1..][j - 1];
          assert r[j] in r[1..];
          var k :| 0 <= k < |s[1..]| && s[1..][k] == r[j];
          assert s[k + 1] == r[j];
        }
      } else {
        SubsequenceKeepsUniqueIds(r, s[1..]);
      }
    }
  }

  lemma {:induction false} SubsequenceMembers<T>(r: seq<T>, s: seq<T>)
    requires SubsequenceOf(r, s)
    ensures forall x :: x in r ==> x in s
    decreases |s|
  {
    if r != [] {
      if r[0] == s[0] && SubsequenceOf(r[1..], s[1..]) {
        SubsequenceMembers(r[1..], s[1..]);
        assert r == [r[0]] + r[1..];
      } else {
        SubsequenceMembers(r, s[1..]);
      }
    }
  }

  // ---------------------------------------------------------------------------
  // find().sort({ date: -1 })

  ghost predicate DateDescending(s: seq<Lead>)
  {
    forall i, j :: 0 <= i < j < |s| ==> s[i].date >= s[j].date
  }

  function Insert(l: Lead, s: seq<Lead>): (r: seq<Lead>)
    requires DateDescending(s)
    ensures DateDescending(r)
    ensures multiset(r) == multiset(s) + multiset{l}
    ensures forall x :: x in r ==> x == l || x in s
  {
    if s == [] then [l]
    else if l.date >= s[0].date then
      HeadIsNewest(s);
      ConsDescending(l, s);
      [l] + s
    else
      var rest := Insert(l, s[1..]);
      InsertBehindHead(l, s, rest);
      [s[0]] + rest
  }

  /** The recursive step of Insert: a document older than the head goes
      behind it, into the rest of the list. */
  lemma InsertBehindHead(l: Lead, s: seq<Lead>, rest: seq<Lead>)
    requires DateDescending(s) && s != [] && l.date < s[0].date
    requires DateDescending(rest)
    requires multiset(rest) == multiset(s[1..]) + multiset{l}
    requires forall x :: x in rest ==> x == l || x in s[1..]
    ensures DateDescending([s[0]] + rest)
    ensures multiset([s[0]] + rest) == multiset(s) + multiset{l}
    ensures forall x :: x in [s[0]] + rest ==> x == l || x in s
  {
    HeadIsNewest(s);
    assert forall x :: x in s[1..] ==> x in s;
    ConsDescending(s[0], rest);
    assert s == [s[0]] + s[1..];
    assert multiset([s[0]] + rest) == multiset{s[0]} + multiset(rest);
  }

  lemma HeadIsNewest(s: seq<Lead>)
    requires DateDescending(s) && s != []
    ensures forall x :: x in s ==> x.date <= s[0].date
  {
    forall x | x in s ensures x.date <= s[0].date {
      var j :| 0 <= j < |s| && s[j] == x;
    }
  }

  lemma ConsDescending(h: Lead, s: seq<Lead>)
    requires DateDescending(s)
    requires forall x :: x in s ==> x.date <= h.date
    ensures DateDescending([h] + s)
  {
    var r := [h] + s;
    forall i, j | 0 <= i < j < |r| ensures r[i].date >= r[j].date {
      assert r[j] == s[j - 1];
      if i == 0 {
        assert r[j] in s;
      } else {
        assert r[i] == s[i - 1];
      }
    }
  }

  /** The order the collection is listed in: newest first, same documents. */
  function SortByDateDesc(s: seq<Lead>): (r: seq<Lead>)
    ensures DateDescending(r)
    ensures multiset(r) == multiset(s)
  {
    if s == [] then []
    else
      assert s == [s[0]] + s[1..];
      Insert(s[0], SortByDateDesc(s[1..]))
  }

  lemma SortedMembers(s: seq<Lead>)
    ensures |SortByDateDesc(s)| == |s|
    ensures forall l :: l in SortByDateDesc(s) <==> l in s
  {
    var r := SortByDateDesc(s);
    assert |r| == |multiset(r)| == |multiset(s)| == |s|;
    forall l ensures l in r <==> l in s {
      assert l in r <==> l in multiset(r);
      assert l in s <==> l in multiset(s);
    }
  }

  // ---------------------------------------------------------------------------
  // The store

  class Store {
    var leads: seq<Lead>
    var nextId: nat

    /** Ids are unique and all below the counter, so a fresh id is never taken. */
    ghost predicate Valid()
      reads this
    {
      UniqueIds(leads) && forall l :: l in leads ==> l.id < nextId
    }

    constructor ()
      ensures Valid() && leads == []
    {
      leads := [];
      nextId := 0;
    }

    /** save(): appends a new document under an id no other document has. */
    method Save(name: Option<string>, contact: Option<string>, linkedin: Option<string>,
                naukri: Option<string>, resume: Option<string>, date: int)
      returns (saved: Lead)
      requires Valid()
      modifies this
      ensures Valid()
      ensures saved == Lead(old(nextId), name, contact, linkedin, naukri, resume, date)
      ensures !HasId(old(leads), saved.id)
      ensures leads == old(leads) + [saved]
    {
      saved := Lead(nextId, name, contact, linkedin, naukri, resume, date);
      leads := leads + [saved];
      nextId := nextId + 1;
    }

    /** find().sort({ date: -1 }) */
    method FindSorted() returns (r: seq<Lead>)
      ensures r == SortByDateDesc(leads)
    {
      r := SortByDateDesc(leads);
    }

    /** findById */
    method FindById(id: LeadId) returns (r: Option<Lead>)
      ensures r == Lookup(leads, id)
    {
      r := Lookup(leads, id);
    }

    /** findByIdAndDelete: returns the removed document, or None when no
        document has that id (and then nothing changes). */
    method FindByIdAndDelete(id: LeadId) returns (r: Option<Lead>)
      requires Valid()
      modifies this
      ensures Valid()
      ensures r == Lookup(old(leads), id)
      ensures leads == DeleteById(old(leads), id)
      ensures nextId == old(nextId)
    {
      r := Lookup(leads, id);
      DeleteRemovesId(leads, id);
      leads := DeleteById(leads, id);
    }
  }
}
