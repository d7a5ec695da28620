/** The admin dashboard's state (components/Admin/AdminDashboard.jsx): the
    leads it fetched, the loading and error flags, the search term and the
    lead awaiting delete confirmation, with the derived search result and
    counters. HTTP calls are replaced by their outcome, passed in. */
module AdminDashboard {
  import opened Common

  /** One lead as the dashboard receives it in JSON. */
  datatype LeadRow = LeadRow(
    id: string,
    name: string,
    contact: string,
    linkedin: string,
    naukri: string,
    resume: string,
    createdAt: string)

  const NoResume := "No resume uploaded"
  const LoadError := "Failed to load leads. Please check your connection."

  // ---------------------------------------------------------------------------
  // Search

  /** Name matched case-insensitively, contact matched verbatim. */
  predicate Matches(lead: LeadRow, term: string)
    // the empty term matches every lead
    ensures term == "" ==> Matches(lead, term)
  {
    IncludesEmpty(ToLower(lead.name));
    Includes(ToLower(lead.name), ToLower(term)) || Includes(lead.contact, term)
  }

  /** The case of the ASCII letters in a stored name does not change whether
      the lead matches. */
  lemma SearchIgnoresNameCase(lead: LeadRow, term: string)
    ensures Matches(lead, term) <==> Matches(lead.(name := ToLower(lead.name)), term)
  {
    ToLowerTwice(lead.name);
  }

  function FilteredLeads(leads: seq<LeadRow>, term: string): (r: seq<LeadRow>)
    ensures forall l :: l in r <==> l in leads && Matches(l, term)
    ensures SubsequenceOf(r, leads)
  {
    FilterIsSubsequence(leads, (l: LeadRow) => Matches(l, term));
    Filter(leads, (l: LeadRow) => Matches(l, term))
  }

  /** An empty search box shows every lead, in order. */
  lemma EmptySearchKeepsAll(leads: seq<LeadRow>)
    ensures FilteredLeads(leads, "") == leads
  {
    var p := (l: LeadRow) => Matches(l, "");
    forall l | l in leads ensures p(l) {
      IncludesEmpty(ToLower(l.name));
    }
    FilterKeepsAllIff(leads, p);
  }

  // ---------------------------------------------------------------------------
  // Counters

  /** "Total Leads" */
  function TotalLeads(leads: seq<LeadRow>): (n: nat)
    ensures n == 0 <==> leads == []
    // every search shows at most this many rows
    ensures forall term :: |FilteredLeads(leads, term)| <= n
  {
    |leads|
  }

  /** "Resumes": leads whose resume is not the placeholder. */
  function ResumeCount(leads: seq<LeadRow>): (n: nat)
    ensures n <= TotalLeads(leads)
    ensures n == 0 <==> forall l :: l in leads ==> l.resume == NoResume
    ensures n == TotalLeads(leads) <==> forall l :: l in leads ==> l.resume != NoResume
    // exactly the leads without the placeholder are counted
    ensures n + CountFailing(leads, (l: LeadRow) => l.resume != NoResume) == |leads|
  {
    var p := (l: LeadRow) => l.resume != NoResume;
    var kept := Filter(leads, p);
    FilterKeepsAllIff(leads, p);
    FilterLength(leads, p);
    assert |kept| == |leads| ==> kept == leads by {
      if |kept| == |leads| {
        assert CountFailing(leads, p) == 0;
        NoFailingKeepsAll(leads, p);
      }
    }
    assert |kept| > 0 ==> kept[0] in kept;
    |kept|
  }

  lemma {:induction false} NoFailingKeepsAll<T(!new)>(s: seq<T>, p: T -> bool)
    requires CountFailing(s, p) == 0
    ensures forall x :: x in s ==> p(x)
  {
    if s != [] {
      NoFailingKeepsAll(s[1..], p);
      assert forall x :: x in s ==> x == s[0] || x in s[1..];
    }
  }

  // ---------------------------------------------------------------------------
  // Component state

  class Dashboard {
    var leads: seq<LeadRow>
    var loading: bool
    var error: string
    var searchTerm: string
    var deleteId: Option<string>

    constructor ()
      ensures leads == [] && loading && error == "" && searchTerm == "" && deleteId.None?
    {
      leads := [];
      loading := true;
      error := "";
      searchTerm := "";
      deleteId := None;
    }

    /** What the table shows. */
    function Visible(): (r: seq<LeadRow>)
      reads this
      ensures forall l :: l in r <==> l in leads && Matches(l, searchTerm)
      ensures SubsequenceOf(r, leads)
      ensures searchTerm == "" ==> r == leads
    {
      EmptySearchKeepsAll(leads);
      FilteredLeads(leads, searchTerm)
    }

    method SetSearchTerm(term: string)
      modifies this
      ensures searchTerm == term
      ensures leads == old(leads) && loading == old(loading) && error == old(error) && deleteId == old(deleteId)
    {
      searchTerm := term;
    }

    /** fetchLeads; `response` is the leads the server sent, or None when the
        request threw. */
    method FetchLeads(response: Option<seq<LeadRow>>)
      modifies this
      ensures !loading
      ensures response.Some? ==> leads == response.value && error == ""
      ensures response.None? ==> leads == old(leads) && error == LoadError
      ensures searchTerm == old(searchTerm) && deleteId == old(deleteId)
    {
      loading := true;
      if response.Some? {
        leads := response.value;
        error := "";
      } else {
        error := LoadError;
      }
      loading := false;
    }

    /** The trash button of a row: opens the confirmation. */
    method AskDelete(id: string)
      modifies this
      ensures deleteId == Some(id)
      ensures leads == old(leads) && loading == old(loading) && error == old(error) && searchTerm == old(searchTerm)
    {
      deleteId := Some(id);
    }

    /** The Cancel button of the confirmation. */
    method CancelDelete()
      modifies this
      ensures deleteId.None?
      ensures leads == old(leads) && loading == old(loading) && error == old(error) && searchTerm == old(searchTerm)
    {
      deleteId := None;
    }

    /** handleDelete; `deleted` is whether the DELETE request succeeded. On
        success every row with that id leaves the local list, the others
        keeping their order; on failure nothing changes. */
    method HandleDelete(id: string, deleted: bool)
      modifies this
      ensures deleted ==> leads == Filter(old(leads), (l: LeadRow) => l.id != id) && deleteId.None?
      ensures deleted ==> forall l :: l in leads <==> l in old(leads) && l.id != id
      ensures deleted ==> SubsequenceOf(leads, old(leads))
      ensures !deleted ==> leads == old(leads) && deleteId == old(deleteId)
      ensures loading == old(loading) && error == old(error) && searchTerm == old(searchTerm)
    {
      if deleted {
        FilterIsSubsequence(leads, (l: LeadRow) => l.id != id);
        leads := Filter(leads, (l: LeadRow) => l.id != id);
        deleteId := None;
      }
    }
  }
}
