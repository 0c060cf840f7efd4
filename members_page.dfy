/** The members page (client/src/pages/Members.jsx): the search and status
    filter over the loaded members, the ten-per-page slice, the page
    numbers, and the add-member form. */
module MembersPage {
  import opened Common
  import opened MemberModel
  import opened MemberController

  /** A member as the page holds it. Members loaded from the server carry
      no status. */
  datatype MemberView = MemberView(name: string, phone: Option<string>, status: Option<string>)

  function FromServer(m: Member): (v: MemberView)
    ensures v.phone == m.phone && v.status.None?
    ensures m.name.Some? ==> v.name == m.name.value
  {
    MemberView(if m.name.Some? then m.name.value else "", m.phone, None)
  }

  function FromServerAll(ms: seq<Member>): (vs: seq<MemberView>)
    ensures |vs| == |ms| && forall k :: 0 <= k < |ms| ==> vs[k] == FromServer(ms[k])
  {
    seq(|ms|, k requires 0 <= k < |ms| => FromServer(ms[k]))
  }

  const MembersPerPage: nat := 10

  // ---------------------------------------------------------------------------
  // filteredMembers

  predicate MatchesStatus(m: MemberView, filterStatus: string) {
    filterStatus == "All" || m.status == Some(filterStatus)
  }

  /** The search term, ignoring ASCII case, occurs in the name, or in the
      phone when there is a (non-empty) phone. */
  predicate MatchesSearch(m: MemberView, term: string) {
    Includes(Lower(m.name), Lower(term)) ||
    (PresentText(m.phone) && Includes(Lower(m.phone.value), Lower(term)))
  }

  function Keeps(filterStatus: string, term: string): MemberView -> bool {
    (m: MemberView) => MatchesStatus(m, filterStatus) && MatchesSearch(m, term)
  }

  /** filteredMembers: a member is kept exactly when it matches both the
      status filter and the search; order is kept. */
  function FilterMembers(ms: seq<MemberView>, filterStatus: string, term: string): (r: seq<MemberView>)
    ensures |r| <= |ms|
    ensures forall k :: 0 <= k < |r| ==> r[k] in ms && MatchesStatus(r[k], filterStatus) && MatchesSearch(r[k], term)
    ensures forall k :: 0 <= k < |ms| && MatchesStatus(ms[k], filterStatus) && MatchesSearch(ms[k], term) ==>
              ms[k] in r
  {
    Filter(ms, Keeps(filterStatus, term))
  }

  /** A member without a phone is found only through its name, and the
      term then occurs in the lower-cased name as a slice. */
  lemma {:induction false} NoPhoneSearchesNameOnly(m: MemberView, term: string)
    requires m.phone.None?
    ensures MatchesSearch(m, term) <==> exists i :: SliceAt(Lower(m.name), Lower(term), i)
  {
    IncludesIffSlice(Lower(m.name), Lower(term));
    assert MatchesSearch(m, term) <==> Includes(Lower(m.name), Lower(term));
  }

  /** With the filter on "All" and an empty search every member is shown,
      in the loaded order. */
  lemma {:induction false} UnfilteredShowsAll(ms: seq<MemberView>)
    ensures FilterMembers(ms, "All", "") == ms
  {
    forall k | 0 <= k < |ms| ensures Keeps("All", "")(ms[k]) {
      IncludesEmpty(Lower(ms[k].name));
    }
    FilterAll(ms, Keeps("All", ""));
  }

  /** Members from the server have no status, so any filter other than
      "All" hides all of them. */
  lemma {:induction false} StatusFilterHidesServerMembers(server: seq<Member>, filterStatus: string, term: string)
    requires filterStatus != "All"
    ensures FilterMembers(FromServerAll(server), filterStatus, term) == []
  {
    var vs := FromServerAll(server);
    forall k | 0 <= k < |vs| ensures !Keeps(filterStatus, term)(vs[k]) {
      assert vs[k].status.None?;
    }
    FilterNone(vs, Keeps(filterStatus, term));
  }

  // ---------------------------------------------------------------------------
  // Pagination

  /** currentMembers: `filtered.slice((p - 1) * 10, p * 10)` for page p. */
  function PageSlice(filtered: seq<MemberView>, page: nat): (r: seq<MemberView>)
    requires page >= 1
    ensures |r| <= MembersPerPage
    ensures |r| == if (page - 1) * MembersPerPage >= |filtered| then 0
                   else Min(MembersPerPage, |filtered| - (page - 1) * MembersPerPage)
    ensures forall i :: 0 <= i < |r| ==> r[i] == filtered[(page - 1) * MembersPerPage + i]
  {
    Window(filtered, (page - 1) * MembersPerPage, MembersPerPage)
  }

  /** totalPages: counted from all loaded members, not the filtered ones. */
  function TotalPages(totalMembers: nat): (n: nat)
    ensures (n - 1) * MembersPerPage < totalMembers <= n * MembersPerPage || (n == 0 && totalMembers == 0)
  {
    CeilDiv(totalMembers, MembersPerPage)
  }

  /** The page-number buttons: the loop pushing 1, 2, ..., totalPages. */
  method PageNumbers(totalPages: int) returns (r: seq<int>)
    ensures |r| == if totalPages > 0 then totalPages else 0
    ensures forall k :: 0 <= k < |r| ==> r[k] == k + 1
  {
    r := [];
    var i := 1;
    while i <= totalPages
      invariant 1 <= i <= (if totalPages > 0 then totalPages else 0) + 1
      invariant |r| == i - 1
      invariant forall k :: 0 <= k < |r| ==> r[k] == k + 1
      decreases totalPages - i
    {
      r := r + [i];
      i := i + 1;
    }
  }

  // ---------------------------------------------------------------------------
  // The page's state and the add-member form

  /** The add-member form; `joinedDate` starts as today's date. */
  datatype MemberForm = MemberForm(name: string, phone: string, status: string, joinedDate: string)

  function EmptyForm(today: string): (f: MemberForm)
    ensures f.name == "" && f.phone == "" && f.status == "Pending" && f.joinedDate == today
  {
    MemberForm("", "", "Pending", today)
  }

  /** The body posted to the server; the server reads name, phone and
      address from it, so status and joinedDate are not stored. */
  function ToRequest(f: MemberForm): (r: MemberRequest)
    ensures r.name == Some(f.name) && r.phone == Some(f.phone) && r.address.None?
  {
    MemberRequest(Some(f.name), Some(f.phone), None)
  }

  /** A form the page lets through never meets the server's 400. */
  lemma {:induction false} AcceptedFormPassesServerGuard(f: MemberForm)
    requires f.name != "" && f.phone != ""
    ensures PresentText(ToRequest(f).name)
  {
  }

  class MembersPageState {
    var members: seq<MemberView>
    var totalMembers: nat
    var currentPage: nat
    var filterStatus: string
    var searchTerm: string
    var showAddMemberModal: bool
    var newMember: MemberForm

    ghost predicate Valid()
      reads this
    {
      currentPage >= 1
    }

    constructor (today: string)
      ensures Valid()
      ensures members == [] && totalMembers == 0 && currentPage == 1
      ensures filterStatus == "All" && searchTerm == "" && !showAddMemberModal && newMember == EmptyForm(today)
    {
      members, totalMembers, currentPage := [], 0, 1;
      filterStatus, searchTerm := "All", "";
      showAddMemberModal, newMember := false, EmptyForm(today);
    }

    /** The members shown: the current page of the filtered list. */
    function CurrentMembers(): (r: seq<MemberView>)
      reads this
      requires Valid()
      ensures r == PageSlice(FilterMembers(members, filterStatus, searchTerm), currentPage)
      ensures |r| <= MembersPerPage
      ensures forall i :: 0 <= i < |r| ==> MatchesStatus(r[i], filterStatus) && MatchesSearch(r[i], searchTerm)
    {
      var filtered := FilterMembers(members, filterStatus, searchTerm);
      var page := PageSlice(filtered, currentPage);
      assert forall i :: 0 <= i < |page| ==> page[i] in filtered;
      page
    }

    /** fetchMembers on success: the whole unpaginated list, and its length
      as the total. */
    method LoadMembers(server: seq<Member>)
      modifies this
      ensures members == FromServerAll(server) && totalMembers == |server|
      ensures currentPage == old(currentPage) && filterStatus == old(filterStatus) && searchTerm == old(searchTerm)
      ensures showAddMemberModal == old(showAddMemberModal) && newMember == old(newMember)
    {
      members := FromServerAll(server);
      totalMembers := |server|;
    }

    /** paginate: a click on one of the page numbers. */
    method GoToPage(page: nat)
      requires page >= 1
      modifies this
      ensures Valid() && currentPage == page
      ensures members == old(members) && totalMembers == old(totalMembers)
      ensures filterStatus == old(filterStatus) && searchTerm == old(searchTerm)
      ensures showAddMemberModal == old(showAddMemberModal) && newMember == old(newMember)
    {
      currentPage := page;
    }

    /** handleAddMember: an empty name or phone is refused without a
      request and changes nothing; otherwise the form is posted, and when the
      server accepts it the modal closes, the form resets to an empty name
      and phone with status "Pending", and the list is fetched again. A
      refused post leaves the form as it was. */
    method HandleAddMember(accepted: bool, today: string) returns (sent: Option<MemberRequest>, refetch: bool)
      modifies this
      ensures old(newMember).name == "" || old(newMember).phone == "" ==>
                sent.None? && !refetch && unchanged(this)
      ensures old(newMember).name != "" && old(newMember).phone != "" ==>
                && sent == Some(ToRequest(old(newMember)))
                && refetch == accepted
                && (accepted ==> !showAddMemberModal && newMember == EmptyForm(today))
                && (!accepted ==> showAddMemberModal == old(showAddMemberModal) && newMember == old(newMember))
      ensures members == old(members) && totalMembers == old(totalMembers) && currentPage == old(currentPage)
      ensures filterStatus == old(filterStatus) && searchTerm == old(searchTerm)
    {
      if newMember.name == "" || newMember.phone == "" {
        return None, false;
      }
      sent := Some(ToRequest(newMember));
      refetch := false;
      if accepted {
        showAddMemberModal := false;
        newMember := EmptyForm(today);
        refetch := true;
      }
    }
  }
}
