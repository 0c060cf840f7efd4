/** The contributions page (client/src/pages/Contributions.jsx): the search
    and status filter over the loaded page of contributions, the status
    badges, the page guard, and the add-contribution form. */
module ContributionsPage {
  import opened Common
  import opened Query
  import opened ContributionModel
  import opened MemberModel
  import opened ThriftModel
  import opened ContributionController

  const ItemsPerPage: nat := 20
  const FetchFailedMessage: string := "Failed to fetch contributions."

  // ---------------------------------------------------------------------------
  // filteredContributions

  /** `x?.name || ""` and `transactionRef || ""`: a missing value searches as
      the empty string. */
  function TextOrEmpty(o: Option<string>): (s: string)
    ensures o.Some? ==> s == o.value
    ensures o.None? ==> s == ""
  {
    if o.Some? then o.value else ""
  }

  predicate MatchesStatus(c: Listed, filterStatus: string) {
    filterStatus == "All" || c.contribution.status == Some(filterStatus)
  }

  /** The search term, ignoring ASCII case, occurs in the member's name, the
      thrift's name or the transaction reference. */
  predicate MatchesSearch(c: Listed, term: string) {
    Includes(Lower(TextOrEmpty(c.memberName)), Lower(term)) ||
    Includes(Lower(TextOrEmpty(c.thriftName)), Lower(term)) ||
    Includes(Lower(TextOrEmpty(c.contribution.transactionRef)), Lower(term))
  }

  function Keeps(filterStatus: string, term: string): Listed -> bool {
    (c: Listed) => MatchesStatus(c, filterStatus) && MatchesSearch(c, term)
  }

  /** filteredContributions: a contribution is kept exactly when it matches
      both the status filter and the search; order is kept. */
  function FilterContributions(cs: seq<Listed>, filterStatus: string, term: string): (r: seq<Listed>)
    ensures |r| <= |cs|
    ensures forall k :: 0 <= k < |r| ==> r[k] in cs && MatchesStatus(r[k], filterStatus) && MatchesSearch(r[k], term)
    ensures forall k :: 0 <= k < |cs| && MatchesStatus(cs[k], filterStatus) && MatchesSearch(cs[k], term) ==>
              cs[k] in r
  {
    Filter(cs, Keeps(filterStatus, term))
  }

  /** Every contribution the server creates can be found by searching for
      its full transaction reference, whatever its member or thrift. */
  lemma {:induction false} FoundByOwnReference(c: Listed)
    requires c.contribution.transactionRef.Some?
    ensures MatchesSearch(c, c.contribution.transactionRef.value)
  {
    var s := Lower(c.contribution.transactionRef.value);
    assert s == s[..|s|];
  }

  /** With the filter on "All" and an empty search the whole page is shown. */
  lemma {:induction false} UnfilteredShowsAll(cs: seq<Listed>)
    ensures FilterContributions(cs, "All", "") == cs
  {
    forall k | 0 <= k < |cs| ensures Keeps("All", "")(cs[k]) {
      IncludesEmpty(Lower(TextOrEmpty(cs[k].memberName)));
    }
    FilterAll(cs, Keeps("All", ""));
  }

  // ---------------------------------------------------------------------------
  // getStatusBadgeClass

  const SecondaryBadge: string := "bg-secondary-subtle text-secondary"

  /** The badge class of a status: one of its own for each of the four
      statuses, the secondary one for anything else. */
  function StatusBadgeClass(status: string): (cls: string)
    ensures status !in ContributionStatuses ==> cls == SecondaryBadge
    ensures status in ContributionStatuses ==> cls != SecondaryBadge
  {
    match status
    case "Paid" => "bg-success-subtle text-success"
    case "Pending" => "bg-warning-subtle text-warning"
    case "Overdue" => "bg-danger-subtle text-danger"
    case "Refunded" => "bg-info-subtle text-info"
    case _ => SecondaryBadge
  }

  /** Different statuses get different badges. */
  lemma BadgesDistinct(s1: string, s2: string)
    requires s1 in ContributionStatuses && s2 in ContributionStatuses && s1 != s2
    ensures StatusBadgeClass(s1) != StatusBadgeClass(s2)
  {
  }

  /** The page always asks for 20 per page, which is also the server's
      default, so the page it is sent is the one the server lists by
      default. */
  lemma ClientLimitIsServerDefault(ms: seq<Member>, ts: seq<Thrift>, cs: seq<Contribution>, caller: nat,
                                   page: Option<int>)
    ensures GetContributions(ms, ts, cs, caller, page, Some(ItemsPerPage)) ==
            GetContributions(ms, ts, cs, caller, page, None)
  {
  }

  /** The pagination controls are shown only when there is more than one
      page's worth of contributions, that is, when the server's page count
      for the client's limit is above one. */
  function ShowPagination(totalContributions: int): (b: bool)
    ensures totalContributions >= 0 ==> (b <==> CeilDiv(totalContributions, ItemsPerPage) > 1)
  {
    totalContributions > ItemsPerPage
  }

  // ---------------------------------------------------------------------------
  // The page's state and the add-contribution form

  /** The add-contribution form: an empty select or amount field is None;
      `date` starts as today's date. */
  datatype ContributionForm = ContributionForm(memberId: Option<nat>, thriftId: Option<nat>, amount: Option<int>,
                                               date: string)

  function EmptyForm(today: string): (f: ContributionForm)
    ensures f.memberId.None? && f.thriftId.None? && f.amount.None? && f.date == today
  {
    ContributionForm(None, None, None, today)
  }

  /** The page's check before posting: all four fields filled and a
      positive amount. */
  predicate FormAccepted(f: ContributionForm) {
    f.memberId.Some? && f.thriftId.Some? && f.amount.Some? && f.date != "" && f.amount.value > 0
  }

  function ToRequest(f: ContributionForm): (r: ContributionRequest)
    ensures r.memberId == f.memberId && r.thriftId == f.thriftId && r.amount == f.amount && r.date == Some(f.date)
  {
    ContributionRequest(f.memberId, f.amount, Some(f.date), f.thriftId)
  }

  /** A form the page lets through passes the server's guard and its
      schema's amount minimum; the server can then only refuse it for a
      clashing transaction reference. */
  lemma {:induction false} AcceptedFormPassesServerChecks(f: ContributionForm)
    requires FormAccepted(f)
    ensures !MissingField(ToRequest(f)) && ToRequest(f).amount.value >= 0
  {
  }

  class ContributionsPageState {
    var contributions: seq<Listed>
    var currentPage: int
    var totalPages: int
    var totalContributions: int
    var error: Option<string>
    var filterStatus: string
    var searchTerm: string
    var showAddContributionModal: bool
    var newContribution: ContributionForm

    constructor (today: string)
      ensures contributions == [] && currentPage == 1 && totalPages == 1 && totalContributions == 0
      ensures error.None? && filterStatus == "All" && searchTerm == ""
      ensures !showAddContributionModal && newContribution == EmptyForm(today)
    {
      contributions, currentPage, totalPages, totalContributions := [], 1, 1, 0;
      error, filterStatus, searchTerm := None, "All", "";
      showAddContributionModal, newContribution := false, EmptyForm(today);
    }

    /** fetchContributions(page): asks the server for `page`, 20 at a time.
      A reply replaces the rows and all three counters with the server's; a
      failure keeps them and records an error. */
    method FetchContributions(ms: seq<Member>, ts: seq<Thrift>, cs: seq<Contribution>, caller: nat, page: int)
      modifies this
      ensures var reply := GetContributions(ms, ts, cs, caller, Some(page), Some(ItemsPerPage));
        && (reply.Ok? ==>
              && contributions == reply.value.items && currentPage == reply.value.currentPage
              && totalPages == reply.value.totalPages && totalContributions == reply.value.total
              && error.None?)
        && (reply.Err? ==>
              && contributions == old(contributions) && currentPage == old(currentPage)
              && totalPages == old(totalPages) && totalContributions == old(totalContributions)
              && error == Some(FetchFailedMessage))
      ensures page >= 1 ==> error.None? && currentPage == page && |contributions| <= ItemsPerPage
      ensures filterStatus == old(filterStatus) && searchTerm == old(searchTerm)
      ensures showAddContributionModal == old(showAddContributionModal) && newContribution == old(newContribution)
    {
      error := None;
      var reply := GetContributions(ms, ts, cs, caller, Some(page), Some(ItemsPerPage));
      if reply.Ok? {
        contributions := reply.value.items;
        totalPages := reply.value.totalPages;
        totalContributions := reply.value.total;
        currentPage := reply.value.currentPage;
      } else {
        error := Some(FetchFailedMessage);
      }
    }

    /** handlePageChange: moves to `page` only when 1 <= page <= totalPages;
      any other request changes nothing. */
    method HandlePageChange(page: int)
      modifies this
      ensures 0 < page <= old(totalPages) ==> currentPage == page
      ensures !(0 < page <= old(totalPages)) ==> currentPage == old(currentPage)
      ensures 1 <= old(currentPage) <= old(totalPages) ==> 1 <= currentPage <= totalPages
      ensures contributions == old(contributions) && totalPages == old(totalPages)
      ensures totalContributions == old(totalContributions) && error == old(error)
      ensures filterStatus == old(filterStatus) && searchTerm == old(searchTerm)
      ensures showAddContributionModal == old(showAddContributionModal) && newContribution == old(newContribution)
    {
      if page > 0 && page <= totalPages {
        currentPage := page;
      }
    }

    /** handleAddContribution: a form the page does not accept is refused
      without a request and changes nothing; otherwise it is posted, and when
      the server accepts it the modal closes, the form resets and page 1 is
      fetched again. */
    method HandleAddContribution(accepted: bool, today: string)
      returns (sent: Option<ContributionRequest>, refetchPage: Option<int>)
      modifies this
      ensures !FormAccepted(old(newContribution)) ==> sent.None? && refetchPage.None? && unchanged(this)
      ensures FormAccepted(old(newContribution)) ==>
                && sent == Some(ToRequest(old(newContribution)))
                && (accepted ==> !showAddContributionModal && newContribution == EmptyForm(today) && refetchPage == Some(1))
                && (!accepted ==> refetchPage.None? && showAddContributionModal == old(showAddContributionModal)
                                  && newContribution == old(newContribution))
      ensures contributions == old(contributions) && currentPage == old(currentPage)
      ensures totalPages == old(totalPages) && totalContributions == old(totalContributions)
      ensures error == old(error) && filterStatus == old(filterStatus) && searchTerm == old(searchTerm)
    {
      if !FormAccepted(newContribution) {
        return None, None;
      }
      sent := Some(ToRequest(newContribution));
      refetchPage := None;
      if accepted {
        showAddContributionModal := false;
        newContribution := EmptyForm(today);
        refetchPage := Some(1);
      }
    }
  }
}
