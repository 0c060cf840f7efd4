/** The thrift list page (client/src/pages/ThriftList.jsx): one page of the
    caller's thrifts fetched 25 at a time, the row numbers shown beside them,
    the page guard, and the dialogs' open/close state. */
module ThriftList {
  import opened Common
  import opened ErrorHandler
  import opened Query
  import opened ThriftModel
  import opened ThriftController

  const ItemsPerPage: nat := 25

  /** The number shown in a row: its position counted across pages. */
  function RowNumber(currentPage: int, index: nat): (n: int)
    ensures index < ItemsPerPage ==> (currentPage - 1) * ItemsPerPage < n <= currentPage * ItemsPerPage
  {
    (currentPage - 1) * ItemsPerPage + index + 1
  }

  /** The page asks for 25 per page, which is also the server's default. */
  lemma ClientLimitIsServerDefault(ts: seq<Thrift>, caller: nat, page: Option<int>)
    ensures GetThrifts(ts, caller, page, Some(ItemsPerPage)) == GetThrifts(ts, caller, page, None)
  {
  }

  /** Row number n on page p shows the n-th thrift, counting from 1, of the
      caller's whole listing, newest first, as loaded. */
  lemma {:induction false} RowNumberIsListPosition(ts: seq<Thrift>, caller: nat, p: int, k: nat)
    requires p >= 1
    requires k < |GetThrifts(ts, caller, Some(p), Some(ItemsPerPage)).value.items|
    ensures var n := RowNumber(p, k);
      && 1 <= n <= |OwnedThrifts(ts, caller)|
      && GetThrifts(ts, caller, Some(p), Some(ItemsPerPage)).value.items[k] == ThriftDefaults(Reverse(OwnedThrifts(ts, caller))[n - 1])
  {
    var ordered := Loaded(Reverse(OwnedThrifts(ts, caller)));
    PageContents(ordered, p, ItemsPerPage);
  }

  /** The page's state. */
  class ThriftListState {
    var showCreateThriftModal: bool
    var showThriftDetailsModal: bool
    var selectedThrift: Option<Thrift>
    var thrifts: seq<Thrift>
    var error: Option<string>
    var currentPage: int
    var totalPages: int

    constructor ()
      ensures !showCreateThriftModal && !showThriftDetailsModal && selectedThrift.None?
      ensures thrifts == [] && error.None? && currentPage == 1 && totalPages == 1
    {
      showCreateThriftModal, showThriftDetailsModal, selectedThrift := false, false, None;
      thrifts, error, currentPage, totalPages := [], None, 1, 1;
    }

    /** fetchThrifts: asks the server for the current page, 25 at a time. A
      reply replaces the rows and the page count; a failure keeps the old
      rows and shows the server's message. */
    method FetchThrifts(ts: seq<Thrift>, caller: nat)
      modifies this
      ensures var reply := GetThrifts(ts, caller, Some(old(currentPage)), Some(ItemsPerPage));
        && (reply.Ok? ==> thrifts == reply.value.items && totalPages == reply.value.totalPages && error.None?)
        && (reply.Err? ==> thrifts == old(thrifts) && totalPages == old(totalPages) && error == Some(reply.message))
      ensures old(currentPage) >= 1 ==> error.None?
      ensures currentPage == old(currentPage)
      ensures showCreateThriftModal == old(showCreateThriftModal)
      ensures showThriftDetailsModal == old(showThriftDetailsModal) && selectedThrift == old(selectedThrift)
    {
      error := None;
      var reply := GetThrifts(ts, caller, Some(currentPage), Some(ItemsPerPage));
      if reply.Ok? {
        thrifts := reply.value.items;
        totalPages := reply.value.totalPages;
      } else {
        error := Some(reply.message);
      }
    }

    /** handlePageChange: moves to `page` only when 1 <= page <= totalPages;
      any other request changes nothing. */
    method HandlePageChange(page: int)
      modifies this
      ensures 0 < page <= old(totalPages) ==> currentPage == page
      ensures !(0 < page <= old(totalPages)) ==> currentPage == old(currentPage)
      ensures 1 <= old(currentPage) <= old(totalPages) ==> 1 <= currentPage <= totalPages
      ensures thrifts == old(thrifts) && totalPages == old(totalPages) && error == old(error)
      ensures showCreateThriftModal == old(showCreateThriftModal)
      ensures showThriftDetailsModal == old(showThriftDetailsModal) && selectedThrift == old(selectedThrift)
    {
      if page > 0 && page <= totalPages {
        currentPage := page;
      }
    }

    /** The "Create New Thrift" button. */
    method OpenCreateThrift()
      modifies this
      ensures showCreateThriftModal
      ensures thrifts == old(thrifts) && currentPage == old(currentPage) && totalPages == old(totalPages)
      ensures error == old(error)
      ensures showThriftDetailsModal == old(showThriftDetailsModal) && selectedThrift == old(selectedThrift)
    {
      showCreateThriftModal := true;
    }

    /** handleThriftCreationSuccess: the create dialog closes and the list
      goes back to its first page, where the new thrift is listed first;
      the page then fetches its rows again (FetchThrifts). */
    method HandleThriftCreationSuccess()
      modifies this
      ensures !showCreateThriftModal && currentPage == 1
      ensures thrifts == old(thrifts) && totalPages == old(totalPages) && error == old(error)
      ensures showThriftDetailsModal == old(showThriftDetailsModal) && selectedThrift == old(selectedThrift)
    {
      showCreateThriftModal := false;
      currentPage := 1;
    }

    /** handleViewDetails: the details dialog opens on the chosen thrift. */
    method HandleViewDetails(t: Thrift)
      modifies this
      ensures showThriftDetailsModal && selectedThrift == Some(t)
      ensures thrifts == old(thrifts) && currentPage == old(currentPage) && totalPages == old(totalPages)
      ensures error == old(error) && showCreateThriftModal == old(showCreateThriftModal)
    {
      selectedThrift := Some(t);
      showThriftDetailsModal := true;
    }

    /** handleThriftUpdateSuccess and handleCloseThriftDetailsModal: the
      details dialog closes and no thrift stays selected; after an update
      the page fetches its rows again (FetchThrifts). */
    method CloseThriftDetails()
      modifies this
      ensures !showThriftDetailsModal && selectedThrift.None?
      ensures thrifts == old(thrifts) && currentPage == old(currentPage) && totalPages == old(totalPages)
      ensures error == old(error) && showCreateThriftModal == old(showCreateThriftModal)
    {
      showThriftDetailsModal := false;
      selectedThrift := None;
    }
  }
}
