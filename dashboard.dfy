/** The state of the nominations dashboard (src/pages/Dashboard.jsx) and the
    handlers that change it. Each handler runs to completion with the outcomes
    of its requests and prompts given as inputs; it returns the requests it
    issued and the toasts it showed. */
module Dashboard {
  import opened Ui
  import opened DashboardView

  /** The requests the modelled handlers issue. */
  datatype Call =
    | ListNominations(userId: string, status: string)
    | StatsSummary
    | BulkUpdateStatus(ids: seq<string>, action: string)

  function Verb(c: Call): string
  {
    match c
    case ListNominations(_, _) => "GET"
    case StatsSummary => "GET"
    case BulkUpdateStatus(_, _) => "PUT"
  }

  function Path(c: Call): string
  {
    match c
    case ListNominations(_, _) => "/nominations"
    case StatsSummary => "/nominations/stats/summary"
    case BulkUpdateStatus(_, _) => "/nominations/bulk-update-status"
  }

  /** The requests one run of fetchNominations issues: the filtered list, then
      the summary, which is only asked for once the list has arrived. */
  function FetchCalls(userId: string, status: string, listOk: bool): (calls: seq<Call>)
    ensures |calls| == if listOk then 2 else 1
    ensures calls[0] == ListNominations(userId, status)
    ensures Path(calls[0]) == "/nominations" && Verb(calls[0]) == "GET"
    ensures listOk ==> Path(calls[1]) == "/nominations/stats/summary" && Verb(calls[1]) == "GET"
  {
    [ListNominations(userId, status)] + if listOk then [StatsSummary] else []
  }

  class DashboardPage {
    var nominations: seq<Nomination>
    var stats: map<string, int>
    var filterUser: string
    var filterStatus: string
    var loading: bool
    var showAssignModal: bool
    var selectedNom: Option<Nomination>
    var selectedUserId: string
    var selectedIds: seq<string>
    /** The value the bulk-action drop-down shows. */
    var bulkChoice: string

    /** The state on mount, before the first fetch has answered. */
    constructor ()
      ensures nominations == [] && stats == map[] && loading
      ensures filterUser == "" && filterStatus == ""
      ensures !showAssignModal && selectedNom == None && selectedUserId == ""
      ensures selectedIds == [] && bulkChoice == ""
    {
      nominations, stats := [], map[];
      filterUser, filterStatus := "", "";
      loading := true;
      showAssignModal, selectedNom, selectedUserId := false, None, "";
      selectedIds, bulkChoice := [], "";
    }

    /** fetchNominations: raise the loading flag, ask for the list under the
        current filters and then for the summary; any failure stops the run;
        the flag is lowered whatever happened. */
    method FetchNominations(list: Response<seq<Nomination>>, summary: Response<map<string, int>>)
      returns (calls: seq<Call>)
      modifies this`loading, this`nominations, this`stats
      ensures !loading
      ensures calls == FetchCalls(filterUser, filterStatus, list.Ok?)
      ensures nominations == if list.Ok? then list.data else old(nominations)
      ensures stats == if list.Ok? && summary.Ok? then summary.data else old(stats)
    {
      loading := true;
      calls := [ListNominations(filterUser, filterStatus)];
      if list.Ok? {
        nominations := list.data;
        calls := calls + [StatsSummary];
        if summary.Ok? {
          stats := summary.data;
        }
      }
      loading := false;
    }

    /** True when the header checkbox reads checked. */
    predicate AllSelected()
      reads this
    {
      HeaderChecked(nominations, selectedIds)
    }

    /** A click on the header checkbox. The box is controlled, so the click
        asks for the opposite of what it shows: a checked header clears the
        selection, an unchecked one selects the loaded rows' ids in list
        order. With unique row ids the result has no duplicates and no stale
        ids. */
    method ToggleHeader()
      modifies this`selectedIds
      ensures selectedIds == ClickHeader(nominations, old(selectedIds))
      ensures NoDup(Ids(nominations)) ==>
                NoDup(selectedIds) && Elements(selectedIds) <= Elements(Ids(nominations))
    {
      var checked := !AllSelected();
      if checked {
        selectedIds := Ids(nominations);
      } else {
        selectedIds := [];
      }
      if NoDup(Ids(nominations)) {
        ClickHeaderConsistent(nominations, old(selectedIds));
      }
    }

    /** A click on a row's checkbox. The box is controlled (it shows whether
        the id is selected), so the click unticks a ticked row, filtering out
        every occurrence of its id, and ticks an unticked one, appending the
        id. Every other id keeps its place. The selection stays free of
        duplicates, and a click on a loaded row adds no stale id. */
    method ToggleRow(id: string)
      modifies this`selectedIds
      ensures selectedIds == ClickRow(old(selectedIds), id)
      ensures NoDup(old(selectedIds)) ==> NoDup(selectedIds)
      ensures id in Ids(nominations) && Elements(old(selectedIds)) <= Elements(Ids(nominations)) ==>
                Elements(selectedIds) <= Elements(Ids(nominations))
    {
      var checked := id !in selectedIds;
      if NoDup(selectedIds) {
        ClickRowKeepsNoDup(selectedIds, id);
      }
      if id in Ids(nominations) && Elements(selectedIds) <= Elements(Ids(nominations)) {
        ClickRowKeepsLoaded(nominations, selectedIds, id);
      }
      if checked {
        selectedIds := selectedIds + [id];
      } else {
        selectedIds := RemoveAll(selectedIds, id);
      }
    }

    /** The bulk-action drop-down's change handler. Without an action or a
        selection it reports an error and stops, leaving the drop-down on the
        chosen value. Otherwise it asks for confirmation; when confirmed it
        sends one request with every selected id, and on success clears the
        selection and fetches again. Its last step resets the drop-down. The
        drop-down is uncontrolled, and a browser fires its change event only
        when the shown option changes. */
    method BulkAction(action: string, confirmed: bool, update: Response<()>,
                      list: Response<seq<Nomination>>, summary: Response<map<string, int>>)
      returns (asked: bool, calls: seq<Call>, toasts: seq<Toast>)
      requires action != bulkChoice
      modifies this`selectedIds, this`bulkChoice, this`loading, this`nominations, this`stats
      ensures asked <==> action != "" && old(selectedIds) != []
      ensures !asked ==>
                calls == [] && toasts == [Error("Select nominations")] && bulkChoice == action &&
                selectedIds == old(selectedIds) && nominations == old(nominations) &&
                stats == old(stats) && loading == old(loading)
      ensures asked ==> bulkChoice == ""
      ensures asked && !confirmed ==>
                calls == [] && toasts == [] &&
                selectedIds == old(selectedIds) && nominations == old(nominations) &&
                stats == old(stats) && loading == old(loading)
      ensures asked && confirmed && update.Err? ==>
                calls == [BulkUpdateStatus(old(selectedIds), action)] &&
                toasts == [Error(ServerMessageOr(update.failure, "Failed to update"))] &&
                selectedIds == old(selectedIds) && nominations == old(nominations) &&
                stats == old(stats) && loading == old(loading)
      ensures asked && confirmed && update.Ok? ==>
                calls == [BulkUpdateStatus(old(selectedIds), action)] + FetchCalls(filterUser, filterStatus, list.Ok?) &&
                toasts == [Success("Bulk update done")] &&
                selectedIds == [] && !loading &&
                nominations == (if list.Ok? then list.data else old(nominations)) &&
                stats == (if list.Ok? && summary.Ok? then summary.data else old(stats))
    {
      bulkChoice := action;
      calls, toasts := [], [];
      if action == "" || |selectedIds| == 0 {
        asked := false;
        toasts := [Error("Select nominations")];
        return;
      }
      asked := true;
      if confirmed {
        calls := [BulkUpdateStatus(selectedIds, action)];
        match update
        case Ok(_) =>
          toasts := [Success("Bulk update done")];
          selectedIds := [];
          var refetch := FetchNominations(list, summary);
          calls := calls + refetch;
        case Err(f) =>
          toasts := [Error(ServerMessageOr(f, "Failed to update"))];
      }
      bulkChoice := "";
    }

    /** A summary card: filter on its key. The fetch effect depends on the
        filters, so it runs again exactly when the key differs from the
        current one. */
    method CardClick(key: string) returns (refetches: bool)
      modifies this`filterStatus
      ensures filterStatus == key
      ensures refetches <==> key != old(filterStatus)
    {
      refetches := key != filterStatus;
      filterStatus := key;
    }

    /** "Assign User": open the dialog on this nomination, preselecting its
        current assignee, or nobody. */
    method AssignUser(nom: Nomination)
      modifies this`selectedNom, this`selectedUserId, this`showAssignModal
      ensures selectedNom == Some(nom) && showAssignModal
      ensures selectedUserId == AssigneeId(nom)
    {
      selectedNom := Some(nom);
      selectedUserId := AssigneeId(nom);
      showAssignModal := true;
    }
  }

  /** A refused action sticks: choosing an action with nothing selected
      leaves the drop-down showing it, so after a row is ticked the same
      action cannot be chosen again (no change event fires) until another
      option has been chosen first. */
  method RejectedChoiceSticks(page: DashboardPage, action: string, id: string)
    requires page.selectedIds == [] && action != "" && action != page.bulkChoice
    modifies page
    ensures page.bulkChoice == action && page.selectedIds == [id]
  {
    var asked, calls, toasts := page.BulkAction(action, true, Ok(()), Ok([]), Ok(map[]));
    assert !asked && calls == [] && toasts == [Error("Select nominations")];
    page.ToggleRow(id);
  }

  /** The way out of a stuck action: picking the "Bulk Action" placeholder
      is refused too (its value is empty, so it shows "Select nominations"
      even with rows selected) and leaves the drop-down on the placeholder;
      the stuck action can then be chosen and is asked for. */
  method PlaceholderUnsticks(page: DashboardPage, action: string, confirmed: bool, update: Response<()>,
                             list: Response<seq<Nomination>>, summary: Response<map<string, int>>)
    returns (asked: bool, calls: seq<Call>, toasts: seq<Toast>)
    requires page.bulkChoice == action && action != "" && page.selectedIds != []
    modifies page
    ensures asked && toasts != [] && toasts[0] == Error("Select nominations")
    ensures confirmed ==> calls != [] && calls[0] == BulkUpdateStatus(old(page.selectedIds), action)
    ensures page.bulkChoice == ""
  {
    var refused, none, first := page.BulkAction("", confirmed, update, list, summary);
    var rest;
    asked, calls, rest := page.BulkAction(action, confirmed, update, list, summary);
    toasts := first + rest;
  }

  /** A filter change through a card followed by a failed fetch: the filter
      moves, the rows and counts stay, and the spinner is gone. */
  method FailedRefreshKeepsRows(page: DashboardPage, key: string, f: Failure)
    modifies page
    ensures page.filterStatus == key && !page.loading
    ensures page.nominations == old(page.nominations) && page.stats == old(page.stats)
    ensures page.selectedIds == old(page.selectedIds)
  {
    var _ := page.CardClick(key);
    var calls := page.FetchNominations(Err(f), Err(f));
    assert calls == [ListNominations(page.filterUser, key)];
  }
}
