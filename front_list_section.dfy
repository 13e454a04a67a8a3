/**
 * The detailed inspection list of inspection_front
 * (inspection_front/src/components/ListSection/ListSection.jsx): the fetch
 * that runs only for a signed-in user, the four-filter chain, and the
 * prepend-only `handleSuccess`. Its filter chain is the one of the later
 * list (`MainListSection.FilteredInspections`), over the same four properties.
 */
module FrontListSection {
  import opened JsSemantics
  import opened Collections
  import opened ListState
  import MainListSection

  /** What `await getInspections()` produced: the rows, or a rejection. */
  datatype FetchOutcome = Fetched(data: seq<Obj>) | FetchFailed

  /** The part of the component state the user effect writes. */
  datatype ListData = ListData(all: seq<Obj>, options: MainListSection.FilterOptions)

  /**
   * The effect on `user`: with no user the list is emptied and the fetch
   * outcome is not consulted; a successful fetch stores the rows and derives
   * the options from them, even when they are empty; a failed one empties the
   * list and leaves the options as they were.
   */
  function UserEffect(signedIn: bool, fetch: FetchOutcome, s: ListData): (r: ListData)
    ensures !signedIn ==> r == s.(all := [])
    ensures signedIn && fetch.FetchFailed? ==> r == s.(all := [])
    ensures signedIn && fetch.Fetched? ==>
      r.all == fetch.data && r.options.statuses == s.options.statuses
      && IsOptionList(r.options.managers, fetch.data, "manager")
      && IsOptionList(r.options.companies, fetch.data, "company")
      && IsOptionList(r.options.partNames, fetch.data, "partName")
  {
    if !signedIn then s.(all := [])
    else match fetch
      case FetchFailed => s.(all := [])
      case Fetched(data) =>
        ListData(data, s.options.(managers := OptionList(data, "manager"), companies := OptionList(data, "company"),
                                  partNames := OptionList(data, "partName")))
  }

  /** Signed out, or after a failed fetch, nothing is listed whatever the filters. */
  lemma NothingListedWithoutData(signedIn: bool, fetch: FetchOutcome, s: ListData, filters: Obj)
    requires !signedIn || fetch.FetchFailed?
    ensures MainListSection.FilteredInspections(UserEffect(signedIn, fetch, s).all, filters) == []
  {
  }

  /** Signed out, the outcome of a fetch makes no difference: nothing is fetched. */
  lemma SignedOutIgnoresFetch(a: FetchOutcome, b: FetchOutcome, s: ListData)
    ensures UserEffect(false, a, s) == UserEffect(false, b, s)
  {
  }

  /** `handleSuccess(newEntry)`: `[newEntry, ...prev]`. */
  function Prepend(prev: seq<Obj>, newEntry: Obj): (next: seq<Obj>)
    ensures |next| == |prev| + 1
    ensures next[0] == newEntry && next[1..] == prev
  {
    [newEntry] + prev
  }

  /**
   * Every entry passed to `handleSuccess` is kept, even one whose `id` is
   * already listed, and it is shown at the top exactly when it passes the filters.
   */
  lemma PrependShown(prev: seq<Obj>, newEntry: Obj, filters: Obj)
    ensures multiset(Prepend(prev, newEntry)) == multiset(prev) + multiset{newEntry}
    ensures MainListSection.FilteredInspections(Prepend(prev, newEntry), filters)
      == (if Matches(newEntry, filters, MainListSection.Fields) then [newEntry] else []) + MainListSection.FilteredInspections(prev, filters)
  {
    PrependFiltered(prev, newEntry, filters, MainListSection.Fields);
  }
}
