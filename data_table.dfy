/** components/DataTable.tsx: the browser over the stored records, twenty
    to a page. Loading is split at the `await`: `BeginLoad` is the part
    before the store answers, `FinishLoad` the part after, so the time in
    between, with `loading` set, is a state of the model. When the effect
    reruns (on a page or configuration change) is not modelled. */
module DataTable {
  import opened Wrappers
  import opened Types
  import opened Exceptions
  import opened Paging
  import opened Supabase

  /** Rows per page, the page size every fetch asks for. */
  const PageSize := 20

  /** The number of pages `totalRecords` rows fill. */
  function PageCount(totalRecords: nat): nat
  {
    CeilDiv(totalRecords, PageSize)
  }

  /** The first row number of "Showing x to y", counting from 1. */
  function ShownFrom(page: int): int
  {
    (page - 1) * PageSize + 1
  }

  /** The last row number of "Showing x to y". */
  function ShownTo(page: int, totalRecords: nat): int
  {
    Min(page * PageSize, totalRecords)
  }

  /** On any page in range the shown numbers are real rows in order, they
      never pass the total, and they are the rows the fetch for that page
      asks for (one past the store's row indices, which count from 0). */
  lemma ShownRange(page: int, totalRecords: nat)
    requires 1 <= page <= PageCount(totalRecords)
    ensures 1 <= ShownFrom(page) <= ShownTo(page, totalRecords) <= totalRecords
    ensures ShownFrom(page) - 1 == RangeFrom(page, PageSize)
    ensures ShownTo(page, totalRecords) - 1 == Min(RangeTo(page, PageSize), totalRecords - 1)
    ensures ShownTo(page, totalRecords) - ShownFrom(page) + 1 <= PageSize
  {
    var k := page - 1;
    MulMonotone(0, k, PageSize);
    assert k < CeilDiv(totalRecords, PageSize);
    assert k * PageSize < totalRecords by {
      if k > 0 {
        MulMonotone(k, CeilDiv(totalRecords, PageSize) - 1, PageSize);
      }
    }
    assert page * PageSize == k * PageSize + PageSize;
  }

  /** On the last page the range ends at the total. */
  lemma LastPageEndsAtTotal(totalRecords: nat)
    requires totalRecords > 0
    ensures ShownTo(PageCount(totalRecords), totalRecords) == totalRecords
  {
    var c := PageCount(totalRecords);
    assert c * PageSize >= totalRecords;
  }

  class DataTable {
    const config: DatabaseConfig
    var records: seq<MedicalRecord>
    var loading: bool
    var error: Option<string>
    var page: int
    var totalRecords: nat

    constructor(config: DatabaseConfig)
      ensures this.config == config
      ensures records == [] && loading && error == None && page == 1 && totalRecords == 0
    {
      this.config := config;
      records := [];
      loading := true;
      error := None;
      page := 1;
      totalRecords := 0;
    }

    /** `totalPages`. */
    function TotalPages(): nat
      reads this
    {
      PageCount(totalRecords)
    }

    /** `loadRecords` up to the `await`: the spinner is on and the select
        for the current page, twenty rows wide, goes to the store. Nothing
        else changes yet. */
    method BeginLoad() returns (request: StoreRequest<MedicalRecord>)
      modifies this
      ensures loading
      ensures request == SelectRange(ClientKey(config), config.tableName,
                                     (page - 1) * PageSize, (page - 1) * PageSize + PageSize - 1)
      ensures records == old(records) && error == old(error)
      ensures page == old(page) && totalRecords == old(totalRecords)
    {
      loading := true;
      request := FetchRequest(config, page, PageSize);
    }

    /** `loadRecords` after the `await`, given the store's answer. Success
        replaces the rows and the total (`null` reading as none) and clears
        the error; failure keeps the rows and total already shown and sets
        the error text. Either way the spinner goes off. */
    method FinishLoad(reply: Result<Page<MedicalRecord>, Thrown>)
      modifies this
      ensures !loading && page == old(page)
      ensures reply.Ok? ==>
        && records == reply.value.data.GetOr([])
        && totalRecords == reply.value.count.GetOr(0)
        && error == None
      ensures reply.Err? ==>
        && records == old(records) && totalRecords == old(totalRecords)
        && error == Some("Error loading records: " + Text(reply.error))
    {
      var fetched := FetchRecords(config, Some(page), Some(PageSize), reply);
      match fetched.outcome {
        case Ok(result) =>
          records := result.data.GetOr([]);
          totalRecords := result.count.GetOr(0);
          error := None;
        case Err(e) =>
          error := Some("Error loading records: " + Text(e));
      }
      loading := false;
    }

    /** The "Previous" button. */
    method Previous()
      modifies this
      ensures page == PreviousPage(old(page))
      ensures 1 <= old(page) <= TotalPages() ==> 1 <= page <= TotalPages()
      ensures records == old(records) && loading == old(loading)
      ensures error == old(error) && totalRecords == old(totalRecords)
    {
      if 1 <= page <= TotalPages() {
        ButtonsStayInRange(page, TotalPages());
      }
      page := Max(1, page - 1);
    }

    /** The "Next" button. */
    method Next()
      modifies this
      ensures page == NextPage(old(page), TotalPages())
      ensures 1 <= old(page) <= TotalPages() ==> 1 <= page <= TotalPages()
      ensures records == old(records) && loading == old(loading)
      ensures error == old(error) && totalRecords == old(totalRecords)
    {
      if 1 <= page <= TotalPages() {
        ButtonsStayInRange(page, TotalPages());
      }
      page := Min(TotalPages(), page + 1);
    }
  }
}
