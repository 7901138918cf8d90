/** lib/supabase.ts: the three wrappers around the hosted store. The store
    itself is outside the model: each wrapper takes the store's answer as a
    parameter and returns the requests it issued together with what it
    returns or throws. Console logging is not modelled. */
module Supabase {
  import opened Wrappers
  import opened Types
  import opened Exceptions
  import opened Paging
  import opened ProcessData

  /** `getSupabaseClient`: the key the client authenticates with. `??` only
      skips an absent key, so a service key that is the empty string still
      wins over the anonymous key. */
  function ClientKey(config: DatabaseConfig): (key: string)
    ensures config.serviceKey.Some? ==> key == config.serviceKey.value
    ensures config.serviceKey.None? ==> key == config.anonKey
  {
    config.serviceKey.GetOr(config.anonKey)
  }

  lemma EmptyServiceKeyWins(config: DatabaseConfig)
    requires config.serviceKey == Some("") && config.anonKey != ""
    ensures ClientKey(config) == "" != config.anonKey
  {
  }

  /** A call the wrapper makes on the store, with the key it authenticates
      with and the table it addresses. */
  datatype StoreRequest<R> =
    | Insert(key: string, table: string, rows: seq<R>)
    | SelectRange(key: string, table: string, from: int, to: int)
    | DeleteIds(key: string, table: string, ids: seq<int>)

  /** The requests a wrapper issued, and what it returned (`Ok`) or threw
      (`Err`). */
  datatype Effect<R, T> = Effect(requests: seq<StoreRequest<R>>, outcome: Result<T, Thrown>)

  /** `!xs || xs.length === 0`: the early-return guard of the insert and
      delete wrappers. */
  predicate Missing<T>(xs: Option<seq<T>>)
  {
    xs.None? || xs.value == []
  }

  /** `uploadChunk`: with no rows it returns `undefined` without touching the
      store; otherwise it inserts the rows in one request and returns the
      inserted rows, or rethrows the store's error unchanged. */
  function UploadChunk<R>(config: DatabaseConfig, records: Option<seq<R>>, reply: Result<seq<R>, Thrown>)
    : (e: Effect<R, Option<seq<R>>>)
    ensures e.requests == [] <==> Missing(records)
    ensures e.requests != [] ==> e.requests == [Insert(ClientKey(config), config.tableName, records.value)]
    ensures e.outcome.Err? <==> !Missing(records) && reply.Err?
    ensures e.outcome.Err? ==> e.outcome.error == reply.error
    ensures e.outcome.Ok? && e.outcome.value.Some? <==> !Missing(records) && reply.Ok?
    ensures e.outcome.Ok? && e.outcome.value.Some? ==> e.outcome.value.value == reply.value
  {
    if Missing(records) then Effect([], Ok(None))
    else
      var request := Insert(ClientKey(config), config.tableName, records.value);
      match reply
      case Err(error) => Effect([request], Err(error))
      case Ok(data) => Effect([request], Ok(Some(data)))
  }

  /** The default arguments of `fetchRecords`. */
  const DefaultPage := 1
  const DefaultPageSize := 50

  /** The first row index of a page (counting rows from 0). */
  function RangeFrom(page: int, pageSize: int): int
  {
    (page - 1) * pageSize
  }

  /** The last row index of a page, inclusive. */
  function RangeTo(page: int, pageSize: int): int
  {
    RangeFrom(page, pageSize) + pageSize - 1
  }

  /** An inclusive range of exactly `pageSize` rows. */
  lemma RangeWidth(page: int, pageSize: int)
    ensures RangeTo(page, pageSize) - RangeFrom(page, pageSize) + 1 == pageSize
  {
  }

  /** Consecutive pages meet without gap or overlap. */
  lemma RangesContiguous(page: int, pageSize: int)
    ensures RangeTo(page, pageSize) + 1 == RangeFrom(page + 1, pageSize)
  {
  }

  /** Without arguments the first 50 rows are asked for. */
  lemma DefaultRange()
    ensures RangeFrom(DefaultPage, DefaultPageSize) == 0
    ensures RangeTo(DefaultPage, DefaultPageSize) == 49
  {
  }

  /** Row `i` lies in the range of page `i / pageSize + 1` and of no other:
      the pages partition the rows. */
  lemma RowInExactlyOnePage(i: nat, page: int, pageSize: int)
    requires pageSize > 0
    ensures RangeFrom(page, pageSize) <= i <= RangeTo(page, pageSize) <==> page == i / pageSize + 1
  {
    var q := i / pageSize;
    var from, to := RangeFrom(page, pageSize), RangeTo(page, pageSize);
    assert q * pageSize <= i < q * pageSize + pageSize;
    assert from + pageSize == page * pageSize;
    if page <= q {
      MulMonotone(page, q, pageSize);
      assert to < i;
    } else if page >= q + 2 {
      MulMonotone(q + 1, page - 1, pageSize);
      assert (q + 1) * pageSize == q * pageSize + pageSize;
      assert from > i;
    }
  }

  /** The rows a store returns for `.range(from, to)` over a table whose rows
      are in the given order: those from `from` to `to` inclusive that exist. */
  function StoreRange<T>(table: seq<T>, from: nat, to: int): seq<T>
  {
    if to < from then [] else table[Min(from, |table|) .. Min(to + 1, |table|)]
  }

  /** The page `fetchRecords` asks for is batch `page - 1` of the table cut
      into batches of `pageSize`, or nothing past the last page. */
  lemma FetchedPageIsBatch<T>(table: seq<T>, page: int, pageSize: int)
    requires page >= 1 && pageSize > 0
    ensures RangeFrom(page, pageSize) >= 0
    ensures var rows := StoreRange(table, RangeFrom(page, pageSize), RangeTo(page, pageSize));
            && (page <= |Chunks(table, pageSize)| ==> rows == Chunks(table, pageSize)[page - 1])
            && (page > |Chunks(table, pageSize)| ==> rows == [])
  {
    var k := page - 1;
    var from := RangeFrom(page, pageSize);
    MulMonotone(0, k, pageSize);
    assert from == k * pageSize >= 0;
    assert RangeTo(page, pageSize) + 1 == (k + 1) * pageSize;
    ChunksCount(table, pageSize);
    var c := CeilDiv(|table|, pageSize);
    if page <= c {
      ChunkAt(table, pageSize, k);
    } else {
      MulMonotone(c, k, pageSize);
      assert from >= |table|;
    }
  }

  /** `{ data, count }`: the rows of the page (or `null`) and the exact row
      count of the table (or `null`). */
  datatype Page<R> = Page(data: Option<seq<R>>, count: Option<nat>)

  /** The single select `fetchRecords` issues for a page. */
  function FetchRequest<R>(config: DatabaseConfig, page: int, pageSize: int): StoreRequest<R>
  {
    SelectRange(ClientKey(config), config.tableName, RangeFrom(page, pageSize), RangeTo(page, pageSize))
  }

  /** `fetchRecords`: always one select for the page's range (absent
      arguments take their defaults); the store's answer is returned as it
      is, and its error, like anything else thrown while fetching, is
      rethrown unchanged. */
  function FetchRecords<R>(config: DatabaseConfig, page: Option<int>, pageSize: Option<int>,
                           reply: Result<Page<R>, Thrown>): (e: Effect<R, Page<R>>)
    ensures var p, n := page.GetOr(DefaultPage), pageSize.GetOr(DefaultPageSize);
            e.requests == [SelectRange(ClientKey(config), config.tableName, (p - 1) * n, (p - 1) * n + n - 1)]
    ensures e.outcome == reply
  {
    var p, n := page.GetOr(DefaultPage), pageSize.GetOr(DefaultPageSize);
    Effect([FetchRequest(config, p, n)], reply)
  }

  /** `deleteRecords`: with no ids it returns `undefined` without touching
      the store; otherwise one delete of all the ids, returning `true`, or
      rethrowing the store's error unchanged. */
  function DeleteRecords<R>(config: DatabaseConfig, ids: Option<seq<int>>, reply: Result<(), Thrown>)
    : (e: Effect<R, Option<bool>>)
    ensures e.requests == [] <==> Missing(ids)
    ensures e.requests != [] ==> e.requests == [DeleteIds(ClientKey(config), config.tableName, ids.value)]
    ensures e.outcome == Ok(None) <==> Missing(ids)
    ensures e.outcome == Ok(Some(true)) <==> !Missing(ids) && reply.Ok?
    ensures e.outcome.Err? <==> !Missing(ids) && reply.Err?
    ensures e.outcome.Err? ==> e.outcome.error == reply.error
  {
    if Missing(ids) then Effect([], Ok(None))
    else
      var request := DeleteIds(ClientKey(config), config.tableName, ids.value);
      match reply
      case Err(error) => Effect([request], Err(error))
      case Ok(_) => Effect([request], Ok(Some(true)))
  }
}
