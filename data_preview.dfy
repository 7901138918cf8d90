/** components/DataPreview.tsx: the preview of the normalised records,
    paged ten at a time, and the upload loop that posts them to the server
    endpoint in batches of 1000, strictly in order, stopping at the first
    batch that fails. The network is outside the model: the loop is given
    the reply to each of its posts. Timing (the elapsed-seconds display and
    the pause between posts) is not modelled. */
module DataPreview {
  import opened Wrappers
  import opened Types
  import opened Exceptions
  import opened Json
  import opened Paging
  import opened ProcessData
  import opened Supabase
  import opened UploadRoute

  /** The batch size of the upload (the comment above the loop says 400;
      the code uses 1000). */
  const ChunkSize := 1000

  /** Rows per preview page. */
  const PageSize := 10

  /** The outcome of one post: an answer with its `ok` flag and what reading
      its body as JSON gives, or a `fetch` that threw. */
  datatype Reply =
    | Answered(ok: bool, body: Result<Json, Thrown>)
    | Rejected(cause: Thrown)

  predicate Succeeded(r: Reply)
  {
    r.Answered? && r.ok
  }

  /** The message of the `TypeError` thrown by reading `message` off a `null`
      error body. */
  const NullBodyMessage := "Cannot read properties of null (reading 'message')"

  /** The text of what the loop throws, or has thrown at it, for a failed
      post: `err.message || "Failed to upload chunk"` for an error body, the
      thrown value's text when the body cannot be read or the post itself
      threw. */
  function FailureText(r: Reply): string
    requires !Succeeded(r)
  {
    match r
    case Rejected(e) => Text(e)
    case Answered(_, Err(e)) => Text(e)
    case Answered(_, Ok(err)) =>
      if err.JNull? then NullBodyMessage
      else
        var m := Get(err, "message");
        if m.Some? && Truthy(m.value) then ToText(m.value) else "Failed to upload chunk"
  }

  /** The error the preview shows once the loop has stopped at `r`. */
  function ErrorMessage(r: Reply): (msg: string)
    requires !Succeeded(r)
    ensures |msg| >= 22 && msg[..22] == "Error uploading data: "
  {
    "Error uploading data: " + FailureText(r)
  }

  /** A failed answer whose body has an empty message falls back to the
      generic text, and one without a body message too. */
  lemma EmptyMessageFallsBack(props: map<string, Json>)
    requires "message" !in props || props["message"] == JStr("")
    ensures ErrorMessage(Answered(false, Ok(JObj(props)))) == "Error uploading data: Failed to upload chunk"
  {
  }

  /** The route's own error answers are reported with their message. */
  lemma RouteMessageShown(status: int, message: string)
    requires message != ""
    ensures ErrorMessage(Answered(false, Ok(MessageResponse(status, message).body)))
         == "Error uploading data: " + message
  {
  }

  /** `JSON.stringify({ config, records: chunk })`. */
  function PostBody(config: DatabaseConfig, chunk: seq<MedicalRecord>): Json
  {
    JObj(map["config" := ConfigJson(config), "records" := JArr(RecordsJson(chunk))])
  }

  /** Every body the loop posts passes the route's shape test, and the
      route inserts exactly the batch's records into the configured table
      with the configured key; the answer is 200 or 502. */
  lemma PostBodyAccepted(config: DatabaseConfig, chunk: seq<MedicalRecord>, insertReply: Result<seq<Json>, Thrown>)
    requires chunk != []
    ensures IsBodyShape(PostBody(config, chunk))
    ensures var h := Post(Ok(PostBody(config, chunk)), insertReply);
            && h.requests == [Insert(ClientKey(config), config.tableName, RecordsJson(chunk))]
            && h.response.status in {200, 502}
            && (h.response.status == 200 <==> insertReply.Ok?)
  {
    var body := PostBody(config, chunk);
    assert Get(body, "config") == Some(ConfigJson(config));
    assert Get(body, "records") == Some(JArr(RecordsJson(chunk)));
    ConfigRoundTrip(config);
    assert BodyRecords(body) == RecordsJson(chunk) != [];
  }

  /** The index of the first failed post among the first `n`, or `n` when
      all of them succeeded. */
  function FirstFailure(replies: nat -> Reply, n: nat): (k: nat)
    ensures k <= n
    ensures forall i :: 0 <= i < k ==> Succeeded(replies(i))
    ensures k < n ==> !Succeeded(replies(k))
    decreases n
  {
    if n == 0 then 0
    else
      var k := FirstFailure(replies, n - 1);
      if k < n - 1 then k
      else if Succeeded(replies(n - 1)) then n
      else n - 1
  }

  /** The first failure is the only index with its two properties. */
  lemma FirstFailureIs(replies: nat -> Reply, n: nat, k: nat)
    requires k <= n
    requires forall i :: 0 <= i < k ==> Succeeded(replies(i))
    requires k < n ==> !Succeeded(replies(k))
    ensures FirstFailure(replies, n) == k
  {
  }

  /** `Math.round(c / t * 100)`, or 0 with no batches: the percentage,
      rounded to the nearest integer with halves rounded up. */
  function ProgressOf(c: nat, t: nat): (p: int)
    ensures t == 0 ==> p == 0
    ensures t > 0 ==> p * (2 * t) <= 200 * c + t < (p + 1) * (2 * t)
  {
    if t == 0 then 0 else (200 * c + t) / (2 * t)
  }

  /** Any integer within half a point of `100 c / t` (halves going up) is the
      shown progress. */
  lemma ProgressUnique(c: nat, t: nat, p: int)
    requires t > 0
    requires p * (2 * t) <= 200 * c + t < (p + 1) * (2 * t)
    ensures ProgressOf(c, t) == p
  {
    var q := ProgressOf(c, t);
    MulCancel(q, p + 1, 2 * t);
    MulCancel(p, q + 1, 2 * t);
  }

  /** The bar is full exactly once the last batch is reached, and never
      beyond full. */
  lemma ProgressBounds(c: nat, t: nat)
    requires c <= t
    ensures 0 <= ProgressOf(c, t) <= 100
    ensures t > 0 ==> (ProgressOf(c, t) == 100 <==> 200 * c >= 199 * t)
    ensures t > 0 && c == t ==> ProgressOf(c, t) == 100
  {
    if t > 0 {
      var p := ProgressOf(c, t);
      MulMonotone(c, t, 200);
      assert 200 * c + t < 101 * (2 * t);
      MulCancel(p, 101, 2 * t);
      assert 0 * (2 * t) < (p + 1) * (2 * t);
      MulCancel(0, p + 1, 2 * t);
      if 200 * c >= 199 * t {
        ProgressUnique(c, t, 100);
      }
      if p == 100 {
        assert 200 * t <= 200 * c + t;
      }
    }
  }

  /** The progress never goes down as more batches are reached. */
  lemma ProgressMonotone(c1: nat, c2: nat, t: nat)
    requires c1 <= c2
    ensures ProgressOf(c1, t) <= ProgressOf(c2, t)
  {
    if t > 0 {
      var p1, p2 := ProgressOf(c1, t), ProgressOf(c2, t);
      MulCancel(p1, p2 + 1, 2 * t);
    }
  }

  /** `Array.prototype.slice`'s reading of an index: negative ones count
      from the end, and both are clamped to the array. */
  function SliceIndex(i: int, len: nat): (r: nat)
    ensures r <= len
    ensures 0 <= i ==> r == Min(i, len)
    ensures i < 0 && 0 <= len + i ==> r == len + i
    ensures len + i < 0 ==> r == 0
  {
    if i < 0 then Max(len + i, 0) else Min(i, len)
  }

  /** `a.slice(start, end)`. */
  function Slice<T>(a: seq<T>, start: int, end: int): seq<T>
  {
    var s, e := SliceIndex(start, |a|), SliceIndex(end, |a|);
    if s < e then a[s..e] else []
  }

  /** `pagedData`: the records of one preview page. */
  function PagedData(data: seq<MedicalRecord>, page: int): seq<MedicalRecord>
  {
    Slice(data, (page - 1) * PageSize, page * PageSize)
  }

  /** `totalPages`: `Math.ceil(data.length / pageSize)`. */
  function TotalPages(data: seq<MedicalRecord>): nat
  {
    CeilDiv(|data|, PageSize)
  }

  /** Preview page `page` shows batch `page - 1` of the records cut into
      batches of ten, and nothing past the last page; there are as many
      pages as batches. */
  lemma PagedDataIsBatch(data: seq<MedicalRecord>, page: int)
    requires page >= 1
    ensures TotalPages(data) == |Chunks(data, PageSize)|
    ensures page <= TotalPages(data) ==> PagedData(data, page) == Chunks(data, PageSize)[page - 1]
    ensures page > TotalPages(data) ==> PagedData(data, page) == []
  {
    ChunksCount(data, PageSize);
    FetchedPageIsBatch(data, page, PageSize);
    var from := RangeFrom(page, PageSize);
    assert page * PageSize == from + PageSize;
    assert PagedData(data, page) == StoreRange(data, from, RangeTo(page, PageSize));
  }

  /** The "Total chunks" figure is the number of batches the loop sends. */
  lemma DisplayedChunkCount(data: seq<MedicalRecord>)
    ensures CeilDiv(|data|, ChunkSize) == |Chunks(data, ChunkSize)|
  {
    ChunksCount(data, ChunkSize);
  }

  /** The state the component shows while one post is in flight. */
  datatype Status = Status(currentChunk: nat, uploading: bool, totalChunks: nat,
                           error: Option<string>, success: bool)

  class DataPreview {
    const data: seq<MedicalRecord>
    const config: DatabaseConfig
    var page: int
    var uploading: bool
    var currentChunk: nat
    var totalChunks: nat
    var error: Option<string>
    var success: bool
    /** How many times `onUploadComplete` has been called. */
    var completions: nat

    constructor(data: seq<MedicalRecord>, config: DatabaseConfig)
      ensures this.data == data && this.config == config
      ensures page == 1 && !uploading && currentChunk == 0 && totalChunks == 0
      ensures error == None && !success && completions == 0
    {
      this.data := data;
      this.config := config;
      page := 1;
      uploading := false;
      currentChunk := 0;
      totalChunks := 0;
      error := None;
      success := false;
      completions := 0;
    }

    /** `progress`, the percentage on the bar. */
    function Progress(): int
      reads this
    {
      ProgressOf(currentChunk, totalChunks)
    }

    /** `uploadChunks`: posts batch after batch, each only after the one
        before it succeeded, and returns the bodies it posted; `shown[i]` is
        the state on screen while batch `i` is posted: `currentChunk` at
        `i + 1`, the upload running, the batch count shown, no error and no
        success yet. A failure stops the loop with the error shown and
        `currentChunk` at the failed batch (counting from 1); otherwise the
        run ends as a success and the parent is told once. Either way
        `uploading` ends false. */
    method UploadChunks(replies: nat -> Reply) returns (sent: seq<Json>, ghost shown: seq<Status>)
      modifies this
      ensures |shown| == |sent|
      ensures forall i :: 0 <= i < |shown| ==>
                shown[i] == Status(i + 1, true, |Chunks(data, ChunkSize)|, None, false)
      ensures var chunks := Chunks(data, ChunkSize);
              var k := FirstFailure(replies, |chunks|);
              && totalChunks == |chunks|
              && |sent| == (if k < |chunks| then k + 1 else k)
              && (forall i :: 0 <= i < |sent| ==> sent[i] == PostBody(config, chunks[i]))
              && (k == |chunks| ==>
                    && success && error == None && completions == old(completions) + 1
                    && currentChunk == (if k == 0 then old(currentChunk) else k))
              && (k < |chunks| ==>
                    && !success && error == Some(ErrorMessage(replies(k)))
                    && completions == old(completions) && currentChunk == k + 1)
      ensures !uploading && page == old(page)
    {
      uploading := true;
      error := None;
      success := false;
      var chunks := ChunkArray(data, ChunkSize);
      totalChunks := |chunks|;
      var k;
      sent, k, shown := PostChunks(chunks, replies);
      if k < |chunks| {
        error := Some(ErrorMessage(replies(k)));
      } else {
        success := true;
        completions := completions + 1;
      }
      uploading := false;
    }

    /** The `for` loop of `uploadChunks`: posts the batches in order until
        one fails, and returns the bodies posted and the index of the first
        failure (the number of batches when none failed), with the state
        on screen at each post: `currentChunk` at `i + 1` while batch `i`
        is posted, everything else as the loop found it. */
    method PostChunks(chunks: seq<seq<MedicalRecord>>, replies: nat -> Reply)
      returns (sent: seq<Json>, k: nat, ghost shown: seq<Status>)
      modifies this
      ensures |shown| == |sent|
      ensures forall i :: 0 <= i < |shown| ==>
                shown[i] == Status(i + 1, old(uploading), old(totalChunks), old(error), old(success))
      ensures k == FirstFailure(replies, |chunks|)
      ensures |sent| == (if k < |chunks| then k + 1 else k)
      ensures forall i :: 0 <= i < |sent| ==> sent[i] == PostBody(config, chunks[i])
      ensures currentChunk == if sent == [] then old(currentChunk) else |sent|
      ensures uploading == old(uploading) && success == old(success) && error == old(error)
      ensures totalChunks == old(totalChunks) && page == old(page) && completions == old(completions)
    {
      sent := [];
      shown := [];
      var i := 0;
      var failed := false;
      while i < |chunks| && !failed
        invariant 0 <= i <= |chunks|
        invariant uploading == old(uploading) && success == old(success) && error == old(error)
        invariant totalChunks == old(totalChunks) && page == old(page) && completions == old(completions)
        invariant |sent| == i && |shown| == i
        invariant forall j :: 0 <= j < i ==>
                    shown[j] == Status(j + 1, old(uploading), old(totalChunks), old(error), old(success))
        invariant forall j :: 0 <= j < i ==> sent[j] == PostBody(config, chunks[j])
        invariant currentChunk == if i == 0 then old(currentChunk) else i
        invariant forall j :: 0 <= j < (if failed then i - 1 else i) ==> Succeeded(replies(j))
        invariant failed ==> i >= 1 && !Succeeded(replies(i - 1))
      {
        currentChunk := i + 1;
        shown := shown + [Status(currentChunk, uploading, totalChunks, error, success)];
        sent := sent + [PostBody(config, chunks[i])];
        if !Succeeded(replies(i)) {
          failed := true;
        }
        i := i + 1;
      }
      k := if failed then i - 1 else i;
      FirstFailureIs(replies, |chunks|, k);
    }

    /** The "Previous" button. */
    method Previous()
      modifies this
      ensures page == PreviousPage(old(page))
      ensures 1 <= old(page) <= TotalPages(data) ==> 1 <= page <= TotalPages(data)
      ensures uploading == old(uploading) && currentChunk == old(currentChunk)
      ensures totalChunks == old(totalChunks) && error == old(error)
      ensures success == old(success) && completions == old(completions)
    {
      if 1 <= page <= TotalPages(data) {
        ButtonsStayInRange(page, TotalPages(data));
      }
      page := Max(1, page - 1);
    }

    /** The "Next" button. */
    method Next()
      modifies this
      ensures page == NextPage(old(page), TotalPages(data))
      ensures 1 <= old(page) <= TotalPages(data) ==> 1 <= page <= TotalPages(data)
      ensures uploading == old(uploading) && currentChunk == old(currentChunk)
      ensures totalChunks == old(totalChunks) && error == old(error)
      ensures success == old(success) && completions == old(completions)
    {
      if 1 <= page <= TotalPages(data) {
        ButtonsStayInRange(page, TotalPages(data));
      }
      page := Min(TotalPages(data), page + 1);
    }
  }
}
