/** lib/processData.ts: the normalisation of decoded spreadsheet rows into
    records, and the partition of a record list into upload batches. The
    spreadsheet decoding itself (workbook, CSV, header parsing) is outside
    the model: its output is taken as a sequence of rows. */
module ProcessData {
  import opened Wrappers
  import opened Types
  import opened Paging

  /** One decoded row: column header to cell text. */
  type Row = map<string, string>

  /** `row.<lower> || row.<Capitalised> || ''`: JavaScript's `||` skips a
      missing key and an empty string alike. */
  function Lookup(row: Row, f: Field): string
  {
    var lower := FieldName(f);
    var upper := CapitalisedName(f);
    if lower in row && row[lower] != "" then row[lower]
    else if upper in row && row[upper] != "" then row[upper]
    else ""
  }

  /** The record built from one row: the seven fields, no id. */
  function NormaliseRow(row: Row): (r: MedicalRecord)
    ensures r.id == None
    ensures forall f: Field :: r.Get(f) == Lookup(row, f)
  {
    MedicalRecord(None,
      Lookup(row, Disease), Lookup(row, Drug), Lookup(row, Medicine),
      Lookup(row, Tridose), Lookup(row, Pss), Lookup(row, Planet),
      Lookup(row, Author))
  }

  /** `results.data.map(...)`: one record per row, in row order. */
  function NormaliseRows(rows: seq<Row>): (rs: seq<MedicalRecord>)
    ensures |rs| == |rows|
    ensures forall i :: 0 <= i < |rows| ==> rs[i] == NormaliseRow(rows[i])
    decreases |rows|
  {
    if rows == [] then [] else [NormaliseRow(rows[0])] + NormaliseRows(rows[1..])
  }

  /** A non-empty lower-case cell wins; otherwise the Capitalised cell is
      taken (even when it is empty); and when each spelling is missing or
      empty the field is '', since `||` passes over both alike. */
  lemma LookupPrecedence(row: Row, f: Field)
    ensures FieldName(f) in row && row[FieldName(f)] != "" ==>
              NormaliseRow(row).Get(f) == row[FieldName(f)]
    ensures (FieldName(f) !in row || row[FieldName(f)] == "") && CapitalisedName(f) in row ==>
              NormaliseRow(row).Get(f) == row[CapitalisedName(f)]
    ensures (FieldName(f) !in row || row[FieldName(f)] == "") &&
            (CapitalisedName(f) !in row || row[CapitalisedName(f)] == "") ==>
              NormaliseRow(row).Get(f) == ""
  {
  }

  /** Each field is the cell of one of its two spellings, or ''. */
  lemma FieldComesFromItsColumns(row: Row, f: Field)
    ensures var v := NormaliseRow(row).Get(f);
            v == "" ||
            (FieldName(f) in row && v == row[FieldName(f)]) ||
            (CapitalisedName(f) in row && v == row[CapitalisedName(f)])
  {
  }

  /** The recognised spellings: the lower-case and Capitalised names. */
  predicate Recognised(key: string)
  {
    exists f: Field :: key == FieldName(f) || key == CapitalisedName(f)
  }

  /** Only the fourteen recognised headers matter: two rows that agree on
      them give the same record, whatever other columns they carry. */
  lemma OnlyRecognisedColumnsMatter(row1: Row, row2: Row)
    requires forall f: Field ::
      (FieldName(f) in row1 <==> FieldName(f) in row2) &&
      (FieldName(f) in row1 ==> row1[FieldName(f)] == row2[FieldName(f)]) &&
      (CapitalisedName(f) in row1 <==> CapitalisedName(f) in row2) &&
      (CapitalisedName(f) in row1 ==> row1[CapitalisedName(f)] == row2[CapitalisedName(f)])
    ensures NormaliseRow(row1) == NormaliseRow(row2)
  {
    forall f: Field ensures NormaliseRow(row1).Get(f) == NormaliseRow(row2).Get(f) {
      assert Lookup(row1, f) == Lookup(row2, f);
    }
    RecordsEqual(NormaliseRow(row1), NormaliseRow(row2));
  }

  /** Other spellings are not recognised: a header "PSS" fills nothing. */
  lemma UpperCaseHeaderIgnored()
    ensures !Recognised("PSS")
    ensures NormaliseRow(map["PSS" := "2"]).pss == ""
  {
    assert forall f: Field :: FieldName(f) != "PSS" && CapitalisedName(f) != "PSS" by {
      forall f: Field ensures FieldName(f) != "PSS" && CapitalisedName(f) != "PSS" {
        assert FieldName(f)[0] != 'P' || FieldName(f) != "PSS";
        assert |CapitalisedName(f)| != 3 || CapitalisedName(f)[1] != 'S';
      }
    }
  }

  /** A row with mixed-case and missing headers: the missing fields are ''. */
  lemma MixedCaseRowExample()
    ensures NormaliseRow(map["Disease" := "flu", "Drug" := "x"])
         == MedicalRecord(None, "flu", "x", "", "", "", "", "")
  {
    var row := map["Disease" := "flu", "Drug" := "x"];
    assert "disease" !in row && "drug" !in row;
    assert forall f: Field :: f != Disease && f != Drug ==>
      FieldName(f) !in row && CapitalisedName(f) !in row;
  }

  /** The concatenation of a sequence of chunks. */
  function Flatten<T>(chunks: seq<seq<T>>): seq<T>
    decreases |chunks|
  {
    if chunks == [] then [] else chunks[0] + Flatten(chunks[1..])
  }

  /** The batches `chunkArray(a, n)` produces: consecutive slices of `n`
      elements, the last of them possibly shorter, none empty. With `n <= 0`
      `chunkArray`'s loop never ends on a non-empty array, so only the empty
      input is allowed. */
  function Chunks<T>(a: seq<T>, n: int): (cs: seq<seq<T>>)
    requires n > 0 || |a| == 0
    ensures forall k :: 0 <= k < |cs| ==> 0 < |cs[k]| <= n
    ensures forall k :: 0 <= k < |cs| - 1 ==> |cs[k]| == n
    decreases |a|
  {
    if |a| == 0 then []
    else if |a| <= n then [a]
    else [a[..n]] + Chunks(a[n..], n)
  }

  /** `chunkArray(a, n)`: a loop stepping `i` by `n` and pushing
      `a.slice(i, i + n)`. */
  method ChunkArray<T>(a: seq<T>, n: int) returns (chunks: seq<seq<T>>)
    requires n > 0 || |a| == 0
    ensures chunks == Chunks(a, n)
  {
    chunks := [];
    var i := 0;
    while i < |a|
      invariant 0 <= i
      invariant i <= |a| ==> chunks + Chunks(a[i..], n) == Chunks(a, n)
      invariant i > |a| ==> chunks == Chunks(a, n)
      decreases |a| - i
    {
      var rest := a[i..];
      var old_chunks := chunks;
      chunks := chunks + [a[i..Min(i + n, |a|)]];
      if |rest| <= n {
        assert a[i..Min(i + n, |a|)] == rest;
        assert Chunks(rest, n) == [rest];
        assert a[|a|..] == [];
      } else {
        assert a[i..Min(i + n, |a|)] == rest[..n];
        assert Chunks(rest, n) == [rest[..n]] + Chunks(rest[n..], n);
        assert rest[n..] == a[i + n..];
        assert old_chunks + Chunks(rest, n) == chunks + Chunks(a[i + n..], n);
      }
      i := i + n;
    }
  }

  /** Flattening the batches in order gives back the input exactly: nothing
      dropped, duplicated or reordered. */
  lemma {:induction false} ChunksFlatten<T>(a: seq<T>, n: int)
    requires n > 0 || |a| == 0
    ensures Flatten(Chunks(a, n)) == a
    decreases |a|
  {
    if |a| == 0 {
    } else if |a| <= n {
      assert Flatten(Chunks(a, n)) == a + Flatten<T>([]);
    } else {
      ChunksFlatten(a[n..], n);
      var cs := Chunks(a, n);
      assert cs[0] == a[..n] && cs[1..] == Chunks(a[n..], n);
      assert a[..n] + a[n..] == a;
    }
  }

  /** There are `ceil(|a| / n)` batches; none for an empty input. */
  lemma {:induction false} ChunksCount<T>(a: seq<T>, n: int)
    requires n > 0
    ensures |Chunks(a, n)| == CeilDiv(|a|, n)
    decreases |a|
  {
    if |a| == 0 {
    } else if |a| <= n {
      CeilDivUnique(|a|, n, 1);
    } else {
      ChunksCount(a[n..], n);
      CeilDivStep(|a|, n);
    }
  }

  /** Batch `k` is the slice `a[k*n .. min((k+1)*n, |a|)]`. */
  lemma {:induction false} ChunkAt<T>(a: seq<T>, n: int, k: int)
    requires n > 0
    requires 0 <= k < |Chunks(a, n)|
    ensures k * n < |a|
    ensures Chunks(a, n)[k] == a[k * n .. Min((k + 1) * n, |a|)]
    decreases |a|
  {
    if |a| <= n {
    } else if k == 0 {
    } else {
      var cs := Chunks(a, n);
      assert cs[k] == Chunks(a[n..], n)[k - 1];
      ChunkAt(a[n..], n, k - 1);
      assert (k - 1) * n + n == k * n;
      assert k * n + n == (k + 1) * n;
      assert a[n..][(k - 1) * n .. Min(k * n, |a| - n)] == a[k * n .. Min((k + 1) * n, |a|)];
    }
  }

  /** The spreadsheet-sized example: 2500 records in batches of 1000 make
      three batches of 1000, 1000 and 500. */
  lemma ChunksExample<T>(a: seq<T>)
    requires |a| == 2500
    ensures |Chunks(a, 1000)| == 3
    ensures |Chunks(a, 1000)[0]| == 1000 && |Chunks(a, 1000)[1]| == 1000
    ensures |Chunks(a, 1000)[2]| == 500
  {
    var cs := Chunks(a, 1000);
    var b := a[1000..];
    var c := b[1000..];
    assert Chunks(c, 1000) == [c];
    assert Chunks(b, 1000) == [b[..1000]] + [c];
    assert cs == [a[..1000]] + [b[..1000]] + [c];
  }
}
