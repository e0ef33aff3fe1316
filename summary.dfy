/** The chunking half of `summary.py`: every table of a database becomes
    one text chunk, and the chunks are handed to the summariser in
    fixed-size batches. The vector store and the language-model calls
    around them are not part of this module. */
module Summary {
  import opened Text

  // ============================================================ batch_chunks

  /** `chunks[i:i+size]` for `i` in `range(0, len(chunks), size)`: Python
      slicing clamps the last batch to the end of the list. */
  function Batched<T>(xs: seq<T>, size: nat): seq<seq<T>>
    requires size > 0
    decreases |xs|
  {
    if xs == [] then []
    else if |xs| <= size then [xs]
    else [xs[..size]] + Batched(xs[size..], size)
  }

  /** `batch_chunks`, with the generator's batches collected in order. */
  method BatchChunks<T>(chunks: seq<T>, batchSize: nat) returns (batches: seq<seq<T>>)
    requires batchSize > 0
    ensures batches == Batched(chunks, batchSize)
  {
    batches := [];
    var i := 0;
    while i < |chunks|
      invariant i <= |chunks|
      invariant batches + Batched(chunks[i..], batchSize) == Batched(chunks, batchSize)
      decreases |chunks| - i
    {
      var end := if i + batchSize < |chunks| then i + batchSize else |chunks|;
      var rest := chunks[i..];
      assert rest[..end - i] == chunks[i..end];
      assert rest[end - i..] == chunks[end..];
      if end < |chunks| {
        assert Batched(rest, batchSize) == [chunks[i..end]] + Batched(chunks[end..], batchSize);
      } else {
        assert rest == chunks[i..end];
        assert chunks[end..] == [];
      }
      batches := batches + [chunks[i..end]];
      i := end;
    }
    assert chunks[i..] == [];
  }

  /** Concatenating the batches gives back the chunk list. */
  lemma {:induction false} BatchedConcat<T>(xs: seq<T>, size: nat)
    requires size > 0
    ensures Concat(Batched(xs, size)) == xs
    decreases |xs|
  {
    if xs == [] {
    } else if |xs| <= size {
      assert [xs][1..] == [];
      assert Concat([xs]) == xs + Concat([]);
    } else {
      var rest := Batched(xs[size..], size);
      BatchedConcat(xs[size..], size);
      assert ([xs[..size]] + rest)[1..] == rest;
      assert xs[..size] + xs[size..] == xs;
    }
  }

  /** Every batch holds between one and `size` chunks, and every batch but
      the last holds exactly `size`. */
  lemma {:induction false} BatchedSizes<T>(xs: seq<T>, size: nat, k: nat)
    requires size > 0
    requires k < |Batched(xs, size)|
    ensures 1 <= |Batched(xs, size)[k]| <= size
    ensures k + 1 < |Batched(xs, size)| ==> |Batched(xs, size)[k]| == size
    decreases |xs|
  {
    if |xs| > size && k > 0 {
      BatchedSizes(xs[size..], size, k - 1);
      assert Batched(xs, size)[k] == Batched(xs[size..], size)[k - 1];
    }
  }

  /** There are `ceil(len / size)` batches: the fewest whose room holds
      every chunk. In particular no chunks give no batches. */
  lemma {:induction false} BatchedCount<T>(xs: seq<T>, size: nat)
    requires size > 0
    ensures xs == [] <==> Batched(xs, size) == []
    ensures |xs| <= |Batched(xs, size)| * size
    ensures xs != [] ==> (|Batched(xs, size)| - 1) * size < |xs|
    decreases |xs|
  {
    if |xs| > size {
      var rest := Batched(xs[size..], size);
      BatchedCount(xs[size..], size);
      var n := |rest|;
      assert |Batched(xs, size)| == n + 1;
      assert (n + 1) * size == n * size + size;
      assert n * size == (n - 1) * size + size;
    }
  }

  // ============================================================ chunk_schema

  /** One `[name, type]` pair of a table's columns. */
  datatype TypedColumn = TypedColumn(name: string, dataType: string)

  /** One entry of `extract_schema_for_database`'s list. */
  datatype TableEntry = TableEntry(database: string, table: string, columns: seq<TypedColumn>)

  function ColumnItem(c: TypedColumn): string {
    c.name + " (" + c.dataType + ")"
  }

  function ColumnItems(columns: seq<TypedColumn>): (items: seq<string>)
    ensures |items| == |columns|
    ensures forall k :: 0 <= k < |columns| ==> items[k] == ColumnItem(columns[k])
  {
    seq(|columns|, k requires 0 <= k < |columns| => ColumnItem(columns[k]))
  }

  /** The chunk of one table; the database line names the database the
      caller passes, not the one stored in the entry. */
  function ChunkText(dbName: string, entry: TableEntry): string {
    "Database: " + dbName + ("\n" + ("Table: " + entry.table + ("\n" + ("Columns: " + Join(", ", ColumnItems(entry.columns))))))
  }

  /** `chunk_schema`. */
  method ChunkSchema(schema: seq<TableEntry>, dbName: string) returns (chunks: seq<string>)
    ensures |chunks| == |schema|
    ensures forall k :: 0 <= k < |schema| ==> chunks[k] == ChunkText(dbName, schema[k])
  {
    chunks := [];
    for i := 0 to |schema|
      invariant |chunks| == i
      invariant forall k :: 0 <= k < i ==> chunks[k] == ChunkText(dbName, schema[k])
    {
      var entry := schema[i];
      var columnStr := Join(", ", ColumnItems(entry.columns));
      var text := "Database: " + dbName + ("\n" + ("Table: " + entry.table + ("\n" + ("Columns: " + columnStr))));
      chunks := chunks + [text];
    }
  }

  // --------------------------------------------------------- reading back

  /** A name safe to put on one line of a chunk. */
  predicate OneLine(s: string) {
    '\n' !in s
  }

  lemma {:induction false} JoinOneLine(sep: string, xs: seq<string>)
    requires OneLine(sep)
    requires forall k :: 0 <= k < |xs| ==> OneLine(xs[k])
    ensures OneLine(Join(sep, xs))
  {
    if |xs| > 1 {
      JoinOneLine(sep, xs[1..]);
      var rest := Join(sep, xs[1..]);
      assert Join(sep, xs) == xs[0] + sep + rest;
    }
  }

  /** The column list of a table whose names and types hold no line break
      stays on one line. */
  lemma ColumnListOneLine(columns: seq<TypedColumn>)
    requires forall k :: 0 <= k < |columns| ==> OneLine(columns[k].name) && OneLine(columns[k].dataType)
    ensures OneLine(Join(", ", ColumnItems(columns)))
  {
    var items := ColumnItems(columns);
    forall k | 0 <= k < |items| ensures OneLine(items[k]) {
      var c := columns[k];
      assert items[k] == c.name + " (" + c.dataType + ")";
    }
    JoinOneLine(", ", items);
  }

  /** A chunk reads back as its three labelled lines when the database
      name, the table name and the column cells hold no line break. */
  lemma ChunkLines(dbName: string, entry: TableEntry)
    requires OneLine(dbName) && OneLine(entry.table)
    requires forall k :: 0 <= k < |entry.columns| ==> OneLine(entry.columns[k].name) && OneLine(entry.columns[k].dataType)
    ensures SplitOn(ChunkText(dbName, entry), '\n')
            == ["Database: " + dbName, "Table: " + entry.table, "Columns: " + Join(", ", ColumnItems(entry.columns))]
  {
    var columnStr := Join(", ", ColumnItems(entry.columns));
    ColumnListOneLine(entry.columns);
    var line1 := "Database: " + dbName;
    var line2 := "Table: " + entry.table;
    var line3 := "Columns: " + columnStr;
    assert OneLine(line1) && OneLine(line2) && OneLine(line3);
    SplitOnFirst(line1, line2 + ("\n" + line3), '\n');
    SplitOnFirst(line2, line3, '\n');
    SplitOnNone(line3, '\n');
  }

  /** A table without columns ends its chunk with an empty columns line. */
  lemma ChunkWithoutColumns(dbName: string, table: string, database: string)
    ensures ChunkText(dbName, TableEntry(database, table, [])) == "Database: " + dbName + "\nTable: " + table + "\nColumns: "
  {
    assert ColumnItems([]) == [];
  }
}
