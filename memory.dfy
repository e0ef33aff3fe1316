/** The schema-memory store of `memory.py`: the raw file that fails open,
    the rendering of its entries into one system message per table, and
    the append-only merge that saves new entries. The file itself is a
    value of the store; reading and writing it are not modelled. */
module SchemaMemory {
  import opened Text

  // ================================================================ values

  /** A JSON scalar as `json.load` returns it, with numbers limited to
      integers. */
  datatype Value = Null | Bool(b: bool) | Num(n: int) | Str(s: string)

  /** What an f-string prints for a value: `str(value)`. */
  function Printed(v: Value): string {
    match v
    case Null => "None"
    case Bool(b) => if b then "True" else "False"
    case Num(n) => if n < 0 then "-" + NatToString(-n) else NatToString(n)
    case Str(s) => s
  }

  /** Python truthiness of a scalar. */
  predicate Truthy(v: Value) {
    match v
    case Null => false
    case Bool(b) => b
    case Num(n) => n != 0
    case Str(s) => s != []
  }

  /** A stored column `[name, type, ...]`: name and type, then the optional
      nullability, primary-key flag and foreign-key target. */
  datatype Column = Column(name: string, dataType: string, extra: seq<Value>)

  /** A schema-memory record. Keys other than `database`, `table` and
      `columns` (the `role` and `content` of a rendered message, say) are
      kept in `other`. */
  datatype Entry = Entry(database: Option<string>, table: Option<string>,
                         columns: Option<seq<Column>>, other: map<string, Value>)

  /** `{"role": role, "content": content}`. */
  datatype Message = Message(role: string, content: string)

  // ============================================================= the file

  /** The schema-memory file: missing, not valid JSON, or holding a list of entries. */
  datatype FileState = Missing | Malformed | Stored(entries: seq<Entry>)

  /** `load_schema_memory_raw`: a missing or malformed file reads as no entries. */
  function LoadRaw(file: FileState): (entries: seq<Entry>)
    ensures file.Stored? ==> entries == file.entries
    ensures !file.Stored? ==> entries == []
  {
    if file.Stored? then file.entries else []
  }

  // ================================================ convert_schema_to_messages

  /** An entry as `convert_schema_to_messages` sees it: stripped database
      and table names, both non-empty, and its columns. */
  datatype Described = Described(database: string, table: string, columns: seq<Column>)

  /** `None` for an entry skipped because its stripped database or table is empty. */
  function Describe(e: Entry): Option<Described> {
    var db := Strip(e.database.GetOr(""));
    var table := Strip(e.table.GetOr(""));
    if db == [] || table == [] then None else Some(Described(db, table, e.columns.GetOr([])))
  }

  /** `(db.lower(), table.lower())` of the stripped names. */
  function TableKey(d: Described): (string, string) {
    (Lower(d.database), Lower(d.table))
  }

  /** The keys of the described entries among `entries`. */
  function SeenKeys(entries: seq<Entry>): set<(string, string)>
    decreases |entries|
  {
    if entries == [] then {}
    else
      SeenKeys(entries[..|entries| - 1])
      + match Describe(entries[|entries| - 1])
        case None => {}
        case Some(d) => {TableKey(d)}
  }

  /** The entries rendered, in input order: each described entry whose key
      no earlier described entry had. */
  function FirstSeen(entries: seq<Entry>): seq<Described>
    decreases |entries|
  {
    if entries == [] then []
    else
      var init := entries[..|entries| - 1];
      match Describe(entries[|entries| - 1])
      case None => FirstSeen(init)
      case Some(d) => if TableKey(d) in SeenKeys(init) then FirstSeen(init) else FirstSeen(init) + [d]
  }

  /** The facts one column line shows. */
  datatype ColumnFacts = ColumnFacts(name: string, dataType: string, nullability: string,
                                     primaryKey: bool, foreignKey: Option<string>)

  function Facts(c: Column): ColumnFacts {
    ColumnFacts(c.name, c.dataType,
                if |c.extra| > 0 && c.extra[0] != Null then Printed(c.extra[0]) else "NULL",
                |c.extra| > 1 && c.extra[1] == Bool(true),
                if |c.extra| > 2 && Truthy(c.extra[2]) then Some(Printed(c.extra[2])) else None)
  }

  /** `- name (type, nullability[, PRIMARY KEY][, FOREIGN KEY to X])`. */
  function ColumnLine(c: Column): string {
    var f := Facts(c);
    "- " + f.name + " (" + f.dataType + ", " + f.nullability
    + (if f.primaryKey then ", PRIMARY KEY" else "")
    + (if f.foreignKey.Some? then ", FOREIGN KEY to " + f.foreignKey.value else "")
    + ")"
  }

  function ColumnLines(columns: seq<Column>): seq<string>
    decreases |columns|
  {
    if columns == [] then [] else ColumnLines(columns[..|columns| - 1]) + [ColumnLine(columns[|columns| - 1])]
  }

  function Header(database: string, table: string): string {
    "Database '" + database + "' has table '" + table + "' with columns:\n"
  }

  /** The system message for one table. */
  function TableMessage(d: Described): Message {
    Message("system", Header(d.database, d.table) + Join("\n", ColumnLines(d.columns)))
  }

  function Messages(described: seq<Described>): seq<Message>
    decreases |described|
  {
    if described == [] then []
    else Messages(described[..|described| - 1]) + [TableMessage(described[|described| - 1])]
  }

  /** `convert_schema_to_messages`. */
  method ConvertSchemaToMessages(schema: seq<Entry>) returns (messages: seq<Message>)
    ensures messages == Messages(FirstSeen(schema))
  {
    messages := [];
    var seenTables: set<(string, string)> := {};
    for i := 0 to |schema|
      invariant messages == Messages(FirstSeen(schema[..i]))
      invariant seenTables == SeenKeys(schema[..i])
    {
      FirstSeenStep(schema, i);
      var entry := schema[i];
      var db := Strip(if entry.database.Some? then entry.database.value else "");
      var table := Strip(if entry.table.Some? then entry.table.value else "");
      if db == [] || table == [] {
        continue;
      }
      var d := Described(db, table, if entry.columns.Some? then entry.columns.value else []);
      var key := (Lower(d.database), Lower(d.table));
      if key in seenTables {
        continue;
      }
      seenTables := seenTables + {key};
      var message := RenderTable(d);
      MessagesSnoc(FirstSeen(schema[..i]), d);
      messages := messages + [message];
    }
    assert schema[..|schema|] == schema;
  }

  /** The message of one table. */
  method RenderTable(d: Described) returns (message: Message)
    ensures message == TableMessage(d)
  {
    var colsFormatted := FormatColumns(d.columns);
    message := Message("system", Header(d.database, d.table) + Join("\n", colsFormatted));
  }

  lemma MessagesSnoc(described: seq<Described>, d: Described)
    ensures Messages(described + [d]) == Messages(described) + [TableMessage(d)]
  {
    assert (described + [d])[..|described|] == described;
  }

  /** The loop over the columns of one entry. */
  method FormatColumns(columns: seq<Column>) returns (lines: seq<string>)
    ensures lines == ColumnLines(columns)
  {
    lines := [];
    for k := 0 to |columns|
      invariant lines == ColumnLines(columns[..k])
    {
      assert columns[..k + 1][..k] == columns[..k];
      lines := lines + [ColumnLine(columns[k])];
    }
    assert columns[..|columns|] == columns;
  }

  // ---------------------------------------------------- rendering properties

  function DescribedKeys(described: seq<Described>): set<(string, string)> {
    set k | 0 <= k < |described| :: TableKey(described[k])
  }

  lemma DescribedKeysSnoc(described: seq<Described>, d: Described)
    ensures DescribedKeys(described + [d]) == DescribedKeys(described) + {TableKey(d)}
  {
    var all := described + [d];
    assert TableKey(all[|described|]) in DescribedKeys(all);
    forall k | 0 <= k < |described| ensures TableKey(all[k]) == TableKey(described[k]) {
      assert all[k] == described[k];
    }
  }

  /** The rendered tables carry exactly the keys seen. */
  lemma {:induction false} FirstSeenKeys(entries: seq<Entry>)
    ensures DescribedKeys(FirstSeen(entries)) == SeenKeys(entries)
    decreases |entries|
  {
    if entries != [] {
      var init := entries[..|entries| - 1];
      FirstSeenKeys(init);
      match Describe(entries[|entries| - 1])
      case None =>
      case Some(d) =>
        if TableKey(d) !in SeenKeys(init) {
          DescribedKeysSnoc(FirstSeen(init), d);
        }
    }
  }

  /** At most one message per key: no two rendered tables share a key. */
  lemma {:induction false} FirstSeenDistinct(entries: seq<Entry>, i: nat, j: nat)
    requires i < j < |FirstSeen(entries)|
    ensures TableKey(FirstSeen(entries)[i]) != TableKey(FirstSeen(entries)[j])
    decreases |entries|
  {
    var init := entries[..|entries| - 1];
    var prev := FirstSeen(init);
    match Describe(entries[|entries| - 1])
    case None => FirstSeenDistinct(init, i, j);
    case Some(d) =>
      if TableKey(d) in SeenKeys(init) {
        FirstSeenDistinct(init, i, j);
      } else if j < |prev| {
        FirstSeenDistinct(init, i, j);
      } else {
        FirstSeenKeys(init);
        assert TableKey(prev[i]) in DescribedKeys(prev);
      }
  }

  /** Later entries only add messages after the earlier ones: input order is kept. */
  lemma {:induction false} FirstSeenPrefix(entries: seq<Entry>, n: nat)
    requires n <= |entries|
    ensures |FirstSeen(entries[..n])| <= |FirstSeen(entries)|
    ensures FirstSeen(entries[..n]) == FirstSeen(entries)[..|FirstSeen(entries[..n])|]
    decreases |entries|
  {
    if n < |entries| {
      var init := entries[..|entries| - 1];
      assert entries[..n] == init[..n];
      FirstSeenPrefix(init, n);
    } else {
      assert entries[..n] == entries;
    }
  }

  /** A described entry with a key not seen before is rendered, right after
      the tables of the entries before it; a skipped or repeated one adds nothing. */
  lemma FirstSeenStep(entries: seq<Entry>, j: nat)
    requires j < |entries|
    ensures var before := FirstSeen(entries[..j]);
            FirstSeen(entries[..j + 1])
            == match Describe(entries[j])
               case None => before
               case Some(d) => if TableKey(d) in SeenKeys(entries[..j]) then before else before + [d]
    ensures SeenKeys(entries[..j + 1])
            == SeenKeys(entries[..j]) + match Describe(entries[j]) case None => {} case Some(d) => {TableKey(d)}
  {
    assert entries[..j + 1][..j] == entries[..j];
  }

  /** Every rendered table has non-empty, stripped database and table names. */
  lemma {:induction false} FirstSeenNamed(entries: seq<Entry>, k: nat)
    requires k < |FirstSeen(entries)|
    ensures var d := FirstSeen(entries)[k];
            d.database != [] && d.table != [] && Strip(d.database) == d.database && Strip(d.table) == d.table
    decreases |entries|
  {
    var init := entries[..|entries| - 1];
    var e := entries[|entries| - 1];
    if k < |FirstSeen(init)| {
      FirstSeenPrefix(entries, |entries| - 1);
      FirstSeenNamed(init, k);
    } else {
      StripIdempotent(e.database.GetOr(""));
      StripIdempotent(e.table.GetOr(""));
    }
  }

  /** One message per rendered table, each with role `system` and the
      header naming its database and table. */
  lemma {:induction false} MessagesAt(described: seq<Described>, k: nat)
    requires k < |described|
    ensures |Messages(described)| == |described|
    ensures var m := Messages(described)[k];
            && m.role == "system"
            && StartsWith(m.content, Header(described[k].database, described[k].table))
    decreases |described|
  {
    var init := described[..|described| - 1];
    if k < |init| {
      MessagesAt(init, k);
    } else if init != [] {
      MessagesAt(init, 0);
    }
    var m := Messages(described)[k];
    var h := Header(described[k].database, described[k].table);
    assert m.content[..|h|] == h;
  }

  /** The rules of one column line: nullability `NULL` unless a non-null
      third field is given, PRIMARY KEY only for a fourth field that is
      exactly `True`, FOREIGN KEY for a truthy fifth field. */
  lemma ColumnFactsRules(c: Column)
    ensures (|c.extra| == 0 || c.extra[0] == Null) ==> Facts(c).nullability == "NULL"
    ensures |c.extra| > 0 && c.extra[0].Str? ==> Facts(c).nullability == c.extra[0].s
    ensures Facts(c).primaryKey <==> |c.extra| > 1 && c.extra[1] == Bool(true)
    ensures Facts(c).foreignKey.Some? <==> |c.extra| > 2 && Truthy(c.extra[2])
    ensures StartsWith(ColumnLine(c), "- " + c.name + " (" + c.dataType + ", ")
  {
    var p := "- " + c.name + " (" + c.dataType + ", ";
    assert ColumnLine(c)[..|p|] == p;
  }

  /** `1` is truthy but is not `True`: it does not mark a primary key. */
  lemma OneIsNotTrue(name: string, dataType: string)
    ensures !Facts(Column(name, dataType, [Null, Num(1)])).primaryKey
  {
  }

  // ======================================================= save_schema_memory

  /** `save_schema_memory` takes one entry or a list of them. */
  datatype NewEntries = Single(entry: Entry) | EntryList(entries: seq<Entry>)

  function AsList(arg: NewEntries): seq<Entry> {
    match arg
    case Single(e) => [e]
    case EntryList(es) => es
  }

  /** `(database.lower(), table.lower())`, a missing key read as `""`; nothing is stripped. */
  function EntryKey(e: Entry): (string, string) {
    (Lower(e.database.GetOr("")), Lower(e.table.GetOr("")))
  }

  function Keys(entries: seq<Entry>): set<(string, string)> {
    set k | 0 <= k < |entries| :: EntryKey(entries[k])
  }

  /** The key `sorted` orders columns by. */
  function SortKey(c: Column): string {
    Lower(c.name)
  }

  /** Puts `c` before the first column whose key is not smaller than its own. */
  function Insert(c: Column, sorted: seq<Column>): seq<Column> {
    if sorted == [] then [c]
    else if LexLessEq(SortKey(c), SortKey(sorted[0])) then [c] + sorted
    else [sorted[0]] + Insert(c, sorted[1..])
  }

  /** `sorted(columns, key=lambda col: col[0].lower())`. */
  function SortColumns(columns: seq<Column>): seq<Column> {
    if columns == [] then [] else Insert(columns[0], SortColumns(columns[1..]))
  }

  /** The entry with its column list sorted, as `save_schema_memory` leaves it. */
  function WithSortedColumns(e: Entry): Entry {
    if e.columns.Some? then e.(columns := Some(SortColumns(e.columns.value))) else e
  }

  function SortAll(entries: seq<Entry>): seq<Entry>
    decreases |entries|
  {
    if entries == [] then [] else SortAll(entries[..|entries| - 1]) + [WithSortedColumns(entries[|entries| - 1])]
  }

  /** `raw_memory` after the loop: each new entry appended unless its key is
      already stored or was appended before it. */
  function Merged(stored: seq<Entry>, news: seq<Entry>): seq<Entry>
    decreases |news|
  {
    if news == [] then stored
    else
      var prev := Merged(stored, news[..|news| - 1]);
      var e := news[|news| - 1];
      if EntryKey(e) in Keys(prev) then prev else prev + [e]
  }

  /** The file after `save_schema_memory(arg)`. */
  function SavedFile(file: FileState, arg: NewEntries): FileState {
    Stored(Merged(LoadRaw(file), SortAll(AsList(arg))))
  }

  /** The schema-memory file, read and written by the functions of `memory.py`. */
  class SchemaStore {
    var file: FileState

    constructor (file: FileState)
      ensures this.file == file
    {
      this.file := file;
    }

    /** `load_schema_memory`: rendered messages, not raw entries. */
    method LoadSchemaMemory() returns (messages: seq<Message>)
      ensures messages == Messages(FirstSeen(LoadRaw(file)))
    {
      var raw := LoadRaw(file);
      messages := ConvertSchemaToMessages(raw);
    }

    /** `save_schema_memory`; `updated` is the caller's list of new entries,
        whose column lists the call sorts in place. */
    method SaveSchemaMemory(arg: NewEntries) returns (updated: seq<Entry>)
      modifies this
      ensures file == SavedFile(old(file), arg)
      ensures updated == SortAll(AsList(arg))
    {
      var rawMemory := LoadRaw(file);
      var newEntries := match arg case Single(e) => [e] case EntryList(es) => es;
      rawMemory, updated := MergeEntries(rawMemory, newEntries);
      file := Stored(rawMemory);
    }
  }

  /** The loop of `save_schema_memory`: sorts each new entry's columns and
      appends the entries whose keys are not present yet. */
  method MergeEntries(stored: seq<Entry>, newEntries: seq<Entry>) returns (rawMemory: seq<Entry>, updated: seq<Entry>)
    ensures rawMemory == Merged(stored, SortAll(newEntries))
    ensures updated == SortAll(newEntries)
  {
    rawMemory := stored;
    var existingKeys := set k | 0 <= k < |rawMemory| :: EntryKey(rawMemory[k]);
    updated := [];
    for i := 0 to |newEntries|
      invariant updated == SortAll(newEntries[..i])
      invariant rawMemory == Merged(stored, updated)
      invariant existingKeys == Keys(rawMemory)
    {
      var entry := SortEntryColumns(newEntries[i]);
      SaveStep(stored, newEntries, i);
      var db := Lower(if entry.database.Some? then entry.database.value else "");
      var table := Lower(if entry.table.Some? then entry.table.value else "");
      updated := updated + [entry];
      if (db, table) !in existingKeys {
        KeysSnoc(rawMemory, entry);
        rawMemory := rawMemory + [entry];
        existingKeys := existingKeys + {(db, table)};
      }
    }
    assert newEntries[..|newEntries|] == newEntries;
  }

  /** Sorts the column list of one entry, when it has one. */
  method SortEntryColumns(entry: Entry) returns (sorted: Entry)
    ensures sorted == WithSortedColumns(entry)
  {
    sorted := entry;
    if entry.columns.Some? {
      sorted := entry.(columns := Some(SortColumns(entry.columns.value)));
    }
  }

  /** One turn of the saving loop. */
  lemma SaveStep(stored: seq<Entry>, news: seq<Entry>, i: nat)
    requires i < |news|
    ensures var e := WithSortedColumns(news[i]);
            var prev := Merged(stored, SortAll(news[..i]));
            && SortAll(news[..i + 1]) == SortAll(news[..i]) + [e]
            && Merged(stored, SortAll(news[..i]) + [e]) == if EntryKey(e) in Keys(prev) then prev else prev + [e]
  {
    assert news[..i + 1][..i] == news[..i];
    var e := WithSortedColumns(news[i]);
    assert (SortAll(news[..i]) + [e])[..i] == SortAll(news[..i]) by {
      SortAllLength(news[..i]);
    }
  }

  lemma {:induction false} SortAllLength(entries: seq<Entry>)
    ensures |SortAll(entries)| == |entries|
    decreases |entries|
  {
    if entries != [] {
      SortAllLength(entries[..|entries| - 1]);
    }
  }

  lemma KeysSnoc(entries: seq<Entry>, e: Entry)
    ensures Keys(entries + [e]) == Keys(entries) + {EntryKey(e)}
  {
    var all := entries + [e];
    assert EntryKey(all[|entries|]) in Keys(all);
    forall k | 0 <= k < |entries| ensures EntryKey(all[k]) == EntryKey(entries[k]) {
      assert all[k] == entries[k];
    }
  }

  // ------------------------------------------------------- merge properties

  /** Saving never removes or reorders stored entries: it only appends. */
  lemma {:induction false} MergedExtends(stored: seq<Entry>, news: seq<Entry>)
    ensures |stored| <= |Merged(stored, news)|
    ensures Merged(stored, news)[..|stored|] == stored
    decreases |news|
  {
    if news != [] {
      var prev := Merged(stored, news[..|news| - 1]);
      MergedExtends(stored, news[..|news| - 1]);
      assert (prev + [news[|news| - 1]])[..|stored|] == prev[..|stored|];
    }
  }

  /** After the merge every stored and every new key is present, and no other. */
  lemma {:induction false} MergedKeys(stored: seq<Entry>, news: seq<Entry>)
    ensures Keys(Merged(stored, news)) == Keys(stored) + Keys(news)
    decreases |news|
  {
    if news != [] {
      var init := news[..|news| - 1];
      var e := news[|news| - 1];
      MergedKeys(stored, init);
      KeysSnoc(init, e);
      assert news == init + [e];
      var prev := Merged(stored, init);
      if EntryKey(e) !in Keys(prev) {
        KeysSnoc(prev, e);
      }
    }
  }

  /** No appended entry repeats the key of an entry before it. */
  lemma {:induction false} MergedAppendsNewKeys(stored: seq<Entry>, news: seq<Entry>, k: nat)
    requires |stored| <= k < |Merged(stored, news)|
    ensures EntryKey(Merged(stored, news)[k]) !in Keys(Merged(stored, news)[..k])
    decreases |news|
  {
    var init := news[..|news| - 1];
    var prev := Merged(stored, init);
    MergedExtends(stored, init);
    if k < |prev| {
      MergedAppendsNewKeys(stored, init, k);
      assert Merged(stored, news)[..k] == prev[..k];
    } else {
      assert Merged(stored, news)[..k] == prev;
    }
  }

  /** Merging entries whose keys are all stored already changes nothing. */
  lemma {:induction false} MergeKnown(stored: seq<Entry>, news: seq<Entry>)
    requires Keys(news) <= Keys(stored)
    ensures Merged(stored, news) == stored
    decreases |news|
  {
    if news != [] {
      var init := news[..|news| - 1];
      KeysSnoc(init, news[|news| - 1]);
      assert news == init + [news[|news| - 1]];
      MergeKnown(stored, init);
    }
  }

  /** Sorting the columns of an entry does not change its key. */
  lemma {:induction false} SortAllKeys(entries: seq<Entry>)
    ensures Keys(SortAll(entries)) == Keys(entries)
    decreases |entries|
  {
    if entries != [] {
      var init := entries[..|entries| - 1];
      var e := entries[|entries| - 1];
      SortAllKeys(init);
      KeysSnoc(SortAll(init), WithSortedColumns(e));
      KeysSnoc(init, e);
      assert entries == init + [e];
    }
  }

  /** Saving the same entries a second time leaves the file as the first save left it. */
  lemma SaveTwice(file: FileState, arg: NewEntries)
    ensures SavedFile(SavedFile(file, arg), arg) == SavedFile(file, arg)
  {
    var news := SortAll(AsList(arg));
    var once := Merged(LoadRaw(file), news);
    MergedKeys(LoadRaw(file), news);
    MergeKnown(once, news);
  }

  // -------------------------------------------------------- sort properties

  /** Adjacent columns are in non-decreasing key order. */
  predicate SortedByKey(columns: seq<Column>) {
    forall i :: 0 < i < |columns| ==> LexLessEq(SortKey(columns[i - 1]), SortKey(columns[i]))
  }

  /** The columns with key `key`, in order. */
  function WithKey(columns: seq<Column>, key: string): seq<Column> {
    if columns == [] then []
    else (if SortKey(columns[0]) == key then [columns[0]] else []) + WithKey(columns[1..], key)
  }

  lemma {:induction false} InsertSorted(c: Column, sorted: seq<Column>)
    requires SortedByKey(sorted)
    ensures SortedByKey(Insert(c, sorted))
    ensures multiset(Insert(c, sorted)) == multiset{c} + multiset(sorted)
    ensures |Insert(c, sorted)| == |sorted| + 1
    ensures Insert(c, sorted)[0] == c || (sorted != [] && Insert(c, sorted)[0] == sorted[0])
  {
    if sorted != [] && !LexLessEq(SortKey(c), SortKey(sorted[0])) {
      var rest := sorted[1..];
      assert SortedByKey(rest) by {
        forall i | 0 < i < |rest| ensures LexLessEq(SortKey(rest[i - 1]), SortKey(rest[i])) {
          assert rest[i - 1] == sorted[i] && rest[i] == sorted[i + 1];
        }
      }
      InsertSorted(c, rest);
      var r := Insert(c, rest);
      var all := [sorted[0]] + r;
      LexLessTotal(SortKey(c), SortKey(sorted[0]));
      assert LexLessEq(SortKey(sorted[0]), SortKey(c));
      forall i | 0 < i < |all| ensures LexLessEq(SortKey(all[i - 1]), SortKey(all[i])) {
        if i == 1 {
          if r[0] != c {
            assert r[0] == rest[0] == sorted[1];
          }
        } else {
          assert all[i - 1] == r[i - 2] && all[i] == r[i - 1];
        }
      }
      assert sorted == [sorted[0]] + rest;
    } else if sorted != [] {
      var all := [c] + sorted;
      forall i | 0 < i < |all| ensures LexLessEq(SortKey(all[i - 1]), SortKey(all[i])) {
        if i > 1 { assert all[i - 1] == sorted[i - 2] && all[i] == sorted[i - 1]; }
      }
    }
  }

  /** `sorted` orders the columns by lower-cased name and loses none. */
  lemma {:induction false} SortColumnsSorted(columns: seq<Column>)
    ensures SortedByKey(SortColumns(columns))
    ensures multiset(SortColumns(columns)) == multiset(columns)
  {
    if columns != [] {
      SortColumnsSorted(columns[1..]);
      InsertSorted(columns[0], SortColumns(columns[1..]));
      assert columns == [columns[0]] + columns[1..];
    }
  }

  lemma {:induction false} InsertStable(c: Column, sorted: seq<Column>, key: string)
    ensures WithKey(Insert(c, sorted), key)
            == (if SortKey(c) == key then [c] else []) + WithKey(sorted, key)
  {
    if sorted != [] && !LexLessEq(SortKey(c), SortKey(sorted[0])) {
      InsertStable(c, sorted[1..], key);
      assert ([sorted[0]] + Insert(c, sorted[1..]))[1..] == Insert(c, sorted[1..]);
    } else if sorted != [] {
      assert ([c] + sorted)[1..] == sorted;
    }
  }

  /** The sort is stable: columns with equal keys keep their relative order. */
  lemma {:induction false} SortColumnsStable(columns: seq<Column>, key: string)
    ensures WithKey(SortColumns(columns), key) == WithKey(columns, key)
  {
    if columns != [] {
      SortColumnsStable(columns[1..], key);
      InsertStable(columns[0], SortColumns(columns[1..]), key);
    }
  }
}
