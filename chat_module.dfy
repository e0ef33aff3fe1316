/** The rules of one chat turn in `chat_module.py`: renaming repeated
    result-column labels, collecting the database names the schema memory
    mentions, the databases offered, the ten-message memory window, the
    schema update after an admin's reply, and the test that sends a reply
    to the database. */
module ChatTurn {
  import opened Text
  import opened SchemaMemory
  import SqlSchema
  import Batches

  // ================================================== deduplicate_columns

  /** A label after `seen` earlier occurrences of it: unchanged the first
      time, `label_k` for its k-th repeat. */
  function Renamed(name: string, seen: nat): string {
    if seen == 0 then name else name + "_" + NatToString(seen)
  }

  /** The `counts` dictionary after the labels `seen`: each label seen maps
      to the number of its repeats so far. */
  function Counts(seen: seq<string>): map<string, nat>
    decreases |seen|
  {
    if seen == [] then map[]
    else
      var counts := Counts(seen[..|seen| - 1]);
      var col := seen[|seen| - 1];
      if col in counts then counts[col := counts[col] + 1] else counts[col := 0]
  }

  /** How many times `col` occurs in `seen`, read off the dictionary. */
  function Occurrences(seen: seq<string>, col: string): nat {
    if col in Counts(seen) then Counts(seen)[col] + 1 else 0
  }

  function Deduplicated(columns: seq<string>): (labels: seq<string>)
    ensures |labels| == |columns|
  {
    seq(|columns|, k requires 0 <= k < |columns| => Renamed(columns[k], Occurrences(columns[..k], columns[k])))
  }

  /** `deduplicate_columns`. */
  method DeduplicateColumns(columns: seq<string>) returns (newCols: seq<string>)
    ensures newCols == Deduplicated(columns)
  {
    var counts: map<string, nat> := map[];
    newCols := [];
    for i := 0 to |columns|
      invariant newCols == Deduplicated(columns[..i])
      invariant counts == Counts(columns[..i])
    {
      var col := columns[i];
      assert columns[..i + 1][..i] == columns[..i];
      ghost var before := newCols;
      if col in counts {
        counts := counts[col := counts[col] + 1];
        newCols := newCols + [col + "_" + NatToString(counts[col])];
      } else {
        counts := counts[col := 0];
        newCols := newCols + [col];
      }
      DeduplicatedStep(columns, i);
    }
    assert columns[..|columns|] == columns;
  }

  lemma DeduplicatedStep(columns: seq<string>, i: nat)
    requires i < |columns|
    ensures Deduplicated(columns[..i + 1])
            == Deduplicated(columns[..i]) + [Renamed(columns[i], Occurrences(columns[..i], columns[i]))]
  {
    var a := Deduplicated(columns[..i + 1]);
    var b := Deduplicated(columns[..i]) + [Renamed(columns[i], Occurrences(columns[..i], columns[i]))];
    forall k | 0 <= k < i + 1 ensures a[k] == b[k] {
      assert columns[..i + 1][..k] == columns[..k];
      if k < i {
        assert columns[..i][..k] == columns[..k];
      }
    }
  }

  /** The dictionary counts occurrences. */
  lemma {:induction false} OccurrencesCount(seen: seq<string>, col: string)
    ensures Occurrences(seen, col) == multiset(seen)[col]
    decreases |seen|
  {
    if seen != [] {
      var init := seen[..|seen| - 1];
      OccurrencesCount(init, col);
      assert seen == init + [seen[|seen| - 1]];
    }
  }

  /** A label is kept exactly when it does not occur earlier in the list,
      and its k-th repeat becomes `label_k`. */
  lemma DeduplicatedUnchanged(columns: seq<string>, i: nat)
    requires i < |columns|
    ensures Deduplicated(columns)[i] == Renamed(columns[i], multiset(columns[..i])[columns[i]])
    ensures Deduplicated(columns)[i] == columns[i] <==> columns[i] !in columns[..i]
  {
    OccurrencesCount(columns[..i], columns[i]);
    var n := multiset(columns[..i])[columns[i]];
    assert columns[i] in columns[..i] <==> n > 0;
    if n > 0 {
      assert |Renamed(columns[i], n)| > |columns[i]|;
    }
  }

  /** The output need not be duplicate-free: a repeat can take the name of
      a label already present. */
  lemma DeduplicatedNotUnique()
    ensures Deduplicated(["id", "id_1", "id"]) == ["id", "id_1", "id_1"]
  {
    var columns := ["id", "id_1", "id"];
    var out := Deduplicated(columns);
    DeduplicatedUnchanged(columns, 0);
    DeduplicatedUnchanged(columns, 1);
    DeduplicatedUnchanged(columns, 2);
    assert columns[..0] == [];
    assert columns[..1] == ["id"];
    assert columns[..2] == ["id", "id_1"];
    assert multiset(columns[..1])["id_1"] == 0;
    assert multiset(columns[..2])["id"] == 1;
    assert NatToString(1) == "1";
    assert out[0] == "id";
    assert out[1] == "id_1";
    assert out[2] == "id_1";
  }

  // ============================== extract_databases_from_system_messages

  /** `Database\s+'([^']+)'` tried at position `i`. */
  function DatabaseAt(s: string, i: nat): (r: Found<string>)
    ensures r.Found? ==> i < r.end <= |s|
  {
    if i + 8 <= |s| && s[i..i + 8] == "Database" then
      var j := SkipSpaces(s, i + 8);
      if j > i + 8 && j < |s| && s[j] == '\'' then
        var q := IndexOf(s, '\'', j + 1);
        if j + 1 < q < |s| then Found(s[j + 1..q], q + 1) else NotFound
      else NotFound
    else NotFound
  }

  /** `re.findall` of that pattern from position `i`. */
  function DatabaseNames(s: string, i: nat): seq<string>
    decreases |s| - i
  {
    if i >= |s| then []
    else
      match DatabaseAt(s, i)
      case Found(name, end) => [name] + DatabaseNames(s, end)
      case NotFound => DatabaseNames(s, i + 1)
  }

  /** Every captured name is non-empty and holds no quote. */
  lemma {:induction false} DatabaseNamesQuoteFree(s: string, i: nat, k: nat)
    requires k < |DatabaseNames(s, i)|
    ensures DatabaseNames(s, i)[k] != [] && '\'' !in DatabaseNames(s, i)[k]
    decreases |s| - i
  {
    match DatabaseAt(s, i)
    case Found(name, end) =>
      if k == 0 {
        var j := SkipSpaces(s, i + 8);
        IndexOfFirst(s, '\'', j + 1);
        assert forall m :: 0 <= m < |name| ==> name[m] == s[j + 1 + m];
      } else {
        DatabaseNamesQuoteFree(s, end, k - 1);
      }
    case NotFound => DatabaseNamesQuoteFree(s, i + 1, k);
  }

  function StrippedSet(names: seq<string>): set<string> {
    set k | 0 <= k < |names| :: Strip(names[k])
  }

  /** The stripped names captured from the system messages. */
  function NamesIn(messages: seq<Message>): set<string>
    decreases |messages|
  {
    if messages == [] then {}
    else
      var m := messages[|messages| - 1];
      NamesIn(messages[..|messages| - 1])
      + (if m.role == "system" then StrippedSet(DatabaseNames(m.content, 0)) else {})
  }

  /** Adjacent names are in increasing order, so there are no duplicates. */
  predicate StrictlySorted(names: seq<string>) {
    forall i :: 0 < i < |names| ==> LexLess(names[i - 1], names[i])
  }

  /** `extract_databases_from_system_messages`: every name found, once, in
      increasing order. */
  method ExtractDatabasesFromSystemMessages(messages: seq<Message>) returns (dbs: seq<string>)
    ensures StrictlySorted(dbs)
    ensures forall n :: n in dbs <==> n in NamesIn(messages)
  {
    var dbNames: set<string> := {};
    for i := 0 to |messages|
      invariant dbNames == NamesIn(messages[..i])
    {
      assert messages[..i + 1][..i] == messages[..i];
      var msg := messages[i];
      if msg.role == "system" {
        var matches := DatabaseNames(msg.content, 0);
        dbNames := AddStripped(dbNames, matches);
      }
    }
    assert messages[..|messages|] == messages;
    dbs := SortedNames(dbNames);
  }

  method AddStripped(names: set<string>, matches: seq<string>) returns (result: set<string>)
    ensures result == names + StrippedSet(matches)
  {
    result := names;
    for k := 0 to |matches|
      invariant result == names + StrippedSet(matches[..k])
    {
      assert StrippedSet(matches[..k + 1]) == StrippedSet(matches[..k]) + {Strip(matches[k])} by {
        assert forall m :: 0 <= m < k ==> matches[..k + 1][m] == matches[..k][m];
        assert matches[..k + 1][k] == matches[k];
      }
      result := result + {Strip(matches[k])};
    }
    assert matches[..|matches|] == matches;
  }

  /** Puts a new name into a strictly sorted list. */
  function InsertName(x: string, names: seq<string>): seq<string> {
    if names == [] then [x]
    else if LexLess(x, names[0]) then [x] + names
    else [names[0]] + InsertName(x, names[1..])
  }

  lemma {:induction false} InsertNameSorted(x: string, names: seq<string>)
    requires StrictlySorted(names) && x !in names
    ensures StrictlySorted(InsertName(x, names))
    ensures forall n :: n in InsertName(x, names) <==> n == x || n in names
    ensures InsertName(x, names)[0] == x || InsertName(x, names)[0] == names[0]
  {
    if names != [] && !LexLess(x, names[0]) {
      var rest := names[1..];
      assert StrictlySorted(rest) by {
        forall i | 0 < i < |rest| ensures LexLess(rest[i - 1], rest[i]) {
          assert rest[i - 1] == names[i] && rest[i] == names[i + 1];
        }
      }
      InsertNameSorted(x, rest);
      LexLessTotal(x, names[0]);
      var r := InsertName(x, rest);
      var all := [names[0]] + r;
      forall i | 0 < i < |all| ensures LexLess(all[i - 1], all[i]) {
        if i == 1 {
          if r[0] != x {
            assert r[0] == names[1];
          }
        } else {
          assert all[i - 1] == r[i - 2] && all[i] == r[i - 1];
        }
      }
      assert names == [names[0]] + rest;
    } else if names != [] {
      var all := [x] + names;
      forall i | 0 < i < |all| ensures LexLess(all[i - 1], all[i]) {
        if i > 1 { assert all[i - 1] == names[i - 2] && all[i] == names[i - 1]; }
      }
    }
  }

  /** `sorted` of a set of names. */
  method SortedNames(names: set<string>) returns (sorted: seq<string>)
    ensures StrictlySorted(sorted)
    ensures forall n :: n in sorted <==> n in names
  {
    sorted := [];
    var rest := names;
    while rest != {}
      invariant StrictlySorted(sorted)
      invariant forall n :: n in names <==> n in sorted || n in rest
      invariant forall n :: n in sorted ==> n !in rest
      decreases |rest|
    {
      var x :| x in rest;
      InsertNameSorted(x, sorted);
      sorted := InsertName(x, sorted);
      rest := rest - {x};
    }
  }

  /** The name of the database starts every schema message, so it is found
      when it holds no quote. */
  lemma HeaderNamesDatabase(database: string, table: string, content: string)
    requires database != [] && '\'' !in database
    requires StartsWith(content, Header(database, table))
    ensures DatabaseAt(content, 0) == Found(database, 11 + |database|)
  {
    var h := Header(database, table);
    var n := |database|;
    assert h == "Database '" + database + "'" + (" has table '" + table + "' with columns:\n");
    assert content[..|h|] == h;
    assert content[..8] == "Database";
    assert content[8] == ' ' && content[9] == '\'';
    assert SkipSpaces(content, 9) == 9;
    assert SkipSpaces(content, 8) == 9;
    assert content[10..10 + n] == database;
    assert content[10 + n] == '\'';
    IndexOfAt(content, '\'', 10, 10 + n);
  }

  lemma {:induction false} NamesInAt(messages: seq<Message>, k: nat)
    requires k < |messages| && messages[k].role == "system"
    ensures StrippedSet(DatabaseNames(messages[k].content, 0)) <= NamesIn(messages)
    decreases |messages|
  {
    if k < |messages| - 1 {
      NamesInAt(messages[..|messages| - 1], k);
    }
  }

  /** Every table the schema memory renders offers its database, unless the
      name holds a quote. */
  lemma RenderedDatabaseFound(schema: seq<Entry>, k: nat)
    requires k < |FirstSeen(schema)|
    requires '\'' !in FirstSeen(schema)[k].database
    ensures FirstSeen(schema)[k].database in NamesIn(Messages(FirstSeen(schema)))
  {
    var d := FirstSeen(schema)[k];
    var messages := Messages(FirstSeen(schema));
    MessagesAt(FirstSeen(schema), k);
    FirstSeenNamed(schema, k);
    HeaderNamesDatabase(d.database, d.table, messages[k].content);
    assert DatabaseNames(messages[k].content, 0)[0] == d.database;
    NamesInAt(messages, k);
  }

  // ============================================================ run_chat_ui

  /** The databases offered: the server's, in server order, restricted to
      those the schema memory names. */
  function AvailableDbs(all: seq<string>, clarified: seq<string>): (available: seq<string>)
    ensures forall x :: x in available <==> x in all && x in clarified
    ensures forall x :: multiset(available)[x] == if x in clarified then multiset(all)[x] else 0
    ensures Subsequence(available, all)
  {
    if all == [] then []
    else
      var rest := AvailableDbs(all[1..], clarified);
      assert all == [all[0]] + all[1..];
      if all[0] in clarified then [all[0]] + rest
      else
        SubsequenceOfTail(rest, all);
        rest
  }

  /** `memory[-10:]`. */
  function LastTen(memory: seq<Message>): seq<Message> {
    if |memory| <= 10 then memory else memory[|memory| - 10..]
  }

  /** The memory after a turn: the user's message and the reply appended,
      then cut to the last ten. */
  function TurnMemory(memory: seq<Message>, userInput: string, reply: string): seq<Message> {
    LastTen(memory + [Message("user", userInput), Message("assistant", reply)])
  }

  lemma TurnMemoryShape(memory: seq<Message>, userInput: string, reply: string)
    ensures var m := TurnMemory(memory, userInput, reply);
            && 2 <= |m| <= 10
            && m[|m| - 2] == Message("user", userInput)
            && m[|m| - 1] == Message("assistant", reply)
            && m == (memory + [Message("user", userInput), Message("assistant", reply)])[|memory| + 2 - |m|..]
  {
  }

  /** An entry the drop filter keeps: neither its `table` nor its
      `database` is among the dropped names. */
  predicate Survives(e: Entry, dropTables: seq<string>, dropDbs: seq<string>) {
    && !(e.table.Some? && e.table.value in dropTables)
    && !(e.database.Some? && e.database.value in dropDbs)
  }

  /** The drop filter: entries whose `table` is a dropped table or whose
      `database` is a dropped database are left out, matched exactly. */
  function DropFilter(entries: seq<Entry>, dropTables: seq<string>, dropDbs: seq<string>): (kept: seq<Entry>)
    ensures forall e :: e in kept <==> e in entries && Survives(e, dropTables, dropDbs)
    ensures forall e :: multiset(kept)[e] == if Survives(e, dropTables, dropDbs) then multiset(entries)[e] else 0
    ensures Subsequence(kept, entries)
  {
    if entries == [] then []
    else
      var e := entries[0];
      var rest := DropFilter(entries[1..], dropTables, dropDbs);
      assert entries == [e] + entries[1..];
      if Survives(e, dropTables, dropDbs)
      then [e] + rest
      else
        SubsequenceOfTail(rest, entries);
        rest
  }

  /** A rendered message as the record `save_schema_memory` receives. */
  function MessageEntry(m: Message): Entry {
    Entry(None, None, None, map["role" := Str(m.role), "content" := Str(m.content)])
  }

  function MessageEntries(messages: seq<Message>): (entries: seq<Entry>)
    ensures |entries| == |messages|
  {
    seq(|messages|, k requires 0 <= k < |messages| => MessageEntry(messages[k]))
  }

  /** The drop filter keeps every rendered message: they carry no `table`
      or `database` key. */
  lemma {:induction false} DropFilterKeepsMessages(messages: seq<Message>, dropTables: seq<string>, dropDbs: seq<string>)
    ensures DropFilter(MessageEntries(messages), dropTables, dropDbs) == MessageEntries(messages)
    decreases |messages|
  {
    if messages != [] {
      var entries := MessageEntries(messages);
      DropFilterKeepsMessages(messages[1..], dropTables, dropDbs);
      assert entries[1..] == MessageEntries(messages[1..]);
      assert Survives(entries[0], dropTables, dropDbs);
      assert DropFilter(entries, dropTables, dropDbs) == [entries[0]] + DropFilter(entries[1..], dropTables, dropDbs);
    }
  }

  /** An extracted table as the record saved to the schema memory. */
  function ExtractedEntry(t: SqlSchema.TableSchema): Entry {
    Entry(Some(t.database), Some(t.table),
          Some(seq(|t.columns|, k requires 0 <= k < |t.columns| => ExtractedColumn(t.columns[k]))), map[])
  }

  function ExtractedColumn(c: SqlSchema.Column): Column {
    Column(c.name, c.dataType, [Str(c.nullability), Bool(c.primaryKey)])
  }

  /** An extracted column renders with its own nullability and primary-key flag. */
  lemma ExtractedColumnFacts(c: SqlSchema.Column)
    ensures Facts(ExtractedColumn(c)) == ColumnFacts(c.name, c.dataType, c.nullability, c.primaryKey, None)
  {
  }

  function ExtractedEntries(tables: seq<SqlSchema.TableSchema>): (entries: seq<Entry>)
    ensures |entries| == |tables|
  {
    seq(|tables|, k requires 0 <= k < |tables| => ExtractedEntry(tables[k]))
  }

  function DroppedTableNames(drops: SqlSchema.Drops): (names: seq<string>)
    ensures |names| == |drops.tables|
  {
    seq(|drops.tables|, k requires 0 <= k < |drops.tables| => drops.tables[k].table)
  }

  /** Whether `sub` occurs in `s`. */
  predicate Contains(s: string, sub: string) {
    exists i :: 0 <= i <= |s| && OccursAt(s, sub, i)
  }

  predicate OccursAt(s: string, sub: string, i: nat) {
    i + |sub| <= |s| && s[i..i + |sub|] == sub
  }

  /** An admin's reply that mentions creating or dropping a table, or deleting. */
  predicate TouchesSchema(isAdmin: bool, reply: string) {
    && isAdmin
    && (Contains(Lower(reply), "create table") || Contains(Lower(reply), "drop table") || Contains(Lower(reply), "delete"))
  }

  /** The schema-memory file after the turn: the rendered memory plus the
      extracted tables when the reply creates any, and otherwise (the
      drops record is always truthy) the rendered memory through the drop
      filter. */
  function SyncedFile(file: FileState, isAdmin: bool, reply: string): FileState {
    if !TouchesSchema(isAdmin, reply) then file
    else
      var updates := SqlSchema.TableSchemas(SqlSchema.ResolvedDatabase(reply), SqlSchema.CreateBlocks(reply, 0));
      var drops := SqlSchema.Drops(
        SqlSchema.DroppedTables(SqlSchema.ResolvedDatabase(reply), SqlSchema.DropTableMatches(reply, 0)),
        SqlSchema.DropDatabaseMatches(reply, 0));
      var memory := MessageEntries(Messages(FirstSeen(LoadRaw(file))));
      if updates != [] then SavedFile(file, EntryList(memory + ExtractedEntries(updates)))
      else SavedFile(file, EntryList(DropFilter(memory, DroppedTableNames(drops), drops.databases)))
  }

  /** The schema update of a turn (lines 125-137 of `run_chat_ui`). */
  method SyncSchema(store: SchemaStore, isAdmin: bool, reply: string)
    modifies store
    ensures store.file == SyncedFile(old(store.file), isAdmin, reply)
  {
    var lowered := Lower(reply);
    if isAdmin && (Contains(lowered, "create table") || Contains(lowered, "drop table") || Contains(lowered, "delete")) {
      var schemaUpdates := SqlSchema.ExtractTableSchema(reply);
      var dropsSchema := SqlSchema.ExtractDrops(reply);
      if schemaUpdates != [] {
        var schemaMem := store.LoadSchemaMemory();
        var entries := MessageEntries(schemaMem) + ExtractedEntries(schemaUpdates);
        var _ := store.SaveSchemaMemory(EntryList(entries));
      } else {
        var dropTables := DroppedTableNames(dropsSchema);
        var dropDbs := dropsSchema.databases;
        var schemaMem := store.LoadSchemaMemory();
        var kept := DropFilter(MessageEntries(schemaMem), dropTables, dropDbs);
        var _ := store.SaveSchemaMemory(EntryList(kept));
      }
    }
  }

  /** The update never removes or reorders a stored entry, whatever the
      reply drops. */
  lemma SyncNeverRemoves(file: FileState, isAdmin: bool, reply: string)
    ensures var before := LoadRaw(file);
            var after := LoadRaw(SyncedFile(file, isAdmin, reply));
            |before| <= |after| && after[..|before|] == before
  {
    if TouchesSchema(isAdmin, reply) {
      var updates := SqlSchema.TableSchemas(SqlSchema.ResolvedDatabase(reply), SqlSchema.CreateBlocks(reply, 0));
      var drops := SqlSchema.Drops(
        SqlSchema.DroppedTables(SqlSchema.ResolvedDatabase(reply), SqlSchema.DropTableMatches(reply, 0)),
        SqlSchema.DropDatabaseMatches(reply, 0));
      var memory := MessageEntries(Messages(FirstSeen(LoadRaw(file))));
      var news := if updates != [] then memory + ExtractedEntries(updates)
                  else DropFilter(memory, DroppedTableNames(drops), drops.databases);
      MergedExtends(LoadRaw(file), SortAll(news));
    }
  }

  /** SQL keywords a reply may start with to be run. */
  const SqlKeywords: set<string> := {"use", "select", "insert", "update", "delete", "create", "drop"}

  /** A reply is run when its lower-cased text starts with one of the keywords. */
  predicate SendsToDatabase(reply: string) {
    exists k :: k in SqlKeywords && StartsWith(Lower(reply), k)
  }

  /** The prefix test is not a word test: a reply opening with "User" is run. */
  lemma PrefixNotWord()
    ensures SendsToDatabase("Users")
  {
    assert Lower("Users")[..3] == "use";
  }

  /** Runs the reply on the database when the prefix test holds. */
  method RunReply(conn: Batches.Connection, reply: string) returns (sqlResult: Option<Batches.QueryResult>)
    modifies conn
    ensures SendsToDatabase(reply) ==>
              && sqlResult == Some(Batches.Shape(Batches.QueryRun(conn.respond, old(conn.executed), reply)))
              && conn.executed == Batches.QueryRun(conn.respond, old(conn.executed), reply).history
    ensures !SendsToDatabase(reply) ==> sqlResult == None && conn.executed == old(conn.executed)
  {
    var lowered := Lower(reply);
    if exists k :: k in SqlKeywords && StartsWith(lowered, k) {
      var result := Batches.QueryDb(conn, reply);
      sqlResult := Some(result);
    } else {
      sqlResult := None;
    }
  }
}
