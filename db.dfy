/** The batch splitter of `db.py` and the control flow of `query_db`: GO
    normalisation, the split into statements, the leading USE, sequential
    execution that stops at the first error, and the shape of the result.
    The database itself is an oracle that answers each executed batch. */
module Batches {
  import opened Text

  // ============================================================ GO segments

  /** A line that `^\s*GO\s*$` (MULTILINE, IGNORECASE) consumes whole: `GO`
      with only whitespace around it. */
  predicate IsGoLine(line: string) {
    Lower(Strip(line)) == "go"
  }

  /** The lines between GO lines, starting with the lines `current` already
      collected; one segment more than there are GO lines. */
  function Segments(lines: seq<string>, current: seq<string>): (segments: seq<seq<string>>)
    ensures |segments| >= 1
  {
    if lines == [] then [current]
    else if IsGoLine(lines[0]) then [current] + Segments(lines[1..], [])
    else Segments(lines[1..], current + [lines[0]])
  }

  /** The lines that are not GO lines, in order. */
  function NonGoLines(lines: seq<string>): seq<string> {
    if lines == [] then []
    else (if IsGoLine(lines[0]) then [] else [lines[0]]) + NonGoLines(lines[1..])
  }

  function JoinLines(segments: seq<seq<string>>): seq<string> {
    if segments == [] then [] else [Join("\n", segments[0])] + JoinLines(segments[1..])
  }

  /** `re.split(r'^\s*GO\s*$', query, flags=re.IGNORECASE | re.MULTILINE)`, up to
      the whitespace at the ends of each piece, which the caller strips. */
  function GoSegments(query: string): seq<string> {
    JoinLines(Segments(SplitOn(query, '\n'), []))
  }

  /** The GO lines only separate: the segments hold exactly the other lines, in order. */
  lemma {:induction false} SegmentsCover(lines: seq<string>, current: seq<string>)
    ensures Concat(Segments(lines, current)) == current + NonGoLines(lines)
  {
    if lines == [] {
      assert Concat([current]) == current + Concat([current][1..]);
    } else {
      var rest := lines[1..];
      if IsGoLine(lines[0]) {
        var tail := Segments(rest, []);
        SegmentsCover(rest, []);
        assert ([current] + tail)[1..] == tail;
      } else {
        SegmentsCover(rest, current + [lines[0]]);
      }
    }
  }

  /** No segment contains a GO line. */
  lemma {:induction false} SegmentsHaveNoGoLine(lines: seq<string>, current: seq<string>, k: nat, j: nat)
    requires forall i :: 0 <= i < |current| ==> !IsGoLine(current[i])
    requires k < |Segments(lines, current)| && j < |Segments(lines, current)[k]|
    ensures !IsGoLine(Segments(lines, current)[k][j])
  {
    if lines != [] {
      var rest := lines[1..];
      if IsGoLine(lines[0]) {
        if k > 0 { SegmentsHaveNoGoLine(rest, [], k - 1, j); }
      } else {
        var next := current + [lines[0]];
        assert forall i :: 0 <= i < |next| ==> !IsGoLine(next[i]) by {
          forall i | 0 <= i < |next| ensures !IsGoLine(next[i]) {
            if i < |current| { assert next[i] == current[i]; }
          }
        }
        SegmentsHaveNoGoLine(rest, next, k, j);
      }
    }
  }

  // ================================================= statements of a segment

  /** `^\s*KEYWORD\b` at the start of a line: the keyword after leading
      whitespace, followed by a non-word character or the end. */
  predicate KeywordStartsLine(line: string, keyword: string) {
    var j := SkipSpaces(line, 0);
    KeywordAt(line, j, keyword) && (j + |keyword| == |line| || !IsWordChar(line[j + |keyword|]))
  }

  const StatementKeywords: set<string> :=
    {"select", "insert", "update", "delete", "create", "drop", "alter"}

  /** `crud_pattern.match(line)`. */
  predicate StartsStatement(line: string) {
    exists keyword :: keyword in StatementKeywords && KeywordStartsLine(line, keyword)
  }

  /** The groups of lines the inner loop of `split_sql_batches` collects,
      continuing the group `current`: a line that `opens` a statement closes
      a non-empty group and starts the next one. The source's test is
      `StartsStatement`; the grouping lemmas hold for any test. */
  function GroupsFrom(opens: string -> bool, lines: seq<string>, current: seq<string>): seq<seq<string>> {
    if lines == [] then (if current == [] then [] else [current])
    else if opens(lines[0]) && current != [] then
      [current] + GroupsFrom(opens, lines[1..], [lines[0]])
    else GroupsFrom(opens, lines[1..], current + [lines[0]])
  }

  /** `'\n'.join(group).strip()`. */
  function Render(group: seq<string>): string {
    Strip(Join("\n", group))
  }

  function RenderAll(groups: seq<seq<string>>): seq<string> {
    if groups == [] then [] else [Render(groups[0])] + RenderAll(groups[1..])
  }

  /** The statements one GO segment contributes. */
  function SegmentStatements(segment: string): seq<string> {
    RenderAll(GroupsFrom(StartsStatement, SplitLines(Strip(segment)), []))
  }

  function StatementsOf(segments: seq<string>): seq<string> {
    if segments == [] then []
    else SegmentStatements(segments[0]) + StatementsOf(segments[1..])
  }

  /** `[stmt for stmt in final_batches if stmt]`. */
  function NonEmpty(statements: seq<string>): seq<string> {
    if statements == [] then []
    else (if statements[0] == [] then [] else [statements[0]]) + NonEmpty(statements[1..])
  }

  /** What `split_sql_batches(query)` returns. */
  function SqlBatches(query: string): seq<string> {
    NonEmpty(StatementsOf(GoSegments(query)))
  }

  /** `split_sql_batches`. */
  method SplitSqlBatches(query: string) returns (batches: seq<string>)
    ensures batches == SqlBatches(query)
  {
    var rawBatches := GoSegments(query);
    var finalBatches := SegmentsLoop(rawBatches);
    batches := NonEmpty(finalBatches);
  }

  /** The outer loop of `split_sql_batches`, over the GO segments. */
  method SegmentsLoop(rawBatches: seq<string>) returns (finalBatches: seq<string>)
    ensures finalBatches == StatementsOf(rawBatches)
  {
    finalBatches := [];
    for k := 0 to |rawBatches|
      invariant finalBatches + StatementsOf(rawBatches[k..]) == StatementsOf(rawBatches)
    {
      var lines := SplitLines(Strip(rawBatches[k]));
      ghost var before := finalBatches;
      finalBatches := GroupLines(lines, finalBatches);
      assert finalBatches == before + SegmentStatements(rawBatches[k]);
      StatementsOfStep(rawBatches, k, before, finalBatches);
    }
    assert rawBatches[|rawBatches|..] == [];
  }

  /** One turn of the outer loop keeps its invariant. */
  lemma StatementsOfStep(segments: seq<string>, k: nat, before: seq<string>, after: seq<string>)
    requires k < |segments|
    requires before + StatementsOf(segments[k..]) == StatementsOf(segments)
    requires after == before + SegmentStatements(segments[k])
    ensures after + StatementsOf(segments[k + 1..]) == StatementsOf(segments)
  {
    var rest := segments[k..];
    assert rest[0] == segments[k] && rest[1..] == segments[k + 1..];
    var here := SegmentStatements(segments[k]);
    var later := StatementsOf(segments[k + 1..]);
    assert StatementsOf(rest) == here + later;
    SeqAssoc(before, here, later);
  }

  /** The inner loop of `split_sql_batches` over the lines of one segment,
      appending its statements to `finalBatches`. */
  method GroupLines(lines: seq<string>, finalBatches: seq<string>) returns (extended: seq<string>)
    ensures extended == finalBatches + RenderAll(GroupsFrom(StartsStatement, lines, []))
  {
    extended := finalBatches;
    var currentStmt: seq<string> := [];
    for i := 0 to |lines|
      invariant extended + RenderAll(GroupsFrom(StartsStatement, lines[i..], currentStmt))
                == finalBatches + RenderAll(GroupsFrom(StartsStatement, lines, []))
    {
      var line := lines[i];
      assert lines[i..][0] == line && lines[i..][1..] == lines[i + 1..];
      if StartsStatement(line) && currentStmt != [] {
        var rest := GroupsFrom(StartsStatement, lines[i + 1..], [line]);
        assert RenderAll([currentStmt] + rest) == [Render(currentStmt)] + RenderAll(rest) by {
          assert ([currentStmt] + rest)[1..] == rest;
        }
        AppendAssoc(extended, Render(currentStmt), RenderAll(rest));
        extended := extended + [Render(currentStmt)];
        currentStmt := [line];
      } else {
        currentStmt := currentStmt + [line];
      }
    }
    if currentStmt != [] {
      assert RenderAll([currentStmt]) == [Render(currentStmt)] + RenderAll([]);
      extended := extended + [Render(currentStmt)];
    }
  }

  // ------------------------------------------------------ grouping properties

  /** The groups are the lines cut into consecutive pieces: nothing is lost,
      duplicated or reordered. */
  lemma {:induction false} GroupsCover(opens: string -> bool, lines: seq<string>, current: seq<string>)
    ensures Concat(GroupsFrom(opens, lines, current)) == current + lines
  {
    if lines == [] {
      if current != [] { assert Concat([current]) == current + Concat([current][1..]); }
    } else {
      var rest := lines[1..];
      if opens(lines[0]) && current != [] {
        var tail := GroupsFrom(opens, rest, [lines[0]]);
        GroupsCover(opens, rest, [lines[0]]);
        assert ([current] + tail)[1..] == tail;
        assert lines == [lines[0]] + rest;
      } else {
        GroupsCover(opens, rest, current + [lines[0]]);
        assert lines == [lines[0]] + rest;
      }
    }
  }

  /** Every group is non-empty, the first one continues `current`, and every
      later group opens with a line that starts a statement. */
  lemma {:induction false} GroupStarts(opens: string -> bool, lines: seq<string>, current: seq<string>, k: nat)
    requires k < |GroupsFrom(opens, lines, current)|
    ensures GroupsFrom(opens, lines, current)[k] != []
    ensures k == 0 && current != [] ==> GroupsFrom(opens, lines, current)[0][0] == current[0]
    ensures k > 0 ==> opens(GroupsFrom(opens, lines, current)[k][0])
  {
    if lines == [] {
      assert GroupsFrom(opens, lines, current) == [current];
    } else {
      var rest := lines[1..];
      if opens(lines[0]) && current != [] {
        var tail := GroupsFrom(opens, rest, [lines[0]]);
        assert GroupsFrom(opens, lines, current) == [current] + tail;
        if k > 0 {
          GroupStarts(opens, rest, [lines[0]], k - 1);
          assert GroupsFrom(opens, lines, current)[k] == tail[k - 1];
        }
      } else {
        var next := current + [lines[0]];
        assert GroupsFrom(opens, lines, current) == GroupsFrom(opens, rest, next);
        GroupStarts(opens, rest, next, k);
        assert current != [] ==> next[0] == current[0];
      }
    }
  }

  /** Inside a group no line after the first starts a statement: a new
      statement begins exactly at such a line once lines have accumulated. */
  lemma {:induction false} GroupContinues(opens: string -> bool, lines: seq<string>, current: seq<string>, k: nat, j: nat)
    requires forall i :: 0 < i < |current| ==> !opens(current[i])
    requires k < |GroupsFrom(opens, lines, current)| && 0 < j < |GroupsFrom(opens, lines, current)[k]|
    ensures !opens(GroupsFrom(opens, lines, current)[k][j])
  {
    if lines == [] {
      assert GroupsFrom(opens, lines, current) == [current];
    } else {
      var rest := lines[1..];
      if opens(lines[0]) && current != [] {
        var tail := GroupsFrom(opens, rest, [lines[0]]);
        assert GroupsFrom(opens, lines, current) == [current] + tail;
        if k > 0 {
          GroupContinues(opens, rest, [lines[0]], k - 1, j);
          assert GroupsFrom(opens, lines, current)[k] == tail[k - 1];
        }
      } else {
        var next := current + [lines[0]];
        assert GroupsFrom(opens, lines, current) == GroupsFrom(opens, rest, next);
        ContinuationExtends(opens, current, lines[0]);
        GroupContinues(opens, rest, next, k, j);
      }
    }
  }

  /** Appending a line keeps "no line after the first starts a statement"
      when the line does not start one or is the first. */
  lemma ContinuationExtends(opens: string -> bool, current: seq<string>, line: string)
    requires forall i :: 0 < i < |current| ==> !opens(current[i])
    requires current == [] || !opens(line)
    ensures var next := current + [line];
            forall i :: 0 < i < |next| ==> !opens(next[i])
  {
    var next := current + [line];
    forall i | 0 < i < |next| ensures !opens(next[i]) {
      if i < |current| { assert next[i] == current[i]; }
    }
  }

  // ------------------------------------------------------- batch properties

  /** Every batch is non-empty and has no whitespace at either end. */
  predicate Clean(batches: seq<string>) {
    batches == [] || (batches[0] != [] && Strip(batches[0]) == batches[0] && Clean(batches[1..]))
  }

  predicate AllStripped(statements: seq<string>) {
    statements == [] || (Strip(statements[0]) == statements[0] && AllStripped(statements[1..]))
  }

  lemma {:induction false} AllStrippedAppend(xs: seq<string>, ys: seq<string>)
    requires AllStripped(xs) && AllStripped(ys)
    ensures AllStripped(xs + ys)
  {
    if xs != [] {
      AllStrippedAppend(xs[1..], ys);
      assert (xs + ys)[1..] == xs[1..] + ys;
    } else {
      assert xs + ys == ys;
    }
  }

  lemma {:induction false} RenderAllStripped(groups: seq<seq<string>>)
    ensures AllStripped(RenderAll(groups))
  {
    if groups != [] {
      RenderAllStripped(groups[1..]);
      StripIdempotent(Join("\n", groups[0]));
      assert ([Render(groups[0])] + RenderAll(groups[1..]))[1..] == RenderAll(groups[1..]);
    }
  }

  lemma {:induction false} StatementsStripped(segments: seq<string>)
    ensures AllStripped(StatementsOf(segments))
  {
    if segments != [] {
      StatementsStripped(segments[1..]);
      RenderAllStripped(GroupsFrom(StartsStatement, SplitLines(Strip(segments[0])), []));
      AllStrippedAppend(SegmentStatements(segments[0]), StatementsOf(segments[1..]));
    }
  }

  lemma {:induction false} NonEmptyClean(statements: seq<string>)
    requires AllStripped(statements)
    ensures Clean(NonEmpty(statements))
  {
    if statements != [] {
      NonEmptyClean(statements[1..]);
      if statements[0] != [] {
        assert ([statements[0]] + NonEmpty(statements[1..]))[1..] == NonEmpty(statements[1..]);
      } else {
        assert NonEmpty(statements) == NonEmpty(statements[1..]);
      }
    }
  }

  /** No batch of `split_sql_batches` is empty, and each is stripped. */
  lemma SqlBatchesClean(query: string)
    ensures Clean(SqlBatches(query))
  {
    StatementsStripped(GoSegments(query));
    NonEmptyClean(StatementsOf(GoSegments(query)));
  }

  /** Batch `k` of a clean list is non-empty and stripped. */
  lemma {:induction false} CleanAt(batches: seq<string>, k: nat)
    requires Clean(batches) && k < |batches|
    ensures batches[k] != [] && Strip(batches[k]) == batches[k]
  {
    if k > 0 { CleanAt(batches[1..], k - 1); }
  }

  /** Dropping empty statements leaves their concatenation unchanged. */
  lemma {:induction false} NonEmptyConcat(statements: seq<string>)
    ensures Concat(NonEmpty(statements)) == Concat(statements)
  {
    if statements != [] {
      var head := if statements[0] == [] then [] else [statements[0]];
      NonEmptyConcat(statements[1..]);
      ConcatAppend(head, NonEmpty(statements[1..]));
      if statements[0] != [] { assert Concat([statements[0]]) == statements[0] + Concat([statements[0]][1..]); }
    }
  }

  lemma {:induction false} NonSpaceRenderAll(groups: seq<seq<string>>)
    ensures NonSpace(Concat(RenderAll(groups))) == NonSpace(Concat(Concat(groups)))
  {
    if groups != [] {
      var g := groups[0];
      NonSpaceRenderAll(groups[1..]);
      NonSpaceAppend(Render(g), Concat(RenderAll(groups[1..])));
      NonSpaceStrip(Join("\n", g));
      NonSpaceJoin("\n", g);
      ConcatAppend(g, Concat(groups[1..]));
      NonSpaceAppend(Concat(g), Concat(Concat(groups[1..])));
    }
  }

  /** Grouping lines keeps their visible content. */
  lemma GroupedContent(lines: seq<string>)
    ensures NonSpace(Concat(RenderAll(GroupsFrom(StartsStatement, lines, [])))) == NonSpace(Concat(lines))
  {
    NonSpaceRenderAll(GroupsFrom(StartsStatement, lines, []));
    GroupsCover(StartsStatement, lines, []);
    assert [] + lines == lines;
  }

  /** A segment's statements hold exactly its visible content. */
  lemma SegmentContent(segment: string)
    ensures NonSpace(Concat(SegmentStatements(segment))) == NonSpace(segment)
  {
    GroupedContent(SplitLines(Strip(segment)));
    NonSpaceSplitLines(Strip(segment));
    NonSpaceStrip(segment);
  }

  lemma {:induction false} StatementsContent(segments: seq<string>)
    ensures NonSpace(Concat(StatementsOf(segments))) == NonSpace(Concat(segments))
  {
    if segments != [] {
      StatementsContent(segments[1..]);
      SegmentContent(segments[0]);
      ConcatAppend(SegmentStatements(segments[0]), StatementsOf(segments[1..]));
      NonSpaceAppend(Concat(SegmentStatements(segments[0])), Concat(StatementsOf(segments[1..])));
      NonSpaceAppend(segments[0], Concat(segments[1..]));
    }
  }

  lemma {:induction false} JoinLinesContent(segments: seq<seq<string>>)
    ensures NonSpace(Concat(JoinLines(segments))) == NonSpace(Concat(Concat(segments)))
  {
    if segments != [] {
      JoinLinesContent(segments[1..]);
      NonSpaceJoin("\n", segments[0]);
      NonSpaceAppend(Join("\n", segments[0]), Concat(JoinLines(segments[1..])));
      ConcatAppend(segments[0], Concat(segments[1..]));
      NonSpaceAppend(Concat(segments[0]), Concat(Concat(segments[1..])));
    }
  }

  /** The batches, concatenated, have the visible content of the input with
      the GO lines taken out, in source order. */
  lemma SqlBatchesContent(query: string)
    ensures NonSpace(Concat(SqlBatches(query)))
            == NonSpace(Concat(NonGoLines(SplitOn(query, '\n'))))
  {
    var lines := SplitOn(query, '\n');
    var segments := Segments(lines, []);
    NonEmptyConcat(StatementsOf(GoSegments(query)));
    StatementsContent(GoSegments(query));
    JoinLinesContent(segments);
    SegmentsCover(lines, []);
    assert [] + NonGoLines(lines) == NonGoLines(lines);
  }

  // ======================================================= GO normalisation

  /** `(?<!\n)(?<!\r)\bGO\b` (IGNORECASE) matches at `i`. */
  predicate GoAt(s: string, i: nat) {
    && KeywordAt(s, i, "go")
    && (i == 0 || (s[i - 1] != '\n' && s[i - 1] != '\r' && !IsWordChar(s[i - 1])))
    && (i + 2 == |s| || !IsWordChar(s[i + 2]))
  }

  /** `re.sub(..., r'\nGO', s)` from position `i` on. */
  function NormalizeFrom(s: string, i: nat): string
    requires i <= |s|
    decreases |s| - i
  {
    if i == |s| then []
    else if GoAt(s, i) then "\nGO" + NormalizeFrom(s, i + 2)
    else [s[i]] + NormalizeFrom(s, i + 1)
  }

  /** The GO normalisation at the head of `query_db`. */
  function NormalizeGo(query: string): string {
    NormalizeFrom(query, 0)
  }

  /** What the normalisation makes of position `j` alone: a newline before
      the `G` of a match, both letters of a match upper-cased, every other
      character kept. */
  function Replacement(s: string, j: nat): string
    requires j < |s|
  {
    if GoAt(s, j) then "\nG"
    else if j > 0 && GoAt(s, j - 1) then "O"
    else [s[j]]
  }

  function PerPosition(s: string, i: nat): string
    requires i <= |s|
    decreases |s| - i
  {
    if i == |s| then [] else Replacement(s, i) + PerPosition(s, i + 1)
  }

  /** Two matches never overlap: the character after a match's `G` is an `O`. */
  lemma NoMatchInsideMatch(s: string, i: nat)
    requires GoAt(s, i)
    ensures !GoAt(s, i + 1)
  {
    assert LowerChar(s[i + 1]) == 'o';
  }

  /** At a match the two positions together read `\nGO`. */
  lemma PerPositionAtMatch(s: string, i: nat)
    requires i < |s| && GoAt(s, i)
    ensures i + 2 <= |s|
    ensures PerPosition(s, i) == "\nGO" + PerPosition(s, i + 2)
  {
    NoMatchInsideMatch(s, i);
    assert PerPosition(s, i + 1) == "O" + PerPosition(s, i + 2);
  }

  /** The left-to-right rewrite equals the position-by-position one: a
      newline goes before every whole-word GO (in any case) not preceded by
      a line break, the matched word becomes upper-case `GO`, and every
      other character is kept. */
  lemma {:induction false} NormalizeIsPerPosition(s: string, i: nat)
    requires i <= |s|
    requires i == 0 || !GoAt(s, i - 1)
    ensures NormalizeFrom(s, i) == PerPosition(s, i)
    decreases |s| - i
  {
    if i < |s| {
      if GoAt(s, i) {
        PerPositionAtMatch(s, i);
        NoMatchInsideMatch(s, i);
        NormalizeIsPerPosition(s, i + 2);
      } else {
        NormalizeIsPerPosition(s, i + 1);
      }
    }
  }

  lemma NormalizeGoPerPosition(query: string)
    ensures NormalizeGo(query) == PerPosition(query, 0)
  {
    NormalizeIsPerPosition(query, 0);
  }

  // ============================================================== query_db

  /** A fetched result set. */
  datatype Table = Table(columns: seq<string>, rows: seq<seq<string>>)

  /** What the server does with one batch: completes it (with the rows a
      SELECT fetches) or raises an error whose text is `message`. */
  datatype Outcome = Completed(table: Table) | Raised(message: string)

  /** The connection and its cursor: the server's answer to a batch may
      depend on every batch executed before it. */
  class Connection {
    const respond: (seq<string>, string) -> Outcome
    var executed: seq<string>

    constructor (respond: (seq<string>, string) -> Outcome)
      ensures this.respond == respond && executed == []
    {
      this.respond := respond;
      executed := [];
    }

    /** `cursor.execute(batch)`. */
    method Execute(batch: string) returns (outcome: Outcome)
      modifies this
      ensures executed == old(executed) + [batch]
      ensures outcome == respond(old(executed), batch)
    {
      outcome := respond(executed, batch);
      executed := executed + [batch];
    }
  }

  /** `[b.strip() for b in batches if b.strip()]`. */
  function StripNonEmpty(batches: seq<string>): seq<string> {
    if batches == [] then []
    else (if Strip(batches[0]) == [] then [] else [Strip(batches[0])]) + StripNonEmpty(batches[1..])
  }

  /** The second clean-up in `query_db` changes nothing in what `split_sql_batches` returns. */
  lemma {:induction false} StripNonEmptyKeepsClean(batches: seq<string>)
    requires Clean(batches)
    ensures StripNonEmpty(batches) == batches
  {
    if batches != [] {
      StripNonEmptyKeepsClean(batches[1..]);
      assert batches == [batches[0]] + batches[1..];
    }
  }

  /** The batches `query_db` runs, USE included. */
  function QueryBatches(query: string): seq<string> {
    StripNonEmpty(SqlBatches(NormalizeGo(query)))
  }

  /** `batch.lower().startswith("use ")`. */
  predicate IsUse(batch: string) {
    KeywordAt(batch, 0, "use ")
  }

  /** `batch.lower().startswith("select")`. */
  predicate IsSelect(batch: string) {
    KeywordAt(batch, 0, "select")
  }

  /** The state a run of batches ends in: the cursor's history of executed
      batches, the tables SELECTs fetched, and the error that stopped the
      run, if any. */
  datatype Run = Run(history: seq<string>, tables: seq<Table>, error: Option<string>)

  /** Running `batches` in order after `history`, having fetched `tables`
      already; the first error stops the run. */
  function RunFrom(respond: (seq<string>, string) -> Outcome, history: seq<string>,
                   batches: seq<string>, tables: seq<Table>): Run
    decreases |batches|
  {
    if batches == [] then Run(history, tables, None)
    else
      match respond(history, batches[0])
      case Raised(message) => Run(history + [batches[0]], tables, Some(message))
      case Completed(table) =>
        RunFrom(respond, history + [batches[0]], batches[1..],
                if IsSelect(batches[0]) then tables + [table] else tables)
  }

  const Success: string := "\U{2705} Query executed successfully."

  /** The return value of `query_db`: a status or error text, one table, or a list of tables. */
  datatype QueryResult = Message(text: string) | OneTable(table: Table) | TableList(tables: seq<Table>)

  function Shape(run: Run): QueryResult {
    if run.error.Some? then Message(run.error.value)
    else if run.tables == [] then Message(Success)
    else if |run.tables| == 1 then OneTable(run.tables[0])
    else TableList(run.tables)
  }

  /** `query_db(query)` on a connection whose cursor has run `history`. */
  function QueryRun(respond: (seq<string>, string) -> Outcome, history: seq<string>, query: string): Run {
    RunFrom(respond, history, QueryBatches(query), [])
  }

  /** `query_db`. */
  method QueryDb(conn: Connection, query: string) returns (result: QueryResult)
    modifies conn
    ensures result == Shape(QueryRun(conn.respond, old(conn.executed), query))
    ensures conn.executed == QueryRun(conn.respond, old(conn.executed), query).history
  {
    var normalized := NormalizeGo(query);
    var batches := SplitSqlBatches(normalized);
    batches := StripNonEmpty(batches);
    result := ExecuteBatches(conn, batches);
  }

  /** The `try` block of `query_db`: the leading USE on its own, then every
      other batch in order, collecting the tables of the SELECTs; the first
      error ends the run and its text is returned. */
  method ExecuteBatches(conn: Connection, batches: seq<string>) returns (result: QueryResult)
    modifies conn
    ensures result == Shape(RunFrom(conn.respond, old(conn.executed), batches, []))
    ensures conn.executed == RunFrom(conn.respond, old(conn.executed), batches, []).history
  {
    ghost var run := RunFrom(conn.respond, conn.executed, batches, []);
    var remaining := batches;
    var results: seq<Table> := [];
    if remaining != [] && IsUse(remaining[0]) {
      UseFetchesNothing(remaining[0]);
      var outcome := conn.Execute(remaining[0]);
      if outcome.Raised? {
        return Message(outcome.message);
      }
      remaining := remaining[1..];
    }
    for i := 0 to |remaining|
      invariant RunFrom(conn.respond, conn.executed, remaining[i..], results) == run
    {
      var batch := remaining[i];
      assert remaining[i..][0] == batch && remaining[i..][1..] == remaining[i + 1..];
      var outcome := conn.Execute(batch);
      if outcome.Raised? {
        return Message(outcome.message);
      }
      if IsSelect(batch) {
        results := results + [outcome.table];
      }
    }
    assert remaining[|remaining|..] == [];
    if results != [] {
      return if |results| == 1 then OneTable(results[0]) else TableList(results);
    } else {
      return Message(Success);
    }
  }

  /** A USE batch never counts as a SELECT, so running it apart from the
      rest yields no table. */
  lemma UseFetchesNothing(batch: string)
    requires IsUse(batch)
    ensures !IsSelect(batch)
  {
  }

  /** The batches a run executes are a prefix of `batches` appended to the
      history, all of them when no error stopped it. */
  lemma {:induction false} RunExecutesPrefix(respond: (seq<string>, string) -> Outcome, history: seq<string>,
                                             batches: seq<string>, tables: seq<Table>)
    ensures var run := RunFrom(respond, history, batches, tables);
            var n := |run.history| - |history|;
            && 0 <= n <= |batches|
            && run.history == history + batches[..n]
            && (batches != [] ==> n > 0)
            && (run.error.None? ==> n == |batches|)
    decreases |batches|
  {
    if batches != [] {
      var b := batches[0];
      match respond(history, b)
      case Raised(message) =>
        assert batches[..1] == [b];
      case Completed(table) =>
        var tables' := if IsSelect(b) then tables + [table] else tables;
        RunExecutesPrefix(respond, history + [b], batches[1..], tables');
        var run := RunFrom(respond, history + [b], batches[1..], tables');
        var m := |run.history| - |history + [b]|;
        PrefixStep(history, batches, m);
    }
  }

  lemma PrefixStep(history: seq<string>, batches: seq<string>, m: nat)
    requires m < |batches|
    ensures history + [batches[0]] + batches[1..][..m] == history + batches[..m + 1]
  {
    assert batches[..m + 1] == [batches[0]] + batches[1..][..m];
  }

  /** The tables fetched before a run stay in front of the ones it fetches. */
  lemma {:induction false} RunKeepsTables(respond: (seq<string>, string) -> Outcome, history: seq<string>,
                                          batches: seq<string>, tables: seq<Table>)
    ensures var run := RunFrom(respond, history, batches, tables);
            |tables| <= |run.tables| && run.tables[..|tables|] == tables
    decreases |batches|
  {
    if batches != [] {
      var b := batches[0];
      match respond(history, b)
      case Raised(message) =>
      case Completed(table) =>
        var tables' := if IsSelect(b) then tables + [table] else tables;
        RunKeepsTables(respond, history + [b], batches[1..], tables');
        assert tables'[..|tables|] == tables;
    }
  }

  /** A run stops at the first error: the last batch it executed raised it,
      with every batch before it already in the history. */
  lemma {:induction false} RunStopsAtFirstError(respond: (seq<string>, string) -> Outcome, history: seq<string>,
                                                batches: seq<string>, tables: seq<Table>)
    requires RunFrom(respond, history, batches, tables).error.Some?
    ensures var run := RunFrom(respond, history, batches, tables);
            var n := |run.history| - |history|;
            && 0 < n <= |batches|
            && respond(history + batches[..n - 1], batches[n - 1]) == Raised(run.error.value)
    decreases |batches|
  {
    RunExecutesPrefix(respond, history, batches, tables);
    var b := batches[0];
    match respond(history, b)
    case Raised(message) =>
      assert history + batches[..0] == history;
    case Completed(table) =>
      var tables' := if IsSelect(b) then tables + [table] else tables;
      RunStopsAtFirstError(respond, history + [b], batches[1..], tables');
      var run := RunFrom(respond, history + [b], batches[1..], tables');
      var m := |run.history| - |history + [b]|;
      assert batches[m] == batches[1..][m - 1];
      SeqAssoc(history, [b], batches[1..][..m - 1]);
      assert batches[..m] == [b] + batches[1..][..m - 1];
  }

  /** The number of batches whose lower-case form starts with `select`. */
  function SelectCount(batches: seq<string>): nat {
    if batches == [] then 0 else (if IsSelect(batches[0]) then 1 else 0) + SelectCount(batches[1..])
  }

  /** A run without error fetches one table per SELECT batch, after the ones it started with. */
  lemma {:induction false} RunTablePerSelect(respond: (seq<string>, string) -> Outcome, history: seq<string>,
                                             batches: seq<string>, tables: seq<Table>)
    requires RunFrom(respond, history, batches, tables).error.None?
    ensures |RunFrom(respond, history, batches, tables).tables| == |tables| + SelectCount(batches)
    decreases |batches|
  {
    if batches != [] {
      var b := batches[0];
      var table := respond(history, b).table;
      RunTablePerSelect(respond, history + [b], batches[1..],
                        if IsSelect(b) then tables + [table] else tables);
    }
  }

  /** The shape of `query_db`'s answer: the error text if a batch raised;
      otherwise the success status when no SELECT ran, the one table when
      one did, and all tables in execution order when several did. */
  lemma QueryResultCases(respond: (seq<string>, string) -> Outcome, history: seq<string>, query: string)
    ensures var run := QueryRun(respond, history, query);
            var count := SelectCount(QueryBatches(query));
            var result := Shape(run);
            && (run.error.Some? ==> result == Message(run.error.value))
            && (run.error.None? && count == 0 ==> result == Message(Success))
            && (run.error.None? && count == 1 ==> |run.tables| == 1 && result == OneTable(run.tables[0]))
            && (run.error.None? && count > 1 ==> result == TableList(run.tables) && |run.tables| == count)
  {
    var run := QueryRun(respond, history, query);
    if run.error.None? {
      RunTablePerSelect(respond, history, QueryBatches(query), []);
    }
  }
}
