/** The SQL structural analyser of `schema.py`: the target database of a
    script, the column facts of its CREATE TABLE blocks, and its DROP
    targets. Each regular expression of the source is an explicit scanner
    that tries its pattern at one position (`...At`) and a `findall` loop that
    moves to the end of a match or one character on. */
module SqlSchema {
  import opened Text

  // =============================================================== USE

  /** `[^\s;]*`: end of the run of characters that are neither whitespace nor `;`. */
  function NameEnd(s: string, i: nat): (j: nat)
    requires i <= |s|
    ensures i <= j <= |s|
    ensures j < |s| ==> IsSpace(s[j]) || s[j] == ';'
    decreases |s| - i
  {
    if i < |s| && !IsSpace(s[i]) && s[i] != ';' then NameEnd(s, i + 1) else i
  }

  lemma {:induction false} NameEndRun(s: string, i: nat)
    requires i <= |s|
    ensures forall k :: i <= k < NameEnd(s, i) ==> !IsSpace(s[k]) && s[k] != ';'
    decreases |s| - i
  {
    if i < |s| && !IsSpace(s[i]) && s[i] != ';' { NameEndRun(s, i + 1); }
  }

  /** A USE target: a non-empty run of characters that are neither whitespace nor `;`. */
  predicate IsUseName(n: string) {
    n != [] && forall c :: 0 <= c < |n| ==> !IsSpace(n[c]) && n[c] != ';'
  }

  /** `USE\s+([^\s;]+);` tried at `i`. */
  function UseAt(s: string, i: nat): (r: Found<string>)
    requires i <= |s|
    ensures r.Found? ==> i < r.end <= |s| && IsUseName(r.value)
  {
    match KeywordThenSpace(s, i, "use")
    case None => NotFound
    case Some(a) =>
      var b := NameEnd(s, a);
      NameEndRun(s, a);
      if b == a || b == |s| || s[b] != ';' then NotFound else Found(s[a..b], b + 1)
  }

  /** The names captured by every `USE <name>;` from `i` on, in source order. */
  function UseTargets(s: string, i: nat): seq<string>
    requires i <= |s|
    decreases |s| - i
  {
    if i == |s| then []
    else match UseAt(s, i)
      case Found(name, e) => [name] + UseTargets(s, e)
      case NotFound => UseTargets(s, i + 1)
  }

  predicate IsMaster(name: string) {
    Lower(name) == "master"
  }

  /** The reverse scan of `extract_database_name`. */
  function LastNonMaster(names: seq<string>): Option<string> {
    if names == [] then None
    else if !IsMaster(names[|names| - 1]) then Some(names[|names| - 1])
    else LastNonMaster(names[..|names| - 1])
  }

  /** `extract_database_name`: the last USE target that is not master. */
  function ExtractDatabaseName(sql: string): Option<string> {
    LastNonMaster(UseTargets(sql, 0))
  }

  /** The database every CREATE/DROP fact of a script is filed under. */
  function ResolvedDatabase(sql: string): string {
    ExtractDatabaseName(sql).GetOr("UnknownDB")
  }

  lemma {:induction false} LastNonMasterIsLast(names: seq<string>)
    ensures LastNonMaster(names).None? <==> forall k :: 0 <= k < |names| ==> IsMaster(names[k])
    ensures LastNonMaster(names).Some? ==>
              exists k :: 0 <= k < |names| && names[k] == LastNonMaster(names).value
                          && !IsMaster(names[k])
                          && forall j :: k < j < |names| ==> IsMaster(names[j])
  {
    if names != [] && IsMaster(names[|names| - 1]) {
      var init := names[..|names| - 1];
      LastNonMasterIsLast(init);
      if LastNonMaster(init).Some? {
        var k :| 0 <= k < |init| && init[k] == LastNonMaster(init).value && !IsMaster(init[k])
                 && forall j :: k < j < |init| ==> IsMaster(init[j]);
        assert names[k] == init[k];
        assert forall j :: k < j < |names| ==> IsMaster(names[j]) by {
          forall j | k < j < |names| ensures IsMaster(names[j]) {
            if j < |init| { assert names[j] == init[j]; }
          }
        }
      }
      assert forall k :: 0 <= k < |init| ==> init[k] == names[k];
    }
  }

  /** Every captured USE target is a non-empty run of characters that are
      neither whitespace nor `;`. */
  lemma {:induction false} UseTargetsAreNames(s: string, i: nat, k: nat)
    requires i <= |s| && k < |UseTargets(s, i)|
    ensures IsUseName(UseTargets(s, i)[k])
    decreases |s| - i
  {
    match UseAt(s, i)
    case Found(name, e) =>
      if k > 0 { UseTargetsAreNames(s, e, k - 1); }
    case NotFound => UseTargetsAreNames(s, i + 1, k);
  }

  /** `extract_database_name` returns `None` exactly when every USE names master
      (or there is none), and otherwise the last USE target that is not master. */
  lemma DatabaseNameIsLastNonMasterUse(sql: string)
    ensures var names := UseTargets(sql, 0);
            && (ExtractDatabaseName(sql).None? <==> forall k :: 0 <= k < |names| ==> IsMaster(names[k]))
            && (ExtractDatabaseName(sql).Some? ==>
                  exists k :: 0 <= k < |names| && names[k] == ExtractDatabaseName(sql).value
                              && !IsMaster(names[k])
                              && forall j :: k < j < |names| ==> IsMaster(names[j]))
  {
    LastNonMasterIsLast(UseTargets(sql, 0));
  }

  // ===================================================== names and blocks

  /** A non-empty run of word characters. */
  predicate IsWord(t: string) {
    t != [] && forall c :: 0 <= c < |t| ==> IsWordChar(t[c])
  }

  /** `\[?(\w+)\]?` tried at `i`. */
  function IdentAt(s: string, i: nat): (r: Found<string>)
    requires i <= |s|
    ensures r.Found? ==> i < r.end <= |s| && IsWord(r.value)
  {
    var a := if i < |s| && s[i] == '[' then i + 1 else i;
    var b := WordEnd(s, a);
    WordEndRun(s, a);
    if b == a then NotFound else Found(s[a..b], if b < |s| && s[b] == ']' then b + 1 else b)
  }

  /** A table name with the schema qualifier it may carry (`dbo` in `dbo.T`). */
  datatype QualifiedName = QualifiedName(qualifier: Option<string>, name: string)

  /** `(?:\[?(\w+)\]?\.)?\[?(\w+)\]?` tried at `i`. The optional group cannot be
      skipped once it matched: the table name would then be followed by `.`,
      which nothing after it in the patterns accepts. */
  function QualifiedNameAt(s: string, i: nat): (r: Found<QualifiedName>)
    requires i <= |s|
    ensures r.Found? ==> i < r.end <= |s| && IsWord(r.value.name)
    ensures r.Found? && r.value.qualifier.Some? ==> IsWord(r.value.qualifier.value)
  {
    match IdentAt(s, i)
    case NotFound => NotFound
    case Found(first, e) =>
      if e < |s| && s[e] == '.' then
        match IdentAt(s, e + 1)
        case NotFound => NotFound
        case Found(second, e2) => Found(QualifiedName(Some(first), second), e2)
      else Found(QualifiedName(None, first), e)
  }

  /** `\)\s*;` at `q`. */
  predicate ClosesBlock(s: string, q: nat) {
    q < |s| && s[q] == ')' && SkipSpaces(s, q + 1) < |s| && s[SkipSpaces(s, q + 1)] == ';'
  }

  /** No position of `body` starts a `\)\s*;` terminator. */
  predicate NoTerminator(body: string) {
    forall q :: 0 <= q < |body| ==> !ClosesBlock(body, q)
  }

  /** The first closing position at or after `p`. */
  function BlockClose(s: string, p: nat): (r: Option<nat>)
    requires p <= |s|
    ensures r.Some? ==> p <= r.value < |s| && ClosesBlock(s, r.value)
    decreases |s| - p
  {
    if p == |s| then None
    else if ClosesBlock(s, p) then Some(p)
    else BlockClose(s, p + 1)
  }

  lemma {:induction false} BlockCloseFirst(s: string, p: nat)
    requires p <= |s|
    ensures forall q :: p <= q < (if BlockClose(s, p).Some? then BlockClose(s, p).value else |s|)
              ==> !ClosesBlock(s, q)
    decreases |s| - p
  {
    if p < |s| && !ClosesBlock(s, p) { BlockCloseFirst(s, p + 1); }
  }

  /** The lazy `(.*?)\)\s*;` from `p`: the body and where the match ends. The
      body is the shortest one, so it holds no terminator of its own. */
  function LazyBody(s: string, p: nat): (r: Found<string>)
    requires p <= |s|
    ensures r.Found? ==> p < r.end <= |s| && NoTerminator(r.value)
  {
    match BlockClose(s, p)
    case None => NotFound
    case Some(e) =>
      BlockCloseFirst(s, p);
      TerminatorsOfPrefix(s, p, e);
      Found(s[p..e], SkipSpaces(s, e + 1) + 1)
  }

  lemma TerminatorsOfPrefix(s: string, p: nat, e: nat)
    requires p <= e < |s| && ClosesBlock(s, e)
    requires forall q :: p <= q < e ==> !ClosesBlock(s, q)
    ensures NoTerminator(s[p..e])
  {
    forall q | 0 <= q < e - p ensures !ClosesBlock(s[p..e], q) {
      if ClosesBlock(s[p..e], q) {
        ClosesBlockInPrefix(s, p, e, q);
        assert false;
      }
    }
  }

  /** One `CREATE TABLE` match: the qualifier, the table name and the text between
      the opening parenthesis and the closing `)` before `;`. */
  datatype CreateBlock = CreateBlock(qualifier: Option<string>, table: string, body: string)

  /** `CREATE\s+TABLE\s+<qualified name>\s*\((.*?)\)\s*;` (case-insensitive,
      `.` matching newlines) tried at `i`: the table name is a word and the
      body is the shortest possible. */
  function CreateAt(s: string, i: nat): (r: Found<CreateBlock>)
    requires i <= |s|
    ensures r.Found? ==> i < r.end <= |s| && IsWord(r.value.table) && NoTerminator(r.value.body)
  {
    match KeywordThenSpace(s, i, "create")
    case None => NotFound
    case Some(a) =>
      match KeywordThenSpace(s, a, "table")
      case None => NotFound
      case Some(b) =>
        match QualifiedNameAt(s, b)
        case NotFound => NotFound
        case Found(q, c) =>
          var d := SkipSpaces(s, c);
          if d == |s| || s[d] != '(' then NotFound
          else
            match LazyBody(s, d + 1)
            case NotFound => NotFound
            case Found(body, e) => Found(CreateBlock(q.qualifier, q.name, body), e)
  }

  /** `pattern.findall(sql_text)` for the CREATE TABLE pattern, from `i` on. */
  function CreateBlocks(s: string, i: nat): seq<CreateBlock>
    requires i <= |s|
    decreases |s| - i
  {
    if i == |s| then []
    else match CreateAt(s, i)
      case Found(b, e) => [b] + CreateBlocks(s, e)
      case NotFound => CreateBlocks(s, i + 1)
  }

  /** A CREATE TABLE match names a table made of word characters, and its body
      is the shortest one: it holds no `)` followed by optional whitespace and `;`. */
  predicate WellFormedBlock(b: CreateBlock) {
    IsWord(b.table) && NoTerminator(b.body)
  }

  lemma {:induction false} CreateBlocksWellFormed(s: string, i: nat, k: nat)
    requires i <= |s| && k < |CreateBlocks(s, i)|
    ensures WellFormedBlock(CreateBlocks(s, i)[k])
    decreases |s| - i
  {
    var r := CreateAt(s, i);
    if r.Found? {
      if k > 0 { CreateBlocksWellFormed(s, r.end, k - 1); }
    } else {
      CreateBlocksWellFormed(s, i + 1, k);
    }
  }

  /** A terminator inside a slice that ends before the real one is a terminator
      of the whole text. */
  lemma ClosesBlockInPrefix(s: string, p: nat, e: nat, q: nat)
    requires p <= e < |s| && ClosesBlock(s, e)
    requires q < e - p && ClosesBlock(s[p..e], q)
    ensures ClosesBlock(s, p + q)
  {
    var t := s[p..e];
    var w := SkipSpaces(t, q + 1);
    SkipSpacesInPrefix(s, p, e, q + 1);
  }

  lemma {:induction false} SkipSpacesInPrefix(s: string, p: nat, e: nat, j: nat)
    requires p <= e <= |s| && j <= e - p
    requires SkipSpaces(s[p..e], j) < e - p
    ensures SkipSpaces(s, p + j) == p + SkipSpaces(s[p..e], j)
    decreases e - p - j
  {
    if j < e - p && IsSpace(s[p..e][j]) {
      SkipSpacesInPrefix(s, p, e, j + 1);
    }
  }

  // ======================================================= column definitions

  /** Index of the first parenthesis at or after `i`, or `|s|`. */
  function NextParen(s: string, i: nat): (j: nat)
    requires i <= |s|
    ensures i <= j <= |s|
    ensures j < |s| ==> s[j] == '(' || s[j] == ')'
    decreases |s| - i
  {
    if i == |s| || s[i] == '(' || s[i] == ')' then i else NextParen(s, i + 1)
  }

  /** The comma at `c` splits column definitions: `,\s*(?![^()]*\))` matches there,
      i.e. no `)` comes before the next `(`. */
  predicate SplitsAt(s: string, c: nat) {
    c < |s| && s[c] == ',' && (NextParen(s, c + 1) == |s| || s[NextParen(s, c + 1)] == '(')
  }

  /** The splitting commas from `i` on, in order: the positions at which
      `re.split` cuts. After a cut the scan resumes past the whitespace the
      separator consumed, which holds no comma. */
  function Cuts(s: string, i: nat): seq<nat>
    requires i <= |s|
    decreases |s| - i
  {
    if i == |s| then []
    else if SplitsAt(s, i) then [i] + Cuts(s, SkipSpaces(s, i + 1))
    else Cuts(s, i + 1)
  }

  /** A comma at or after `i` is a cut exactly when no `)` comes before the next
      `(`: the commas inside `decimal(10,2)` never split. */
  lemma {:induction false} CutsAreSplittingCommas(s: string, i: nat, c: nat)
    requires i <= c < |s| && s[c] == ','
    ensures c in Cuts(s, i) <==> NextParen(s, c + 1) == |s| || s[NextParen(s, c + 1)] == '('
    decreases |s| - i
  {
    if i < c {
      if SplitsAt(s, i) {
        var w := SkipSpaces(s, i + 1);
        SkipSpacesRun(s, i + 1);
        if c < w {
          assert false;
        }
        CutsAreSplittingCommas(s, w, c);
      } else {
        CutsAreSplittingCommas(s, i + 1, c);
      }
    } else if SplitsAt(s, i) {
    } else {
      CutsNotBefore(s, i + 1, c);
    }
  }

  lemma {:induction false} CutsNotBefore(s: string, i: nat, c: nat)
    requires c < i <= |s|
    ensures c !in Cuts(s, i)
    decreases |s| - i
  {
    if i < |s| {
      if SplitsAt(s, i) { CutsNotBefore(s, SkipSpaces(s, i + 1), c); } else { CutsNotBefore(s, i + 1, c); }
    }
  }

  /** `re.split(r',\s*(?![^()]*\))', s)` from `i` on, the current piece starting
      at `start`: a splitting comma and the whitespace after it separate pieces. */
  function SplitPieces(s: string, start: nat, i: nat): (pieces: seq<string>)
    requires start <= i <= |s|
    ensures |pieces| >= 1
    decreases |s| - i
  {
    if i == |s| then [s[start..]]
    else if SplitsAt(s, i) then
      var next := SkipSpaces(s, i + 1);
      [s[start..i]] + SplitPieces(s, next, next)
    else SplitPieces(s, start, i + 1)
  }

  /** `re.split(r',\s*(?![^()]*\))', cols_block.strip())`. */
  function SplitColumnDefinitions(block: string): seq<string> {
    var s := Strip(block);
    SplitPieces(s, 0, 0)
  }

  /** There is one more piece than there are splitting commas. */
  lemma {:induction false} PiecesCount(s: string, start: nat, i: nat)
    requires start <= i <= |s|
    ensures |SplitPieces(s, start, i)| == |Cuts(s, i)| + 1
    decreases |s| - i
  {
    if i < |s| {
      if SplitsAt(s, i) {
        PiecesCount(s, SkipSpaces(s, i + 1), SkipSpaces(s, i + 1));
      } else {
        PiecesCount(s, start, i + 1);
      }
    }
  }

  lemma JoinCons(sep: string, head: string, rest: seq<string>)
    requires rest != []
    ensures Join(sep, [head] + rest) == head + sep + Join(sep, rest)
  {
    assert ([head] + rest)[1..] == rest;
  }

  /** The visible text around a splitting comma and the whitespace after it. */
  lemma SeparatorNonSpace(s: string, start: nat, i: nat)
    requires start <= i < |s| && s[i] == ','
    ensures NonSpace(s[start..]) == NonSpace(s[start..i]) + "," + NonSpace(s[SkipSpaces(s, i + 1)..])
  {
    assert s[start..i + 1] == s[start..i] + [','];
    NonSpaceSnoc(s[start..i], ',');
    NonSpaceSkipSpaces(s, start, i + 1);
  }

  /** Rejoining the pieces with `,` loses nothing but the whitespace that
      followed the splitting commas. */
  lemma {:induction false} PiecesRejoin(s: string, start: nat, i: nat)
    requires start <= i <= |s|
    ensures NonSpace(Join(",", SplitPieces(s, start, i))) == NonSpace(s[start..])
    decreases |s| - i
  {
    if i == |s| {
    } else if SplitsAt(s, i) {
      var next := SkipSpaces(s, i + 1);
      var rest := SplitPieces(s, next, next);
      PiecesRejoin(s, next, next);
      var head := s[start..i];
      assert ([head] + rest)[1..] == rest;
      JoinCons(",", head, rest);
      NonSpaceAppend(head + ",", Join(",", rest));
      NonSpaceSnoc(head, ',');
      assert head + "," == head + [','];
      SeparatorNonSpace(s, start, i);
    } else {
      PiecesRejoin(s, start, i + 1);
    }
  }

  /** The first table-level `PRIMARY\s+KEY\s*\((.*?)\)` (no DOTALL: the list may not
      span a newline) tried at `i`: the text of the list. */
  function PrimaryKeyListAt(s: string, i: nat): Option<string>
    requires i <= |s|
  {
    match KeywordThenSpace(s, i, "primary")
    case None => None
    case Some(a) =>
      if !KeywordAt(s, a, "key") then None
      else
        var b := SkipSpaces(s, a + 3);
        if b == |s| || s[b] != '(' then None
        else
          var close := IndexOf(s, ')', b + 1);
          if close == |s| || '\n' in s[b + 1..close] then None else Some(s[b + 1..close])
  }

  /** `pk_pattern.search(cols_block)`: the first position where the pattern matches. */
  function FirstPrimaryKeyList(s: string, i: nat): Option<string>
    requires i <= |s|
    decreases |s| - i
  {
    if i == |s| then None
    else if PrimaryKeyListAt(s, i).Some? then PrimaryKeyListAt(s, i)
    else FirstPrimaryKeyList(s, i + 1)
  }

  const PkStripChars: set<char> := {' ', '[', ']', '`', '"'}
  const NameStripChars: set<char> := {'[', ']', '`', '"'}

  function StripAll(xs: seq<string>, cs: set<char>): (r: seq<string>)
    ensures |r| == |xs| && forall k :: 0 <= k < |xs| ==> r[k] == StripSet(xs[k], cs)
  {
    if xs == [] then [] else [StripSet(xs[0], cs)] + StripAll(xs[1..], cs)
  }

  /** The column names listed by the table-level primary key, if there is one. */
  function TablePrimaryKey(body: string): set<string> {
    match FirstPrimaryKeyList(body, 0)
    case None => {}
    case Some(list) =>
      Elements(StripAll(SplitOn(list, ','), PkStripChars))
  }

  /** The set of the strings in `xs` (`set.update` with a list). */
  function Elements(xs: seq<string>): (r: set<string>)
    ensures forall x :: x in r <==> x in xs
  {
    if xs == [] then {} else {xs[0]} + Elements(xs[1..])
  }

  /** A definition that `re.match(r"(CONSTRAINT|PRIMARY\s+KEY|FOREIGN\s+KEY|UNIQUE|CHECK)", ...)`
      recognises. This is a prefix test: `UniqueCode int` is skipped as well. */
  predicate IsConstraintLine(line: string) {
    || KeywordAt(line, 0, "constraint")
    || TwoKeywordsAt(line, 0, "primary", "key")
    || TwoKeywordsAt(line, 0, "foreign", "key")
    || KeywordAt(line, 0, "unique")
    || KeywordAt(line, 0, "check")
  }

  /** `re.split(r'\s+', line, maxsplit=2)`. */
  function SplitParts(line: string): (parts: seq<string>)
    ensures 1 <= |parts| <= 3
  {
    var a := TokenEnd(line, 0);
    if a == |line| then
      [line]
    else
      var b := SkipSpaces(line, a);
      var c := TokenEnd(line, b);
      if c == |line| then [line[..a], line[b..]]
      else [line[..a], line[b..c], line[SkipSpaces(line, c)..]]
  }

  /** A column definition as split by the source: name (delimiters stripped),
      type token and the rest of the definition, if any. */
  datatype Declaration = Declaration(name: string, dataType: string, remainder: Option<string>) {
    predicate NotNull() {
      remainder.Some? && ContainsTwoKeywords(remainder.value, "not", "null")
    }
    predicate InlinePrimaryKey() {
      remainder.Some? && ContainsTwoKeywords(remainder.value, "primary", "key")
    }
  }

  /** One piece of the body: `None` for an empty line, a constraint line, or a
      line with fewer than two whitespace-separated parts. */
  function ParseDefinition(piece: string): Option<Declaration> {
    var line := Strip(piece);
    if line == [] || IsConstraintLine(line) then None
    else
      var parts := SplitParts(line);
      if |parts| < 2 then None
      else Some(Declaration(StripSet(parts[0], NameStripChars), parts[1],
                            if |parts| > 2 then Some(parts[2]) else None))
  }

  /** The line contains at least one whitespace character. */
  predicate HasSpace(line: string) {
    exists k :: 0 <= k < |line| && IsSpace(line[k])
  }

  /** `re.split(r'\s+', line, maxsplit=2)` yields at least two parts exactly
      when the line contains whitespace. */
  lemma SplitPartsCount(line: string)
    ensures |SplitParts(line)| >= 2 <==> HasSpace(line)
  {
    TokenEndRun(line, 0);
    var a := TokenEnd(line, 0);
    if a < |line| { assert IsSpace(line[a]); }
  }

  /** A piece is skipped exactly when its stripped text is empty, starts with
      a constraint keyword, or is a single token. */
  lemma ParseDefinitionNone(piece: string)
    ensures ParseDefinition(piece).None? <==>
              var line := Strip(piece);
              line == [] || IsConstraintLine(line) || !HasSpace(line)
  {
    SplitPartsCount(Strip(piece));
  }

  /** A parsed declaration has a non-empty type token without whitespace and,
      when present, a non-empty rest of the definition. */
  lemma ParseDefinitionTokens(piece: string)
    requires ParseDefinition(piece).Some?
    ensures var d := ParseDefinition(piece).value;
            && d.dataType != []
            && (forall k :: 0 <= k < |d.dataType| ==> !IsSpace(d.dataType[k]))
            && (d.remainder.Some? ==> d.remainder.value != [])
  {
    StripEnds(piece);
    SplitPartsTokens(Strip(piece));
  }

  /** The parts of a line without surrounding whitespace: the second is a
      non-empty token and a third, if any, is non-empty. */
  lemma SplitPartsTokens(line: string)
    requires line != [] && !IsSpace(line[|line| - 1])
    ensures var parts := SplitParts(line);
            |parts| >= 2 ==>
              && parts[1] != []
              && (forall k :: 0 <= k < |parts[1]| ==> !IsSpace(parts[1][k]))
              && (|parts| > 2 ==> parts[2] != [])
  {
    var a := TokenEnd(line, 0);
    if a < |line| {
      var b := SkipSpaces(line, a);
      SkipBeforeLast(line, a);
      var c := TokenEnd(line, b);
      TokenEndRun(line, b);
      if c < |line| {
        SkipBeforeLast(line, c);
      }
    }
  }

  /** Skipping whitespace from inside a line that ends in a visible character
      stops inside the line. */
  lemma SkipBeforeLast(line: string, a: nat)
    requires a < |line| && !IsSpace(line[|line| - 1])
    ensures SkipSpaces(line, a) < |line|
  {
    SkipSpacesRun(line, a);
  }

  /** The constraint test is a prefix match: a column whose name merely starts
      with UNIQUE is skipped too. */
  lemma UniquePrefixSkipsColumn()
    ensures ParseDefinition("UniqueCode int").None?
  {
    var piece := "UniqueCode int";
    UniqueCodeStripped(piece);
    UniqueCodeKeyword(piece);
    ParseDefinitionNone(piece);
  }

  lemma UniqueCodeStripped(piece: string)
    requires piece == "UniqueCode int"
    ensures Strip(piece) == piece
  {
    assert StripStart(piece) == piece;
  }

  lemma UniqueCodeKeyword(piece: string)
    requires piece == "UniqueCode int"
    ensures KeywordAt(piece, 0, "unique")
  {
  }

  /** The declarations among the pieces, in order. */
  function Declarations(pieces: seq<string>): seq<Declaration> {
    if pieces == [] then []
    else match ParseDefinition(pieces[0])
      case Some(d) => [d] + Declarations(pieces[1..])
      case None => Declarations(pieces[1..])
  }

  /** `[name, type, nullability, is_primary_key]`. */
  datatype Column = Column(name: string, dataType: string, nullability: string, primaryKey: bool)

  function MakeColumn(d: Declaration, primaryKeys: set<string>): Column {
    Column(d.name, d.dataType, if d.NotNull() then "NOT NULL" else "NULL",
           d.name in primaryKeys || d.InlinePrimaryKey())
  }

  /** The columns of a run of declarations; an inline primary key adds its
      column name to the set consulted by the later declarations. */
  function ColumnsFrom(decls: seq<Declaration>, primaryKeys: set<string>): seq<Column> {
    if decls == [] then []
    else [MakeColumn(decls[0], primaryKeys)] + ColumnsFrom(decls[1..], KeysAfter(decls[0], primaryKeys))
  }

  /** The columns `extract_table_schema` reads from one CREATE TABLE body. */
  function BodyColumns(body: string): seq<Column> {
    ColumnsFrom(Declarations(SplitColumnDefinitions(body)), TablePrimaryKey(body))
  }

  /** The primary-key set after one declaration has been read. */
  function KeysAfter(d: Declaration, primaryKeys: set<string>): set<string> {
    if d.InlinePrimaryKey() then primaryKeys + {d.name} else primaryKeys
  }

  /** The loop of `extract_table_schema` over one body. The definitions the
      source skips are filtered by `Declarations`; for each remaining one the
      loop decides nullability and primary-key status, records an inline key
      in `primaryKeys` and appends the column. */
  method ExtractColumns(body: string) returns (columns: seq<Column>)
    ensures columns == BodyColumns(body)
  {
    var primaryKeys := TablePrimaryKey(body);
    var decls := Declarations(SplitColumnDefinitions(body));
    columns := ColumnsLoop(decls, primaryKeys);
  }

  method ColumnsLoop(decls: seq<Declaration>, keys: set<string>) returns (columns: seq<Column>)
    ensures columns == ColumnsFrom(decls, keys)
  {
    var primaryKeys := keys;
    columns := [];
    for i := 0 to |decls|
      invariant columns + ColumnsFrom(decls[i..], primaryKeys) == ColumnsFrom(decls, keys)
    {
      ColumnsFromStep(decls, i, primaryKeys);
      var d := decls[i];
      ghost var before := primaryKeys;
      var isPrimary := d.name in primaryKeys;
      if d.InlinePrimaryKey() {
        isPrimary := true;
        primaryKeys := primaryKeys + {d.name};
      }
      var nullability := if d.NotNull() then "NOT NULL" else "NULL";
      var column := Column(d.name, d.dataType, nullability, isPrimary);
      assert column == MakeColumn(d, before) && primaryKeys == KeysAfter(d, before);
      AppendAssoc(columns, column, ColumnsFrom(decls[i + 1..], primaryKeys));
      columns := columns + [column];
    }
    assert decls[|decls|..] == [];
  }

  lemma ColumnsFromStep(decls: seq<Declaration>, i: nat, pk: set<string>)
    requires i < |decls|
    ensures ColumnsFrom(decls[i..], pk) == [MakeColumn(decls[i], pk)] + ColumnsFrom(decls[i + 1..], KeysAfter(decls[i], pk))
  {
    assert decls[i..][1..] == decls[i + 1..];
  }

  lemma {:induction false} ColumnsFromLength(decls: seq<Declaration>, pk: set<string>)
    ensures |ColumnsFrom(decls, pk)| == |decls|
  {
    if decls != [] { ColumnsFromLength(decls[1..], KeysAfter(decls[0], pk)); }
  }

  /** Some definition before position `k` carries an inline PRIMARY KEY for the
      same column name. */
  predicate EarlierInlinePrimary(decls: seq<Declaration>, k: nat)
    requires k < |decls|
  {
    exists j :: 0 <= j < k && decls[j].InlinePrimaryKey() && decls[j].name == decls[k].name
  }

  /** Column `k` is the `k`-th declaration: name and type as declared,
      `NOT NULL` exactly when the rest of its definition says so and `NULL`
      otherwise, and a primary key as `ColumnsFromPrimary` says. */
  lemma {:induction false} ColumnsFromAt(decls: seq<Declaration>, pk: set<string>, k: nat)
    requires k < |decls|
    ensures |ColumnsFrom(decls, pk)| == |decls|
    ensures ColumnsFrom(decls, pk)[k].name == decls[k].name
    ensures ColumnsFrom(decls, pk)[k].dataType == decls[k].dataType
    ensures ColumnsFrom(decls, pk)[k].nullability == if decls[k].NotNull() then "NOT NULL" else "NULL"
    ensures ColumnsFrom(decls, pk)[k].primaryKey <==>
              decls[k].name in pk || decls[k].InlinePrimaryKey() || EarlierInlinePrimary(decls, k)
  {
    ColumnsFromLength(decls, pk);
    ColumnsFromPrimary(decls, pk, k);
    if k > 0 {
      var pk' := KeysAfter(decls[0], pk);
      ColumnsFromAt(decls[1..], pk', k - 1);
      ColumnsFromShift(decls, pk, k);
    }
  }

  /** Column `k` is a primary key exactly when the table-level key lists its
      name, its own definition says PRIMARY KEY, or an earlier definition of
      the same name did. */
  lemma {:induction false} ColumnsFromPrimary(decls: seq<Declaration>, pk: set<string>, k: nat)
    requires k < |decls|
    ensures k < |ColumnsFrom(decls, pk)|
    ensures ColumnsFrom(decls, pk)[k].primaryKey <==>
              decls[k].name in pk || decls[k].InlinePrimaryKey() || EarlierInlinePrimary(decls, k)
  {
    ColumnsFromLength(decls, pk);
    if k > 0 {
      var pk' := KeysAfter(decls[0], pk);
      ColumnsFromPrimary(decls[1..], pk', k - 1);
      ColumnsFromShift(decls, pk, k);
      EarlierInlinePrimaryShift(decls, k);
    }
  }

  lemma ColumnsFromShift(decls: seq<Declaration>, pk: set<string>, k: nat)
    requires 0 < k < |decls|
    requires k - 1 < |ColumnsFrom(decls[1..], KeysAfter(decls[0], pk))|
    ensures k < |ColumnsFrom(decls, pk)|
    ensures ColumnsFrom(decls, pk)[k] == ColumnsFrom(decls[1..], KeysAfter(decls[0], pk))[k - 1]
    ensures decls[1..][k - 1] == decls[k]
  {
  }

  /** An earlier inline key is either the first definition's or one inside the rest. */
  lemma EarlierInlinePrimaryShift(decls: seq<Declaration>, k: nat)
    requires 0 < k < |decls|
    ensures EarlierInlinePrimary(decls, k) <==>
              (decls[0].InlinePrimaryKey() && decls[0].name == decls[k].name)
              || EarlierInlinePrimary(decls[1..], k - 1)
  {
    var rest := decls[1..];
    if EarlierInlinePrimary(rest, k - 1) {
      var j :| 0 <= j < k - 1 && rest[j].InlinePrimaryKey() && rest[j].name == rest[k - 1].name;
      assert decls[j + 1] == rest[j];
    }
    if EarlierInlinePrimary(decls, k) {
      var j :| 0 <= j < k && decls[j].InlinePrimaryKey() && decls[j].name == decls[k].name;
      if j > 0 {
        assert rest[j - 1] == decls[j];
      }
    }
  }

  /** One `{"database", "table", "columns"}` entry produced from SQL text. */
  datatype TableSchema = TableSchema(database: string, table: string, columns: seq<Column>)

  /** The entries for a run of CREATE TABLE blocks, all filed under `db`. */
  function TableSchemas(db: string, blocks: seq<CreateBlock>): seq<TableSchema> {
    if blocks == [] then []
    else [TableSchema(db, blocks[0].table, BodyColumns(blocks[0].body))] + TableSchemas(db, blocks[1..])
  }

  /** `extract_table_schema`: the entries for the CREATE TABLE blocks of the
      script, filed under its resolved database. */
  method ExtractTableSchema(sql: string) returns (extracted: seq<TableSchema>)
    ensures extracted == TableSchemas(ResolvedDatabase(sql), CreateBlocks(sql, 0))
  {
    var matches := CreateBlocks(sql, 0);
    var dbName := ExtractDatabaseName(sql).GetOr("UnknownDB");
    extracted := SchemasLoop(dbName, matches);
  }

  method SchemasLoop(dbName: string, matches: seq<CreateBlock>) returns (extracted: seq<TableSchema>)
    ensures extracted == TableSchemas(dbName, matches)
  {
    extracted := [];
    for k := 0 to |matches|
      invariant extracted + TableSchemas(dbName, matches[k..]) == TableSchemas(dbName, matches)
    {
      TableSchemasStep(dbName, matches, k);
      var columns := ExtractColumns(matches[k].body);
      var entry := TableSchema(dbName, matches[k].table, columns);
      AppendAssoc(extracted, entry, TableSchemas(dbName, matches[k + 1..]));
      extracted := extracted + [entry];
    }
    assert matches[|matches|..] == [];
  }

  lemma TableSchemasStep(db: string, blocks: seq<CreateBlock>, k: nat)
    requires k < |blocks|
    ensures TableSchemas(db, blocks[k..])
              == [TableSchema(db, blocks[k].table, BodyColumns(blocks[k].body))] + TableSchemas(db, blocks[k + 1..])
  {
    assert blocks[k..][1..] == blocks[k + 1..];
  }

  /** One entry per block, in source order: entry `k` carries the table name of
      block `k` (the qualifier is dropped), the script's database and the
      columns of block `k`. */
  lemma {:induction false} TableSchemasAt(db: string, blocks: seq<CreateBlock>, k: nat)
    requires k < |blocks|
    ensures |TableSchemas(db, blocks)| == |blocks|
    ensures TableSchemas(db, blocks)[k] == TableSchema(db, blocks[k].table, BodyColumns(blocks[k].body))
  {
    if k > 0 {
      TableSchemasAt(db, blocks[1..], k - 1);
      assert blocks[1..][k - 1] == blocks[k];
    } else {
      TableSchemasLength(db, blocks);
    }
  }

  lemma {:induction false} TableSchemasLength(db: string, blocks: seq<CreateBlock>)
    ensures |TableSchemas(db, blocks)| == |blocks|
  {
    if blocks != [] { TableSchemasLength(db, blocks[1..]); }
  }

  // ================================================================= DROP

  /** A table removed by `DROP TABLE`: the qualifier if written, else the script's database. */
  datatype DroppedTable = DroppedTable(database: string, table: string)

  /** `{"tables": [...], "databases": [...]}`; both keys are always present,
      so the dictionary is never falsy. */
  datatype Drops = Drops(tables: seq<DroppedTable>, databases: seq<string>)

  /** `DROP\s+TABLE\s+<qualified name>\s*;` tried at `i`. */
  function DropTableAt(s: string, i: nat): (r: Found<QualifiedName>)
    requires i <= |s|
    ensures r.Found? ==> i < r.end <= |s| && IsWord(r.value.name)
    ensures r.Found? && r.value.qualifier.Some? ==> IsWord(r.value.qualifier.value)
  {
    match KeywordThenSpace(s, i, "drop")
    case None => NotFound
    case Some(a) =>
      match KeywordThenSpace(s, a, "table")
      case None => NotFound
      case Some(b) =>
        match QualifiedNameAt(s, b)
        case NotFound => NotFound
        case Found(q, c) =>
          var d := SkipSpaces(s, c);
          if d == |s| || s[d] != ';' then NotFound else Found(q, d + 1)
  }

  /** `DROP\s+DATABASE\s+\[?(\w+)\]?\s*;` tried at `i`. */
  function DropDatabaseAt(s: string, i: nat): (r: Found<string>)
    requires i <= |s|
    ensures r.Found? ==> i < r.end <= |s| && IsWord(r.value)
  {
    match KeywordThenSpace(s, i, "drop")
    case None => NotFound
    case Some(a) =>
      match KeywordThenSpace(s, a, "database")
      case None => NotFound
      case Some(b) =>
        match IdentAt(s, b)
        case NotFound => NotFound
        case Found(name, c) =>
          var d := SkipSpaces(s, c);
          if d == |s| || s[d] != ';' then NotFound else Found(name, d + 1)
  }

  function DropTableMatches(s: string, i: nat): seq<QualifiedName>
    requires i <= |s|
    decreases |s| - i
  {
    if i == |s| then []
    else match DropTableAt(s, i)
      case Found(q, e) => [q] + DropTableMatches(s, e)
      case NotFound => DropTableMatches(s, i + 1)
  }

  function DropDatabaseMatches(s: string, i: nat): seq<string>
    requires i <= |s|
    decreases |s| - i
  {
    if i == |s| then []
    else match DropDatabaseAt(s, i)
      case Found(name, e) => [name] + DropDatabaseMatches(s, e)
      case NotFound => DropDatabaseMatches(s, i + 1)
  }

  /** Every DROP TABLE match names its table, and its qualifier when
      written, by a non-empty word; so `db or db_name` falls back to the
      script's database exactly when no qualifier is written. */
  lemma {:induction false} DropTableTargetsAreWords(s: string, i: nat, k: nat)
    requires i <= |s| && k < |DropTableMatches(s, i)|
    ensures IsWord(DropTableMatches(s, i)[k].name)
    ensures DropTableMatches(s, i)[k].qualifier.Some? ==> IsWord(DropTableMatches(s, i)[k].qualifier.value)
    decreases |s| - i
  {
    match DropTableAt(s, i)
    case Found(q, e) =>
      if k > 0 { DropTableTargetsAreWords(s, e, k - 1); }
    case NotFound =>
      DropTableTargetsAreWords(s, i + 1, k);
  }

  /** Every DROP DATABASE match is a non-empty word. */
  lemma {:induction false} DropDatabaseTargetsAreWords(s: string, i: nat, k: nat)
    requires i <= |s| && k < |DropDatabaseMatches(s, i)|
    ensures IsWord(DropDatabaseMatches(s, i)[k])
    decreases |s| - i
  {
    match DropDatabaseAt(s, i)
    case Found(name, e) =>
      if k > 0 { DropDatabaseTargetsAreWords(s, e, k - 1); }
    case NotFound =>
      DropDatabaseTargetsAreWords(s, i + 1, k);
  }

  /** The `tables` list of `extract_drops_from_sql`: each match filed under its
      own qualifier, or under `db` when it has none. */
  function DroppedTables(db: string, matches: seq<QualifiedName>): seq<DroppedTable> {
    if matches == [] then []
    else [DroppedTable(matches[0].qualifier.GetOr(db), matches[0].name)]
         + DroppedTables(db, matches[1..])
  }

  /** `extract_drops_from_sql`: one entry per DROP TABLE, filed under its qualifier
      or else the resolved database, and every DROP DATABASE name, in source order. */
  method ExtractDrops(sql: string) returns (drops: Drops)
    ensures drops == Drops(DroppedTables(ResolvedDatabase(sql), DropTableMatches(sql, 0)),
                           DropDatabaseMatches(sql, 0))
  {
    var dbName := if ExtractDatabaseName(sql).Some? then ExtractDatabaseName(sql).value else "UnknownDB";
    var tables := TablesLoop(dbName, DropTableMatches(sql, 0));
    var databases := DatabasesLoop(DropDatabaseMatches(sql, 0));
    drops := Drops(tables, databases);
  }

  /** The first `for` loop of `extract_drops_from_sql`. */
  method TablesLoop(dbName: string, matches: seq<QualifiedName>) returns (tables: seq<DroppedTable>)
    ensures tables == DroppedTables(dbName, matches)
  {
    tables := [];
    for k := 0 to |matches|
      invariant tables + DroppedTables(dbName, matches[k..]) == DroppedTables(dbName, matches)
    {
      assert DroppedTables(dbName, matches[k..])
             == [DroppedTable(matches[k].qualifier.GetOr(dbName), matches[k].name)]
                + DroppedTables(dbName, matches[k + 1..]);
      var db := if matches[k].qualifier.Some? then matches[k].qualifier.value else dbName;
      AppendAssoc(tables, DroppedTable(db, matches[k].name), DroppedTables(dbName, matches[k + 1..]));
      tables := tables + [DroppedTable(db, matches[k].name)];
    }
    assert matches[|matches|..] == [];
  }

  /** The second `for` loop of `extract_drops_from_sql`. */
  method DatabasesLoop(matches: seq<string>) returns (databases: seq<string>)
    ensures databases == matches
  {
    databases := [];
    for k := 0 to |matches|
      invariant databases == matches[..k]
    {
      databases := databases + [matches[k]];
    }
    assert matches[..|matches|] == matches;
  }

  /** Entry `k` of the tables list belongs to match `k`, under its qualifier or `db`. */
  lemma {:induction false} DroppedTablesAt(db: string, matches: seq<QualifiedName>, k: nat)
    requires k < |matches|
    ensures |DroppedTables(db, matches)| == |matches|
    ensures DroppedTables(db, matches)[k]
            == DroppedTable(if matches[k].qualifier.Some? then matches[k].qualifier.value else db,
                            matches[k].name)
  {
    if k > 0 {
      DroppedTablesAt(db, matches[1..], k - 1);
    } else if |matches| > 1 {
      DroppedTablesAt(db, matches[1..], 0);
    }
  }
}
