/** The token-budgeted retrieval of `rag.py`: the search results are
    scanned in rank order and each chunk that still fits in the budget is
    taken whole, until the budget is used up. The vector store and the
    tokenizer are parameters: the store's answer is given, and the token
    count is an arbitrary function. */
module Retrieval {
  import opened Text
  import opened SchemaMemory

  /** What the vector store yields for the query: no store loaded, an
      exception, or the ranked chunk texts. */
  datatype Search = NoStore | Failed | Results(chunks: seq<string>)

  /** The chunks taken from `results` when `total` tokens are already used. */
  function Pick(count: string -> nat, results: seq<string>, maxTokens: int, total: int): seq<Message>
  {
    if results == [] then []
    else
      var next := total + count(results[0]);
      if next > maxTokens then Pick(count, results[1..], maxTokens, total)
      else if next >= maxTokens then [Message("system", results[0])]
      else [Message("system", results[0])] + Pick(count, results[1..], maxTokens, next)
  }

  /** `retrieve_context_chunks`. */
  function Retrieved(count: string -> nat, search: Search, maxTokens: int): seq<Message> {
    match search
    case NoStore => []
    case Failed => []
    case Results(chunks) => Pick(count, chunks, maxTokens, 0)
  }

  method RetrieveContextChunks(count: string -> nat, search: Search, maxTokens: int)
    returns (contextChunks: seq<Message>)
    ensures contextChunks == Retrieved(count, search, maxTokens)
  {
    if !search.Results? {
      return [];
    }
    var results := search.chunks;
    contextChunks := [];
    var totalTokens := 0;
    for i := 0 to |results|
      invariant contextChunks + Pick(count, results[i..], maxTokens, totalTokens) == Pick(count, results, maxTokens, 0)
    {
      var chunkText := results[i];
      var chunkTokens := count(chunkText);
      assert results[i..][1..] == results[i + 1..];
      if totalTokens + chunkTokens > maxTokens {
        continue;
      }
      var taken := Message("system", chunkText);
      assert contextChunks + [taken] + Pick(count, results[i + 1..], maxTokens, totalTokens + chunkTokens)
             == contextChunks + ([taken] + Pick(count, results[i + 1..], maxTokens, totalTokens + chunkTokens));
      contextChunks := contextChunks + [taken];
      totalTokens := totalTokens + chunkTokens;
      if totalTokens >= maxTokens {
        break;
      }
    }
  }

  // ------------------------------------------------------------ properties

  /** The texts of the taken chunks. */
  function Contents(messages: seq<Message>): seq<string> {
    if messages == [] then [] else [messages[0].content] + Contents(messages[1..])
  }

  function Total(count: string -> nat, texts: seq<string>): nat {
    if texts == [] then 0 else count(texts[0]) + Total(count, texts[1..])
  }

  /** The chunks taken are search results, whole and in rank order. */
  lemma {:induction false} PickSubsequence(count: string -> nat, results: seq<string>, maxTokens: int, total: int)
    ensures Subsequence(Contents(Pick(count, results, maxTokens, total)), results)
    decreases |results|
  {
    if results != [] {
      var next := total + count(results[0]);
      var picked := Pick(count, results, maxTokens, total);
      if next > maxTokens {
        PickSubsequence(count, results[1..], maxTokens, total);
        SubsequenceOfTail(Contents(picked), results);
      } else if next >= maxTokens {
        assert Contents(picked) == [results[0]];
      } else {
        PickSubsequence(count, results[1..], maxTokens, next);
        assert picked[1..] == Pick(count, results[1..], maxTokens, next);
      }
    }
  }

  /** The tokens of the chunks taken, on top of `total`, stay within the
      budget; a budget already overdrawn takes nothing. */
  lemma {:induction false} PickWithinBudget(count: string -> nat, results: seq<string>, maxTokens: int, total: int)
    ensures var picked := Pick(count, results, maxTokens, total);
            picked == [] || total + Total(count, Contents(picked)) <= maxTokens
    decreases |results|
  {
    if results != [] {
      var next := total + count(results[0]);
      if next > maxTokens {
        PickWithinBudget(count, results[1..], maxTokens, total);
      } else if next < maxTokens {
        PickWithinBudget(count, results[1..], maxTokens, next);
        var picked := Pick(count, results, maxTokens, total);
        assert picked[1..] == Pick(count, results[1..], maxTokens, next);
      }
    }
  }

  /** Every returned item is a system message. */
  lemma {:induction false} PickRoles(count: string -> nat, results: seq<string>, maxTokens: int, total: int, k: nat)
    requires k < |Pick(count, results, maxTokens, total)|
    ensures Pick(count, results, maxTokens, total)[k].role == "system"
    decreases |results|
  {
    var next := total + count(results[0]);
    if next > maxTokens {
      PickRoles(count, results[1..], maxTokens, total, k);
    } else if next < maxTokens && k > 0 {
      PickRoles(count, results[1..], maxTokens, next, k - 1);
    }
  }

  /** The sum of the tokens returned is within `max_tokens`. */
  lemma RetrievedWithinBudget(count: string -> nat, search: Search, maxTokens: int)
    ensures var r := Retrieved(count, search, maxTokens);
            r == [] || Total(count, Contents(r)) <= maxTokens
    ensures search.Results? ==> Subsequence(Contents(Retrieved(count, search, maxTokens)), search.chunks)
  {
    if search.Results? {
      PickWithinBudget(count, search.chunks, maxTokens, 0);
      PickSubsequence(count, search.chunks, maxTokens, 0);
    }
  }

  /** A chunk that would overflow is skipped and the scan goes on: with
      budget 10 and chunks of 5, 20 and 3 tokens, the first and third are taken. */
  lemma SkipsOverflowAndContinues()
    ensures Pick((s: string) => |s|, ["aaaaa", "bbbbbbbbbbbbbbbbbbbb", "ccc"], 10, 0)
            == [Message("system", "aaaaa"), Message("system", "ccc")]
  {
    var count := (s: string) => |s|;
    var rs := ["aaaaa", "bbbbbbbbbbbbbbbbbbbb", "ccc"];
    assert rs[1..] == ["bbbbbbbbbbbbbbbbbbbb", "ccc"];
    assert rs[1..][1..] == ["ccc"];
    assert Pick(count, ["ccc"], 10, 5) == [Message("system", "ccc")] + Pick(count, [], 10, 8);
  }

  /** A chunk that would take the total past the budget is skipped, and the
      scan goes on with the same total. */
  lemma SkipsOverflow(count: string -> nat, first: string, rest: seq<string>, maxTokens: int, total: int)
    requires total + count(first) > maxTokens
    ensures Pick(count, [first] + rest, maxTokens, total) == Pick(count, rest, maxTokens, total)
  {
    assert ([first] + rest)[0] == first;
    assert ([first] + rest)[1..] == rest;
  }

  /** Once the running total reaches the budget the scan stops: later
      chunks are not taken even when they would cost nothing. */
  lemma StopsAtBudget(count: string -> nat, first: string, rest: seq<string>, maxTokens: int, total: int)
    requires total + count(first) == maxTokens
    ensures Pick(count, [first] + rest, maxTokens, total) == [Message("system", first)]
  {
    assert ([first] + rest)[0] == first;
  }
}
