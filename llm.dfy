/** Context assembly of `llm.py`: the filter that keeps well-formed chat
    messages, the fixed order in which the memory tiers are laid out
    around the system prompt and the user input, and the choice of the
    reply text from the completion service's answer. */
module Assembly {
  import opened Text
  import opened SchemaMemory

  /** A loaded memory item: a JSON object, or anything else. */
  datatype Item = Record(fields: map<string, Value>) | NotRecord

  const Roles: set<string> := {"system", "user", "assistant"}

  /** The message an item is reduced to, or `None` when it is dropped. */
  function Kept(item: Item): Option<Message> {
    match item
    case NotRecord => None
    case Record(fields) =>
      if "role" in fields && fields["role"].Str? && fields["role"].s in Roles
         && "content" in fields && fields["content"].Str?
      then Some(Message(fields["role"].s, fields["content"].s))
      else None
  }

  /** `sanitize_messages`: the kept items, in order. */
  function Sanitized(items: seq<Item>): seq<Message>
    decreases |items|
  {
    if items == [] then []
    else
      var prev := Sanitized(items[..|items| - 1]);
      match Kept(items[|items| - 1])
      case None => prev
      case Some(m) => prev + [m]
  }

  method SanitizeMessages(memoryList: seq<Item>) returns (sanitized: seq<Message>)
    ensures sanitized == Sanitized(memoryList)
  {
    sanitized := [];
    for i := 0 to |memoryList|
      invariant sanitized == Sanitized(memoryList[..i])
    {
      assert memoryList[..i + 1][..i] == memoryList[..i];
      var msg := memoryList[i];
      if !msg.Record? {
        continue;
      }
      var role := if "role" in msg.fields then Some(msg.fields["role"]) else None;
      var content := if "content" in msg.fields then Some(msg.fields["content"]) else None;
      if !(role.Some? && role.value.Str? && role.value.s in Roles) {
        continue;
      }
      if !(content.Some? && content.value.Str?) {
        continue;
      }
      sanitized := sanitized + [Message(role.value.s, content.value.s)];
    }
    assert memoryList[..|memoryList|] == memoryList;
  }

  /** Every message has one of the three chat roles. */
  predicate Conversational(messages: seq<Message>) {
    forall k :: 0 <= k < |messages| ==> messages[k].role in Roles
  }

  /** A message as the JSON object `{"role": ..., "content": ...}`. */
  function AsItem(m: Message): Item {
    Record(map["role" := Str(m.role), "content" := Str(m.content)])
  }

  function AsItems(messages: seq<Message>): (items: seq<Item>)
    ensures |items| == |messages|
  {
    seq(|messages|, k requires 0 <= k < |messages| => AsItem(messages[k]))
  }

  /** Every kept message has a chat role, so records written with role
      `admin` are always dropped. */
  lemma {:induction false} SanitizedRoles(items: seq<Item>)
    ensures Conversational(Sanitized(items))
    ensures |Sanitized(items)| <= |items|
    decreases |items|
  {
    if items != [] {
      SanitizedRoles(items[..|items| - 1]);
    }
  }

  lemma AdminDropped(items: seq<Item>, k: nat)
    requires k < |items| && items[k].Record? && "role" in items[k].fields
    requires items[k].fields["role"] == Str("admin")
    ensures Sanitized(items[..k + 1]) == Sanitized(items[..k])
  {
    assert items[..k + 1][..k] == items[..k];
  }

  /** Items after position `n` only add messages after those of the first `n`:
      the result is an order-preserving subsequence. */
  lemma {:induction false} SanitizedPrefix(items: seq<Item>, n: nat)
    requires n <= |items|
    ensures |Sanitized(items[..n])| <= |Sanitized(items)|
    ensures Sanitized(items[..n]) == Sanitized(items)[..|Sanitized(items[..n])|]
    decreases |items|
  {
    if n < |items| {
      var init := items[..|items| - 1];
      assert items[..n] == init[..n];
      SanitizedPrefix(init, n);
    } else {
      assert items[..n] == items;
    }
  }

  /** Sanitizing already sanitized messages returns them unchanged. */
  lemma {:induction false} SanitizeMessagesUnchanged(messages: seq<Message>)
    requires Conversational(messages)
    ensures Sanitized(AsItems(messages)) == messages
    decreases |messages|
  {
    if messages != [] {
      var init := messages[..|messages| - 1];
      assert AsItems(messages)[..|messages| - 1] == AsItems(init);
      SanitizeMessagesUnchanged(init);
      assert messages == init + [messages[|messages| - 1]];
    }
  }

  /** `sanitize_messages` is idempotent. */
  lemma SanitizeIdempotent(items: seq<Item>)
    ensures Sanitized(AsItems(Sanitized(items))) == Sanitized(items)
  {
    SanitizedRoles(items);
    SanitizeMessagesUnchanged(Sanitized(items));
  }

  // ============================================================ assembly

  /** The arguments of `process_query_with_llama` that shape the prompt. */
  datatype Request = Request(userInput: string, isAdmin: bool, isSelectedDatabase: bool,
                             selectedDatabase: Option<string>)

  /** The fixed instruction text of the system prompt around its two USE
      lines, after the surrounding whitespace is stripped. */
  datatype Guidance = Guidance(intro: string, rules: string, closing: string)

  /** The five memory tiers, as loaded and before sanitizing. */
  datatype Tiers = Tiers(admin: seq<Item>, schema: seq<Item>, global: seq<Item>,
                         retrieved: seq<Item>, user: seq<Item>)

  /** Whether a database was chosen: the flag is set and the name is non-empty. */
  predicate ReminderOn(req: Request) {
    req.isSelectedDatabase && req.selectedDatabase.Some? && req.selectedDatabase.value != ""
  }

  function UseTarget(req: Request): string {
    if ReminderOn(req) then req.selectedDatabase.value else "<DatabaseName>"
  }

  function UseLine(target: string): string {
    "  USE " + target + ";\n  GO\n"
  }

  function RoleInstruction(isAdmin: bool): string {
    if isAdmin then "You are interacting with an ADMIN. They can perform ALL SQL operations."
    else "You are interacting with a USER. They can only perform SELECT, INSERT, UPDATE, DELETE."
  }

  function SystemPrompt(g: Guidance, req: Request): string {
    var line := UseLine(UseTarget(req));
    g.intro + (line + (g.rules + (line + (g.closing + RoleInstruction(req.isAdmin)))))
  }

  /** Slicing after a prefix slices the rest. */
  lemma SliceAfter<T>(a: seq<T>, rest: seq<T>, i: nat, j: nat)
    requires i <= j <= |rest|
    ensures (a + rest)[|a| + i..|a| + j] == rest[i..j]
  {
  }

  /** Both USE lines of the prompt name the selected database when one is
      chosen, `<DatabaseName>` otherwise. */
  lemma PromptUseLines(g: Guidance, req: Request)
    ensures var p := SystemPrompt(g, req);
            var line := UseLine(UseTarget(req));
            var second := |g.intro| + |line| + |g.rules|;
            && second + |line| <= |p|
            && p[|g.intro|..|g.intro| + |line|] == line
            && p[second..second + |line|] == line
  {
    TwoLines(g.intro, UseLine(UseTarget(req)), g.rules, g.closing + RoleInstruction(req.isAdmin));
  }

  lemma TwoLines(intro: string, line: string, rules: string, tail: string)
    ensures var p := intro + (line + (rules + (line + tail)));
            var second := |intro| + |line| + |rules|;
            && second + |line| <= |p|
            && p[|intro|..|intro| + |line|] == line
            && p[second..second + |line|] == line
  {
    var fromSecond := line + tail;
    var fromRules := rules + fromSecond;
    var fromFirst := line + fromRules;
    SliceAfter(intro, fromFirst, 0, |line|);
    SliceAfter(line, fromRules, |rules|, |rules| + |line|);
    SliceAfter(rules, fromSecond, 0, |line|);
    SliceAfter(intro, fromFirst, |line| + |rules|, |line| + |rules| + |line|);
  }

  function Reminder(database: string): Message {
    Message("system", "The selected database for all operations is: " + database + ".")
  }

  /** The sanitized tiers in their fixed order: admin memory, schema memory,
      global memory, retrieved chunks, user memory. */
  function TierMessages(t: Tiers): seq<seq<Message>> {
    [Sanitized(t.admin), Sanitized(t.schema), Sanitized(t.global), Sanitized(t.retrieved), Sanitized(t.user)]
  }

  /** Where tier `k` starts within the concatenated tiers. */
  function Offset(tiers: seq<seq<Message>>, k: nat): nat
    requires k <= |tiers|
  {
    if k == 0 then 0 else |tiers[0]| + Offset(tiers[1..], k - 1)
  }

  /** Tier `k` sits in the concatenation right at its offset. */
  lemma {:induction false} ConcatSlice(tiers: seq<seq<Message>>, k: nat)
    requires k < |tiers|
    ensures Offset(tiers, k) + |tiers[k]| <= |Concat(tiers)|
    ensures Concat(tiers)[Offset(tiers, k)..Offset(tiers, k) + |tiers[k]|] == tiers[k]
  {
    if k == 0 {
      assert (tiers[0] + Concat(tiers[1..]))[..|tiers[0]|] == tiers[0];
    } else {
      ConcatSlice(tiers[1..], k - 1);
      var o := Offset(tiers[1..], k - 1);
      var rest := Concat(tiers[1..]);
      assert rest[o..o + |tiers[k]|] == tiers[k];
      assert Concat(tiers)[|tiers[0]| + o..|tiers[0]| + o + |tiers[k]|] == rest[o..o + |tiers[k]|];
    }
  }

  function ReminderPart(req: Request): seq<Message> {
    if ReminderOn(req) then [Reminder(req.selectedDatabase.value)] else []
  }

  /** The message list of `process_query_with_llama`: the system prompt, the
      sanitized tiers in fixed order, the reminder exactly when a database
      was chosen, and the user input last (see `LayoutShape`). */
  method AssembleMessages(g: Guidance, req: Request, tiers: Tiers) returns (messages: seq<Message>)
    ensures messages == Layout(Message("system", SystemPrompt(g, req)), TierMessages(tiers),
                               ReminderPart(req), Message("user", req.userInput))
  {
    var memories := SanitizeTiers(tiers);
    var prompt := Message("system", SystemPrompt(g, req));
    var input := Message("user", req.userInput);
    var reminder: seq<Message> := [];
    if req.isSelectedDatabase && req.selectedDatabase.Some? && req.selectedDatabase.value != "" {
      reminder := [Reminder(req.selectedDatabase.value)];
    }
    messages := [prompt] + Concat(memories) + reminder + [input];
    LayoutAppend(prompt, memories, reminder, input);
  }

  /** The five memory tiers, each sanitized, in the order they are sent. */
  method SanitizeTiers(tiers: Tiers) returns (memories: seq<seq<Message>>)
    ensures memories == TierMessages(tiers)
  {
    var adminMemory := SanitizeMessages(tiers.admin);
    var schemaMemory := SanitizeMessages(tiers.schema);
    var globalMemory := SanitizeMessages(tiers.global);
    var retrievedContext := SanitizeMessages(tiers.retrieved);
    var userMemory := SanitizeMessages(tiers.user);
    memories := [adminMemory, schemaMemory, globalMemory, retrievedContext, userMemory];
  }

  lemma LayoutAppend(prompt: Message, tiers: seq<seq<Message>>, reminder: seq<Message>, input: Message)
    ensures [prompt] + Concat(tiers) + reminder + [input] == Layout(prompt, tiers, reminder, input)
  {
  }

  /** The positions of the parts of `[prompt] + tiers + reminder + [input]`. */
  function Layout(prompt: Message, tiers: seq<seq<Message>>, reminder: seq<Message>, input: Message): seq<Message> {
    [prompt] + (Concat(tiers) + (reminder + [input]))
  }

  lemma LayoutShape(prompt: Message, tiers: seq<seq<Message>>, reminder: seq<Message>, input: Message)
    ensures |Layout(prompt, tiers, reminder, input)| == 2 + |Concat(tiers)| + |reminder|
    ensures Layout(prompt, tiers, reminder, input)[0] == prompt
    ensures Layout(prompt, tiers, reminder, input)[1 + |Concat(tiers)| + |reminder|] == input
    ensures Layout(prompt, tiers, reminder, input)[1..1 + |Concat(tiers)|] == Concat(tiers)
    ensures Layout(prompt, tiers, reminder, input)[1 + |Concat(tiers)|..1 + |Concat(tiers)| + |reminder|] == reminder
  {
    var c := Concat(tiers);
    var after := reminder + [input];
    SliceAfter([prompt], c + after, 0, |c|);
    SliceAfter([prompt], c + after, |c|, |c| + |reminder|);
    SliceAfter(c, after, 0, |reminder|);
  }

  /** Tier `k` sits right after the prompt and the tiers before it. */
  lemma TierPosition(prompt: Message, tiers: seq<seq<Message>>, reminder: seq<Message>, input: Message, k: nat)
    requires k < |tiers|
    ensures var m := Layout(prompt, tiers, reminder, input);
            && 1 + Offset(tiers, k) + |tiers[k]| <= |m|
            && m[1 + Offset(tiers, k)..1 + Offset(tiers, k) + |tiers[k]|] == tiers[k]
  {
    var c := Concat(tiers);
    var after := reminder + [input];
    ConcatSlice(tiers, k);
    var o := Offset(tiers, k);
    SliceAfter([prompt], c + after, o, o + |tiers[k]|);
    assert (c + after)[o..o + |tiers[k]|] == c[o..o + |tiers[k]|];
  }

  // ======================================================= reply selection

  /** The lookup `choices[0]['message']['content']` once the `choices` key
      is present: the text found, or the error the lookup raises (an empty
      list, a missing key). */
  datatype Lookup = Content(text: string) | LookupError(error: string)

  /** The body of a successful response: text that `response.json()`
      rejects, or a JSON object with the keys the reply is taken from
      (`None` when the key is absent). */
  datatype Answer =
    | NotJson(error: string)
    | Json(choices: Option<Lookup>, result: Option<string>, completion: Option<string>)

  /** The HTTP exchange: an exception, or a response with its status. */
  datatype Exchange = Raised(error: string) | Responded(ok: bool, status: nat, body: string, answer: Answer)

  /** The cross mark that opens every error reply. */
  const CrossMark := "\U{274C}"

  function Failure(detail: string): string {
    CrossMark + detail
  }

  /** The error reply for an exception raised inside the `try` block. */
  function ExceptionReply(error: string): string {
    Failure(" Exception occurred: " + error)
  }

  /** The reply: the first of `choices`, `result`, `completion` present in
      the answer of a successful response, and an error text otherwise. An
      exception from the request, from decoding the body or from the
      `choices` lookup all end in the same `except` branch. */
  function ReplyText(x: Exchange): (reply: string)
    ensures x.Raised? ==> reply == ExceptionReply(x.error)
    ensures x.Responded? && !x.ok ==> reply == Failure(" LLM Error " + NatToString(x.status) + ": " + x.body)
    ensures x.Responded? && x.ok && x.answer.NotJson? ==> reply == ExceptionReply(x.answer.error)
    ensures x.Responded? && x.ok && x.answer.Json? && x.answer.choices.Some? ==>
              reply == (match x.answer.choices.value
                        case Content(text) => text
                        case LookupError(e) => ExceptionReply(e))
    ensures x.Responded? && x.ok && x.answer.Json? && x.answer.choices.None? && x.answer.result.Some?
            ==> reply == x.answer.result.value
    ensures x.Responded? && x.ok && x.answer.Json? && x.answer.choices.None? && x.answer.result.None?
            && x.answer.completion.Some?
            ==> reply == x.answer.completion.value
    ensures x.Responded? && x.ok && x.answer == Json(None, None, None)
            ==> reply == Failure(" Unexpected API response structure.")
  {
    match x
    case Raised(e) => ExceptionReply(e)
    case Responded(ok, status, body, answer) =>
      if !ok then Failure(" LLM Error " + NatToString(status) + ": " + body)
      else
        match answer
        case NotJson(e) => ExceptionReply(e)
        case Json(choices, result, completion) =>
          if choices.Some? then
            match choices.value
            case Content(text) => text
            case LookupError(e) => ExceptionReply(e)
          else if result.Some? then result.value
          else if completion.Some? then completion.value
          else Failure(" Unexpected API response structure.")
  }

  /** Whether `reply` is one of the texts the answer carries. */
  predicate FromAnswer(x: Exchange, reply: string) {
    && x.Responded? && x.answer.Json?
    && (|| x.answer.choices == Some(Content(reply))
        || x.answer.result == Some(reply)
        || x.answer.completion == Some(reply))
  }

  /** The reply is one of the answer's texts, or an error text starting with the cross mark. */
  lemma ReplyFromAnswerOrError(x: Exchange)
    ensures FromAnswer(x, ReplyText(x)) || StartsWith(ReplyText(x), CrossMark)
  {
    match x
    case Raised(e) => FailureMarked(" Exception occurred: " + e);
    case Responded(ok, status, body, answer) =>
      if !ok {
        FailureMarked(" LLM Error " + NatToString(status) + ": " + body);
      } else if answer.NotJson? {
        FailureMarked(" Exception occurred: " + answer.error);
      } else if answer.choices.Some? && answer.choices.value.LookupError? {
        FailureMarked(" Exception occurred: " + answer.choices.value.error);
      } else if answer == Json(None, None, None) {
        FailureMarked(" Unexpected API response structure.");
      }
  }

  /** A `choices` key whose lookup fails ends in the exception reply, even
      when `result` or `completion` is present: the `elif` branches are
      never reached. */
  lemma ChoicesLookupFailureIsException(status: nat, body: string, error: string, result: Option<string>, completion: Option<string>)
    ensures ReplyText(Responded(true, status, body, Json(Some(LookupError(error)), result, completion)))
            == ExceptionReply(error)
    ensures StartsWith(ReplyText(Responded(true, status, body, Json(Some(LookupError(error)), result, completion))), CrossMark)
  {
    FailureMarked(" Exception occurred: " + error);
  }

  lemma FailureMarked(detail: string)
    ensures StartsWith(Failure(detail), CrossMark)
  {
    assert (CrossMark + detail)[..|CrossMark|] == CrossMark;
  }
}
