/** `processMessage`: parse the model's reply, run the tool it asks for (or not), and assemble
    the reply for the client. The model is a parameter: `aiResponse` is its first reply, and
    `summarize(toolName, toolResult)` is its second reply, the one asked to summarise a result. */
module Agent {
  import opened Wrappers
  import opened Text
  import opened JsonValues
  import opened Schema
  import opened ResponseParser
  import opened Dispatch
  import StoreImpl

  /** `{ name: toolName, args }`. */
  datatype ToolCall = ToolCall(name: Json, args: Json)

  /** `{ content, toolCalls, toolResults }`. */
  datatype Reply = Reply(content: Json, toolCalls: seq<ToolCall>, toolResults: seq<Outcome>)

  /** A reply together with the store it leaves behind. */
  datatype Turn = Turn(reply: Reply, db: Db)

  /** `parsed && parsed.tool`. */
  predicate IsToolRequest(parsed: Json)
  {
    Truthy(parsed) && Truthy(Field(parsed, "tool"))
  }

  /** `parsed.args || {}`. */
  function ArgsOf(parsed: Json): (r: Json)
    ensures Truthy(r)
    ensures Truthy(Field(parsed, "args")) ==> r == Field(parsed, "args")
    ensures !Truthy(Field(parsed, "args")) ==> r == JObj(map[])
  {
    var a := Field(parsed, "args");
    if Truthy(a) then a else JObj(map[])
  }

  /** `s.replace(/\{[\s\S]*?\}/g, '').trim() || s`: the text without its brace spans and outer
      white space, or the text itself when nothing would be left. */
  function CleanText(s: string): (r: string)
    ensures r == [] <==> s == []
    ensures r != s ==> NoBracePair(r) && !IsJsSpace(r[0]) && !IsJsSpace(r[|r| - 1])
    ensures Trim(StripBraces(s)) != [] ==> r == Trim(StripBraces(s))
    ensures Trim(StripBraces(s)) == [] ==> r == s
  {
    var t := Trim(StripBraces(s));
    if t != [] then
      assert NoBracePair(t) && s != [] by { StrippedTrimIsPairFree(s); }
      t
    else s
  }

  /** Trimming the text left after the brace spans are gone leaves no brace pair. */
  lemma {:induction false} StrippedTrimIsPairFree(s: string)
    ensures NoBracePair(Trim(StripBraces(s)))
    ensures |Trim(StripBraces(s))| <= |s|
  {
    var u := StripBraces(s);
    var t := Trim(u);
    StripLeavesNoPair(s);
    var a, b :| TrimmedAt(u, a, b) && t == u[a..b];
    PairFreeSlice(u, a, b);
  }

  /** A piece of text with no brace pair has none in any part of it. */
  lemma {:induction false} PairFreeSlice(s: string, a: int, b: int)
    requires NoBracePair(s) && 0 <= a <= b <= |s|
    ensures NoBracePair(s[a..b])
  {
    forall i, j | 0 <= i < j < b - a && s[a..b][i] == '{' ensures s[a..b][j] != '}' {
      assert s[a..b][i] == s[a + i] && s[a..b][j] == s[a + j];
    }
  }

  /** Cleaning text that is already clean changes nothing. */
  lemma {:induction false} CleanTextIdempotent(s: string)
    ensures CleanText(CleanText(s)) == CleanText(s)
  {
    var r := CleanText(s);
    if r != s {
      StripKeepsPairFree(r);
      TrimOfTrimmed(r);
    }
  }

  /** `parsed?.response || <cleaned aiResponse>`: a truthy `response` field is the content as
      it is; otherwise the cleaned text, which is empty only when the reply itself is. */
  function PlainContent(parsed: Json, aiResponse: string): (r: Json)
    ensures Truthy(Field(parsed, "response")) ==> r == Field(parsed, "response")
    ensures !Truthy(Field(parsed, "response")) ==> r.JStr? && (r.s == [] <==> aiResponse == [])
    ensures !Truthy(Field(parsed, "response")) ==> r == JStr(CleanText(aiResponse))
    ensures Truthy(r) <==> Truthy(Field(parsed, "response")) || aiResponse != []
  {
    var response := Field(parsed, "response");
    if Truthy(response) then response else JStr(CleanText(aiResponse))
  }

  /** One turn of the conversation: the reply and the store afterwards. */
  function Respond(db: Db, aiResponse: string, parse: string -> Option<Json>,
                   summarize: (Json, Outcome) -> string): (t: Turn)
    ensures |t.reply.toolCalls| == |t.reply.toolResults| <= 1
    ensures t.reply.toolCalls == [] ==> t.db == db
    ensures t.reply.content.JStr? || t.reply.content == Field(ExtractJson(aiResponse, parse), "response")
  {
    var parsed := ExtractJson(aiResponse, parse);
    if IsToolRequest(parsed) then
      var name := Field(parsed, "tool");
      var args := ArgsOf(parsed);
      var d := DispatchSpec(db, name, args);
      Turn(Reply(JStr(CleanText(summarize(name, d.out))), [ToolCall(name, args)], [d.out]), d.db)
    else
      Turn(Reply(PlainContent(parsed, aiResponse), [], []), db)
  }

  /** The shape of every reply: a tool request yields exactly one call, with the outcome of
      dispatching it and the summary as content; anything else runs nothing and leaves the store
      as it was. Either way a consistent store stays consistent. */
  lemma {:induction false} RespondShape(db: Db, aiResponse: string, parse: string -> Option<Json>,
                     summarize: (Json, Outcome) -> string)
    requires Schema.Valid(db)
    ensures var t := Respond(db, aiResponse, parse, summarize);
            var parsed := ExtractJson(aiResponse, parse);
            && Schema.Valid(t.db)
            && |t.reply.toolCalls| == |t.reply.toolResults| <= 1
            && (IsToolRequest(parsed) <==> |t.reply.toolCalls| == 1)
            && (IsToolRequest(parsed) ==>
                  var call := t.reply.toolCalls[0];
                  && call == ToolCall(Field(parsed, "tool"), ArgsOf(parsed))
                  && Dispatched(t.reply.toolResults[0], t.db) == DispatchSpec(db, call.name, call.args)
                  && t.reply.content == JStr(CleanText(summarize(call.name, t.reply.toolResults[0]))))
            && (!IsToolRequest(parsed) ==> t.db == db && t.reply.content == PlainContent(parsed, aiResponse))
  {
    var parsed := ExtractJson(aiResponse, parse);
    if IsToolRequest(parsed) {
      DispatchKeepsValid(db, Field(parsed, "tool"), ArgsOf(parsed));
    }
  }

  /** A reply whose whole text parses to `{"tool": <name>, "args": <args>}` runs that call. */
  lemma {:induction false} ToolRequestRunsCall(db: Db, aiResponse: string, parse: string -> Option<Json>,
                            summarize: (Json, Outcome) -> string, c: Call)
    requires parse(Trim(aiResponse))
             == Some(JObj(map["tool" := JStr(ExportName(ToolExport(ToolOf(c)))), "args" := Encode(c)]))
    ensures var t := Respond(db, aiResponse, parse, summarize);
            && t.reply.toolResults == [Ran(RunSpec(c, db).result)]
            && t.db == RunSpec(c, db).db
  {
    var name := JStr(ExportName(ToolExport(ToolOf(c))));
    var parsed := JObj(map["tool" := name, "args" := Encode(c)]);
    assert ExtractJson(aiResponse, parse) == parsed;
    assert Field(parsed, "tool") == name;
    assert Field(parsed, "args") == Encode(c) && Truthy(Encode(c));
    assert IsToolRequest(parsed);
    assert ArgsOf(parsed) == Encode(c);
    DispatchEncoded(db, c);
    ToolTurn(db, aiResponse, parse, summarize);
  }

  /** The tool branch of a turn: its one result and the new store are those of dispatching
      `parsed.tool` with `parsed.args || {}`. */
  lemma {:induction false} ToolTurn(db: Db, aiResponse: string, parse: string -> Option<Json>,
                 summarize: (Json, Outcome) -> string)
    requires IsToolRequest(ExtractJson(aiResponse, parse))
    ensures var parsed := ExtractJson(aiResponse, parse);
            var d := DispatchSpec(db, Field(parsed, "tool"), ArgsOf(parsed));
            var t := Respond(db, aiResponse, parse, summarize);
            t.reply.toolResults == [d.out] && t.db == d.db
  {
  }

  /** A reply that is not JSON and has no brace pair is passed through, cleaned, as plain text. */
  lemma {:induction false} PlainTextPassesThrough(db: Db, aiResponse: string, parse: string -> Option<Json>,
                               summarize: (Json, Outcome) -> string)
    requires parse(Trim(aiResponse)).None? && NoBracePair(aiResponse)
    ensures Respond(db, aiResponse, parse, summarize)
            == Turn(Reply(JStr(if Trim(aiResponse) != [] then Trim(aiResponse) else aiResponse), [], []), db)
  {
    assert ExtractJson(aiResponse, parse) == JNull;
    StripKeepsPairFree(aiResponse);
    var cleaned := if Trim(aiResponse) != [] then Trim(aiResponse) else aiResponse;
    assert CleanText(aiResponse) == cleaned;
    assert PlainContent(JNull, aiResponse) == JStr(cleaned);
  }

  /** `processMessage` against the live store. */
  method ProcessMessage(store: StoreImpl.Store, aiResponse: string, parse: string -> Option<Json>,
                        summarize: (Json, Outcome) -> string) returns (reply: Reply)
    requires store.Valid()
    modifies store
    ensures store.Valid()
    ensures Turn(reply, store.Snapshot()) == Respond(old(store.Snapshot()), aiResponse, parse, summarize)
  {
    var parsed := ExtractJson(aiResponse, parse);
    if IsToolRequest(parsed) {
      var name := Field(parsed, "tool");
      var args := ArgsOf(parsed);
      var out := Run(store, name, args);
      var summary := summarize(name, out);
      reply := Reply(JStr(CleanText(summary)), [ToolCall(name, args)], [out]);
    } else {
      reply := Reply(PlainContent(parsed, aiResponse), [], []);
    }
  }
}
