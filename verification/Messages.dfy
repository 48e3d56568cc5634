/** Conversation messages and the tool-call ids they mention. */
module Messages {
  import opened Options

  datatype Role = User | Assistant

  datatype ContentBlock =
    | Text(text: string)
    | Reasoning(text: string)
    | ToolUse(id: string, name: string, input: string)
    | ToolResult(toolUseId: string, content: string, isError: Option<bool>)
    | Image(data: string)
    | OpenAICompaction(encryptedContent: string)

  datatype Message = Message(role: Role, content: seq<ContentBlock>)

  function BlockUses(blocks: seq<ContentBlock>): set<string> {
    set b | b in blocks && b.ToolUse? :: b.id
  }

  function BlockResults(blocks: seq<ContentBlock>): set<string> {
    set b | b in blocks && b.ToolResult? :: b.toolUseId
  }

  /** Ids of every tool call made in `ms`. */
  function UseIds(ms: seq<Message>): set<string> {
    set m, id | m in ms && id in BlockUses(m.content) :: id
  }

  /** Ids of every tool call answered in `ms`. */
  function ResultIds(ms: seq<Message>): set<string> {
    set m, id | m in ms && id in BlockResults(m.content) :: id
  }

  /** Every tool result in `ms` has its tool call in `ms` as well. */
  predicate SelfContained(ms: seq<Message>) {
    ResultIds(ms) <= UseIds(ms)
  }

  lemma IdsOfConcat(a: seq<Message>, b: seq<Message>)
    ensures UseIds(a + b) == UseIds(a) + UseIds(b)
    ensures ResultIds(a + b) == ResultIds(a) + ResultIds(b)
  {
    forall id ensures id in UseIds(a + b) <==> id in UseIds(a) + UseIds(b) {
      if id in UseIds(a + b) {
        var m :| m in a + b && id in BlockUses(m.content);
        assert m in a || m in b;
      }
      if id in UseIds(a) + UseIds(b) {
        var m :| (m in a || m in b) && id in BlockUses(m.content);
        assert m in a + b;
      }
    }
    forall id ensures id in ResultIds(a + b) <==> id in ResultIds(a) + ResultIds(b) {
      if id in ResultIds(a + b) {
        var m :| m in a + b && id in BlockResults(m.content);
        assert m in a || m in b;
      }
      if id in ResultIds(a) + ResultIds(b) {
        var m :| (m in a || m in b) && id in BlockResults(m.content);
        assert m in a + b;
      }
    }
  }

  lemma IdsOfOne(m: Message)
    ensures UseIds([m]) == BlockUses(m.content)
    ensures ResultIds([m]) == BlockResults(m.content)
  {
    assert m in [m];
  }

  /** Adding a message keeps results with their calls exactly when its own results are answered in reach. */
  lemma SnocSelfContained(before: seq<Message>, kept: seq<Message>, m: Message)
    requires SelfContained(kept) && SelfContained(before + kept)
    ensures SelfContained(kept + [m]) <==> BlockResults(m.content) <= UseIds(kept) + BlockUses(m.content)
    ensures SelfContained(kept + [m]) ==> SelfContained(before + kept + [m])
  {
    IdsOfOne(m);
    IdsOfConcat(kept, [m]);
    IdsOfConcat(before, kept);
    IdsOfConcat(before + kept, [m]);
  }
}
