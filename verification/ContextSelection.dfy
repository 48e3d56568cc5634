/** Choosing which recent messages fit into a prompt for the memory model. */
module ContextSelection {
  import opened Options
  import opened Helpers
  import opened Messages
  import opened TextLines

  const MEMORY_CONTEXT_MAX_CHARS: nat := 8_000
  const MEMORY_CONTEXT_MAX_MESSAGES: nat := 12
  const EXTRACTION_CONTEXT_MAX_MESSAGES: nat := 40
  const EXTRACTION_CONTEXT_MAX_CHARS: nat := 24_000

  function TruncateChars(value: string, maxChars: nat): string {
    value[..Min(|value|, maxChars)]
  }

  /** Truncating keeps the front, and all of it that is allowed. */
  lemma TruncateIs(value: string, maxChars: nat)
    ensures TruncateChars(value, maxChars) <= value
    ensures |TruncateChars(value, maxChars)| == if |value| <= maxChars then |value| else maxChars
  {
  }

  // ---------- one message ----------

  /** The block texts of a message, each followed by a newline; blocks without text are skipped. */
  function BlockText(blocks: seq<ContentBlock>, format: ContentBlock -> Option<string>): string {
    if blocks == [] then []
    else
      var text := format(blocks[|blocks| - 1]);
      BlockText(blocks[..|blocks| - 1], format) +
      if text.Some? && text.value != [] then text.value + "\n" else []
  }

  function RoleName(role: Role): string { if role.User? then "User" else "Assistant" }

  /** A message with any text at all becomes a chunk headed by its role. */
  function Chunk(m: Message, format: ContentBlock -> Option<string>): string {
    var body := BlockText(m.content, format);
    if body == [] then [] else RoleName(m.role) + ":\n" + body
  }

  /** Texts of block lists follow each other; one block gives its text and a newline, or nothing without text. */
  lemma {:induction false} BlockTextConcat(a: seq<ContentBlock>, b: seq<ContentBlock>,
                                           format: ContentBlock -> Option<string>)
    ensures BlockText(a + b, format) == BlockText(a, format) + BlockText(b, format)
  {
    if b == [] {
      assert a + b == a;
    } else {
      BlockTextConcat(a, b[..|b| - 1], format);
      assert (a + b)[..|a + b| - 1] == a + b[..|b| - 1];
    }
  }

  lemma BlockTextOne(b: ContentBlock, format: ContentBlock -> Option<string>)
    ensures BlockText([b], format) ==
      if format(b) == None || format(b) == Some("") then "" else format(b).value + "\n"
  {
    assert [b][..0] == [];
  }

  /** A chunk is empty exactly when no block has text; otherwise its head names the role. */
  lemma {:induction false} ChunkIs(m: Message, format: ContentBlock -> Option<string>)
    ensures Chunk(m, format) == [] <==>
      forall i :: 0 <= i < |m.content| ==> format(m.content[i]) == None || format(m.content[i]) == Some("")
    ensures Chunk(m, format) != [] ==>
      Chunk(m, format) == (if m.role.User? then "User:\n" else "Assistant:\n") + BlockText(m.content, format)
  {
    NoTextIff(m.content, format);
  }

  lemma {:induction false} NoTextIff(blocks: seq<ContentBlock>, format: ContentBlock -> Option<string>)
    ensures BlockText(blocks, format) == [] <==>
      forall i :: 0 <= i < |blocks| ==> format(blocks[i]) == None || format(blocks[i]) == Some("")
  {
    if blocks != [] {
      NoTextIff(blocks[..|blocks| - 1], format);
    }
  }

  method FormatMessageContextWith(m: Message, format: ContentBlock -> Option<string>) returns (chunk: string)
    ensures chunk == Chunk(m, format)
  {
    chunk := RoleName(m.role) + ":\n";
    var hasContent := false;
    for i := 0 to |m.content|
      invariant chunk == RoleName(m.role) + ":\n" + BlockText(m.content[..i], format)
      invariant hasContent <==> BlockText(m.content[..i], format) != []
    {
      assert m.content[..i + 1][..i] == m.content[..i];
      var text := format(m.content[i]);
      if text.Some? && text.value != [] {
        hasContent := true;
        chunk := chunk + text.value + "\n";
      }
    }
    assert m.content[..|m.content|] == m.content;
    if !hasContent {
      chunk := "";
    }
  }

  // ---------- the selection ----------

  /** The non-empty chunks of the last `window` messages, in order. */
  function Candidates(messages: seq<Message>, window: nat, chunkOf: Message -> string): seq<string>
    decreases window
  {
    if window == 0 || messages == [] then []
    else
      var chunk := chunkOf(messages[|messages| - 1]);
      Candidates(messages[..|messages| - 1], window - 1, chunkOf) + if chunk == [] then [] else [chunk]
  }

  /** Message `j` is in the window and has a chunk. */
  predicate HasChunk(messages: seq<Message>, window: nat, chunkOf: Message -> string, j: nat) {
    j < |messages| <= j + window && chunkOf(messages[j]) != []
  }

  /** `at` lists the messages in the window with a chunk, in order, and `chunks` are theirs. */
  ghost predicate ListsChunks(messages: seq<Message>, window: nat, chunkOf: Message -> string,
                              at: seq<nat>, chunks: seq<string>) {
    && Rising(at) && |at| == |chunks|
    && (forall k :: 0 <= k < |at| ==>
          HasChunk(messages, window, chunkOf, at[k]) && chunks[k] == chunkOf(messages[at[k]]))
    && (forall j: nat :: HasChunk(messages, window, chunkOf, j) ==> j in at)
  }

  lemma ListsOneMore(messages: seq<Message>, m: Message, window: nat, chunkOf: Message -> string,
                     at: seq<nat>, chunks: seq<string>) returns (at': seq<nat>, chunks': seq<string>)
    requires ListsChunks(messages, window, chunkOf, at, chunks)
    ensures chunks' == chunks + if chunkOf(m) == [] then [] else [chunkOf(m)]
    ensures ListsChunks(messages + [m], window + 1, chunkOf, at', chunks')
  {
    at', chunks' := at, chunks;
    if chunkOf(m) != [] {
      at', chunks' := at + [|messages|], chunks + [chunkOf(m)];
    }
    forall j: nat | HasChunk(messages + [m], window + 1, chunkOf, j) ensures j in at' {
      if j < |messages| {
        assert HasChunk(messages, window, chunkOf, j);
      }
    }
    forall k | 0 <= k < |at'|
      ensures HasChunk(messages + [m], window + 1, chunkOf, at'[k])
      ensures chunks'[k] == chunkOf((messages + [m])[at'[k]])
    {
      if k < |at| {
        assert HasChunk(messages, window, chunkOf, at[k]);
      }
    }
  }

  /** The candidates are the chunks of the messages in the window that have one, in the order of the conversation. */
  lemma {:induction false} CandidatesInOrder(messages: seq<Message>, window: nat, chunkOf: Message -> string)
    returns (at: seq<nat>, chunks: seq<string>)
    ensures chunks == Candidates(messages, window, chunkOf) && ListsChunks(messages, window, chunkOf, at, chunks)
    decreases window
  {
    if window == 0 || messages == [] {
      at, chunks := [], [];
    } else {
      var front, m := messages[..|messages| - 1], messages[|messages| - 1];
      at, chunks := CandidatesInOrder(front, window - 1, chunkOf);
      at, chunks := ListsOneMore(front, m, window - 1, chunkOf, at, chunks);
      assert messages == front + [m];
    }
  }

  function Total(chunks: seq<string>): nat {
    if chunks == [] then 0 else |chunks[0]| + Total(chunks[1..])
  }

  /**
   * `chosen` is the longest run of most recent candidates that fits the budget, or the newest one alone cut
   * to the budget when even it does not fit.
   */
  ghost predicate IsSelection(candidates: seq<string>, budget: nat, chosen: seq<string>) {
    if candidates != [] && |candidates[|candidates| - 1]| > budget
    then chosen == [TruncateChars(candidates[|candidates| - 1], budget)]
    else
      && |chosen| <= |candidates| && chosen == candidates[|candidates| - |chosen|..]
      && Total(chosen) <= budget
      && (|chosen| < |candidates| ==> Total(candidates[|candidates| - |chosen| - 1..]) > budget)
  }

  lemma TotalCons(chunk: string, chunks: seq<string>)
    ensures Total([chunk] + chunks) == |chunk| + Total(chunks)
  {
    assert ([chunk] + chunks)[1..] == chunks;
  }

  /** Longer runs only get longer, so nothing beyond the first that does not fit could be added. */
  lemma {:induction false} TotalGrows(chunks: seq<string>, i: nat, j: nat)
    requires i <= j <= |chunks|
    ensures Total(chunks[j..]) <= Total(chunks[i..])
    decreases j - i
  {
    if i < j {
      TotalGrows(chunks, i + 1, j);
      assert chunks[i..] == [chunks[i]] + chunks[i + 1..];
      TotalCons(chunks[i], chunks[i + 1..]);
    }
  }

  /** The selection is the only run with its property: no longer run fits, and every shorter one does. */
  lemma SelectionIsLongest(candidates: seq<string>, budget: nat, chosen: seq<string>, n: nat)
    requires IsSelection(candidates, budget, chosen) && n <= |candidates|
    requires candidates != [] ==> |candidates[|candidates| - 1]| <= budget
    ensures Total(candidates[|candidates| - n..]) <= budget <==> n <= |chosen|
  {
    if n <= |chosen| {
      TotalGrows(candidates, |candidates| - |chosen|, |candidates| - n);
    } else {
      TotalGrows(candidates, |candidates| - n, |candidates| - |chosen| - 1);
    }
  }

  /** Where the backward loop stands: `later` are the chunks chosen so far, `earlier` those still to come. */
  ghost predicate Walking(candidates: seq<string>, earlier: seq<string>, later: seq<string>, total: nat, budget: nat) {
    && candidates == earlier + later
    && total == Total(later) <= budget
    && (total == 0 <==> later == [])
  }

  lemma TakeOne(candidates: seq<string>, earlier: seq<string>, chunk: string, later: seq<string>,
                total: nat, budget: nat)
    requires Walking(candidates, earlier + [chunk], later, total, budget)
    requires chunk != [] && total + |chunk| <= budget
    ensures Walking(candidates, earlier, [chunk] + later, total + |chunk|, budget)
  {
    TotalCons(chunk, later);
  }

  /** Stopping at a chunk that does not fit leaves a selection. */
  lemma StopHere(candidates: seq<string>, earlier: seq<string>, chunk: string, later: seq<string>,
                 total: nat, budget: nat)
    requires Walking(candidates, earlier + [chunk], later, total, budget) && total + |chunk| > budget
    ensures IsSelection(candidates, budget, if total == 0 then [TruncateChars(chunk, budget)] else later)
  {
    if later == [] {
      assert candidates[|candidates| - 1] == chunk;
    } else {
      LastAtMostTotal(later);
      assert candidates[|candidates| - 1] == later[|later| - 1];
      assert candidates[|candidates| - |later|..] == later;
      assert candidates[|candidates| - |later| - 1..] == [chunk] + later;
      TotalCons(chunk, later);
    }
  }

  lemma {:induction false} LastAtMostTotal(chunks: seq<string>)
    requires chunks != []
    ensures |chunks[|chunks| - 1]| <= Total(chunks)
  {
    if |chunks| > 1 {
      LastAtMostTotal(chunks[1..]);
    }
  }

  /** Nothing left to look at: everything fitted. */
  lemma StopAtStart(candidates: seq<string>, later: seq<string>, total: nat, budget: nat)
    requires Walking(candidates, [], later, total, budget)
    ensures IsSelection(candidates, budget, later)
  {
    assert candidates == later && candidates[0..] == candidates;
    if later != [] {
      LastAtMostTotal(later);
    }
  }

  /** Walks back from the newest message, and stops at the first chunk that does not fit. */
  method SelectChunks(messages: seq<Message>, window: nat, budget: nat, chunkOf: Message -> string)
    returns (chosen: seq<string>)
    ensures IsSelection(Candidates(messages, window, chunkOf), budget, chosen)
  {
    ghost var candidates := Candidates(messages, window, chunkOf);
    ghost var earlier := candidates;
    assert messages[..|messages|] == messages && candidates + [] == candidates;
    chosen := [];
    var total: nat, left: nat, seen: nat := 0, |messages|, 0;
    while left > 0 && seen < window
      invariant left <= |messages| && seen <= window
      invariant earlier == Candidates(messages[..left], window - seen, chunkOf)
      invariant Walking(candidates, earlier, chosen, total, budget)
      decreases left
    {
      earlier := EarlierCandidates(messages, left, window - seen, chunkOf, earlier);
      var chunk := chunkOf(messages[left - 1]);
      left, seen := left - 1, seen + 1;
      if chunk != [] {
        if total + |chunk| > budget {
          StopHere(candidates, earlier, chunk, chosen, total, budget);
          if total == 0 {
            chosen := [TruncateChars(chunk, budget)];
          }
          return;
        }
        TakeOne(candidates, earlier, chunk, chosen, total, budget);
        total := total + |chunk|;
        chosen := [chunk] + chosen;
      }
    }
    StopAtStart(candidates, chosen, total, budget);
  }

  /** `now` are the candidates among the first `left` messages; the newest of these is looked at next. */
  lemma EarlierCandidates(messages: seq<Message>, left: nat, window: nat, chunkOf: Message -> string, now: seq<string>)
    returns (earlier: seq<string>)
    requires 0 < left <= |messages| && window > 0 && now == Candidates(messages[..left], window, chunkOf)
    ensures earlier == Candidates(messages[..left - 1], window - 1, chunkOf)
    ensures var chunk := chunkOf(messages[left - 1]); now == if chunk == [] then earlier else earlier + [chunk]
  {
    earlier := Candidates(messages[..left - 1], window - 1, chunkOf);
    assert messages[..left][..left - 1] == messages[..left - 1];
    assert earlier + [] == earlier;
  }

  // ---------- the text ----------

  function JoinLines(chunks: seq<string>): string { Join(chunks, '\n') }

  /** One separator between each two chunks. */
  function Separators(chunks: seq<string>): nat { if chunks == [] then 0 else |chunks| - 1 }

  lemma {:induction false} JoinLength(chunks: seq<string>)
    ensures |JoinLines(chunks)| == Total(chunks) + Separators(chunks)
  {
    if |chunks| > 1 {
      JoinLength(chunks[1..]);
    } else if chunks != [] {
      assert chunks[1..] == [];
    }
  }

  /** The text is at most the budget, plus one separator between each two chunks. */
  lemma TextWithinBudget(candidates: seq<string>, budget: nat, chosen: seq<string>)
    requires IsSelection(candidates, budget, chosen)
    ensures |JoinLines(chosen)| <= budget + Separators(chosen)
  {
    JoinLength(chosen);
    if candidates != [] && |candidates[|candidates| - 1]| > budget {
      TotalCons(chosen[0], []);
      assert chosen == [chosen[0]] + [];
    }
  }

  /** Chunks as the formatters make them. */
  function Chunks(format: ContentBlock -> Option<string>): Message -> string {
    m => Chunk(m, format)
  }

  /** `text` shows a selection, trimmed, and keeps to the budget but for the separators. */
  ghost predicate IsContext(candidates: seq<string>, budget: nat, text: string) {
    exists chosen :: IsSelection(candidates, budget, chosen)
      && text == Trim(JoinLines(chosen)) && |text| <= budget + Separators(chosen)
  }

  lemma ShowsSelection(candidates: seq<string>, budget: nat, chosen: seq<string>)
    requires IsSelection(candidates, budget, chosen)
    ensures IsContext(candidates, budget, Trim(JoinLines(chosen)))
  {
    TextWithinBudget(candidates, budget, chosen);
    TrimIsTrimmed(JoinLines(chosen));
  }

  method FormatContextForRelevance(messages: seq<Message>, format: ContentBlock -> Option<string>)
    returns (text: string)
    ensures IsContext(Candidates(messages, MEMORY_CONTEXT_MAX_MESSAGES, Chunks(format)), MEMORY_CONTEXT_MAX_CHARS, text)
  {
    var chunks := SelectChunks(messages, MEMORY_CONTEXT_MAX_MESSAGES, MEMORY_CONTEXT_MAX_CHARS, Chunks(format));
    ShowsSelection(Candidates(messages, MEMORY_CONTEXT_MAX_MESSAGES, Chunks(format)), MEMORY_CONTEXT_MAX_CHARS, chunks);
    text := Trim(JoinLines(chunks));
  }

  method FormatContextForExtraction(messages: seq<Message>, format: ContentBlock -> Option<string>)
    returns (text: string)
    ensures IsContext(Candidates(messages, EXTRACTION_CONTEXT_MAX_MESSAGES, Chunks(format)),
                      EXTRACTION_CONTEXT_MAX_CHARS, text)
  {
    var chunks := SelectChunks(messages, EXTRACTION_CONTEXT_MAX_MESSAGES, EXTRACTION_CONTEXT_MAX_CHARS, Chunks(format));
    ShowsSelection(Candidates(messages, EXTRACTION_CONTEXT_MAX_MESSAGES, Chunks(format)),
                   EXTRACTION_CONTEXT_MAX_CHARS, chunks);
    text := Trim(JoinLines(chunks));
  }
}
