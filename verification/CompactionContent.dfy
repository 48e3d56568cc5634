/** What a summary says: with summarisers that write everything down, nothing compacted is ever lost from it. */
module CompactionContent {
  import opened Options
  import opened Messages
  import opened Compaction
  import opened CompactionRuns
  import opened CompactionCoverage

  /** The messages written down one after the other. */
  function Render(one: Message -> string, ms: seq<Message>): string {
    if ms == [] then [] else one(ms[0]) + Render(one, ms[1..])
  }

  lemma {:induction false} RenderConcat(one: Message -> string, a: seq<Message>, b: seq<Message>)
    ensures Render(one, a + b) == Render(one, a) + Render(one, b)
  {
    if a == [] {
      assert a + b == b;
    } else {
      RenderConcat(one, a[1..], b);
      assert (a + b)[1..] == a[1..] + b;
    }
  }

  function OrEmpty(text: Option<string>): string { if text.Some? then text.value else "" }

  function TextOf(summary: Option<Summary>): Option<string> {
    if summary.Some? then Some(summary.value.text) else None
  }

  function PayloadOf(summary: Option<Summary>): Option<string> {
    if summary.Some? then summary.value.encrypted else None
  }

  /** Emergency texts repeat the prior text and add the slice. */
  ghost predicate EmergencyRecords(env: Env, one: Message -> string) {
    forall prior, count, tokens, budget, slice ::
      env.emergency(prior, count, tokens, budget, slice) == OrEmpty(prior) + Render(one, slice)
  }

  /** So do the provider's native endpoint, when it answers, and its completion, which always does. */
  ghost predicate ProviderRecords(p: Provider, one: Message -> string) {
    && (forall slice, text, payload ::
          p.native(slice, text, payload).Some? ==>
            p.native(slice, text, payload).value.text == Some(OrEmpty(text) + Render(one, slice)))
    && (forall slice, prior :: p.complete(slice, prior) == Some(OrEmpty(TextOf(prior)) + Render(one, slice)))
  }

  // ---------- one artifact ----------

  ghost predicate SmallPayload(summary: Option<Summary>) { summary.Some? ==> !Oversized(summary.value) }

  lemma NothingToDegrade(env: Env, summary: Option<Summary>)
    requires SmallPayload(summary)
    ensures DegradeIfAny(env, summary) == summary
  {
  }

  /** The native endpoint is asked with the prior text and payload, and its sendable answer is used as it is. */
  lemma NativeReplyIsUsed(env: Env, p: Provider, slice: seq<Message>, existing: Option<Summary>, reply: NativeReply)
    requires SmallPayload(existing) && p.native(slice, TextOf(existing), PayloadOf(existing)) == Some(reply)
    requires reply.encrypted.Some? ==> Sendable(reply.encrypted.value)
    ensures GenerateArtifact(env, p, slice, existing) == Some(Artifact(OrEmpty(reply.text), reply.encrypted, |slice|))
  {
    NothingToDegrade(env, existing);
  }

  /** Without a sendable native answer the completion decides, asked with the prior summary. */
  lemma CompletionIsUsed(env: Env, p: Provider, slice: seq<Message>, existing: Option<Summary>)
    requires SmallPayload(existing)
    requires var reply := p.native(slice, TextOf(existing), PayloadOf(existing));
      reply.None? || (reply.value.encrypted.Some? && !Sendable(reply.value.encrypted.value))
    ensures var text := p.complete(slice, existing);
      GenerateArtifact(env, p, slice, existing) ==
        if text.Some? then Some(Artifact(text.value, None, |slice|)) else None
  {
    NothingToDegrade(env, existing);
  }

  /** A recording provider adds the slice to what the prior summary says. */
  lemma ArtifactRecords(env: Env, p: Provider, one: Message -> string, slice: seq<Message>, existing: Option<Summary>)
    returns (a: Artifact)
    requires ProviderRecords(p, one) && SmallPayload(existing)
    ensures GenerateArtifact(env, p, slice, existing) == Some(a)
    ensures a.text == OrEmpty(TextOf(existing)) + Render(one, slice) && a.coversUpToTurn == |slice|
    ensures a.encrypted.Some? ==> Sendable(a.encrypted.value)
  {
    var reply := p.native(slice, TextOf(existing), PayloadOf(existing));
    if reply.Some? && (reply.value.encrypted.Some? ==> Sendable(reply.value.encrypted.value)) {
      NativeReplyIsUsed(env, p, slice, existing, reply.value);
    } else {
      CompletionIsUsed(env, p, slice, existing);
    }
    a := GenerateArtifact(env, p, slice, existing).value;
  }

  // ---------- the fold ----------

  /** The summary says exactly what `ms` say. */
  ghost predicate Says(one: Message -> string, summary: Option<Summary>, ms: seq<Message>) {
    OrEmpty(TextOf(summary)) == Render(one, ms) && SmallPayload(summary)
  }

  ghost predicate StepRecords(one: Message -> string, step: Step) {
    !step.Provided? && (step.Background? ==> ProviderRecords(step.provider, one))
  }

  ghost predicate StepsRecord(one: Message -> string, steps: seq<Step>) {
    forall i :: 0 <= i < |steps| ==> StepRecords(one, steps[i])
  }

  lemma StepSays(env: Env, one: Message -> string, prior: Option<Summary>, step: Step, ms: seq<Message>)
    requires EmergencyRecords(env, one) && StepRecords(one, step) && Says(one, prior, ms)
    ensures Says(one, FoldStep(env, prior, step), ms + StepSlice(step))
  {
    RenderConcat(one, ms, StepSlice(step));
    if step.Background? {
      var a := ArtifactRecords(env, step.provider, one, step.slice, prior);
    } else if step.Degraded? {
      NothingToDegrade(env, prior);
      assert ms + [] == ms;
    }
  }

  lemma {:induction false} FoldSays(env: Env, one: Message -> string, steps: seq<Step>)
    requires EmergencyRecords(env, one) && StepsRecord(one, steps)
    ensures Says(one, Fold(env, steps), Slices(steps))
  {
    if steps != [] {
      var front, last := steps[..|steps| - 1], steps[|steps| - 1];
      FoldSays(env, one, front);
      StepSays(env, one, Fold(env, front), last, Slices(front));
    }
  }

  // ---------- runs ----------

  ghost predicate OpRecords(one: Message -> string, op: Op) {
    !op.Native? && (op.Poll? && op.outcome.Finished? ==> ProviderRecords(op.outcome.provider, one))
  }

  ghost predicate OpsRecord(one: Message -> string, ops: seq<Op>) {
    forall i :: 0 <= i < |ops| ==> OpRecords(one, ops[i])
  }

  ghost predicate SessionRecords(one: Message -> string, x: Session) {
    StepsRecord(one, x.prov) && (x.st.pending.Some? ==> StepsRecord(one, x.pendingProv))
  }

  lemma StepsRecordSnoc(one: Message -> string, steps: seq<Step>, step: Step)
    requires StepsRecord(one, steps) && StepRecords(one, step)
    ensures StepsRecord(one, steps + [step])
  {
  }

  lemma ChangeRecords(env: Env, one: Message -> string, x: Session, c: Change, y: Session)
    requires SessionRecords(one, x) && Changes(env, x, c, y) && !c.Replaced?
    requires c.Applied? ==> ProviderRecords(c.provider, one)
    ensures SessionRecords(one, y)
  {
    if c.CutOff? {
      StepsRecordSnoc(one, x.prov, CutStep(env, x, c.count));
    } else if c.Applied? {
      StepsRecordSnoc(one, x.pendingProv, Background(c.provider, x.st.pending.value.slice));
    } else if c.Degrading? {
      StepsRecordSnoc(one, x.prov, Degraded);
    }
  }

  lemma NextRecords(env: Env, one: Message -> string, x: Session, op: Op) returns (y: Session)
    requires SessionRecords(one, x) && OpRecords(one, op)
    ensures y == Next(env, x, op) && SessionRecords(one, y)
  {
    var c;
    y, c := NextChanges(env, x, op);
    ChangeRecords(env, one, x, c, y);
  }

  lemma {:induction false} RunRecords(env: Env, one: Message -> string, x: Session, ops: seq<Op>)
    requires SessionRecords(one, x) && OpsRecord(one, ops)
    ensures SessionRecords(one, Run(env, x, ops))
    decreases |ops|
  {
    if ops != [] {
      var y := NextRecords(env, one, x, ops[0]);
      RunRecords(env, one, y, ops[1..]);
    }
  }

  /**
   * Coverage by content: when every summariser writes everything down, the summary of every run without the success
   * of a task from before a cut says exactly what the compacted front of the history says, and with the active part
   * after it, what the whole history says.
   */
  lemma SummarySaysHistory(env: Env, one: Message -> string, ops: seq<Op>) returns (x: Session)
    requires EmergencyRecords(env, one) && OpsRecord(one, ops) && NoStaleSuccess(env, Fresh(), ops, 0)
    ensures x == Run(env, Fresh(), ops) && x.st.compactedCount <= |x.history|
    ensures OrEmpty(TextOf(x.st.summary)) == Render(one, x.history[..x.st.compactedCount])
    ensures OrEmpty(TextOf(x.st.summary)) + Render(one, Active(x.st, x.history)) == Render(one, x.history)
  {
    var d;
    FreshInv(env);
    x, d := RunKeepsInv(env, Fresh(), ops, 0);
    RunRecords(env, one, Fresh(), ops);
    FoldSays(env, one, x.prov);
    FrontAndActive(one, x);
  }

  lemma FrontAndActive(one: Message -> string, x: Session)
    requires x.st.compactedCount <= |x.history|
    ensures Render(one, x.history[..x.st.compactedCount]) + Render(one, Active(x.st, x.history))
      == Render(one, x.history)
  {
    assert x.history == x.history[..x.st.compactedCount] + Active(x.st, x.history);
    RenderConcat(one, x.history[..x.st.compactedCount], Active(x.st, x.history));
  }
}
