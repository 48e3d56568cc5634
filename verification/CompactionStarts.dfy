/** Exactly when tasks start: the guards, the cut that is asked for, and what restoring a session does to both. */
module CompactionStarts {
  import opened Options
  import opened Helpers
  import opened Messages
  import opened SafeCutoffs
  import opened Compaction
  import opened CompactionRuns
  import opened CompactionCoverage

  // ---------- the cut asked for ----------

  /** By recency the cut keeps the recent turns, as long as there are more. */
  lemma RecencyCut(n: nat)
    ensures n > RECENT_TURNS_TO_KEEP ==> n - WantedCut(n, ByRecency) == RECENT_TURNS_TO_KEEP
    ensures n <= RECENT_TURNS_TO_KEEP ==> WantedCut(n, ByRecency) == 0
  {
  }

  /** The earliest relevant message before the recent turns is number `first`, and it is not among the first two. */
  ghost predicate MovesTo(n: nat, relevant: nat -> bool, first: nat) {
    && 2 <= first && first + RECENT_TURNS_TO_KEEP < n
    && relevant(first) && forall j: nat :: j < first ==> !relevant(j)
  }

  /** By relevance the cut stops at that message if the goal is known and there is one, and is by recency if not. */
  lemma RelevanceCut(n: nat, goalKnown: bool, relevant: nat -> bool, first: nat)
    ensures goalKnown && MovesTo(n, relevant, first) ==> WantedCut(n, ByRelevance(goalKnown, relevant)) == first
    ensures (goalKnown ==> forall k :: !MovesTo(n, relevant, k)) ==>
      WantedCut(n, ByRelevance(goalKnown, relevant)) == WantedCut(n, ByRecency)
  {
    var standard := Minus(n, RECENT_TURNS_TO_KEEP);
    var r := FirstRelevant(relevant, standard);
    if goalKnown && MovesTo(n, relevant, first) {
      assert r == first;
    } else if goalKnown && r < standard && r >= 2 {
      assert MovesTo(n, relevant, r);
    }
  }

  // ---------- one step ----------

  /** There is something to cut that keeps the recent turns and no result without its call. */
  predicate CanCut(x: Session, mode: CutMode) {
    var active := Active(x.st, x.history);
    |active| > RECENT_TURNS_TO_KEEP && SafeCutoff(active, WantedCut(|active|, mode)) > 0
  }

  lemma StartsIff(env: Env, x: Session, wanted: bool, mode: CutMode)
    ensures Next(env, x, Start(wanted, mode)).st.pending.Some? <==>
      x.st.pending.Some? || (!x.st.suppress && wanted && CanCut(x, mode))
  {
  }

  /** A manual start looks neither at suppression nor at the mode; each refusal has its own reason, in this order. */
  lemma ForceStartsIff(env: Env, x: Session, usageHigh: bool)
    ensures var (st, r) := Compaction.Force(x.st, x.history, usageHigh);
      && st == Next(env, x, Op.Force(usageHigh)).st
      && (r.InProgress? <==> x.st.pending.Some?)
      && (r.TooFewMessages? <==> x.st.pending.None? && |Active(x.st, x.history)| <= RECENT_TURNS_TO_KEEP)
      && (r.UsageTooLow? <==> x.st.pending.None? && |Active(x.st, x.history)| > RECENT_TURNS_TO_KEEP && !usageHigh)
      && (r.Started? <==> x.st.pending.None? && usageHigh && CanCut(x, ByRecency))
      && (r.Started? || r.InProgress? <==> st.pending.Some?)
  {
  }

  /** The combined check reports the cut if there was one, else whether it started a task. */
  lemma CheckReports(env: Env, x: Session, wanted: bool, mode: CutMode, critical: bool)
    ensures var (st, action) := EnsureFits(env, x.st, x.history, wanted, mode, critical);
      && (action.BackgroundStarted? ==> x.st.pending.None? && st.pending.Some?)
      && (action.NoAction? ==> st == x.st)
      && (action.HardCompacted? ==>
            critical && action.dropped > 0 && st.compactedCount == x.st.compactedCount + action.dropped)
  {
    HardCompactCutsAway(env, MaybeStart(x.st, x.history, wanted, mode), x.history);
  }

  /** Whatever was suppressed, after a new message a task starts exactly when there is something to cut. */
  lemma AppendEndsSuppression(env: Env, x: Session, m: Message) returns (y: Session)
    requires x.st.pending.None?
    ensures y == Next(env, x, Append(m))
    ensures var active := Active(y.st, y.history);
      Next(env, y, Start(true, ByRecency)).st.pending.Some? <==>
        |active| > RECENT_TURNS_TO_KEEP && SafeCutoff(active, |active| - RECENT_TURNS_TO_KEEP) > 0
  {
    y := Next(env, x, Append(m));
    StartsIff(env, y, true, ByRecency);
    RecencyCut(|Active(y.st, y.history)|);
  }

  /** So also in a session that was left and reopened. */
  lemma ReopenedStartsIff(env: Env, x: Session, m: Message) returns (y: Session)
    ensures y == Next(env, Run(env, x, Comeback()), Append(m))
    ensures var active := Active(y.st, y.history);
      Next(env, y, Start(true, ByRecency)).st.pending.Some? <==>
        |active| > RECENT_TURNS_TO_KEEP && SafeCutoff(active, |active| - RECENT_TURNS_TO_KEEP) > 0
  {
    RunTwo(env, x, Reload, Discard);
    var reopened := ReloadChanges(x, env);
    var z := DiscardChanges(reopened, env);
    y := AppendEndsSuppression(env, z, m);
  }

  // ---------- over runs ----------

  predicate HasAppend(ops: seq<Op>) {
    ops != [] && (ops[|ops| - 1].Append? || HasAppend(ops[..|ops| - 1]))
  }

  /** The last message came before the last reload or provider-made compaction. */
  predicate Unchanged(ops: seq<Op>) {
    ops != [] &&
      var front, last := ops[..|ops| - 1], ops[|ops| - 1];
      if last.Append? then false
      else if last.Reload? || last.Native? then HasAppend(front)
      else Unchanged(front)
  }

  lemma StepSuppression(env: Env, x: Session, op: Op)
    ensures op.Append? ==> !Next(env, x, op).st.suppress && Next(env, x, op).history != []
    ensures op.Reload? || op.Native? ==> (Next(env, x, op).st.suppress <==> x.history != [])
    ensures !op.Append? && !op.Reload? && !op.Native? ==> Next(env, x, op).st.suppress == x.st.suppress
    ensures !op.Append? ==> Next(env, x, op).history == x.history
  {
    var y, c := NextChanges(env, x, op);
  }

  /** Automatic starts are suppressed exactly while nothing was appended since the last reopening. */
  lemma {:induction false} SuppressedIff(env: Env, ops: seq<Op>) returns (x: Session)
    ensures x == Run(env, Fresh(), ops)
    ensures (x.history != [] <==> HasAppend(ops)) && (x.st.suppress <==> Unchanged(ops))
    decreases |ops|
  {
    if ops == [] {
      x := Fresh();
    } else {
      var front, last := ops[..|ops| - 1], ops[|ops| - 1];
      var before := SuppressedIff(env, front);
      assert ops == front + [last];
      RunConcat(env, Fresh(), front, [last]);
      RunOne(env, before, last);
      StepSuppression(env, before, last);
      x := Next(env, before, last);
    }
  }

  /** Over all runs: exactly when an automatic start leaves a task pending. */
  lemma RunStartsIff(env: Env, ops: seq<Op>, wanted: bool, mode: CutMode) returns (x: Session)
    ensures x == Run(env, Fresh(), ops)
    ensures Next(env, x, Start(wanted, mode)).st.pending.Some? <==>
      x.st.pending.Some? || (!Unchanged(ops) && wanted && CanCut(x, mode))
  {
    x := SuppressedIff(env, ops);
    StartsIff(env, x, wanted, mode);
  }

  // ---------- token estimates ----------

  /** A quarter of the characters, the overhead for large budgets, and never less than what was observed. */
  lemma TokensAre(env: Env, s: State, all: seq<Message>, chars: nat, rest: nat)
    requires SummaryChars(s.summary) + ActiveChars(env, s, all) == 4 * chars + rest && rest < 4
    ensures var estimate := chars + if s.budget >= 100_000 then 18_000 else 0;
      && EffectiveTokens(env, s, all) >= estimate
      && (s.observed.Some? ==> EffectiveTokens(env, s, all) >= s.observed.value)
      && (EffectiveTokens(env, s, all) == estimate || s.observed == Some(EffectiveTokens(env, s, all)))
  {
  }

  // ---------- the summary in a request ----------

  /** A request starts with one user message: the payload if there is one, else the framed text. */
  lemma SummaryMessageIs(env: Env, m: Summary)
    ensures SummaryMessage(env, m).role.User? && |SummaryMessage(env, m).content| == 1
    ensures var block := SummaryMessage(env, m).content[0];
      && (block.OpenAICompaction? <==> m.encrypted.Some?)
      && (block.OpenAICompaction? ==> Some(block.encryptedContent) == m.encrypted)
      && (!block.OpenAICompaction? ==> block == Text(env.summaryBlock(m.text)))
  {
  }

  /** After the provider's own compaction the summary is its payload, or a notice when that cannot be resent. */
  lemma NativeSummary(env: Env, x: Session, encrypted: string, count: nat, budget: nat)
    ensures var st := Next(env, x, Native(encrypted, count, budget)).st;
      && st.summary.Some? && var m := st.summary.value;
      && m.coversUpToTurn == count && m.originalTurnCount == count && st.budget == budget
      && (Sendable(encrypted) ==> m.encrypted == Some(encrypted) && m.text == "")
      && (!Sendable(encrypted) ==> m.encrypted.None? && m.text == env.fallback(|encrypted|))
  {
  }

  /** Observed tokens are forgotten exactly when a payload is discarded; nothing else but the summary changes. */
  lemma DiscardForgets(env: Env, s: State)
    ensures var s' := Compaction.Discard(env, s);
      && s' == s.(summary := s'.summary, observed := s'.observed)
      && s'.summary.Some? == s.summary.Some? && (s'.summary.Some? ==> !Oversized(s'.summary.value))
      && (s.summary.Some? && Oversized(s.summary.value) ==> s'.observed.None?)
      && (s.summary.None? || !Oversized(s.summary.value) ==> s' == s)
  {
  }

  /** Discarding an oversized payload keeps what the summary said, and adds a notice unless there is one. */
  lemma DegradedText(env: Env, m: Summary)
    requires Oversized(m)
    ensures var r := Degrade(env, m); var notice := env.fallback(|m.encrypted.value|);
      && r.encrypted.None?
      && (env.isBlank(m.text) ==> r.text == notice)
      && (!env.isBlank(m.text) ==> m.text <= r.text)
      && (!env.isBlank(m.text) && !Contains(m.text, DISCARD_MARKER) ==>
            |notice| <= |r.text| && r.text[|r.text| - |notice|..] == notice)
      && (!env.isBlank(m.text) && Contains(m.text, DISCARD_MARKER) ==> r.text == m.text)
  {
  }
}
