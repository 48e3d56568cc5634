/** The manager itself: fields updated in place, each method tied to the operation it performs. */
module CompactionManagers {
  import opened Options
  import opened Helpers
  import opened Messages
  import opened SafeCutoffs
  import opened Compaction

  class CompactionManager {
    const env: Env
    var compactedCount: nat
    var activeSummary: Option<Summary>
    var activeMessageChars: nat
    var activeMessageCharsDirty: bool
    var pendingTask: Option<Task>
    var pendingCutoff: nat
    var totalTurns: nat
    var suppressUntilNewMessage: bool
    var tokenBudget: nat
    var observedInputTokens: Option<nat>

    /** The fields as one value. */
    function View(): State
      reads this
    {
      State(compactedCount, activeSummary, activeMessageChars, activeMessageCharsDirty, pendingTask,
            pendingCutoff, totalTurns, suppressUntilNewMessage, tokenBudget, observedInputTokens)
    }

    constructor (env: Env)
      ensures View() == NewState() && this.env == env
    {
      this.env := env;
      compactedCount, activeSummary, activeMessageChars, activeMessageCharsDirty := 0, None, 0, false;
      pendingTask, pendingCutoff, totalTurns, suppressUntilNewMessage := None, 0, 0, false;
      tokenBudget, observedInputTokens := DEFAULT_TOKEN_BUDGET, None;
    }

    method NotifyMessageAdded()
      modifies this
      ensures View() == NotifyUnseen(old(View()))
    {
      totalTurns := totalTurns + 1;
      suppressUntilNewMessage := false;
      activeMessageCharsDirty := true;
    }

    method NotifyMessageAddedWith(m: Message)
      modifies this
      ensures View() == Notify(env, old(View()), m)
    {
      totalTurns := totalTurns + 1;
      suppressUntilNewMessage := false;
      activeMessageChars := activeMessageChars + env.messageChars(m);
      activeMessageCharsDirty := false;
    }

    method SeedRestoredMessagesWith(all: seq<Message>)
      modifies this
      ensures View() == Seed(env, old(View()), all)
    {
      totalTurns := |all|;
      suppressUntilNewMessage := all != [];
      activeMessageChars := Chars(env, all);
      activeMessageCharsDirty := false;
    }

    method RestorePersistedStateWith(stored: Stored, all: seq<Message>)
      modifies this
      ensures View() == Restore(env, old(View()), stored, all)
    {
      pendingTask, pendingCutoff, observedInputTokens := None, 0, None;
      totalTurns := |all|;
      compactedCount := Min(stored.compactedCount, |all|);
      activeSummary :=
        Some(Summary(stored.summaryText, stored.encrypted, stored.coversUpToTurn, stored.originalTurnCount));
      suppressUntilNewMessage := |all| > 0;
      activeMessageChars := Chars(env, Active(View(), all));
      activeMessageCharsDirty := false;
    }

    method PersistedState() returns (stored: Option<Stored>)
      ensures stored == Export(View())
    {
      stored := None;
      if activeSummary.Some? {
        var m := activeSummary.value;
        stored := Some(Stored(m.text, m.encrypted, m.coversUpToTurn, m.originalTurnCount, compactedCount));
      }
    }

    method DiscardOversized() returns (changed: bool)
      modifies this
      ensures View() == Discard(env, old(View()))
      ensures changed <==> old(View().summary.Some? && Oversized(View().summary.value))
    {
      changed := activeSummary.Some? && Oversized(activeSummary.value);
      if changed {
        activeSummary := Some(Degrade(env, activeSummary.value));
        observedInputTokens := None;
      }
    }

    /** Scans the old messages for relevant ones; the cut moves back to the earliest of them. */
    method SemanticCutoff(active: seq<Message>, goalKnown: bool, relevant: nat -> bool) returns (cutoff: nat)
      ensures cutoff == WantedCut(|active|, ByRelevance(goalKnown, relevant))
    {
      var standard := Minus(|active|, RECENT_TURNS_TO_KEEP);
      if standard == 0 || !goalKnown {
        return standard;
      }
      var highRelevance, earliest := 0, standard;
      for idx := 0 to standard
        invariant FirstRelevant(relevant, idx) == if highRelevance == 0 then idx else earliest
        invariant highRelevance == 0 ==> earliest == standard
        invariant highRelevance > 0 ==> earliest < idx
      {
        if relevant(idx) {
          highRelevance := highRelevance + 1;
          earliest := Min(earliest, idx);
        }
      }
      if highRelevance == 0 || earliest < 2 {
        return standard;
      }
      return earliest;
    }

    method StartBackground(active: seq<Message>, cutoff: nat)
      requires cutoff <= |active|
      modifies this
      ensures View() ==
        old(View()).(pending := Some(Task(old(activeSummary), active[..cutoff])), pendingCutoff := cutoff)
    {
      pendingCutoff := cutoff;
      pendingTask := Some(Task(activeSummary, active[..cutoff]));
    }

    method MaybeStartCompactionWith(all: seq<Message>, wanted: bool, mode: CutMode)
      modifies this
      ensures View() == MaybeStart(old(View()), all, wanted, mode)
    {
      var active := Active(View(), all);
      if suppressUntilNewMessage || pendingTask.Some? || |active| <= RECENT_TURNS_TO_KEEP || !wanted {
        return;
      }
      var cutoff := Minus(|active|, RECENT_TURNS_TO_KEEP);
      if mode.ByRelevance? {
        cutoff := SemanticCutoff(active, mode.goalKnown, mode.relevant);
      }
      if cutoff == 0 {
        return;
      }
      cutoff := SafeCompactionCutoff(active, cutoff);
      if cutoff != 0 {
        StartBackground(active, cutoff);
      }
    }

    method ForceCompactWith(all: seq<Message>, usageHigh: bool) returns (r: ForceResult)
      modifies this
      ensures (View(), r) == Force(old(View()), all, usageHigh)
    {
      if pendingTask.Some? {
        return InProgress;
      }
      var active := Active(View(), all);
      if |active| <= RECENT_TURNS_TO_KEEP {
        return TooFewMessages;
      }
      if !usageHigh {
        return UsageTooLow;
      }
      var cutoff := SafeCompactionCutoff(active, Minus(|active|, RECENT_TURNS_TO_KEEP));
      if cutoff == 0 {
        return WouldSplitPairs;
      }
      StartBackground(active, cutoff);
      r := Started;
    }

    /** Takes the task's slice off the active part. */
    method PassSlice(all: seq<Message>)
      modifies this
      ensures var s := old(View());
        var moved := s.(pending := None, compactedCount := s.compactedCount + s.pendingCutoff);
        var gone := Chars(env, Active(s, all)[..Min(s.pendingCutoff, |Active(s, all)|)]);
        View() == moved.(activeChars := Minus(ActiveChars(env, moved, all), gone), dirty := false)
    {
      var active := Active(View(), all);
      var compactedChars := Chars(env, active[..Min(pendingCutoff, |active|)]);
      pendingTask := None;
      compactedCount := compactedCount + pendingCutoff;
      activeMessageChars := Minus(ActiveChars(env, View(), all), compactedChars);
      activeMessageCharsDirty := false;
    }

    /** Passes over the task's slice and stores its summary. */
    method ApplyArtifact(all: seq<Message>, a: Artifact)
      modifies this
      ensures View() == Apply(env, old(View()), all, a)
    {
      PassSlice(all);
      activeSummary := Some(Summary(a.text, a.encrypted, a.coversUpToTurn, pendingCutoff));
      var _ := DiscardOversized();
      observedInputTokens := None;
      pendingCutoff := 0;
    }

    method CheckAndApplyCompactionWith(all: seq<Message>, outcome: Outcome)
      modifies this
      ensures View() == Poll(env, old(View()), all, outcome)
    {
      if pendingTask.None? || outcome.NotFinished? {
        return;
      }
      var task := pendingTask.value;
      var result := None;
      if outcome.Finished? {
        result := GenerateArtifact(env, outcome.provider, task.slice, task.existing);
      }
      if result.Some? {
        ApplyArtifact(all, result.value);
      } else {
        pendingTask := None;
        pendingCutoff := 0;
      }
    }

    /** Char total of every suffix of `active`, filled from the back. */
    method SuffixChars(active: seq<Message>) returns (totals: seq<nat>)
      ensures |totals| == |active| + 1
      ensures forall i :: 0 <= i <= |active| ==> totals[i] == Chars(env, active[i..])
    {
      var suffix := new nat[|active| + 1];
      suffix[|active|] := 0;
      var idx := |active|;
      while idx > 0
        invariant 0 <= idx <= |active|
        invariant forall i :: idx <= i <= |active| ==> suffix[i] == Chars(env, active[i..])
      {
        idx := idx - 1;
        assert active[idx..][1..] == active[idx + 1..];
        suffix[idx] := suffix[idx + 1] + env.messageChars(active[idx]);
      }
      totals := suffix[..];
    }

    /** Tries keep-counts from the recent-turn count down by halving until the kept part fits. */
    method FindHardCut(active: seq<Message>) returns (cutoff: nat, keptChars: nat)
      requires |active| > MIN_TURNS_TO_KEEP
      ensures cutoff == HardCut(env, active, tokenBudget)
      ensures keptChars == Chars(env, active[cutoff..])
    {
      var suffix := SuffixChars(active);
      var turnsToKeep := Min(RECENT_TURNS_TO_KEEP, Minus(|active|, 1));
      while true
        invariant MIN_TURNS_TO_KEEP <= turnsToKeep
        invariant HardCut(env, active, tokenBudget) == HardCutFrom(env, active, tokenBudget, turnsToKeep)
        decreases turnsToKeep
      {
        cutoff := SafeCompactionCutoff(active, Minus(|active|, turnsToKeep));
        if cutoff > 0 && suffix[cutoff] / CHARS_PER_TOKEN <= tokenBudget {
          return cutoff, suffix[cutoff];
        }
        if turnsToKeep <= MIN_TURNS_TO_KEEP {
          cutoff := SafeCompactionCutoff(active, Minus(|active|, MIN_TURNS_TO_KEEP));
          return cutoff, suffix[cutoff];
        }
        turnsToKeep := Max(turnsToKeep / 2, MIN_TURNS_TO_KEEP);
      }
    }

    method DropFront(active: seq<Message>, cutoff: nat, keptChars: nat, preTokens: nat)
      requires cutoff <= |active|
      modifies this
      ensures var summary := EmergencySummary(env, old(activeSummary), active[..cutoff], preTokens, old(tokenBudget));
        View() == old(View()).(compactedCount := old(compactedCount) + cutoff, activeChars := keptChars,
                               dirty := false, summary := Some(summary), observed := None)
    {
      activeSummary := Some(EmergencySummary(env, activeSummary, active[..cutoff], preTokens, tokenBudget));
      compactedCount := compactedCount + cutoff;
      activeMessageChars := keptChars;
      activeMessageCharsDirty := false;
      observedInputTokens := None;
    }

    method HardCompactWith(all: seq<Message>) returns (dropped: Option<nat>)
      modifies this
      ensures (View(), dropped) == HardCompact(env, old(View()), all)
    {
      var active := Active(View(), all);
      if |active| <= MIN_TURNS_TO_KEEP {
        return None;
      }
      var preTokens := EffectiveTokens(env, View(), all);
      var cutoff, keptChars := FindHardCut(active);
      if cutoff == 0 {
        return None;
      }
      DropFront(active, cutoff, keptChars, preTokens);
      dropped := Some(cutoff);
    }

    method EnsureContextFits(all: seq<Message>, wanted: bool, mode: CutMode, critical: bool) returns (action: Action)
      modifies this
      ensures (View(), action) == EnsureFits(env, old(View()), all, wanted, mode, critical)
    {
      var wasCompacting := pendingTask.Some?;
      MaybeStartCompactionWith(all, wanted, mode);
      var started := !wasCompacting && pendingTask.Some?;
      if critical {
        var dropped := HardCompactWith(all);
        if dropped.Some? {
          return HardCompacted(dropped.value);
        }
      }
      action := if started then BackgroundStarted else NoAction;
    }

    method MessagesForApiWith(all: seq<Message>, outcome: Outcome) returns (view: seq<Message>)
      modifies this
      ensures View() == Discard(env, Poll(env, old(View()), all, outcome))
      ensures view == ApiView(env, View(), all)
    {
      CheckAndApplyCompactionWith(all, outcome);
      var _ := DiscardOversized();
      view := Active(View(), all);
      if activeSummary.Some? {
        view := [SummaryMessage(env, activeSummary.value)] + view;
      } else {
        assert [] + view == view;
      }
    }
  }
}
