/**
 * The state a compaction manager keeps about a message list it does not own, and what
 * each of its operations does to that state.
 */
module Compaction {
  import opened Options
  import opened Helpers
  import opened Messages
  import opened SafeCutoffs

  const RECENT_TURNS_TO_KEEP: nat := 10
  const MIN_TURNS_TO_KEEP: nat := 2
  const CHARS_PER_TOKEN: nat := 4
  const SYSTEM_OVERHEAD_TOKENS: nat := 18_000
  const DEFAULT_TOKEN_BUDGET: nat := 200_000
  const COMPACTION_PERCENT: nat := 80
  const CRITICAL_PERCENT: nat := 95
  const ENCRYPTED_SAFE_MAX_CHARS: nat := 9_500_000
  const DISCARD_MARKER: string := "OpenAI native compaction state was discarded"

  datatype Summary = Summary(text: string, encrypted: Option<string>, coversUpToTurn: nat, originalTurnCount: nat)

  datatype Artifact = Artifact(text: string, encrypted: Option<string>, coversUpToTurn: nat)

  datatype NativeReply = NativeReply(text: Option<string>, encrypted: Option<string>)

  /** One provider, as compaction sees it: a native endpoint that may fail, and a plain completion. */
  datatype Provider = Provider(
    native: (seq<Message>, Option<string>, Option<string>) -> Option<NativeReply>,
    complete: (seq<Message>, Option<Summary>) -> Option<string>)

  /** Text-level facts the manager relies on but does not decide. */
  datatype Env = Env(
    messageChars: Message -> nat,
    isBlank: string -> bool,
    fallback: nat -> string,
    emergency: (Option<string>, nat, nat, nat, seq<Message>) -> string,
    summaryBlock: string -> string)

  datatype Task = Task(existing: Option<Summary>, slice: seq<Message>)

  datatype Outcome = NotFinished | Finished(provider: Provider) | Panicked

  datatype Stored = Stored(summaryText: string, encrypted: Option<string>, coversUpToTurn: nat,
                           originalTurnCount: nat, compactedCount: nat)

  datatype State = State(
    compactedCount: nat,
    summary: Option<Summary>,
    activeChars: nat,
    dirty: bool,
    pending: Option<Task>,
    pendingCutoff: nat,
    totalTurns: nat,
    suppress: bool,
    budget: nat,
    observed: Option<nat>)

  /** How a background cut is chosen: by recency, or by which messages look relevant to the goal. */
  datatype CutMode = ByRecency | ByRelevance(goalKnown: bool, relevant: nat -> bool)

  function Minus(a: nat, b: nat): nat { if a < b then 0 else a - b }

  // ---------- char totals and token estimates ----------

  function Chars(env: Env, ms: seq<Message>): nat {
    if ms == [] then 0 else env.messageChars(ms[0]) + Chars(env, ms[1..])
  }

  lemma {:induction false} CharsConcat(env: Env, a: seq<Message>, b: seq<Message>)
    ensures Chars(env, a + b) == Chars(env, a) + Chars(env, b)
  {
    if a == [] {
      assert a + b == b;
    } else {
      CharsConcat(env, a[1..], b);
      assert (a + b)[1..] == a[1..] + b;
    }
  }

  function Active(s: State, all: seq<Message>): seq<Message> {
    if s.compactedCount <= |all| then all[s.compactedCount..] else all
  }

  function ActiveCount(s: State): nat { Minus(s.totalTurns, s.compactedCount) }

  function ActiveChars(env: Env, s: State, all: seq<Message>): nat {
    if s.dirty || ActiveCount(s) != |Active(s, all)| then Chars(env, Active(s, all)) else s.activeChars
  }

  function SummaryChars(summary: Option<Summary>): nat {
    match summary
    case None => 0
    case Some(m) => if m.encrypted.Some? then |m.encrypted.value| else |m.text|
  }

  function EstimateTokens(chars: nat, budget: nat): nat {
    chars / CHARS_PER_TOKEN + if budget >= DEFAULT_TOKEN_BUDGET / 2 then SYSTEM_OVERHEAD_TOKENS else 0
  }

  function EffectiveTokens(env: Env, s: State, all: seq<Message>): nat {
    Max(EstimateTokens(SummaryChars(s.summary) + ActiveChars(env, s, all), s.budget),
        if s.observed.Some? then s.observed.value else 0)
  }

  /** The context is at least `percent` full. */
  predicate UsageAtLeast(env: Env, s: State, all: seq<Message>, percent: nat) {
    var tokens := EffectiveTokens(env, s, all);
    if s.budget == 0 then tokens > 0 else tokens * 100 >= percent * s.budget
  }

  // ---------- summaries ----------

  predicate Sendable(encrypted: string) { |encrypted| <= ENCRYPTED_SAFE_MAX_CHARS }

  predicate OccursAt(text: string, part: string, i: nat) {
    i + |part| <= |text| && text[i..i + |part|] == part
  }

  predicate Contains(text: string, part: string) {
    exists i: nat :: i <= |text| && OccursAt(text, part, i)
  }

  predicate Oversized(m: Summary) { m.encrypted.Some? && !Sendable(m.encrypted.value) }

  /** An oversized native payload is replaced by a text notice. */
  function Degrade(env: Env, m: Summary): (r: Summary)
    ensures !Oversized(r)
    ensures r.coversUpToTurn == m.coversUpToTurn && r.originalTurnCount == m.originalTurnCount
  {
    if !Oversized(m) then m
    else
      var fallback := env.fallback(|m.encrypted.value|);
      var text := if env.isBlank(m.text) then fallback
                  else if Contains(m.text, DISCARD_MARKER) then m.text
                  else m.text + "\n\n" + fallback;
      m.(encrypted := None, text := text)
  }

  function DegradeIfAny(env: Env, summary: Option<Summary>): Option<Summary> {
    if summary.Some? then Some(Degrade(env, summary.value)) else None
  }

  /** Native compaction when it answers with a payload small enough to resend, else a text summary. */
  function GenerateArtifact(env: Env, p: Provider, slice: seq<Message>, existing: Option<Summary>)
    : (r: Option<Artifact>)
    ensures r.Some? && r.value.encrypted.Some? ==> Sendable(r.value.encrypted.value)
  {
    var prior := DegradeIfAny(env, existing);
    var native := p.native(slice, if prior.Some? then Some(prior.value.text) else None,
                           if prior.Some? then prior.value.encrypted else None);
    if native.Some? && (native.value.encrypted.Some? ==> Sendable(native.value.encrypted.value)) then
      Some(Artifact(if native.value.text.Some? then native.value.text.value else "", native.value.encrypted, |slice|))
    else
      match p.complete(slice, prior)
      case Some(text) => Some(Artifact(text, None, |slice|))
      case None => None
  }

  /** A payload that turns oversized while a task is running does not change what the task returns. */
  lemma DegradeInFlightIsInvisible(env: Env, p: Provider, slice: seq<Message>, existing: Option<Summary>)
    ensures DegradeIfAny(env, DegradeIfAny(env, existing)) == DegradeIfAny(env, existing)
    ensures GenerateArtifact(env, p, slice, DegradeIfAny(env, existing)) == GenerateArtifact(env, p, slice, existing)
  {
    if existing.Some? {
      assert !Oversized(Degrade(env, existing.value));
    }
  }

  // ---------- choosing a cut ----------

  /** Index of the first relevant message before `n`, or `n`. */
  function FirstRelevant(relevant: nat -> bool, n: nat): (r: nat)
    ensures r <= n
    ensures r < n ==> relevant(r)
    ensures forall j: nat :: j < r ==> !relevant(j)
  {
    if n == 0 then 0
    else
      var r := FirstRelevant(relevant, n - 1);
      if r < n - 1 || relevant(n - 1) then r else n
  }

  /** Cut wanted by the mode, before tool pairs are considered. */
  function WantedCut(activeLen: nat, mode: CutMode): (cut: nat)
    ensures cut <= Minus(activeLen, RECENT_TURNS_TO_KEEP)
  {
    var standard := Minus(activeLen, RECENT_TURNS_TO_KEEP);
    match mode
    case ByRecency => standard
    case ByRelevance(goalKnown, relevant) =>
      if standard == 0 || !goalKnown then standard
      else
        var first := FirstRelevant(relevant, standard);
        if first == standard || first < 2 then standard else first
  }

  function BackgroundCut(active: seq<Message>, mode: CutMode): (cut: nat)
    ensures cut <= Minus(|active|, RECENT_TURNS_TO_KEEP)
  {
    SafeCutoff(active, WantedCut(|active|, mode))
  }

  /** The kept part starting at `cut` fits the budget by the char estimate. */
  predicate Fits(env: Env, active: seq<Message>, budget: nat, cut: nat)
    requires cut <= |active|
  {
    cut > 0 && Chars(env, active[cut..]) / CHARS_PER_TOKEN <= budget
  }

  /** The safe cut that keeps at least `keep` messages. */
  function CutKeeping(active: seq<Message>, keep: nat): (cut: nat)
    ensures cut <= Minus(|active|, keep)
  {
    SafeCutoff(active, Minus(|active|, keep))
  }

  /** Keep-counts an emergency cut tries, from `keep` down by halving to the minimum. */
  function Ladder(keep: nat): (ks: seq<nat>)
    requires keep >= MIN_TURNS_TO_KEEP
    ensures |ks| > 0
    decreases keep
  {
    if keep == MIN_TURNS_TO_KEEP then [keep] else [keep] + Ladder(Max(keep / 2, MIN_TURNS_TO_KEEP))
  }

  /** The ladder starts at `keep`, strictly falls, never below the minimum, and ends there. */
  lemma {:induction false} LadderFalls(keep: nat)
    requires keep >= MIN_TURNS_TO_KEEP
    ensures var ks := Ladder(keep);
      && ks[0] == keep && ks[|ks| - 1] == MIN_TURNS_TO_KEEP
      && (forall i, j :: 0 <= i < j < |ks| ==> ks[i] > ks[j])
      && (forall i :: 0 <= i < |ks| ==> MIN_TURNS_TO_KEEP <= ks[i] <= keep)
    decreases keep
  {
    if keep != MIN_TURNS_TO_KEEP {
      var rest := Ladder(Max(keep / 2, MIN_TURNS_TO_KEEP));
      LadderFalls(Max(keep / 2, MIN_TURNS_TO_KEEP));
      assert Ladder(keep) == [keep] + rest;
    }
  }

  /** The cut for `keep` if it fits or nothing smaller may be kept, else on to half of `keep`. */
  function HardCutFrom(env: Env, active: seq<Message>, budget: nat, keep: nat): (cut: nat)
    requires keep >= MIN_TURNS_TO_KEEP
    ensures cut <= |active|
    decreases keep
  {
    var cut := CutKeeping(active, keep);
    if keep == MIN_TURNS_TO_KEEP || Fits(env, active, budget, cut) then cut
    else HardCutFrom(env, active, budget, Max(keep / 2, MIN_TURNS_TO_KEEP))
  }

  function FirstRung(active: seq<Message>): nat { Min(RECENT_TURNS_TO_KEEP, Minus(|active|, 1)) }

  function HardCut(env: Env, active: seq<Message>, budget: nat): (cut: nat)
    requires |active| > MIN_TURNS_TO_KEEP
    ensures cut <= |active|
  {
    HardCutFrom(env, active, budget, FirstRung(active))
  }

  /** `i` is the rung the emergency cut settles on: the first that fits, or the last one. */
  ghost predicate SettlesOn(env: Env, active: seq<Message>, budget: nat, ks: seq<nat>, i: nat, cut: nat) {
    && i < |ks|
    && cut == CutKeeping(active, ks[i])
    && (Fits(env, active, budget, cut) || i == |ks| - 1)
    && forall j :: 0 <= j < i ==> !Fits(env, active, budget, CutKeeping(active, ks[j]))
  }

  /** One rung higher: nothing changes but that `keep` was tried first and did not fit. */
  lemma SettlesAbove(env: Env, active: seq<Message>, budget: nat, keep: nat, ks: seq<nat>, i: nat, cut: nat)
    requires SettlesOn(env, active, budget, ks, i, cut)
    requires !Fits(env, active, budget, CutKeeping(active, keep))
    ensures SettlesOn(env, active, budget, [keep] + ks, i + 1, cut)
  {
    var all := [keep] + ks;
    forall j | 0 <= j < i + 1 ensures !Fits(env, active, budget, CutKeeping(active, all[j])) {
      if j > 0 {
        assert all[j] == ks[j - 1];
      }
    }
  }

  lemma {:induction false} HardCutSettles(env: Env, active: seq<Message>, budget: nat, keep: nat) returns (i: nat)
    requires keep >= MIN_TURNS_TO_KEEP
    ensures SettlesOn(env, active, budget, Ladder(keep), i, HardCutFrom(env, active, budget, keep))
    decreases keep
  {
    if keep == MIN_TURNS_TO_KEEP || Fits(env, active, budget, CutKeeping(active, keep)) {
      return 0;
    }
    var lower := Max(keep / 2, MIN_TURNS_TO_KEEP);
    var rest := HardCutSettles(env, active, budget, lower);
    SettlesAbove(env, active, budget, keep, Ladder(lower), rest, HardCutFrom(env, active, budget, lower));
    i := rest + 1;
  }

  /** With more than ten messages an emergency cut tries to keep ten, then five, then two. */
  lemma TriesTenFiveTwo(env: Env, active: seq<Message>, budget: nat)
    requires |active| > 10
    ensures var (ten, five, two) :=
        (SafeCutoff(active, |active| - 10), SafeCutoff(active, |active| - 5), SafeCutoff(active, |active| - 2));
      HardCut(env, active, budget) ==
        if ten > 0 && Chars(env, active[ten..]) / 4 <= budget then ten
        else if five > 0 && Chars(env, active[five..]) / 4 <= budget then five
        else two
  {
    assert FirstRung(active) == 10;
    assert HardCutFrom(env, active, budget, 2) == CutKeeping(active, 2);
    assert HardCutFrom(env, active, budget, 5) ==
      if Fits(env, active, budget, CutKeeping(active, 5)) then CutKeeping(active, 5)
      else HardCutFrom(env, active, budget, 2);
  }

  /** With fewer, it starts by keeping all but one. */
  lemma TriesAllButOne(active: seq<Message>)
    requires 2 < |active| <= 10
    ensures FirstRung(active) == |active| - 1
  {
  }

  // ---------- operations ----------

  function NewState(): State {
    State(0, None, 0, false, None, 0, 0, false, DEFAULT_TOKEN_BUDGET, None)
  }

  /** A message was appended and its content is given. */
  function Notify(env: Env, s: State, m: Message): State {
    s.(totalTurns := s.totalTurns + 1, suppress := false,
       activeChars := s.activeChars + env.messageChars(m), dirty := false)
  }

  /** A message was appended but its content is not given. */
  function NotifyUnseen(s: State): State {
    s.(totalTurns := s.totalTurns + 1, suppress := false, dirty := true)
  }

  function Seed(env: Env, s: State, all: seq<Message>): State {
    s.(totalTurns := |all|, suppress := all != [], activeChars := Chars(env, all), dirty := false)
  }

  function Export(s: State): Option<Stored> {
    match s.summary
    case None => None
    case Some(m) => Some(Stored(m.text, m.encrypted, m.coversUpToTurn, m.originalTurnCount, s.compactedCount))
  }

  function Restore(env: Env, s: State, stored: Stored, all: seq<Message>): State {
    var count := Min(stored.compactedCount, |all|);
    State(count,
          Some(Summary(stored.summaryText, stored.encrypted, stored.coversUpToTurn, stored.originalTurnCount)),
          Chars(env, all[count..]), false, None, 0, |all|, |all| > 0, s.budget, None)
  }

  function Discard(env: Env, s: State): State {
    if s.summary.Some? && Oversized(s.summary.value)
    then s.(summary := Some(Degrade(env, s.summary.value)), observed := None)
    else s
  }

  function StartTask(s: State, all: seq<Message>, cut: nat): State
    requires cut <= |Active(s, all)|
  {
    s.(pending := Some(Task(s.summary, Active(s, all)[..cut])), pendingCutoff := cut)
  }

  /** Automatic start; `wanted` is the verdict of the usage and topic heuristics. */
  function MaybeStart(s: State, all: seq<Message>, wanted: bool, mode: CutMode): State {
    var active := Active(s, all);
    if s.suppress || s.pending.Some? || |active| <= RECENT_TURNS_TO_KEEP || !wanted then s
    else
      var cut := BackgroundCut(active, mode);
      if cut == 0 then s else StartTask(s, all, cut)
  }

  datatype ForceResult = Started | InProgress | TooFewMessages | UsageTooLow | WouldSplitPairs

  /** Manual start; `usageHigh` says the context is above the manual minimum. */
  function Force(s: State, all: seq<Message>, usageHigh: bool): (State, ForceResult) {
    var active := Active(s, all);
    if s.pending.Some? then (s, InProgress)
    else if |active| <= RECENT_TURNS_TO_KEEP then (s, TooFewMessages)
    else if !usageHigh then (s, UsageTooLow)
    else
      var cut := BackgroundCut(active, ByRecency);
      if cut == 0 then (s, WouldSplitPairs) else (StartTask(s, all, cut), Started)
  }

  /** A finished task's artifact becomes the summary and its slice leaves the active part. */
  function Apply(env: Env, s: State, all: seq<Message>, a: Artifact): State {
    var moved := s.(pending := None, compactedCount := s.compactedCount + s.pendingCutoff);
    var gone := Chars(env, Active(s, all)[..Min(s.pendingCutoff, |Active(s, all)|)]);
    var m := Summary(a.text, a.encrypted, a.coversUpToTurn, s.pendingCutoff);
    Discard(env, moved.(summary := Some(m), activeChars := Minus(ActiveChars(env, moved, all), gone), dirty := false,
                        observed := None, pendingCutoff := 0))
  }

  function Poll(env: Env, s: State, all: seq<Message>, outcome: Outcome): State {
    if s.pending.None? || outcome.NotFinished? then s
    else
      var a := if outcome.Finished?
               then GenerateArtifact(env, outcome.provider, s.pending.value.slice, s.pending.value.existing)
               else None;
      if a.Some? then Apply(env, s, all, a.value) else s.(pending := None, pendingCutoff := 0)
  }

  function EmergencySummary(env: Env, prior: Option<Summary>, slice: seq<Message>, preTokens: nat, budget: nat)
    : Summary
  {
    Summary(env.emergency(if prior.Some? then Some(prior.value.text) else None, |slice|, preTokens, budget, slice),
            None, |slice|, |slice|)
  }

  /** Emergency cut: `None` when there is nothing that can safely be dropped. */
  function HardCompact(env: Env, s: State, all: seq<Message>): (State, Option<nat>) {
    var active := Active(s, all);
    if |active| <= MIN_TURNS_TO_KEEP then (s, None)
    else
      var cut := HardCut(env, active, s.budget);
      if cut == 0 then (s, None)
      else
        (s.(compactedCount := s.compactedCount + cut,
            activeChars := Chars(env, active[cut..]),
            dirty := false,
            summary := Some(EmergencySummary(env, s.summary, active[..cut], EffectiveTokens(env, s, all), s.budget)),
            observed := None),
         Some(cut))
  }

  datatype Action = NoAction | BackgroundStarted | HardCompacted(dropped: nat)

  /** Before a request: maybe start a task, then cut at once when `critical(state)` says the context is nearly full. */
  function EnsureFits(env: Env, s: State, all: seq<Message>, wanted: bool, mode: CutMode, critical: bool)
    : (State, Action)
  {
    var started := MaybeStart(s, all, wanted, mode);
    var hard := HardCompact(env, started, all);
    if critical && hard.1.Some? then (hard.0, HardCompacted(hard.1.value))
    else (started, if s.pending.None? && started.pending.Some? then BackgroundStarted else NoAction)
  }

  function SummaryMessage(env: Env, m: Summary): Message {
    Message(User, [if m.encrypted.Some? then OpenAICompaction(m.encrypted.value) else Text(env.summaryBlock(m.text))])
  }

  /** What a request is built from. */
  function ApiView(env: Env, s: State, all: seq<Message>): seq<Message> {
    (if s.summary.Some? then [SummaryMessage(env, s.summary.value)] else []) + Active(s, all)
  }

  // ---------- what single operations guarantee ----------

  /**
   * An emergency cut either leaves everything as it was, or advances over a positive number of
   * messages, keeps the minimum, keeps an exact char total, and settles on the first keep-count of the
   * ladder that fits (the last one when none does).
   */
  lemma HardCompactGuarantees(env: Env, s: State, all: seq<Message>) returns (i: nat)
    ensures var active := Active(s, all);
      var (s', r) := HardCompact(env, s, all);
      && (r.None? ==> s' == s)
      && (r.None? <==> |active| <= MIN_TURNS_TO_KEEP || HardCut(env, active, s.budget) == 0)
      && (r.Some? ==>
            && 0 < r.value <= |active| - MIN_TURNS_TO_KEEP
            && s'.compactedCount == s.compactedCount + r.value
            && s'.activeChars == Chars(env, active[r.value..]) && !s'.dirty
            && SelfContained(active[r.value..])
            && SettlesOn(env, active, s.budget, Ladder(FirstRung(active)), i, r.value))
  {
    var active := Active(s, all);
    i := 0;
    if |active| > MIN_TURNS_TO_KEEP {
      var ks := Ladder(FirstRung(active));
      LadderFalls(FirstRung(active));
      i := HardCutSettles(env, active, s.budget, FirstRung(active));
      SafeCutoffIsFurthest(active, Minus(|active|, ks[i]));
    }
  }

  /** What a successful emergency cut of `d` messages leaves behind. */
  ghost predicate CutAway(env: Env, s: State, all: seq<Message>, d: nat, s': State) {
    var active := Active(s, all);
    && 0 < d <= |active| - MIN_TURNS_TO_KEEP
    && SelfContained(active[d..])
    && s' == s.(compactedCount := s.compactedCount + d, activeChars := Chars(env, active[d..]), dirty := false,
                summary := Some(EmergencySummary(env, s.summary, active[..d], EffectiveTokens(env, s, all), s.budget)),
                observed := None)
  }

  lemma HardCompactCutsAway(env: Env, s: State, all: seq<Message>)
    ensures var (s', r) := HardCompact(env, s, all); if r.None? then s' == s else CutAway(env, s, all, r.value, s')
  {
    var i := HardCompactGuarantees(env, s, all);
  }

  /** The summary an emergency cut leaves is text only, and covers exactly the messages cut. */
  lemma EmergencyCovers(env: Env, s: State, all: seq<Message>)
    ensures var (s', r) := HardCompact(env, s, all); r.Some? ==>
      s'.summary.Some? && var m := s'.summary.value;
        m.encrypted.None? && m.coversUpToTurn == r.value && m.originalTurnCount == r.value
  {
    HardCompactCutsAway(env, s, all);
  }

  /** `s'` is `s` with a task for the front of the active part, and what stays behind is safe. */
  ghost predicate StartedSafely(s: State, all: seq<Message>, s': State) {
    && s.pending.None?
    && 0 < s'.pendingCutoff <= |Active(s, all)| - RECENT_TURNS_TO_KEEP
    && s' == s.(pending := Some(Task(s.summary, Active(s, all)[..s'.pendingCutoff])), pendingCutoff := s'.pendingCutoff)
    && SelfContained(Active(s, all)[s'.pendingCutoff..])
  }

  /** Background and manual cuts keep the recent turns and every tool call the kept results need. */
  lemma StartKeepsRecentTurns(s: State, all: seq<Message>, wanted: bool, mode: CutMode, usageHigh: bool)
    ensures var s' := MaybeStart(s, all, wanted, mode); s' == s || (!s.suppress && wanted && StartedSafely(s, all, s'))
    ensures var (s', r) := Force(s, all, usageHigh); if r.Started? then StartedSafely(s, all, s') else s' == s
  {
    var active := Active(s, all);
    SafeCutoffIsFurthest(active, WantedCut(|active|, mode));
    SafeCutoffIsFurthest(active, WantedCut(|active|, ByRecency));
  }

  // ---------- where the incremental char total goes wrong ----------

  /** The total the manager reports is that of a full rescan. */
  predicate TotalExact(env: Env, s: State, all: seq<Message>) {
    ActiveChars(env, s, all) == Chars(env, Active(s, all))
  }

  /** Counting one more message trusts the stored total even when it was marked stale. */
  lemma NotifyExactIff(env: Env, s: State, all: seq<Message>, m: Message)
    requires s.totalTurns == |all| && s.compactedCount <= |all|
    ensures TotalExact(env, Notify(env, s, m), all + [m]) <==> s.activeChars == Chars(env, Active(s, all))
  {
    CharsConcat(env, Active(s, all), [m]);
    assert Active(Notify(env, s, m), all + [m]) == Active(s, all) + [m];
    assert Chars(env, [m]) == env.messageChars(m) by { assert [m][1..] == []; }
  }

  lemma ApplyFields(env: Env, s: State, all: seq<Message>, a: Artifact)
    ensures var s' := Apply(env, s, all, a);
      && s'.compactedCount == s.compactedCount + s.pendingCutoff && s'.totalTurns == s.totalTurns && !s'.dirty
      && s'.activeChars == Minus(ActiveChars(env, s.(compactedCount := s.compactedCount + s.pendingCutoff), all),
                                 Chars(env, Active(s, all)[..Min(s.pendingCutoff, |Active(s, all)|)]))
  {
  }

  /** Applying a task subtracts its slice twice when the total had to be rescanned. */
  lemma ApplyExactIff(env: Env, s: State, all: seq<Message>, a: Artifact)
    requires s.totalTurns == |all| && s.compactedCount + s.pendingCutoff <= |all|
    requires !s.dirty ==> s.activeChars == Chars(env, Active(s, all))
    ensures var gone := Chars(env, Active(s, all)[..s.pendingCutoff]);
      var rest := Chars(env, Active(s, all)[s.pendingCutoff..]);
      TotalExact(env, Apply(env, s, all, a), all) <==> !s.dirty || gone == 0 || rest == 0
  {
    ApplyFields(env, s, all, a);
    var active := Active(s, all);
    assert active == active[..s.pendingCutoff] + active[s.pendingCutoff..];
    CharsConcat(env, active[..s.pendingCutoff], active[s.pendingCutoff..]);
    assert all[s.compactedCount + s.pendingCutoff..] == active[s.pendingCutoff..];
  }

  /** With a trusted exact total, applying a task is a plain move of the front past its slice. */
  ghost predicate Applied(env: Env, s: State, all: seq<Message>, a: Artifact, s': State)
    requires s.compactedCount + s.pendingCutoff <= |all|
  {
    s' == s.(pending := None, pendingCutoff := 0,
             compactedCount := s.compactedCount + s.pendingCutoff,
             activeChars := Chars(env, all[s.compactedCount + s.pendingCutoff..]),
             summary := Some(Summary(a.text, a.encrypted, a.coversUpToTurn, s.pendingCutoff)),
             observed := None)
  }

  lemma ApplyMovesFront(env: Env, s: State, all: seq<Message>, a: Artifact)
    requires s.totalTurns == |all| && s.compactedCount + s.pendingCutoff <= |all|
    requires !s.dirty && s.activeChars == Chars(env, Active(s, all))
    requires a.encrypted.Some? ==> Sendable(a.encrypted.value)
    ensures Applied(env, s, all, a, Apply(env, s, all, a))
  {
    var active := Active(s, all);
    assert active == active[..s.pendingCutoff] + active[s.pendingCutoff..];
    CharsConcat(env, active[..s.pendingCutoff], active[s.pendingCutoff..]);
    assert all[s.compactedCount + s.pendingCutoff..] == active[s.pendingCutoff..];
  }

  // ---------- persistence ----------

  /** Restoring what was exported gives back the same view; nothing is pending afterwards. */
  lemma RestoreUndoesExport(env: Env, s: State, blank: State, all: seq<Message>)
    requires s.summary.Some? && s.compactedCount <= |all|
    ensures var s' := Restore(env, blank, Export(s).value, all);
      && s'.compactedCount == s.compactedCount && s'.summary == s.summary
      && ApiView(env, s', all) == ApiView(env, s, all)
      && ActiveChars(env, s', all) == Chars(env, Active(s, all))
      && s'.pending.None? && s'.pendingCutoff == 0 && (s'.suppress <==> all != [])
  {
    assert all == [] <==> |all| == 0;
  }

  /** Exporting what was restored gives back the record exactly when it does not reach past the messages. */
  lemma ExportUndoesRestoreIff(env: Env, blank: State, stored: Stored, all: seq<Message>)
    ensures Export(Restore(env, blank, stored, all)) == Some(stored) <==> stored.compactedCount <= |all|
  {
  }
}
