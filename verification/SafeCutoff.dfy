/** Choosing where history may be cut without separating a tool result from its call. */
module SafeCutoffs {
  import opened Messages

  /** The furthest self-contained cut that is not past `limit`, or 0 when there is none. */
  function SafeCutoff(ms: seq<Message>, limit: nat): (cut: nat)
    requires limit <= |ms|
    ensures cut <= limit
    decreases limit
  {
    if limit == 0 then 0
    else if SelfContained(ms[limit..]) then limit
    else SafeCutoff(ms, limit - 1)
  }

  /** What the choice means: nothing further back is skipped, nothing further on was possible. */
  lemma {:induction false} SafeCutoffIsFurthest(ms: seq<Message>, limit: nat)
    requires limit <= |ms|
    ensures var cut := SafeCutoff(ms, limit);
      && (cut > 0 ==> SelfContained(ms[cut..]))
      && (SelfContained(ms) ==> SelfContained(ms[cut..]))
      && forall j :: cut < j <= limit ==> !SelfContained(ms[j..])
    decreases limit
  {
    assert ms[0..] == ms;
    if limit != 0 && !SelfContained(ms[limit..]) {
      SafeCutoffIsFurthest(ms, limit - 1);
    }
  }

  /** A cut that is allowed to go further never ends up earlier. */
  lemma {:induction false} SafeCutoffMonotone(ms: seq<Message>, a: nat, b: nat)
    requires a <= b <= |ms|
    ensures SafeCutoff(ms, a) <= SafeCutoff(ms, b)
  {
    SafeCutoffIsFurthest(ms, a);
    SafeCutoffIsFurthest(ms, b);
  }

  /** Scans one message's blocks in order, as both passes of the source do. */
  method ScanBlocks(blocks: seq<ContentBlock>, available0: set<string>, missing0: set<string>)
    returns (available: set<string>, missing: set<string>)
    requires missing0 !! available0
    ensures available == available0 + BlockUses(blocks)
    ensures missing == missing0 + BlockResults(blocks) - available
  {
    available, missing := available0, missing0;
    for i := 0 to |blocks|
      invariant available == available0 + BlockUses(blocks[..i])
      invariant missing == missing0 + BlockResults(blocks[..i]) - available
    {
      var b := blocks[i];
      assert blocks[..i + 1] == blocks[..i] + [b];
      if b.ToolUse? {
        available := available + {b.id};
        missing := missing - {b.id};
        assert BlockUses(blocks[..i + 1]) == BlockUses(blocks[..i]) + {b.id};
        assert BlockResults(blocks[..i + 1]) == BlockResults(blocks[..i]);
      } else if b.ToolResult? {
        if b.toolUseId !in available {
          missing := missing + {b.toolUseId};
        }
        assert BlockUses(blocks[..i + 1]) == BlockUses(blocks[..i]);
        assert BlockResults(blocks[..i + 1]) == BlockResults(blocks[..i]) + {b.toolUseId};
      } else {
        assert BlockUses(blocks[..i + 1]) == BlockUses(blocks[..i]);
        assert BlockResults(blocks[..i + 1]) == BlockResults(blocks[..i]);
      }
    }
    assert blocks[..|blocks|] == blocks;
  }

  /** The two running id sets say exactly which calls and unmatched results `ms` holds. */
  ghost predicate Tracks(ms: seq<Message>, available: set<string>, missing: set<string>) {
    available == UseIds(ms) && missing == ResultIds(ms) - UseIds(ms)
  }

  lemma NothingMissing(ms: seq<Message>, available: set<string>, missing: set<string>)
    requires Tracks(ms, available, missing)
    ensures missing == {} <==> SelfContained(ms)
  {
    assert forall id :: id in ResultIds(ms) && id !in UseIds(ms) ==> id in missing;
  }

  /** Scanning message `m` extends what is tracked, whichever end `m` is added at. */
  lemma ScanExtends(ms: seq<Message>, m: Message, available: set<string>, missing: set<string>,
                    available': set<string>, missing': set<string>)
    requires Tracks(ms, available, missing)
    requires available' == available + BlockUses(m.content)
    requires missing' == missing + BlockResults(m.content) - available'
    ensures Tracks(ms + [m], available', missing')
    ensures Tracks([m] + ms, available', missing')
  {
    IdsOfOne(m);
    IdsOfConcat(ms, [m]);
    IdsOfConcat([m], ms);
  }

  /** First pass: the ids of the kept part, left to right. */
  method ScanKept(ms: seq<Message>) returns (available: set<string>, missing: set<string>)
    ensures Tracks(ms, available, missing)
  {
    available, missing := {}, {};
    for i := 0 to |ms|
      invariant Tracks(ms[..i], available, missing)
    {
      var av, mi := ScanBlocks(ms[i].content, available, missing);
      ScanExtends(ms[..i], ms[i], available, missing, av, mi);
      assert ms[..i + 1] == ms[..i] + [ms[i]];
      available, missing := av, mi;
    }
    assert ms[..|ms|] == ms;
  }

  /** One step of the backward walk: message `idx` joins the kept part. */
  lemma StepBack(ms: seq<Message>, idx: nat, available: set<string>, missing: set<string>,
                 available': set<string>, missing': set<string>)
    requires idx < |ms| && Tracks(ms[idx + 1..], available, missing) && missing != {}
    requires available' == available + BlockUses(ms[idx].content)
    requires missing' == missing + BlockResults(ms[idx].content) - available'
    ensures Tracks(ms[idx..], available', missing')
    ensures SafeCutoff(ms, idx + 1) == SafeCutoff(ms, idx)
  {
    NothingMissing(ms[idx + 1..], available, missing);
    ScanExtends(ms[idx + 1..], ms[idx], available, missing, available', missing');
    assert ms[idx..] == [ms[idx]] + ms[idx + 1..];
  }

  lemma Settled(ms: seq<Message>, idx: nat, available: set<string>)
    requires idx <= |ms| && Tracks(ms[idx..], available, {})
    ensures SafeCutoff(ms, idx) == idx
  {
    NothingMissing(ms[idx..], available, {});
  }

  /** Second pass: grows the kept part towards the front until nothing is missing. */
  method WalkBack(ms: seq<Message>, cutoff: nat, available0: set<string>, missing0: set<string>) returns (idx: nat)
    requires cutoff <= |ms| && Tracks(ms[cutoff..], available0, missing0) && missing0 != {}
    ensures idx == SafeCutoff(ms, cutoff)
  {
    var available, missing := available0, missing0;
    idx := cutoff;
    while idx > 0
      invariant idx <= cutoff && missing != {}
      invariant Tracks(ms[idx..], available, missing)
      invariant SafeCutoff(ms, cutoff) == SafeCutoff(ms, idx)
    {
      idx := idx - 1;
      var av, mi := ScanBlocks(ms[idx].content, available, missing);
      StepBack(ms, idx, available, missing, av, mi);
      available, missing := av, mi;
      if missing == {} {
        Settled(ms, idx, available);
        return;
      }
    }
  }

  /** One forward pass over the kept part, then one backward walk that grows it. */
  method SafeCompactionCutoff(ms: seq<Message>, initialCutoff: nat) returns (cutoff: nat)
    ensures cutoff == SafeCutoff(ms, if initialCutoff < |ms| then initialCutoff else |ms|)
  {
    cutoff := if initialCutoff < |ms| then initialCutoff else |ms|;
    var available, missing := ScanKept(ms[cutoff..]);
    if missing == {} {
      Settled(ms, cutoff, available);
    } else {
      cutoff := WalkBack(ms, cutoff, available, missing);
    }
  }
}
