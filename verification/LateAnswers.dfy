/** How late a valid answer can come when scans store what they read within a given delay. */
module LateAnswers {
  import opened Text
  import opened Lifecycle
  import opened Registry
  import opened Changes
  import opened Staleness
  import opened SplitCalls
  import opened Silence
  import opened Revival

  /** Every scan that lands in these steps read the tables at most delay milliseconds before. */
  ghost predicate PromptRun(sw: SplitWorld, steps: seq<SplitStep>, delay: Time)
    decreases |steps|
  {
    steps != [] ==> PromptStep(sw, steps[0], delay) && PromptRun(NextSplit(sw, steps[0]), steps[1..], delay)
  }

  /** The state after the first of some steps, from which the rest of them and any steps after them go on. */
  lemma PromptHead(sw: SplitWorld, a: seq<SplitStep>, b: seq<SplitStep>, delay: Time) returns (next: SplitWorld)
    requires a != [] && PromptRun(sw, a, delay)
    ensures PromptRun(next, a[1..], delay) && Run(next, a[1..]) == Run(sw, a)
    ensures PromptRun(next, a[1..] + b, delay) ==> PromptRun(sw, a + b, delay)
  {
    next := NextSplit(sw, a[0]);
    assert (a + b)[0] == a[0] && (a + b)[1..] == a[1..] + b;
  }

  lemma {:induction false} PromptConcat(sw: SplitWorld, a: seq<SplitStep>, b: seq<SplitStep>, delay: Time)
    requires PromptRun(sw, a, delay) && PromptRun(Run(sw, a), b, delay)
    ensures PromptRun(sw, a + b, delay)
    decreases |a|
  {
    if a == [] {
      assert a + b == b;
    } else {
      var next := PromptHead(sw, a, b, delay);
      PromptConcat(next, a[1..], b, delay);
    }
  }

  lemma {:induction false} StorelessIsPrompt(sw: SplitWorld, steps: seq<SplitStep>, delay: Time)
    requires forall i | 0 <= i < |steps| :: !steps[i].Store?
    ensures PromptRun(sw, steps, delay)
    decreases |steps|
  {
    if steps != [] {
      StorelessIsPrompt(NextSplit(sw, steps[0]), steps[1..], delay);
    }
  }

  /** After since the tables answer nothing valid, and whatever valid answer is about was read by then. */
  ghost predicate Fading(sw: SplitWorld, id: Id, since: Time, delay: Time) {
    && since <= sw.world.now
    && Shut(sw, id, since + 1, true)
    && (forall k | 0 <= k < |sw.scans| ::
          sw.scans[k].signature.certificationId == id && sw.scans[k].answer.valid ==> sw.scans[k].readAt <= since)
    && (forall s | s in sw.world.cache ::
          s.certificationId == id && sw.world.cache[s].answer.valid ==> sw.world.cache[s].storedAt <= since + delay)
  }

  lemma FadingLookup(sw: SplitWorld, id: Id, since: Time, delay: Time, s: Signature)
    requires Fading(sw, id, since, delay) && s.certificationId == id && Lookup(sw.world, s).valid
    ensures sw.world.now == since
  {
    if sw.world.now > since {
      ShutLookup(sw, id, since + 1, true, s);
    }
  }

  lemma FadingStays(sw: SplitWorld, step: SplitStep, id: Id, since: Time, delay: Time)
    requires Fading(sw, id, since, delay) && Guarded(step) && PromptStep(sw, step, delay)
    ensures Fading(NextSplit(sw, step), id, since, delay)
  {
    var sw' := NextSplit(sw, step);
    SplitClockAdvances(sw, step);
    StepKeepsShut(sw, step, id, since + 1, true);
    forall k | 0 <= k < |sw'.scans| && sw'.scans[k].signature.certificationId == id && sw'.scans[k].answer.valid
      ensures sw'.scans[k].readAt <= since
    {
      ScansAfterSplit(sw, step, k);
      if k == |sw.scans| {
        FadingLookup(sw, id, since, delay, sw'.scans[k].signature);
      }
    }
    forall s | s in sw'.world.cache && s.certificationId == id && sw'.world.cache[s].answer.valid
      ensures sw'.world.cache[s].storedAt <= since + delay
    {
      CacheAfterSplit(sw, step, s);
      if sw'.world.cache[s] == CacheEntry(Lookup(sw.world, s), sw.world.now) && Lookup(sw.world, s).valid {
        FadingLookup(sw, id, since, delay, s);
      }
    }
  }

  lemma {:induction false} FadingRun(sw: SplitWorld, steps: seq<SplitStep>, id: Id, since: Time, delay: Time)
    requires Fading(sw, id, since, delay) && AllGuarded(steps) && PromptRun(sw, steps, delay)
    ensures Fading(Run(sw, steps), id, since, delay)
    decreases |steps|
  {
    if steps != [] {
      FadingStays(sw, steps[0], id, since, delay);
      FadingRun(NextSplit(sw, steps[0]), steps[1..], id, since, delay);
    }
  }

  /** A continuation with prompt scans in which a signature verifies more than TTL plus delay from now. */
  ghost predicate VerifiesLate(sw: SplitWorld, id: Id, delay: Time) {
    exists more, s :: LateRun(sw, more, id, s, delay)
  }

  ghost predicate LateRun(sw: SplitWorld, more: seq<SplitStep>, id: Id, s: Signature, delay: Time) {
    && AllGuarded(more) && PromptRun(sw, more, delay) && VerifiesAfter(sw, more, id, s)
    && Run(sw, more).world.now > sw.world.now + 300_000 + delay
  }

  /** Read now, stored after the delay, answered at the end of the TTL. */
  function LastSteps(s: Signature, k: nat, delay: Time): seq<SplitStep> {
    [Look(s), Whole(Tick(delay)), Store(k, None, false), Whole(Tick(TTL))]
  }

  lemma LastStepsVerify(sw: SplitWorld, s: Signature, delay: Time)
    requires Lookup(sw.world, s).valid && s !in sw.world.cache
    ensures var last := LastSteps(s, |sw.scans|, delay);
            && PromptRun(sw, last, delay) && Run(sw, last).world.now == sw.world.now + delay + TTL
            && Answer(Run(sw, last).world, s).valid
  {
    var k := |sw.scans|;
    var last := LastSteps(s, k, delay);
    ValidLookup(sw.world, s);
    RunFour(sw, last[0], last[1], last[2], last[3]);
    var looked := NextSplit(sw, last[0]);
    assert looked.scans == sw.scans + [Scan(s, Lookup(sw.world, s), sw.world.now, false)];
    var waited := NextSplit(looked, last[1]);
    assert waited.scans == looked.scans && waited.world.now == sw.world.now + delay;
    var stored := NextSplit(waited, last[2]);
    assert stored.world.cache[s] == CacheEntry(Lookup(sw.world, s), sw.world.now + delay);
    PromptFour(sw, last[0], last[1], last[2], last[3], delay);
  }

  lemma PromptFour(sw: SplitWorld, a: SplitStep, b: SplitStep, c: SplitStep, d: SplitStep, delay: Time)
    requires !a.Store? && !b.Store? && !d.Store?
    requires PromptStep(NextSplit(NextSplit(sw, a), b), c, delay)
    ensures PromptRun(sw, [a, b, c, d], delay)
  {
    var two := NextSplit(NextSplit(sw, a), b);
    var three := NextSplit(two, c);
    StorelessIsPrompt(three, [d], delay);
    assert [c, d][1..] == [d] && [b, c, d][1..] == [c, d] && [a, b, c, d][1..] == [b, c, d];
    assert PromptRun(two, [c, d], delay);
    assert PromptRun(NextSplit(sw, a), [b, c, d], delay);
  }

  /** The last step may as well drop the signature from the cache. */
  lemma ReachesUncached(sw: SplitWorld, id: Id, t: Time) returns (more: seq<SplitStep>, s: Signature)
    requires Reaches(sw, id, t)
    ensures LeadsTo(sw, more, id, s, t) && s !in Run(sw, more).world.cache
  {
    var steps, found :| LeadsTo(sw, steps, id, found, t);
    var there, loss := Run(sw, steps), Whole(CacheLoss(found));
    RunConcat(sw, steps, [loss]);
    RunOne(there, loss);
    assert Lookup(NextSplit(there, loss).world, found) == Lookup(there.world, found);
    more, s := steps + [loss], found;
  }

  lemma ReachingVerifiesLate(sw: SplitWorld, id: Id, delay: Time)
    requires Reaches(sw, id, sw.world.now + 1)
    ensures VerifiesLate(sw, id, delay)
  {
    var more, s := ReachesUncached(sw, id, sw.world.now + 1);
    var ready := Run(sw, more);
    var last := LastSteps(s, |ready.scans|, delay);
    StorelessIsPrompt(sw, more, delay);
    LastStepsVerify(ready, s, delay);
    RunConcat(sw, more, last);
    PromptConcat(sw, more, last, delay);
    assert LateRun(sw, more + last, id, s, delay);
  }

  lemma NeverLate(sw: SplitWorld, id: Id, delay: Time, more: seq<SplitStep>, s: Signature)
    requires Settled(sw) && Shut(sw, id, sw.world.now + 1, true)
    ensures !LateRun(sw, more, id, s, delay)
  {
    if LateRun(sw, more, id, s, delay) {
      FadingRun(sw, more, id, sw.world.now, delay);
    }
  }

  /**
   * However calls overlap: a certification can verify more than TTL plus delay from now if and only if from the next
   * instant on the tables can come to answer valid for it.
   */
  lemma VerifiesLateIff(worlds: seq<SplitWorld>, steps: seq<SplitStep>, k: nat, id: Id, delay: Time)
    requires SplitTrace(worlds, steps) && k <= |steps| && id < |worlds[k].world.certifications|
    ensures VerifiesLate(worlds[k], id, delay) <==> CanVerifyAt(worlds[k], id, worlds[k].world.now + 1, true)
  {
    AlwaysSettled(worlds, steps, k);
    SettledVerifiesLateIff(worlds[k], id, delay);
  }

  lemma SettledVerifiesLateIff(sw: SplitWorld, id: Id, delay: Time)
    requires Settled(sw) && id < |sw.world.certifications|
    ensures VerifiesLate(sw, id, delay) <==> CanVerifyAt(sw, id, sw.world.now + 1, true)
  {
    if CanVerifyAt(sw, id, sw.world.now + 1, true) {
      CanVerifyReaches(sw, id, sw.world.now + 1, true);
      ReachingVerifiesLate(sw, id, delay);
    } else {
      forall more, s
        ensures !LateRun(sw, more, id, s, delay)
      {
        NeverLate(sw, id, delay, more, s);
      }
    }
  }

  /**
   * No code verifies longer than TTL plus delay after its certification was REVOKED, provided no transition that could
   * lead it back to a grant had read it before and has yet to commit.
   */
  lemma RevokedWithinTtlAndDelay(worlds: seq<SplitWorld>, steps: seq<SplitStep>, k: nat, id: Id, delay: Time)
    requires SplitTrace(worlds, steps) && k <= |steps| && StandsAt(worlds[k].world, id, Revoked)
    requires !ClimbInFlight(worlds[k], id) && !GrantInFlight(worlds[k], id)
    ensures !VerifiesLate(worlds[k], id, delay)
  {
    VerifiesLateIff(worlds, steps, k, id, delay);
  }
}
