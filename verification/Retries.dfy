/** When the learner agent asks again and for which slots, told from the history of learns
    and from what it asked for before. */
module Retries {
  import opened Prelude
  import opened PaxosTypes
  import opened LearnerAgents

  /** At least `interval` after `since`; on a clock that stands before `since` only an
      interval of zero has passed. */
  predicate Passed(now: Millis, since: Millis, interval: u64) { interval == 0 || since + interval <= now }

  /** When the learner last learned something new or asked for something. */
  function LastActivity(cfg: AgentConfig, start: Millis, events: seq<RetryEvent>): Millis {
    if events == [] then start
    else
      var init := events[..|events| - 1];
      match events[|events| - 1]
      case NewLearn(now) => now
      case Evaluate(now, _, _) =>
        if |RetryRun(cfg, start, init).1| < |RetryRun(cfg, start, events).1| then now
        else LastActivity(cfg, start, init)
  }

  /** When this slot was last asked for. */
  function LastAsked(asked: seq<Asked>, slot: Slot): Option<Millis> {
    if asked == [] then None
    else if slot in asked[|asked| - 1].slots then Some(asked[|asked| - 1].at)
    else LastAsked(asked[..|asked| - 1], slot)
  }

  /** Never asked for, or not within the interval. */
  predicate Askable(cfg: AgentConfig, asked: seq<Asked>, now: Millis, slot: Slot) {
    var last := LastAsked(asked, slot);
    last == None || Passed(now, last.value, cfg.retryIntervalMs)
  }

  predicate Lagging(cfg: AgentConfig, adu: Slot, highest: Slot) { cfg.learnMaxGap == 0 || adu + cfg.learnMaxGap <= highest }

  /** The first slots above the cursor that may be asked for, as many as fit a batch. */
  ghost predicate FirstAskable(cfg: AgentConfig, asked: seq<Asked>, now: Millis, adu: Slot, highest: Slot, slots: seq<Slot>) {
    && StrictlyIncreasing(slots) && |slots| <= cfg.messageBatchSize
    && (forall s :: s in slots ==> adu < s <= highest && Askable(cfg, asked, now, s))
    && (forall s :: adu < s <= highest && Askable(cfg, asked, now, s) ==>
          s in slots || (|slots| == cfg.messageBatchSize && forall x :: x in slots ==> x < s))
  }

  /** The retry state is what the history says. */
  ghost predicate Follows(cfg: AgentConfig, start: Millis, events: seq<RetryEvent>) {
    var (st, asked) := RetryRun(cfg, start, events);
    && st.lastLearn == LastActivity(cfg, start, events)
    && forall s: Slot :: (if s in st.retries then Some(st.retries[s]) else None) == LastAsked(asked, s)
  }

  lemma AskedSnoc(asked: seq<Asked>, request: Asked, slot: Slot)
    ensures LastAsked(asked + [request], slot) == if slot in request.slots then Some(request.at) else LastAsked(asked, slot)
  {
    assert (asked + [request])[..|asked|] == asked;
  }

  lemma RetryRunSnoc(cfg: AgentConfig, start: Millis, events: seq<RetryEvent>, now: Millis, adu: Slot, highest: Slot)
    ensures var (st, asked) := RetryRun(cfg, start, events);
      var (st', r) := EvaluateRetry(cfg, st, adu, highest, now);
      RetryRun(cfg, start, events + [Evaluate(now, adu, highest)]) ==
        (st', if r.Retry? then asked + [Asked(now, r.slots, adu, highest)] else asked)
  {
    var later := events + [Evaluate(now, adu, highest)];
    assert later[..|events|] == events;
  }

  lemma {:induction false} RetryFollows(cfg: AgentConfig, start: Millis, events: seq<RetryEvent>)
    ensures Follows(cfg, start, events)
  {
    if events != [] {
      var init := events[..|events| - 1];
      RetryFollows(cfg, start, init);
      match events[|events| - 1]
      case NewLearn(now) =>
      case Evaluate(now, adu, highest) => EvaluateFollows(cfg, start, init, now, adu, highest);
        assert events == init + [Evaluate(now, adu, highest)];
    }
  }

  lemma EvaluateFollows(cfg: AgentConfig, start: Millis, events: seq<RetryEvent>, now: Millis, adu: Slot, highest: Slot)
    requires Follows(cfg, start, events)
    ensures Follows(cfg, start, events + [Evaluate(now, adu, highest)])
  {
    hide Scan, Stamp;
    var later := events + [Evaluate(now, adu, highest)];
    assert later[..|events|] == events;
    var (st, asked) := RetryRun(cfg, start, events);
    var (st', r) := EvaluateRetry(cfg, st, adu, highest, now);
    RetryRunSnoc(cfg, start, events, now, adu, highest);
    if r.Retry? {
      forall s: Slot
        ensures (if s in st'.retries then Some(st'.retries[s]) else None) ==
          LastAsked(asked + [Asked(now, r.slots, adu, highest)], s)
      {
        StampFacts(st.retries, r.slots, now, s);
        AskedSnoc(asked, Asked(now, r.slots, adu, highest), s);
      }
    }
  }

  /** Asking again is exact.  In every run an evaluation asks if and only if the learner lags
      by the gap allowed or was idle for the interval, and some slot up to the highest
      learned may be asked for; it then asks for the first of them.  Otherwise it says why
      not. */
  lemma AsksExactly(cfg: AgentConfig, start: Millis, events: seq<RetryEvent>, now: Millis, adu: Slot, highest: Slot)
    ensures var asked := RetryRun(cfg, start, events).1;
      var asked' := RetryRun(cfg, start, events + [Evaluate(now, adu, highest)]).1;
      var r := EvaluateRetry(cfg, RetryRun(cfg, start, events).0, adu, highest, now).1;
      var urgent := Lagging(cfg, adu, highest) || Passed(now, LastActivity(cfg, start, events), cfg.retryIntervalMs);
      var any := 0 < cfg.messageBatchSize && exists s: Slot :: adu < s <= highest && Askable(cfg, asked, now, s);
      && (asked' != asked <==> urgent && any)
      && (asked' != asked ==>
            exists slots :: slots != [] && FirstAskable(cfg, asked, now, adu, highest, slots)
              && asked' == asked + [Asked(now, slots, adu, highest)] && r == Retry(slots))
      && (!urgent ==> r == NoGap)
      && (urgent && !any ==> r == Skip(adu))
  {
    hide Scan, Stamp, LastActivity, RetryRun;
    RetryFollows(cfg, start, events);
    RetryRunSnoc(cfg, start, events, now, adu, highest);
    var (st, asked) := RetryRun(cfg, start, events);
    forall s: Slot ensures Askable(cfg, asked, now, s) <==> CooledDown(st.retries, now, cfg.retryIntervalMs, s) {
    }
    ScanFacts(st.retries, now, cfg.retryIntervalMs, adu + 1, highest, cfg.messageBatchSize);
    var slots := Scan(st.retries, now, cfg.retryIntervalMs, adu + 1, highest, cfg.messageBatchSize);
    assert FirstAskable(cfg, asked, now, adu, highest, slots);
    if slots != [] {
      var first: Slot := slots[0];
      assert first in slots;
      assert adu < first <= highest && Askable(cfg, asked, now, first);
    }
    assert asked + [Asked(now, slots, adu, highest)] != asked;
  }

  /** A new learn asks for nothing. */
  lemma LearnsAskNothing(cfg: AgentConfig, start: Millis, events: seq<RetryEvent>, now: Millis)
    ensures RetryRun(cfg, start, events + [NewLearn(now)]).1 == RetryRun(cfg, start, events).1
    ensures LastActivity(cfg, start, events + [NewLearn(now)]) == now
  {
    assert (events + [NewLearn(now)])[..|events|] == events;
  }
}
