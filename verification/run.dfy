/** One invocation of `startCheck`: parse the input, stop early when nothing
    is valid, otherwise probe the descriptors ten at a time and fold every
    settled probe into the run's counters and the ranked working list.

    A probe's outcome (the `/check` round trip, its timers and the server's
    handshake) is not modelled: the run receives the settled probes as a
    list, in the order the promises settled. Inside one batch that order is
    arbitrary; a batch settles completely before the next one starts. */
module Run {
  import opened Options
  import opened Strings
  import opened JsNumber
  import opened LinkParser
  import opened Batching
  import opened Ranking
  import opened Seqs

  /** One settled `checkOne` call: the position of its descriptor in
      `validLinks`, and the ping when the server answered `ok`. A failed
      fetch, a non-2xx answer and `{ok: false}` all settle as `None`. */
  datatype Settle = Settle(index: nat, outcome: Option<nat>)

  /** The state one run mutates: the `completed` and `total` counters, the
      global `workingProxies` list, the output text, the start button's
      disabled flag, and how many times `finish` has been called. */
  datatype RunState = RunState(total: nat, completed: nat, working: seq<Entry>,
                               output: string, running: bool, finishes: nat)

  /** What the run shows the user. */
  datatype Notice = FoundWorking(count: nat) | NoWorking
  datatype Status = EmptyInput | NoValidLinks | Finished(notice: Notice)

  /** The page state that outlives one run. */
  datatype Session = Session(working: seq<Entry>, output: string, skipped: nat, running: bool)

  /** The run's invariant: counters in range, the list ranked and shown,
      `finish` called once exactly when every probe has settled. */
  predicate Consistent(st: RunState) {
    && 0 < st.total
    && |st.working| <= st.completed <= st.total
    && SortedByPing(st.working)
    && st.output == Render(st.working)
    && st.finishes == (if st.completed == st.total then 1 else 0)
    && st.running == (st.completed < st.total)
  }

  /** The state right after the run starts: nothing settled yet. */
  function StartState(total: nat): (st: RunState)
    requires 0 < total
    ensures Consistent(st) && st.completed == 0 && st.working == []
  {
    RunState(total, 0, [], "", true, 0)
  }

  /** One settled probe: the success branch (`push`, `updateOutput`) and the
      `finally` block (`completed++`, and `finish()` at `completed === total`). */
  function Complete(st: RunState, link: string, outcome: Option<nat>): (r: RunState)
    ensures r.completed == st.completed + 1 && r.total == st.total
    ensures outcome.None? ==> r.working == st.working && r.output == st.output
    ensures outcome.Some? ==> |r.working| == |st.working| + 1
    ensures r.finishes == st.finishes + (if r.completed == r.total then 1 else 0)
  {
    var working := if outcome.Some? then AddWorking(st.working, Entry(link, outcome.value)) else st.working;
    var output := if outcome.Some? then Render(working) else st.output;
    var completed := st.completed + 1;
    var done := completed == st.total;
    RunState(st.total, completed, working, output, st.running && !done,
             st.finishes + (if done then 1 else 0))
  }

  /** A successful probe adds its entry to the working list, which stays
      ranked and shown. */
  lemma CompleteAdds(st: RunState, link: string, ping: nat)
    ensures var r := Complete(st, link, Some(ping));
      && multiset(r.working) == multiset(st.working) + multiset{Entry(link, ping)}
      && SortedByPing(r.working)
      && r.output == Render(r.working)
  {
    AddWorkingSpec(st.working, Entry(link, ping));
  }

  /** A settled probe keeps the run consistent as long as a probe was still
      outstanding; `finish` fires on the last one and only there. */
  lemma CompletePreserves(st: RunState, link: string, outcome: Option<nat>)
    requires Consistent(st) && st.completed < st.total
    ensures Consistent(Complete(st, link, outcome))
    ensures Complete(st, link, outcome).finishes == 1 <==> st.completed + 1 == st.total
  {
    if outcome.Some? {
      CompleteAdds(st, link, outcome.value);
    }
  }

  /** The descriptor positions among the first `t` settles. */
  function Settled(settles: seq<Settle>, t: nat): set<nat>
    requires t <= |settles|
  {
    set u | 0 <= u < t :: settles[u].index
  }

  /** The positions `0..n-1`. */
  function Range(n: nat): (r: set<nat>)
    ensures forall i: nat :: i in r <==> i < n
  {
    if n == 0 then {} else Range(n - 1) + {n - 1}
  }

  /** The order in which the browser can settle the `n` probes of a run:
      every probe settles exactly once, and because each batch is awaited
      with `Promise.all` before the next is sliced, the settle at position
      `t` belongs to the batch that holds position `t`. Inside a batch any
      order is possible. */
  predicate BrowserSchedule(n: nat, settles: seq<Settle>) {
    && |settles| == n
    && Settled(settles, n) == Range(n)
    && (forall t, u :: 0 <= t < u < n ==> settles[t].index != settles[u].index)
    && (forall t :: 0 <= t < n ==> settles[t].index / BatchSize == t / BatchSize)
  }

  /** Every settle of such a schedule names one of the descriptors. */
  lemma ScheduleInRange(n: nat, settles: seq<Settle>)
    requires BrowserSchedule(n, settles)
    ensures forall t :: 0 <= t < n ==> settles[t].index < n
  {
    forall t | 0 <= t < n
      ensures settles[t].index < n
    {
      assert settles[t].index in Settled(settles, n);
    }
  }

  /** While batch `k` is awaited, after `t` settles in all: every probe of
      the earlier batches has settled, and no probe beyond batch `k` has.
      So the probes in flight are members of batch `k`, at most ten. */
  lemma SettledDuringBatch(n: nat, settles: seq<Settle>, k: nat, t: nat)
    requires BrowserSchedule(n, settles)
    requires Min(k * BatchSize, n) <= t <= Min(k * BatchSize + BatchSize, n)
    ensures Range(Min(k * BatchSize, n)) <= Settled(settles, t)
    ensures Settled(settles, t) <= Range(Min(k * BatchSize + BatchSize, n))
  {
    var lo := Min(k * BatchSize, n);
    var hi := Min(k * BatchSize + BatchSize, n);
    forall i | i in Range(lo)
      ensures i in Settled(settles, t)
    {
      assert i in Settled(settles, n);
      var u :| 0 <= u < n && settles[u].index == i;
      assert u / BatchSize == i / BatchSize < k;
      assert u < t;
    }
    forall x | x in Settled(settles, t)
      ensures x in Range(hi)
    {
      var u :| 0 <= u < t && settles[u].index == x;
      assert u / BatchSize <= k;
      assert x / BatchSize <= k;
      assert x in Settled(settles, n);
    }
  }

  /** Batch `k`, the positions `lo..hi`, as a whole: while it is awaited,
      the settled probes lie between the earlier batches and the end of
      batch `k`, and once it is done exactly the probes up to `hi` have
      settled. */
  lemma BatchWindow(n: nat, settles: seq<Settle>, k: nat, lo: nat, hi: nat)
    requires BrowserSchedule(n, settles)
    requires lo == Min(k * BatchSize, n) && hi == Min(k * BatchSize + BatchSize, n)
    ensures forall t :: lo <= t <= hi ==> Range(lo) <= Settled(settles, t) <= Range(hi)
    ensures Settled(settles, hi) == Range(hi)
  {
    forall t | lo <= t <= hi
      ensures Range(lo) <= Settled(settles, t) <= Range(hi)
    {
      SettledDuringBatch(n, settles, k, t);
    }
    assert (k + 1) * BatchSize == k * BatchSize + BatchSize;
    SettledDuringBatch(n, settles, k + 1, hi);
  }

  /** The working entries in the order their probes succeeded. */
  function Successes(valid: seq<Descriptor>, settles: seq<Settle>): (r: seq<Entry>)
    ensures |r| <= |settles|
    decreases |settles|
  {
    if |settles| == 0 then []
    else
      var last := settles[|settles| - 1];
      Successes(valid, settles[..|settles| - 1]) + SettledEntry(valid, last)
  }

  /** The entry a settled probe contributes, if it succeeded. */
  function SettledEntry(valid: seq<Descriptor>, s: Settle): seq<Entry> {
    if s.outcome.Some? && s.index < |valid| then [Entry(valid[s.index].original, s.outcome.value)] else []
  }

  lemma SuccessesStep(valid: seq<Descriptor>, settles: seq<Settle>, t: nat)
    requires t < |settles|
    ensures Successes(valid, settles[..t + 1])
            == Successes(valid, settles[..t]) + SettledEntry(valid, settles[t])
  {
    PrefixOfPrefix(settles, t, t + 1);
    assert settles[..t + 1][t] == settles[t];
  }

  /** Folding the probe settled at position `t` into a list ranked from the
      earlier successes ranks the successes up to and including `t`. */
  lemma CompleteTracksSuccesses(st: RunState, valid: seq<Descriptor>, settles: seq<Settle>, t: nat)
    requires t < |settles| && settles[t].index < |valid|
    requires st.working == SortByPing(Successes(valid, settles[..t]))
    ensures Complete(st, valid[settles[t].index].original, settles[t].outcome).working
            == SortByPing(Successes(valid, settles[..t + 1]))
  {
    var s := settles[t];
    var before := Successes(valid, settles[..t]);
    SuccessesStep(valid, settles, t);
    if s.outcome.Some? {
      var e := Entry(valid[s.index].original, s.outcome.value);
      assert SettledEntry(valid, s) == [e];
      AddWorkingIncremental(before, e);
    } else {
      assert before + SettledEntry(valid, s) == before;
    }
  }

  /** The run after the first `t` settles: everything the page shows is
      determined by them. `completed` is `t`, the working list ranks the
      successes among them, the output renders it, the button stays
      disabled until the last probe, and `finish` has fired once exactly
      when all have settled. */
  function After(valid: seq<Descriptor>, settles: seq<Settle>, t: nat): RunState
    requires t <= |settles|
  {
    var working := SortByPing(Successes(valid, settles[..t]));
    RunState(|settles|, t, working, Render(working), t < |settles|,
             if t == |settles| then 1 else 0)
  }

  /** The run starts as the state after no settle at all. */
  lemma AfterStart(valid: seq<Descriptor>, settles: seq<Settle>)
    requires 0 < |settles|
    ensures StartState(|settles|) == After(valid, settles, 0)
  {
    assert settles[..0] == [];
  }

  /** Every such state satisfies the run's invariant. */
  lemma AfterConsistent(valid: seq<Descriptor>, settles: seq<Settle>, t: nat)
    requires 0 < |settles| && t <= |settles|
    ensures Consistent(After(valid, settles, t))
  {
    SortByPingSpec(Successes(valid, settles[..t]));
  }

  /** Once every probe has settled, the run is finished: `finish` fired once,
      the button is enabled again, and the list ranks every success. */
  lemma AfterAll(valid: seq<Descriptor>, settles: seq<Settle>)
    requires 0 < |settles|
    ensures var st := After(valid, settles, |settles|);
      && Consistent(st)
      && st.completed == st.total == |settles|
      && st.finishes == 1 && !st.running
      && st.working == SortByPing(Successes(valid, settles))
  {
    AfterConsistent(valid, settles, |settles|);
    assert settles[..|settles|] == settles;
  }

  /** Folding the settle at position `t` into the run. */
  function SettleAt(st: RunState, valid: seq<Descriptor>, settles: seq<Settle>, t: nat): RunState
    requires t < |settles| && settles[t].index < |valid|
  {
    Complete(st, valid[settles[t].index].original, settles[t].outcome)
  }

  /** The settle at position `t` takes the state after `t` settles to the
      state after `t + 1`. */
  lemma AfterStep(valid: seq<Descriptor>, settles: seq<Settle>, t: nat)
    requires t < |settles| && settles[t].index < |valid|
    ensures SettleAt(After(valid, settles, t), valid, settles, t) == After(valid, settles, t + 1)
  {
    var st := After(valid, settles, t);
    CompleteTracksSuccesses(st, valid, settles, t);
  }

  /** `await Promise.all(batch.map(checkOne))` for the batch occupying
      positions `start..end` of the settle list, folded in settle order. */
  method SettleBatch(st0: RunState, valid: seq<Descriptor>, settles: seq<Settle>, start: nat, end: nat)
    returns (st: RunState)
    requires start <= end <= |settles|
    requires forall u :: 0 <= u < |settles| ==> settles[u].index < |valid|
    requires st0 == After(valid, settles, start)
    ensures st == After(valid, settles, end)
  {
    st := st0;
    var t := start;
    while t < end
      invariant start <= t <= end
      invariant st == After(valid, settles, t)
    {
      AfterStep(valid, settles, t);
      st := SettleAt(st, valid, settles, t);
      t := t + 1;
    }
  }

  /** The state of the batching loop before batch `k`: the first `k`
      batches are dispatched and settled, the successes among them ranked. */
  predicate BatchesDone(valid: seq<Descriptor>, settles: seq<Settle>, k: nat,
                        st: RunState, dispatched: seq<Descriptor>)
  {
    && |settles| == |valid|
    && dispatched == valid[..Min(k * BatchSize, |valid|)]
    && st == After(valid, settles, |dispatched|)
  }

  /** One iteration of the batching loop: `validLinks.slice(i, i + 10)` is
      dispatched and awaited. While it is awaited only its own probes are
      in flight, and once it is done every dispatched probe has settled. */
  method DispatchBatch(valid: seq<Descriptor>, settles: seq<Settle>, k: nat,
                       st0: RunState, dispatched0: seq<Descriptor>)
    returns (st: RunState, dispatched: seq<Descriptor>)
    requires BrowserSchedule(|valid|, settles)
    requires k < |Batches(valid)|
    requires BatchesDone(valid, settles, k, st0, dispatched0)
    ensures BatchesDone(valid, settles, k + 1, st, dispatched)
    ensures dispatched == dispatched0 + Batches(valid)[k]
    ensures forall t :: |dispatched0| <= t <= |dispatched| ==>
              Range(|dispatched0|) <= Settled(settles, t) <= Range(|dispatched|)
    ensures Settled(settles, |dispatched|) == Range(|dispatched|)
  {
    var n := |valid|;
    var batch := Batches(valid)[k];
    var start := k * BatchSize;
    var end := Min(start + BatchSize, n);
    assert batch == valid[start..end] && 0 < |batch|;
    AdjacentSlices(valid, start, end);
    ScheduleInRange(n, settles);
    dispatched := dispatched0 + batch;
    BatchWindow(n, settles, k, |dispatched0|, |dispatched|);
    st := SettleBatch(st0, valid, settles, start, end);
  }

  /** The `for (i = 0; i < n; i += 10)` loop: dispatches the batches in
      order, each after the previous one has fully settled. */
  method RunBatches(valid: seq<Descriptor>, settles: seq<Settle>)
    returns (st: RunState, dispatched: seq<Descriptor>)
    requires 0 < |valid|
    requires BrowserSchedule(|valid|, settles)
    ensures st == After(valid, settles, |valid|)
    ensures dispatched == valid
  {
    var batches := Batches(valid);
    st := StartState(|valid|);
    AfterStart(valid, settles);
    dispatched := [];
    var k := 0;
    while k < |batches|
      invariant 0 <= k <= |batches|
      invariant BatchesDone(valid, settles, k, st, dispatched)
    {
      st, dispatched := DispatchBatch(valid, settles, k, st, dispatched);
      k := k + 1;
    }
  }

  /** `finish()`: the notice depends on how many proxies work. */
  function FinishNotice(working: seq<Entry>): (r: Notice)
    ensures r == NoWorking <==> working == []
    ensures r.FoundWorking? ==> r.count == |working|
  {
    if |working| > 0 then FoundWorking(|working|) else NoWorking
  }

  /** `startCheck()`. */
  method StartCheck(session: Session, input: string, query: UrlQuery, settles: seq<Settle>)
    returns (next: Session, status: Status, dispatched: seq<Descriptor>)
    requires BrowserSchedule(|Accepted(Split(input, '\n'), query)|, settles)
    ensures input == "" ==> status == EmptyInput && next == session && dispatched == []
    ensures input != "" ==> next.skipped == PlaceholderCount(Split(input, '\n'), query)
    ensures input != "" && Accepted(Split(input, '\n'), query) == [] ==>
              && status == NoValidLinks && dispatched == []
              && next.working == session.working && next.output == session.output
              && next.running == session.running
    ensures input != "" && Accepted(Split(input, '\n'), query) != [] ==>
              && dispatched == Accepted(Split(input, '\n'), query)
              && next.working == SortByPing(Successes(dispatched, settles))
              && SortedByPing(next.working)
              && next.output == Render(next.working)
              && !next.running
              && status == Finished(FinishNotice(next.working))
  {
    if input == "" {
      return session, EmptyInput, [];
    }
    var lines := Split(input, '\n');
    var valid, skipped := ParseAll(lines, query);
    if |valid| == 0 {
      return session.(skipped := skipped), NoValidLinks, [];
    }
    var st;
    st, dispatched := RunBatches(valid, settles);
    AfterAll(valid, settles);
    next := Session(st.working, st.output, skipped, st.running);
    status := Finished(FinishNotice(st.working));
  }

  /** Successful entries carry links of the dispatched descriptors. */
  lemma {:induction false} SuccessesSingleLine(valid: seq<Descriptor>, settles: seq<Settle>)
    requires forall i :: 0 <= i < |valid| ==> '\n' !in valid[i].original
    ensures forall e :: e in Successes(valid, settles) ==> '\n' !in e.link
    decreases |settles|
  {
    if |settles| > 0 {
      SuccessesSingleLine(valid, settles[..|settles| - 1]);
    }
  }

  /** After a finished run, the output text read line by line lists the
      working proxies in ranked order, one per line, with a blank line
      between consecutive ones. */
  lemma FinishedOutputLines(input: string, query: UrlQuery, settles: seq<Settle>)
    requires |SortByPing(Successes(Accepted(Split(input, '\n'), query), settles))| >= 1
    ensures var ws := SortByPing(Successes(Accepted(Split(input, '\n'), query), settles));
      var lines := Split(Render(ws), '\n');
      && |lines| == 2 * |ws| - 1
      && (forall k :: 0 <= k < |ws| ==> lines[2 * k] == EntryText(ws[k]))
      && (forall k :: 0 <= k < |ws| - 1 ==> lines[2 * k + 1] == "")
  {
    var valid := Accepted(Split(input, '\n'), query);
    var succ := Successes(valid, settles);
    var ws := SortByPing(succ);
    SortByPingSpec(succ);
    AcceptedSingleLine(input, query);
    assert forall i :: 0 <= i < |valid| ==> valid[i] in valid;
    SuccessesSingleLine(valid, settles);
    forall k | 0 <= k < |ws|
      ensures '\n' !in ws[k].link
    {
      assert ws[k] in multiset(ws);
      assert ws[k] in multiset(succ);
    }
    RenderLines(ws);
  }

  /** `updateUI`'s status line: the first `{c}`, `{t}` and `{w}` of the
      template replaced by the counters. */
  function StatusLine(template: string, c: nat, t: nat, w: nat): string {
    var s1 := ReplaceFirst(template, "{c}", DecimalString(c));
    var s2 := ReplaceFirst(s1, "{t}", DecimalString(t));
    ReplaceFirst(s2, "{w}", DecimalString(w))
  }

  lemma NoBraceInDecimal(n: nat)
    ensures '{' !in DecimalString(n)
  {
    var d := DecimalString(n);
    DecimalStringDigits(n);
    assert forall i :: 0 <= i < |d| ==> IsDecimalDigit(d[i]);
  }

  lemma RegroupFive(x: string, p: string, b: string, q: string, d: string, r: string, e: string)
    ensures x + p + b + q + d + r + e == x + p + (b + q + d + r + e)
  {
  }

  lemma RegroupThree(x: string, d: string, r: string, e: string)
    ensures x + (d + r + e) == x + d + r + e
  {
  }

  /** Replacing `{c}`, `{t}` and `{w}` in turn, when no `{` comes before the
      placeholder being replaced, puts each value in its placeholder's
      place. */
  lemma FillPlaceholders(a: string, b: string, d: string, e: string, C: string, T: string, W: string)
    requires '{' !in a && '{' !in b && '{' !in d && '{' !in C && '{' !in T
    ensures ReplaceFirst(ReplaceFirst(ReplaceFirst(a + "{c}" + b + "{t}" + d + "{w}" + e,
                                                   "{c}", C), "{t}", T), "{w}", W)
            == a + C + b + T + d + W + e
  {
    RegroupFive(a, "{c}", b, "{t}", d, "{w}", e);
    ReplaceFirstAfter(a, "{c}", C, b + "{t}" + d + "{w}" + e);
    RegroupFive(a, C, b, "{t}", d, "{w}", e);
    var x2 := a + C + b;
    RegroupThree(x2 + "{t}", d, "{w}", e);
    ReplaceFirstAfter(x2, "{t}", T, d + "{w}" + e);
    RegroupThree(x2 + T, d, "{w}", e);
    ReplaceFirstAfter(x2 + T + d, "{w}", W, e);
  }

  /** A template whose text around the three placeholders has no `{` gets
      exactly the three counters substituted. */
  lemma StatusLineFills(a: string, b: string, d: string, e: string, c: nat, t: nat, w: nat)
    requires '{' !in a && '{' !in b && '{' !in d
    ensures StatusLine(a + "{c}" + b + "{t}" + d + "{w}" + e, c, t, w)
            == a + DecimalString(c) + b + DecimalString(t) + d + DecimalString(w) + e
  {
    NoBraceInDecimal(c);
    NoBraceInDecimal(t);
    FillPlaceholders(a, b, d, e, DecimalString(c), DecimalString(t), DecimalString(w));
  }

  /** The English status line. */
  lemma EnglishStatusLine(c: nat, t: nat, w: nat)
    ensures StatusLine("Status: {c} / {t} | Working: {w}", c, t, w)
            == "Status: " + DecimalString(c) + " / " + DecimalString(t) + " | Working: " + DecimalString(w)
  {
    assert "Status: {c} / {t} | Working: {w}" == "Status: " + "{c}" + " / " + "{t}" + " | Working: " + "{w}" + "";
    StatusLineFills("Status: ", " / ", " | Working: ", "", c, t, w);
  }
}
