/** The Postgres sink object: Write, the polling loop and flush, with what they keep over any run. */
module SinkWriter {
  import opened Metrics
  import opened CopyCursor
  import opened Sequences
  import opened SinkFlush
  import opened PartitionBounds
  import opened SinkFlushTheorems
  import opened SinkPoll
  import opened SinkSteps

  /** What happened so far: accepted messages, flushed batches, stored rows, messages whose metric was copied. */
  datatype History = History(
    accepted: seq<Envelope>,
    batches: seq<seq<Envelope>>,
    stored: seq<Delivery>,
    copied: set<nat>
  )

  /** The stored rows are exactly the rows of the copied messages, each once, each in its own metric's table. */
  ghost predicate StoredExactly(msgs: seq<Envelope>, hi: nat, stored: seq<Delivery>, copied: set<nat>) {
    && NoDup(stored)
    && (forall d :: d in stored ==> Rightful(msgs, 0, hi, d) && d.env in copied)
    && (forall e :: e in copied ==> e < hi && Whole(msgs, e, stored))
  }

  /** Accepted messages are the flushed batches, in order, then `rest`; stored rows are as they should be. */
  ghost predicate Accounted(h: History, rest: seq<Envelope>) {
    var flushed := Concat(h.batches);
    && h.accepted == flushed + rest
    && NamesSet(h.accepted)
    && (forall b :: b in h.batches ==> 0 < |b| <= CACHE_LIMIT)
    && StoredExactly(h.accepted, |flushed|, h.stored, h.copied)
  }

  /** Every flushed message was copied. */
  ghost predicate FullyCopied(h: History) {
    forall e: nat :: e < |Concat(h.batches)| ==> e in h.copied
  }

  /** Each batch is a segment of the accepted order, starting where the previous one ended. */
  lemma {:induction false} BatchIsSegment(h: History, rest: seq<Envelope>, i: nat)
    requires Accounted(h, rest) && i < |h.batches|
    ensures |Concat(h.batches[..i])| + |h.batches[i]| == |Concat(h.batches[..i + 1])| <= |h.accepted|
    ensures h.accepted[|Concat(h.batches[..i])|..|Concat(h.batches[..i + 1])|] == h.batches[i]
  {
    ConcatPrefix(h.batches, i + 1);
    assert h.batches[..i + 1][..i] == h.batches[..i];
    var head := Concat(h.batches[..i]);
    assert Concat(h.batches[..i + 1]) == head + h.batches[i];
    assert h.accepted[..|head| + |h.batches[i]|] == head + h.batches[i];
  }

  lemma {:induction false} ConcatPrefix(batches: seq<seq<Envelope>>, i: nat)
    requires i <= |batches|
    ensures Concat(batches[..i]) <= Concat(batches)
    decreases |batches|
  {
    if i < |batches| {
      var most := batches[..|batches| - 1];
      ConcatPrefix(most, i);
      assert most[..i] == batches[..i];
    } else {
      assert batches[..i] == batches;
    }
  }

  lemma {:induction false} RightfulWider(msgs: seq<Envelope>, lo: nat, hi: nat, lo': nat, hi': nat, d: Delivery)
    requires Rightful(msgs, lo, hi, d) && lo' <= lo && hi <= hi' <= |msgs|
    ensures Rightful(msgs, lo', hi', d)
  {
  }

  /** What one batch between `lo` and `hi` leaves behind. */
  ghost predicate BatchExactly(msgs: seq<Envelope>, lo: nat, hi: nat, more: seq<Delivery>, copied: set<nat>) {
    && NoDup(more)
    && (forall d :: d in more ==> Rightful(msgs, lo, hi, d) && d.env in copied)
    && (forall e :: e in copied ==> lo <= e < hi && Whole(msgs, e, more))
  }

  lemma {:induction false} WholeWider(msgs: seq<Envelope>, e: nat, stored: seq<Delivery>, all: seq<Delivery>)
    requires Whole(msgs, e, stored) && forall d :: d in stored ==> d in all
    ensures Whole(msgs, e, all)
  {
  }

  /** Rows of different batches have different acceptance numbers. */
  lemma {:induction false} StoreMore(msgs: seq<Envelope>, lo: nat, hi: nat, stored: seq<Delivery>, copied: set<nat>, more: seq<Delivery>, copied': set<nat>)
    requires lo <= hi <= |msgs| && StoredExactly(msgs, lo, stored, copied) && BatchExactly(msgs, lo, hi, more, copied')
    ensures StoredExactly(msgs, hi, stored + more, copied + copied')
  {
    assert NoDup(stored + more) by {
      NoDupConcat(stored, more);
    }
    hide NoDup, Whole, Rightful;
    forall d | d in stored + more ensures Rightful(msgs, 0, hi, d) && d.env in copied + copied' {
      if d in stored {
        RightfulWider(msgs, 0, lo, 0, hi, d);
      } else {
        RightfulWider(msgs, lo, hi, 0, hi, d);
      }
    }
    forall e | e in copied + copied' ensures e < hi && Whole(msgs, e, stored + more) {
      if e in copied {
        WholeWider(msgs, e, stored, stored + more);
      } else {
        WholeWider(msgs, e, more, stored + more);
      }
    }
  }

  /** Where the next batch sits in the accepted order. */
  lemma {:induction false} NextBatch(h: History, batch: seq<Envelope>, rest: seq<Envelope>)
    requires Accounted(h, batch + rest)
    ensures var lo := |Concat(h.batches)|;
            && lo + |batch| <= |h.accepted| && h.accepted[lo..lo + |batch|] == batch
            && Concat(h.batches + [batch]) == Concat(h.batches) + batch
            && h.accepted == Concat(h.batches + [batch]) + rest
  {
    assert (h.batches + [batch])[..|h.batches|] == h.batches;
    assert Concat(h.batches) + (batch + rest) == (Concat(h.batches) + batch) + rest;
  }

  /** One more batch with well-stored rows keeps the account. */
  lemma {:induction false} AccountMore(h: History, batch: seq<Envelope>, rest: seq<Envelope>, more: seq<Delivery>, copied: set<nat>)
    requires Accounted(h, batch + rest) && 0 < |batch| <= CACHE_LIMIT
    requires var lo := |Concat(h.batches)|;
             lo + |batch| <= |h.accepted| && BatchExactly(h.accepted, lo, lo + |batch|, more, copied)
    ensures Accounted(History(h.accepted, h.batches + [batch], h.stored + more, h.copied + copied), rest)
  {
    NextBatch(h, batch, rest);
    var lo := |Concat(h.batches)|;
    hide NamesSet, Concat, StoredExactly, BatchExactly;
    StoreMore(h.accepted, lo, lo + |batch|, h.stored, h.copied, more, copied);
  }

  /** The messages between `lo` and `hi` for whose metric some COPY succeeded. */
  ghost function CopiedBy(msgs: seq<Envelope>, lo: nat, hi: nat, calls: seq<Call>): set<nat>
    requires hi <= |msgs|
  {
    set e: nat | lo <= e < hi && MetricCopied(calls, msgs[e].metricName)
  }

  lemma {:induction false} CopiedForward(accepted: seq<Envelope>, lo: nat, hi: nat, order: seq<nat>, calls: seq<Call>, e: nat)
    requires lo <= hi <= |accepted| && IsSorting(accepted[lo..hi], order)
    requires var envs := Arrange(accepted[lo..hi], order); ServesAll(envs, Runs(envs, 0), calls)
    requires lo <= e < hi && MetricCopied(calls, accepted[e].metricName)
    ensures e in CopiedIn(Runs(Arrange(accepted[lo..hi], order), 0), calls, order, lo)
  {
    hide *;
    SortedArrangement(accepted[lo..hi], order);
    var envs := Arrange(accepted[lo..hi], order);
    var k := OrderIndex(accepted, lo, hi, order, e);
    CopiedByMetric(envs, calls, k);
    var i :| 0 <= i < |calls| && calls[i].ok && Runs(envs, 0)[i].lo <= k < Runs(envs, 0)[i].hi;
    CopiedInHas(Runs(envs, 0), calls, order, lo, i, k);
  }

  lemma {:induction false} CopiedBack(accepted: seq<Envelope>, lo: nat, hi: nat, order: seq<nat>, calls: seq<Call>, e: nat)
    requires lo <= hi <= |accepted| && IsSorting(accepted[lo..hi], order)
    requires var envs := Arrange(accepted[lo..hi], order); ServesAll(envs, Runs(envs, 0), calls)
    requires e in CopiedIn(Runs(Arrange(accepted[lo..hi], order), 0), calls, order, lo)
    ensures lo <= e < hi && MetricCopied(calls, accepted[e].metricName)
  {
    hide *;
    SortedArrangement(accepted[lo..hi], order);
    var envs := Arrange(accepted[lo..hi], order);
    var i, k := CopiedInMeans(Runs(envs, 0), calls, order, lo, e);
    NumberedRow(accepted, lo, hi, order, k);
    CopiedByMetric(envs, calls, k);
  }

  lemma {:induction false} CopiedAgree(accepted: seq<Envelope>, lo: nat, hi: nat, order: seq<nat>, calls: seq<Call>)
    requires lo <= hi <= |accepted| && IsSorting(accepted[lo..hi], order)
    requires var envs := Arrange(accepted[lo..hi], order); ServesAll(envs, Runs(envs, 0), calls)
    ensures CopiedBy(accepted, lo, hi, calls) == CopiedIn(Runs(Arrange(accepted[lo..hi], order), 0), calls, order, lo)
  {
    SortingInRange(accepted[lo..hi], order);
    hide Runs, ServesAll, MetricCopied, IsSorting, CopiedIn;
    var copied := CopiedIn(Runs(Arrange(accepted[lo..hi], order), 0), calls, order, lo);
    forall e | e in copied ensures lo <= e < hi && MetricCopied(calls, accepted[e].metricName) {
      CopiedBack(accepted, lo, hi, order, calls, e);
    }
    forall e: nat | lo <= e < hi && MetricCopied(calls, accepted[e].metricName) ensures e in copied {
      CopiedForward(accepted, lo, hi, order, calls, e);
    }
  }

  /** What the COPY calls of one batch leave behind. */
  lemma {:induction false} BatchAt(accepted: seq<Envelope>, lo: nat, batch: seq<Envelope>, order: seq<nat>, calls: seq<Call>)
    requires lo + |batch| <= |accepted| && accepted[lo..lo + |batch|] == batch && IsSorting(batch, order)
    requires var envs := Arrange(batch, order); ServesAll(envs, Runs(envs, 0), calls)
    ensures BatchExactly(accepted, lo, lo + |batch|, StoredRows(calls, order, lo), CopiedBy(accepted, lo, lo + |batch|, calls))
  {
    hide *;
    SortingInRange(batch, order);
    var hi, envs, more := lo + |batch|, Arrange(batch, order), StoredRows(calls, order, lo);
    var runs, copied := Runs(envs, 0), CopiedBy(accepted, lo, hi, calls);
    StoredIs(batch, order, calls, lo);
    CopiedRange(accepted, lo, hi, calls);
    KeptServes(envs, runs, calls);
    BatchStored(accepted, lo, hi, order, Kept(calls));
    CopiedAgree(accepted, lo, hi, order, calls);
    forall d | d in more ensures d.env in copied {
      StoredIsCopied(envs, order, lo, calls, d);
    }
    forall e | e in copied ensures Whole(accepted, e, more) {
      CopiedWitness(accepted, lo, hi, order, calls, e);
    }
    BatchIntro(accepted, lo, hi, more, copied);
  }

  lemma {:induction false} StoredIs(batch: seq<Envelope>, order: seq<nat>, calls: seq<Call>, lo: nat)
    requires IsSorting(batch, order)
    ensures StoredRows(calls, order, lo) == Number(Tagged(Kept(calls)), order, lo) && |order| == |batch|
  {
    hide Tagged, Number;
  }

  lemma {:induction false} CopiedRange(msgs: seq<Envelope>, lo: nat, hi: nat, calls: seq<Call>)
    requires hi <= |msgs|
    ensures forall e :: e in CopiedBy(msgs, lo, hi, calls) ==> lo <= e < hi
  {
    hide MetricCopied;
  }

  lemma {:induction false} CopiedWitness(accepted: seq<Envelope>, lo: nat, hi: nat, order: seq<nat>, calls: seq<Call>, e: nat)
    requires lo <= hi <= |accepted| && IsSorting(accepted[lo..hi], order)
    requires var envs := Arrange(accepted[lo..hi], order); ServesAll(envs, Runs(envs, 0), calls)
    requires e in CopiedIn(Runs(Arrange(accepted[lo..hi], order), 0), calls, order, lo)
    ensures Whole(accepted, e, StoredRows(calls, order, lo))
  {
    hide *;
    SortingInRange(accepted[lo..hi], order);
    var i, k := CopiedInMeans(Runs(Arrange(accepted[lo..hi], order), 0), calls, order, lo, e);
    CopiedIsWhole(accepted, lo, hi, order, calls, i, k);
  }

  lemma {:induction false} CopiedInHas(runs: seq<Run>, calls: seq<Call>, order: seq<nat>, off: nat, i: nat, k: nat)
    requires i < |calls| && i < |runs| && calls[i].ok && runs[i].lo <= k < runs[i].hi && k < |order|
    ensures off + order[k] in CopiedIn(runs, calls, order, off)
  {
  }

  lemma {:induction false} CopiedInMeans(runs: seq<Run>, calls: seq<Call>, order: seq<nat>, off: nat, e: nat) returns (i: nat, k: nat)
    requires e in CopiedIn(runs, calls, order, off)
    ensures i < |calls| && i < |runs| && calls[i].ok && runs[i].lo <= k < runs[i].hi && k < |order| && off + order[k] == e
  {
    i, k :| 0 <= i < |calls| && i < |runs| && calls[i].ok && runs[i].lo <= k < runs[i].hi && k < |order| && off + order[k] == e;
  }

  lemma {:induction false} BatchIntro(msgs: seq<Envelope>, lo: nat, hi: nat, more: seq<Delivery>, copied: set<nat>)
    requires NoDup(more)
    requires forall d :: d in more ==> Rightful(msgs, lo, hi, d)
    requires forall d :: d in more ==> d.env in copied
    requires forall e :: e in copied ==> lo <= e < hi
    requires forall e :: e in copied ==> Whole(msgs, e, more)
    ensures BatchExactly(msgs, lo, hi, more, copied)
  {
  }

  /** Flushing the first part of the unflushed messages keeps every promise. */
  lemma {:induction false} FlushKeeps(h: History, batch: seq<Envelope>, rest: seq<Envelope>, order: seq<nat>, calls: seq<Call>)
    requires Accounted(h, batch + rest) && 0 < |batch| <= CACHE_LIMIT && IsSorting(batch, order)
    requires var envs := Arrange(batch, order); ServesAll(envs, Runs(envs, 0), calls)
    ensures var lo := |Concat(h.batches)|;
            && lo + |batch| <= |h.accepted|
            && Accounted(History(h.accepted, h.batches + [batch], h.stored + StoredRows(calls, order, lo),
                                 h.copied + CopiedBy(h.accepted, lo, lo + |batch|, calls)), rest)
  {
    hide *;
    SortingInRange(batch, order);
    var lo := |Concat(h.batches)|;
    NextBatch(h, batch, rest);
    BatchAt(h.accepted, lo, batch, order, calls);
    AccountMore(h, batch, rest, StoredRows(calls, order, lo), CopiedBy(h.accepted, lo, lo + |batch|, calls));
  }

  /** Every time a COPY gave a row lies inside the bounds of its table. */
  ghost predicate AllInside(b: map<string, Bounds>, calls: seq<Call>) {
    forall i, k :: 0 <= i < |calls| && 0 <= k < |calls[i].times| ==> Inside(b, calls[i].table, calls[i].times[k])
  }

  ghost predicate AlwaysCompletes(outcomes: nat -> Outcome) {
    forall i :: outcomes(i).Completes?
  }

  /**
   * `flush`: sort the messages, compute the bounds of their metrics, and copy them metric by metric. A
   * message is stored whole if some COPY of its metric succeeds, and not at all otherwise.
   */
  method FlushBatch(ghost h: History, msgs: seq<Envelope>, ghost rest: seq<Envelope>, outcomes: nat -> Outcome, clock: nat -> int)
    returns (b: map<string, Bounds>, calls: seq<Call>, ghost h': History)
    requires Accounted(h, msgs + rest) && 0 < |msgs| <= CACHE_LIMIT
    modifies FirstRows(msgs)
    ensures Accounted(h', rest) && h'.accepted == h.accepted && h'.batches == h.batches + [msgs]
    ensures |Concat(h.batches)| + |msgs| <= |h.accepted|
    ensures h'.copied == h.copied + CopiedBy(h.accepted, |Concat(h.batches)|, |Concat(h.batches)| + |msgs|, calls)
    ensures h'.copied == h.copied + CopiedNow(msgs, outcomes, |Concat(h.batches)|)
    ensures AllInside(b, calls)
    ensures FullyCopied(h) && AlwaysCompletes(outcomes) ==> FullyCopied(h')
  {
    hide *;
    CachedNames(h, msgs, rest);
    var order := SortOrder(msgs);
    ArrangedNames(msgs, order);
    var envs := Arrange(msgs, order);
    ArrangedRows(msgs, order);
    ghost var epochs: seq<int>;
    b, epochs := BoundsOf(envs, clock);
    calls := CopyAll(envs, outcomes, clock, epochs);
    StampedInside(envs, epochs, b, calls);
    FlushKeeps(h, msgs, rest, order, calls);
    ghost var lo := |Concat(h.batches)|;
    h' := History(h.accepted, h.batches + [msgs], h.stored + StoredRows(calls, order, lo),
      h.copied + CopiedBy(h.accepted, lo, lo + |msgs|, calls));
    NextBatch(h, msgs, rest);
    FlushAnswered(envs, calls, outcomes);
    CopiedNowIs(h.accepted, lo, msgs, order, calls, outcomes);
    if FullyCopied(h) && AlwaysCompletes(outcomes) {
      CompletesAll(envs, calls, outcomes);
      StaysFull(h, h', lo, msgs, order, calls);
    }
  }

  lemma {:induction false} FlushAnswered(envs: seq<Envelope>, calls: seq<Call>, outcomes: nat -> Outcome)
    requires Matches(calls, outcomes) && ServesAll(envs, Runs(envs, 0), calls) && calls != [] && Reached(outcomes, |calls| - 1)
    requires |calls| < |Runs(envs, 0)| ==> Unreachable(outcomes(|calls| - 1))
    ensures Answered(calls, outcomes, |Runs(envs, 0)|)
  {
  }

  /** Which messages a flush copies follows from its outcomes. */
  lemma {:induction false} CopiedNowIs(accepted: seq<Envelope>, lo: nat, batch: seq<Envelope>, order: seq<nat>, calls: seq<Call>, outcomes: nat -> Outcome)
    requires lo + |batch| <= |accepted| && accepted[lo..lo + |batch|] == batch && IsSorting(batch, order) && InRange(order, |batch|)
    requires var envs := Arrange(batch, order);
             ServesAll(envs, Runs(envs, 0), calls) && Answered(calls, outcomes, |Runs(envs, 0)|)
    ensures CopiedBy(accepted, lo, lo + |batch|, calls) == CopiedNow(batch, outcomes, lo)
  {
    hide IsSorting, InRange, ServesAll, Answered, Runs, MetricCopied, MetricSucceeds;
    forall e: nat | lo <= e < lo + |batch|
      ensures MetricCopied(calls, accepted[e].metricName) <==> CopiedAt(batch, outcomes, lo, e)
    {
      assert accepted[e] == batch[e - lo];
      CopiedMeans(batch, order, calls, outcomes, batch[e - lo].metricName);
    }
  }

  lemma {:induction false} ArrangedRows(msgs: seq<Envelope>, order: seq<nat>)
    requires InRange(order, |msgs|)
    ensures FirstRows(Arrange(msgs, order)) <= FirstRows(msgs)
  {
  }

  lemma {:induction false} StampedInside(envs: seq<Envelope>, epochs: seq<int>, b: map<string, Bounds>, calls: seq<Call>)
    requires |epochs| == |envs| && Tight(envs, epochs, b)
    requires ServesAll(envs, Runs(envs, 0), calls) && AllStamped(epochs, calls)
    ensures AllInside(b, calls)
  {
    hide Tight, ServesAll, Runs, AllStamped, Inside;
    forall i, k | 0 <= i < |calls| && 0 <= k < |calls[i].times| ensures Inside(b, calls[i].table, calls[i].times[k]) {
      TimesInsideBounds(envs, epochs, b, calls, i, k);
    }
  }

  /** With every COPY a success, nothing flushed is missing. */
  lemma {:induction false} StaysFull(h: History, h': History, lo: nat, msgs: seq<Envelope>, order: seq<nat>, calls: seq<Call>)
    requires FullyCopied(h) && lo == |Concat(h.batches)| && IsSorting(msgs, order)
    requires lo + |msgs| <= |h.accepted| && h.accepted[lo..lo + |msgs|] == msgs
    requires |Concat(h'.batches)| == lo + |msgs| && h'.copied == h.copied + CopiedBy(h.accepted, lo, lo + |msgs|, calls)
    requires var envs := Arrange(msgs, order);
             ServesAll(envs, Runs(envs, 0), calls) && |calls| == |Runs(envs, 0)| && AllSucceeded(calls)
    ensures FullyCopied(h')
  {
    hide Runs, ServesAll, IsSorting, Concat, CopiedBy, CopiedIn;
    CopiedAgree(h.accepted, lo, lo + |msgs|, order, calls);
    forall e: nat | e < lo + |msgs| ensures e in h'.copied {
      if e >= lo {
        AllCopied(h.accepted, lo, lo + |msgs|, order, calls, e);
      }
    }
  }

  class PostgresWriter {
    var input: seq<Envelope>
    var cache: seq<Envelope>
    var stopped: bool
    ghost var h: History

    /** Nothing accepted is lost before its flush, batches and buffers stay within their limits. */
    ghost predicate Valid()
      reads this
    {
      Accounted(h, cache + input) && |cache| < CACHE_LIMIT && |input| <= CACHE_LIMIT
    }

    /** The sink's state as the state machine sees it. */
    ghost function View(): Sink
      reads this
    {
      Sink(input, cache, stopped, h.accepted, h.batches, h.copied)
    }

    constructor ()
      ensures Valid() && h == History([], [], [], {}) && !stopped
    {
      input, cache, stopped, h := [], [], false, History([], [], [], {});
    }

    /** Offer a message: accepted if the channel takes it in time, dropped otherwise, refused once stopped. */
    method Write(msg: Envelope, late: bool) returns (refused: bool)
      requires Valid() && msg.metricName != ""
      modifies this
      ensures Valid() && refused == old(stopped)
      ensures View() == Step(old(View()), Send(msg, late)) && h.stored == old(h.stored)
      ensures !old(stopped) && !late && |old(input)| < 256 ==> input == old(input) + [msg] && h.accepted == old(h.accepted) + [msg]
      ensures old(stopped) || late || |old(input)| >= 256 ==> input == old(input) && h.accepted == old(h.accepted)
      ensures stopped == old(stopped) && cache == old(cache) && h.batches == old(h.batches) && h.copied == old(h.copied)
    {
      hide Accounted;
      if stopped {
        return true;
      }
      if !late && |input| < CACHE_LIMIT {
        AcceptKeeps(h, cache + input, msg);
        assert cache + (input + [msg]) == (cache + input) + [msg];
        input, h := input + [msg], h.(accepted := h.accepted + [msg]);
      }
      return false;
    }

    /** Flush the cached messages, if any; the cache is empty afterwards. */
    method Flush(outcomes: nat -> Outcome, clock: nat -> int) returns (b: map<string, Bounds>, calls: seq<Call>)
      requires Accounted(h, cache + input) && |cache| <= CACHE_LIMIT
      modifies this`cache, this`h, FirstRows(cache)
      ensures Accounted(h, cache + input) && View() == FlushStep(old(View()), outcomes)
      ensures cache == [] && h.accepted == old(h.accepted)
      ensures h.batches == if old(cache) == [] then old(h.batches) else old(h.batches) + [old(cache)]
      ensures |Concat(old(h.batches))| + |old(cache)| <= |h.accepted|
      ensures h.copied == old(h.copied) + CopiedBy(h.accepted, |Concat(old(h.batches))|, |Concat(old(h.batches))| + |old(cache)|, calls)
      ensures AllInside(b, calls)
      ensures FullyCopied(old(h)) && AlwaysCompletes(outcomes) ==> FullyCopied(h)
    {
      hide Accounted, FullyCopied, Concat, CopiedBy, CopiedNow, AllInside, AlwaysCompletes;
      b, calls := map[], [];
      if |cache| == 0 {
        NothingCopied(h, cache + input, 0);
        return;
      }
      b, calls, h := FlushBatch(h, cache, input, outcomes, clock);
      cache := [];
      assert cache + input == input;
    }

    /** One message from the channel to the cache; a full cache is flushed at once. */
    method Receive(outcomes: nat -> Outcome, clock: nat -> int) returns (b: map<string, Bounds>, calls: seq<Call>)
      requires Valid() && !stopped && input != []
      modifies this`input, this`cache, this`h, FirstRows(cache + [input[0]])
      ensures Valid() && View() == Step(old(View()), Event.Receive(outcomes, clock))
      ensures input == old(input)[1..] && h.accepted == old(h.accepted)
      ensures |old(cache)| + 1 < 256 ==> cache == old(cache) + [old(input)[0]]
      ensures |old(cache)| + 1 == 256 ==> cache == [] && h.batches == old(h.batches) + [old(cache) + [old(input)[0]]]
      ensures |old(cache)| + 1 < CACHE_LIMIT ==> calls == [] && h == old(h)
      ensures |Concat(old(h.batches))| + |old(cache)| + 1 <= |h.accepted|
      ensures h.copied == old(h.copied) + CopiedBy(h.accepted, |Concat(old(h.batches))|, |Concat(old(h.batches))| + |old(cache)| + 1, calls)
      ensures AllInside(b, calls)
      ensures FullyCopied(old(h)) && AlwaysCompletes(outcomes) ==> FullyCopied(h)
    {
      hide Accounted, FullyCopied, Concat, CopiedBy, CopiedNow, AllInside, AlwaysCompletes;
      b, calls := map[], [];
      var entry := input[0];
      assert cache + input == (cache + [entry]) + input[1..];
      NothingCopied(h, cache + input, |cache| + 1);
      input, cache := input[1..], cache + [entry];
      if |cache| < CACHE_LIMIT {
        return;
      }
      b, calls := Flush(outcomes, clock);
    }

    /**
     * Any number of writers and one polling loop, in any order of steps; `rows` are the rows that may get
     * an epoch. Which messages are accepted, flushed and copied follows from the events step by step. If no
     * COPY fails, every flushed message is stored whole.
     */
    method Run(events: seq<Event>, ghost rows: set<Measurement>)
      requires Valid() && FirstRows(cache + input) <= rows
      requires forall i :: 0 <= i < |events| && events[i].Send? ==> events[i].msg.metricName != "" && FirstRows([events[i].msg]) <= rows
      modifies this, rows
      ensures Valid() && View() == Steps(old(View()), events)
      ensures h.accepted == old(h.accepted) + Offered(old(View()), events, |events|)
      ensures stopped <==> Ended(old(stopped), events)
      ensures FullyCopied(old(h)) && NoneFails(events) ==> FullyCopied(h)
    {
      hide Accounted, FullyCopied, FirstRows, AlwaysCompletes, Steps, FlushStep, Concat, CopiedBy, AllInside, Offered, Ended;
      StepsNone(View());
      assert events[..0] == [];
      for i := 0 to |events|
        invariant Valid() && FirstRows(cache + input) <= rows
        invariant View() == Steps(old(View()), events[..i])
        invariant FullyCopied(old(h)) && NoneFails(events) ==> FullyCopied(h)
      {
        StepsMore(old(View()), events, i);
        TakeEvent(events[i], rows);
      }
      assert events[..|events|] == events;
      AcceptedAre(old(View()), events, |events|);
    }

    /** One step of a writer or of the polling loop. */
    method TakeEvent(e: Event, ghost rows: set<Measurement>)
      requires Valid() && FirstRows(cache + input) <= rows
      requires e.Send? ==> e.msg.metricName != "" && FirstRows([e.msg]) <= rows
      modifies this, rows
      ensures Valid() && FirstRows(cache + input) <= rows && View() == Step(old(View()), e)
      ensures FullyCopied(old(h)) && NoFailure(e) ==> FullyCopied(h)
    {
      hide Accounted, FullyCopied, FirstRows, AlwaysCompletes, Concat, CopiedNow, CopiedBy, AllInside;
      match e {
        case Send(msg, late) =>
          SameCopied(h, h.(accepted := h.accepted + [msg]));
          MoreRows(cache, input, msg);
          var _ := Write(msg, late);
        case Receive(outcomes, clock) =>
          if !stopped && input != [] {
            FewerRows(cache, input);
            var _, _ := Receive(outcomes, clock);
            assert [] + input == input;
          }
        case Tick(outcomes, clock) =>
          if !stopped {
            FewerRows(cache, input);
            var _, _ := Flush(outcomes, clock);
            assert [] + input == input;
          }
        case Stop =>
          stopped := true;
      }
    }
  }

  /** No COPY of the run fails. */
  ghost predicate NoneFails(events: seq<Event>) {
    forall i :: 0 <= i < |events| ==> NoFailure(events[i])
  }

  ghost predicate NoFailure(e: Event) {
    (e.Receive? || e.Tick?) ==> AlwaysCompletes(e.outcomes)
  }

  lemma {:induction false} NothingCopied(h: History, rest: seq<Envelope>, n: nat)
    requires Accounted(h, rest) && n <= |rest|
    ensures |Concat(h.batches)| + n <= |h.accepted|
    ensures CopiedBy(h.accepted, |Concat(h.batches)|, |Concat(h.batches)| + n, []) == {}
    ensures AllInside(map[], [])
  {
  }

  lemma {:induction false} SameCopied(h: History, h': History)
    requires h'.batches == h.batches && h'.copied == h.copied
    ensures FullyCopied(h) <==> FullyCopied(h')
  {
  }

  lemma {:induction false} MoreRows(cache: seq<Envelope>, input: seq<Envelope>, msg: Envelope)
    ensures FirstRows(cache + (input + [msg])) <= FirstRows(cache + input) + FirstRows([msg])
  {
    var all := cache + (input + [msg]);
    forall k | 0 <= k < |all| && all[k].data != [] ensures all[k].data[0] in FirstRows(cache + input) + FirstRows([msg]) {
      if k < |cache + input| {
        assert (cache + input)[k] == all[k];
      } else {
        assert [msg][0] == all[k];
      }
    }
  }

  lemma {:induction false} FewerRows(cache: seq<Envelope>, input: seq<Envelope>)
    ensures FirstRows(cache) <= FirstRows(cache + input) && FirstRows(input) <= FirstRows(cache + input)
    ensures input != [] ==> FirstRows(cache + [input[0]]) <= FirstRows(cache + input)
    ensures input != [] ==> FirstRows(input[1..]) <= FirstRows(cache + input)
    ensures input != [] ==> (cache + [input[0]]) + input[1..] == cache + input
  {
    var all := cache + input;
    assert forall k :: 0 <= k < |cache| ==> all[k] == cache[k];
    assert forall k :: 0 <= k < |input| ==> all[|cache| + k] == input[k];
    if input != [] {
      assert forall k :: 0 <= k < |input| - 1 ==> all[|cache| + k + 1] == input[1..][k];
      assert forall k :: 0 <= k < |cache| + 1 ==> all[k] == (cache + [input[0]])[k];
    }
  }

  lemma {:induction false} AcceptKeeps(h: History, rest: seq<Envelope>, msg: Envelope)
    requires Accounted(h, rest) && msg.metricName != ""
    ensures Accounted(h.(accepted := h.accepted + [msg]), rest + [msg])
  {
    var flushed, all := Concat(h.batches), h.accepted + [msg];
    assert all == flushed + (rest + [msg]);
    hide Concat, NoDup;
    forall d | d in h.stored ensures Rightful(all, 0, |flushed|, d) {
      assert Rightful(h.accepted, 0, |flushed|, d);
    }
    forall e | e in h.copied ensures Whole(all, e, h.stored) {
      assert Whole(h.accepted, e, h.stored) && all[e] == h.accepted[e];
    }
  }

  lemma {:induction false} CachedNames(h: History, cache: seq<Envelope>, input: seq<Envelope>)
    requires Accounted(h, cache + input)
    ensures NamesSet(cache)
  {
    assert NamesSet(h.accepted);
    hide *;
    NextBatch(h, cache, input);
    NamesInside(h.accepted, |Concat(h.batches)|, cache);
  }

  lemma {:induction false} NamesInside(msgs: seq<Envelope>, lo: nat, part: seq<Envelope>)
    requires NamesSet(msgs) && lo + |part| <= |msgs| && msgs[lo..lo + |part|] == part
    ensures NamesSet(part)
  {
    assert forall k :: 0 <= k < |part| ==> part[k] == msgs[lo + k];
  }

  /** With every outcome a success, no COPY is skipped and every one succeeds. */
  lemma {:induction false} CompletesAll(envs: seq<Envelope>, calls: seq<Call>, outcomes: nat -> Outcome)
    requires Matches(calls, outcomes) && ServesAll(envs, Runs(envs, 0), calls)
    requires |calls| < |Runs(envs, 0)| ==> calls != [] && Unreachable(outcomes(|calls| - 1))
    requires AlwaysCompletes(outcomes)
    ensures |calls| == |Runs(envs, 0)| && AllSucceeded(calls)
  {
  }

  lemma {:induction false} ArrangedNames(msgs: seq<Envelope>, order: seq<nat>)
    requires NamesSet(msgs) && IsSorting(msgs, order)
    ensures InRange(order, |msgs|) && NamesSet(Arrange(msgs, order))
  {
  }
}
