/**
 * One round-trip for many metric queries. Inside a batch the server drops everything after a failed
 * query (section 55.2.3 of the PostgreSQL 16 documentation, "Extended Query"), so an entry whose
 * query is refused may be innocent; those entries are run again one by one.
 */
module BatchFetch {

  /**
   * How the server answers one query: refused, broken off while its rows are read (the server may
   * or may not abort the batch then), or answered with `count` rows.
   */
  datatype Reply = QueryErr | RowsErr(aborts: bool) | Rows(count: nat)

  predicate Aborts(r: Reply) {
    r.QueryErr? || (r.RowsErr? && r.aborts)
  }

  /** What the query would get in a batch nothing else breaks, and what it gets when run alone. */
  datatype Entry = Entry(name: string, queued: Reply, alone: Reply)

  /** The answer inside the batch: once the batch is aborted every query is refused. */
  function Answer(aborted: bool, r: Reply): Reply {
    if aborted then QueryErr else r
  }

  /** CollectAndDispatch sends an envelope when there are rows. */
  predicate Sends(r: Reply) {
    r.Rows? && r.count > 0
  }

  function Put<T>(c: bool, x: T, xs: seq<T>): seq<T> {
    if c then [x] + xs else xs
  }

  /** The envelopes of fetching the entries one by one. */
  function Delivered(es: seq<Entry>): seq<string> {
    if es == [] then [] else Put(Sends(es[0].alone), es[0].name, Delivered(es[1..]))
  }

  /** The entries that fail when fetched one by one. */
  function Failing(es: seq<Entry>): seq<string> {
    if es == [] then [] else Put(!es[0].alone.Rows?, es[0].name, Failing(es[1..]))
  }

  /** The envelopes sent while the batch is read. */
  function Served(es: seq<Entry>, aborted: bool): seq<string> {
    if es == [] then []
    else
      Put(Sends(Answer(aborted, es[0].queued)), es[0].name, Served(es[1..], aborted || Aborts(es[0].queued)))
  }

  /** The entries left for an individual fetch. */
  function Retries(es: seq<Entry>, aborted: bool): seq<Entry> {
    if es == [] then []
    else
      Put(Answer(aborted, es[0].queued).QueryErr?, es[0], Retries(es[1..], aborted || Aborts(es[0].queued)))
  }

  /** The entries whose rows could not be collected from the batch; the code does not fetch these again. */
  function Dropped(es: seq<Entry>, aborted: bool): seq<Entry> {
    if es == [] then []
    else
      Put(Answer(aborted, es[0].queued).RowsErr?, es[0], Dropped(es[1..], aborted || Aborts(es[0].queued)))
  }

  /** The queries behave alone as they would in an undisturbed batch. */
  ghost predicate Steady(es: seq<Entry>) {
    forall i :: 0 <= i < |es| ==> es[i].queued == es[i].alone
  }

  lemma {:induction false} AllRetried(es: seq<Entry>)
    ensures Served(es, true) == [] && Retries(es, true) == es && Dropped(es, true) == []
  {
    if es != [] {
      AllRetried(es[1..]);
      assert es == [es[0]] + es[1..];
    }
  }

  /**
   * An entry the batch answers, rather than refuses, has rows in the batch exactly when it has rows
   * alone. Nothing is asked of the entries the batch refuses.
   */
  ghost predicate Agrees(es: seq<Entry>) {
    forall i :: 0 <= i < |es| && NoneAborts(es[..i]) && !es[i].queued.QueryErr? ==> (Sends(es[i].queued) <==> Sends(es[i].alone))
  }

  lemma {:induction false} AgreesTail(es: seq<Entry>)
    requires es != []
    ensures es[0].queued.QueryErr? ==> Agrees(es)
    ensures !es[0].queued.QueryErr? ==>
      (Agrees(es) <==> (Sends(es[0].queued) <==> Sends(es[0].alone)) && (Aborts(es[0].queued) || Agrees(es[1..])))
  {
    hide Sends;
    assert NoneAborts(es[..0]);
    forall i | 0 <= i < |es| - 1 ensures NoneAborts(es[..i + 1]) <==> !Aborts(es[0].queued) && NoneAborts(es[1..][..i]) {
      assert es[..i + 1] == [es[0]] + es[1..][..i];
      NoneAbortsCons(es[0], es[1..][..i]);
    }
    assert forall i :: 0 < i < |es| ==> es[i] == es[1..][i - 1];
    if Agrees(es) && !Aborts(es[0].queued) {
      forall i | 0 <= i < |es[1..]| && NoneAborts(es[1..][..i]) && !es[1..][i].queued.QueryErr?
        ensures Sends(es[1..][i].queued) <==> Sends(es[1..][i].alone)
      {
        assert NoneAborts(es[..i + 1]) && es[i + 1] == es[1..][i];
      }
    }
  }

  /**
   * Batching refines one-by-one fetching: reading the batch and then retrying sends the very same
   * envelopes, in the same order.
   */
  lemma {:induction false} BatchSendsTheSame(es: seq<Entry>)
    requires Agrees(es)
    ensures Served(es, false) + Delivered(Retries(es, false)) == Delivered(es)
  {
    if es != [] {
      AgreesTail(es);
      if Aborts(es[0].queued) {
        AllRetried(es[1..]);
        if es[0].queued.QueryErr? {
          assert Retries(es, false) == [es[0]] + es[1..] == es;
        }
      } else {
        BatchSendsTheSame(es[1..]);
      }
    }
  }

  /** Every failing entry is reported once: while the batch is read or after its retry. */
  lemma {:induction false} EveryFailureReported(es: seq<Entry>)
    requires Steady(es)
    ensures |Dropped(es, false)| + |Failing(Retries(es, false))| == |Failing(es)|
  {
    if es != [] {
      if Aborts(es[0].queued) {
        AllRetried(es[1..]);
        if es[0].queued.QueryErr? {
          assert Retries(es, false) == [es[0]] + es[1..] == es;
        }
      } else {
        EveryFailureReported(es[1..]);
      }
    }
  }

  /** Some query breaks off while its rows are read and nothing before it has aborted the batch. */
  ghost predicate BreaksOff(es: seq<Entry>) {
    exists i :: 0 <= i < |es| && es[i].queued.RowsErr? && NoneAborts(es[..i])
  }

  ghost predicate NoneAborts(es: seq<Entry>) {
    forall j :: 0 <= j < |es| ==> !Aborts(es[j].queued)
  }

  lemma {:induction false} DroppedIffBreaksOff(es: seq<Entry>)
    ensures Dropped(es, false) != [] <==> BreaksOff(es)
  {
    if es != [] {
      if es[0].queued.RowsErr? {
        assert NoneAborts(es[..0]);
        assert BreaksOff(es);
      } else if es[0].queued.QueryErr? {
        AllRetried(es[1..]);
        assert !BreaksOff(es) by {
          forall i | 0 < i < |es| ensures !NoneAborts(es[..i]) {
            assert es[..i][0] == es[0];
          }
        }
      } else {
        DroppedIffBreaksOff(es[1..]);
        BreaksOffTail(es);
      }
    }
  }

  lemma {:induction false} NoneAbortsCons(e: Entry, es: seq<Entry>)
    ensures NoneAborts([e] + es) <==> !Aborts(e.queued) && NoneAborts(es)
  {
    assert ([e] + es)[0] == e;
    assert forall i :: 0 <= i < |es| ==> ([e] + es)[i + 1] == es[i];
  }

  lemma {:induction false} BreaksOffTail(es: seq<Entry>)
    requires es != [] && es[0].queued.Rows?
    ensures BreaksOff(es) <==> BreaksOff(es[1..])
  {
    forall i | 0 <= i < |es| - 1 ensures NoneAborts(es[..i + 1]) <==> NoneAborts(es[1..][..i]) {
      assert es[..i + 1] == [es[0]] + es[1..][..i];
      NoneAbortsCons(es[0], es[1..][..i]);
    }
    if BreaksOff(es) {
      var i :| 0 <= i < |es| && es[i].queued.RowsErr? && NoneAborts(es[..i]);
      assert es[1..][i - 1] == es[i] && NoneAborts(es[1..][..i - 1]);
    }
    if BreaksOff(es[1..]) {
      var i :| 0 <= i < |es[1..]| && es[1..][i].queued.RowsErr? && NoneAborts(es[1..][..i]);
      assert es[i + 1] == es[1..][i] && NoneAborts(es[..i + 1]);
    }
  }

  /**
   * The entries marked degraded are those failing alone exactly when no query breaks off while its
   * rows are read before the batch is aborted: such a query fails but is neither retried nor marked.
   */
  lemma {:induction false} MarksAllFailuresIff(es: seq<Entry>)
    requires Steady(es)
    ensures Failing(Retries(es, false)) == Failing(es) <==> !BreaksOff(es)
  {
    EveryFailureReported(es);
    DroppedIffBreaksOff(es);
    if Dropped(es, false) == [] {
      NothingDropped(es);
    }
  }

  lemma {:induction false} NothingDropped(es: seq<Entry>)
    requires Steady(es) && Dropped(es, false) == []
    ensures Failing(Retries(es, false)) == Failing(es)
  {
    if es != [] {
      if es[0].queued.QueryErr? {
        AllRetried(es[1..]);
        assert Retries(es, false) == [es[0]] + es[1..] == es;
      } else {
        NothingDropped(es[1..]);
      }
    }
  }

  /** A metric that fails alone and is not marked degraded. */
  lemma {:induction false} BrokenOffQueryIsNotMarked()
    ensures var es := [Entry("locks", RowsErr(true), RowsErr(true))];
      Steady(es) && Failing(es) == ["locks"] && Failing(Retries(es, false)) == []
  {
    var es := [Entry("locks", RowsErr(true), RowsErr(true))];
    assert es[1..] == [];
    assert Retries(es, false) == [];
  }

  /** Nothing is marked that does not fail alone, whatever the batch did. */
  lemma {:induction false} MarksOnlyFailures(es: seq<Entry>, aborted: bool, n: string)
    requires n in Failing(Retries(es, aborted))
    ensures n in Failing(es)
  {
    if es != [] {
      var aborted' := aborted || Aborts(es[0].queued);
      if Answer(aborted, es[0].queued).QueryErr? {
        assert Retries(es, aborted) == [es[0]] + Retries(es[1..], aborted');
        assert Retries(es, aborted)[1..] == Retries(es[1..], aborted');
        if n in Failing(Retries(es[1..], aborted')) {
          MarksOnlyFailures(es[1..], aborted', n);
        }
      } else {
        assert Retries(es, aborted) == Retries(es[1..], aborted');
        MarksOnlyFailures(es[1..], aborted', n);
      }
    }
  }
}
