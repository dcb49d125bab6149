/** StartWorker and ShutdownWorker, interleaved at every statement by any number of threads.
    The mutex is explicit: reading and writing the registry are separate steps inside its critical section. */
module WorkerRegistry {

  type Thread = nat
  /** A worker is named by the number of its cancellable context. */
  type Worker = nat

  datatype Owner = Free | Held(holder: Thread)

  /** Where a thread stands in a call; `w` is the worker at hand, `n` the source name. */
  datatype Pc =
    | Idle
    | StartCreated(n: string, w: Worker)   // context made, before Lock
    | StartLocked(n: string, w: Worker)    // before the lookup
    | StartFound(n: string, w: Worker)     // name taken, before Unlock
    | StartDuplicate(n: string, w: Worker) // before cancelling the unused context
    | StartAbsent(n: string, w: Worker)    // before the registration
    | StartWritten(n: string, w: Worker)   // registered, before Unlock
    | StartLaunch(n: string, w: Worker)    // before `go`
    | StopBegin(n: string)                 // before Lock
    | StopLocked(n: string)                // before the lookup
    | StopFound(n: string, w: Worker)      // before the delete
    | StopMissing(n: string)               // before Unlock
    | StopDeleted(n: string, w: Worker)    // before Unlock
    | StopCancel(n: string, w: Worker)     // before cancel()
    | StopClose(n: string)                 // before closing the connection

  datatype State = State(
    mutex: Owner,
    cancelFuncs: map<string, Worker>,
    pcs: map<Thread, Pc>,
    contexts: seq<string>,
    launched: set<Worker>,
    cancelled: set<Worker>
  )

  datatype Action = CallStart(t: Thread, n: string) | CallShutdown(t: Thread, n: string) | Step(t: Thread)

  const Init := State(Free, map[], map[], [], {}, {})

  function At(s: State, t: Thread): Pc {
    if t in s.pcs then s.pcs[t] else Idle
  }

  function Goto(s: State, t: Thread, pc: Pc): State {
    s.(pcs := s.pcs[t := pc])
  }

  function Lock(s: State, t: Thread, pc: Pc): State {
    if s.mutex == Free then Goto(s, t, pc).(mutex := Held(t)) else s
  }

  function Unlock(s: State, t: Thread, pc: Pc): State {
    Goto(s, t, pc).(mutex := Free)
  }

  /** One statement of thread `t`; a thread that cannot move (idle, or waiting for the mutex) stays. */
  function Advance(s: State, t: Thread): State {
    match At(s, t)
    case Idle => s
    case StartCreated(n, w) => Lock(s, t, StartLocked(n, w))
    case StartLocked(n, w) => Goto(s, t, if n in s.cancelFuncs then StartFound(n, w) else StartAbsent(n, w))
    case StartFound(n, w) => Unlock(s, t, StartDuplicate(n, w))
    case StartDuplicate(n, w) => Goto(s, t, Idle).(cancelled := s.cancelled + {w})
    case StartAbsent(n, w) => Goto(s, t, StartWritten(n, w)).(cancelFuncs := s.cancelFuncs[n := w])
    case StartWritten(n, w) => Unlock(s, t, StartLaunch(n, w))
    case StartLaunch(n, w) => Goto(s, t, Idle).(launched := s.launched + {w})
    case StopBegin(n) => Lock(s, t, StopLocked(n))
    case StopLocked(n) => Goto(s, t, if n in s.cancelFuncs then StopFound(n, s.cancelFuncs[n]) else StopMissing(n))
    case StopFound(n, w) => Goto(s, t, StopDeleted(n, w)).(cancelFuncs := s.cancelFuncs - {n})
    case StopMissing(n) => Unlock(s, t, StopClose(n))
    case StopDeleted(n, w) => Unlock(s, t, StopCancel(n, w))
    case StopCancel(n, w) => Goto(s, t, StopClose(n)).(cancelled := s.cancelled + {w})
    case StopClose(n) => Goto(s, t, Idle)
  }

  function Do(s: State, a: Action): State {
    match a
    case CallStart(t, n) =>
      if At(s, t).Idle? then Goto(s, t, StartCreated(n, |s.contexts|)).(contexts := s.contexts + [n]) else s
    case CallShutdown(t, n) =>
      if At(s, t).Idle? then Goto(s, t, StopBegin(n)) else s
    case Step(t) => Advance(s, t)
  }

  /** The state after any schedule of calls and single statements. */
  function Run(schedule: seq<Action>): State {
    if schedule == [] then Init else Do(Run(schedule[..|schedule| - 1]), schedule[|schedule| - 1])
  }

  /* ---- the invariant ---- */

  /** The thread is between Lock and Unlock. */
  predicate InSection(pc: Pc) {
    pc.StartLocked? || pc.StartFound? || pc.StartAbsent? || pc.StartWritten?
    || pc.StopLocked? || pc.StopFound? || pc.StopMissing? || pc.StopDeleted?
  }

  /** The thread holds the mutex exactly inside its section, and what it read there is still true. */
  predicate SectionOk(s: State, t: Thread) {
    var pc := At(s, t);
    && (InSection(pc) <==> s.mutex == Held(t))
    && (pc.StartAbsent? ==> pc.n !in s.cancelFuncs)
    && (pc.StopFound? ==> pc.n in s.cancelFuncs && s.cancelFuncs[pc.n] == pc.w)
  }

  /** What a thread holds: a worker it created and did not register, one it registered and did not launch,
      one it removed and did not cancel. */
  datatype Hand = Nothing | Creating(n: string, w: Worker) | Launching(n: string, w: Worker) | Stopping(n: string, w: Worker)

  function HandOf(pc: Pc): Hand {
    match pc
    case StartCreated(n, w) => Creating(n, w)
    case StartLocked(n, w) => Creating(n, w)
    case StartFound(n, w) => Creating(n, w)
    case StartDuplicate(n, w) => Creating(n, w)
    case StartAbsent(n, w) => Creating(n, w)
    case StartWritten(n, w) => Launching(n, w)
    case StartLaunch(n, w) => Launching(n, w)
    case StopDeleted(n, w) => Stopping(n, w)
    case StopCancel(n, w) => Stopping(n, w)
    case _ => Nothing
  }

  function HandAt(s: State, t: Thread): Hand {
    HandOf(At(s, t))
  }

  predicate Registered(s: State, w: Worker) {
    w < |s.contexts| && s.contexts[w] in s.cancelFuncs && s.cancelFuncs[s.contexts[w]] == w
  }

  /** A worker in a thread's hand is that thread's alone. */
  predicate HandOk(s: State, t: Thread) {
    match HandAt(s, t)
    case Nothing => true
    case Creating(n, w) =>
      w < |s.contexts| && s.contexts[w] == n && w !in s.launched && w !in s.cancelled && !Registered(s, w)
    case Launching(n, w) =>
      w < |s.contexts| && s.contexts[w] == n && w !in s.launched
    case Stopping(n, w) =>
      w < |s.contexts| && s.contexts[w] == n && w !in s.cancelled && !Registered(s, w)
  }

  /** Two threads may share a worker only as its launcher and its stopper. */
  predicate PairOk(s: State, t: Thread, u: Thread) {
    var (a, b) := (HandAt(s, t), HandAt(s, u));
    t != u && !a.Nothing? && !b.Nothing? && a.w == b.w ==>
      (a.Launching? && b.Stopping?) || (a.Stopping? && b.Launching?)
  }

  ghost predicate Launched(s: State, w: Worker) {
    w in s.launched || exists t: Thread :: HandAt(s, t).Launching? && HandAt(s, t).w == w
  }

  ghost predicate BeingStopped(s: State, w: Worker) {
    exists t: Thread :: HandAt(s, t).Stopping? && HandAt(s, t).w == w
  }

  /** No live worker is lost; every registered one is live or about to be. */
  ghost predicate WorkerOk(s: State, w: Worker) {
    && (w in s.launched || w in s.cancelled ==> w < |s.contexts|)
    && (Launched(s, w) && w !in s.cancelled ==> Registered(s, w) || BeingStopped(s, w))
    && (Registered(s, w) ==> Launched(s, w) && w !in s.cancelled)
  }

  predicate NameOk(s: State, n: string) {
    n in s.cancelFuncs ==> s.cancelFuncs[n] < |s.contexts| && s.contexts[s.cancelFuncs[n]] == n
  }

  ghost predicate MutexInv(s: State) {
    forall t: Thread :: SectionOk(s, t)
  }

  ghost predicate OwnInv(s: State) {
    && (forall t: Thread :: HandOk(s, t))
    && (forall t: Thread, u: Thread :: PairOk(s, t, u))
    && (forall w: Worker :: WorkerOk(s, w))
    && (forall n: string :: NameOk(s, n))
  }

  ghost predicate Inv(s: State) {
    MutexInv(s) && OwnInv(s)
  }

  /* ---- every action keeps it ---- */

  lemma {:induction false} DoKeepsMutex(s: State, a: Action)
    requires MutexInv(s)
    ensures MutexInv(Do(s, a))
  {
    var s' := Do(s, a);
    forall u: Thread
      ensures SectionOk(s', u)
    {
      assert SectionOk(s, u) && SectionOk(s, a.t);
    }
  }

  /** Steps that move no worker between hands keep the ownership part. */
  lemma {:induction false} SameHands(s: State, s': State)
    requires OwnInv(s)
    requires s'.(mutex := s.mutex, pcs := s.pcs) == s
    requires forall t: Thread :: HandAt(s', t) == HandAt(s, t)
    ensures OwnInv(s')
  {
    hide HandAt;
    forall t: Thread ensures HandOk(s', t) { assert HandOk(s, t); }
    forall t: Thread, u: Thread ensures PairOk(s', t, u) { assert PairOk(s, t, u); }
    forall w: Worker ensures WorkerOk(s', w) { assert WorkerOk(s, w); }
    forall n: string ensures NameOk(s', n) { assert NameOk(s, n); }
  }

  /** Thread `t` now holds `hand`; the others hold what they held. */
  ghost predicate Takes(s: State, s': State, t: Thread, hand: Hand) {
    HandAt(s', t) == hand && forall u: Thread :: u != t ==> HandAt(s', u) == HandAt(s, u)
  }

  /** Witnesses survive a change of another thread's hand. */
  lemma {:induction false} HandsElsewhere(s: State, s': State, t: Thread, w: Worker)
    requires Takes(s, s', t, HandAt(s', t)) && s'.launched >= s.launched
    requires HandAt(s, t).Nothing? || HandAt(s, t).w != w
    ensures Launched(s, w) ==> Launched(s', w)
    ensures BeingStopped(s, w) ==> BeingStopped(s', w)
  {
    hide HandAt;
    if Launched(s, w) && w !in s.launched {
      var u: Thread :| HandAt(s, u).Launching? && HandAt(s, u).w == w;
      assert HandAt(s', u) == HandAt(s, u);
    }
    if BeingStopped(s, w) {
      var u: Thread :| HandAt(s, u).Stopping? && HandAt(s, u).w == w;
      assert HandAt(s', u) == HandAt(s, u);
    }
  }

  /** ... and none appear, for a worker that `t` does not take. */
  lemma {:induction false} NoNewHands(s: State, s': State, t: Thread, w: Worker)
    requires Takes(s, s', t, HandAt(s', t)) && (w in s'.launched ==> w in s.launched)
    requires HandAt(s', t).Nothing? || HandAt(s', t).w != w
    ensures Launched(s', w) ==> Launched(s, w)
    ensures BeingStopped(s', w) ==> BeingStopped(s, w)
  {
    hide HandAt;
    if Launched(s', w) && w !in s'.launched {
      var u: Thread :| HandAt(s', u).Launching? && HandAt(s', u).w == w;
      assert HandAt(s, u) == HandAt(s', u);
    }
    if BeingStopped(s', w) {
      var u: Thread :| HandAt(s', u).Stopping? && HandAt(s', u).w == w;
      assert HandAt(s, u) == HandAt(s', u);
    }
  }

  lemma {:induction false} CreateKeeps(s: State, s': State, t: Thread, n: string)
    requires OwnInv(s) && HandAt(s, t).Nothing?
    requires s'.(pcs := s.pcs, contexts := s.contexts) == s && s'.contexts == s.contexts + [n]
    requires Takes(s, s', t, Creating(n, |s.contexts|))
    ensures OwnInv(s')
  {
    var fresh_ := |s.contexts|;
    hide HandAt;
    forall u: Thread ensures HandOk(s', u) { assert HandOk(s, u); assert WorkerOk(s, fresh_) && NameOk(s, n); }
    forall u: Thread, v: Thread ensures PairOk(s', u, v) {
      assert PairOk(s, u, v) && HandOk(s, u) && HandOk(s, v);
    }
    forall w: Worker ensures WorkerOk(s', w) {
      assert WorkerOk(s, w) && WorkerOk(s, fresh_) && NameOk(s, n);
      if w != fresh_ {
        HandsElsewhere(s, s', t, w);
        NoNewHands(s, s', t, w);
      } else {
        forall u: Thread ensures !(HandAt(s', u).Launching? && HandAt(s', u).w == w) { assert HandOk(s, u); }
      }
    }
    forall m: string ensures NameOk(s', m) { assert NameOk(s, m); }
  }

  lemma {:induction false} DiscardKeeps(s: State, s': State, t: Thread)
    requires OwnInv(s) && HandAt(s, t).Creating?
    requires s'.(pcs := s.pcs, cancelled := s.cancelled) == s && s'.cancelled == s.cancelled + {HandAt(s, t).w}
    requires Takes(s, s', t, Nothing)
    ensures OwnInv(s')
  {
    var mine := HandAt(s, t).w;
    hide HandAt;
    assert HandOk(s, t);
    forall u: Thread ensures HandOk(s', u) { assert HandOk(s, u) && PairOk(s, t, u); }
    forall u: Thread, v: Thread ensures PairOk(s', u, v) { assert PairOk(s, u, v); }
    forall w: Worker ensures WorkerOk(s', w) {
      assert WorkerOk(s, w);
      NoNewHands(s, s', t, w);
      if w != mine {
        HandsElsewhere(s, s', t, w);
      }
    }
    forall m: string ensures NameOk(s', m) { assert NameOk(s, m); }
  }

  lemma {:induction false} RegisterKeeps(s: State, s': State, t: Thread)
    requires OwnInv(s) && HandAt(s, t).Creating? && HandAt(s, t).n !in s.cancelFuncs
    requires var h := HandAt(s, t);
             && s'.(pcs := s.pcs, cancelFuncs := s.cancelFuncs) == s
             && s'.cancelFuncs == s.cancelFuncs[h.n := h.w]
             && Takes(s, s', t, Launching(h.n, h.w))
    ensures OwnInv(s')
  {
    var h := HandAt(s, t);
    hide HandAt;
    assert HandOk(s, t);
    forall u: Thread ensures HandOk(s', u) { assert HandOk(s, u) && PairOk(s, t, u); }
    forall u: Thread, v: Thread ensures PairOk(s', u, v) { assert PairOk(s, u, v); }
    forall w: Worker ensures WorkerOk(s', w) {
      assert WorkerOk(s, w);
      if w == h.w {
        assert HandAt(s', t).Launching? && HandAt(s', t).w == w;
      } else {
        NoNewHands(s, s', t, w);
        HandsElsewhere(s, s', t, w);
      }
    }
    forall m: string ensures NameOk(s', m) { assert NameOk(s, m); }
  }

  lemma {:induction false} LaunchKeeps(s: State, s': State, t: Thread)
    requires OwnInv(s) && HandAt(s, t).Launching?
    requires s'.(pcs := s.pcs, launched := s.launched) == s && s'.launched == s.launched + {HandAt(s, t).w}
    requires Takes(s, s', t, Nothing)
    ensures OwnInv(s')
  {
    var mine := HandAt(s, t).w;
    assert Launched(s, mine);
    hide HandAt;
    assert HandOk(s, t);
    forall u: Thread ensures HandOk(s', u) { assert HandOk(s, u) && PairOk(s, t, u); }
    forall u: Thread, v: Thread ensures PairOk(s', u, v) { assert PairOk(s, u, v); }
    forall w: Worker ensures WorkerOk(s', w) {
      assert WorkerOk(s, w);
      if w != mine {
        NoNewHands(s, s', t, w);
        HandsElsewhere(s, s', t, w);
      } else if BeingStopped(s, w) {
        var u: Thread :| HandAt(s, u).Stopping? && HandAt(s, u).w == w;
        assert HandAt(s', u) == HandAt(s, u);
      }
    }
    forall m: string ensures NameOk(s', m) { assert NameOk(s, m); }
  }

  lemma {:induction false} RemoveKeeps(s: State, s': State, t: Thread, n: string)
    requires OwnInv(s) && HandAt(s, t).Nothing? && n in s.cancelFuncs
    requires s'.(pcs := s.pcs, cancelFuncs := s.cancelFuncs) == s && s'.cancelFuncs == s.cancelFuncs - {n}
    requires Takes(s, s', t, Stopping(n, s.cancelFuncs[n]))
    ensures OwnInv(s')
  {
    var gone := s.cancelFuncs[n];
    hide HandAt;
    assert NameOk(s, n) && WorkerOk(s, gone) && Registered(s, gone);
    forall u: Thread ensures HandOk(s', u) { assert HandOk(s, u); }
    forall u: Thread, v: Thread ensures PairOk(s', u, v) { assert PairOk(s, u, v) && HandOk(s, u) && HandOk(s, v); }
    forall w: Worker ensures WorkerOk(s', w) {
      assert WorkerOk(s, w) && NameOk(s, n);
      if w != gone {
        NoNewHands(s, s', t, w);
        HandsElsewhere(s, s', t, w);
      } else {
        assert HandAt(s', t).Stopping? && HandAt(s', t).w == w;
      }
    }
    forall m: string ensures NameOk(s', m) { assert NameOk(s, m); }
  }

  lemma {:induction false} CancelKeeps(s: State, s': State, t: Thread)
    requires OwnInv(s) && HandAt(s, t).Stopping?
    requires s'.(pcs := s.pcs, cancelled := s.cancelled) == s && s'.cancelled == s.cancelled + {HandAt(s, t).w}
    requires Takes(s, s', t, Nothing)
    ensures OwnInv(s')
  {
    var mine := HandAt(s, t).w;
    hide HandAt;
    assert HandOk(s, t);
    forall u: Thread ensures HandOk(s', u) { assert HandOk(s, u) && PairOk(s, t, u); }
    forall u: Thread, v: Thread ensures PairOk(s', u, v) { assert PairOk(s, u, v); }
    forall w: Worker ensures WorkerOk(s', w) {
      assert WorkerOk(s, w);
      NoNewHands(s, s', t, w);
      if w != mine {
        HandsElsewhere(s, s', t, w);
      }
    }
    forall m: string ensures NameOk(s', m) { assert NameOk(s, m); }
  }

  lemma {:induction false} SectionHolds(s: State, t: Thread)
    requires Inv(s)
    ensures SectionOk(s, t)
  {
    hide OwnInv, SectionOk;
  }

  /** An action is one thread's. */
  lemma {:induction false} OtherHands(s: State, a: Action)
    ensures forall u: Thread :: u != a.t ==> HandAt(Do(s, a), u) == HandAt(s, u)
  {
  }

  /** Every action keeps the ownership part. */
  lemma {:induction false} DoKeepsOwn(s: State, a: Action)
    requires Inv(s)
    ensures OwnInv(Do(s, a))
  {
    hide OwnInv, MutexInv;
    var s', t, pc := Do(s, a), a.t, At(s, a.t);
    SectionHolds(s, t);
    OtherHands(s, a);
    if a.CallStart? && pc.Idle? {
      CreateKeeps(s, s', t, a.n);
    } else if a.Step? && pc.StartDuplicate? {
      DiscardKeeps(s, s', t);
    } else if a.Step? && pc.StartAbsent? {
      RegisterKeeps(s, s', t);
    } else if a.Step? && pc.StartLaunch? {
      LaunchKeeps(s, s', t);
    } else if a.Step? && pc.StopFound? {
      RemoveKeeps(s, s', t, pc.n);
    } else if a.Step? && pc.StopCancel? {
      CancelKeeps(s, s', t);
    } else {
      SameHands(s, s');
    }
  }

  lemma {:induction false} InitOk()
    ensures Inv(Init)
  {
    forall w: Worker ensures WorkerOk(Init, w) {}
  }

  /** The invariant holds after every schedule of every number of threads. */
  lemma {:induction false} RunKeeps(schedule: seq<Action>)
    ensures Inv(Run(schedule))
  {
    if schedule == [] {
      InitOk();
    } else {
      var s := Run(schedule[..|schedule| - 1]);
      RunKeeps(schedule[..|schedule| - 1]);
      hide OwnInv, MutexInv, Do;
      DoKeepsMutex(s, schedule[|schedule| - 1]);
      DoKeepsOwn(s, schedule[|schedule| - 1]);
    }
  }

  ghost predicate Live(s: State, w: Worker) {
    w in s.launched && w !in s.cancelled
  }

  /** At every moment of every schedule, a live worker is the one registered under its name,
      or one that a ShutdownWorker removed and has not yet cancelled. */
  lemma {:induction false} LiveWorkerIsOwned(schedule: seq<Action>, w: Worker)
    requires Live(Run(schedule), w)
    ensures var s := Run(schedule);
            && w < |s.contexts|
            && ((s.contexts[w] in s.cancelFuncs && s.cancelFuncs[s.contexts[w]] == w)
                || exists t: Thread :: (At(s, t).StopDeleted? || At(s, t).StopCancel?)
                                       && At(s, t).n == s.contexts[w] && At(s, t).w == w)
  {
    var s := Run(schedule);
    RunKeeps(schedule);
    assert WorkerOk(s, w);
    if !Registered(s, w) {
      var t: Thread :| HandAt(s, t).Stopping? && HandAt(s, t).w == w;
      assert HandOk(s, t);
      assert At(s, t).StopDeleted? || At(s, t).StopCancel?;
    }
  }

  /** With no call in flight there is exactly one live worker per registered name, and none otherwise. */
  lemma {:induction false} QuiescentOnePerName(schedule: seq<Action>)
    requires forall t: Thread :: At(Run(schedule), t).Idle?
    ensures var s := Run(schedule);
            && (forall n :: n in s.cancelFuncs ==>
                  s.cancelFuncs[n] < |s.contexts| && s.contexts[s.cancelFuncs[n]] == n && Live(s, s.cancelFuncs[n]))
            && (forall w: Worker :: Live(s, w) ==>
                  w < |s.contexts| && s.contexts[w] in s.cancelFuncs && s.cancelFuncs[s.contexts[w]] == w)
  {
    var s := Run(schedule);
    RunKeeps(schedule);
    forall n | n in s.cancelFuncs
      ensures s.cancelFuncs[n] < |s.contexts| && s.contexts[s.cancelFuncs[n]] == n && Live(s, s.cancelFuncs[n])
    {
      assert NameOk(s, n) && WorkerOk(s, s.cancelFuncs[n]);
    }
    forall w: Worker | Live(s, w)
      ensures Registered(s, w)
    {
      assert WorkerOk(s, w);
    }
  }
}
