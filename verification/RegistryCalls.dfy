/**
 * What a call of StartWorker or ShutdownWorker has achieved when it returns: alone, and with any number of
 * other threads in between. A call takes effect on the registry in exactly one of its own statements.
 */
module RegistryCalls {
  import opened WorkerRegistry

  /* ---- a thread that runs undisturbed ---- */

  /** Thread `t` takes `k` statements in a row. */
  function Alone(s: State, t: Thread, k: nat): State
    decreases k
  {
    if k == 0 then s else Alone(Do(s, Step(t)), t, k - 1)
  }

  lemma {:induction false} AloneTwice(s: State, t: Thread, k: nat)
    requires k >= 2
    ensures Alone(s, t, k) == Alone(Do(Do(s, Step(t)), Step(t)), t, k - 2)
  {
    hide Do;
  }

  /** From the start of a ShutdownWorker with the mutex free, the thread's own statements stop a registered worker. */
  lemma {:induction false} ShutdownAlone(s: State, t: Thread, n: string)
    requires At(s, t) == StopBegin(n) && s.mutex == Free && n in s.cancelFuncs
    ensures var s' := Alone(s, t, 6);
            && At(s', t).Idle? && s'.mutex == Free && s'.cancelFuncs == s.cancelFuncs - {n}
            && s'.cancelled == s.cancelled + {s.cancelFuncs[n]}
            && s'.launched == s.launched && s'.contexts == s.contexts && forall u :: u != t ==> At(s', u) == At(s, u)
  {
    hide Do, Alone, SameBut;
    var w, s2 := s.cancelFuncs[n], Do(Do(s, Step(t)), Step(t));
    var s4 := Do(Do(s2, Step(t)), Step(t));
    var s6 := Do(Do(s4, Step(t)), Step(t));
    StopLooksUp(s, t, n);
    StopRemoves(s2, t, n, w);
    StopCancels(s4, t, n, w);
    SameThrough(s6, s4, s2, s, t);
    AloneTwice(s, t, 6);
    AloneTwice(s2, t, 4);
    AloneTwice(s4, t, 2);
    NoMore(s6, t);
  }

  lemma {:induction false} StopLooksUp(s: State, t: Thread, n: string)
    requires At(s, t) == StopBegin(n) && s.mutex == Free && n in s.cancelFuncs
    ensures var s2 := Do(Do(s, Step(t)), Step(t));
            && At(s2, t) == StopFound(n, s.cancelFuncs[n]) && s2.cancelFuncs == s.cancelFuncs && s2.cancelled == s.cancelled && SameBut(s2, s, t)
  {
  }

  lemma {:induction false} StopRemoves(s: State, t: Thread, n: string, w: Worker)
    requires At(s, t) == StopFound(n, w)
    ensures var s2 := Do(Do(s, Step(t)), Step(t));
            && At(s2, t) == StopCancel(n, w) && s2.mutex == Free && s2.cancelFuncs == s.cancelFuncs - {n} && s2.cancelled == s.cancelled && SameBut(s2, s, t)
  {
  }

  lemma {:induction false} StopCancels(s: State, t: Thread, n: string, w: Worker)
    requires At(s, t) == StopCancel(n, w)
    ensures var s2 := Do(Do(s, Step(t)), Step(t));
            && At(s2, t) == Idle && s2.mutex == s.mutex && s2.cancelFuncs == s.cancelFuncs && s2.cancelled == s.cancelled + {w} && SameBut(s2, s, t)
  {
  }

  lemma {:induction false} SameThrough(s6: State, s4: State, s2: State, s: State, t: Thread)
    requires SameBut(s6, s4, t) && SameBut(s4, s2, t) && SameBut(s2, s, t)
    ensures s6.launched == s.launched && s6.contexts == s.contexts && forall u :: u != t ==> At(s6, u) == At(s, u)
  {
    hide At;
  }

  /** The rest of the state, the other threads' places included, is the same. */
  ghost predicate SameBut(s': State, s: State, t: Thread) {
    s'.launched == s.launched && s'.contexts == s.contexts && forall u :: u != t ==> At(s', u) == At(s, u)
  }

  lemma {:induction false} NoMore(s: State, t: Thread)
    ensures Alone(s, t, 0) == s
  {
  }

  /** A name that is not registered is left as it is. */
  lemma {:induction false} ShutdownNobody(s: State, t: Thread, n: string)
    requires At(s, t) == StopBegin(n) && s.mutex == Free && n !in s.cancelFuncs
    ensures var s' := Alone(s, t, 4);
            && At(s', t).Idle? && s'.mutex == Free && s'.cancelFuncs == s.cancelFuncs && s'.cancelled == s.cancelled
            && s'.launched == s.launched && s'.contexts == s.contexts && forall u :: u != t ==> At(s', u) == At(s, u)
  {
    AloneTwice(s, t, 4);
    AloneTwice(Do(Do(s, Step(t)), Step(t)), t, 2);
  }

  /** From the start of a StartWorker with the mutex free, a name nobody has ends up with the new worker. */
  lemma {:induction false} StartAlone(s: State, t: Thread, n: string)
    requires At(s, t).Idle? && s.mutex == Free && n !in s.cancelFuncs
    ensures var (w, s') := (|s.contexts|, Alone(Do(s, CallStart(t, n)), t, 5));
            && At(s', t).Idle? && s'.mutex == Free && s'.contexts == s.contexts + [n]
            && s'.cancelFuncs == s.cancelFuncs[n := w] && s'.launched == s.launched + {w} && s'.cancelled == s.cancelled
            && forall u :: u != t ==> At(s', u) == At(s, u)
  {
    var s1 := Do(s, CallStart(t, n));
    AloneTwice(s1, t, 5);
    AloneTwice(Do(Do(s1, Step(t)), Step(t)), t, 3);
  }

  /** A name that is taken keeps its worker, and the new context is cancelled unused. */
  lemma {:induction false} StartTaken(s: State, t: Thread, n: string)
    requires At(s, t).Idle? && s.mutex == Free && n in s.cancelFuncs
    ensures var (w, s') := (|s.contexts|, Alone(Do(s, CallStart(t, n)), t, 4));
            && At(s', t).Idle? && s'.mutex == Free && s'.contexts == s.contexts + [n]
            && s'.cancelFuncs == s.cancelFuncs && s'.launched == s.launched && s'.cancelled == s.cancelled + {w}
            && forall u :: u != t ==> At(s', u) == At(s, u)
  {
    var s1 := Do(s, CallStart(t, n));
    AloneTwice(s1, t, 4);
    AloneTwice(Do(Do(s1, Step(t)), Step(t)), t, 2);
  }

  /* ---- among other threads ---- */

  /** The state before action `m` of the schedule. */
  function Before(schedule: seq<Action>, m: nat): State
    requires m <= |schedule|
  {
    Run(schedule[..m])
  }

  lemma {:induction false} BeforeNext(schedule: seq<Action>, m: nat)
    requires m < |schedule|
    ensures Before(schedule, m + 1) == Do(Before(schedule, m), schedule[m])
  {
    hide Do;
    assert schedule[..m + 1][..m] == schedule[..m];
  }

  /** Thread `t` is inside the call it made with action `i`, all the way up to action `m`. */
  ghost predicate InCall(schedule: seq<Action>, t: Thread, call: Action, i: nat, m: nat) {
    && i < m <= |schedule| && schedule[i] == call && call.t == t && At(Before(schedule, i), t).Idle?
    && forall p :: i < p < m ==> !At(Before(schedule, p), t).Idle?
  }

  /** The call made with action `i` has returned just before action `j`. */
  ghost predicate Returns(schedule: seq<Action>, t: Thread, call: Action, i: nat, j: nat) {
    InCall(schedule, t, call, i, j) && At(Before(schedule, j), t).Idle?
  }

  predicate OwnStep(schedule: seq<Action>, t: Thread, p: nat) {
    p < |schedule| && schedule[p] == Step(t)
  }

  /** Statement `p` leaves the registry as it is. */
  ghost predicate Harmless(schedule: seq<Action>, p: nat)
    requires p < |schedule|
  {
    Before(schedule, p + 1).cancelFuncs == Before(schedule, p).cancelFuncs
  }

  /** None of the call's own statements between `i` and `m`, but for `k`, touches the registry. */
  ghost predicate OnlyAt(schedule: seq<Action>, t: Thread, i: nat, m: nat, k: int) {
    m <= |schedule| && forall p :: i < p < m && p != k && OwnStep(schedule, t, p) ==> Harmless(schedule, p)
  }

  /** Statement `k`, the call's own and inside its critical section, turns the registry into `after`; no other one touches it. */
  ghost predicate TakesEffect(schedule: seq<Action>, t: Thread, i: nat, m: nat, k: nat, after: map<string, Worker>) {
    && i < k < m <= |schedule| && OwnStep(schedule, t, k) && OnlyAt(schedule, t, i, m, k)
    && Before(schedule, k).mutex == Held(t) && Before(schedule, k + 1).cancelFuncs == after
  }

  lemma {:induction false} OnlyAtMore(schedule: seq<Action>, t: Thread, i: nat, m: nat, k: int)
    requires OnlyAt(schedule, t, i, m, k) && m < |schedule| && (OwnStep(schedule, t, m) && m != k ==> Harmless(schedule, m))
    ensures OnlyAt(schedule, t, i, m + 1, k)
  {
    hide Harmless;
  }

  lemma {:induction false} StillOnlyAt(schedule: seq<Action>, t: Thread, i: nat, m: nat)
    requires OnlyAt(schedule, t, i, m, -1)
    ensures OnlyAt(schedule, t, i, m, m)
  {
    hide Harmless;
  }

  /** How far a ShutdownWorker has come; `k` is the statement with which it took effect. */
  ghost predicate StopProgress(schedule: seq<Action>, t: Thread, n: string, i: nat, m: nat, k: nat)
    requires m <= |schedule|
  {
    var s, pc := Before(schedule, m), At(Before(schedule, m), t);
    if pc == StopBegin(n) || pc == StopLocked(n) || (pc.StopFound? && pc.n == n) then OnlyAt(schedule, t, i, m, -1)
    else
      && i < k < m
      && var was := Before(schedule, k).cancelFuncs;
         TakesEffect(schedule, t, i, m, k, was - {n}) &&
         match pc
         case StopMissing(n') => n' == n && n !in was
         case StopDeleted(n', w) => n' == n && n in was && was[n] == w
         case StopCancel(n', w) => n' == n && n in was && was[n] == w
         case StopClose(n') => n' == n && (n in was ==> was[n] in s.cancelled)
         case Idle => n in was ==> was[n] in s.cancelled
         case _ => false
  }

  lemma {:induction false} CancelledStays(s: State, a: Action)
    ensures s.cancelled <= Do(s, a).cancelled && s.launched <= Do(s, a).launched
  {
  }

  lemma {:induction false} OthersStay(s: State, a: Action, u: Thread)
    requires u != a.t
    ensures At(Do(s, a), u) == At(s, u)
  {
  }

  lemma {:induction false} BeforeOk(schedule: seq<Action>, m: nat)
    requires m <= |schedule|
    ensures forall t: Thread :: SectionOk(Before(schedule, m), t)
  {
    RunKeeps(schedule[..m]);
    hide OwnInv, SectionOk, Run;
  }

  lemma {:induction false} StopStep(schedule: seq<Action>, t: Thread, n: string, i: nat, m: nat, k: nat) returns (k': nat)
    requires m < |schedule| && i < m && !At(Before(schedule, m), t).Idle? && StopProgress(schedule, t, n, i, m, k)
    ensures StopProgress(schedule, t, n, i, m + 1, k')
  {
    var s, a := Before(schedule, m), schedule[m];
    var pc := At(s, t);
    BeforeNext(schedule, m);
    BeforeOk(schedule, m);
    CancelledStays(s, a);
    if a.t != t {
      OthersStay(s, a, t);
    }
    assert SectionOk(s, t);
    k' := if OwnStep(schedule, t, m) && ((pc.StopLocked? && n !in s.cancelFuncs) || pc.StopFound?) then m else k;
    hide Before, OnlyAt;
    if k' == m {
      StillOnlyAt(schedule, t, i, m);
      assert n !in s.cancelFuncs ==> s.cancelFuncs - {n} == s.cancelFuncs;
      OnlyAtMore(schedule, t, i, m, m);
    } else if OnlyAt(schedule, t, i, m, -1) {
      OnlyAtMore(schedule, t, i, m, -1);
    } else {
      OnlyAtMore(schedule, t, i, m, k);
    }
  }

  /** ... and this is so all along. */
  lemma {:induction false} StopCall(schedule: seq<Action>, t: Thread, n: string, i: nat, m: nat) returns (k: nat)
    requires InCall(schedule, t, CallShutdown(t, n), i, m)
    ensures StopProgress(schedule, t, n, i, m, k)
  {
    if m == i + 1 {
      BeforeNext(schedule, i);
      k := 0;
    } else {
      assert InCall(schedule, t, CallShutdown(t, n), i, m - 1) by { hide Before; }
      var k0 := StopCall(schedule, t, n, i, m - 1);
      hide Before, StopProgress;
      k := StopStep(schedule, t, n, i, m - 1, k0);
    }
  }

  /**
   * In every schedule, a ShutdownWorker that has returned took the name out of the registry with one of its own
   * statements, inside its critical section, touched nothing else there, and has cancelled the worker it found.
   */
  lemma {:induction false} ShutdownReturns(schedule: seq<Action>, t: Thread, n: string, i: nat, j: nat) returns (k: nat)
    requires Returns(schedule, t, CallShutdown(t, n), i, j)
    ensures i < k < j && OwnStep(schedule, t, k) && Before(schedule, k).mutex == Held(t)
    ensures Before(schedule, k + 1).cancelFuncs == Before(schedule, k).cancelFuncs - {n}
    ensures n in Before(schedule, k).cancelFuncs ==> Before(schedule, k).cancelFuncs[n] in Before(schedule, j).cancelled
    ensures forall p :: i < p < j && p != k && OwnStep(schedule, t, p) ==> Harmless(schedule, p)
  {
    k := StopCall(schedule, t, n, i, j);
    hide Before, Harmless;
  }

  /** How far the StartWorker that made worker `w` has come; `k` is the statement with which it took effect. */
  ghost predicate StartProgress(schedule: seq<Action>, t: Thread, n: string, w: Worker, i: nat, m: nat, k: nat)
    requires m <= |schedule|
  {
    var s, pc := Before(schedule, m), At(Before(schedule, m), t);
    if pc == StartCreated(n, w) || pc == StartLocked(n, w) || pc == StartAbsent(n, w) then OnlyAt(schedule, t, i, m, -1)
    else
      && i < k < m
      && var was := Before(schedule, k).cancelFuncs;
         TakesEffect(schedule, t, i, m, k, if n in was then was else was[n := w]) &&
         match pc
         case StartFound(n', w') => n' == n && w' == w && n in was
         case StartDuplicate(n', w') => n' == n && w' == w && n in was
         case StartWritten(n', w') => n' == n && w' == w && n !in was
         case StartLaunch(n', w') => n' == n && w' == w && n !in was
         case Idle => if n in was then w in s.cancelled && w !in s.launched else w in s.launched
         case _ => false
  }

  lemma {:induction false} UnlaunchedYet(schedule: seq<Action>, m: nat, t: Thread)
    requires m <= |schedule|
    ensures At(Before(schedule, m), t).StartDuplicate? ==> At(Before(schedule, m), t).w !in Before(schedule, m).launched
  {
    RunKeeps(schedule[..m]);
    hide Run, MutexInv;
    assert HandOk(Before(schedule, m), t);
  }

  lemma {:induction false} StartStep(schedule: seq<Action>, t: Thread, n: string, w: Worker, i: nat, m: nat, k: nat) returns (k': nat)
    requires m < |schedule| && i < m && !At(Before(schedule, m), t).Idle? && StartProgress(schedule, t, n, w, i, m, k)
    ensures StartProgress(schedule, t, n, w, i, m + 1, k')
  {
    var s, a := Before(schedule, m), schedule[m];
    var pc := At(s, t);
    BeforeNext(schedule, m);
    BeforeOk(schedule, m);
    UnlaunchedYet(schedule, m, t);
    CancelledStays(s, a);
    if a.t != t {
      OthersStay(s, a, t);
    }
    assert SectionOk(s, t);
    k' := if OwnStep(schedule, t, m) && ((pc.StartLocked? && n in s.cancelFuncs) || pc.StartAbsent?) then m else k;
    hide Before, OnlyAt;
    if k' == m {
      StillOnlyAt(schedule, t, i, m);
      OnlyAtMore(schedule, t, i, m, m);
    } else if OnlyAt(schedule, t, i, m, -1) {
      OnlyAtMore(schedule, t, i, m, -1);
    } else {
      OnlyAtMore(schedule, t, i, m, k);
    }
  }

  lemma {:induction false} StartCall(schedule: seq<Action>, t: Thread, n: string, i: nat, m: nat) returns (k: nat)
    requires InCall(schedule, t, CallStart(t, n), i, m)
    ensures StartProgress(schedule, t, n, |Before(schedule, i).contexts|, i, m, k)
  {
    if m == i + 1 {
      BeforeNext(schedule, i);
      k := 0;
    } else {
      assert InCall(schedule, t, CallStart(t, n), i, m - 1) by { hide Before; }
      var k0 := StartCall(schedule, t, n, i, m - 1);
      hide Before, StartProgress;
      k := StartStep(schedule, t, n, |Before(schedule, i).contexts|, i, m - 1, k0);
    }
  }

  /**
   * In every schedule, a StartWorker that has returned looked the name up inside its critical section. If it was
   * absent, the call registered its new worker there and has launched it; if it was taken, the registry was left
   * as it was and the new context is cancelled and was never launched. No other statement of it touches the registry.
   */
  lemma {:induction false} StartReturns(schedule: seq<Action>, t: Thread, n: string, i: nat, j: nat) returns (k: nat)
    requires Returns(schedule, t, CallStart(t, n), i, j)
    ensures i < k < j && OwnStep(schedule, t, k) && Before(schedule, k).mutex == Held(t)
    ensures var (w, was, end) := (|Before(schedule, i).contexts|, Before(schedule, k).cancelFuncs, Before(schedule, j));
            if n in was then Before(schedule, k + 1).cancelFuncs == was && w in end.cancelled && w !in end.launched
            else Before(schedule, k + 1).cancelFuncs == was[n := w] && w in end.launched
    ensures forall p :: i < p < j && p != k && OwnStep(schedule, t, p) ==> Harmless(schedule, p)
  {
    k := StartCall(schedule, t, n, i, j);
    hide Before, Harmless;
  }
}
