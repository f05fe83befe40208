/**
 Fork and join of the uploads of one event: one goroutine per destination uploads and sends its
 status code over an unbuffered channel, another closes the channel when all are done, and the
 caller gathers codes until then.  The goroutines take their steps in any order.
 */
module UploadFanout {
  datatype Worker = NotStarted | Uploading | Sending | Sent | Done

  datatype Main = Starting(next: nat) | Receiving | Returned

  datatype Pool = Pool(
    workers: seq<Worker>,
    wg: int,               // the wait group's counter
    main: Main,
    closed: bool,          // the channel is closed
    codes: seq<int>)       // the codes gathered so far

  datatype Step =
    | Start                 // count one worker and start it
    | StartCloser           // start the closing goroutine and receive
    | Finish(worker: nat)   // an upload returns
    | HandOff(worker: nat)  // a code crosses the unbuffered channel
    | Release(worker: nat)  // the worker is no longer counted
    | Close                 // the counter is zero
    | Return                // the receiving loop sees the closed channel

  predicate Enabled(p: Pool, s: Step) {
    match s
    case Start => p.main.Starting? && p.main.next < |p.workers|
    case StartCloser => p.main == Starting(|p.workers|)
    case Finish(i) => i < |p.workers| && p.workers[i].Uploading?
    case HandOff(i) => i < |p.workers| && p.workers[i].Sending? && p.main.Receiving?
    case Release(i) => i < |p.workers| && p.workers[i].Sent?
    case Close => !p.main.Starting? && !p.closed && p.wg == 0
    case Return => p.main.Receiving? && p.closed
  }

  // A step the program must not come to: sending on the closed channel, or a negative counter.
  predicate Panics(p: Pool, s: Step) {
    match s
    case HandOff(_) => p.closed
    case Release(_) => p.wg <= 0
    case _ => false
  }

  function Next(p: Pool, s: Step, code: nat -> int): Pool
    requires Enabled(p, s)
  {
    match s
    case Start =>
      p.(workers := p.workers[p.main.next := Uploading], wg := p.wg + 1, main := Starting(p.main.next + 1))
    case StartCloser => p.(main := Receiving)
    case Finish(i) => p.(workers := p.workers[i := Sending])
    case HandOff(i) => p.(workers := p.workers[i := Sent], codes := p.codes + [code(i)])
    case Release(i) => p.(workers := p.workers[i := Done], wg := p.wg - 1)
    case Close => p.(closed := true)
    case Return => p.(main := Returned)
  }

  function Initial(n: nat, before: seq<int>): Pool {
    Pool(seq(n, _ => NotStarted), 0, Starting(0), false, before)
  }

  /* ---- what every step keeps ---- */

  // The workers the wait group counts, and the codes handed off.
  function Counted(workers: seq<Worker>): nat {
    if workers == [] then 0
    else
      var w := workers[|workers| - 1];
      Counted(workers[..|workers| - 1]) + if w.NotStarted? || w.Done? then 0 else 1
  }

  ghost function HandedOff(workers: seq<Worker>, code: nat -> int): multiset<int> {
    if workers == [] then multiset{}
    else
      var n := |workers| - 1;
      HandedOff(workers[..n], code) + if workers[n].Sent? || workers[n].Done? then multiset{code(n)} else multiset{}
  }

  ghost predicate StartedUpTo(p: Pool) {
    forall i | 0 <= i < |p.workers| :: p.workers[i].NotStarted? <==> p.main.Starting? && i >= p.main.next
  }

  ghost predicate Inv(p: Pool, before: seq<int>, code: nat -> int) {
    && (p.main.Starting? ==> p.main.next <= |p.workers| && !p.closed)
    && StartedUpTo(p)
    && p.wg == Counted(p.workers)
    && (p.closed ==> p.wg == 0)
    && (p.main.Returned? ==> p.closed)
    && before <= p.codes
    && multiset(p.codes[|before|..]) == HandedOff(p.workers, code)
  }

  lemma {:induction false} SetCounted(workers: seq<Worker>, i: nat, w: Worker)
    requires i < |workers|
    ensures Counted(workers[i := w])
      == Counted(workers) - Counted([workers[i]]) + Counted([w])
  {
    var n := |workers| - 1;
    assert Counted([w]) == (if w.NotStarted? || w.Done? then 0 else 1) by {
      assert [w][..0] == [];
    }
    assert Counted([workers[i]]) == (if workers[i].NotStarted? || workers[i].Done? then 0 else 1) by {
      assert [workers[i]][..0] == [];
    }
    if i < n {
      SetCounted(workers[..n], i, w);
      assert workers[i := w][..n] == workers[..n][i := w];
    } else {
      assert workers[i := w][..n] == workers[..n];
    }
  }

  predicate HasSent(w: Worker) {
    w.Sent? || w.Done?
  }

  function Times(w: Worker, c: int, x: int): nat {
    if HasSent(w) && c == x then 1 else 0
  }

  lemma HandedOffSnoc(workers: seq<Worker>, w: Worker, code: nat -> int, x: int)
    ensures HandedOff(workers + [w], code)[x] == HandedOff(workers, code)[x] + Times(w, code(|workers|), x)
  {
    assert (workers + [w])[..|workers|] == workers;
  }

  lemma {:induction false} SetHandedOffTimes(workers: seq<Worker>, i: nat, w: Worker, code: nat -> int, x: int)
    requires i < |workers|
    ensures HandedOff(workers[i := w], code)[x]
      == HandedOff(workers, code)[x] - Times(workers[i], code(i), x) + Times(w, code(i), x)
  {
    var n := |workers| - 1;
    var init, last := workers[..n], workers[n];
    assert workers == init + [last];
    HandedOffSnoc(init, last, code, x);
    if i < n {
      assert workers[i := w] == init[i := w] + [last];
      HandedOffSnoc(init[i := w], last, code, x);
      SetHandedOffTimes(init, i, w, code, x);
    } else {
      assert workers[i := w] == init + [w];
      HandedOffSnoc(init, w, code, x);
    }
  }

  lemma SetHandedOff(workers: seq<Worker>, i: nat, w: Worker, code: nat -> int)
    requires i < |workers| && (HasSent(workers[i]) ==> HasSent(w))
    ensures HandedOff(workers[i := w], code) == HandedOff(workers, code)
      + if HasSent(w) && !HasSent(workers[i]) then multiset{code(i)} else multiset{}
  {
    var added := if HasSent(w) && !HasSent(workers[i]) then multiset{code(i)} else multiset{};
    forall x ensures HandedOff(workers[i := w], code)[x] == (HandedOff(workers, code) + added)[x] {
      SetHandedOffTimes(workers, i, w, code, x);
    }
  }

  lemma {:induction false} NoneCounted(workers: seq<Worker>, i: nat)
    requires Counted(workers) == 0 && i < |workers|
    ensures workers[i].NotStarted? || workers[i].Done?
  {
    var n := |workers| - 1;
    if i < n {
      NoneCounted(workers[..n], i);
    }
  }

  lemma {:induction false} SomeCounted(workers: seq<Worker>, i: nat)
    requires i < |workers| && !workers[i].NotStarted? && !workers[i].Done?
    ensures Counted(workers) >= 1
  {
    var n := |workers| - 1;
    if i < n {
      SomeCounted(workers[..n], i);
    }
  }

  lemma StartKeepsInv(p: Pool, before: seq<int>, code: nat -> int)
    requires Inv(p, before, code) && Enabled(p, Start)
    ensures Inv(Next(p, Start, code), before, code)
  {
    var i := p.main.next;
    assert p.workers[i].NotStarted?;
    assert Counted([NotStarted]) == 0 && Counted([Uploading]) == 1;
    SetCounted(p.workers, i, Uploading);
    SetHandedOff(p.workers, i, Uploading, code);
  }

  lemma FinishKeepsInv(p: Pool, i: nat, before: seq<int>, code: nat -> int)
    requires Inv(p, before, code) && Enabled(p, Finish(i))
    ensures Inv(Next(p, Finish(i), code), before, code)
  {
    assert Counted([Uploading]) == 1 && Counted([Sending]) == 1;
    SetCounted(p.workers, i, Sending);
    SetHandedOff(p.workers, i, Sending, code);
  }

  lemma HandOffKeepsInv(p: Pool, i: nat, before: seq<int>, code: nat -> int)
    requires Inv(p, before, code) && Enabled(p, HandOff(i))
    ensures !p.closed && Inv(Next(p, HandOff(i), code), before, code)
  {
    SomeCounted(p.workers, i);
    assert Counted([Sending]) == 1 && Counted([Sent]) == 1;
    SetCounted(p.workers, i, Sent);
    assert (p.codes + [code(i)])[|before|..] == p.codes[|before|..] + [code(i)];
    assert multiset(p.codes[|before|..] + [code(i)]) == HandedOff(p.workers[i := Sent], code) by {
      SetHandedOff(p.workers, i, Sent, code);
    }
  }

  lemma ReleaseKeepsInv(p: Pool, i: nat, before: seq<int>, code: nat -> int)
    requires Inv(p, before, code) && Enabled(p, Release(i))
    ensures p.wg > 0 && Inv(Next(p, Release(i), code), before, code)
  {
    SomeCounted(p.workers, i);
    assert Counted([Sent]) == 1 && Counted([Done]) == 0;
    SetCounted(p.workers, i, Done);
    SetHandedOff(p.workers, i, Done, code);
  }

  lemma StepKeepsInv(p: Pool, s: Step, before: seq<int>, code: nat -> int)
    requires Inv(p, before, code) && Enabled(p, s)
    ensures !Panics(p, s)
    ensures Inv(Next(p, s, code), before, code)
  {
    match s
    case Start => StartKeepsInv(p, before, code);
    case Finish(i) => FinishKeepsInv(p, i, before, code);
    case HandOff(i) => HandOffKeepsInv(p, i, before, code);
    case Release(i) => ReleaseKeepsInv(p, i, before, code);
    case _ =>
  }

  lemma {:induction false} InitialInv(n: nat, before: seq<int>, code: nat -> int)
    ensures Inv(Initial(n, before), before, code)
  {
    assert before[|before|..] == [];
    NothingYet(n, code);
  }

  lemma {:induction false} NothingYet(n: nat, code: nat -> int)
    ensures Counted(seq(n, _ => NotStarted)) == 0
    ensures HandedOff(seq(n, _ => NotStarted), code) == multiset{}
  {
    if n > 0 {
      NothingYet(n - 1, code);
      assert seq(n, _ => NotStarted)[..n - 1] == seq(n - 1, _ => NotStarted);
    }
  }

  /* ---- no schedule gets stuck, and all end ---- */

  function Rank(w: Worker): nat {
    match w
    case NotStarted => 4
    case Uploading => 3
    case Sending => 2
    case Sent => 1
    case Done => 0
  }

  function Ranks(workers: seq<Worker>): nat {
    if workers == [] then 0 else Ranks(workers[..|workers| - 1]) + Rank(workers[|workers| - 1])
  }

  // The steps left until the call has returned.
  function Work(p: Pool): nat {
    Ranks(p.workers)
    + (match p.main case Starting(_) => 2 case Receiving => 1 case Returned => 0)
    + if p.closed then 0 else 1
  }

  lemma {:induction false} SetRanks(workers: seq<Worker>, i: nat, w: Worker)
    requires i < |workers|
    ensures Ranks(workers[i := w]) == Ranks(workers) - Rank(workers[i]) + Rank(w)
  {
    var n := |workers| - 1;
    if i < n {
      SetRanks(workers[..n], i, w);
      assert workers[i := w][..n] == workers[..n][i := w];
    } else {
      assert workers[i := w][..n] == workers[..n];
    }
  }

  // Every step is one off the work left, so all complete runs have the same length.
  lemma StepCounts(p: Pool, s: Step, before: seq<int>, code: nat -> int)
    requires Inv(p, before, code) && Enabled(p, s)
    ensures Work(Next(p, s, code)) == Work(p) - 1
  {
    match s
    case Start => SetRanks(p.workers, p.main.next, Uploading);
    case StartCloser =>
    case Finish(i) => SetRanks(p.workers, i, Sending);
    case HandOff(i) => SetRanks(p.workers, i, Sent);
    case Release(i) => SetRanks(p.workers, i, Done);
    case Close =>
    case Return =>
  }

  // Until the call has returned, some goroutine can go on, or an upload is still in flight.
  lemma NeverStuck(p: Pool, before: seq<int>, code: nat -> int)
    requires Inv(p, before, code) && !p.main.Returned?
    ensures exists s :: Enabled(p, s)
  {
    if i: nat :| i < |p.workers| && p.workers[i].Sent? {
      assert Enabled(p, Release(i));
    } else if p.main.Starting? {
      assert Enabled(p, if p.main.next < |p.workers| then Start else StartCloser);
    } else if i: nat :| i < |p.workers| && p.workers[i].Sending? {
      assert Enabled(p, HandOff(i));
    } else if p.closed {
      assert Enabled(p, Return);
    } else if p.wg == 0 {
      assert Enabled(p, Close);
    } else {
      var i := FindCounted(p.workers);
      assert Enabled(p, Finish(i));
    }
  }

  lemma {:induction false} FindCounted(workers: seq<Worker>) returns (i: nat)
    requires Counted(workers) > 0
    ensures i < |workers| && !workers[i].NotStarted? && !workers[i].Done?
  {
    var n := |workers| - 1;
    if workers[n].NotStarted? || workers[n].Done? {
      i := FindCounted(workers[..n]);
    } else {
      i := n;
    }
  }

  function Codes(n: nat, code: nat -> int): seq<int> {
    seq(n, i requires i >= 0 => code(i))
  }

  // Once the call has returned it holds exactly one code for every destination.
  lemma ReturnedHasAllCodes(p: Pool, before: seq<int>, code: nat -> int)
    requires Inv(p, before, code) && p.main.Returned?
    ensures before <= p.codes
    ensures multiset(p.codes[|before|..]) == multiset(Codes(|p.workers|, code))
  {
    forall i | 0 <= i < |p.workers| ensures p.workers[i].Done? {
      NoneCounted(p.workers, i);
    }
    AllDone(p.workers, code);
  }

  lemma {:induction false} AllDone(workers: seq<Worker>, code: nat -> int)
    requires forall i | 0 <= i < |workers| :: workers[i].Done?
    ensures HandedOff(workers, code) == multiset(Codes(|workers|, code))
  {
    if workers != [] {
      var n := |workers| - 1;
      AllDone(workers[..n], code);
      assert Codes(n + 1, code) == Codes(n, code) + [code(n)];
    }
  }

  ghost predicate Runs(p: Pool, steps: seq<Step>, code: nat -> int, q: Pool)
    decreases |steps|
  {
    if steps == [] then p == q
    else Enabled(p, steps[0]) && Runs(Next(p, steps[0], code), steps[1..], code, q)
  }

  lemma {:induction false} RunKeepsInv(p: Pool, steps: seq<Step>, code: nat -> int, q: Pool, before: seq<int>)
    requires Inv(p, before, code) && Runs(p, steps, code, q)
    ensures Inv(q, before, code) && |q.workers| == |p.workers|
    ensures Work(p) == Work(q) + |steps|
    decreases |steps|
  {
    if steps != [] {
      StepKeepsInv(p, steps[0], before, code);
      StepCounts(p, steps[0], before, code);
      RunKeepsInv(Next(p, steps[0], code), steps[1..], code, q, before);
    }
  }

  lemma {:induction false} InitialWork(n: nat)
    ensures Ranks(seq(n, _ => NotStarted)) == 4 * n
  {
    if n > 0 {
      InitialWork(n - 1);
      assert seq(n, _ => NotStarted)[..n - 1] == seq(n - 1, _ => NotStarted);
    }
  }

  lemma {:induction false} NoRanksLeft(workers: seq<Worker>)
    requires forall i | 0 <= i < |workers| :: workers[i].Done?
    ensures Ranks(workers) == 0
  {
    if workers != [] {
      NoRanksLeft(workers[..|workers| - 1]);
    }
  }

  // Every schedule of n uploads returns with its (4n + 3)rd step and not before, with the codes
  // of all destinations; shorter ones can be continued (NeverStuck), longer ones do not exist.
  lemma EverySchedule(n: nat, before: seq<int>, steps: seq<Step>, code: nat -> int, q: Pool)
    requires Runs(Initial(n, before), steps, code, q)
    ensures |steps| <= 4 * n + 3
    ensures q.main.Returned? <==> |steps| == 4 * n + 3
    ensures q.main.Returned? ==> before <= q.codes && multiset(q.codes[|before|..]) == multiset(Codes(n, code))
  {
    InitialInv(n, before, code);
    InitialWork(n);
    RunKeepsInv(Initial(n, before), steps, code, q, before);
    if q.main.Returned? {
      ReturnedHasAllCodes(q, before, code);
      forall i | 0 <= i < |q.workers| ensures q.workers[i].Done? {
        NoneCounted(q.workers, i);
      }
      NoRanksLeft(q.workers);
    }
  }

  // One schedule, picked step by step; the result does not depend on it but for the order.
  method FanOut(before: seq<int>, n: nat, code: nat -> int) returns (codes: seq<int>)
    ensures before <= codes
    ensures multiset(codes[|before|..]) == multiset(Codes(n, code))
  {
    var p := Initial(n, before);
    InitialInv(n, before, code);
    while !p.main.Returned?
      invariant Inv(p, before, code) && |p.workers| == n
      decreases Work(p)
    {
      NeverStuck(p, before, code);
      var s :| Enabled(p, s);
      StepKeepsInv(p, s, before, code);
      StepCounts(p, s, before, code);
      p := Next(p, s, code);
    }
    ReturnedHasAllCodes(p, before, code);
    return p.codes;
  }
}
