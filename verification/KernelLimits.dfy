/**
 Where the promises of the driver end: read lengths it cannot serve.
 */
module KernelLimits {
  import opened Common
  import opened Kernel

  /** The state after the device raised its next `k` interrupts; an idle device raises none. */
  ghost function AfterIrqs(s: Sys, k: nat): Sys {
    if k == 0 then s else NextIrq(AfterIrqs(s, k - 1))
  }

  ghost function NextIrq(s: Sys): Sys {
    if s.fault == NoFault && s.dev.left > 0 then ProcessRequest(s) else s
  }

  /** A call that has built its request and is alone: nothing queued, no command running. */
  ghost predicate Alone(s: Sys, a: Addr) {
    && s.fault == NoFault && s.head == NULL && a != NULL && a in s.frames
    && var f := s.frames[a];
       && f.task < |s.tasks| && s.current == Some(f.task)
       && f.count == f.n && f.next == NULL && f.buf >= 0
  }

  ghost predicate Woken(s: Sys, t: nat) {
    s.fault == NoFault && t < |s.tasks| && s.tasks[t].status == Running
  }

  /** The lone request is being served with `r` sectors to go. */
  ghost predicate Serving(s: Sys, a: Addr, t: nat, r: int) {
    && s.fault == NoFault && t < |s.tasks| && s.head == a && a in s.frames
    && s.dev.left == s.frames[a].count == r > 0
    && s.frames[a].buf > 0 && s.frames[a].next == NULL && s.frames[a].task == t
  }

  lemma ServingStep(s: Sys, a: Addr, t: nat, r: int)
    requires Serving(s, a, t, r) && a != NULL
    ensures r > 1 ==> Serving(ProcessRequest(s), a, t, r - 1)
    ensures r == 1 ==> Woken(ProcessRequest(s), t)
  {
  }

  lemma {:induction false} CountsDown(s: Sys, a: Addr, t: nat, r: int, k: nat)
    requires Serving(s, a, t, r) && a != NULL && k <= r
    ensures if k < r then Serving(AfterIrqs(s, k), a, t, r - k) else Woken(AfterIrqs(s, k), t)
  {
    if k > 0 {
      CountsDown(s, a, t, r, k - 1);
      ServingStep(AfterIrqs(s, k - 1), a, t, r - k + 1);
    }
  }

  /** The head request has gone past zero, so no later sector can complete it. */
  ghost predicate Overrun(s: Sys, a: Addr, t: nat) {
    && s.fault == NoFault && t < |s.tasks| && s.tasks[t].status == DiskRead
    && s.head == a && a in s.frames && s.frames[a].count < 0 && s.frames[a].buf > 0
  }

  lemma OverrunStays(s: Sys, a: Addr, t: nat)
    requires Overrun(s, a, t) && a != NULL
    ensures Overrun(NextIrq(s), a, t)
  {
  }

  lemma {:induction false} NeverEnds(s: Sys, a: Addr, t: nat, k: nat)
    requires Overrun(s, a, t) && a != NULL
    ensures Overrun(AfterIrqs(s, k), a, t)
  {
    if k > 0 {
      NeverEnds(s, a, t, k - 1);
      OverrunStays(AfterIrqs(s, k - 1), a, t);
    }
  }

  lemma {:induction false} Fails(s: Sys, a: Addr, k: nat)
    requires Alone(s, a) && (s.frames[a].n == 0 || s.frames[a].n >= 256 || s.frames[a].buf == 0)
    ensures !Woken(AfterIrqs(EnqueueRequest(s, a), k), s.frames[a].task)
  {
    if k > 1 { Fails(s, a, k - 1); }
    if k > 0 {
      if s.frames[a].n < 256 { assert AfterIrqs(EnqueueRequest(s, a), 1).fault == BugOn; }
      else { assert AfterIrqs(EnqueueRequest(s, a), 0).fault == BugOn; }
      FaultStays(EnqueueRequest(s, a), k);
    }
  }

  lemma {:induction false} FaultStays(s: Sys, k: nat)
    requires k > 0 && AfterIrqs(s, 1).fault != NoFault
    ensures AfterIrqs(s, k).fault != NoFault
  {
    if k > 1 { FaultStays(s, k - 1); }
  }

  /** The device's first `k` interrupts after the call wake the caller. */
  ghost predicate WokenAfter(s: Sys, a: Addr, k: nat)
    requires a in s.frames
  {
    Woken(AfterIrqs(EnqueueRequest(s, a), k), s.frames[a].task)
  }

  /**
   A lone read wakes its caller without tripping a check of the driver exactly
   for lengths 1 to 255 and a buffer other than NULL: lengths 0 and 256 or more
   trip a check, NULL trips another, and a negative length leaves the caller
   asleep after the device has gone quiet.
   */
  lemma ReadCompletesIff(s: Sys, a: Addr)
    requires Alone(s, a)
    ensures (exists k: nat :: WokenAfter(s, a, k)) <==> 1 <= s.frames[a].n <= 255 && s.frames[a].buf != 0
  {
    var s1, t, n := EnqueueRequest(s, a), s.frames[a].task, s.frames[a].n;
    if 1 <= n <= 255 && s.frames[a].buf != 0 {
      var k: nat := n;
      CountsDown(s1, a, t, n, k);
      assert WokenAfter(s, a, k);
    } else {
      forall k: nat ensures !WokenAfter(s, a, k) {
        if n < 0 && s.frames[a].buf != 0 { NeverEnds(s1, a, t, k); } else { Fails(s, a, k); }
      }
    }
  }
}
