/**
 * The settle-and-retry sequencer of pkg/felicita/felicita.go as functions on
 * a Link: the device acknowledges a buzzer toggle only by later reporting the
 * new flag, so every toggle is followed by polling the flag until it shows
 * the target value or the retry budget runs out.
 */
module Sequencer {
  import opened ScaleTypes
  import opened Codec
  import opened Transport

  /** The poll budget of waitForBuzzer (the 50 ms pause between polls is not modelled). */
  const SettleRetries := 100

  function Repeat(b: byte, m: nat): (s: seq<byte>)
    ensures |s| == m && forall i :: 0 <= i < m ==> s[i] == b
  {
    if m == 0 then [] else Repeat(b, m - 1) + [b]
  }

  /** Two runs of the same byte make one run of the summed length. */
  lemma {:induction false} RepeatAdd(b: byte, m: nat, k: nat)
    ensures Repeat(b, m) + Repeat(b, k) == Repeat(b, m + k)
    decreases k
  {
    if k > 0 {
      RepeatAdd(b, m, k - 1);
      assert Repeat(b, m) + Repeat(b, k) == Repeat(b, m) + Repeat(b, k - 1) + [b];
    }
  }

  /** From l to l' the log grew by at most max bytes, every one a buzzer toggle. */
  predicate OnlyToggles(l: Link, l': Link, max: nat) {
    |l.sent| <= |l'.sent| <= |l.sent| + max
    && l'.sent == l.sent + Repeat(CmdToggleBuzzer, |l'.sent| - |l.sent|)
  }

  lemma TogglesCompose(a: Link, b: Link, c: Link, m: nat, k: nat)
    requires OnlyToggles(a, b, m) && OnlyToggles(b, c, k)
    ensures OnlyToggles(a, c, m + k)
  {
    RepeatAdd(CmdToggleBuzzer, |b.sent| - |a.sent|, |c.sent| - |b.sent|);
  }

  /** ToggleBuzzingOnTouch: one write of the toggle opcode. */
  function Toggle(o: Oracle, l: Link): (res: (Outcome, Link))
    ensures res.1.flag == l.flag && res.1.polls == l.polls
    ensures res.1.sent == if o.ready then l.sent + [CmdToggleBuzzer] else l.sent
    ensures res.0.Ok? <==> o.ready && !o.writeFails(|l.sent|)
    ensures !o.ready ==> res.0 == Fail(NotReady)
  {
    Transmit(o, l, CmdToggleBuzzer)
  }

  /** A toggle writes at most one byte, the toggle opcode. */
  lemma ToggleOnlyToggles(o: Oracle, l: Link)
    ensures OnlyToggles(l, Toggle(o, l).1, 1)
  {
    assert Repeat(CmdToggleBuzzer, 1) == [CmdToggleBuzzer];
  }

  /**
   * The poll loop of waitForBuzzer, up to a deadline on the poll counter:
   * each poll reads the flag and succeeds when it equals the target; a poll
   * counter that reaches the deadline is a timeout.
   */
  function Wait(o: Oracle, l: Link, target: bool, deadline: nat): (res: (Outcome, Link))
    requires l.polls <= deadline
    ensures res.1.sent == l.sent
    ensures l.polls <= res.1.polls <= deadline
    ensures res.0.Ok? ==> res.1.flag == target && l.polls < res.1.polls
    ensures res.0.Fail? ==> res.0 == Fail(SettleTimeout(target)) && res.1.polls == deadline
    decreases deadline - l.polls
  {
    if l.polls == deadline then (Fail(SettleTimeout(target)), l)
    else
      var l' := l.(flag := o.seen(l.polls), polls := l.polls + 1);
      if l'.flag == target then (Ok, l') else Wait(o, l', target, deadline)
  }

  /** waitForBuzzer: the poll loop with a budget of SettleRetries polls. */
  function Settle(o: Oracle, l: Link, target: bool): (res: (Outcome, Link))
    ensures res.1.sent == l.sent
    ensures l.polls < res.1.polls <= l.polls + SettleRetries
    ensures res.0.Ok? ==> res.1.flag == target
    ensures res.0.Fail? ==> res.0 == Fail(SettleTimeout(target)) && res.1.polls == l.polls + SettleRetries
  {
    Wait(o, l, target, l.polls + SettleRetries)
  }

  /** One poll of the wait: a read of the target ends it, any other read leaves one poll fewer. */
  lemma WaitStep(o: Oracle, l: Link, target: bool, deadline: nat)
    requires l.polls < deadline
    ensures
      var l' := l.(flag := o.seen(l.polls), polls := l.polls + 1);
      Wait(o, l, target, deadline) == if l'.flag == target then (Ok, l') else Wait(o, l', target, deadline)
  {
  }

  /** The wait succeeds exactly when one of the polls before the deadline reads the target. */
  lemma {:induction false} WaitSucceedsIff(o: Oracle, l: Link, target: bool, deadline: nat)
    requires l.polls <= deadline
    ensures Wait(o, l, target, deadline).0.Ok? <==>
      exists k :: l.polls <= k < deadline && o.seen(k) == target
    decreases deadline - l.polls
  {
    if l.polls < deadline {
      var l' := l.(flag := o.seen(l.polls), polls := l.polls + 1);
      if o.seen(l.polls) != target {
        WaitSucceedsIff(o, l', target, deadline);
        if exists k :: l.polls <= k < deadline && o.seen(k) == target {
          var k :| l.polls <= k < deadline && o.seen(k) == target;
          assert k != l.polls;
        }
      }
    }
  }

  /** A successful wait stops at the first poll that reads the target. */
  lemma {:induction false} WaitStopsAtFirst(o: Oracle, l: Link, target: bool, deadline: nat)
    requires l.polls <= deadline && Wait(o, l, target, deadline).0.Ok?
    ensures
      var last := Wait(o, l, target, deadline).1.polls - 1;
      l.polls <= last && o.seen(last) == target
      && forall k :: l.polls <= k < last ==> o.seen(k) != target
    decreases deadline - l.polls
  {
    if o.seen(l.polls) != target {
      WaitStopsAtFirst(o, l.(flag := o.seen(l.polls), polls := l.polls + 1), target, deadline);
    }
  }

  /**
   * waitForBuzzer succeeds exactly when one of its SettleRetries polls reads
   * the target, and it then stops at the first such poll.
   */
  lemma SettleSucceedsIff(o: Oracle, l: Link, target: bool)
    ensures Settle(o, l, target).0.Ok? <==>
      exists k :: l.polls <= k < l.polls + SettleRetries && o.seen(k) == target
    ensures Settle(o, l, target).0.Ok? ==>
      var last := Settle(o, l, target).1.polls - 1;
      o.seen(last) == target && forall k :: l.polls <= k < last ==> o.seen(k) != target
  {
    WaitSucceedsIff(o, l, target, l.polls + SettleRetries);
    if Settle(o, l, target).0.Ok? {
      WaitStopsAtFirst(o, l, target, l.polls + SettleRetries);
    }
  }

  /** buzzAndRestore: toggle, wait for on, toggle, wait for off; the first failure ends it. */
  function Cycle(o: Oracle, l: Link): (res: (Outcome, Link))
    ensures res.0.Ok? ==> !res.1.flag
    ensures !o.ready ==> res == (Fail(NotReady), l)
  {
    var (r1, l1) := Toggle(o, l);
    if r1.Fail? then (r1, l1)
    else
      var (r2, l2) := Settle(o, l1, true);
      if r2.Fail? then (r2, l2)
      else
        var (r3, l3) := Toggle(o, l2);
        if r3.Fail? then (r3, l3)
        else Settle(o, l3, false)
  }

  /**
   * A buzz cycle writes at most two toggles, and exactly two when it
   * succeeds.
   */
  lemma CycleToggles(o: Oracle, l: Link)
    ensures OnlyToggles(l, Cycle(o, l).1, 2)
    ensures Cycle(o, l).0.Ok? ==> |Cycle(o, l).1.sent| == |l.sent| + 2
  {
    var (r1, l1) := Toggle(o, l);
    ToggleOnlyToggles(o, l);
    if r1.Ok? {
      var (r2, l2) := Settle(o, l1, true);
      if r2.Ok? {
        ToggleOnlyToggles(o, l2);
        TogglesCompose(l, l2, Toggle(o, l2).1, 1, 1);
      }
    }
  }

  /** The loop of Buzz: k buzz cycles, stopping at the first failure. */
  function Cycles(o: Oracle, l: Link, k: nat): (res: (Outcome, Link))
    ensures res.0.Ok? && k > 0 ==> !res.1.flag
    ensures k > 0 && !o.ready ==> res == (Fail(NotReady), l)
    decreases k
  {
    if k == 0 then (Ok, l)
    else
      var (r, l') := Cycle(o, l);
      if r.Fail? then (r, l') else Cycles(o, l', k - 1)
  }

  /** One step of the loop of Buzz: a failed cycle ends it, a successful one leaves k - 1 to go. */
  lemma CyclesStep(o: Oracle, l: Link, k: nat)
    requires k > 0
    ensures Cycle(o, l).0.Fail? ==> Cycles(o, l, k) == Cycle(o, l)
    ensures Cycle(o, l).0.Ok? ==> Cycles(o, l, k) == Cycles(o, Cycle(o, l).1, k - 1)
  {
  }

  /**
   * k cycles write at most 2k toggles, and exactly 2k when they all
   * succeed.
   */
  lemma {:induction false} CyclesToggles(o: Oracle, l: Link, k: nat)
    ensures OnlyToggles(l, Cycles(o, l, k).1, 2 * k)
    ensures Cycles(o, l, k).0.Ok? ==> |Cycles(o, l, k).1.sent| == |l.sent| + 2 * k
    decreases k
  {
    if k == 0 {
      assert Repeat(CmdToggleBuzzer, 0) == [];
    } else {
      CycleToggles(o, l);
      var c := Cycle(o, l);
      if c.0.Ok? {
        CyclesToggles(o, c.1, k - 1);
        TogglesCompose(l, c.1, Cycles(o, c.1, k - 1).1, 2, 2 * (k - 1));
      } else {
        assert OnlyToggles(l, c.1, 2 * k);
      }
    }
  }

  /** The deferred restore of Buzz: toggle the buzzer back on and wait until it reads on. */
  function Restore(o: Oracle, l: Link): (res: (Outcome, Link))
    ensures res.0.Ok? ==> res.1.flag
    ensures !o.ready ==> res == (Fail(NotReady), l)
  {
    var (r1, l1) := Toggle(o, l);
    if r1.Fail? then (r1, l1) else Settle(o, l1, true)
  }

  /** The restore writes at most one toggle, and exactly one when connected. */
  lemma RestoreToggles(o: Oracle, l: Link)
    ensures OnlyToggles(l, Restore(o, l).1, 1)
    ensures o.ready ==> |Restore(o, l).1.sent| == |l.sent| + 1
  {
    ToggleOnlyToggles(o, l);
  }

  /**
   * Buzz(n). A non-positive n is refused before anything is written. With the
   * buzzer on, it is first toggled off (the final re-enable buzzes once, so
   * only n - 1 cycles follow) and a restore is registered that runs after the
   * cycles whatever their outcome; a restore failure replaces the result.
   */
  function Buzz(o: Oracle, l: Link, n: int): (res: (Outcome, Link))
    ensures res.0.Ok? ==> n > 0 && res.1.flag == l.flag
    ensures n > 0 && !o.ready ==> res == (Fail(NotReady), l)
  {
    if n <= 0 then (Fail(InvalidBeepCount(n)), l)
    else if l.flag then
      var (r1, l1) := Toggle(o, l);
      if r1.Fail? then (r1, l1)
      else
        var (r2, l2) := Settle(o, l1, false);
        if r2.Fail? then (r2, l2)
        else
          var (r3, l3) := Cycles(o, l2, n - 1);
          var (r4, l4) := Restore(o, l3);
          (if r4.Fail? then r4 else r3, l4)
    else Cycles(o, l, n)
  }

  /** Buzz with the buzzer on, once the opening toggle and wait have succeeded. */
  lemma BuzzWithRestore(o: Oracle, l: Link, n: int)
    requires n > 0 && l.flag && Toggle(o, l).0.Ok?
    requires Settle(o, Toggle(o, l).1, false).0.Ok?
    ensures
      var loop := Cycles(o, Settle(o, Toggle(o, l).1, false).1, n - 1);
      var restore := Restore(o, loop.1);
      Buzz(o, l, n) == (if restore.0.Fail? then restore.0 else loop.0, restore.1)
  {
  }

  /**
   * A non-positive count is refused with nothing written; otherwise Buzz(n)
   * writes at most 2n bytes, all buzzer toggles.
   */
  lemma BuzzToggles(o: Oracle, l: Link, n: int)
    ensures n <= 0 ==> Buzz(o, l, n) == (Fail(InvalidBeepCount(n)), l)
    ensures n > 0 ==> OnlyToggles(l, Buzz(o, l, n).1, 2 * n)
  {
    if n > 0 {
      if l.flag {
        ToggleOnlyToggles(o, l);
        var (r1, l1) := Toggle(o, l);
        if r1.Ok? {
          var (r2, l2) := Settle(o, l1, false);
          if r2.Ok? {
            CyclesToggles(o, l2, n - 1);
            var (r3, l3) := Cycles(o, l2, n - 1);
            RestoreToggles(o, l3);
            TogglesCompose(l, l2, l3, 1, 2 * (n - 1));
            TogglesCompose(l, l3, Restore(o, l3).1, 2 * n - 1, 1);
          } else {
            assert OnlyToggles(l, l2, 2 * n);
          }
        } else {
          assert OnlyToggles(l, l1, 2 * n);
        }
      } else {
        CyclesToggles(o, l, n);
      }
    }
  }

  /**
   * A successful Buzz(n) wrote exactly 2n toggles, whether the buzzer
   * started on or off.
   */
  lemma BuzzRestoresFlag(o: Oracle, l: Link, n: int)
    requires n > 0 && Buzz(o, l, n).0.Ok?
    ensures Buzz(o, l, n).1.sent == l.sent + Repeat(CmdToggleBuzzer, 2 * n)
  {
    BuzzToggles(o, l, n);
    if l.flag {
      var (r1, l1) := Toggle(o, l);
      var (r2, l2) := Settle(o, l1, false);
      CyclesToggles(o, l2, n - 1);
      var (r3, l3) := Cycles(o, l2, n - 1);
      RestoreToggles(o, l3);
    } else {
      CyclesToggles(o, l, n);
    }
  }

  /**
   * Once the opening toggle and wait have succeeded, the restore runs after
   * the loop whatever its outcome: its toggle follows the loop's writes, a
   * loop error survives a successful restore (with the flag back on), and a
   * restore error replaces the loop's result, success included.
   */
  lemma DeferredRestore(o: Oracle, l: Link, n: int)
    requires n > 0 && l.flag
    requires Toggle(o, l).0.Ok?
    requires Settle(o, Toggle(o, l).1, false).0.Ok?
    ensures
      var loop := Cycles(o, Settle(o, Toggle(o, l).1, false).1, n - 1);
      var restore := Restore(o, loop.1);
      var res := Buzz(o, l, n);
      |res.1.sent| == |loop.1.sent| + 1
      && (loop.0.Fail? && restore.0.Ok? ==> res.0 == loop.0 && res.1.flag)
      && (restore.0.Fail? ==> res.0 == restore.0)
  {
    RestoreToggles(o, Cycles(o, Settle(o, Toggle(o, l).1, false).1, n - 1).1);
  }
}
