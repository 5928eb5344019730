/**
 The client-go rate-limiting work queue the scheduler hands its keys to, seen as an
 environment with one ticket per key. A key is dirty while it waits to be processed,
 processing while a worker holds it, and due at a time while it sits in the delay heap.
 The ready list of the real queue holds the dirty keys that nobody is processing; its
 order is left open.
 */
module WorkQueue {
  import opened Wrappers
  import opened CredentialTypes

  datatype Ticket = Ticket(dirty: bool, processing: bool, due: Option<Time>, failures: nat) {
    predicate Ready() {
      dirty && !processing
    }

    function Add(): Ticket {
      this.(dirty := true)
    }

    function Get(): Ticket {
      this.(dirty := false, processing := true)
    }

    /** A key made dirty while it was held becomes ready again. */
    function Done(): Ticket {
      this.(processing := false)
    }

    /** The delay heap keeps the earlier of two due times. */
    function AddAfter(delay: Time, now: Time): Ticket {
      if delay <= 0 then Add()
      else if due.Some? && due.value <= now + delay then this
      else this.(due := Some(now + delay))
    }

    /** The delay heap releases a key whose time has come. */
    function Fire(): Ticket {
      this.(due := None).Add()
    }

    function AddRateLimited(now: Time, base: Time, max: Time): Ticket {
      this.(failures := failures + 1).AddAfter(Backoff(failures, base, max), now)
    }

    function Forget(): Ticket {
      this.(failures := 0)
    }
  }

  const NoTicket := Ticket(false, false, None, 0)

  /**
   A ready key is handed out once: nobody gets it again before `Done`, nor after it unless it was
   added meanwhile, and then it is ready once more. A timer that fired is gone.
   */
  lemma HandedOutOnce(t: Ticket)
    requires t.Ready()
    ensures !t.Get().Ready() && !t.Get().Add().Ready() && !t.Get().Done().Ready() && t.Get().Add().Done().Ready()
    ensures t.Fire().Ready() && t.Fire().due.None? && t.Get().Fire().Done().Ready()
  {
  }

  function Power2(n: nat): nat {
    if n == 0 then 1 else 2 * Power2(n - 1)
  }

  /** The exponential failure limiter: base times two to the failures, capped. */
  function Backoff(failures: nat, base: Time, max: Time): Time {
    if base * Power2(failures) > max then max else base * Power2(failures)
  }

  lemma {:induction false} Power2Positive(n: nat)
    ensures Power2(n) >= 1
  {
    if n > 0 {
      Power2Positive(n - 1);
    }
  }

  lemma Scale(base: Time, n: nat)
    requires base > 0 && n >= 1
    ensures base * n >= base
  {
  }

  /**
   The first retry waits the base delay, each further failure doubles the delay until the cap,
   and every delay is positive and within the cap.
   */
  lemma BackoffBounds(failures: nat, base: Time, max: Time)
    requires 0 < base <= max
    ensures Backoff(0, base, max) == base
    ensures base <= Backoff(failures, base, max) <= max
    ensures Backoff(failures + 1, base, max) ==
            if 2 * Backoff(failures, base, max) > max then max else 2 * Backoff(failures, base, max)
  {
    Power2Positive(failures);
    Scale(base, Power2(failures));
    assert base * Power2(failures + 1) == 2 * (base * Power2(failures));
  }
}
