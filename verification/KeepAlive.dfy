/** The chat connection's keep-alive timing: the writer pings every PING_PERIOD, the
    reader's deadline is pushed to PONG_WAIT from now at its start and on every pong.
    All times are nanoseconds. */
module KeepAlive {

  const PONG_WAIT: int := 60_000_000_000
  const PING_PERIOD: int := PONG_WAIT * 9 / 10

  /** One connection, for an unbounded run of pings numbered from 1: when readPump and
      the ticker of writePump start, when ping k is written and when its pong is
      handled. */
  datatype Schedule = Schedule(readerStart: int, tickerStart: int, pinged: nat -> int, ponged: nat -> int)

  function TickTime(s: Schedule, k: nat): int {
    s.tickerStart + k * PING_PERIOD
  }

  /** The ticker starts at most `skew` after the reader, every ping is written at most
      `delay` after its tick and every pong handled at most `latency` after its ping. */
  ghost predicate Fits(s: Schedule, skew: int, delay: int, latency: int) {
    && s.tickerStart <= s.readerStart + skew
    && forall k: nat :: k >= 1 ==>
         && TickTime(s, k) <= s.pinged(k) <= TickTime(s, k) + delay
         && s.pinged(k) <= s.ponged(k) <= s.pinged(k) + latency
  }

  /** When the read deadline is set for the k-th time (the 0-th is the reader's start). */
  function SetAt(s: Schedule, k: nat): int {
    if k == 0 then s.readerStart else s.ponged(k)
  }

  /** Each pong is handled while the deadline in force has not passed. */
  ghost predicate NeverExpires(s: Schedule) {
    forall k: nat :: SetAt(s, k + 1) < SetAt(s, k) + PONG_WAIT
  }

  lemma SlackSuffices(s: Schedule, skew: int, delay: int, latency: int)
    requires Fits(s, skew, delay, latency)
    requires 0 <= skew && skew + delay + latency < PONG_WAIT - PING_PERIOD
    ensures NeverExpires(s)
  {
    forall k: nat ensures SetAt(s, k + 1) < SetAt(s, k) + PONG_WAIT {
      assert TickTime(s, k + 1) == TickTime(s, k) + PING_PERIOD;
      assert s.ponged(k + 1) <= s.pinged(k + 1) + latency <= TickTime(s, k + 1) + delay + latency;
      if k > 0 {
        assert TickTime(s, k) <= s.pinged(k) <= s.ponged(k);
      }
    }
  }

  /** The slowest connection the three bounds allow. */
  function Worst(skew: int, delay: int, latency: int): Schedule {
    Schedule(0, skew,
             (k: nat) => skew + k * PING_PERIOD + delay,
             (k: nat) => skew + k * PING_PERIOD + delay + latency)
  }

  /** The bounds keep every such connection alive, over any number of pings, exactly
      when they sum to less than the 6 seconds between PING_PERIOD and PONG_WAIT. */
  lemma KeepAliveCondition(skew: int, delay: int, latency: int)
    requires 0 <= skew && 0 <= delay && 0 <= latency
    ensures (forall s :: Fits(s, skew, delay, latency) ==> NeverExpires(s))
            <==> skew + delay + latency < 6_000_000_000
  {
    if skew + delay + latency < PONG_WAIT - PING_PERIOD {
      forall s | Fits(s, skew, delay, latency) ensures NeverExpires(s) {
        SlackSuffices(s, skew, delay, latency);
      }
    } else {
      var w := Worst(skew, delay, latency);
      assert Fits(w, skew, delay, latency);
      assert SetAt(w, 0 + 1) >= SetAt(w, 0) + PONG_WAIT;
    }
  }

  /** The times in force: ping k is due 54 seconds times k after the ticker's start, and the
      connection survives exactly if no two settings of the deadline are 60 seconds or
      more apart. */
  lemma TimesInForce(s: Schedule, skew: int, delay: int, latency: int)
    requires Fits(s, skew, delay, latency)
    ensures forall k: nat :: k >= 1 ==> 0 <= s.pinged(k) - s.tickerStart - 54_000_000_000 * k <= delay
    ensures NeverExpires(s) <==> forall k: nat :: SetAt(s, k + 1) - SetAt(s, k) < 60_000_000_000
  {
    forall k: nat | k >= 1 ensures 0 <= s.pinged(k) - s.tickerStart - 54_000_000_000 * k <= delay {
      assert TickTime(s, k) <= s.pinged(k) <= TickTime(s, k) + delay;
    }
  }

  /** From its start on, at every instant some deadline already set lies ahead. */
  lemma {:induction false} AliveAt(s: Schedule, skew: int, delay: int, latency: int, t: int, k: nat)
    requires Fits(s, skew, delay, latency) && NeverExpires(s)
    requires SetAt(s, k) <= t
    ensures exists j: nat :: j >= k && SetAt(s, j) <= t < SetAt(s, j) + 60_000_000_000
    decreases t - s.tickerStart - k * PING_PERIOD
  {
    if t < SetAt(s, k) + PONG_WAIT {
    } else {
      assert SetAt(s, k + 1) < SetAt(s, k) + PONG_WAIT;
      assert TickTime(s, k + 1) == TickTime(s, k) + PING_PERIOD;
      assert k > 0 ==> TickTime(s, k) <= s.pinged(k) <= s.ponged(k);
      AliveAt(s, skew, delay, latency, t, k + 1);
    }
  }
}
