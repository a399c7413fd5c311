/** The wrapping counter of src/counter.rs, as a sequential state machine.
    In the source the counter's three fields sit behind locks shared with an
    increment thread; here each wake-up of that thread is one atomic `Tick`. */
module Counters {

  import opened Arithmetic

  /** Largest value the counter shows before it wraps to 0. */
  const Top: nat := 100

  /** How many ticks a (value, miss) pair stands for: `miss` full laps of
      the 101 positions 0..100, then `value` more. */
  function Position(value: nat, miss: nat): nat
  {
    miss * (Top + 1) + value
  }

  /** What one increment does to (value, miss): count up, and on passing
      100 go back to 0 and record a miss. */
  function Advance(value: nat, miss: nat): (r: (nat, nat))
    requires value <= Top
    ensures r.0 <= Top
    ensures Position(r.0, r.1) == Position(value, miss) + 1
    ensures value < Top ==> r == (value + 1, miss)
    ensures value == Top ==> r == (0, miss + 1)
  {
    var next := value + 1;
    if next > Top then (0, miss + 1) else (next, miss)
  }

  /** (value, miss) after `n` increments from (value, miss). */
  function Ticks(n: nat, value: nat, miss: nat): (r: (nat, nat))
    requires value <= Top
    ensures r.0 <= Top
  {
    if n == 0 then (value, miss)
    else
      var before := Ticks(n - 1, value, miss);
      Advance(before.0, before.1)
  }

  /** Each increment moves the position on by exactly one. */
  lemma {:induction false} TicksAddToPosition(n: nat, value: nat, miss: nat)
    requires value <= Top
    ensures Position(Ticks(n, value, miss).0, Ticks(n, value, miss).1) == Position(value, miss) + n
  {
    if n > 0 {
      TicksAddToPosition(n - 1, value, miss);
    }
  }

  /** After `n` ticks from a fresh start the counter shows `n mod 101` and
      has missed `n div 101` times. */
  lemma {:induction false} TicksFromZero(n: nat)
    ensures Ticks(n, 0, 0) == (n % (Top + 1), n / (Top + 1))
  {
    var r := Ticks(n, 0, 0);
    TicksAddToPosition(n, 0, 0);
    DivModUnique(n, r.1, r.0, Top + 1);
  }

  /** At least one tick after a start is always visible in the result. */
  lemma {:induction false} TickAfterStartIsVisible(n: nat)
    requires n >= 1
    ensures Ticks(n, 0, 0).0 > 0 || Ticks(n, 0, 0).1 > 0
  {
    TicksFromZero(n);
  }

  /** The wrap-around examples: 101 ticks complete one lap, 150 ticks are one
      lap and 49 more, 202 ticks are two laps. */
  lemma WrapExamples()
    ensures Ticks(101, 0, 0) == (0, 1)
    ensures Ticks(150, 0, 0) == (49, 1)
    ensures Ticks(202, 0, 0) == (0, 2)
  {
    TicksFromZero(101);
    assert 101 % 101 == 0 && 101 / 101 == 1;
    TicksFromZero(150);
    assert 150 % 101 == 49 && 150 / 101 == 1;
    TicksFromZero(202);
    assert 202 % 101 == 0 && 202 / 101 == 2;
  }

  /** The counter: current value, laps missed, and whether the increment
      loop is to keep going. */
  class Counter {
    var value: nat
    var miss: nat
    var running: bool

    /** The value never leaves the ring. */
    ghost predicate Valid()
      reads this
    {
      value <= Top
    }

    /** A counter at 0 with no misses that is not running. */
    constructor ()
      ensures Valid()
      ensures value == 0 && miss == 0 && !running
    {
      value, miss, running := 0, 0, false;
    }

    /** Resets the counter and lets the increment loop run, whatever the
        previous run left behind. */
    method Start()
      modifies this
      ensures Valid()
      ensures value == 0 && miss == 0 && running
    {
      value := 0;
      miss := 0;
      running := true;
    }

    /** One wake-up of the increment loop: while running, count up by one,
        wrapping past 100 to 0 with a miss; once stopped, nothing changes. */
    method Tick()
      requires Valid()
      modifies this
      ensures Valid() && running == old(running)
      ensures running ==> (value, miss) == Advance(old(value), old(miss))
      ensures !running ==> value == old(value) && miss == old(miss)
    {
      if running {
        value := value + 1;
        if value > Top {
          value := 0;
          miss := miss + 1;
        }
      }
    }

    /** The increment loop, woken `wakeUps` times before it sees the stop
        request. */
    method Run(wakeUps: nat)
      requires Valid()
      modifies this
      ensures Valid() && running == old(running)
      ensures running ==> (value, miss) == Ticks(wakeUps, old(value), old(miss))
      ensures !running ==> value == old(value) && miss == old(miss)
    {
      var done := 0;
      while running && done < wakeUps
        invariant Valid() && running == old(running)
        invariant done <= wakeUps
        invariant running ==> (value, miss) == Ticks(done, old(value), old(miss))
        invariant !running ==> done == 0
        invariant done == 0 ==> value == old(value) && miss == old(miss)
      {
        Tick();
        done := done + 1;
      }
    }

    /** Asks the loop to stop and reports where the counter stands; the value
        and the misses themselves are left as they are. */
    method Stop() returns (finalValue: nat, finalMiss: nat)
      requires Valid()
      modifies this`running
      ensures Valid() && !running
      ensures value == old(value) && miss == old(miss)
      ensures finalValue == value && finalMiss == miss
    {
      running := false;
      finalValue := value;
      finalMiss := miss;
    }

    /** What the live display reads; reading changes nothing. */
    method GetDisplayValues() returns (shownValue: nat, shownMiss: nat, shownRunning: bool)
      requires Valid()
      ensures shownValue == value && shownMiss == miss && shownRunning == running
      ensures shownValue <= Top
    {
      shownValue, shownMiss, shownRunning := value, miss, running;
    }
  }

  /** One objective of a turn: a fresh counter is started, its loop wakes
      `wakeUps` times, and the player stops it. The result depends only on
      the number of ticks. */
  method StopAfter(wakeUps: nat) returns (finalValue: nat, finalMiss: nat)
    ensures finalValue == wakeUps % (Top + 1) && finalMiss == wakeUps / (Top + 1)
    ensures wakeUps >= 1 ==> finalValue > 0 || finalMiss > 0
  {
    var counter := new Counter();
    counter.Start();
    counter.Run(wakeUps);
    finalValue, finalMiss := counter.Stop();
    TicksFromZero(wakeUps);
  }
}
