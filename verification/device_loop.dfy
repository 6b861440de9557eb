/** The cadence of `main` in m5_device.py: the loop polls the clock, counts a
    tick whenever at least 1000 ms have passed since the last one, and on
    every fifth tick calls `publish_data`. Clock readings and sensor reads are
    inputs; the display, `check_msg` and the sleeps are not modelled. The
    loop's own sensor reads are not guarded: when one raises, the exception
    leaves `main` and the loop is over. */
module DeviceLoop {
  import opened Wrappers

  /** `cnt` and `last_time`. */
  datatype Cadence = Cadence(cnt: int, lastTime: int)

  /** The temperature and humidity `publish_data` reads; `None` when the read
      raised. */
  datatype Sample = Sample(temperature: Option<real>, humidity: Option<real>)

  /** The inputs of one loop iteration: the clock read by the elapsed-time
      test, the clock read again to stamp `last_time`, the loop's own reads for
      the display, and the sample `publish_data` would take. */
  datatype Poll = Poll(now: int, stamp: int, shown: Sample, sample: Sample)

  /** The payload `publish_data` hands to `client.publish` (before rounding). */
  datatype Report = Report(temperature: real, humidity: real)

  /** What one iteration did: nothing, counted a tick, counted the fifth
      tick and ran `publish_data` (which sent a report or nothing), or raised
      from a display read, which ends `main`. */
  datatype Event = Idle | Counted | Published(sent: Option<Report>) | Crashed
  {
    predicate Tick() { Counted? || Published? }
  }

  /** `ticks_diff(now, last)`, with the clock taken as unbounded. */
  function Elapsed(now: int, last: int): int
  {
    now - last
  }

  /** `main`'s state right after `cnt = 0; last_time = ticks_ms()`. */
  function Start(now: int): Cadence
  {
    Cadence(0, now)
  }

  /** `publish_data(client)`: a report of both readings, or nothing when a
      sensor read raised. */
  function PublishData(s: Sample): (r: Option<Report>)
    ensures r.Some? <==> s.temperature.Some? && s.humidity.Some?
    ensures r.Some? ==> Some(r.value.temperature) == s.temperature && Some(r.value.humidity) == s.humidity
  {
    match (s.temperature, s.humidity)
    case (Some(t), Some(h)) => Some(Report(t, h))
    case _ => None
  }

  /** Both of the loop's display reads succeeded. */
  predicate ReadsOk(s: Sample)
  {
    s.temperature.Some? && s.humidity.Some?
  }

  /** One iteration of the `while True` loop. */
  function Step(c: Cadence, p: Poll): (r: (Cadence, Event))
    ensures Elapsed(p.now, c.lastTime) < 1000 ==> r == (c, Idle)
    ensures Elapsed(p.now, c.lastTime) >= 1000 ==> r.0.lastTime == p.stamp && !r.1.Idle?
    // A raising display read ends the loop after `last_time` was restamped but
    // before the tick was counted.
    ensures r.1.Crashed? <==> Elapsed(p.now, c.lastTime) >= 1000 && !ReadsOk(p.shown)
    ensures r.1.Crashed? ==> r.0.cnt == c.cnt
    ensures r.1.Counted? ==> r.0.cnt == c.cnt + 1
    ensures r.1.Published? ==> r.0.cnt == 0
    ensures 0 <= c.cnt < 5 ==> 0 <= r.0.cnt < 5
    ensures r.1.Published? <==> Elapsed(p.now, c.lastTime) >= 1000 && ReadsOk(p.shown) && c.cnt == 4
    ensures r.1.Published? ==> r.1.sent == PublishData(p.sample)
  {
    if Elapsed(p.now, c.lastTime) >= 1000 then
      if !ReadsOk(p.shown) then (c.(lastTime := p.stamp), Crashed)
      else
        var cnt := c.cnt + 1;
        if cnt == 5 then (Cadence(0, p.stamp), Published(PublishData(p.sample)))
        else (Cadence(cnt, p.stamp), Counted)
    else (c, Idle)
  }

  /** The loop over a sequence of polls: the final state and the events. A
      crash ends the run, so later polls never happen. */
  function Run(c: Cadence, polls: seq<Poll>): (r: (Cadence, seq<Event>))
    ensures |r.1| <= |polls|
    ensures forall i :: 0 <= i < |r.1| - 1 ==> !r.1[i].Crashed?
    ensures |r.1| < |polls| ==> |r.1| > 0 && r.1[|r.1| - 1].Crashed?
    ensures |polls| > 0 ==> |r.1| > 0 && r.1[0] == Step(c, polls[0]).1
    // Only a raising display read stops the loop early.
    ensures (forall i :: 0 <= i < |polls| ==> ReadsOk(polls[i].shown)) ==> |r.1| == |polls|
    ensures 0 < |r.1| && r.1[|r.1| - 1].Crashed? ==> !ReadsOk(polls[|r.1| - 1].shown)
    decreases |polls|
  {
    if |polls| == 0 then (c, [])
    else
      var (c1, e) := Step(c, polls[0]);
      if e.Crashed? then (c1, [e])
      else
        var (c2, es) := Run(c1, polls[1..]);
        (c2, [e] + es)
  }

  /** How many events counted a tick. */
  function Ticks(es: seq<Event>): nat
  {
    if |es| == 0 then 0 else (if es[0].Tick() then 1 else 0) + Ticks(es[1..])
  }

  /** How many events ran `publish_data`. */
  function Publications(es: seq<Event>): nat
  {
    if |es| == 0 then 0 else (if es[0].Published? then 1 else 0) + Publications(es[1..])
  }

  /** How many events sent a report. */
  function Reports(es: seq<Event>): nat
  {
    if |es| == 0 then 0 else (if es[0].Published? && es[0].sent.Some? then 1 else 0) + Reports(es[1..])
  }

  /** `cnt` stays in 0..4 and `publish_data` runs exactly once per five
      counted ticks, up to a crash: after `n` ticks from a counter of `k` it
      has run `(k + n) / 5` times and the counter is `(k + n) % 5`. */
  lemma {:induction false} FifthTickPublishes(c: Cadence, polls: seq<Poll>)
    requires 0 <= c.cnt < 5
    ensures var (d, es) := Run(c, polls);
            && 0 <= d.cnt < 5
            && Publications(es) == (c.cnt + Ticks(es)) / 5
            && d.cnt == (c.cnt + Ticks(es)) % 5
    decreases |polls|
  {
    if |polls| > 0 {
      var (c1, e) := Step(c, polls[0]);
      if !e.Crashed? {
        var (d, es) := Run(c1, polls[1..]);
        FifthTickPublishes(c1, polls[1..]);
        assert Run(c, polls) == (d, [e] + es);
        assert ([e] + es)[1..] == es;
      } else {
        assert Run(c, polls) == (c1, [e]);
        assert [e][1..] == [];
      }
    }
  }

  /** From a fresh start, every fifth tick publishes. */
  lemma PublishesEveryFifthTick(start: int, polls: seq<Poll>)
    ensures var (d, es) := Run(Start(start), polls);
            Publications(es) == Ticks(es) / 5 && d.cnt == Ticks(es) % 5
  {
    FifthTickPublishes(Start(start), polls);
  }

  /** Every report comes from a publication; when `publish_data`'s reads
      never raise, every publication sends one. */
  lemma {:induction false} ReportsFollowPublications(c: Cadence, polls: seq<Poll>)
    ensures Reports(Run(c, polls).1) <= Publications(Run(c, polls).1)
    ensures (forall i :: 0 <= i < |polls| ==> ReadsOk(polls[i].sample))
            ==> Reports(Run(c, polls).1) == Publications(Run(c, polls).1)
    decreases |polls|
  {
    if |polls| > 0 {
      var (c1, e) := Step(c, polls[0]);
      if !e.Crashed? {
        var (d, es) := Run(c1, polls[1..]);
        ReportsFollowPublications(c1, polls[1..]);
        assert Run(c, polls).1 == [e] + es;
        assert ([e] + es)[1..] == es;
        assert (forall i :: 0 <= i < |polls| ==> ReadsOk(polls[i].sample))
               ==> (forall i :: 0 <= i < |polls[1..]| ==> ReadsOk(polls[1..][i].sample));
        if e.Published? && ReadsOk(polls[0].sample) {
          assert e.sent.Some?;
        }
      } else {
        assert Run(c, polls).1 == [e];
        assert [e][1..] == [];
      }
    }
  }
}
