/** What the timer operations mean, apart from any heap: a table of timers, each
    with its time, its interval and whether it is active. */
module Expiry {
  import opened Basics
  import opened TimerHeap
  import opened ReverseFeed

  /** The timers with their slots forgotten: `active` is 1 or 0. */
  function View(ws: Timers): Timers {
    map w | w in ws :: ws[w].(active := if ws[w].active != 0 then 1 else 0)
  }

  /** Expiry time of every active timer. */
  function Expiries(v: Timers): map<Id, real> {
    map w | w in v && v[w].active != 0 :: v[w].at
  }

  predicate RepeatsFit(v: Timers) {
    forall w <- v :: v[w].repeat >= 0.0
  }

  // The operations on the table.

  /** A relative time becomes absolute when the timer starts. */
  function Started(v: Timers, w: Id, now: real): Timers
    requires w in v
  {
    if v[w].active != 0 then v else v[w := v[w].(at := v[w].at + now, active := 1)]
  }

  /** The remaining time is kept when it stops. */
  function Stopped(v: Timers, w: Id, now: real): Timers
    requires w in v
  {
    if v[w].active == 0 then v else v[w := v[w].(at := v[w].at - now, active := 0)]
  }

  function Restarted(v: Timers, w: Id, now: real): Timers
    requires w in v
  {
    if v[w].repeat == 0.0 then Stopped(v, w, now)
    else v[w := v[w].(at := now + v[w].repeat, active := 1)]
  }

  function Shifted(v: Timers, adjust: real): Timers {
    map w | w in v :: if v[w].active != 0 then v[w].(at := v[w].at + adjust) else v[w]
  }

  predicate Overdue(v: Timers, w: Id, now: real) {
    w in v && v[w].active != 0 && v[w].at < now
  }

  /** The next expiry of a repeating timer, never in the past. */
  function NextExpiry(t: Timer, now: real): real {
    if t.at + t.repeat < now then now else t.at + t.repeat
  }

  function GoneOff(t: Timer, now: real): Timer {
    if t.repeat != 0.0 then t.(at := NextExpiry(t, now)) else t.(at := t.at - now, active := 0)
  }

  function Expired(v: Timers, now: real): Timers {
    map w | w in v :: if Overdue(v, w, now) then GoneOff(v[w], now) else v[w]
  }

  // Expiring one timer after the other.

  predicate Least(key: map<Id, real>, w: Id) {
    w in key && forall x <- key :: key[w] <= key[x]
  }

  function ExpiredOnly(v: Timers, fired: seq<Id>, now: real): Timers {
    map w | w in v :: if w in fired then GoneOff(v[w], now) else v[w]
  }

  /** The state between two rounds of the expiry loop. */
  ghost predicate Reifying(v0: Timers, now: real, fired: seq<Id>, v: Timers) {
    var key := Expiries(v0);
    && Distinct(fired) && Sorted(key, fired)
    && (forall x <- fired :: Overdue(v0, x, now))
    && (forall x <- fired, y <- key :: y !in fired ==> key[x] <= key[y])
    && v == ExpiredOnly(v0, fired, now)
  }

  lemma ReifyStart(v: Timers, now: real)
    ensures Reifying(v, now, [], v)
  {
  }

  lemma ReifyStep(v0: Timers, now: real, fired: seq<Id>, v: Timers, w: Id)
    requires Reifying(v0, now, fired, v) && RepeatsFit(v0)
    requires w in v && Overdue(v, w, now) && Least(Expiries(v), w)
    ensures w in v0 && w !in fired && v0[w].repeat == v[w].repeat
    ensures Reifying(v0, now, fired + [w], v[w := GoneOff(v[w], now)])
  {
    var key := Expiries(v0);
    assert w !in fired && w in key;
    forall y <- key | y !in fired + [w] ensures key[w] <= key[y] { assert y in Expiries(v); }
  }

  lemma ReifyEnd(v0: Timers, now: real, fired: seq<Id>, v: Timers)
    requires Reifying(v0, now, fired, v) && forall w :: !Overdue(v, w, now)
    ensures forall w :: w in fired <==> Overdue(v0, w, now)
    ensures Distinct(fired) && Sorted(Expiries(v0), fired)
    ensures v == Expired(v0, now)
  {
    forall w: Id | Overdue(v0, w, now) ensures w in fired {
      assert !Overdue(v, w, now);
    }
  }

  /** After expiry no timer is overdue, and none fires twice for one `now`. */
  lemma ExpiredSettles(v: Timers, now: real)
    requires RepeatsFit(v)
    ensures forall w :: !Overdue(Expired(v, now), w, now)
    ensures Expired(Expired(v, now), now) == Expired(v, now)
  {
    forall w: Id ensures !Overdue(Expired(v, now), w, now) {}
  }

  lemma ViewRepeats(ws: Timers)
    requires RepeatsFit(ws)
    ensures RepeatsFit(View(ws)) && View(ws).Keys == ws.Keys
  {
    assert forall w <- View(ws) :: View(ws)[w].repeat == ws[w].repeat;
  }
}
