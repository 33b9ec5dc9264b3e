/** The automatic on/off policy: a decision is confirmed over several ticks, and
    a failed start is followed by a pause. */
module Failover {
  import opened Options

  /** What one tick found: the switch when it decided, the probes, the tunnel, the
      configured number of confirmations and the time. */
  datatype Tick = Tick(enabled: bool, openOK: bool, whitelistOK: bool, running: bool, hysteresis: int, now: int)

  datatype Action = Nothing | Start | Stop

  /** "nextStart" is the end of the pause (None: no pause); "starting" is set while
      a start that a tick has asked for has not come back. */
  datatype Control = Control(pending: nat, proposedOn: bool, nextStart: Option<int>, starting: bool)

  const Fresh := Control(0, false, None, false)

  /** Only free internet makes the tunnel unnecessary. */
  predicate WantOn(t: Tick) {
    !t.openOK
  }

  /** The tick asks for a change. */
  predicate Wants(t: Tick, on: bool) {
    t.enabled && WantOn(t) == on && t.running == !on
  }

  predicate InPause(c: Control, now: int) {
    c.nextStart.Some? && now < c.nextStart.value
  }

  function Counted(c: Control, t: Tick): nat {
    if !Wants(t, WantOn(t)) then 0 else if c.proposedOn == WantOn(t) then c.pending + 1 else 1
  }

  function Decision(c: Control, t: Tick): Action {
    if Counted(c, t) == 0 || Counted(c, t) < t.hysteresis then Nothing
    else if WantOn(t) then (if InPause(c, t.now) then Nothing else Start)
    else Stop
  }

  function AfterTick(c: Control, t: Tick): Control {
    var n := Counted(c, t);
    c.(pending := if n >= t.hysteresis then 0 else n,
       proposedOn := if n == 0 then c.proposedOn else WantOn(t),
       starting := Decision(c, t) == Start)
  }

  // ----- runs -----

  /** Ticks are serialised; resets and the end of a start happen in between. */
  datatype Event = Ticked(t: Tick) | Reset(now: int) | Started(ok: bool, now: int, backoff: nat)

  function TimeOf(e: Event): int {
    match e case Ticked(t) => t.now case Reset(now) => now case Started(_, now, _) => now
  }

  predicate Enabled(c: Control, e: Event) {
    match e case Ticked(_) => !c.starting case Reset(_) => true case Started(_, _, _) => c.starting
  }

  function Step(c: Control, e: Event): Control {
    match e
    case Ticked(t) => AfterTick(c, t)
    case Reset(_) => c.(nextStart := None)
    case Started(ok, now, backoff) => c.(starting := false, nextStart := if ok then c.nextStart else Some(now + backoff))
  }

  function ActionOf(c: Control, e: Event): Action {
    if e.Ticked? then Decision(c, e.t) else Nothing
  }

  /** A run with a clock that does not go back. */
  ghost predicate Runs(es: seq<Event>, cs: seq<Control>) {
    && |cs| == |es| + 1 && cs[0] == Fresh
    && (forall i :: 0 <= i < |es| ==> Enabled(cs[i], es[i]) && cs[i + 1] == Step(cs[i], es[i]))
    && (forall i, j :: 0 <= i < j < |es| ==> TimeOf(es[i]) <= TimeOf(es[j]))
  }

  /** The ticks of a run, in order. */
  function Ticks(es: seq<Event>): seq<Tick> {
    if es == [] then []
    else Ticks(es[..|es| - 1]) + if es[|es| - 1].Ticked? then [es[|es| - 1].t] else []
  }

  /** The last n ticks all ask for the same change. */
  ghost predicate Agree(ts: seq<Tick>, n: nat, on: bool) {
    n <= |ts| && forall k :: |ts| - n <= k < |ts| ==> Wants(ts[k], on)
  }

  lemma TicksUpTo(es: seq<Event>, i: nat)
    requires i < |es|
    ensures Ticks(es[..i + 1]) == Ticks(es[..i]) + if es[i].Ticked? then [es[i].t] else []
  {
    assert es[..i + 1][..i] == es[..i];
  }

  /** The pending count is backed by that many agreeing ticks. */
  lemma {:induction false} PendingBacked(es: seq<Event>, cs: seq<Control>, i: nat)
    requires Runs(es, cs) && i <= |es|
    ensures Agree(Ticks(es[..i]), cs[i].pending, cs[i].proposedOn)
  {
    hide Wants, Decision;
    if i > 0 {
      PendingBacked(es, cs, i - 1);
      TicksUpTo(es, i - 1);
      assert Enabled(cs[i - 1], es[i - 1]) && cs[i] == Step(cs[i - 1], es[i - 1]);
      if es[i - 1].Ticked? {
        CountBacked(Ticks(es[..i - 1]), cs[i - 1], es[i - 1].t);
      }
    }
  }

  lemma CountBacked(ts: seq<Tick>, c: Control, t: Tick)
    requires Agree(ts, c.pending, c.proposedOn)
    ensures Agree(ts + [t], Counted(c, t), WantOn(t))
  {
  }

  /** In every run, a start or stop at a tick with hysteresis H comes only after
      that tick and the H - 1 before it were all enabled, all wanted that state
      and all saw the opposite one; and a start never falls into a pause. */
  lemma ChangeIsConfirmed(es: seq<Event>, cs: seq<Control>, i: nat)
    requires Runs(es, cs) && i < |es| && ActionOf(cs[i], es[i]) != Nothing
    ensures var t := es[i].t; var on := ActionOf(cs[i], es[i]) == Start;
      && Agree(Ticks(es[..i + 1]), if t.hysteresis > 1 then t.hysteresis else 1, on)
      && (on ==> !InPause(cs[i], t.now))
  {
    hide Wants;
    var t := es[i].t;
    PendingBacked(es, cs, i);
    TicksUpTo(es, i);
    CountBacked(Ticks(es[..i]), cs[i], t);
    ShorterAgree(Ticks(es[..i + 1]), Counted(cs[i], t), if t.hysteresis > 1 then t.hysteresis else 1, WantOn(t));
  }

  lemma ShorterAgree(ts: seq<Tick>, n: nat, m: nat, on: bool)
    requires Agree(ts, n, on) && m <= n
    ensures Agree(ts, m, on)
  {
  }

  /** A working tunnel is stopped only when open probes succeeded on every one of
      those ticks, whatever the whitelist probes said. */
  lemma StopNeedsOpenInternet(es: seq<Event>, cs: seq<Control>, i: nat)
    requires Runs(es, cs) && i < |es| && ActionOf(cs[i], es[i]) == Stop
    ensures var ts := Ticks(es[..i + 1]); var n := if es[i].t.hysteresis > 1 then es[i].t.hysteresis else 1;
      n <= |ts| && forall k :: |ts| - n <= k < |ts| ==> ts[k].openOK && ts[k].running
  {
    ChangeIsConfirmed(es, cs, i);
  }

  // ----- a steady wish is acted on -----

  /** The tick has enough confirmations; it acts unless a pause forbids a start. */
  predicate Confirms(c: Control, t: Tick) {
    Counted(c, t) > 0 && Counted(c, t) >= t.hysteresis
  }

  predicate ActsUnlessPaused(c: Control, t: Tick, on: bool) {
    Decision(c, t) == (if on then Start else Stop) || (on && InPause(c, t.now))
  }

  lemma ConfirmedActs(c: Control, t: Tick, on: bool)
    requires Confirms(c, t) && Wants(t, on)
    ensures ActsUnlessPaused(c, t, on)
  {
  }

  function Fold(c: Control, ts: seq<Tick>): Control {
    if ts == [] then c else AfterTick(Fold(c, ts[..|ts| - 1]), ts[|ts| - 1])
  }

  lemma {:induction false} CountsUp(c: Control, ts: seq<Tick>, on: bool, k: nat)
    requires k <= |ts| && forall i :: 0 <= i < |ts| ==> Wants(ts[i], on)
    requires forall i :: 0 <= i < k ==> !Confirms(Fold(c, ts[..i]), ts[i])
    ensures Fold(c, ts[..k]).pending >= k && (k > 0 ==> Fold(c, ts[..k]).proposedOn == on)
  {
    if k > 0 {
      CountsUp(c, ts, on, k - 1);
      assert ts[..k][..k - 1] == ts[..k - 1];
      assert Wants(ts[k - 1], on);
    }
  }

  /** From any state, among any H ticks in a row that ask for the same change with
      hysteresis at most H, one makes it, or would but for the pause. */
  lemma SteadyWishIsConfirmed(c: Control, ts: seq<Tick>, on: bool, h: nat)
    requires h >= 1 && |ts| == h && forall i :: 0 <= i < |ts| ==> Wants(ts[i], on) && ts[i].hysteresis <= h
    ensures exists k :: 0 <= k < |ts| && ActsUnlessPaused(Fold(c, ts[..k]), ts[k], on)
  {
    hide AfterTick, ActsUnlessPaused;
    if forall k :: 0 <= k < |ts| ==> !Confirms(Fold(c, ts[..k]), ts[k]) {
      CountsUp(c, ts, on, h - 1);
    } else {
      var k :| 0 <= k < |ts| && Confirms(Fold(c, ts[..k]), ts[k]);
      ConfirmedActs(Fold(c, ts[..k]), ts[k], on);
    }
  }

  /** In terms of the probes: as many ticks in a row as the hysteresis, all with the
      policy on, open probes succeeding and the tunnel running, stop it. */
  lemma OpenInternetStops(c: Control, ts: seq<Tick>, h: nat)
    requires h >= 1 && |ts| == h
    requires forall i :: 0 <= i < |ts| ==> ts[i].enabled && ts[i].openOK && ts[i].running && ts[i].hysteresis <= h
    ensures exists k :: 0 <= k < |ts| && Decision(Fold(c, ts[..k]), ts[k]) == Stop
  {
    hide Decision, Fold;
    SteadyWishIsConfirmed(c, ts, false, h);
    var k :| 0 <= k < |ts| && ActsUnlessPaused(Fold(c, ts[..k]), ts[k], false);
  }

  /** And without open internet, whatever the whitelist probes say, a stopped tunnel
      is started, unless a failed start is being waited out. */
  lemma ClosedInternetStarts(c: Control, ts: seq<Tick>, h: nat)
    requires h >= 1 && |ts| == h
    requires forall i :: 0 <= i < |ts| ==> ts[i].enabled && !ts[i].openOK && !ts[i].running && ts[i].hysteresis <= h
    ensures exists k :: 0 <= k < |ts| && (Decision(Fold(c, ts[..k]), ts[k]) == Start || InPause(Fold(c, ts[..k]), ts[k].now))
  {
    hide Decision, Fold;
    SteadyWishIsConfirmed(c, ts, true, h);
    var k :| 0 <= k < |ts| && ActsUnlessPaused(Fold(c, ts[..k]), ts[k], true);
  }

  /** A single tick starts only without open internet and stops only with it, and
      only against the state it saw. */
  lemma ActsOnProbes(c: Control, t: Tick)
    ensures Decision(c, t) == Start ==> t.enabled && !t.openOK && !t.running
    ensures Decision(c, t) == Stop ==> t.enabled && t.openOK && t.running
  {
  }

  // ----- the pause -----

  ghost predicate NoReset(es: seq<Event>, i: nat, j: nat)
    requires j <= |es|
  {
    forall k :: i < k < j ==> !es[k].Reset?
  }

  /** From the end of a failed start on, until a reset, either the pause still
      covers it or the clock has passed it. */
  lemma {:induction false} PauseHolds(es: seq<Event>, cs: seq<Control>, i: nat, j: nat)
    requires Runs(es, cs) && i < j <= |es| && es[i].Started? && !es[i].ok && NoReset(es, i, j)
    ensures var end := es[i].now + es[i].backoff;
      (cs[j].nextStart.Some? && cs[j].nextStart.value >= end)
      || (exists k :: i < k < j && TimeOf(es[k]) >= end)
    decreases j
  {
    var end := es[i].now + es[i].backoff;
    assert Enabled(cs[j - 1], es[j - 1]) && cs[j] == Step(cs[j - 1], es[j - 1]);
    if j > i + 1 {
      PauseHolds(es, cs, i, j - 1);
      assert !es[j - 1].Reset?;
      if es[j - 1].Started? && !es[j - 1].ok {
        StartAsked(es, cs, j - 1);
        var a :| 0 <= a < j - 1 && ActionOf(cs[a], es[a]) == Start && forall k :: a < k < j - 1 ==> !es[k].Ticked? && !es[k].Started?;
        assert a > i;
        PauseHolds(es, cs, i, a);
        assert !InPause(cs[a], es[a].t.now);
        if cs[a].nextStart.Some? && cs[a].nextStart.value >= end {
          assert TimeOf(es[a]) >= end;
        }
      }
    }
  }

  /** A start that comes back was asked for by an earlier tick, with no tick or
      other start in between. */
  lemma {:induction false} StartAsked(es: seq<Event>, cs: seq<Control>, j: nat)
    requires Runs(es, cs) && j < |es| && cs[j].starting
    ensures exists a :: 0 <= a < j && ActionOf(cs[a], es[a]) == Start && forall k :: a < k < j ==> !es[k].Ticked? && !es[k].Started?
    decreases j
  {
    if j > 0 {
      assert Enabled(cs[j - 1], es[j - 1]) && cs[j] == Step(cs[j - 1], es[j - 1]);
      if es[j - 1].Reset? {
        StartAsked(es, cs, j - 1);
      } else {
        assert ActionOf(cs[j - 1], es[j - 1]) == Start;
      }
    }
  }

  /** In every run, no start is tried before the pause after a failed one has
      ended, unless it was reset in between. */
  lemma NoStartInPause(es: seq<Event>, cs: seq<Control>, i: nat, j: nat)
    requires Runs(es, cs) && i < j < |es| && es[i].Started? && !es[i].ok && NoReset(es, i, j)
    requires ActionOf(cs[j], es[j]) == Start
    ensures es[j].t.now >= es[i].now + es[i].backoff
  {
    PauseHolds(es, cs, i, j);
  }

  /** A pause is always that of a failed start, not reset since, and lasts no longer
      than its backoff. */
  lemma {:induction false} PauseHasCause(es: seq<Event>, cs: seq<Control>, j: nat) returns (i: nat)
    requires Runs(es, cs) && j <= |es| && cs[j].nextStart.Some?
    ensures i < j && es[i].Started? && !es[i].ok && cs[j].nextStart.value == es[i].now + es[i].backoff && NoReset(es, i, j)
    decreases j
  {
    assert j > 0;
    assert Enabled(cs[j - 1], es[j - 1]) && cs[j] == Step(cs[j - 1], es[j - 1]);
    if es[j - 1].Started? && !es[j - 1].ok {
      i := j - 1;
    } else {
      i := PauseHasCause(es, cs, j - 1);
    }
  }

  // ----- the controller -----

  class OuterController {
    var enabled: bool
    var pending: nat
    var proposedOn: bool
    var nextStartAttempt: Option<int>
    var starting: bool

    constructor (enabled: bool)
      ensures Now() == Fresh && this.enabled == enabled
    {
      this.enabled := enabled;
      pending, proposedOn, nextStartAttempt, starting := 0, false, None, false;
    }

    function Now(): Control
      reads this
    {
      Control(pending, proposedOn, nextStartAttempt, starting)
    }

    method SetEnabled(on: bool)
      modifies this
      ensures enabled == on && Now() == old(Now())
    {
      enabled := on;
    }

    /** outerTick up to the point where it starts or stops the tunnel. */
    method Decide(openOK: bool, whitelistOK: bool, running: bool, hysteresis: int, now: int) returns (action: Action)
      requires !starting
      modifies this
      ensures var t := Tick(enabled, openOK, whitelistOK, running, hysteresis, now);
        action == Decision(old(Now()), t) && Now() == AfterTick(old(Now()), t) && enabled == old(enabled)
      ensures !enabled || openOK != running ==> action == Nothing && pending == 0
      ensures enabled && openOK == running ==>
        var n := if old(proposedOn) == !openOK then old(pending) + 1 else 1;
        && proposedOn == !openOK && pending == (if n < hysteresis then n else 0)
        && (action == Stop <==> n >= hysteresis && openOK)
        && (action == Start <==> n >= hysteresis && !openOK && !(old(nextStartAttempt).Some? && now < old(nextStartAttempt).value))
    {
      var wantOn := if openOK then false else if whitelistOK then true else true;
      action := Nothing;
      if !enabled {
        pending := 0;
        return;
      }
      if wantOn == running {
        pending := 0;
        return;
      }
      if proposedOn == wantOn {
        pending := pending + 1;
      } else {
        proposedOn := wantOn;
        pending := 1;
      }
      if pending < hysteresis {
        return;
      }
      pending := 0;
      if wantOn && nextStartAttempt.Some? && now < nextStartAttempt.value {
        return;
      }
      action := if wantOn then Start else Stop;
      starting := wantOn;
    }

    /** What outerTick does when the start it asked for comes back. */
    method StartReturned(ok: bool, now: int, backoff: nat)
      requires starting
      modifies this
      ensures Now() == Step(old(Now()), Started(ok, now, backoff)) && enabled == old(enabled)
    {
      starting := false;
      if !ok {
        nextStartAttempt := Some(now + backoff);
      }
    }

    method ResetBackoff(now: int)
      modifies this
      ensures Now() == Step(old(Now()), Reset(now)) && enabled == old(enabled)
    {
      nextStartAttempt := None;
    }
  }
}
