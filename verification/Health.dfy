/** The tunnel's generation counter and the health check that relies on it: a
    probe result counts only for the tunnel instance that was probed. */
module Health {
  import opened Options

  /** One recorded probe result. */
  datatype Result = Result(generation: nat, ok: bool)

  /** Where the health check is: idle, probing through instance g, confirming the
      underlay after "fails" failures of g, past that check, about to stop g, or
      replacing it. */
  datatype Phase = Idle | Probing(g: nat) | Confirming(g: nat, fails: nat, limit: int) | Agreed(g: nat, fails: nat, limit: int)
                 | Swapping(g: nat, fails: nat, limit: int, since: int, backoff: nat) | Replacing

  /** The process manager's instance, the controller's fields, and a record of all
      results written so far. */
  datatype State = State(
    running: bool,
    generation: nat,
    tunnelEnabled: bool,
    healthGeneration: nat,
    fails: nat,
    nextSwap: Option<int>,
    phase: Phase,
    log: seq<Result>)

  const Init := State(false, 0, true, 0, 0, None, Idle, [])

  datatype Event =
    | ProcessStart
    | ProcessStop
    | SetTunnel(on: bool)
    | ResetBackoff
    | Begin
    | Probed(ok: bool, limit: int)
    | Confirmed(whitelistOK: bool)
    | Decided(now: int, backoff: nat)
    | SwapStop(now: int)
    | Replaced

  /** A process start that finds it running, or a stop that finds it stopped,
      changes nothing; a start that fails is no event. */
  predicate Enabled(s: State, e: Event) {
    match e
    case Begin => s.phase.Idle?
    case Probed(_, _) => s.phase.Probing?
    case Confirmed(_) => s.phase.Confirming?
    case Decided(_, _) => s.phase.Agreed?
    case SwapStop(now) => s.phase.Swapping? && now >= s.phase.since
    case Replaced => s.phase.Replacing?
    case _ => true
  }

  function Started(s: State): State {
    if s.running then s else s.(running := true, generation := s.generation + 1)
  }

  function Stopped(s: State): State {
    if s.running then s.(running := false, generation := s.generation + 1) else s
  }

  predicate StillThere(s: State, g: nat) {
    s.tunnelEnabled && s.running && s.generation == g
  }

  /** The locked part after the probe. */
  function Record(s: State, ok: bool, limit: int): State
    requires s.phase.Probing?
  {
    var g := s.phase.g;
    if !StillThere(s, g) then s.(phase := Idle)
    else
      var before := if s.healthGeneration != g then 0 else s.fails;
      var after := if ok then 0 else before + 1;
      s.(healthGeneration := g, fails := after, log := s.log + [Result(g, ok)],
         phase := if !ok && after >= limit then Confirming(g, after, limit) else Idle)
  }

  /** healthTick up to the probe. */
  function Begun(s: State): State {
    if !s.tunnelEnabled then s
    else if !s.running then s.(fails := 0)
    else s.(phase := Probing(s.generation))
  }

  /** The locked part after the underlay was probed again. */
  function Checked(s: State, whitelistOK: bool): State
    requires s.phase.Confirming?
  {
    if StillThere(s, s.phase.g) && whitelistOK then s.(phase := Agreed(s.phase.g, s.phase.fails, s.phase.limit))
    else s.(phase := Idle)
  }

  /** The locked part that keeps swaps apart. */
  function PastBackoff(s: State, now: int, backoff: nat): State
    requires s.phase.Agreed?
  {
    if s.nextSwap.Some? && now < s.nextSwap.value then s.(fails := 0, phase := Idle)
    else s.(nextSwap := Some(now + backoff), phase := Swapping(s.phase.g, s.phase.fails, s.phase.limit, now, backoff))
  }

  function Step(s: State, e: Event): State
    requires Enabled(s, e)
  {
    match e
    case ProcessStart => Started(s)
    case ProcessStop => Stopped(s)
    case SetTunnel(on) => if on then s.(tunnelEnabled := true) else s.(tunnelEnabled := false, fails := 0)
    case ResetBackoff => s.(nextSwap := None)
    case Begin => Begun(s)
    case Probed(ok, limit) => Record(s, ok, limit)
    case Confirmed(whitelistOK) => Checked(s, whitelistOK)
    case Decided(now, backoff) => PastBackoff(s, now, backoff)
    case SwapStop(now) => Stopped(s).(nextSwap := Some(now + s.phase.backoff), phase := Replacing)
    case Replaced => s.(fails := 0, phase := Idle)
  }

  // ----- what every step keeps -----

  /** The last n recorded results are failures of instance g. */
  ghost predicate FailedLast(log: seq<Result>, n: nat, g: nat) {
    n <= |log| && forall k :: |log| - n <= k < |log| ==> log[k] == Result(g, false)
  }

  ghost predicate Inv(s: State) {
    && (s.running <==> s.generation % 2 == 1)
    && FailedLast(s.log, s.fails, s.healthGeneration)
    && (forall k :: 0 <= k < |s.log| ==> s.log[k].generation % 2 == 1 && s.log[k].generation <= s.generation)
    && (s.phase.Probing? ==> s.phase.g % 2 == 1 && s.phase.g <= s.generation)
    && (s.phase.Confirming? || s.phase.Agreed? || s.phase.Swapping? ==>
          s.phase.fails >= 1 && s.phase.fails >= s.phase.limit && FailedLast(s.log, s.phase.fails, s.phase.g))
  }

  lemma FailsMore(log: seq<Result>, n: nat, g: nat)
    requires FailedLast(log, n, g)
    ensures FailedLast(log + [Result(g, false)], n + 1, g)
  {
  }

  lemma InvKept(s: State, e: Event)
    requires Inv(s) && Enabled(s, e)
    ensures Inv(Step(s, e)) && Step(s, e).generation >= s.generation
  {
    if e.Probed? && StillThere(s, s.phase.g) && !e.ok {
      var before := if s.healthGeneration != s.phase.g then 0 else s.fails;
      FailsMore(s.log, before, s.phase.g);
    }
  }

  // ----- every run -----

  ghost predicate Runs(es: seq<Event>, ss: seq<State>) {
    && |ss| == |es| + 1 && ss[0] == Init
    && forall i :: 0 <= i < |es| ==> Enabled(ss[i], es[i]) && ss[i + 1] == Step(ss[i], es[i])
  }

  /** In every state of every run the tunnel runs exactly if its generation is odd,
      and the generation never decreases. */
  lemma {:induction false} RunInv(es: seq<Event>, ss: seq<State>, i: nat, j: nat)
    requires Runs(es, ss) && i <= j <= |es|
    ensures Inv(ss[j]) && ss[i].generation <= ss[j].generation
    decreases j
  {
    hide Inv, Step, Enabled;
    if j == 0 {
      InitInv();
    } else if i < j {
      RunInv(es, ss, i, j - 1);
      InvKept(ss[j - 1], es[j - 1]);
    } else {
      RunInv(es, ss, j - 1, j - 1);
      InvKept(ss[j - 1], es[j - 1]);
    }
  }

  lemma InitInv()
    ensures Inv(Init)
  {
  }

  /** A probe in flight was begun on its instance. */
  lemma {:induction false} ProbeBegan(es: seq<Event>, ss: seq<State>, j: nat) returns (i: nat)
    requires Runs(es, ss) && j <= |es| && ss[j].phase.Probing?
    ensures i < j && es[i].Begin? && ss[i].running && ss[i].generation == ss[j].phase.g
    decreases j
  {
    assert j > 0;
    assert Enabled(ss[j - 1], es[j - 1]) && ss[j] == Step(ss[j - 1], es[j - 1]);
    if es[j - 1].Begin? {
      i := j - 1;
    } else {
      i := ProbeBegan(es, ss, j - 1);
    }
  }

  /** A result is recorded only if one instance was running, uninterrupted, from
      before the probe until the result was written; and it is recorded for it. */
  lemma RecordedForProbed(es: seq<Event>, ss: seq<State>, j: nat) returns (i: nat)
    requires Runs(es, ss) && j < |es| && |ss[j + 1].log| > |ss[j].log|
    ensures es[j].Probed? && i < j && es[i].Begin?
    ensures ss[j + 1].log == ss[j].log + [Result(ss[i].generation, es[j].ok)]
    ensures forall k :: i <= k <= j ==> ss[k].running && ss[k].generation == ss[i].generation
  {
    hide Inv;
    assert Enabled(ss[j], es[j]) && ss[j + 1] == Step(ss[j], es[j]);
    i := ProbeBegan(es, ss, j);
    forall k | i <= k <= j
      ensures ss[k].running && ss[k].generation == ss[i].generation
    {
      RunInv(es, ss, i, k);
      RunInv(es, ss, k, j);
      RunInv(es, ss, j, j);
      Parity(ss[k]);
      Parity(ss[j]);
    }
  }

  lemma Parity(s: State)
    requires Inv(s)
    ensures s.running <==> s.generation % 2 == 1
  {
  }

  /** Past the underlay check, that check found the instance running. */
  lemma {:induction false} AgreedSince(es: seq<Event>, ss: seq<State>, j: nat) returns (i: nat)
    requires Runs(es, ss) && j <= |es| && ss[j].phase.Agreed?
    ensures i < j && es[i] == Confirmed(true) && ss[i].running && ss[i].generation == ss[j].phase.g
    decreases j
  {
    assert j > 0;
    assert Enabled(ss[j - 1], es[j - 1]) && ss[j] == Step(ss[j - 1], es[j - 1]);
    if es[j - 1].Confirmed? {
      i := j - 1;
    } else {
      i := AgreedSince(es, ss, j - 1);
    }
  }

  /** The swap point is reached only after the configured number of recorded
      failures in a row, all of one instance, which was the one running when the
      underlay was confirmed. */
  lemma SwapNeedsFailures(es: seq<Event>, ss: seq<State>, j: nat) returns (i: nat)
    requires Runs(es, ss) && j < |es| && es[j].Decided? && ss[j + 1].phase.Swapping?
    ensures ss[j].phase.Agreed? && ss[j + 1].phase.g == ss[j].phase.g
    ensures i < j && es[i] == Confirmed(true) && ss[i].running && ss[i].generation == ss[j].phase.g
    ensures FailedLast(ss[j].log, if ss[j].phase.limit > 1 then ss[j].phase.limit else 1, ss[j].phase.g)
  {
    RunInv(es, ss, j, j);
    assert Enabled(ss[j], es[j]) && ss[j + 1] == Step(ss[j], es[j]);
    i := AgreedSince(es, ss, j);
    FewerFailed(ss[j].log, ss[j].phase.fails, if ss[j].phase.limit > 1 then ss[j].phase.limit else 1, ss[j].phase.g);
  }

  lemma FewerFailed(log: seq<Result>, n: nat, m: nat, g: nat)
    requires FailedLast(log, n, g) && m <= n
    ensures FailedLast(log, m, g)
  {
  }

  ghost predicate NoReset(es: seq<Event>, i: nat, j: nat)
    requires j <= |es|
  {
    forall k :: i < k < j ==> !es[k].ResetBackoff?
  }

  /** A swap point is reached at event i. */
  ghost predicate SwapsAt(es: seq<Event>, ss: seq<State>, i: nat)
    requires Runs(es, ss) && i < |es|
  {
    es[i].Decided? && ss[i + 1].phase.Swapping?
  }

  lemma {:induction false} PauseHolds(es: seq<Event>, ss: seq<State>, i: nat, j: nat)
    requires Runs(es, ss) && i < j <= |es| && SwapsAt(es, ss, i) && NoReset(es, i, j)
    ensures var end := es[i].now + es[i].backoff;
      && ss[j].nextSwap.Some? && ss[j].nextSwap.value >= end
      && (ss[j].phase.Swapping? ==> ss[j].phase.since + ss[j].phase.backoff >= end)
    decreases j
  {
    assert Enabled(ss[j - 1], es[j - 1]) && ss[j] == Step(ss[j - 1], es[j - 1]);
    if j > i + 1 {
      PauseHolds(es, ss, i, j - 1);
      assert !es[j - 1].ResetBackoff?;
    }
  }

  /** In every run, two swap points are at least the first one's backoff apart,
      unless it was reset in between. */
  lemma SwapsAreSpaced(es: seq<Event>, ss: seq<State>, i: nat, j: nat)
    requires Runs(es, ss) && i < j < |es| && SwapsAt(es, ss, i) && SwapsAt(es, ss, j) && NoReset(es, i, j)
    ensures es[j].now >= es[i].now + es[i].backoff
  {
    PauseHolds(es, ss, i, j);
    assert Enabled(ss[j], es[j]) && ss[j + 1] == Step(ss[j], es[j]);
  }

  // ----- failures lead to a swap -----

  /** A failed probe of the instance that is running. */
  function FailedProbe(s: State, limit: int): State
    requires s.phase == Idle && s.running && s.tunnelEnabled
  {
    Step(Step(s, Begin), Probed(false, limit))
  }

  /** n failed probes in a row, or fewer if the underlay is to be confirmed. */
  function FailedProbes(s: State, n: nat, limit: int): State
    requires s.phase == Idle && s.running && s.tunnelEnabled
    decreases n
  {
    if n == 0 then s
    else
      var t := FailedProbe(s, limit);
      if t.phase == Idle then FailedProbes(t, n - 1, limit) else t
  }

  lemma {:induction false} FailuresCount(s: State, n: nat, limit: int)
    requires s.phase == Idle && s.running && s.tunnelEnabled && s.healthGeneration == s.generation && n > 0 && s.fails + n >= limit
    ensures FailedProbes(s, n, limit).phase.Confirming? && FailedProbes(s, n, limit).phase.g == s.generation
    decreases n
  {
    var t := FailedProbe(s, limit);
    if t.phase == Idle {
      FailuresCount(t, n - 1, limit);
    }
  }

  /** From any state, as many failed probes of the running instance in a row as the
      limit lead to the check of the underlay; with that reachable and no backoff
      pending, to the swap. */
  lemma EnoughFailuresSwap(s: State, limit: nat, now: int, backoff: nat)
    requires s.phase == Idle && s.running && s.tunnelEnabled && limit >= 1
    ensures var t := FailedProbes(s, limit, limit);
      && t.phase.Confirming? && t.phase.g == s.generation && t.running && t.tunnelEnabled && t.generation == s.generation
      && Step(t, Confirmed(true)).phase.Agreed?
      && (!(s.nextSwap.Some? && now < s.nextSwap.value) ==> Step(Step(t, Confirmed(true)), Decided(now, backoff)).phase.Swapping?)
  {
    ProbesKeep(s, limit, limit);
    var t := FailedProbe(s, limit);
    if t.phase == Idle {
      FailuresCount(t, limit - 1, limit);
    }
  }

  lemma {:induction false} ProbesKeep(s: State, n: nat, limit: int)
    requires s.phase == Idle && s.running && s.tunnelEnabled
    ensures var t := FailedProbes(s, n, limit);
      t.running && t.tunnelEnabled && t.generation == s.generation && t.nextSwap == s.nextSwap && (t.phase == Idle || (t.phase.Confirming? && t.phase.g == s.generation))
    decreases n
  {
    if n > 0 {
      var t := FailedProbe(s, limit);
      if t.phase == Idle {
        ProbesKeep(t, n - 1, limit);
      }
    }
  }

  /** A swap is only ever put off by an earlier one, for no longer than its backoff. */
  lemma {:induction false} PauseHasCause(es: seq<Event>, ss: seq<State>, j: nat) returns (i: nat)
    requires Runs(es, ss) && j <= |es| && ss[j].nextSwap.Some?
    ensures i < j && NoReset(es, i, j)
    ensures (es[i].Decided? && ss[j].nextSwap.value == es[i].now + es[i].backoff)
         || (es[i].SwapStop? && ss[i].phase.Swapping? && ss[j].nextSwap.value == es[i].now + ss[i].phase.backoff)
    decreases j
  {
    assert j > 0;
    assert Enabled(ss[j - 1], es[j - 1]) && ss[j] == Step(ss[j - 1], es[j - 1]);
    if ss[j].nextSwap != ss[j - 1].nextSwap || es[j - 1].SwapStop? || (es[j - 1].Decided? && ss[j].phase.Swapping?) {
      i := j - 1;
    } else {
      i := PauseHasCause(es, ss, j - 1);
    }
  }

  // ----- the objects -----

  datatype Status = Status(running: bool, generation: nat)

  class ProcessManager {
    /** The embedded engine, while there is one. */
    var box: Option<nat>
    var running: bool
    var generation: nat

    ghost predicate Valid()
      reads this
    {
      (running <==> box.Some?) && (running <==> generation % 2 == 1)
    }

    constructor ()
      ensures Valid() && !running && generation == 0
    {
      box, running, generation := None, false, 0;
    }

    /** Start; "engine" is what starting it and the route gave, None if that failed. */
    method Start(engine: Option<nat>) returns (ok: bool)
      requires Valid()
      modifies this
      ensures Valid() && ok == (!old(running) && engine.Some?)
      ensures if ok then running && generation == old(generation) + 1 && box == engine
              else running == old(running) && generation == old(generation) && box == old(box)
    {
      if running || engine.None? {
        return false;
      }
      box, running, generation := engine, true, generation + 1;
      ok := true;
    }

    method Stop() returns (closed: Option<nat>)
      requires Valid()
      modifies this
      ensures Valid() && !running && closed == old(box)
      ensures generation == if old(running) then old(generation) + 1 else old(generation)
    {
      closed := None;
      if !running || box.None? {
        return;
      }
      closed := box;
      box, running, generation := None, false, generation + 1;
    }

    function GetStatus(): Status
      reads this
    {
      Status(running, generation)
    }
  }

  class HealthController {
    const pm: ProcessManager
    var tunnelEnabled: bool
    var healthGeneration: nat
    var fails: nat
    var nextSwapAttempt: Option<int>
    var phase: Phase
    ghost var log: seq<Result>

    ghost function Now(): State
      reads this, pm
    {
      State(pm.running, pm.generation, tunnelEnabled, healthGeneration, fails, nextSwapAttempt, phase, log)
    }

    constructor (pm: ProcessManager, tunnelEnabled: bool)
      requires pm.Valid()
      ensures this.pm == pm && this.tunnelEnabled == tunnelEnabled && Inv(Now()) && log == [] && phase == Idle
    {
      this.pm := pm;
      this.tunnelEnabled := tunnelEnabled;
      healthGeneration, fails, nextSwapAttempt, phase, log := 0, 0, None, Idle, [];
    }

    method SetTunnelFailoverEnabled(on: bool)
      modifies this
      ensures Now() == Step(old(Now()), SetTunnel(on))
    {
      tunnelEnabled := on;
      if !on {
        fails := 0;
      }
    }

    /** healthTick: take the instance to probe. */
    method BeginProbe()
      requires phase == Idle
      modifies this
      ensures Now() == Step(old(Now()), Begin)
      ensures phase == if tunnelEnabled && pm.running then Probing(pm.generation) else Idle
    {
      if !tunnelEnabled {
        return;
      }
      var tunnel := pm.GetStatus();
      if !tunnel.running {
        fails := 0;
        return;
      }
      phase := Probing(tunnel.generation);
    }

    /** healthTick: the probe came back. */
    method RecordProbe(ok: bool, limit: int)
      requires phase.Probing?
      modifies this
      ensures Now() == Step(old(Now()), Probed(ok, limit))
      ensures tunnelEnabled && pm.running && pm.generation == old(phase).g ==>
        && log == old(log) + [Result(pm.generation, ok)] && healthGeneration == pm.generation
        && fails == (if ok then 0 else if old(healthGeneration) == pm.generation then old(fails) + 1 else 1)
        && phase == (if !ok && fails >= limit then Confirming(pm.generation, fails, limit) else Idle)
      ensures !(tunnelEnabled && pm.running && pm.generation == old(phase).g) ==> log == old(log) && fails == old(fails) && phase == Idle
    {
      var g := phase.g;
      var current := pm.GetStatus();
      phase := Idle;
      if !tunnelEnabled || !current.running || current.generation != g {
        return;
      }
      if healthGeneration != g {
        fails := 0;
      }
      healthGeneration := g;
      log := log + [Result(g, ok)];
      if ok {
        fails := 0;
        return;
      }
      fails := fails + 1;
      if fails >= limit {
        phase := Confirming(g, fails, limit);
      }
    }

    /** healthTick: the underlay probes came back. */
    method ConfirmUnderlay(whitelistOK: bool)
      requires phase.Confirming?
      modifies this
      ensures Now() == Step(old(Now()), Confirmed(whitelistOK))
      ensures phase.Agreed? <==> tunnelEnabled && pm.running && pm.generation == old(phase).g && whitelistOK
    {
      var was := phase;
      var current := pm.GetStatus();
      phase := Idle;
      if !tunnelEnabled || !current.running || current.generation != was.g {
        return;
      }
      if !whitelistOK {
        return;
      }
      phase := Agreed(was.g, was.fails, was.limit);
    }

    /** healthTick: the swap backoff. */
    method CheckBackoff(now: int, backoff: nat)
      requires phase.Agreed?
      modifies this
      ensures Now() == Step(old(Now()), Decided(now, backoff))
      ensures phase.Swapping? <==> !(old(nextSwapAttempt).Some? && now < old(nextSwapAttempt).value)
      ensures if phase.Swapping? then nextSwapAttempt == Some(now + backoff) else fails == 0 && nextSwapAttempt == old(nextSwapAttempt)
    {
      var was := phase;
      if nextSwapAttempt.Some? && now < nextSwapAttempt.value {
        fails := 0;
        phase := Idle;
        return;
      }
      nextSwapAttempt := Some(now + backoff);
      phase := Swapping(was.g, was.fails, was.limit, now, backoff);
    }

    /** healthTick: stop whatever is running now. */
    method StopForSwap(now: int) returns (closed: Option<nat>)
      requires phase.Swapping? && now >= phase.since && pm.Valid()
      modifies this, pm
      ensures pm.Valid() && Now() == Step(old(Now()), SwapStop(now))
    {
      closed := pm.Stop();
      nextSwapAttempt := Some(now + phase.backoff);
      phase := Replacing;
    }

    /** replaceStoppedTunnel: whether or not a server was found and started. */
    method FinishSwap()
      requires phase.Replacing?
      modifies this
      ensures Now() == Step(old(Now()), Replaced)
    {
      fails := 0;
      phase := Idle;
    }
  }
}
