/**
 `ScenarioRunner.prepare`: warm up, then drive the simulator step by step, injecting
 and clearing scheduled faults at step boundaries and syncing after every step.
 Hours are exact reals; the tolerance is the code's own 1e-9.
 */
module Scheduler {
  import opened Basics

  const TOLERANCE := 0.000000001

  datatype Fault = Fault(disturbance: string, activateAt: real, duration: Option<real>, magnitude: real)

  datatype Scenario = Scenario(warmup: real, duration: real, interval: real, faults: seq<Fault>)

  /** What the scenario model itself enforces on construction. */
  predicate ValidFault(f: Fault) {
    f.activateAt >= 0.0 && (f.duration.Some? ==> f.duration.value > 0.0)
  }

  predicate ValidScenario(s: Scenario) {
    && s.warmup >= 0.0 && s.duration > 0.0 && s.interval > 0.0
    && forall f :: f in s.faults ==> ValidFault(f)
  }

  // ---------------------------------------------------------------------
  // Step boundaries

  function StepFrom(e: real, until: real, interval: real): real {
    if interval <= until - e then interval else until - e
  }

  function Ceil(x: real): int {
    -((-x).Floor)
  }

  /** How many steps it takes to come within the tolerance of `until`. */
  function StepsNeeded(e: real, until: real, interval: real): nat
    requires interval > 0.0
  {
    if e < until - TOLERANCE then
      QuotientPositive(until - TOLERANCE - e, interval);
      Ceil((until - TOLERANCE - e) / interval)
    else 0
  }

  lemma QuotientPositive(r: real, i: real)
    requires r > 0.0 && i > 0.0
    ensures r / i > 0.0 && Ceil(r / i) >= 1
    ensures r <= i ==> Ceil(r / i) == 1
  {
    var q := r / i;
    assert q * i == r;
    assert r <= i ==> q <= 1.0;
  }

  lemma ZeroProduct(x: real, i: real)
    requires x * i == 0.0 && i > 0.0
    ensures x == 0.0
  {
    assert x > 0.0 ==> x * i > 0.0;
    assert x < 0.0 ==> -x * i > 0.0;
  }

  lemma QuotientStep(r: real, i: real)
    requires i > 0.0
    ensures Ceil(r / i) == Ceil((r - i) / i) + 1
  {
    var q, p := r / i, (r - i) / i;
    assert q * i == r && p * i == r - i;
    ZeroProduct(q - p - 1.0, i);
    assert -q == -p - 1.0;
  }

  lemma OneStepFewer(e: real, until: real, interval: real)
    requires interval > 0.0 && e < until - TOLERANCE
    ensures StepsNeeded(e, until, interval) == 1 + StepsNeeded(e + StepFrom(e, until, interval), until, interval)
  {
    var r := until - TOLERANCE - e;
    QuotientPositive(r, interval);
    if r - interval > 0.0 {
      QuotientStep(r, interval);
    }
  }

  /** Where each step of the loop starts. */
  function Starts(e: real, until: real, interval: real): seq<real>
    requires interval > 0.0
    decreases StepsNeeded(e, until, interval)
  {
    if e < until - TOLERANCE then
      OneStepFewer(e, until, interval);
      [e] + Starts(e + StepFrom(e, until, interval), until, interval)
    else []
  }

  /** Elapsed time when the loop ends. */
  function Finish(e: real, until: real, interval: real): real
    requires interval > 0.0
    decreases StepsNeeded(e, until, interval)
  {
    if e < until - TOLERANCE then
      OneStepFewer(e, until, interval);
      Finish(e + StepFrom(e, until, interval), until, interval)
    else e
  }

  lemma {:induction false} StepCount(e: real, until: real, interval: real)
    requires interval > 0.0
    ensures |Starts(e, until, interval)| == StepsNeeded(e, until, interval)
    decreases StepsNeeded(e, until, interval)
  {
    if e < until - TOLERANCE {
      OneStepFewer(e, until, interval);
      StepCount(e + StepFrom(e, until, interval), until, interval);
    }
  }

  /** The loop ends within the tolerance of `until` and never beyond it. */
  lemma {:induction false} FinishNearEnd(e: real, until: real, interval: real)
    requires interval > 0.0 && e <= until
    ensures until - TOLERANCE <= Finish(e, until, interval) <= until
    ensures e <= Finish(e, until, interval)
    decreases StepsNeeded(e, until, interval)
  {
    if e < until - TOLERANCE {
      OneStepFewer(e, until, interval);
      FinishNearEnd(e + StepFrom(e, until, interval), until, interval);
    }
  }

  /** Boundaries strictly increase by at most the interval, and all lie before the end. */
  lemma {:induction false} StartsAdvance(e: real, until: real, interval: real)
    requires interval > 0.0 && e <= until
    ensures var s := Starts(e, until, interval);
            && (s != [] ==> s[0] == e)
            && (forall k :: 0 <= k < |s| ==> e <= s[k] < until - TOLERANCE)
            && (forall k :: 0 <= k < |s| - 1 ==> s[k + 1] == s[k] + StepFrom(s[k], until, interval))
            && (s != [] ==> Finish(e, until, interval) == s[|s| - 1] + StepFrom(s[|s| - 1], until, interval))
    decreases StepsNeeded(e, until, interval)
  {
    if e < until - TOLERANCE {
      OneStepFewer(e, until, interval);
      var next := e + StepFrom(e, until, interval);
      StartsAdvance(next, until, interval);
      var s, rest := Starts(e, until, interval), Starts(next, until, interval);
      assert s == [e] + rest;
    }
  }

  // ---------------------------------------------------------------------
  // Fault schedule

  predicate Due(time: real, e: real) {
    time <= e + TOLERANCE
  }

  datatype Clearing = Clearing(time: real, disturbance: string)

  predicate EarlierFault(a: Fault, b: Fault) {
    a.activateAt <= b.activateAt
  }

  predicate EarlierClearing(a: Clearing, b: Clearing) {
    a.time <= b.time
  }

  function ClearingsOf(faults: seq<Fault>): seq<Clearing> {
    if faults == [] then []
    else
      var f := faults[0];
      (if f.duration.Some? then [Clearing(f.activateAt + f.duration.value, f.disturbance)] else [])
        + ClearingsOf(faults[1..])
  }

  function PendingFaults(s: Scenario): seq<Fault> {
    Sort(EarlierFault, s.faults)
  }

  function PendingClearings(s: Scenario): seq<Clearing> {
    Sort(EarlierClearing, ClearingsOf(s.faults))
  }

  /** The simple form the cursors refine: everything whose time has come. */
  function DueFaults(faults: seq<Fault>, e: real): seq<Fault> {
    if faults == [] then []
    else (if Due(faults[0].activateAt, e) then [faults[0]] else []) + DueFaults(faults[1..], e)
  }

  function DueClearings(clearings: seq<Clearing>, e: real): seq<Clearing> {
    if clearings == [] then []
    else (if Due(clearings[0].time, e) then [clearings[0]] else []) + DueClearings(clearings[1..], e)
  }

  // ---------------------------------------------------------------------
  // The simulator and the context sync, as far as `prepare` can see them

  datatype FaultEvent = FaultEvent(time: real, disturbance: string, active: bool, magnitude: real)

  /** One `step`: when it started, how long it was, and the disturbances and fault log at that time. */
  datatype Moment = Moment(start: real, duration: real, disturbances: map<string, real>, log: seq<FaultEvent>)

  class Simulator {
    const known: set<string>
    var disturbances: map<string, real>
    var log: seq<FaultEvent>
    var time: real
    ghost var history: seq<Moment>

    constructor (known: set<string>)
      ensures this.known == known && disturbances == map[] && log == [] && time == 0.0 && history == []
    {
      this.known := known;
      disturbances, log, time, history := map[], [], 0.0, [];
    }

    method Step(duration: real)
      modifies this
      ensures time == old(time) + duration && disturbances == old(disturbances) && log == old(log)
      ensures history == old(history) + [Moment(old(time), duration, disturbances, log)]
    {
      history := history + [Moment(time, duration, disturbances, log)];
      time := time + duration;
    }

    /** Fails on a disturbance the process does not have. */
    method InjectFault(disturbance: string, active: bool, magnitude: real) returns (ok: bool)
      modifies this
      ensures ok <==> disturbance in known
      ensures time == old(time) && history == old(history)
      ensures ok ==> disturbances == old(disturbances)[disturbance := if active then magnitude else 0.0]
      ensures ok ==> log == old(log) + [FaultEvent(time, disturbance, active, magnitude)]
      ensures !ok ==> disturbances == old(disturbances) && log == old(log)
    {
      if disturbance !in known {
        return false;
      }
      disturbances := disturbances[disturbance := if active then magnitude else 0.0];
      log := log + [FaultEvent(time, disturbance, active, magnitude)];
      ok := true;
    }
  }

  class ContextSync {
    var synced: seq<real>

    constructor ()
      ensures synced == []
    {
      synced := [];
    }

    method Sync(simulator: Simulator)
      modifies this
      ensures synced == old(synced) + [simulator.time]
    {
      synced := synced + [simulator.time];
    }
  }

  // ---------------------------------------------------------------------
  // What the log and the disturbance vector say

  function Activations(log: seq<FaultEvent>): seq<(string, real)> {
    if log == [] then []
    else
      var last := log[|log| - 1];
      Activations(log[..|log| - 1]) + (if last.active then [(last.disturbance, last.magnitude)] else [])
  }

  function Deactivations(log: seq<FaultEvent>): seq<string> {
    if log == [] then []
    else
      var last := log[|log| - 1];
      Deactivations(log[..|log| - 1]) + (if last.active then [] else [last.disturbance])
  }

  function Injections(faults: seq<Fault>): seq<(string, real)> {
    if faults == [] then []
    else Injections(faults[..|faults| - 1]) + [(faults[|faults| - 1].disturbance, faults[|faults| - 1].magnitude)]
  }

  function Clears(clearings: seq<Clearing>): seq<string> {
    if clearings == [] then [] else Clears(clearings[..|clearings| - 1]) + [clearings[|clearings| - 1].disturbance]
  }

  /** No later injected fault is on the same disturbance. */
  ghost predicate LastOn(faults: seq<Fault>, n: nat, a: int)
    requires n <= |faults|
  {
    0 <= a < n && forall b :: a < b < n ==> faults[b].disturbance != faults[a].disturbance
  }

  ghost predicate Cleared(clearings: seq<Clearing>, from: nat, to: nat, disturbance: string)
    requires to <= |clearings|
  {
    exists j :: from <= j < to && clearings[j].disturbance == disturbance
  }

  function ValueOf(f: Fault, cleared: bool): real {
    if cleared then 0.0 else f.magnitude
  }

  ghost predicate Touched(faults: seq<Fault>, n: nat, disturbance: string)
    requires n <= |faults|
  {
    exists a :: 0 <= a < n && faults[a].disturbance == disturbance
  }

  /**
   The cursors: `n` faults injected, `m` clearings done, `seen[a]` clearings done before fault `a`
   was injected. A disturbance holds the magnitude of its last fault unless a clearing came after it.
   */
  ghost predicate Tracks(d: map<string, real>, faults: seq<Fault>, n: nat, clearings: seq<Clearing>, m: nat,
                         seen: seq<nat>) {
    && n <= |faults| && m <= |clearings| && |seen| == n
    && (forall a :: 0 <= a < n ==> seen[a] <= m)
    && (forall x :: x in d <==> Touched(faults, n, x))
    && (forall a :: LastOn(faults, n, a)
          ==> faults[a].disturbance in d
              && d[faults[a].disturbance] == ValueOf(faults[a], Cleared(clearings, seen[a], m, faults[a].disturbance)))
  }

  ghost predicate Logged(log: seq<FaultEvent>, faults: seq<Fault>, n: nat, clearings: seq<Clearing>, m: nat) {
    && n <= |faults| && m <= |clearings|
    && Activations(log) == Injections(faults[..n])
    && Deactivations(log) == Clears(clearings[..m])
  }

  lemma LoggedInjection(log: seq<FaultEvent>, faults: seq<Fault>, n: nat, clearings: seq<Clearing>, m: nat, time: real)
    requires Logged(log, faults, n, clearings, m) && n < |faults|
    ensures Logged(log + [FaultEvent(time, faults[n].disturbance, true, faults[n].magnitude)], faults, n + 1, clearings,
                   m)
  {
    assert (log + [FaultEvent(time, faults[n].disturbance, true, faults[n].magnitude)])[..|log|] == log;
    assert faults[..n + 1][..n] == faults[..n];
    assert Deactivations(log) + [] == Deactivations(log);
  }

  lemma LoggedClearing(log: seq<FaultEvent>, faults: seq<Fault>, n: nat, clearings: seq<Clearing>, m: nat, time: real)
    requires Logged(log, faults, n, clearings, m) && m < |clearings|
    ensures Logged(log + [FaultEvent(time, clearings[m].disturbance, false, 1.0)], faults, n, clearings, m + 1)
  {
    assert (log + [FaultEvent(time, clearings[m].disturbance, false, 1.0)])[..|log|] == log;
    assert clearings[..m + 1][..m] == clearings[..m];
    assert Activations(log) + [] == Activations(log);
  }

  lemma TouchedNext(faults: seq<Fault>, n: nat, x: string)
    requires n < |faults|
    ensures Touched(faults, n + 1, x) <==> Touched(faults, n, x) || faults[n].disturbance == x
  {
    if Touched(faults, n, x) {
      var a :| 0 <= a < n && faults[a].disturbance == x;
      assert faults[a].disturbance == x;
    }
  }

  lemma {:induction false} TracksInjection(d: map<string, real>, faults: seq<Fault>, n: nat, clearings: seq<Clearing>,
                                           m: nat, seen: seq<nat>)
    requires Tracks(d, faults, n, clearings, m, seen) && n < |faults|
    ensures Tracks(d[faults[n].disturbance := faults[n].magnitude], faults, n + 1, clearings, m, seen + [m])
  {
    var d' := d[faults[n].disturbance := faults[n].magnitude];
    forall x ensures x in d' <==> Touched(faults, n + 1, x) {
      TouchedNext(faults, n, x);
    }
    forall a | LastOn(faults, n + 1, a)
      ensures faults[a].disturbance in d'
           && d'[faults[a].disturbance]
              == ValueOf(faults[a], Cleared(clearings, (seen + [m])[a], m, faults[a].disturbance))
    {
      ValueAfterInjection(d, faults, n, clearings, m, seen, a);
    }
  }

  /** An injection sets its own disturbance and leaves every other last fault as it was. */
  lemma {:induction false} ValueAfterInjection(d: map<string, real>, faults: seq<Fault>, n: nat,
                                               clearings: seq<Clearing>, m: nat, seen: seq<nat>, a: int)
    requires Tracks(d, faults, n, clearings, m, seen) && n < |faults| && LastOn(faults, n + 1, a)
    ensures var d', x := d[faults[n].disturbance := faults[n].magnitude], faults[a].disturbance;
            x in d' && d'[x] == ValueOf(faults[a], Cleared(clearings, (seen + [m])[a], m, x))
  {
    if a < n {
      assert (seen + [m])[a] == seen[a];
      assert faults[n].disturbance != faults[a].disturbance && LastOn(faults, n, a);
    } else {
      assert (seen + [m])[a] == m;
    }
  }

  lemma ClearedNext(clearings: seq<Clearing>, from: nat, m: nat, x: string)
    requires from <= m < |clearings|
    ensures Cleared(clearings, from, m + 1, x) <==> Cleared(clearings, from, m, x) || clearings[m].disturbance == x
  {
    if Cleared(clearings, from, m, x) {
      var j :| from <= j < m && clearings[j].disturbance == x;
      assert clearings[j].disturbance == x;
    }
  }

  lemma {:induction false} TracksClearing(d: map<string, real>, faults: seq<Fault>, n: nat, clearings: seq<Clearing>,
                                          m: nat, seen: seq<nat>)
    requires Tracks(d, faults, n, clearings, m, seen) && m < |clearings| && clearings[m].disturbance in d
    ensures Tracks(d[clearings[m].disturbance := 0.0], faults, n, clearings, m + 1, seen)
  {
    var d' := d[clearings[m].disturbance := 0.0];
    forall x ensures x in d' <==> Touched(faults, n, x) {}
    forall a | LastOn(faults, n, a)
      ensures faults[a].disturbance in d'
           && d'[faults[a].disturbance] == ValueOf(faults[a], Cleared(clearings, seen[a], m + 1, faults[a].disturbance))
    {
      ClearedNext(clearings, seen[a], m, faults[a].disturbance);
    }
  }

  // ---------------------------------------------------------------------
  // Cursors and boundaries

  /** At some boundary the clearing had come due and the fault had not. */
  ghost predicate WasSeen(boundaries: seq<real>, c: Clearing, f: Fault) {
    exists h :: 0 <= h < |boundaries| && Due(c.time, boundaries[h]) && !Due(f.activateAt, boundaries[h])
  }

  ghost predicate SeenOk(faults: seq<Fault>, n: nat, clearings: seq<Clearing>, seen: seq<nat>, boundaries: seq<real>) {
    && n <= |faults| && |seen| == n
    && forall a, j :: 0 <= a < n && 0 <= j < |clearings|
         ==> (j < seen[a] <==> WasSeen(boundaries, clearings[j], faults[a]))
  }

  ghost predicate CursorsAt(faults: seq<Fault>, n: nat, clearings: seq<Clearing>, m: nat, e: real) {
    && n <= |faults| && m <= |clearings|
    && (forall a :: 0 <= a < |faults| ==> (a < n <==> Due(faults[a].activateAt, e)))
    && (forall j :: 0 <= j < |clearings| ==> (j < m <==> Due(clearings[j].time, e)))
  }

  ghost predicate Ascending(boundaries: seq<real>) {
    forall h, k :: 0 <= h <= k < |boundaries| ==> boundaries[h] <= boundaries[k]
  }

  /** Everything `prepare` maintains between boundaries. */
  ghost predicate CaughtUp(d: map<string, real>, log: seq<FaultEvent>, faults: seq<Fault>, n: nat,
                           clearings: seq<Clearing>, m: nat, seen: seq<nat>, boundaries: seq<real>) {
    && Tracks(d, faults, n, clearings, m, seen) && Logged(log, faults, n, clearings, m)
    && SeenOk(faults, n, clearings, seen, boundaries) && Ascending(boundaries)
    && (boundaries == [] ==> n == 0 && m == 0)
    && (boundaries != [] ==> CursorsAt(faults, n, clearings, m, boundaries[|boundaries| - 1]))
  }

  /** A fault injected now was not due at any earlier boundary, so it comes after exactly the clearings done so far. */
  lemma SeenWhenInjected(faults: seq<Fault>, n0: nat, n: nat, clearings: seq<Clearing>, m: nat, seen: seq<nat>,
                         boundaries: seq<real>)
    requires SeenOk(faults, n, clearings, seen, boundaries) && n0 <= n < |faults| && m <= |clearings|
    requires Ascending(boundaries)
    requires boundaries == [] ==> m == 0
    requires boundaries != [] ==> CursorsAt(faults, n0, clearings, m, boundaries[|boundaries| - 1])
    ensures SeenOk(faults, n + 1, clearings, seen + [m], boundaries)
  {
    forall j | 0 <= j < |clearings| ensures j < m <==> WasSeen(boundaries, clearings[j], faults[n]) {
      if boundaries != [] {
        var last := |boundaries| - 1;
        assert !Due(faults[n].activateAt, boundaries[last]);
        if j < m {
          assert Due(clearings[j].time, boundaries[last]);
        }
      }
    }
  }

  /** A boundary at which all injected faults are due adds nothing to what was seen before them. */
  lemma SeenAfterBoundary(faults: seq<Fault>, n: nat, clearings: seq<Clearing>, seen: seq<nat>, boundaries: seq<real>,
                          e: real)
    requires SeenOk(faults, n, clearings, seen, boundaries)
    requires forall a :: 0 <= a < n ==> Due(faults[a].activateAt, e)
    ensures SeenOk(faults, n, clearings, seen, boundaries + [e])
  {
    forall a, j | 0 <= a < n && 0 <= j < |clearings|
      ensures WasSeen(boundaries, clearings[j], faults[a]) <==> WasSeen(boundaries + [e], clearings[j], faults[a])
    {
      if WasSeen(boundaries, clearings[j], faults[a]) {
        var h :| 0 <= h < |boundaries| && Due(clearings[j].time, boundaries[h])
            && !Due(faults[a].activateAt, boundaries[h]);
        assert (boundaries + [e])[h] == boundaries[h];
      }
      if WasSeen(boundaries + [e], clearings[j], faults[a]) {
        var h :| 0 <= h < |boundaries| + 1 && Due(clearings[j].time, (boundaries + [e])[h])
            && !Due(faults[a].activateAt, (boundaries + [e])[h]);
        assert h < |boundaries| && boundaries[h] == (boundaries + [e])[h];
      }
    }
  }

  // ---------------------------------------------------------------------
  // What a step must have found

  /** No later fault on the same disturbance is due. */
  ghost predicate LastDue(faults: seq<Fault>, e: real, a: int) {
    && 0 <= a < |faults| && Due(faults[a].activateAt, e)
    && forall b :: a < b < |faults| && Due(faults[b].activateAt, e) ==> faults[b].disturbance != faults[a].disturbance
  }

  /** A clearing on the fault's disturbance has come due, and not at a boundary before the fault was. */
  ghost predicate CutOff(f: Fault, clearings: seq<Clearing>, boundaries: seq<real>, e: real) {
    exists j :: 0 <= j < |clearings| && clearings[j].disturbance == f.disturbance && Due(clearings[j].time, e)
                && !WasSeen(boundaries, clearings[j], f)
  }

  /** The vector in force at `e`, stated without cursors, for faults that may share a disturbance. */
  ghost predicate InForce(d: map<string, real>, faults: seq<Fault>, clearings: seq<Clearing>, boundaries: seq<real>,
                          e: real) {
    && (forall x :: x in d
          <==> exists a :: 0 <= a < |faults| && faults[a].disturbance == x && Due(faults[a].activateAt, e))
    && (forall a :: LastDue(faults, e, a)
          ==> faults[a].disturbance in d
              && d[faults[a].disturbance] == ValueOf(faults[a], CutOff(faults[a], clearings, boundaries, e)))
  }

  ghost predicate MomentOk(moment: Moment, faults: seq<Fault>, clearings: seq<Clearing>, boundaries: seq<real>) {
    && Activations(moment.log) == Injections(DueFaults(faults, moment.start))
    && Deactivations(moment.log) == Clears(DueClearings(clearings, moment.start))
    && InForce(moment.disturbances, faults, clearings, boundaries, moment.start)
  }

  lemma {:induction false} NoneDue(faults: seq<Fault>, clearings: seq<Clearing>, e: real)
    ensures (forall a :: 0 <= a < |faults| ==> !Due(faults[a].activateAt, e)) ==> DueFaults(faults, e) == []
    ensures (forall j :: 0 <= j < |clearings| ==> !Due(clearings[j].time, e)) ==> DueClearings(clearings, e) == []
    decreases |faults| + |clearings|
  {
    if faults != [] && clearings != [] {
      NoneDue(faults[1..], clearings[1..], e);
    } else if faults != [] {
      NoneDue(faults[1..], [], e);
    } else if clearings != [] {
      NoneDue([], clearings[1..], e);
    }
  }

  /** For a sorted schedule the filter is the part before the cursor. */
  lemma {:induction false} FilterIsPrefix(faults: seq<Fault>, n: nat, clearings: seq<Clearing>, m: nat, e: real)
    requires CursorsAt(faults, n, clearings, m, e)
    ensures DueFaults(faults, e) == faults[..n]
    ensures DueClearings(clearings, e) == clearings[..m]
    decreases n + m
  {
    if n > 0 {
      FilterIsPrefix(faults[1..], n - 1, clearings, m, e);
      assert faults[..n] == [faults[0]] + faults[1..][..n - 1];
    } else {
      NoneDue(faults, clearings, e);
      if m > 0 {
        FilterIsPrefix(faults, n, clearings[1..], m - 1, e);
        assert clearings[..m] == [clearings[0]] + clearings[1..][..m - 1];
      }
    }
  }

  lemma {:induction false} VectorInForce(d: map<string, real>, faults: seq<Fault>, n: nat, clearings: seq<Clearing>,
                                         m: nat, seen: seq<nat>, boundaries: seq<real>, e: real)
    requires Tracks(d, faults, n, clearings, m, seen) && SeenOk(faults, n, clearings, seen, boundaries)
    requires CursorsAt(faults, n, clearings, m, e)
    ensures InForce(d, faults, clearings, boundaries, e)
  {
    forall x ensures x in d
<==> exists a :: 0 <= a < |faults| && faults[a].disturbance == x && Due(faults[a].activateAt, e) {
      if Touched(faults, n, x) {
        var a :| 0 <= a < n && faults[a].disturbance == x;
        assert Due(faults[a].activateAt, e);
      }
    }
    forall a | LastDue(faults, e, a)
      ensures faults[a].disturbance in d
              && d[faults[a].disturbance] == ValueOf(faults[a], CutOff(faults[a], clearings, boundaries, e))
    {
      assert LastOn(faults, n, a);
      var x := faults[a].disturbance;
      if Cleared(clearings, seen[a], m, x) {
        var j :| seen[a] <= j < m && clearings[j].disturbance == x;
        assert Due(clearings[j].time, e) && !WasSeen(boundaries, clearings[j], faults[a]);
      }
      if CutOff(faults[a], clearings, boundaries, e) {
        var j :| 0 <= j < |clearings| && clearings[j].disturbance == x && Due(clearings[j].time, e)
            && !WasSeen(boundaries, clearings[j], faults[a]);
        assert seen[a] <= j < m;
      }
    }
  }

  ghost predicate DistinctDisturbances(faults: seq<Fault>) {
    forall i, j :: 0 <= i < j < |faults| ==> faults[i].disturbance != faults[j].disturbance
  }

  /** With distinct disturbances only a fault's own clearing can cut it off, and it does so as soon as it is due. */
  lemma OwnClearing(s: Scenario, boundaries: seq<real>, e: real, f: Fault)
    requires ValidScenario(s) && DistinctDisturbances(s.faults) && f in s.faults
    ensures CutOff(f, PendingClearings(s), boundaries, e)
       <==> f.duration.Some? && Due(f.activateAt + f.duration.value, e)
  {
    var clearings := PendingClearings(s);
    ScheduleFacts(s);
    forall j | 0 <= j < |clearings| && clearings[j].disturbance == f.disturbance
      ensures f.duration.Some? && clearings[j].time == f.activateAt + f.duration.value
    {
      assert clearings[j] in clearings;
      var g :| g in s.faults && g.duration.Some?
          && clearings[j] == Clearing(g.activateAt + g.duration.value, g.disturbance);
      assert g == f;
    }
    if f.duration.Some? && Due(f.activateAt + f.duration.value, e) {
      var c := Clearing(f.activateAt + f.duration.value, f.disturbance);
      assert c in clearings;
      var j :| 0 <= j < |clearings| && clearings[j] == c;
      assert ValidFault(f) && !WasSeen(boundaries, c, f);
    }
  }

  /**
   With distinct disturbances the vector is the window filter: in force once due, zero again once the
   duration is over.
   */
  lemma {:induction false} DistinctDisturbancesFollowWindows(moment: Moment, s: Scenario, boundaries: seq<real>,
                                                             f: Fault)
    requires ValidScenario(s) && MomentOk(moment, PendingFaults(s), PendingClearings(s), boundaries)
    requires DistinctDisturbances(s.faults) && f in s.faults
    ensures f.disturbance in moment.disturbances <==> Due(f.activateAt, moment.start)
    ensures Due(f.activateAt, moment.start) ==>
              moment.disturbances[f.disturbance]
                == ValueOf(f, f.duration.Some? && Due(f.activateAt + f.duration.value, moment.start))
  {
    var faults, e := PendingFaults(s), moment.start;
    ScheduleFacts(s);
    assert forall b :: 0 <= b < |faults|
             ==> faults[b] in faults && (faults[b].disturbance == f.disturbance ==> faults[b] == f);
    assert f in faults;
    var a :| 0 <= a < |faults| && faults[a] == f;
    if Due(f.activateAt, e) {
      assert LastDue(faults, e, a);
      OwnClearing(s, boundaries, e, f);
    }
  }

  lemma {:induction false} ClearingsMembers(faults: seq<Fault>, c: Clearing)
    ensures c in ClearingsOf(faults)
       <==> exists f :: f in faults && f.duration.Some? && c == Clearing(f.activateAt + f.duration.value, f.disturbance)
  {
    if faults != [] {
      assert faults == [faults[0]] + faults[1..];
      ClearingsMembers(faults[1..], c);
    }
  }

  /** Sorting keeps every fault once, in activation order, and every clearing belongs to a fault. */
  lemma ScheduleFacts(s: Scenario)
    requires DistinctDisturbances(s.faults)
    ensures Distinct(PendingFaults(s))
    ensures forall f :: f in PendingFaults(s) <==> f in s.faults
    ensures forall f, g :: f in s.faults && g in s.faults && f.disturbance == g.disturbance ==> f == g
    ensures forall c :: c in PendingClearings(s)
              <==> exists f :: f in s.faults && f.duration.Some?
                               && c == Clearing(f.activateAt + f.duration.value, f.disturbance)
  {
    SortMembers(EarlierFault, s.faults);
    SortMembers(EarlierClearing, ClearingsOf(s.faults));
    forall c ensures c in PendingClearings(s)
              <==> exists f :: f in s.faults && f.duration.Some?
                               && c == Clearing(f.activateAt + f.duration.value, f.disturbance)
    {
      ClearingsMembers(s.faults, c);
    }
  }

  /** The fault's own window is over. */
  predicate Over(f: Fault, e: real) {
    f.duration.Some? && Due(f.activateAt + f.duration.value, e)
  }

  /** The end of `g` zeroes `f`: `g` is over, and `f` was due at every boundary at which it was. */
  ghost predicate CutBy(g: Fault, f: Fault, boundaries: seq<real>, e: real) {
    && g.disturbance == f.disturbance && Over(g, e)
    && forall h :: 0 <= h < |boundaries| && Over(g, boundaries[h]) ==> Due(f.activateAt, boundaries[h])
  }

  lemma ClearingCuts(g: Fault, f: Fault, boundaries: seq<real>, e: real)
    requires g.duration.Some? && g.disturbance == f.disturbance
    ensures Due(g.activateAt + g.duration.value, e)
            && !WasSeen(boundaries, Clearing(g.activateAt + g.duration.value, g.disturbance), f)
       <==> CutBy(g, f, boundaries, e)
  {
  }

  /** Clearings are the ends of the scenario's faults. */
  lemma CutOffIffCutBy(s: Scenario, f: Fault, boundaries: seq<real>, e: real)
    ensures CutOff(f, PendingClearings(s), boundaries, e) <==> exists g :: g in s.faults && CutBy(g, f, boundaries, e)
  {
    var clearings := PendingClearings(s);
    SortMembers(EarlierClearing, ClearingsOf(s.faults));
    if CutOff(f, clearings, boundaries, e) {
      var j :| 0 <= j < |clearings| && clearings[j].disturbance == f.disturbance && Due(clearings[j].time, e)
               && !WasSeen(boundaries, clearings[j], f);
      assert clearings[j] in clearings;
      ClearingsMembers(s.faults, clearings[j]);
      var g :| g in s.faults && g.duration.Some?
          && clearings[j] == Clearing(g.activateAt + g.duration.value, g.disturbance);
      ClearingCuts(g, f, boundaries, e);
    }
    if g :| g in s.faults && CutBy(g, f, boundaries, e) {
      var c := Clearing(g.activateAt + g.duration.value, g.disturbance);
      ClearingsMembers(s.faults, c);
      assert c in clearings;
      var j :| 0 <= j < |clearings| && clearings[j] == c;
      ClearingCuts(g, f, boundaries, e);
    }
  }

  /** A fault's own end always zeroes it. */
  lemma OwnEndCuts(f: Fault, boundaries: seq<real>, e: real)
    requires ValidFault(f)
    ensures Over(f, e) ==> CutBy(f, f, boundaries, e)
  {
  }

  /** The disturbance holds the fault's magnitude while the fault's own window is open and zero once it is over. */
  ghost predicate FollowsWindow(moment: Moment, f: Fault) {
    f.disturbance in moment.disturbances && moment.disturbances[f.disturbance] == ValueOf(f, Over(f, moment.start))
  }

  /** No end of another fault can make a difference to `f` at `e`. */
  ghost predicate Undisturbed(s: Scenario, f: Fault, boundaries: seq<real>, e: real) {
    f.magnitude == 0.0 || Over(f, e) || !exists g :: g in s.faults && CutBy(g, f, boundaries, e)
  }

  /**
   The exact condition for the window filter when faults share disturbances: the last due fault is followed
   unless, while its window is open, the end of another fault on its disturbance zeroed it.
   */
  lemma FollowsWindowIff(moment: Moment, s: Scenario, boundaries: seq<real>, a: int)
    requires ValidScenario(s) && MomentOk(moment, PendingFaults(s), PendingClearings(s), boundaries)
    requires LastDue(PendingFaults(s), moment.start, a)
    ensures FollowsWindow(moment, PendingFaults(s)[a])
       <==> Undisturbed(s, PendingFaults(s)[a], boundaries, moment.start)
  {
    var f, e := PendingFaults(s)[a], moment.start;
    SortMembers(EarlierFault, s.faults);
    assert f in PendingFaults(s);
    CutOffIffCutBy(s, f, boundaries, e);
    OwnEndCuts(f, boundaries, e);
  }

  // ---------------------------------------------------------------------
  // The cursor loops as functions

  /** Disturbance vector, fault log and the two cursors; `raised` names an unknown disturbance. */
  datatype Cursor = Cursor(disturbances: map<string, real>, log: seq<FaultEvent>, n: nat, m: nat,
                           raised: Option<string>)

  function InjectOne(c: Cursor, f: Fault, e: real): Cursor {
    c.(disturbances := c.disturbances[f.disturbance := f.magnitude],
       log := c.log + [FaultEvent(e, f.disturbance, true, f.magnitude)], n := c.n + 1)
  }

  function ClearOne(c: Cursor, disturbance: string, e: real): Cursor {
    c.(disturbances := c.disturbances[disturbance := 0.0], log := c.log
       + [FaultEvent(e, disturbance, false, 1.0)], m := c.m + 1)
  }

  function InjectDue(c: Cursor, faults: seq<Fault>, known: set<string>, e: real): Cursor
    decreases |faults| - c.n
  {
    if c.n < |faults| && Due(faults[c.n].activateAt, e) then
      var f := faults[c.n];
      if f.disturbance !in known then c.(raised := Some(f.disturbance))
      else InjectDue(InjectOne(c, f, e), faults, known, e)
    else c
  }

  function ClearDue(c: Cursor, clearings: seq<Clearing>, known: set<string>, e: real): Cursor
    decreases |clearings| - c.m
  {
    if c.m < |clearings| && Due(clearings[c.m].time, e) then
      var x := clearings[c.m].disturbance;
      if x !in known then c.(raised := Some(x)) else ClearDue(ClearOne(c, x, e), clearings, known, e)
    else c
  }

  function AtBoundary(c: Cursor, faults: seq<Fault>, clearings: seq<Clearing>, known: set<string>, e: real): Cursor {
    var injected := InjectDue(c, faults, known, e);
    if injected.raised.Some? then injected else ClearDue(injected, clearings, known, e)
  }

  datatype Drive = Drive(cursor: Cursor, moments: seq<Moment>)

  /** The main loop over the remaining boundaries. */
  function DriveFrom(c: Cursor, s: Scenario, known: set<string>, starts: seq<real>): Drive
    decreases |starts|
  {
    if starts == [] || c.raised.Some? then Drive(c, [])
    else
      var next := AtBoundary(c, PendingFaults(s), PendingClearings(s), known, starts[0]);
      if next.raised.Some? then Drive(next, [])
      else
        var rest := DriveFrom(next, s, known, starts[1..]);
        Drive(rest.cursor,
              [Moment(starts[0], StepFrom(starts[0], s.warmup + s.duration, s.interval), next.disturbances, next.log)]
                + rest.moments)
  }

  function FreshCursor(): Cursor {
    Cursor(map[], [], 0, 0, None)
  }

  /** Boundaries after warmup. */
  function MainStarts(s: Scenario): seq<real>
    requires s.interval > 0.0
  {
    Starts(Finish(0.0, s.warmup, s.interval), s.warmup + s.duration, s.interval)
  }

  function DriveScenario(s: Scenario, known: set<string>): Drive
    requires s.interval > 0.0
  {
    DriveFrom(FreshCursor(), s, known, MainStarts(s))
  }

  // ---------------------------------------------------------------------
  // The cursors stay caught up

  ghost predicate UnknownDue(faults: seq<Fault>, known: set<string>, e: real) {
    exists f :: f in faults && Due(f.activateAt, e) && f.disturbance !in known
  }

  /** Where the injection loop stops. */
  lemma {:induction false} InjectDueStops(c: Cursor, faults: seq<Fault>, known: set<string>, e: real)
    requires c.n <= |faults| && c.raised.None? && SortedBy(EarlierFault, faults)
    requires forall a :: 0 <= a < c.n ==> Due(faults[a].activateAt, e) && faults[a].disturbance in known
    ensures var c' := InjectDue(c, faults, known, e);
            && c.n <= c'.n <= |faults| && c'.m == c.m
            && (forall a :: 0 <= a < c'.n ==> faults[a].disturbance in known)
            && (c'.raised.None? ==> forall a :: 0 <= a < |faults| ==> (a < c'.n <==> Due(faults[a].activateAt, e)))
            && (c'.raised.Some? ==> UnknownDue(faults, known, e) && c'.raised.value !in known)
    decreases |faults| - c.n
  {
    if c.n < |faults| && Due(faults[c.n].activateAt, e) {
      var f := faults[c.n];
      if f.disturbance in known {
        InjectDueStops(InjectOne(c, f, e), faults, known, e);
      } else {
        assert f in faults;
      }
    }
  }

  lemma {:induction false} InjectDueTracks(c: Cursor, faults: seq<Fault>, known: set<string>, e: real, n0: nat,
                                           clearings: seq<Clearing>, seen: seq<nat>, boundaries: seq<real>)
    returns (seen': seq<nat>)
    requires Tracks(c.disturbances, faults, c.n, clearings, c.m, seen) && Logged(c.log, faults, c.n, clearings, c.m)
    requires SeenOk(faults, c.n, clearings, seen, boundaries) && Ascending(boundaries) && n0 <= c.n
    requires boundaries == [] ==> c.m == 0
    requires boundaries != [] ==> CursorsAt(faults, n0, clearings, c.m, boundaries[|boundaries| - 1])
    ensures var c' := InjectDue(c, faults, known, e);
            && Tracks(c'.disturbances, faults, c'.n, clearings, c'.m, seen')
            && Logged(c'.log, faults, c'.n, clearings, c'.m)
            && SeenOk(faults, c'.n, clearings, seen', boundaries)
    decreases |faults| - c.n
  {
    seen' := seen;
    if c.n < |faults| && Due(faults[c.n].activateAt, e) && faults[c.n].disturbance in known {
      var f := faults[c.n];
      LoggedInjection(c.log, faults, c.n, clearings, c.m, e);
      TracksInjection(c.disturbances, faults, c.n, clearings, c.m, seen);
      SeenWhenInjected(faults, n0, c.n, clearings, c.m, seen, boundaries);
      seen' := InjectDueTracks(InjectOne(c, f, e), faults, known, e, n0, clearings, seen + [c.m], boundaries);
    }
  }

  /** A clearing that is due belongs to a fault that has been injected. */
  ghost predicate ClearingsCovered(faults: seq<Fault>, n: nat, clearings: seq<Clearing>, known: set<string>, e: real)
    requires n <= |faults|
  {
    forall j :: 0 <= j < |clearings| && Due(clearings[j].time, e)
      ==> Touched(faults, n, clearings[j].disturbance) && clearings[j].disturbance in known
  }

  lemma {:induction false} ClearDueStops(c: Cursor, faults: seq<Fault>, clearings: seq<Clearing>, known: set<string>,
                                         e: real)
    requires c.m <= |clearings| && c.n <= |faults| && c.raised.None? && SortedBy(EarlierClearing, clearings)
    requires forall j :: 0 <= j < c.m ==> Due(clearings[j].time, e)
    requires ClearingsCovered(faults, c.n, clearings, known, e)
    ensures var c' := ClearDue(c, clearings, known, e);
            && c'.raised.None? && c'.n == c.n && c'.m <= |clearings|
            && (forall j :: 0 <= j < |clearings| ==> (j < c'.m <==> Due(clearings[j].time, e)))
    decreases |clearings| - c.m
  {
    if c.m < |clearings| && Due(clearings[c.m].time, e) {
      var x := clearings[c.m].disturbance;
      ClearDueStops(ClearOne(c, x, e), faults, clearings, known, e);
    }
  }

  lemma {:induction false} ClearDueLogs(c: Cursor, faults: seq<Fault>, clearings: seq<Clearing>, known: set<string>,
                                        e: real)
    requires Logged(c.log, faults, c.n, clearings, c.m)
    ensures var c' := ClearDue(c, clearings, known, e);
            c'.n == c.n && Logged(c'.log, faults, c'.n, clearings, c'.m)
    decreases |clearings| - c.m
  {
    if c.m < |clearings| && Due(clearings[c.m].time, e) && clearings[c.m].disturbance in known {
      LoggedClearing(c.log, faults, c.n, clearings, c.m, e);
      ClearDueLogs(ClearOne(c, clearings[c.m].disturbance, e), faults, clearings, known, e);
    }
  }

  lemma {:induction false} ClearDueTracks(c: Cursor, faults: seq<Fault>, clearings: seq<Clearing>, known: set<string>,
                                          e: real, seen: seq<nat>)
    requires Tracks(c.disturbances, faults, c.n, clearings, c.m, seen)
             && ClearingsCovered(faults, c.n, clearings, known, e)
    ensures var c' := ClearDue(c, clearings, known, e);
            c'.n == c.n && Tracks(c'.disturbances, faults, c'.n, clearings, c'.m, seen)
    decreases |clearings| - c.m
  {
    if c.m < |clearings| && Due(clearings[c.m].time, e) {
      assert Touched(faults, c.n, clearings[c.m].disturbance);
      TracksClearing(c.disturbances, faults, c.n, clearings, c.m, seen);
      ClearDueTracks(ClearOne(c, clearings[c.m].disturbance, e), faults, clearings, known, e, seen);
    }
  }

  lemma DueClearingsAreCovered(s: Scenario, n: nat, known: set<string>, e: real)
    requires ValidScenario(s) && n <= |PendingFaults(s)|
    requires forall a :: 0 <= a < |PendingFaults(s)| ==> (a < n <==> Due(PendingFaults(s)[a].activateAt, e))
    requires forall a :: 0 <= a < n ==> PendingFaults(s)[a].disturbance in known
    ensures ClearingsCovered(PendingFaults(s), n, PendingClearings(s), known, e)
  {
    var faults, clearings := PendingFaults(s), PendingClearings(s);
    SortMembers(EarlierFault, s.faults);
    SortMembers(EarlierClearing, ClearingsOf(s.faults));
    forall j | 0 <= j < |clearings| && Due(clearings[j].time, e)
      ensures Touched(faults, n, clearings[j].disturbance) && clearings[j].disturbance in known
    {
      assert clearings[j] in clearings;
      ClearingsMembers(s.faults, clearings[j]);
      var f :| f in s.faults && f.duration.Some?
          && clearings[j] == Clearing(f.activateAt + f.duration.value, f.disturbance);
      var a :| 0 <= a < |faults| && faults[a] == f;
      assert Due(faults[a].activateAt, e);
    }
  }

  lemma InjectedAreDue(faults: seq<Fault>, n: nat, clearings: seq<Clearing>, m: nat, boundaries: seq<real>, e: real)
    requires n <= |faults| && m <= |clearings| && (boundaries == [] ==> n == 0 && m == 0)
    requires boundaries != [] ==> CursorsAt(faults, n, clearings, m, boundaries[|boundaries| - 1])
    requires forall h :: 0 <= h < |boundaries| ==> boundaries[h] <= e
    ensures forall a :: 0 <= a < n ==> Due(faults[a].activateAt, e)
    ensures forall j :: 0 <= j < m ==> Due(clearings[j].time, e)
  {
  }

  ghost predicate CaughtUpAt(c: Cursor, s: Scenario, known: set<string>, seen: seq<nat>, boundaries: seq<real>) {
    && c.raised.None? && c.n <= |PendingFaults(s)|
    && CaughtUp(c.disturbances, c.log, PendingFaults(s), c.n, PendingClearings(s), c.m, seen, boundaries)
    && forall a :: 0 <= a < c.n ==> PendingFaults(s)[a].disturbance in known
  }

  /** What the injection loop leaves for the clearing loop, when it raised nothing. */
  ghost predicate Injected(c: Cursor, s: Scenario, known: set<string>, seen: seq<nat>, boundaries: seq<real>, e: real) {
    var faults, clearings := PendingFaults(s), PendingClearings(s);
    && c.raised.None? && c.n <= |faults| && c.m <= |clearings|
    && ClearingsCovered(faults, c.n, clearings, known, e)
    && (forall a :: 0 <= a < |faults| ==> (a < c.n <==> Due(faults[a].activateAt, e)))
    && (forall a :: 0 <= a < c.n ==> faults[a].disturbance in known)
    && (forall j :: 0 <= j < c.m ==> Due(clearings[j].time, e))
    && Tracks(c.disturbances, faults, c.n, clearings, c.m, seen) && Logged(c.log, faults, c.n, clearings, c.m)
    && SeenOk(faults, c.n, clearings, seen, boundaries)
  }

  /** The injection half of a boundary. */
  lemma InjectionHalf(c: Cursor, s: Scenario, known: set<string>, seen: seq<nat>, boundaries: seq<real>, e: real)
    returns (seen': seq<nat>)
    requires ValidScenario(s) && CaughtUpAt(c, s, known, seen, boundaries)
    requires forall h :: 0 <= h < |boundaries| ==> boundaries[h] <= e
    ensures var raised := InjectDue(c, PendingFaults(s), known, e).raised;
            raised.Some? ==> UnknownDue(s.faults, known, e) && raised.value !in known
    ensures var c1 := InjectDue(c, PendingFaults(s), known, e);
            c1.raised.None? ==> !UnknownDue(s.faults, known, e) && Injected(c1, s, known, seen', boundaries, e)
  {
    var faults, clearings := PendingFaults(s), PendingClearings(s);
    assert SortedBy(EarlierFault, faults) by { SortProperties(EarlierFault, s.faults); }
    InjectedAreDue(faults, c.n, clearings, c.m, boundaries, e);
    InjectDueStops(c, faults, known, e);
    var c1 := InjectDue(c, faults, known, e);
    UnknownIsScheduled(s, known, e, c1.n);
    seen' := InjectDueTracks(c, faults, known, e, c.n, clearings, seen, boundaries);
    if c1.raised.None? {
      DueClearingsAreCovered(s, c1.n, known, e);
    }
  }

  /** The clearing half: the cursors are where the boundary puts them. */
  lemma ClearingHalfStops(c: Cursor, s: Scenario, known: set<string>, seen: seq<nat>, boundaries: seq<real>, e: real)
    requires Injected(c, s, known, seen, boundaries, e)
    ensures var c2 := ClearDue(c, PendingClearings(s), known, e);
            c2.raised.None? && c2.n == c.n && CursorsAt(PendingFaults(s), c2.n, PendingClearings(s), c2.m, e)
  {
    assert SortedBy(EarlierClearing, PendingClearings(s)) by { SortProperties(EarlierClearing, ClearingsOf(s.faults)); }
    ClearDueStops(c, PendingFaults(s), PendingClearings(s), known, e);
  }

  /** The clearing half. */
  lemma ClearingHalf(c: Cursor, s: Scenario, known: set<string>, seen: seq<nat>, boundaries: seq<real>, e: real)
    requires Injected(c, s, known, seen, boundaries, e) && Ascending(boundaries)
    requires forall h :: 0 <= h < |boundaries| ==> boundaries[h] <= e
    ensures CaughtUpAt(ClearDue(c, PendingClearings(s), known, e), s, known, seen, boundaries + [e])
    ensures CursorsAt(PendingFaults(s), ClearDue(c, PendingClearings(s), known, e).n, PendingClearings(s),
                      ClearDue(c, PendingClearings(s), known, e).m, e)
  {
    ClearingHalfStops(c, s, known, seen, boundaries, e);
    ClearDueTracks(c, PendingFaults(s), PendingClearings(s), known, e, seen);
    ClearDueLogs(c, PendingFaults(s), PendingClearings(s), known, e);
    SeenAfterBoundary(PendingFaults(s), c.n, PendingClearings(s), seen, boundaries, e);
    AscendingSnoc(boundaries, e);
  }

  lemma AscendingSnoc(boundaries: seq<real>, e: real)
    requires Ascending(boundaries) && forall h :: 0 <= h < |boundaries| ==> boundaries[h] <= e
    ensures Ascending(boundaries + [e])
  {
  }

  function MomentAt(c: Cursor, s: Scenario, e: real): Moment {
    Moment(e, StepFrom(e, s.warmup + s.duration, s.interval), c.disturbances, c.log)
  }

  /** One boundary: either an unknown disturbance is due, or the state is again caught up and as `MomentOk` says. */
  lemma BoundaryCaughtUp(c: Cursor, s: Scenario, known: set<string>, seen: seq<nat>, boundaries: seq<real>, e: real)
    returns (seen': seq<nat>)
    requires ValidScenario(s) && CaughtUpAt(c, s, known, seen, boundaries)
    requires forall h :: 0 <= h < |boundaries| ==> boundaries[h] <= e
    ensures var raised := AtBoundary(c, PendingFaults(s), PendingClearings(s), known, e).raised;
            (raised.None? <==> !UnknownDue(s.faults, known, e)) && (raised.Some? ==> raised.value !in known)
    ensures var c' := AtBoundary(c, PendingFaults(s), PendingClearings(s), known, e);
            c'.raised.None? ==> CaughtUpAt(c', s, known, seen', boundaries + [e])
    ensures var c' := AtBoundary(c, PendingFaults(s), PendingClearings(s), known, e);
            c'.raised.None? ==> MomentOk(MomentAt(c', s, e), PendingFaults(s), PendingClearings(s), boundaries + [e])
  {
    seen' := InjectionHalf(c, s, known, seen, boundaries, e);
    var c1 := InjectDue(c, PendingFaults(s), known, e);
    if c1.raised.None? {
      ClearingHalf(c1, s, known, seen', boundaries, e);
      FoundAtBoundary(ClearDue(c1, PendingClearings(s), known, e), PendingFaults(s), PendingClearings(s), seen',
                      boundaries + [e], e, StepFrom(e, s.warmup + s.duration, s.interval));
    }
  }

  lemma FoundAtBoundary(c: Cursor, faults: seq<Fault>, clearings: seq<Clearing>, seen: seq<nat>, boundaries: seq<real>,
                        e: real, step: real)
    requires Tracks(c.disturbances, faults, c.n, clearings, c.m, seen) && Logged(c.log, faults, c.n, clearings, c.m)
    requires SeenOk(faults, c.n, clearings, seen, boundaries) && CursorsAt(faults, c.n, clearings, c.m, e)
    ensures MomentOk(Moment(e, step, c.disturbances, c.log), faults, clearings, boundaries)
  {
    FilterIsPrefix(faults, c.n, clearings, c.m, e);
    VectorInForce(c.disturbances, faults, c.n, clearings, c.m, seen, boundaries, e);
  }

  lemma UnknownIsScheduled(s: Scenario, known: set<string>, e: real, n: nat)
    requires n <= |PendingFaults(s)|
    ensures UnknownDue(PendingFaults(s), known, e) <==> UnknownDue(s.faults, known, e)
    ensures (forall a :: 0 <= a < |PendingFaults(s)| ==> (a < n <==> Due(PendingFaults(s)[a].activateAt, e)))
            && (forall a :: 0 <= a < n ==> PendingFaults(s)[a].disturbance in known)
            ==> !UnknownDue(s.faults, known, e)
  {
    SortMembers(EarlierFault, s.faults);
    var faults := PendingFaults(s);
    assert forall f :: f in faults <==> f in s.faults;
    assert UnknownDue(s.faults, known, e)
           ==> exists a :: 0 <= a < |faults| && Due(faults[a].activateAt, e) && faults[a].disturbance !in known;
  }

  /** Step `k` started at its boundary, lasted to the next one, and found what `MomentOk` says. */
  ghost predicate StepRecorded(moment: Moment, s: Scenario, starts: seq<real>, before: seq<real>, k: nat)
    requires k < |starts|
  {
    && moment.start == starts[k] && moment.duration == StepFrom(starts[k], s.warmup + s.duration, s.interval)
    && MomentOk(moment, PendingFaults(s), PendingClearings(s), before + starts[..k + 1])
  }

  ghost predicate Recorded(moments: seq<Moment>, s: Scenario, starts: seq<real>, before: seq<real>) {
    |moments| == |starts| && forall k :: 0 <= k < |starts| ==> StepRecorded(moments[k], s, starts, before, k)
  }

  lemma StepRecordedLater(moment: Moment, s: Scenario, starts: seq<real>, before: seq<real>, k: nat)
    requires k < |starts| - 1 && StepRecorded(moment, s, starts[1..], before + [starts[0]], k)
    ensures StepRecorded(moment, s, starts, before, k + 1)
  {
    assert starts[1..][k] == starts[k + 1];
    assert before + starts[..k + 2] == before + [starts[0]] + starts[1..][..k + 1];
  }

  lemma RecordedCons(first: Moment, moments: seq<Moment>, s: Scenario, starts: seq<real>, before: seq<real>)
    requires starts != [] && Recorded(moments, s, starts[1..], before + [starts[0]])
    requires StepRecorded(first, s, starts, before, 0)
    ensures Recorded([first] + moments, s, starts, before)
  {
    forall k | 0 <= k < |moments| ensures StepRecorded(moments[k], s, starts, before, k + 1) {
      StepRecordedLater(moments[k], s, starts, before, k);
    }
    forall k | 0 < k < |starts| ensures StepRecorded(([first] + moments)[k], s, starts, before, k) {
      assert StepRecorded(moments[k - 1], s, starts, before, k - 1 + 1);
    }
  }

  /**
   A run over `starts` raises exactly when an unknown disturbance is due by the last of them, and is
   otherwise recorded in full.
   */
  ghost predicate DriveOk(d: Drive, s: Scenario, known: set<string>, starts: seq<real>, before: seq<real>) {
    && (d.cursor.raised.None? <==> starts == [] || !UnknownDue(s.faults, known, starts[|starts| - 1]))
    && (d.cursor.raised.Some? ==> d.cursor.raised.value !in known)
    && (d.cursor.raised.None? ==> Recorded(d.moments, s, starts, before))
  }

  lemma DriveOkCons(rest: Drive, s: Scenario, known: set<string>, starts: seq<real>, before: seq<real>, first: Moment)
    requires starts != [] && StepRecorded(first, s, starts, before, 0)
    requires !UnknownDue(s.faults, known, starts[0])
    requires DriveOk(rest, s, known, starts[1..], before + [starts[0]])
    ensures DriveOk(Drive(rest.cursor, [first] + rest.moments), s, known, starts, before)
  {
    assert starts[1..] != [] ==> starts[1..][|starts| - 2] == starts[|starts| - 1];
    if rest.cursor.raised.None? {
      RecordedCons(first, rest.moments, s, starts, before);
    }
  }

  ghost predicate AllBefore(boundaries: seq<real>, e: real) {
    forall h :: 0 <= h < |boundaries| ==> boundaries[h] <= e
  }

  ghost predicate BoundaryKeeps(inv: (Cursor, seq<real>) -> bool, c: Cursor, s: Scenario, known: set<string>,
                                boundaries: seq<real>, e: real) {
    var next := AtBoundary(c, PendingFaults(s), PendingClearings(s), known, e);
    && (next.raised.None? <==> !UnknownDue(s.faults, known, e)) && (next.raised.Some? ==> next.raised.value !in known)
    && (next.raised.None? ==> inv(next, boundaries + [e]) && StepRecorded(MomentAt(next, s, e), s, [e], boundaries, 0))
  }

  /** An invariant that every boundary keeps carries over the whole run. */
  lemma {:induction false} DriveRecorded(inv: (Cursor, seq<real>) -> bool, c: Cursor, s: Scenario, known: set<string>,
                                         starts: seq<real>, before: seq<real>)
    requires forall c, boundaries, e :: inv(c, boundaries) && AllBefore(boundaries, e)
               ==> BoundaryKeeps(inv, c, s, known, boundaries, e)
    requires inv(c, before) && c.raised.None? && Ascending(before + starts)
    ensures DriveOk(DriveFrom(c, s, known, starts), s, known, starts, before)
    decreases |starts|
  {
    if starts != [] {
      AscendingParts(before, starts);
      assert BoundaryKeeps(inv, c, s, known, before, starts[0]);
      var next := AtBoundary(c, PendingFaults(s), PendingClearings(s), known, starts[0]);
      UnknownStaysDue(s.faults, known, starts[0], starts[|starts| - 1]);
      if next.raised.None? {
        DriveRecorded(inv, next, s, known, starts[1..], before + [starts[0]]);
        assert starts[..1] == [starts[0]] == [starts[0]][..1];
        DriveOkCons(DriveFrom(next, s, known, starts[1..]), s, known, starts, before, MomentAt(next, s, starts[0]));
      }
    }
  }

  lemma {:induction false} CaughtUpIsKept(s: Scenario, known: set<string>, c: Cursor, boundaries: seq<real>, e: real)
    requires ValidScenario(s) && CaughtUpSomehow(c, s, known, boundaries) && AllBefore(boundaries, e)
    ensures BoundaryKeeps((c: Cursor, b: seq<real>) => CaughtUpSomehow(c, s, known, b), c, s, known, boundaries, e)
  {
    var seen :| CaughtUpAt(c, s, known, seen, boundaries);
    var seen' := BoundaryCaughtUp(c, s, known, seen, boundaries, e);
    assert [e][..1] == [e];
  }

  ghost predicate CaughtUpSomehow(c: Cursor, s: Scenario, known: set<string>, boundaries: seq<real>) {
    exists seen :: CaughtUpAt(c, s, known, seen, boundaries)
  }

  lemma AscendingParts(before: seq<real>, starts: seq<real>)
    requires Ascending(before + starts) && starts != []
    ensures AllBefore(before, starts[0])
    ensures starts[0] <= starts[|starts| - 1]
    ensures Ascending(before + [starts[0]] + starts[1..])
  {
    var all := before + starts;
    assert before + [starts[0]] + starts[1..] == all;
    assert all[|before|] == starts[0] && all[|all| - 1] == starts[|starts| - 1];
    assert forall h :: 0 <= h < |before| ==> all[h] == before[h];
  }

  lemma UnknownStaysDue(faults: seq<Fault>, known: set<string>, e: real, later: real)
    requires e <= later
    ensures UnknownDue(faults, known, e) ==> UnknownDue(faults, known, later)
  {
    if UnknownDue(faults, known, e) {
      var f :| f in faults && Due(f.activateAt, e) && f.disturbance !in known;
      assert Due(f.activateAt, later);
    }
  }

  lemma MainStartsAscend(s: Scenario)
    requires ValidScenario(s)
    ensures Ascending(MainStarts(s))
  {
    FinishNearEnd(0.0, s.warmup, s.interval);
    var e0, total := Finish(0.0, s.warmup, s.interval), s.warmup + s.duration;
    StartsAdvance(e0, total, s.interval);
    var starts := MainStarts(s);
    assert forall k :: 0 <= k < |starts| - 1 ==> starts[k] <= starts[k + 1];
    AscendingFromSteps(starts);
  }

  lemma {:induction false} AscendingFromSteps(starts: seq<real>)
    requires forall k :: 0 <= k < |starts| - 1 ==> starts[k] <= starts[k + 1]
    ensures Ascending(starts)
  {
    if starts != [] {
      var front := starts[..|starts| - 1];
      AscendingFromSteps(front);
      forall h, k | 0 <= h <= k < |starts| ensures starts[h] <= starts[k] {
        if h < k && k == |starts| - 1 {
          assert front[h] <= front[k - 1] && starts[k - 1] <= starts[k];
        } else if k < |front| {
          assert front[h] <= front[k];
        }
      }
    }
  }

  /**
   The schedule refines the filter: unless an unknown disturbance is due by the last boundary, every
   step after warmup was recorded with exactly the due faults injected, the due ones cleared, and the vector in force.
   */
  lemma ScheduleRefinesFilter(s: Scenario, known: set<string>)
    requires ValidScenario(s)
    ensures DriveOk(DriveScenario(s, known), s, known, MainStarts(s), [])
  {
    var starts := MainStarts(s);
    MainStartsAscend(s);
    assert [] + starts == starts;
    FreshIsCaughtUp(s, known);
    var inv := (c: Cursor, b: seq<real>) => CaughtUpSomehow(c, s, known, b);
    forall c, boundaries, e | inv(c, boundaries) && AllBefore(boundaries, e)
      ensures BoundaryKeeps(inv, c, s, known, boundaries, e)
    {
      CaughtUpIsKept(s, known, c, boundaries, e);
    }
    DriveRecorded(inv, FreshCursor(), s, known, starts, []);
  }

  lemma RecordedStep(s: Scenario, known: set<string>, k: nat)
    requires ValidScenario(s) && DriveScenario(s, known).cursor.raised.None? && k < |MainStarts(s)|
    ensures var moments := DriveScenario(s, known).moments;
            |moments| == |MainStarts(s)| && moments[k].start == MainStarts(s)[k]
            && MomentOk(moments[k], PendingFaults(s), PendingClearings(s), MainStarts(s)[..k + 1])
  {
    ScheduleRefinesFilter(s, known);
    assert StepRecorded(DriveScenario(s, known).moments[k], s, MainStarts(s), [], k);
    assert [] + MainStarts(s)[..k + 1] == MainStarts(s)[..k + 1];
  }

  /** In a run that raises nothing, every step follows the last due fault exactly under that condition. */
  lemma RunFollowsWindowIff(s: Scenario, known: set<string>, k: nat, a: int)
    requires ValidScenario(s) && DriveScenario(s, known).cursor.raised.None? && k < |MainStarts(s)|
    requires LastDue(PendingFaults(s), MainStarts(s)[k], a)
    ensures k < |DriveScenario(s, known).moments|
    ensures FollowsWindow(DriveScenario(s, known).moments[k], PendingFaults(s)[a])
       <==> Undisturbed(s, PendingFaults(s)[a], MainStarts(s)[..k + 1], MainStarts(s)[k])
  {
    RecordedStep(s, known, k);
    FollowsWindowIff(DriveScenario(s, known).moments[k], s, MainStarts(s)[..k + 1], a);
  }

  /** Where the condition fails the value is zero. */
  lemma RunIsCut(s: Scenario, known: set<string>, k: nat, a: int)
    requires ValidScenario(s) && DriveScenario(s, known).cursor.raised.None? && k < |MainStarts(s)|
    requires LastDue(PendingFaults(s), MainStarts(s)[k], a)
    requires !Undisturbed(s, PendingFaults(s)[a], MainStarts(s)[..k + 1], MainStarts(s)[k])
    ensures |DriveScenario(s, known).moments| == |MainStarts(s)|
    ensures var step, x := DriveScenario(s, known).moments[k], PendingFaults(s)[a].disturbance;
            step.start == MainStarts(s)[k] && x in step.disturbances && step.disturbances[x] == 0.0
  {
    RecordedStep(s, known, k);
    RunFollowsWindowIff(s, known, k, a);
  }

  const SHARED := Scenario(0.0, 3.0, 1.0, [Fault("idv_01", 0.0, Some(2.0), 1.0), Fault("idv_01", 1.0, None, 1.0)])

  lemma SharedStarts()
    ensures MainStarts(SHARED) == [0.0, 1.0, 2.0]
  {
    assert Finish(0.0, 0.0, 1.0) == 0.0;
    assert Starts(3.0, 3.0, 1.0) == [];
    assert Starts(2.0, 3.0, 1.0) == [2.0];
    assert Starts(1.0, 3.0, 1.0) == [1.0, 2.0];
  }

  lemma SharedFaults()
    ensures PendingFaults(SHARED) == SHARED.faults && LastDue(SHARED.faults, 2.0, 1)
    ensures !Undisturbed(SHARED, SHARED.faults[1], [0.0, 1.0, 2.0], 2.0)
  {
    assert SHARED.faults[1..] == [SHARED.faults[1]];
    assert Sort(EarlierFault, [SHARED.faults[1]]) == [SHARED.faults[1]];
    assert CutBy(SHARED.faults[0], SHARED.faults[1], [0.0, 1.0, 2.0], 2.0);
  }

  lemma SharedRaisesNothing()
    ensures DriveScenario(SHARED, {"idv_01"}).cursor.raised.None?
  {
    SharedStarts();
    ScheduleRefinesFilter(SHARED, {"idv_01"});
  }

  /**
   A run in which the filter fails: clearing one fault zeroes a second one on the same disturbance, still in
   its window.
   */
  lemma SharedDisturbanceIsCut()
    ensures |DriveScenario(SHARED, {"idv_01"}).moments| == 3
    ensures LastDue(PendingFaults(SHARED), 2.0, 1) && !Over(PendingFaults(SHARED)[1], 2.0)
    ensures var step := DriveScenario(SHARED, {"idv_01"}).moments[2];
            step.start == 2.0 && "idv_01" in step.disturbances && step.disturbances["idv_01"] == 0.0
  {
    SharedStarts();
    SharedFaults();
    SharedRaisesNothing();
    assert MainStarts(SHARED)[..3] == MainStarts(SHARED);
    RunIsCut(SHARED, {"idv_01"}, 2, 1);
  }

  lemma FreshIsCaughtUp(s: Scenario, known: set<string>)
    ensures CaughtUpAt(FreshCursor(), s, known, [], [])
  {
    assert PendingFaults(s)[..0] == [] && PendingClearings(s)[..0] == [];
  }

  /**
   The timeline is covered: it ends within the tolerance of its end, and the number of steps is the rounded-
   up quotient.
   */
  lemma TimelineCovered(s: Scenario)
    requires ValidScenario(s)
    ensures var e0, total := Finish(0.0, s.warmup, s.interval), s.warmup + s.duration;
            && s.warmup - TOLERANCE <= e0 <= s.warmup
            && total - TOLERANCE <= Finish(e0, total, s.interval) <= total
            && |MainStarts(s)| == (if e0 < total - TOLERANCE then Ceil((total - TOLERANCE - e0) / s.interval) else 0)
            && (s.duration > TOLERANCE ==> MainStarts(s) != [])
  {
    var e0, total := Finish(0.0, s.warmup, s.interval), s.warmup + s.duration;
    FinishNearEnd(0.0, s.warmup, s.interval);
    FinishNearEnd(e0, total, s.interval);
    StepCount(e0, total, s.interval);
  }

  /** When the last step ends. */
  function End(s: Scenario): real
    requires s.interval > 0.0
  {
    Finish(Finish(0.0, s.warmup, s.interval), s.warmup + s.duration, s.interval)
  }

  /** The times at which the plant is synced when nothing is raised: once after warmup, then after every step. */
  function SyncTimes(s: Scenario): seq<real>
    requires s.interval > 0.0
  {
    MainStarts(s) + [End(s)]
  }

  /** Sync times start where warmup ends, strictly increase in steps of at most the interval, and end at the end. */
  lemma SyncsAdvance(s: Scenario)
    requires ValidScenario(s)
    ensures var t := SyncTimes(s);
            && t[0] == Finish(0.0, s.warmup, s.interval) && t[|t| - 1] == End(s)
            && forall k :: 0 <= k < |t| - 1 ==> t[k] < t[k + 1] <= t[k] + s.interval
  {
    var e0, total := Finish(0.0, s.warmup, s.interval), s.warmup + s.duration;
    FinishNearEnd(0.0, s.warmup, s.interval);
    StartsAdvance(e0, total, s.interval);
    var starts, t := MainStarts(s), SyncTimes(s);
    forall k | 0 <= k < |starts| ensures t[k + 1] == t[k] + StepFrom(t[k], total, s.interval) {
    }
  }

  // ---------------------------------------------------------------------
  // `prepare` itself

  datatype PrepareError = UnknownDisturbance(name: string) | NoEnvironment

  datatype PrepareResult = Raised(error: PrepareError) | Ready(syncCount: nat, environment: real)

  /** Nothing is injected or synced during warmup. */
  method WarmUp(simulator: Simulator, s: Scenario) returns (elapsed: real)
    requires ValidScenario(s) && simulator.time == 0.0 && simulator.history == []
    requires simulator.disturbances == map[] && simulator.log == []
    modifies simulator
    ensures elapsed == simulator.time == Finish(0.0, s.warmup, s.interval)
    ensures simulator.disturbances == map[] && simulator.log == []
    ensures var w := Starts(0.0, s.warmup, s.interval);
            |simulator.history| == |w|
            && forall k :: 0 <= k < |w|
                 ==> simulator.history[k] == Moment(w[k], StepFrom(w[k], s.warmup, s.interval), map[], [])
  {
    elapsed := 0.0;
    ghost var w := Starts(0.0, s.warmup, s.interval);
    while elapsed < s.warmup - TOLERANCE
      invariant elapsed == simulator.time && Finish(elapsed, s.warmup, s.interval) == Finish(0.0, s.warmup, s.interval)
      invariant simulator.disturbances == map[] && simulator.log == []
      invariant |simulator.history| <= |w| && w[|simulator.history|..] == Starts(elapsed, s.warmup, s.interval)
      invariant forall k :: 0 <= k < |simulator.history|
                  ==> simulator.history[k] == Moment(w[k], StepFrom(w[k], s.warmup, s.interval), map[], [])
      decreases StepsNeeded(elapsed, s.warmup, s.interval)
    {
      OneStepFewer(elapsed, s.warmup, s.interval);
      ghost var k := |simulator.history|;
      assert w[k..][0] == elapsed && w[k..][1..] == w[k + 1..];
      var step := StepFrom(elapsed, s.warmup, s.interval);
      simulator.Step(step);
      elapsed := elapsed + step;
    }
  }

  /** The first cursor loop of one boundary. */
  method InjectFaults(simulator: Simulator, faults: seq<Fault>, n0: nat, e: real, ghost m: nat)
    returns (n: nat, raised: Option<string>)
    requires simulator.time == e
    modifies simulator
    ensures simulator.time == e && simulator.history == old(simulator.history)
    ensures Cursor(simulator.disturbances, simulator.log, n, m, raised)
         == InjectDue(Cursor(old(simulator.disturbances), old(simulator.log), n0, m, None), faults, simulator.known, e)
  {
    n, raised := n0, None;
    ghost var goal := InjectDue(Cursor(simulator.disturbances, simulator.log, n, m, None), faults, simulator.known, e);
    while n < |faults| && faults[n].activateAt <= e + TOLERANCE
      invariant simulator.time == e && simulator.history == old(simulator.history) && raised.None?
      invariant goal == InjectDue(Cursor(simulator.disturbances, simulator.log, n, m, None), faults, simulator.known, e)
      decreases |faults| - n
    {
      var ok := simulator.InjectFault(faults[n].disturbance, true, faults[n].magnitude);
      if !ok {
        return n, Some(faults[n].disturbance);
      }
      n := n + 1;
    }
  }

  /** The second cursor loop of one boundary. */
  method ClearFaults(simulator: Simulator, clearings: seq<Clearing>, m0: nat, e: real, ghost n: nat)
    returns (m: nat, raised: Option<string>)
    requires simulator.time == e
    modifies simulator
    ensures simulator.time == e && simulator.history == old(simulator.history)
    ensures Cursor(simulator.disturbances, simulator.log, n, m, raised)
         == ClearDue(Cursor(old(simulator.disturbances), old(simulator.log), n, m0, None), clearings, simulator.known,
                     e)
  {
    m, raised := m0, None;
    ghost var goal := ClearDue(Cursor(simulator.disturbances, simulator.log, n, m, None), clearings, simulator.known,
                               e);
    while m < |clearings| && clearings[m].time <= e + TOLERANCE
      invariant simulator.time == e && simulator.history == old(simulator.history) && raised.None?
      invariant goal == ClearDue(Cursor(simulator.disturbances, simulator.log, n, m, None), clearings, simulator.known,
                                 e)
      decreases |clearings| - m
    {
      var ok := simulator.InjectFault(clearings[m].disturbance, false, 1.0);
      if !ok {
        return m, Some(clearings[m].disturbance);
      }
      m := m + 1;
    }
  }

  /** Both loops of one boundary. */
  method ApplyBoundary(simulator: Simulator, s: Scenario, n0: nat, m0: nat, e: real)
    returns (n: nat, m: nat, raised: Option<string>)
    requires simulator.time == e
    modifies simulator
    ensures simulator.time == e && simulator.history == old(simulator.history)
    ensures Cursor(simulator.disturbances, simulator.log, n, m, raised)
         == AtBoundary(Cursor(old(simulator.disturbances), old(simulator.log), n0, m0, None), PendingFaults(s),
                       PendingClearings(s), simulator.known, e)
  {
    m := m0;
    n, raised := InjectFaults(simulator, PendingFaults(s), n0, e, m);
    if raised.None? {
      m, raised := ClearFaults(simulator, PendingClearings(s), m0, e, n);
    }
  }

  function PrepareOutcome(s: Scenario, raised: Option<string>): PrepareResult
    requires s.interval > 0.0
  {
    if raised.Some? then Raised(UnknownDisturbance(raised.value))
    else if MainStarts(s) == [] then Raised(NoEnvironment)
    else Ready(1 + |MainStarts(s)|, End(s))
  }

  /** One turn of the main loop. */
  method StepOnce(simulator: Simulator, sync: ContextSync, s: Scenario, n0: nat, m0: nat, e: real)
    returns (n: nat, m: nat, raised: Option<string>)
    requires simulator.time == e
    modifies simulator, sync
    ensures var c := AtBoundary(Cursor(old(simulator.disturbances), old(simulator.log), n0, m0, None), PendingFaults(s),
                                PendingClearings(s), simulator.known, e);
            && Cursor(simulator.disturbances, simulator.log, n, m, raised) == c
            && (raised.Some? ==> simulator.history == old(simulator.history) && sync.synced == old(sync.synced))
    ensures raised.None? ==>
              var step := StepFrom(e, s.warmup + s.duration, s.interval);
              && simulator.time == e + step && sync.synced == old(sync.synced) + [e + step]
              && simulator.history == old(simulator.history) + [Moment(e, step, simulator.disturbances, simulator.log)]
  {
    n, m, raised := ApplyBoundary(simulator, s, n0, m0, e);
    if raised.None? {
      simulator.Step(StepFrom(e, s.warmup + s.duration, s.interval));
      sync.Sync(simulator);
    }
  }

  /** `goal` is what has been recorded so far followed by what the remaining boundaries will add. */
  ghost predicate Remaining(goal: Drive, rest: Drive, steps: nat, before: seq<Moment>, now: seq<Moment>) {
    goal.cursor == rest.cursor && |goal.moments| == steps + |rest.moments|
      && before + goal.moments == now + rest.moments
  }

  /** The main loop's invariant: the boundaries still ahead, what has been synced, and what is still to be recorded. */
  ghost predicate InLoop(c: Cursor, s: Scenario, known: set<string>, elapsed: real, steps: nat, synced: seq<real>,
                         before: seq<Moment>, now: seq<Moment>)
    requires s.interval > 0.0
  {
    var starts, total := MainStarts(s), s.warmup + s.duration;
    && steps <= |starts| && starts[steps..] == Starts(elapsed, total, s.interval)
    && Finish(elapsed, total, s.interval) == End(s)
    && synced == starts[..steps] + [elapsed]
    && Remaining(DriveScenario(s, known), DriveFrom(c, s, known, starts[steps..]), steps, before, now)
  }

  /** How the main loop ends: with what it raised, its recorded steps, and the syncs so far. */
  ghost predicate Ended(s: Scenario, known: set<string>, raised: Option<string>, steps: nat, synced: seq<real>,
                        before: seq<Moment>, now: seq<Moment>)
    requires s.interval > 0.0
  {
    var goal := DriveScenario(s, known);
    && raised == goal.cursor.raised && now == before + goal.moments
    && steps == |goal.moments| <= |MainStarts(s)| && (raised.None? ==> steps == |MainStarts(s)|)
    && synced == SyncTimes(s)[..steps + 1]
  }

  /** The next boundary of the loop is the next start. */
  lemma AtStart(c: Cursor, s: Scenario, known: set<string>, elapsed: real, steps: nat, synced: seq<real>,
                before: seq<Moment>, now: seq<Moment>)
    requires s.interval > 0.0 && InLoop(c, s, known, elapsed, steps, synced, before, now)
    requires elapsed < s.warmup + s.duration - TOLERANCE
    ensures steps < |MainStarts(s)| && MainStarts(s)[steps] == elapsed
            && MainStarts(s)[steps..] == [elapsed] + MainStarts(s)[steps + 1..]
    ensures var later := elapsed + StepFrom(elapsed, s.warmup + s.duration, s.interval);
            && MainStarts(s)[steps + 1..] == Starts(later, s.warmup + s.duration, s.interval)
            && Finish(later, s.warmup + s.duration, s.interval) == End(s)
  {
    OneStepFewer(elapsed, s.warmup + s.duration, s.interval);
    var starts := MainStarts(s);
    assert starts[steps..][0] == elapsed && starts[steps..][1..] == starts[steps + 1..];
  }

  lemma InLoopNext(c: Cursor, s: Scenario, known: set<string>, elapsed: real, steps: nat, synced: seq<real>,
                   before: seq<Moment>, now: seq<Moment>)
    requires s.interval > 0.0 && InLoop(c, s, known, elapsed, steps, synced, before, now)
    requires c.raised.None? && elapsed < s.warmup + s.duration - TOLERANCE
    requires AtBoundary(c, PendingFaults(s), PendingClearings(s), known, elapsed).raised.None?
    ensures var next := AtBoundary(c, PendingFaults(s), PendingClearings(s), known, elapsed);
            var later := elapsed + StepFrom(elapsed, s.warmup + s.duration, s.interval);
            InLoop(next, s, known, later, steps + 1, synced + [later], before, now + [MomentAt(next, s, elapsed)])
  {
    AtStart(c, s, known, elapsed, steps, synced, before, now);
  }

  lemma InLoopRaised(c: Cursor, s: Scenario, known: set<string>, elapsed: real, steps: nat, synced: seq<real>,
                     before: seq<Moment>, now: seq<Moment>)
    requires s.interval > 0.0 && InLoop(c, s, known, elapsed, steps, synced, before, now)
    requires c.raised.None? && elapsed < s.warmup + s.duration - TOLERANCE
    requires AtBoundary(c, PendingFaults(s), PendingClearings(s), known, elapsed).raised.Some?
    ensures Ended(s, known, AtBoundary(c, PendingFaults(s), PendingClearings(s), known, elapsed).raised, steps, synced,
                  before, now)
  {
    AtStart(c, s, known, elapsed, steps, synced, before, now);
    assert synced == SyncTimes(s)[..steps + 1];
  }

  lemma InLoopEnd(c: Cursor, s: Scenario, known: set<string>, elapsed: real, steps: nat, synced: seq<real>,
                  before: seq<Moment>, now: seq<Moment>)
    requires s.interval > 0.0 && InLoop(c, s, known, elapsed, steps, synced, before, now)
    requires c.raised.None? && !(elapsed < s.warmup + s.duration - TOLERANCE)
    ensures Ended(s, known, None, steps, synced, before, now)
  {
    assert MainStarts(s)[steps..] == [];
  }

  /** One turn of the main loop, in terms of its invariant. */
  method Turn(simulator: Simulator, sync: ContextSync, s: Scenario, n0: nat, m0: nat, e: real, ghost steps: nat,
              ghost before: seq<Moment>)
    returns (n: nat, m: nat, raised: Option<string>, later: real)
    requires s.interval > 0.0 && simulator.time == e && e < s.warmup + s.duration - TOLERANCE
    requires InLoop(Cursor(simulator.disturbances, simulator.log, n0, m0, None), s, simulator.known, e, steps,
                    sync.synced, before, simulator.history)
    modifies simulator, sync
    ensures later == e + StepFrom(e, s.warmup + s.duration, s.interval)
    ensures raised.None? ==> simulator.time == later
    ensures raised.None? ==>
              InLoop(Cursor(simulator.disturbances, simulator.log, n, m, None), s, simulator.known, later, steps + 1,
                     sync.synced, before, simulator.history)
    ensures raised.Some? ==> Ended(s, simulator.known, raised, steps, sync.synced, before, simulator.history)
  {
    ghost var c := Cursor(simulator.disturbances, simulator.log, n0, m0, None);
    ghost var synced, now := sync.synced, simulator.history;
    ghost var next := AtBoundary(c, PendingFaults(s), PendingClearings(s), simulator.known, e);
    n, m, raised := StepOnce(simulator, sync, s, n0, m0, e);
    later := e + StepFrom(e, s.warmup + s.duration, s.interval);
    assert Cursor(simulator.disturbances, simulator.log, n, m, raised) == next;
    if raised.Some? {
      InLoopRaised(c, s, simulator.known, e, steps, synced, before, now);
    } else {
      assert simulator.history == now + [MomentAt(next, s, e)] && sync.synced == synced + [later];
      InLoopNext(c, s, simulator.known, e, steps, synced, before, now);
    }
  }

  /** The main loop. */
  method RunSteps(simulator: Simulator, sync: ContextSync, s: Scenario, e0: real)
    returns (raised: Option<string>, steps: nat)
    requires ValidScenario(s) && simulator.time == e0 && simulator.disturbances == map[] && simulator.log == []
    requires e0 == Finish(0.0, s.warmup, s.interval) && sync.synced == [e0]
    modifies simulator, sync
    ensures Ended(s, simulator.known, raised, steps, sync.synced, old(simulator.history), simulator.history)
  {
    var total, elapsed, n, m := s.warmup + s.duration, e0, 0, 0;
    raised, steps := None, 0;
    ghost var known, before := simulator.known, simulator.history;
    while elapsed < total - TOLERANCE
      invariant raised.None? && elapsed == simulator.time
      invariant InLoop(Cursor(simulator.disturbances, simulator.log, n, m, None), s, known, elapsed, steps, sync.synced,
                       before, simulator.history)
      decreases StepsNeeded(elapsed, total, s.interval)
    {
      OneStepFewer(elapsed, total, s.interval);
      n, m, raised, elapsed := Turn(simulator, sync, s, n, m, elapsed, steps, before);
      if raised.Some? {
        return;
      }
      steps := steps + 1;
    }
    InLoopEnd(Cursor(simulator.disturbances, simulator.log, n, m, None), s, known, elapsed, steps, sync.synced, before,
              simulator.history);
  }

  /**
   The whole of `prepare`. What it records after warmup is `DriveScenario`, which the lemmas above
   describe; the plant is synced once after warmup and after every step. With no step at all the
   final environment is never bound. `environment` is the last synced state, by its time.
   */
  method Prepare(s: Scenario, known: set<string>) returns (r: PrepareResult, simulator: Simulator, sync: ContextSync)
    requires ValidScenario(s)
    ensures fresh(simulator) && fresh(sync)
    ensures r == PrepareOutcome(s, DriveScenario(s, known).cursor.raised)
    ensures var warm := |Starts(0.0, s.warmup, s.interval)|;
            warm <= |simulator.history| && simulator.history[warm..] == DriveScenario(s, known).moments
    ensures |DriveScenario(s, known).moments| <= |MainStarts(s)|
    ensures sync.synced == SyncTimes(s)[..|DriveScenario(s, known).moments| + 1]
  {
    simulator := new Simulator(known);
    sync := new ContextSync();
    var elapsed := WarmUp(simulator, s);
    sync.Sync(simulator);
    var raised, steps := RunSteps(simulator, sync, s, elapsed);
    if raised.Some? {
      r := Raised(UnknownDisturbance(raised.value));
    } else if steps == 0 {
      r := Raised(NoEnvironment);
    } else {
      r := Ready(1 + steps, sync.synced[|sync.synced| - 1]);
    }
  }
}
