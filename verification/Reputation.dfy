/** The MF-PoP reputation machine over exact reals: base reputation, history, safety penalty,
    stake and jail, as the three simulation scripts update them, with the bounds the design
    promises for every adversarial sequence of events. */
module Reputation {

  const R_MIN := 0.01
  const R_MAX := 1.0
  const R_JAIL := 0.015
  const R_INITIAL := 0.5
  const A_H := 0.016
  const GAMMA := 0.70
  const Q_L := 0.95
  const Q_S := 0.50
  const SIGMA := 0.10

  // The transition functions below have the constants multiplied in, so that the solver sees
  // linear terms; the machines use them by name.

  datatype Event = Valid | Invalid | Missing

  /** The part of a committer's state that all three scripts have. */
  datatype Core = Core(base: real, history: real, penalty: real, jailed: bool)

  const INITIAL_CORE := Core(R_INITIAL, R_INITIAL, 1.0, false)

  function Min(x: real, y: real): real { if x <= y then x else y }
  function Max(x: real, y: real): real { if x >= y then x else y }

  function EffectiveR(c: Core): (r: real)
    ensures r >= R_MIN
  {
    if c.jailed then R_MIN else Max(R_MIN, c.base * c.penalty)
  }

  function NewHistory(history: real, event: Event): real
  {
    match event
    case Valid => 0.70 * history + 0.30
    case Invalid => 0.70 * history
    case Missing => history
  }

  /** What a valid round makes of the base, before any clamp. */
  function Recovered(base: real, newHistory: real): real
  {
    0.984 * base + 0.016 * (0.7 + 0.3 * newHistory)
  }

  /** The jail test, made only on a confirmed invalid event. */
  function Judge(c: Core, event: Event): Core
  {
    if event == Invalid && EffectiveR(c) <= R_JAIL then c.(jailed := true) else c
  }

  /** A step of the machine without a lower clamp. */
  function CoreStep(c: Core, event: Event): Core
  {
    if c.jailed then c
    else
      var newHistory := NewHistory(c.history, event);
      var base := match event
                  case Valid => Min(R_MAX, Recovered(c.base, newHistory))
                  case Missing => 0.95 * c.base
                  case Invalid => c.base;
      var penalty := if event == Invalid then c.penalty * 0.50 else c.penalty;
      Judge(Core(base, newHistory, penalty, false), event)
  }

  /** A step of the machine whose base is clamped to [R_MIN, R_MAX] after every event. */
  function ClampedStep(c: Core, event: Event): Core
  {
    if c.jailed then c
    else
      var newHistory := NewHistory(c.history, event);
      var base := match event
                  case Valid => Recovered(c.base, newHistory)
                  case Missing => 0.95 * c.base
                  case Invalid => c.base;
      var penalty := if event == Invalid then c.penalty * 0.50 else c.penalty;
      Judge(Core(Min(R_MAX, Max(R_MIN, base)), newHistory, penalty, false), event)
  }

  /** The full state of the slashing script: the core, the confirmed faults and the stake. */
  datatype State = State(core: Core, faults: nat, stake: real)

  const INITIAL := State(INITIAL_CORE, 0, 1.0)

  /** The machine of `mfpop_simulation.py`. */
  class MfPopMachine {
    var rBase: real
    var h: real
    var phi: real
    var v: nat
    var s: real
    var j: bool

    constructor ()
      ensures Abstract() == INITIAL
    {
      rBase, h, phi, v, s, j := R_INITIAL, R_INITIAL, 1.0, 0, 1.0, false;
    }

    ghost function Abstract(): State
      reads this
    {
      State(Core(rBase, h, phi, j), v, s)
    }

    /** Never below the minimum, which is all that a jailed committer has, and never below the
        penalised base of one that is not jailed; above the minimum it is exactly that. */
    method GetEffectiveR() returns (r: real)
      ensures r >= R_MIN && (j ==> r == R_MIN)
      ensures !j ==> r >= rBase * phi && (r > R_MIN ==> r == rBase * phi)
    {
      r := if j then R_MIN else Max(R_MIN, rBase * phi);
    }

    /** Returns the amount slashed. */
    method Transition(event: Event) returns (slashed: real)
      modifies this
      ensures Abstract() == Step(old(Abstract()), event)
      ensures slashed == Slashed(old(Abstract()), event)
      ensures slashed + s == old(s)
    {
      if j {
        return 0.0;
      }
      slashed := 0.0;
      var newH := if event == Valid then GAMMA * h + (1.0 - GAMMA) else if event == Invalid then GAMMA * h else h;
      if event == Valid {
        rBase := Min(R_MAX, (1.0 - A_H) * rBase + A_H * (0.7 + 0.3 * newH));
      } else if event == Missing {
        rBase := Q_L * rBase;
      }
      h := newH;
      if event == Invalid {
        phi := phi * Q_S;
        v := v + 1;
        slashed := SIGMA * s;
        s := s - slashed;
      }
      var r := GetEffectiveR();
      if event == Invalid && r <= R_JAIL {
        j := true;
      }
    }
  }

  /** The machine of `slowloris_simulation.py`. */
  class SlowLorisMachine {
    var rBase: real
    var h: real
    var phi: real
    var j: bool

    constructor ()
      ensures Abstract() == INITIAL_CORE
    {
      rBase, h, phi, j := R_INITIAL, R_INITIAL, 1.0, false;
    }

    ghost function Abstract(): Core
      reads this
    {
      Core(rBase, h, phi, j)
    }

    method Transition(event: Event)
      modifies this
      ensures Abstract() == CoreStep(old(Abstract()), event)
    {
      if j {
        return;
      }
      var newH := if event == Valid then GAMMA * h + (1.0 - GAMMA) else if event == Invalid then GAMMA * h else h;
      if event == Valid {
        rBase := Min(R_MAX, (1.0 - A_H) * rBase + A_H * (0.7 + 0.3 * newH));
      } else if event == Missing {
        rBase := Q_L * rBase;
      }
      h := newH;
      if event == Invalid {
        phi := phi * Q_S;
      }
      if event == Invalid && (if j then R_MIN else Max(R_MIN, rBase * phi)) <= R_JAIL {
        j := true;
      }
    }
  }

  /** The machine of `convergence_simulation.py`. */
  class ClampedMachine {
    var rBase: real
    var h: real
    var phi: real
    var j: bool

    constructor ()
      ensures Abstract() == INITIAL_CORE
    {
      rBase, h, phi, j := R_INITIAL, R_INITIAL, 1.0, false;
    }

    ghost function Abstract(): Core
      reads this
    {
      Core(rBase, h, phi, j)
    }

    method Transition(event: Event)
      modifies this
      ensures Abstract() == ClampedStep(old(Abstract()), event)
    {
      if j {
        return;
      }
      var newH;
      if event == Valid {
        newH := GAMMA * h + (1.0 - GAMMA);
        var q := 0.7 + 0.3 * newH;
        rBase := (1.0 - A_H) * rBase + A_H * q;
      } else if event == Invalid {
        newH := GAMMA * h;
        phi := phi * Q_S;
      } else {
        newH := h;
        rBase := Q_L * rBase;
      }
      rBase := Min(R_MAX, Max(R_MIN, rBase));
      h := newH;
      if event == Invalid && (if j then R_MIN else Max(R_MIN, rBase * phi)) <= R_JAIL {
        j := true;
      }
    }
  }

  // ----- Runs

  function Slashed(st: State, event: Event): real
  {
    if !st.core.jailed && event == Invalid then 0.10 * st.stake else 0.0
  }

  function Step(st: State, event: Event): State
  {
    State(CoreStep(st.core, event),
          if !st.core.jailed && event == Invalid then st.faults + 1 else st.faults,
          st.stake - Slashed(st, event))
  }

  function Run(events: seq<Event>): State
  {
    if events == [] then INITIAL else Step(Run(events[..|events| - 1]), events[|events| - 1])
  }

  function CoreRun(events: seq<Event>): Core
  {
    if events == [] then INITIAL_CORE else CoreStep(CoreRun(events[..|events| - 1]), events[|events| - 1])
  }

  function ClampedRun(events: seq<Event>): Core
  {
    if events == [] then INITIAL_CORE else ClampedStep(ClampedRun(events[..|events| - 1]), events[|events| - 1])
  }

  function Count(events: seq<Event>, event: Event): nat
  {
    if events == [] then 0
    else Count(events[..|events| - 1], event) + if events[|events| - 1] == event then 1 else 0
  }

  /** All that was slashed during a run. */
  function TotalSlashed(events: seq<Event>): real
  {
    if events == [] then 0.0
    else TotalSlashed(events[..|events| - 1]) + Slashed(Run(events[..|events| - 1]), events[|events| - 1])
  }

  function Pow(x: real, n: nat): real
  {
    if n == 0 then 1.0 else x * Pow(x, n - 1)
  }

  // ----- What every run keeps

  /** Base and history stay in (0, 1] and [0, 1]; penalty and stake are powers in the number of
      confirmed faults. */
  ghost predicate Sound(st: State)
  {
    && 0.0 < st.core.base <= 1.0 && 0.0 <= st.core.history <= 1.0
    && st.core.penalty == Pow(0.5, st.faults) && st.stake == Pow(0.9, st.faults)
    && (!st.core.jailed ==> st.faults <= 6)
    && st.faults <= 7
  }

  lemma StepKeepsSound(st: State, event: Event)
    requires Sound(st)
    ensures Sound(Step(st, event))
  {
    if !st.core.jailed && event == Invalid && st.faults == 6 {
      SeventhPenalty();
      var next := Step(st, event);
      assert next.core.penalty == 0.0078125;
      assert st.core.base * 0.0078125 <= R_JAIL;
    }
  }

  lemma SeventhPenalty()
    ensures Pow(0.5, 6) == 0.015625 && Pow(0.5, 7) == 0.0078125
  {
    assert Pow(0.5, 2) == 0.25;
    assert Pow(0.5, 4) == 0.0625;
    assert Pow(0.5, 6) == 0.015625;
  }

  lemma {:induction false} RunIsSound(events: seq<Event>)
    ensures Sound(Run(events))
  {
    if events != [] {
      RunIsSound(events[..|events| - 1]);
      StepKeepsSound(Run(events[..|events| - 1]), events[|events| - 1]);
    }
  }

  /** Stake is never created: what was slashed and what is left always sum to the initial stake. */
  lemma {:induction false} StakeIsConserved(events: seq<Event>)
    ensures TotalSlashed(events) + Run(events).stake == 1.0
  {
    if events != [] {
      StakeIsConserved(events[..|events| - 1]);
    }
  }

  /** Jail is absorbing: nothing that happens afterwards changes the committer, whose reputation counts as
      0.01 from then on. */
  lemma {:induction false} JailIsAbsorbing(events: seq<Event>, more: seq<Event>)
    requires Run(events).core.jailed
    ensures Run(events + more) == Run(events) && EffectiveR(Run(events + more).core) == 0.01
    decreases |more|
  {
    if more == [] {
      assert events + more == events;
    } else {
      var init := more[..|more| - 1];
      JailIsAbsorbing(events, init);
      assert (events + more)[..|events + more| - 1] == events + init;
    }
  }

  /** Every confirmed fault before the jail is counted. */
  lemma {:induction false} FaultsAreCounted(events: seq<Event>)
    ensures Run(events).faults <= Count(events, Invalid)
    ensures !Run(events).core.jailed ==> Run(events).faults == Count(events, Invalid)
  {
    if events != [] {
      FaultsAreCounted(events[..|events| - 1]);
    }
  }

  /** No strategy lands more than six confirmed faults unjailed: the seventh always jails, and at
      most seven are ever slashed. */
  lemma SeventhFaultJails(events: seq<Event>)
    ensures Count(events, Invalid) >= 7 ==> Run(events).core.jailed
    ensures Run(events).faults <= 7
  {
    RunIsSound(events);
    FaultsAreCounted(events);
  }

  // ----- A fault in every window

  ghost predicate FaultWithin(events: seq<Event>, i: nat, w: nat)
  {
    i + w <= |events| && Invalid in events[i..i + w]
  }

  ghost predicate FaultInEveryWindow(events: seq<Event>, w: nat)
  {
    forall i: nat :: i + w <= |events| ==> FaultWithin(events, i, w)
  }

  lemma {:induction false} CountSplit(a: seq<Event>, b: seq<Event>, event: Event)
    ensures Count(a + b, event) == Count(a, event) + Count(b, event)
    decreases |b|
  {
    if b == [] {
      assert a + b == a;
    } else {
      CountSplit(a, b[..|b| - 1], event);
      assert (a + b)[..|a + b| - 1] == a + b[..|b| - 1];
    }
  }

  lemma {:induction false} CountFound(events: seq<Event>, event: Event)
    requires event in events
    ensures Count(events, event) >= 1
  {
    if events[|events| - 1] != event {
      assert event in events[..|events| - 1];
      CountFound(events[..|events| - 1], event);
    }
  }

  /** `k` disjoint windows hold `k` faults. */
  lemma {:induction false} WindowsCount(events: seq<Event>, w: nat, k: nat)
    requires FaultInEveryWindow(events, w) && k * w <= |events|
    ensures Count(events[..k * w], Invalid) >= k
    decreases k
  {
    if k > 0 {
      var i := (k - 1) * w;
      assert k * w == i + w;
      assert FaultWithin(events, i, w);
      WindowsCount(events, w, k - 1);
      assert events[..k * w] == events[..i] + events[i..i + w];
      CountSplit(events[..i], events[i..i + w], Invalid);
      CountFound(events[i..i + w], Invalid);
    }
  }

  /** Recurring faults: with a confirmed fault in every window of `w` rounds, the committer is
      jailed within 7w rounds. */
  lemma RecurringFaultsJail(events: seq<Event>, w: nat)
    requires FaultInEveryWindow(events, w) && |events| >= 7 * w
    ensures Run(events[..7 * w]).core.jailed && Run(events).core.jailed
  {
    WindowsCount(events, w, 7);
    SeventhFaultJails(events[..7 * w]);
    JailIsAbsorbing(events[..7 * w], events[7 * w..]);
    assert events == events[..7 * w] + events[7 * w..];
  }

  // ----- Six faults in a row

  lemma Scaled(x: real, y: real, factor: real)
    requires x <= y && 0.0 <= factor
    ensures x * factor <= y * factor
  {
  }

  /** The state after `k` confirmed faults in a row. */
  function FaultRow(st: State, k: nat): State
  {
    if k == 0 then st else Step(FaultRow(st, k - 1), Invalid)
  }

  lemma {:induction false} HalfPowers(k: nat)
    requires k <= 6
    ensures Pow(0.5, k) >= 0.015625
    decreases 6 - k
  {
    if k < 6 {
      HalfPowers(k + 1);
      assert Pow(0.5, k + 1) == 0.5 * Pow(0.5, k);
    } else {
      SeventhPenalty();
    }
  }

  /** A fault jails exactly if the base times the new penalty is at most the threshold. */
  lemma SurvivedFault(st: State)
    requires Sound(st) && !st.core.jailed
    ensures Step(st, Invalid).core.jailed <==> Pow(0.5, st.faults + 1) * st.core.base <= R_JAIL
  {
    var penalty := st.core.penalty * 0.5;
    assert Pow(0.5, st.faults + 1) == penalty;
    assert st.core.base * penalty == penalty * st.core.base;
  }

  /** Faults leave the base alone; from a faultless state the `k`-th of them, k <= 6, finds the
      committer jailed only if the base was at most 0.96. */
  lemma {:induction false} FaultRowBase(st: State, k: nat)
    requires Sound(st) && !st.core.jailed
    ensures Sound(FaultRow(st, k)) && FaultRow(st, k).core.base == st.core.base
    ensures !FaultRow(st, k).core.jailed ==> FaultRow(st, k).faults == st.faults + k
    ensures st.faults + k <= 6 && FaultRow(st, k).core.jailed ==> st.core.base <= 0.96
  {
    if k > 0 {
      FaultRowBase(st, k - 1);
      var before := FaultRow(st, k - 1);
      StepKeepsSound(before, Invalid);
      if st.faults + k <= 6 && !before.core.jailed {
        SurvivedFault(before);
        HalfPowers(st.faults + k);
        Scaled(0.015625, Pow(0.5, st.faults + k), st.core.base);
      }
    }
  }

  /** Six confirmed faults in a row jail an unjailed committer if and only if it had a fault before
      or its base is at most 0.96. */
  lemma SixInARow(st: State)
    requires Sound(st) && !st.core.jailed
    ensures FaultRow(st, 6).core.jailed <==> st.faults >= 1 || st.core.base <= 0.96
  {
    FaultRowBase(st, 5);
    FaultRowBase(st, 6);
    if st.faults == 0 && st.core.base <= 0.96 && !FaultRow(st, 5).core.jailed {
      SeventhPenalty();
      assert FaultRow(st, 5).core.penalty * 0.5 == 0.015625;
      assert st.core.base * 0.015625 <= R_JAIL;
    }
  }

  // ----- The price of the sixth fault

  /** Base and history of a committer whose every round was valid. */
  function Best(n: nat): (real, real)
  {
    if n == 0 then (R_INITIAL, R_INITIAL)
    else
      var (base, history) := Best(n - 1);
      var newHistory := NewHistory(history, Valid);
      (Recovered(base, newHistory), newHistory)
  }

  /** The all-valid run in closed form. */
  lemma {:induction false} BestClosedForm(n: nat)
    ensures Best(n).0 == 1.0 - (898.0 / 1775.0) * Pow(0.984, n) + (21.0 / 3550.0) * Pow(0.7, n)
    ensures Best(n).1 == 1.0 - 0.5 * Pow(0.7, n)
  {
    if n > 0 {
      BestClosedForm(n - 1);
    }
  }

  /** No run does better than the all-valid run with the same number of valid rounds. */
  lemma {:induction false} BestIsBest(events: seq<Event>)
    ensures !Run(events).core.jailed ==>
              var best := Best(Count(events, Valid));
              Run(events).core.base <= best.0 && Run(events).core.history <= best.1
  {
    if events != [] {
      BestIsBest(events[..|events| - 1]);
      RunIsSound(events[..|events| - 1]);
    }
  }

  lemma {:induction false} PowPositive(x: real, n: nat)
    requires 0.0 < x <= 1.0
    ensures 0.0 < Pow(x, n) <= 1.0
  {
    if n > 0 {
      PowPositive(x, n - 1);
      assert x * Pow(x, n - 1) <= 1.0 * Pow(x, n - 1);
    }
  }

  lemma {:induction false} PowDecreases(x: real, m: nat, n: nat)
    requires 0.0 < x <= 1.0 && m <= n
    ensures Pow(x, n) <= Pow(x, m)
    decreases n
  {
    if m < n {
      PowDecreases(x, m, n - 1);
      PowPositive(x, n - 1);
      assert x * Pow(x, n - 1) <= 1.0 * Pow(x, n - 1);
    }
  }

  lemma {:induction false} PowAdds(x: real, m: nat, n: nat)
    ensures Pow(x, m + n) == Pow(x, m) * Pow(x, n)
    decreases n
  {
    if n > 0 {
      PowAdds(x, m, n - 1);
      assert Pow(x, m) * (x * Pow(x, n - 1)) == x * (Pow(x, m) * Pow(x, n - 1));
    }
  }

  /** Bounds carry over to the square and to one more factor. */
  lemma PowSquared(x: real, n: nat, lo: real, hi: real)
    requires 0.0 <= lo <= Pow(x, n) <= hi
    ensures lo * lo <= Pow(x, 2 * n) <= hi * hi
  {
    PowAdds(x, n, n);
    var p := Pow(x, n);
    assert lo * lo <= lo * p <= p * p;
    assert p * p <= hi * p <= hi * hi;
  }

  /** 0.984 to the powers that decide when a base of 0.96 is reached. */
  lemma RecoveryPowers()
    ensures Pow(0.984, 19) >= 0.736
    ensures Pow(0.984, 157) >= 0.0794
    ensures Pow(0.984, 158) <= 0.0783
  {
    assert Pow(0.984, 2) == 0.968256;
    PowSquared(0.984, 2, 0.968256, 0.968256);
    PowSquared(0.984, 4, 0.93751, 0.93753);
    PowSquared(0.984, 8, 0.87892, 0.87897);
    PowAdds(0.984, 16, 2);
    assert 0.74797 <= Pow(0.984, 18) <= 0.74807;
    assert Pow(0.984, 19) == 0.984 * Pow(0.984, 18);
    PowSquared(0.984, 19, 0.736, 0.73611);
    assert Pow(0.984, 39) == 0.984 * Pow(0.984, 38);
    PowSquared(0.984, 39, 0.53302, 0.5332);
    PowSquared(0.984, 78, 0.28411, 0.28431);
    assert Pow(0.984, 157) == 0.984 * Pow(0.984, 156);
    assert Pow(0.984, 79) == 0.984 * Pow(0.984, 78);
    PowSquared(0.984, 79, 0.0, 0.27977);
  }

  lemma HistoryPowers()
    ensures Pow(0.7, 19) <= 0.01
  {
    assert Pow(0.7, 2) == 0.49;
    PowSquared(0.7, 2, 0.49, 0.49);
    PowSquared(0.7, 4, 0.0, 0.2402);
    PowSquared(0.7, 8, 0.0, 0.058);
    PowDecreases(0.7, 16, 19);
  }

  /** 157 valid rounds never lift the base above 0.96; 158 always can. */
  lemma BestReaches(n: nat)
    ensures Best(n).0 > 0.96 <==> n >= 158
  {
    BestClosedForm(n);
    RecoveryPowers();
    PowPositive(0.7, n);
    if n >= 158 {
      PowDecreases(0.984, 158, n);
    } else if n >= 19 {
      PowDecreases(0.984, n, 157);
      HistoryPowers();
      PowDecreases(0.7, 19, n);
    } else {
      PowDecreases(0.984, n, 19);
    }
  }

  /** A committer with six confirmed faults that is not jailed has had at least 158 valid rounds. */
  lemma {:induction false} SixthFaultNeeds158(events: seq<Event>)
    requires Run(events).faults >= 6 && !Run(events).core.jailed
    ensures Count(events, Valid) >= 158
  {
    var init, last := events[..|events| - 1], events[|events| - 1];
    if Run(init).faults >= 6 {
      SixthFaultNeeds158(init);
    } else {
      RunIsSound(events);
      SeventhPenalty();
      assert Run(events).core.penalty == 0.015625;
      assert Run(events).core.base * 0.015625 > R_JAIL;
      BestIsBest(events);
      BestReaches(Count(events, Valid));
    }
  }

  function Repeat(event: Event, n: nat): (events: seq<Event>)
  {
    if n == 0 then [] else Repeat(event, n - 1) + [event]
  }

  lemma {:induction false} AllValidRun(n: nat)
    ensures var events := Repeat(Valid, n);
            && Count(events, Valid) == n
            && Run(events).faults == 0 && !Run(events).core.jailed
            && Run(events).core.base == Best(n).0 && Run(events).core.history == Best(n).1
  {
    if n > 0 {
      AllValidRun(n - 1);
      var before := Repeat(Valid, n - 1);
      assert Repeat(Valid, n)[..|Repeat(Valid, n)| - 1] == before;
      RunIsSound(before);
    }
  }

  lemma {:induction false} RunThenFaults(events: seq<Event>, k: nat)
    ensures Run(events + Repeat(Invalid, k)) == FaultRow(Run(events), k)
    ensures Count(events + Repeat(Invalid, k), Valid) == Count(events, Valid)
  {
    var all := events + Repeat(Invalid, k);
    if k == 0 {
      assert all == events;
    } else {
      RunThenFaults(events, k - 1);
      assert all[..|all| - 1] == events + Repeat(Invalid, k - 1);
    }
  }

  /** Some run with exactly `n` valid rounds has six confirmed faults and is not jailed. */
  ghost predicate SixFaultsSurvivable(n: nat)
  {
    exists events :: Count(events, Valid) == n && Run(events).faults == 6 && !Run(events).core.jailed
  }

  /** A patient committer survives six faults in a row, so "six consecutive confirmed faults
      trigger the jail" fails for it; for a fresh committer the sixth is exactly the one that jails. */
  lemma PatientCommitterSurvives(n: nat)
    requires n >= 158
    ensures var st := Run(Repeat(Valid, n) + Repeat(Invalid, 6)); st.faults == 6 && !st.core.jailed
    ensures Count(Repeat(Valid, n) + Repeat(Invalid, 6), Valid) == n
  {
    var patient := Repeat(Valid, n);
    AllValidRun(n);
    BestReaches(n);
    RunIsSound(patient);
    SixInARow(Run(patient));
    FaultRowBase(Run(patient), 6);
    RunThenFaults(patient, 6);
  }

  lemma FreshCommitterJailedAtSixth(k: nat)
    ensures Run(Repeat(Invalid, k)).core.jailed <==> k >= 6
  {
    assert [] + Repeat(Invalid, k) == Repeat(Invalid, k);
    RunThenFaults([], k);
    SixInARow(INITIAL);
    if k <= 5 {
      FreshRow(k);
    } else {
      FaultRowStaysJailed(INITIAL, 6, k);
    }
  }

  lemma {:induction false} FreshRow(k: nat)
    requires k <= 5
    ensures FaultRow(INITIAL, k).core.base == 0.5 && FaultRow(INITIAL, k).core.penalty == Pow(0.5, k)
    ensures !FaultRow(INITIAL, k).core.jailed
  {
    if k > 0 {
      FreshRow(k - 1);
      HalfPowers(k + 1);
      assert Pow(0.5, k + 1) == 0.5 * Pow(0.5, k);
    }
  }

  lemma {:induction false} FaultRowStaysJailed(st: State, k: nat, more: nat)
    requires k <= more && FaultRow(st, k).core.jailed
    ensures FaultRow(st, more).core.jailed
    decreases more
  {
    if k < more {
      FaultRowStaysJailed(st, k, more - 1);
    }
  }

  /** The price of the sixth fault is exactly 158 valid rounds. */
  lemma PriceOfSixthFault(n: nat)
    ensures SixFaultsSurvivable(n) <==> n >= 158
  {
    if n >= 158 {
      PatientCommitterSurvives(n);
    } else if SixFaultsSurvivable(n) {
      var events :| Count(events, Valid) == n && Run(events).faults == 6 && !Run(events).core.jailed;
      SixthFaultNeeds158(events);
    }
  }

  // ----- What a fault does to the history

  /** A fault takes three tenths of the history and halves the penalty factor; the base is untouched. */
  lemma FaultTakesHistory(st: State)
    ensures !st.core.jailed ==> Step(st, Invalid).core.history == 0.7 * st.core.history
    ensures !st.core.jailed ==> ClampedStep(st.core, Invalid).history == 0.7 * st.core.history
    ensures !st.core.jailed ==> Step(st, Invalid).core.penalty == 0.5 * st.core.penalty
    ensures Step(st, Invalid).core.base == st.core.base
  {
  }

  lemma {:induction false} FaultRowHistory(st: State, k: nat)
    requires !FaultRow(st, k).core.jailed
    ensures FaultRow(st, k).core.history == Pow(0.7, k) * st.core.history
  {
    if k > 0 {
      FaultRowHistory(st, k - 1);
    }
  }

  /** How many rounds were answered, rightly or wrongly. */
  function Answered(events: seq<Event>): nat
  {
    if events == [] then 0 else (if events[0] == Missing then 0 else 1) + Answered(events[1..])
  }

  /** The valid rounds, each weighted by 0.7 for every answered round after it. */
  function Merit(events: seq<Event>): real
  {
    if events == [] then 0.0
    else (if events[0] == Valid then Pow(0.7, Answered(events[1..])) else 0.0) + Merit(events[1..])
  }

  lemma {:induction false} AnsweredNext(events: seq<Event>, event: Event)
    ensures Answered(events + [event]) == Answered(events) + if event == Missing then 0 else 1
  {
    if events == [] {
      assert (events + [event])[1..] == [];
    } else {
      AnsweredNext(events[1..], event);
      assert (events + [event])[1..] == events[1..] + [event];
    }
  }

  lemma {:induction false} MeritNext(events: seq<Event>, event: Event)
    ensures Merit(events + [event])
         == (if event == Missing then Merit(events) else 0.7 * Merit(events)) + if event == Valid then 1.0 else 0.0
  {
    if events == [] {
      assert (events + [event])[1..] == [];
    } else {
      MeritNext(events[1..], event);
      AnsweredNext(events[1..], event);
      assert (events + [event])[1..] == events[1..] + [event];
    }
  }

  /** The history is the discounted share of valid answers: the initial history and every valid round,
      each fading by 0.7 with every later answer, right or wrong, and untouched by missed rounds. */
  lemma {:induction false} HistoryIsMerit(events: seq<Event>)
    requires !Run(events).core.jailed
    ensures Run(events).core.history == R_INITIAL * Pow(0.7, Answered(events)) + 0.3 * Merit(events)
  {
    if events != [] {
      var init, last := events[..|events| - 1], events[|events| - 1];
      assert init + [last] == events;
      HistoryIsMerit(init);
      AnsweredNext(init, last);
      MeritNext(init, last);
    }
  }

  /** The state after `n` valid rounds in a row. */
  function ValidRow(st: State, n: nat): State
  {
    if n == 0 then st else Step(ValidRow(st, n - 1), Valid)
  }

  /** What a valid round does, where the upper clamp never acts. */
  ghost predicate Earned(c: Core, next: Core)
  {
    && next.history == 0.7 * c.history + 0.3
    && next.base == 0.984 * c.base + 0.0112 + 0.0048 * next.history
  }

  lemma ValidExact(st: State)
    requires Sound(st) && !st.core.jailed
    ensures !Step(st, Valid).core.jailed && Earned(st.core, Step(st, Valid).core)
  {
  }

  lemma {:induction false} ValidRowSound(st: State, n: nat)
    requires Sound(st) && !st.core.jailed
    ensures Sound(ValidRow(st, n)) && !ValidRow(st, n).core.jailed
  {
    if n > 0 {
      ValidRowSound(st, n - 1);
      StepKeepsSound(ValidRow(st, n - 1), Valid);
    }
  }

  /** What is left of a fault after `n` valid rounds, against the same rounds without it. */
  ghost predicate FaultCosts(clean: Core, faulted: Core, history: real, n: nat)
  {
    && clean.history - faulted.history == Pow(0.7, n) * (0.3 * history)
    && 0.284 * (clean.base - faulted.base) == 0.001008 * history * (Pow(0.984, n) - Pow(0.7, n))
  }

  lemma CostAtOnce(st: State)
    requires Sound(st) && !st.core.jailed && !Step(st, Invalid).core.jailed
    ensures Sound(Step(st, Invalid)) && FaultCosts(st.core, Step(st, Invalid).core, st.core.history, 0)
  {
    StepKeepsSound(st, Invalid);
    FaultTakesHistory(st);
  }

  lemma CostAfterRound(c: Core, f: Core, next: Core, nextF: Core, history: real, n: nat)
    requires FaultCosts(c, f, history, n) && Earned(c, next) && Earned(f, nextF)
    ensures FaultCosts(next, nextF, history, n + 1)
  {
    var p, q := history * Pow(0.7, n), history * Pow(0.984, n);
    assert c.history - f.history == 0.3 * p;
    assert 0.001008 * history * (Pow(0.984, n) - Pow(0.7, n)) == 0.001008 * (q - p);
    assert history * Pow(0.7, n + 1) == 0.7 * p;
    assert history * Pow(0.984, n + 1) == 0.984 * q;
    assert 0.001008 * history * (Pow(0.984, n + 1) - Pow(0.7, n + 1)) == 0.001008 * (0.984 * q - 0.7 * p);
  }

  /** The cost of a survived fault in base, exactly: nothing at once, 0.00336 times 0.3 times the history
      in the next valid round, and after `n` valid rounds the difference of two geometric decays. */
  lemma {:induction false} PriceOfAFault(st: State, n: nat)
    requires Sound(st) && !st.core.jailed && !Step(st, Invalid).core.jailed
    ensures FaultCosts(ValidRow(st, n).core, ValidRow(Step(st, Invalid), n).core, st.core.history, n)
  {
    var fault := Step(st, Invalid);
    CostAtOnce(st);
    if n > 0 {
      PriceOfAFault(st, n - 1);
      ValidRowSound(st, n - 1);
      ValidRowSound(fault, n - 1);
      var clean, faulted := ValidRow(st, n - 1), ValidRow(fault, n - 1);
      ValidExact(clean);
      ValidExact(faulted);
      CostAfterRound(clean.core, faulted.core, Step(clean, Valid).core, Step(faulted, Valid).core,
                     st.core.history, n - 1);
    }
  }

  lemma RunNext(events: seq<Event>, event: Event)
    ensures Run(events + [event]) == Step(Run(events), event)
  {
    assert (events + [event])[..|events + [event]| - 1] == events;
  }

  /** In a run: a survived fault before a valid round costs the base exactly 0.00336 times the three
      tenths of the history that it took. */
  lemma FaultBeforeValid(events: seq<Event>)
    requires !Run(events + [Invalid]).core.jailed
    ensures Run(events + [Invalid] + [Valid]).core.base
         == Run(events + [Valid]).core.base - 0.00336 * (0.3 * Run(events).core.history)
  {
    var st := Run(events);
    RunNext(events, Invalid);
    RunNext(events, Valid);
    RunNext(events + [Invalid], Valid);
    RunIsSound(events);
    NextRoundCost(st, Step(st, Invalid));
  }

  lemma NextRoundCost(st: State, fault: State)
    requires Sound(st) && fault == Step(st, Invalid) && !fault.core.jailed
    ensures Step(fault, Valid).core.base == Step(st, Valid).core.base - 0.00336 * (0.3 * st.core.history)
  {
    CostAtOnce(st);
    ValidExact(st);
    ValidExact(fault);
    assert Earned(fault.core, Step(fault, Valid).core) && fault.core.base == st.core.base;
  }

  // ----- Omissions only

  /** A faultless state whose base is at least `floor`. */
  ghost predicate Faultless(st: State, floor: real)
  {
    !st.core.jailed && st.stake == 1.0 && st.core.penalty == 1.0 && 0.5 <= st.core.history <= 1.0
      && st.core.base >= floor
  }

  lemma FaultlessStep(st: State, event: Event, floor: real)
    requires Faultless(st, floor) && 0.0 <= floor <= 0.5 && event != Invalid
    ensures Faultless(Step(st, event), if event == Missing then 0.95 * floor else floor)
  {
  }

  /** Without confirmed faults the committer is never jailed and loses no stake, and every miss
      costs the base at most a twentieth. */
  lemma {:induction false} OmissionOnly(events: seq<Event>)
    requires Count(events, Invalid) == 0
    ensures Faultless(Run(events), 0.5 * Pow(0.95, Count(events, Missing)))
  {
    if events != [] {
      var init := events[..|events| - 1];
      OmissionOnly(init);
      PowPositive(0.95, Count(init, Missing));
      FaultlessStep(Run(init), events[|events| - 1], 0.5 * Pow(0.95, Count(init, Missing)));
    }
  }

  lemma MissPowers()
    ensures 0.5 * Pow(0.95, 68) > R_JAIL && 0.5 * Pow(0.95, 69) <= R_JAIL
  {
    assert Pow(0.95, 2) == 0.9025;
    PowSquared(0.95, 2, 0.9025, 0.9025);
    PowSquared(0.95, 4, 0.8145, 0.81451);
    PowSquared(0.95, 8, 0.66341, 0.66343);
    assert Pow(0.95, 17) == 0.95 * Pow(0.95, 16);
    PowSquared(0.95, 17, 0.4181, 0.41815);
    PowSquared(0.95, 34, 0.1748, 0.17485);
    assert Pow(0.95, 69) == 0.95 * Pow(0.95, 68);
  }

  lemma {:induction false} AllMissedRun(n: nat)
    ensures var events := Repeat(Missing, n);
            && Count(events, Invalid) == 0 && Count(events, Missing) == n
            && Run(events).core == Core(0.5 * Pow(0.95, n), 0.5, 1.0, false)
  {
    if n > 0 {
      AllMissedRun(n - 1);
      assert Repeat(Missing, n)[..|Repeat(Missing, n)| - 1] == Repeat(Missing, n - 1);
    }
  }

  /** Some run of valid and missed rounds with exactly `n` misses ends at or below the threshold. */
  ghost predicate CanBecomeIneligible(n: nat)
  {
    exists events :: Count(events, Invalid) == 0 && Count(events, Missing) == n
      && EffectiveR(Run(events).core) <= R_JAIL
  }

  /** Missing rounds alone can make a committer ineligible from the 69th miss on, and not before. */
  lemma IneligibleFrom69(n: nat)
    ensures CanBecomeIneligible(n) <==> n >= 69
  {
    MissPowers();
    if n >= 69 {
      AllMissedRun(n);
      PowDecreases(0.95, 69, n);
      assert EffectiveR(Run(Repeat(Missing, n)).core) <= R_JAIL;
    } else if CanBecomeIneligible(n) {
      var events :| Count(events, Invalid) == 0 && Count(events, Missing) == n
        && EffectiveR(Run(events).core) <= R_JAIL;
      OmissionOnly(events);
      PowDecreases(0.95, n, 68);
    }
  }

  // ----- The three machines compared

  /** The slashing machine and the one of the slow-loris script agree on everything they share. That
      each class computes its transition from this one core step is what their `Transition` contracts say. */
  lemma {:induction false} UnclampedAgree(events: seq<Event>)
    ensures Run(events).core == CoreRun(events)
  {
    if events != [] {
      UnclampedAgree(events[..|events| - 1]);
    }
  }

  /** The clamped machine `c` is never behind the unclamped `u`. */
  ghost predicate Ahead(u: Core, c: Core)
  {
    && (c.jailed ==> u.jailed)
    && (!u.jailed ==> u.history == c.history && u.penalty == c.penalty && u.base <= c.base)
    && 0.0 < u.base <= 1.0 && 0.0 <= u.history <= 1.0 && 0.0 < u.penalty
    && R_MIN <= c.base <= 1.0 && 0.0 <= c.history <= 1.0 && 0.0 < c.penalty
  }

  lemma EffectiveMonotone(u: Core, c: Core)
    requires !u.jailed && !c.jailed && u.base <= c.base && u.penalty == c.penalty && 0.0 <= u.penalty
    ensures EffectiveR(u) <= EffectiveR(c)
  {
    Scaled(u.base, c.base, u.penalty);
    assert u.base * u.penalty <= c.base * c.penalty;
  }

  lemma AheadOnFault(u: Core, c: Core)
    requires Ahead(u, c) && !u.jailed
    ensures Ahead(CoreStep(u, Invalid), ClampedStep(c, Invalid))
  {
    var factor := u.penalty * 0.50;
    assert Min(R_MAX, Max(R_MIN, c.base)) == c.base;
    EffectiveMonotone(Core(u.base, 0.70 * u.history, factor, false), Core(c.base, 0.70 * c.history, factor, false));
  }

  lemma AheadStep(u: Core, c: Core, event: Event)
    requires Ahead(u, c)
    ensures Ahead(CoreStep(u, event), ClampedStep(c, event))
  {
    if event == Invalid && !u.jailed {
      AheadOnFault(u, c);
    }
  }

  lemma {:induction false} ClampedIsAhead(events: seq<Event>)
    ensures Ahead(CoreRun(events), ClampedRun(events))
  {
    if events != [] {
      ClampedIsAhead(events[..|events| - 1]);
      AheadStep(CoreRun(events[..|events| - 1]), ClampedRun(events[..|events| - 1]), events[|events| - 1]);
    }
  }

  /** On every run the clamped machine dominates: its effective reputation is never lower, and if it
      is jailed the unclamped ones are. */
  lemma ClampedDominates(events: seq<Event>)
    ensures EffectiveR(Run(events).core) <= EffectiveR(ClampedRun(events))
    ensures ClampedRun(events).jailed ==> Run(events).core.jailed
  {
    UnclampedAgree(events);
    ClampedIsAhead(events);
    if !CoreRun(events).jailed {
      EffectiveMonotone(CoreRun(events), ClampedRun(events));
    }
  }

  /** All machines coincide while the unclamped base stays at or above the lower clamp. */
  lemma {:induction false} ClampUnused(events: seq<Event>)
    requires forall n :: 0 <= n <= |events| ==> CoreRun(events[..n]).base >= R_MIN
    ensures ClampedRun(events) == CoreRun(events)
  {
    if events != [] {
      var init := events[..|events| - 1];
      forall n | 0 <= n <= |init|
        ensures CoreRun(init[..n]).base >= R_MIN
      {
        assert init[..n] == events[..n];
      }
      ClampUnused(init);
      ClampedIsAhead(init);
      assert events[..|events|] == events;
      assert CoreRun(events[..|events|]).base >= R_MIN;
    }
  }

  lemma {:induction false} ClampedOmissionOnly(events: seq<Event>)
    requires Count(events, Invalid) == 0
    ensures var c := ClampedRun(events); !c.jailed && c.penalty == 1.0
  {
    if events != [] {
      ClampedOmissionOnly(events[..|events| - 1]);
    }
  }

  /** Missed rounds alone take the clamped base down to the lower clamp and no further. */
  lemma {:induction false} ClampedAllMissed(n: nat)
    ensures ClampedRun(Repeat(Missing, n)) == Core(Max(0.01, 0.5 * Pow(0.95, n)), 0.5, 1.0, false)
  {
    if n > 0 {
      ClampedAllMissed(n - 1);
      PowPositive(0.95, n - 1);
      PowDecreases(0.95, 0, n - 1);
      assert Repeat(Missing, n)[..|Repeat(Missing, n)| - 1] == Repeat(Missing, n - 1);
    }
  }

  lemma ClampedValidLifts(c: Core)
    requires !c.jailed && c.penalty == 1.0 && R_MIN <= c.base && 0.0 <= c.history
    ensures EffectiveR(ClampedStep(c, Valid)) > R_JAIL
  {
    var next := ClampedStep(c, Valid);
    assert Recovered(c.base, NewHistory(c.history, Valid)) > R_JAIL;
    assert next.base * next.penalty == next.base;
  }

  /** However many rounds were missed, one valid round makes a faultless committer of the clamped
      machine eligible again. */
  lemma OneValidRoundRestores(events: seq<Event>)
    requires Count(events, Invalid) == 0
    ensures EffectiveR(ClampedRun(events + [Valid])) > R_JAIL
  {
    assert (events + [Valid])[..|events + [Valid]| - 1] == events;
    ClampedOmissionOnly(events);
    ClampedIsAhead(events);
    ClampedValidLifts(ClampedRun(events));
  }

  /** Without the clamp this holds exactly if base and history weigh enough beforehand ... */
  lemma OneValidRoundUnclamped(events: seq<Event>)
    requires Count(events, Invalid) == 0
    ensures var c := Run(events).core;
            EffectiveR(Run(events + [Valid]).core) > R_JAIL <==> 0.984 * c.base + 0.00336 * c.history > 0.00236
  {
    assert (events + [Valid])[..|events + [Valid]| - 1] == events;
    OmissionOnly(events);
    PowPositive(0.95, Count(events, Missing));
    var next := Run(events + [Valid]).core;
    assert next.base * next.penalty == next.base;
  }

  lemma EarlyAbsencePowers()
    ensures 0.19369 <= Pow(0.95, 32) <= 0.19373
  {
    assert Pow(0.95, 2) == 0.9025;
    PowSquared(0.95, 2, 0.9025, 0.9025);
    PowSquared(0.95, 4, 0.8145, 0.81451);
    PowSquared(0.95, 8, 0.66341, 0.66343);
    PowSquared(0.95, 16, 0.44011, 0.44014);
  }

  lemma AbsencePowers()
    ensures 0.492 * Pow(0.95, 128) > 0.00068 && 0.492 * Pow(0.95, 129) <= 0.00068
  {
    EarlyAbsencePowers();
    PowSquared(0.95, 32, 0.19369, 0.19373);
    PowSquared(0.95, 64, 0.037515, 0.037532);
    assert Pow(0.95, 129) == 0.95 * Pow(0.95, 128);
  }

  /** Some run of valid and missed rounds with exactly `n` misses is not restored by one valid round. */
  ghost predicate CanStayIneligible(n: nat)
  {
    exists events :: Count(events, Invalid) == 0 && Count(events, Missing) == n
      && EffectiveR(Run(events + [Valid]).core) <= R_JAIL
  }

  /** ... which up to 128 misses always leave it, whatever else happened, and 129 missed rounds do not:
      without the clamp "one valid submission restores it in every case" holds exactly below 129 misses. */
  lemma NotRestoredFrom129(n: nat)
    ensures CanStayIneligible(n) <==> n >= 129
    ensures n >= 129 ==> EffectiveR(Run(Repeat(Missing, n) + [Valid]).core) <= R_JAIL
  {
    AbsencePowers();
    if n >= 129 {
      var events := Repeat(Missing, n);
      AllMissedRun(n);
      PowDecreases(0.95, 129, n);
      OneValidRoundUnclamped(events);
    } else if CanStayIneligible(n) {
      var events :| Count(events, Invalid) == 0 && Count(events, Missing) == n
        && EffectiveR(Run(events + [Valid]).core) <= R_JAIL;
      OmissionOnly(events);
      PowDecreases(0.95, n, 128);
      OneValidRoundUnclamped(events);
    }
  }
}
