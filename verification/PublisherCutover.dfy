/**
 The rehearsed cutover between two publishers of the health output
 (scripts/rehearse_legacy_health_bridge_cutover.py): two timers are enabled and disabled
 in turn, any step may fail, and a failure recovers the old path.

 What systemd does to a unit is an input.  Enabling a timer that is up never takes it
 down; otherwise an action may leave its own unit in any state, whether it reports success
 or not, and leaves the other unit alone.  `publisher` is whose output was accepted last.
 */
module PublisherCutover {
  datatype FileState = Enabled | Disabled | OtherFileState
  datatype ActiveState = Active | Inactive | OtherActiveState
  datatype Timer = Timer(loaded: bool, file: FileState, active: ActiveState)

  datatype Unit = Legacy | Primary

  function Other(u: Unit): Unit {
    if u.Legacy? then Primary else Legacy
  }

  predicate Up(t: Timer) {
    t.loaded && t.file.Enabled? && t.active.Active?
  }

  predicate Down(t: Timer) {
    t.loaded && t.file.Disabled? && t.active.Inactive?
  }

  datatype State = State(legacy: Timer, primary: Timer, publisher: Unit, phases: seq<string>)

  function TimerOf(s: State, u: Unit): Timer {
    if u.Legacy? then s.legacy else s.primary
  }

  function WithTimer(s: State, u: Unit, t: Timer): State {
    if u.Legacy? then s.(legacy := t) else s.(primary := t)
  }

  datatype Step =
    | Enable(unit: Unit)
    | Disable(unit: Unit)
    | RequireUp(unit: Unit)
    | RequireDown(unit: Unit)
    | Publish(unit: Unit)
    | Mark(phase: string)
    | Continuity

  /** The answer of the outside world to a step: success, the unit afterwards, and three publishing attempts. */
  datatype Reply = Reply(done: bool, after: Timer, first: bool, second: bool, third: bool)

  /** One of the attempts published output of the right producer. */
  predicate Heard(r: Reply) {
    r.first || r.second || r.third
  }

  function Enabling(before: Timer, after: Timer): Timer {
    if Up(before) && !Up(after) then before else after
  }

  function Apply(s: State, step: Step, r: Reply): (State, bool) {
    match step
    case Enable(u) => (WithTimer(s, u, Enabling(TimerOf(s, u), r.after)), r.done)
    case Disable(u) => (WithTimer(s, u, r.after), r.done)
    case RequireUp(u) => (s, r.done && Up(TimerOf(s, u)))
    case RequireDown(u) => (s, r.done && Down(TimerOf(s, u)))
    case Publish(u) => (if Heard(r) then s.(publisher := u) else s, Heard(r))
    case Mark(phase) => (s.(phases := s.phases + [phase]), true)
    case Continuity => (s, r.done)
  }

  /** The steps one after another up to the first that fails, with every state on the way. */
  function Execute(s: State, steps: seq<Step>, replies: nat -> Reply, k: nat): (State, bool, seq<State>)
    decreases |steps|
  {
    if steps == [] then (s, true, [])
    else
      var (after, ok) := Apply(s, steps[0], replies(k));
      if !ok then (after, false, [after])
      else
        var (end, all, history) := Execute(after, steps[1..], replies, k + 1);
        (end, all, [after] + history)
  }

  function Overlap(to: Unit): seq<Step> {
    [Enable(to), RequireUp(Other(to)), RequireUp(to), Publish(to)]
  }

  function HandOver(to: Unit): seq<Step> {
    [Disable(Other(to)), RequireUp(to), RequireDown(Other(to)), Publish(to)]
  }

  function Cut(to: Unit): seq<Step> {
    Overlap(to) + [Mark("candidate_overlap")] + (HandOver(to) + [Mark("candidate_cutover")])
  }

  function RollBack(from: Unit): seq<Step> {
    Overlap(from) + (HandOver(from) + [Mark("legacy_rollback")])
  }

  function Restoration(to: Unit): seq<Step> {
    Overlap(to) + (HandOver(to) + [Mark("candidate_restoration"), Continuity])
  }

  /** The script from the old publisher to the other one; the shipped one starts from the legacy timer. */
  function Rehearsal(from: Unit): seq<Step> {
    Cut(Other(from)) + (RollBack(from) + Restoration(Other(from)))
  }

  function OldTimer(from: Unit): seq<Step> {
    [Enable(from), RequireUp(from)]
  }

  function FreshOff(from: Unit): seq<Step> {
    [Disable(Other(from)), RequireDown(Other(from))]
  }

  datatype Recovery = Recovery(state: State, errors: nat, history: seq<State>)

  /** Recovery of the old path; `outputWritten` is whether the saved output could be put back by hand. */
  function RecoverOldPath(s: State, from: Unit, replies: nat -> Reply, k: nat, outputWritten: bool): Recovery {
    var (s1, ready, h1) := Execute(s, OldTimer(from), replies, k);
    if !ready then Recovery(s1, 1, h1)
    else
      var (s2, published, h2) := Execute(s1, [Publish(from)], replies, k + 2);
      var errors := if published then 0 else if outputWritten then 1 else 2;
      if !published && !outputWritten then Recovery(s2, errors, h1 + h2)
      else
        var (s3, off, h3) := Execute(s2.(publisher := from), FreshOff(from), replies, k + 3);
        Recovery(s3, errors + (if off then 0 else 1), h1 + h2 + h3)
  }

  datatype Outcome = Accepted | OldPathRestored | RecoveryIncomplete

  datatype Report = Report(outcome: Outcome, state: State, history: seq<State>)

  /** What main does once the initial units are checked; `continuous` is the continuity seen after a recovery. */
  function Cutover(s: State, from: Unit, replies: nat -> Reply, outputWritten: bool, continuous: bool): Report {
    var (end, accepted, history) := Execute(s, Rehearsal(from), replies, 0);
    if accepted then Report(Accepted, end, history)
    else
      var recovery := RecoverOldPath(end, from, replies, |history|, outputWritten);
      Report(if recovery.errors == 0 && continuous then OldPathRestored else RecoveryIncomplete,
             recovery.state, history + recovery.history)
  }

  // ---------------------------------------------------------------- the units themselves

  /** Up to three attempts to publish. */
  method StartAndValidate(r: Reply) returns (ok: bool)
    ensures ok == Heard(r)
  {
    var attempts, i := [r.first, r.second, r.third], 0;
    ok := false;
    while i < 3
      invariant 0 <= i <= 3 && !ok && forall j :: 0 <= j < i ==> !attempts[j]
    {
      if attempts[i] {
        return true;
      }
      i := i + 1;
    }
    assert !attempts[0] && !attempts[1] && !attempts[2];
  }

  class Publishers {
    var legacy: Timer
    var primary: Timer
    var publisher: Unit
    var phases: seq<string>
    ghost var history: seq<State>

    constructor (legacy: Timer, primary: Timer, publisher: Unit)
      ensures View() == State(legacy, primary, publisher, []) && history == []
    {
      this.legacy, this.primary, this.publisher, phases, history := legacy, primary, publisher, [], [];
    }

    function View(): State
      reads this
    {
      State(legacy, primary, publisher, phases)
    }

    method Perform(step: Step, r: Reply) returns (ok: bool)
      modifies this
      ensures (View(), ok) == Apply(old(View()), step, r)
      ensures history == old(history) + [View()]
    {
      ok := r.done;
      match step {
      case Enable(u) =>
        if u.Legacy? { legacy := Enabling(legacy, r.after); } else { primary := Enabling(primary, r.after); }
      case Disable(u) =>
        if u.Legacy? { legacy := r.after; } else { primary := r.after; }
      case RequireUp(u) => ok := r.done && Up(if u.Legacy? then legacy else primary);
      case RequireDown(u) => ok := r.done && Down(if u.Legacy? then legacy else primary);
      case Publish(u) =>
        ok := StartAndValidate(r);
        if ok { publisher := u; }
      case Mark(phase) =>
        phases := phases + [phase];
        ok := true;
      case Continuity =>
      }
      history := history + [View()];
    }

    method PerformAll(steps: seq<Step>, replies: nat -> Reply, k: nat) returns (ok: bool, used: nat)
      modifies this
      ensures var (end, all, seen) := Execute(old(View()), steps, replies, k);
              View() == end && ok == all && history == old(history) + seen && used == |seen|
    {
      hide Apply;
      var i := 0;
      ok := true;
      ghost var left, seen := steps, [];
      Unseen(Execute(View(), steps, replies, k));
      while i < |steps|
        invariant 0 <= i <= |steps| && left == steps[i..] && |seen| == i
        invariant Execute(old(View()), steps, replies, k) == Continue(seen, Execute(View(), left, replies, k + i))
        invariant history == old(history) + seen
      {
        assert left[0] == steps[i];
        ok := Perform(steps[i], replies(k + i));
        i := i + 1;
        Regroup(old(history), seen, [View()]);
        if !ok {
          return false, i;
        }
        left := left[1..];
        Continued(seen, View(), Execute(View(), left, replies, k + i));
        seen := seen + [View()];
      }
      assert seen + [] == seen;
      used := i;
    }

    method Recover(from: Unit, replies: nat -> Reply, k: nat, outputWritten: bool) returns (errors: nat)
      modifies this
      ensures var r := RecoverOldPath(old(View()), from, replies, k, outputWritten);
              View() == r.state && errors == r.errors && history == old(history) + r.history
    {
      hide Execute;
      errors := 0;
      var oldReady, oldOutputReady, used := false, false, 0;
      oldReady, used := PerformAll(OldTimer(from), replies, k);
      if !oldReady {
        errors := errors + 1;
      } else {
        PublishOnly(View(), from, replies, k + 2);
        oldOutputReady, used := PerformAll([Publish(from)], replies, k + 2);
        if !oldOutputReady {
          errors := errors + 1;
          oldOutputReady := outputWritten;
          if outputWritten { publisher := from; } else { errors := errors + 1; }
        }
      }
      if oldReady && oldOutputReady {
        var off;
        off, used := PerformAll(FreshOff(from), replies, k + 3);
        if !off { errors := errors + 1; }
      }
    }

    method Rehearse(from: Unit, replies: nat -> Reply, outputWritten: bool, continuous: bool) returns (outcome: Outcome)
      modifies this
      ensures var r := Cutover(old(View()), from, replies, outputWritten, continuous);
              View() == r.state && outcome == r.outcome && history == old(history) + r.history
    {
      hide Execute, Rehearsal, RecoverOldPath;
      var accepted, used := PerformAll(Rehearsal(from), replies, 0);
      if accepted {
        return Accepted;
      }
      var errors := Recover(from, replies, used, outputWritten);
      ghost var first := Execute(old(View()), Rehearsal(from), replies, 0);
      Regroup(old(history), first.2, RecoverOldPath(first.0, from, replies, used, outputWritten).history);
      return if errors == 0 && continuous then OldPathRestored else RecoveryIncomplete;
    }
  }

  function Continue(seen: seq<State>, rest: (State, bool, seq<State>)): (State, bool, seq<State>) {
    (rest.0, rest.1, seen + rest.2)
  }

  lemma Regroup<T>(a: seq<T>, b: seq<T>, c: seq<T>)
    ensures a + b + c == a + (b + c)
  {}

  lemma Unseen(rest: (State, bool, seq<State>))
    ensures Continue([], rest) == rest
  {
    assert [] + rest.2 == rest.2;
  }

  lemma Continued(seen: seq<State>, next: State, rest: (State, bool, seq<State>))
    ensures Continue(seen, (rest.0, rest.1, [next] + rest.2)) == Continue(seen + [next], rest)
  {
    assert seen + ([next] + rest.2) == seen + [next] + rest.2;
  }

  // ---------------------------------------------------------------- no gap

  /** What is known about the units at a point of the script: the ones up and the ones down. */
  datatype Knowledge = Knowledge(up: set<Unit>, down: set<Unit>)

  predicate Holds(s: State, known: Knowledge) {
    (forall u :: u in known.up ==> Up(TimerOf(s, u))) && (forall u :: u in known.down ==> Down(TimerOf(s, u)))
  }

  function Learn(known: Knowledge, step: Step): Knowledge {
    match step
    case Enable(u) => known.(down := known.down - {u})
    case Disable(u) => Knowledge(known.up - {u}, known.down - {u})
    case RequireUp(u) => known.(up := known.up + {u})
    case RequireDown(u) => known.(down := known.down + {u})
    case _ => known
  }

  function LearnAll(known: Knowledge, steps: seq<Step>): Knowledge
    decreases |steps|
  {
    if steps == [] then known else LearnAll(Learn(known, steps[0]), steps[1..])
  }

  /** No timer is disabled unless the other is known to be up. */
  predicate Guarded(known: Knowledge, steps: seq<Step>)
    decreases |steps|
  {
    steps == [] ||
    ((steps[0].Disable? ==> known.up - {steps[0].unit} != {}) && Guarded(Learn(known, steps[0]), steps[1..]))
  }

  predicate Published(s: State) {
    Up(s.legacy) || Up(s.primary)
  }

  lemma StepLearns(s: State, known: Knowledge, step: Step, r: Reply)
    requires Holds(s, known) && known.up != {} && (step.Disable? ==> known.up - {step.unit} != {})
    ensures var (after, ok) := Apply(s, step, r);
            && Published(after)
            && (ok ==> Holds(after, Learn(known, step)) && Learn(known, step).up != {})
            && (exists u :: u in known.up && Up(TimerOf(after, u)))
  {
    var after := Apply(s, step, r).0;
    var u :| u in (if step.Disable? then known.up - {step.unit} else known.up);
    assert Up(TimerOf(s, u)) && Up(TimerOf(after, u));
  }

  /** A guarded script never leaves both timers off, wherever it fails, and what it learns holds at its end. */
  lemma {:induction false} GuardedPublishes(s: State, known: Knowledge, steps: seq<Step>, replies: nat -> Reply, k: nat)
    requires Holds(s, known) && known.up != {} && Guarded(known, steps)
    ensures var (end, ok, history) := Execute(s, steps, replies, k);
            && (forall h :: h in history ==> Published(h))
            && (ok ==> Holds(end, LearnAll(known, steps)))
            && Published(end)
    decreases |steps|
  {
    if steps == [] {
      var u :| u in known.up;
      assert Up(TimerOf(s, u));
    } else {
      StepLearns(s, known, steps[0], replies(k));
      var (after, ok) := Apply(s, steps[0], replies(k));
      if ok {
        GuardedPublishes(after, Learn(known, steps[0]), steps[1..], replies, k + 1);
      }
    }
  }

  lemma {:induction false} GuardedAppend(known: Knowledge, xs: seq<Step>, ys: seq<Step>)
    ensures LearnAll(known, xs + ys) == LearnAll(LearnAll(known, xs), ys)
    ensures Guarded(known, xs + ys) <==> Guarded(known, xs) && Guarded(LearnAll(known, xs), ys)
    decreases |xs|
  {
    if xs == [] {
      assert xs + ys == ys;
    } else {
      assert (xs + ys)[0] == xs[0] && (xs + ys)[1..] == xs[1..] + ys;
      GuardedAppend(Learn(known, xs[0]), xs[1..], ys);
    }
  }

  lemma LearnStep(known: Knowledge, step: Step, rest: seq<Step>)
    ensures LearnAll(known, [step] + rest) == LearnAll(Learn(known, step), rest)
    ensures Guarded(known, [step] + rest) <==> (step.Disable? ==> known.up - {step.unit} != {}) && Guarded(Learn(known, step), rest)
  {
    assert ([step] + rest)[1..] == rest;
  }

  lemma LearnFour(known: Knowledge, a: Step, b: Step, c: Step, d: Step)
    ensures LearnAll(known, [a, b, c, d]) == Learn(Learn(Learn(Learn(known, a), b), c), d)
    ensures Guarded(known, [a, b, c, d]) <==>
              && (a.Disable? ==> known.up - {a.unit} != {})
              && (b.Disable? ==> Learn(known, a).up - {b.unit} != {})
              && (c.Disable? ==> Learn(Learn(known, a), b).up - {c.unit} != {})
              && (d.Disable? ==> Learn(Learn(Learn(known, a), b), c).up - {d.unit} != {})
  {
    hide Learn;
    assert [a, b, c, d] == [a] + ([b] + ([c] + ([d] + [])));
    LearnStep(known, a, [b] + ([c] + ([d] + [])));
    LearnStep(Learn(known, a), b, [c] + ([d] + []));
    LearnStep(Learn(Learn(known, a), b), c, [d] + []);
    LearnStep(Learn(Learn(Learn(known, a), b), c), d, []);
  }

  function Only(u: Unit): Knowledge {
    Knowledge({u}, {Other(u)})
  }

  /** One turn, from only one timer up to only the other one up. */
  lemma TurnGuarded(to: Unit, marks: seq<Step>, more: seq<Step>)
    requires forall step :: step in marks || step in more ==> step.Mark? || step.Continuity?
    ensures var turn := Overlap(to) + marks + (HandOver(to) + more);
            Guarded(Only(Other(to)), turn) && LearnAll(Only(Other(to)), turn) == Only(to)
  {
    var from := Other(to);
    var both := Knowledge({from, to}, {});
    LearnFour(Only(from), Enable(to), RequireUp(from), RequireUp(to), Publish(to));
    assert LearnAll(Only(from), Overlap(to)) == both;
    Quiet(both, marks);
    LearnFour(both, Disable(from), RequireUp(to), RequireDown(from), Publish(to));
    assert both.up - {from} == {to};
    assert LearnAll(both, HandOver(to)) == Only(to);
    Quiet(Only(to), more);
    GuardedAppend(Only(from), Overlap(to), marks);
    GuardedAppend(Only(from), Overlap(to) + marks, HandOver(to) + more);
    GuardedAppend(both, HandOver(to), more);
  }

  lemma {:induction false} Quiet(known: Knowledge, steps: seq<Step>)
    requires forall step :: step in steps ==> step.Mark? || step.Continuity?
    ensures Guarded(known, steps) && LearnAll(known, steps) == known
    decreases |steps|
  {
    if steps != [] {
      assert steps[0] in steps;
      Quiet(known, steps[1..]);
    }
  }

  lemma RehearsalGuarded(from: Unit)
    ensures Guarded(Only(from), Rehearsal(from))
    ensures LearnAll(Only(from), Rehearsal(from)) == Only(Other(from))
  {
    hide Guarded, LearnAll, Overlap, HandOver;
    var to := Other(from);
    TurnGuarded(to, [Mark("candidate_overlap")], [Mark("candidate_cutover")]);
    TurnGuarded(from, [], [Mark("legacy_rollback")]);
    TurnGuarded(to, [], [Mark("candidate_restoration"), Continuity]);
    assert Overlap(from) + [] == Overlap(from) && Overlap(to) + [] == Overlap(to);
    GuardedAppend(Only(from), Cut(to), RollBack(from) + Restoration(to));
    GuardedAppend(Only(to), RollBack(from), Restoration(to));
  }

  lemma OldTimerLearns(s: State, from: Unit, replies: nat -> Reply, k: nat)
    requires Published(s)
    ensures var (end, ok, history) := Execute(s, OldTimer(from), replies, k);
            && (forall h :: h in history ==> Published(h)) && Published(end) && (ok ==> Up(TimerOf(end, from)))
  {
    var known := Knowledge(if Up(s.legacy) then {Legacy} else {Primary}, {});
    LearnStep(known, Enable(from), [RequireUp(from)]);
    LearnStep(Learn(known, Enable(from)), RequireUp(from), []);
    assert OldTimer(from) == [Enable(from)] + ([RequireUp(from)] + []);
    GuardedPublishes(s, known, OldTimer(from), replies, k);
    assert from in LearnAll(known, OldTimer(from)).up;
  }

  lemma FreshOffLearns(s: State, from: Unit, replies: nat -> Reply, k: nat)
    requires Up(TimerOf(s, from))
    ensures var (end, ok, history) := Execute(s, FreshOff(from), replies, k);
            && (forall h :: h in history ==> Published(h)) && Published(end) && (ok ==> OnlyUp(end, from))
  {
    var known, to := Knowledge({from}, {}), Other(from);
    LearnStep(known, Disable(to), [RequireDown(to)]);
    LearnStep(Learn(known, Disable(to)), RequireDown(to), []);
    assert FreshOff(from) == [Disable(to)] + ([RequireDown(to)] + []);
    GuardedPublishes(s, known, FreshOff(from), replies, k);
    assert from in LearnAll(known, FreshOff(from)).up && to in LearnAll(known, FreshOff(from)).down;
  }

  lemma PublishOnly(s: State, u: Unit, replies: nat -> Reply, k: nat)
    ensures var heard := Heard(replies(k));
            Execute(s, [Publish(u)], replies, k) == (if heard then s.(publisher := u) else s, heard, [if heard then s.(publisher := u) else s])
  {
    assert [Publish(u)] == [Publish(u)] + [];
    ExecuteFirst(s, Publish(u), [], replies, k);
    var after := Apply(s, Publish(u), replies(k)).0;
    assert [after] + [] == [after];
  }

  /** One timer is up and the other one is down. */
  predicate OnlyUp(s: State, u: Unit) {
    Up(TimerOf(s, u)) && Down(TimerOf(s, Other(u)))
  }

  lemma SameTimers(s: State, t: State)
    requires s.legacy == t.legacy && s.primary == t.primary
    ensures Published(s) == Published(t) && forall u :: TimerOf(s, u) == TimerOf(t, u)
  {}

  lemma RecoveryPublishes(s: State, from: Unit, replies: nat -> Reply, k: nat, outputWritten: bool)
    requires Published(s)
    ensures var r := RecoverOldPath(s, from, replies, k, outputWritten);
            && (forall h :: h in r.history ==> Published(h)) && Published(r.state)
            && (r.errors == 0 ==> OnlyUp(r.state, from))
  {
    hide Execute, Published, Up, Down, OldTimer, FreshOff;
    OldTimerLearns(s, from, replies, k);
    var (s1, ready, h1) := Execute(s, OldTimer(from), replies, k);
    if ready {
      PublishOnly(s1, from, replies, k + 2);
      SameTimers(s1, s1.(publisher := from));
      FreshOffLearns(s1.(publisher := from), from, replies, k + 3);
    }
  }

  /**
   No publisher gap: whatever fails and whatever the failing action leaves behind, at every
   point of the rehearsal and of its recovery one of the two timers is enabled and active.
   Acceptance ends with only the new timer up, a restored old path with only the old one.
   */
  lemma NoPublisherGap(s: State, from: Unit, replies: nat -> Reply, outputWritten: bool, continuous: bool)
    requires OnlyUp(s, from)
    ensures var r := Cutover(s, from, replies, outputWritten, continuous);
            && (forall h :: h in r.history ==> Published(h)) && Published(r.state)
            && (r.outcome.Accepted? ==> OnlyUp(r.state, Other(from)))
            && (r.outcome.OldPathRestored? ==> OnlyUp(r.state, from))
  {
    hide Execute, Published, Up, Down, Rehearsal, Guarded, LearnAll;
    RehearsalGuarded(from);
    GuardedPublishes(s, Only(from), Rehearsal(from), replies, 0);
    var (end, accepted, history) := Execute(s, Rehearsal(from), replies, 0);
    if accepted {
      assert Other(from) in Only(Other(from)).up && Other(Other(from)) in Only(Other(from)).down;
    } else {
      RecoveryPublishes(end, from, replies, |history|, outputWritten);
    }
  }

  // ---------------------------------------------------------------- what each answer leads to

  /** A script that succeeds in its first part goes on with the second one. */
  lemma {:induction false} ExecuteAppend(s: State, xs: seq<Step>, ys: seq<Step>, replies: nat -> Reply, k: nat)
    ensures var (mid, first, h1) := Execute(s, xs, replies, k);
            && (first ==> |h1| == |xs|)
            && Execute(s, xs + ys, replies, k)
               == (if first then Continue(h1, Execute(mid, ys, replies, k + |xs|)) else (mid, false, h1))
    decreases |xs|
  {
    if xs == [] {
      assert xs + ys == ys;
      Unseen(Execute(s, ys, replies, k));
    } else {
      assert (xs + ys)[0] == xs[0] && (xs + ys)[1..] == xs[1..] + ys;
      var after := Apply(s, xs[0], replies(k)).0;
      ExecuteAppend(after, xs[1..], ys, replies, k + 1);
      var (mid, first, h1) := Execute(after, xs[1..], replies, k + 1);
      Regroup([after], h1, Execute(mid, ys, replies, k + |xs|).2);
    }
  }

  lemma ExecuteFirst(s: State, step: Step, rest: seq<Step>, replies: nat -> Reply, k: nat)
    ensures var (after, ok) := Apply(s, step, replies(k));
            Execute(s, [step] + rest, replies, k) == (if ok then Continue([after], Execute(after, rest, replies, k + 1)) else (after, false, [after]))
  {
    assert ([step] + rest)[1..] == rest;
  }

  /** Four steps in a row. */
  lemma ExecuteFour(s: State, a: Step, b: Step, c: Step, d: Step, replies: nat -> Reply, k: nat)
    ensures var s1 := Apply(s, a, replies(k));
            var s2 := Apply(s1.0, b, replies(k + 1));
            var s3 := Apply(s2.0, c, replies(k + 2));
            var s4 := Apply(s3.0, d, replies(k + 3));
            var (end, ok, history) := Execute(s, [a, b, c, d], replies, k);
            && (ok <==> s1.1 && s2.1 && s3.1 && s4.1)
            && (ok ==> end == s4.0 && history == [s1.0, s2.0, s3.0, s4.0])
  {
    hide Apply;
    assert [a, b, c, d] == [a] + ([b] + ([c] + ([d] + [])));
    var s1 := Apply(s, a, replies(k)).0;
    var s2 := Apply(s1, b, replies(k + 1)).0;
    var s3 := Apply(s2, c, replies(k + 2)).0;
    ExecuteFirst(s, a, [b] + ([c] + ([d] + [])), replies, k);
    ExecuteFirst(s1, b, [c] + ([d] + []), replies, k + 1);
    ExecuteFirst(s2, c, [d] + [], replies, k + 2);
    ExecuteFirst(s3, d, [], replies, k + 3);
  }

  /** One of the three attempts to publish is answered. */
  predicate SomeAttempt(r: Reply) {
    !(!r.first && !r.second && !r.third)
  }

  /** The answers that make a timer, up or not before, join the other one: it is up, both are found up, its output is accepted. */
  predicate Joins(up: bool, replies: nat -> Reply, k: nat) {
    replies(k).done && (up || Up(replies(k).after)) && replies(k + 1).done && replies(k + 2).done && SomeAttempt(replies(k + 3))
  }

  /** The answers that take the other timer down. */
  predicate Leaves(replies: nat -> Reply, k: nat) {
    replies(k).done && Down(replies(k).after) && replies(k + 1).done && replies(k + 2).done && SomeAttempt(replies(k + 3))
  }

  predicate BothUp(s: State) {
    Up(s.legacy) && Up(s.primary)
  }

  lemma OverlapRun(s: State, to: Unit, replies: nat -> Reply, k: nat)
    ensures var (end, ok, history) := Execute(s, Overlap(to), replies, k);
            && (ok <==> Up(TimerOf(s, Other(to))) && Joins(Up(TimerOf(s, to)), replies, k))
            && (ok ==> BothUp(end) && end.publisher == to && end.phases == s.phases && |history| == 4 && history[3] == end)
  {
    ExecuteFour(s, Enable(to), RequireUp(Other(to)), RequireUp(to), Publish(to), replies, k);
  }

  lemma HandOverRun(s: State, to: Unit, replies: nat -> Reply, k: nat)
    requires BothUp(s)
    ensures var (end, ok, history) := Execute(s, HandOver(to), replies, k);
            && (ok <==> Leaves(replies, k))
            && (ok ==> end == WithTimer(s, Other(to), replies(k).after).(publisher := to) && |history| == 4 && history[3] == end && OnlyUp(end, to))
  {
    ExecuteFour(s, Disable(Other(to)), RequireUp(to), RequireDown(Other(to)), Publish(to), replies, k);
  }

  lemma MarkRun(s: State, phase: string, replies: nat -> Reply, k: nat)
    ensures Execute(s, [Mark(phase)], replies, k) == (s.(phases := s.phases + [phase]), true, [s.(phases := s.phases + [phase])])
  {
    assert [Mark(phase)] == [Mark(phase)] + [];
    ExecuteFirst(s, Mark(phase), [], replies, k);
    var after := Apply(s, Mark(phase), replies(k)).0;
    assert [after] + [] == [after];
  }

  /** The new publisher takes over for the first time. */
  lemma CutRun(s: State, to: Unit, replies: nat -> Reply, k: nat)
    ensures var (end, ok, h) := Execute(s, Cut(to), replies, k);
            && (ok <==> Up(TimerOf(s, Other(to))) && Joins(Up(TimerOf(s, to)), replies, k) && Leaves(replies, k + 5))
            && (ok ==>
                  && |h| == 10 && BothUp(h[3]) && h[3].publisher == to && OnlyUp(h[8], to) && OnlyUp(end, to) && end.publisher == to
                  && end.phases == s.phases + ["candidate_overlap", "candidate_cutover"])
  {
    hide Execute, Overlap, HandOver, Joins, Leaves, Up, Down;
    var x, y := [Mark("candidate_overlap")], [Mark("candidate_cutover")];
    ExecuteAppend(s, Overlap(to), x, replies, k);
    ExecuteAppend(s, Overlap(to) + x, HandOver(to) + y, replies, k);
    OverlapRun(s, to, replies, k);
    FourLong(to);
    if Up(TimerOf(s, Other(to))) && Joins(Up(TimerOf(s, to)), replies, k) {
      var s1 := Execute(s, Overlap(to), replies, k).0;
      MarkRun(s1, "candidate_overlap", replies, k + 4);
      var s2 := s1.(phases := s1.phases + ["candidate_overlap"]);
      ExecuteAppend(s2, HandOver(to), y, replies, k + 5);
      HandOverRun(s2, to, replies, k + 5);
      MarkRun(Execute(s2, HandOver(to), replies, k + 5).0, "candidate_cutover", replies, k + 9);
    }
  }

  lemma FourLong(to: Unit)
    ensures |Overlap(to)| == 4 && |HandOver(to)| == 4
  {}

  /** Overlap and hand-over without a mark in between: the old publisher back, and later the new one again. */
  lemma TurnRun(s: State, to: Unit, more: seq<Step>, replies: nat -> Reply, k: nat)
    requires OnlyUp(s, Other(to))
    ensures var (end, ok, h) := Execute(s, Overlap(to) + (HandOver(to) + more), replies, k);
            if Joins(false, replies, k) && Leaves(replies, k + 4) then
              exists s1: State, h1: seq<State> :: OnlyUp(s1, to) && s1.publisher == to && s1.phases == s.phases && |h1| == 8 && BothUp(h1[3]) && h1[3].publisher == to
                && h1[7] == s1 && (end, ok, h) == Continue(h1, Execute(s1, more, replies, k + 8))
            else !ok
  {
    hide Execute, Overlap, HandOver, Joins, Leaves, Up, Down;
    ExecuteAppend(s, Overlap(to), HandOver(to) + more, replies, k);
    OverlapRun(s, to, replies, k);
    FourLong(to);
    DownIsNotUp(s, to);
    if Joins(false, replies, k) {
      var (s1, _, h1) := Execute(s, Overlap(to), replies, k);
      ExecuteAppend(s1, HandOver(to), more, replies, k + 4);
      HandOverRun(s1, to, replies, k + 4);
      if Leaves(replies, k + 4) {
        var (s2, _, h2) := Execute(s1, HandOver(to), replies, k + 4);
        Regroup(h1, h2, Execute(s2, more, replies, k + 8).2);
        assert (h1 + h2)[3] == h1[3] && (h1 + h2)[7] == h2[3];
        assert Execute(s, Overlap(to) + (HandOver(to) + more), replies, k) == Continue(h1 + h2, Execute(s2, more, replies, k + 8));
      }
    }
  }

  /** The old publisher takes over again. */
  lemma RollBackRun(s: State, from: Unit, replies: nat -> Reply, k: nat)
    requires OnlyUp(s, Other(from))
    ensures var (end, ok, h) := Execute(s, RollBack(from), replies, k);
            && (ok <==> Joins(false, replies, k) && Leaves(replies, k + 4))
            && (ok ==>
                  && |h| == 9 && BothUp(h[3]) && h[3].publisher == from && OnlyUp(h[7], from) && OnlyUp(end, from) && end.publisher == from
                  && end.phases == s.phases + ["legacy_rollback"])
  {
    hide Execute, Overlap, HandOver, Joins, Leaves, Up, Down;
    TurnRun(s, from, [Mark("legacy_rollback")], replies, k);
    forall s1: State ensures Execute(s1, [Mark("legacy_rollback")], replies, k + 8)
                               == (s1.(phases := s1.phases + ["legacy_rollback"]), true, [s1.(phases := s1.phases + ["legacy_rollback"])]) {
      MarkRun(s1, "legacy_rollback", replies, k + 8);
    }
  }

  lemma ClosingRun(s: State, replies: nat -> Reply, k: nat)
    ensures var (end, ok, h) := Execute(s, [Mark("candidate_restoration"), Continuity], replies, k);
            (ok <==> replies(k + 1).done) && end == s.(phases := s.phases + ["candidate_restoration"]) && h == [end, end]
  {
    assert [Mark("candidate_restoration"), Continuity] == [Mark("candidate_restoration")] + ([Continuity] + []);
    ExecuteFirst(s, Mark("candidate_restoration"), [Continuity] + [], replies, k);
    ExecuteFirst(s.(phases := s.phases + ["candidate_restoration"]), Continuity, [], replies, k + 1);
  }

  /** The new publisher takes over for good. */
  lemma RestorationRun(s: State, to: Unit, replies: nat -> Reply, k: nat)
    requires OnlyUp(s, Other(to))
    ensures var (end, ok, h) := Execute(s, Restoration(to), replies, k);
            && (ok <==> Joins(false, replies, k) && Leaves(replies, k + 4) && replies(k + 9).done)
            && (ok ==>
                  && |h| == 10 && BothUp(h[3]) && h[3].publisher == to && OnlyUp(h[7], to) && OnlyUp(end, to) && end.publisher == to
                  && end.phases == s.phases + ["candidate_restoration"])
  {
    hide Execute, Overlap, HandOver, Joins, Leaves, Up, Down;
    TurnRun(s, to, [Mark("candidate_restoration"), Continuity], replies, k);
    forall s1: State ensures var (end, ok, h) := Execute(s1, [Mark("candidate_restoration"), Continuity], replies, k + 8);
                             (ok <==> replies(k + 9).done) && end == s1.(phases := s1.phases + ["candidate_restoration"]) && h == [end, end] {
      ClosingRun(s1, replies, k + 8);
    }
  }

  /** The answers to the 29 steps that lead to acceptance; the four marks have none. */
  predicate AllGood(s: State, from: Unit, replies: nat -> Reply) {
    && Up(TimerOf(s, from)) && Joins(Up(TimerOf(s, Other(from))), replies, 0) && Leaves(replies, 5)
    && Joins(false, replies, 10) && Leaves(replies, 14) && Joins(false, replies, 19) && Leaves(replies, 23)
    && replies(28).done
  }

  lemma DownIsNotUp(s: State, u: Unit)
    requires OnlyUp(s, Other(u))
    ensures !Up(TimerOf(s, u)) && Up(TimerOf(s, Other(u)))
  {}

  /** An accepted rehearsal: both publishers up after each overlap, one after each hand-over, and the output in turn of each. */
  ghost predicate Rehearsed(s: State, from: Unit, end: State, h: seq<State>) {
    var to := Other(from);
    && |h| == 29 && end.phases == s.phases + ["candidate_overlap", "candidate_cutover", "legacy_rollback", "candidate_restoration"]
    && BothUp(h[3]) && h[3].publisher == to && OnlyUp(h[8], to) && h[9].publisher == to
    && BothUp(h[13]) && h[13].publisher == from && OnlyUp(h[17], from) && h[18].publisher == from
    && BothUp(h[22]) && h[22].publisher == to && OnlyUp(h[26], to) && end.publisher == to
  }

  /** Acceptance, exactly: every action does what it is asked for, every check answers and every output is accepted. */
  lemma AcceptedIff(s: State, from: Unit, replies: nat -> Reply, outputWritten: bool, continuous: bool)
    ensures var r := Cutover(s, from, replies, outputWritten, continuous);
            && (r.outcome.Accepted? <==> AllGood(s, from, replies))
            && (r.outcome.Accepted? ==> Rehearsed(s, from, r.state, r.history))
  {
    hide Execute, Cut, RollBack, Restoration, Joins, Leaves, Up, Down;
    var to := Other(from);
    CutRun(s, to, replies, 0);
    ExecuteAppend(s, Cut(to), RollBack(from) + Restoration(to), replies, 0);
    PartsLong(from);
    if Up(TimerOf(s, from)) && Joins(Up(TimerOf(s, to)), replies, 0) && Leaves(replies, 5) {
      var (s1, _, h1) := Execute(s, Cut(to), replies, 0);
      Ends(s, Cut(to), replies, 0);
      RollBackRun(s1, from, replies, 10);
      ExecuteAppend(s1, RollBack(from), Restoration(to), replies, 10);
      if Joins(false, replies, 10) && Leaves(replies, 14) {
        var (s2, _, h2) := Execute(s1, RollBack(from), replies, 10);
        Ends(s1, RollBack(from), replies, 10);
        RestorationRun(s2, to, replies, 19);
        var (s3, all, h3) := Execute(s2, Restoration(to), replies, 19);
        assert Execute(s, Rehearsal(from), replies, 0) == (s3, all, h1 + (h2 + h3));
      }
    }
  }

  lemma PartsLong(from: Unit)
    ensures |Cut(Other(from))| == 10 && |RollBack(from)| == 9 && |Restoration(Other(from))| == 10
  {}

  /** The last state on the way is the one it ends with. */
  lemma {:induction false} Ends(s: State, steps: seq<Step>, replies: nat -> Reply, k: nat)
    requires steps != []
    ensures var (end, ok, history) := Execute(s, steps, replies, k);
            0 < |history| <= |steps| && history[|history| - 1] == end
    decreases |steps|
  {
    var (after, ok) := Apply(s, steps[0], replies(k));
    if ok && |steps| > 1 {
      Ends(after, steps[1..], replies, k + 1);
    }
  }

  // ---------------------------------------------------------------- the recovery, answer by answer

  /** The old timer is found up. */
  predicate OldReady(s: State, from: Unit, replies: nat -> Reply, k: nat) {
    replies(k).done && replies(k + 1).done && (Up(TimerOf(s, from)) || Up(replies(k).after))
  }

  /** The new timer is found down. */
  predicate NewOff(replies: nat -> Reply, k: nat) {
    replies(k).done && replies(k + 1).done && Down(replies(k).after)
  }

  function OldTimerAfter(s: State, from: Unit, r: Reply): Timer {
    if Up(TimerOf(s, from)) && !Up(r.after) then TimerOf(s, from) else r.after
  }

  lemma OldTimerRun(s: State, from: Unit, replies: nat -> Reply, k: nat)
    ensures var (end, ok, h) := Execute(s, OldTimer(from), replies, k);
            (ok <==> OldReady(s, from, replies, k)) && end == WithTimer(s, from, OldTimerAfter(s, from, replies(k)))
  {
    assert OldTimer(from) == [Enable(from)] + ([RequireUp(from)] + []);
    ExecuteFirst(s, Enable(from), [RequireUp(from)] + [], replies, k);
    ExecuteFirst(Apply(s, Enable(from), replies(k)).0, RequireUp(from), [], replies, k + 1);
  }

  lemma FreshOffRun(s: State, from: Unit, replies: nat -> Reply, k: nat)
    ensures var (end, ok, h) := Execute(s, FreshOff(from), replies, k);
            (ok <==> NewOff(replies, k)) && end == WithTimer(s, Other(from), replies(k).after)
  {
    var to := Other(from);
    assert FreshOff(from) == [Disable(to)] + ([RequireDown(to)] + []);
    ExecuteFirst(s, Disable(to), [RequireDown(to)] + [], replies, k);
    ExecuteFirst(Apply(s, Disable(to), replies(k)).0, RequireDown(to), [], replies, k + 1);
  }

  /**
   The recovery, exactly.  The new timer is touched only once the old one is up and there is
   output to read, from the old publisher or put back by hand; every fault is one error.
   */
  lemma RecoveryLaw(s: State, from: Unit, replies: nat -> Reply, k: nat, outputWritten: bool)
    ensures var r, heard := RecoverOldPath(s, from, replies, k, outputWritten), SomeAttempt(replies(k + 2));
            var readable := OldReady(s, from, replies, k) && (heard || outputWritten);
            && TimerOf(r.state, from) == OldTimerAfter(s, from, replies(k)) && r.state.phases == s.phases
            && TimerOf(r.state, Other(from)) == (if readable then replies(k + 3).after else TimerOf(s, Other(from)))
            && r.state.publisher == (if readable then from else s.publisher)
            && r.errors == (if !OldReady(s, from, replies, k) then 1
                            else if !readable then 2
                            else (if heard then 0 else 1) + (if NewOff(replies, k + 3) then 0 else 1))
  {
    hide Execute, OldTimer, FreshOff, OldTimerAfter, Up, Down, OldReady, NewOff;
    OldTimerRun(s, from, replies, k);
    var s1 := Execute(s, OldTimer(from), replies, k).0;
    PublishOnly(s1, from, replies, k + 2);
    FreshOffRun(s1.(publisher := from), from, replies, k + 3);
  }

  /**
   A rehearsal that stops at step `n`, in state `e`: the old path counts as restored exactly
   when the old timer is up, its publisher is accepted, the new timer is down, and nothing
   else changed; the output written by hand alone is not enough.
   */
  lemma FailureLaw(s: State, from: Unit, replies: nat -> Reply, outputWritten: bool, continuous: bool) returns (n: nat, e: State)
    requires OnlyUp(s, from) && !AllGood(s, from, replies)
    ensures var r := Cutover(s, from, replies, outputWritten, continuous);
            && 0 < n <= |r.history| && Execute(s, Rehearsal(from), replies, 0) == (e, false, r.history[..n]) && r.history[n - 1] == e && Published(e)
            && (r.outcome.OldPathRestored? <==>
                  OldReady(e, from, replies, n) && SomeAttempt(replies(n + 2)) && NewOff(replies, n + 3) && continuous)
            && (r.outcome.RecoveryIncomplete? <==> !r.outcome.OldPathRestored?)
            && r.state == RecoverOldPath(e, from, replies, n, outputWritten).state
  {
    hide Execute, Rehearsal, RecoverOldPath, Joins, Leaves, Up, Down, OldReady, NewOff, SomeAttempt, Published;
    AcceptedIff(s, from, replies, outputWritten, continuous);
    RehearsalGuarded(from);
    GuardedPublishes(s, Only(from), Rehearsal(from), replies, 0);
    var (end, accepted, h) := Execute(s, Rehearsal(from), replies, 0);
    n, e := |h|, end;
    Longer(from);
    Ends(s, Rehearsal(from), replies, 0);
    RecoveryLaw(e, from, replies, n, outputWritten);
    var r := Cutover(s, from, replies, outputWritten, continuous);
    assert r.history[..n] == h && r.history[n - 1] == h[n - 1];
  }

  lemma Longer(from: Unit)
    ensures Rehearsal(from) != []
  {}
}
