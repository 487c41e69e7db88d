/** Idle timeouts of the connections of one session, which share an activity clock. */
module IdleClock {
  /**
   * A reader in idleConn.Read. Processing takes no time: time passes only while every reader is away or blocked
   * before its deadline. A read that ends by its deadline has delivered nothing.
   */
  datatype Reader =
    | Away                     // its caller is busy elsewhere
    | Blocked(armed: int)      // deadline armed + timeout
    | Received                 // got bytes, activity not yet stored
    | TimedOut(at: int)

  datatype State = State(now: int, activity: int, readers: map<nat, Reader>, receptions: seq<int>)

  datatype Step = Advance(dt: nat) | Arm(i: nat) | Receive(i: nat) | Store(i: nat) | Fire(i: nat)

  predicate Enabled(timeout: nat, s: State, step: Step) {
    match step
    case Advance(dt) =>
      forall i :: i in s.readers ==>
        !s.readers[i].Received? && (s.readers[i].Blocked? ==> s.now + dt <= s.readers[i].armed + timeout)
    case Arm(i) => i in s.readers && s.readers[i].Away?
    case Receive(i) => i in s.readers && s.readers[i].Blocked?
    case Store(i) => i in s.readers && s.readers[i].Received?
    case Fire(i) => i in s.readers && s.readers[i].Blocked? && s.now >= s.readers[i].armed + timeout
  }

  function Apply(timeout: nat, s: State, step: Step): State
    requires Enabled(timeout, s, step)
  {
    match step
    case Advance(dt) => s.(now := s.now + dt)
    case Arm(i) => s.(readers := s.readers[i := Blocked(s.now)])
    case Receive(i) => s.(readers := s.readers[i := Received], receptions := s.receptions + [s.now])
    case Store(i) => s.(readers := s.readers[i := Away], activity := s.now)
    case Fire(i) =>
      // The deadline is renewed unless the shared clock is a whole timeout old.
      s.(readers := s.readers[i := if s.now - s.activity < timeout then Blocked(s.now) else TimedOut(s.now)])
  }

  /** A fresh session: the activity clock starts at the opening time, which counts as the first reception. */
  ghost predicate Init(s: State) {
    s.activity == s.now && s.receptions == [s.now] && forall i :: i in s.readers ==> s.readers[i] == Away
  }

  ghost predicate IsRun(timeout: nat, s: State, steps: seq<Step>)
    decreases |steps|
  {
    steps != [] ==> Enabled(timeout, s, steps[0]) && IsRun(timeout, Apply(timeout, s, steps[0]), steps[1..])
  }

  ghost function Run(timeout: nat, s: State, steps: seq<Step>): State
    requires IsRun(timeout, s, steps)
    decreases |steps|
  {
    if steps == [] then s else Run(timeout, Apply(timeout, s, steps[0]), steps[1..])
  }

  /** No silence as long as the timeout: neither between receptions on any connections nor since the last one. */
  ghost predicate Lively(timeout: nat, receptions: seq<int>, now: int) {
    && receptions != []
    && (forall j :: 0 < j < |receptions| ==> receptions[j] - receptions[j - 1] < timeout)
    && now - receptions[|receptions| - 1] < timeout
  }

  ghost predicate Recording(s: State) { exists i :: i in s.readers && s.readers[i].Received? }

  ghost predicate Ordered(receptions: seq<int>, now: int) {
    && receptions != [] && receptions[|receptions| - 1] <= now
    && (forall j :: 0 < j < |receptions| ==> receptions[j - 1] <= receptions[j])
  }

  /** The clock shows reception k, and all later ones are of this very moment and still being recorded. */
  ghost predicate ClockShows(s: State, k: nat) {
    && k < |s.receptions| && s.receptions[k] == s.activity
    && (forall j :: k < j < |s.receptions| ==> s.receptions[j] == s.now)
    && (Recording(s) ==> s.receptions[|s.receptions| - 1] == s.now)
    && (!Recording(s) ==> s.receptions[|s.receptions| - 1] == s.activity)
  }

  /** A blocked reader's deadline is never missed. */
  ghost predicate ArmedInv(timeout: nat, s: State) {
    forall i :: i in s.readers && s.readers[i].Blocked? ==>
      s.readers[i].armed <= s.now <= s.readers[i].armed + timeout
  }

  lemma ClockStep(timeout: nat, s: State, step: Step, k: nat) returns (k': nat)
    requires Ordered(s.receptions, s.now) && ClockShows(s, k) && Enabled(timeout, s, step)
    ensures var s' := Apply(timeout, s, step); Ordered(s'.receptions, s'.now) && ClockShows(s', k')
  {
    var s' := Apply(timeout, s, step);
    RecordingStep(timeout, s, step);
    k' := if step.Advance? || step.Store? then |s.receptions| - 1 else k;
  }

  lemma RecordingStep(timeout: nat, s: State, step: Step)
    requires Enabled(timeout, s, step)
    ensures step.Advance? ==> !Recording(s)
    ensures step.Receive? ==> Recording(Apply(timeout, s, step))
    ensures step.Store? ==> Recording(s)
    ensures !step.Receive? && !step.Store? ==> (Recording(Apply(timeout, s, step)) <==> Recording(s))
  {
    var s' := Apply(timeout, s, step);
    if step.Receive? {
      assert s'.readers[step.i].Received?;
    } else if !step.Store? {
      assert forall i :: i in s'.readers ==> (s'.readers[i].Received? <==> i in s.readers && s.readers[i].Received?);
      assert forall i :: i in s.readers ==> i in s'.readers;
    }
  }

  lemma ArmedStep(timeout: nat, s: State, step: Step)
    requires ArmedInv(timeout, s) && Enabled(timeout, s, step)
    ensures ArmedInv(timeout, Apply(timeout, s, step))
  {
  }

  lemma {:induction false} ReachableClock(timeout: nat, s: State, steps: seq<Step>, k: nat) returns (k': nat)
    requires Ordered(s.receptions, s.now) && ClockShows(s, k) && ArmedInv(timeout, s) && IsRun(timeout, s, steps)
    ensures var s' := Run(timeout, s, steps);
            Ordered(s'.receptions, s'.now) && ClockShows(s', k') && ArmedInv(timeout, s')
    decreases |steps|
  {
    hide Ordered, ClockShows, ArmedInv, Enabled;
    k' := k;
    if steps != [] {
      ArmedStep(timeout, s, steps[0]);
      k' := ClockStep(timeout, s, steps[0], k);
      k' := ReachableClock(timeout, Apply(timeout, s, steps[0]), steps[1..], k');
    }
  }

  /** While the session is lively, the clock is too. */
  lemma LivelyClock(timeout: nat, s: State, k: nat)
    requires Ordered(s.receptions, s.now) && ClockShows(s, k) && Lively(timeout, s.receptions, s.now)
    ensures s.now - s.activity < timeout
  {
    if k + 1 < |s.receptions| {
      assert s.receptions[k + 1] - s.receptions[k] < timeout;
    }
  }

  ghost predicate Stays(timeout: nat, s: State, steps: seq<Step>)
    requires IsRun(timeout, s, steps)
    decreases |steps|
  {
    Lively(timeout, s.receptions, s.now) &&
    (steps != [] ==> Stays(timeout, Apply(timeout, s, steps[0]), steps[1..]))
  }

  ghost predicate NoneTimedOut(s: State) { forall i :: i in s.readers ==> !s.readers[i].TimedOut? }

  lemma {:induction false} LivelyRun(timeout: nat, s: State, steps: seq<Step>, k: nat)
    requires Ordered(s.receptions, s.now) && ClockShows(s, k) && NoneTimedOut(s)
    requires IsRun(timeout, s, steps) && Stays(timeout, s, steps)
    ensures NoneTimedOut(Run(timeout, s, steps))
    decreases |steps|
  {
    hide Ordered, ClockShows, Lively, Enabled;
    if steps != [] {
      LivelyClock(timeout, s, k);
      var k' := ClockStep(timeout, s, steps[0], k);
      LivelyRun(timeout, Apply(timeout, s, steps[0]), steps[1..], k');
    }
  }

  /** Over all interleavings: if every silence stays below the timeout, no reader ever times out. */
  lemma NoTimeoutWhileLively(timeout: nat, s: State, steps: seq<Step>)
    requires Init(s) && IsRun(timeout, s, steps) && Stays(timeout, s, steps)
    ensures NoneTimedOut(Run(timeout, s, steps))
  {
    hide Lively, IsRun, Run, Stays;
    LivelyRun(timeout, s, steps, 0);
  }

  ghost predicate Silent(steps: seq<Step>) { forall k :: 0 <= k < |steps| ==> !steps[k].Receive? }

  /**
   * When a reader that armed at m gives up on a session whose last reception is recorded at a. A reader that was
   * already waiting finds the clock too young at its first deadline and waits a whole timeout more.
   */
  function GivesUp(timeout: nat, m: int, a: int): int { if m == a then a + timeout else m + 2 * timeout }

  /** That reader since then: waiting for its first or second deadline, or timed out at exactly that time. */
  ghost predicate Winding(timeout: nat, s: State, i: nat, m: int, a: int) {
    && m <= a <= m + timeout && s.activity == a && s.now >= a && i in s.readers
    && (forall j :: j in s.readers ==> !s.readers[j].Received?)
    && match s.readers[i]
       case Blocked(armed) => s.now <= armed + timeout && (armed == m || (m < a && armed == m + timeout))
       case TimedOut(at) => at == GivesUp(timeout, m, a)
       case _ => false
  }

  lemma WindingStep(timeout: nat, s: State, step: Step, i: nat, m: int, a: int)
    requires Winding(timeout, s, i, m, a) && Enabled(timeout, s, step) && !step.Receive?
    ensures Winding(timeout, Apply(timeout, s, step), i, m, a)
  {
  }

  lemma {:induction false} WindingRun(timeout: nat, s: State, steps: seq<Step>, i: nat, m: int, a: int)
    requires Winding(timeout, s, i, m, a) && IsRun(timeout, s, steps) && Silent(steps)
    ensures Winding(timeout, Run(timeout, s, steps), i, m, a)
    decreases |steps|
  {
    hide Winding, Enabled;
    if steps != [] {
      WindingStep(timeout, s, steps[0], i, m, a);
      WindingRun(timeout, Apply(timeout, s, steps[0]), steps[1..], i, m, a);
    }
  }

  /**
   * The exact timeout. After the last reception, at the end of the run `before` and recorded at time a, a reader that
   * is blocked then since m times out at a + T if it armed at that moment and at m + 2T otherwise, in every
   * interleaving; no run lets the clock pass that time with the reader still blocked. So it comes at a + T at the
   * earliest, and before a + 2T.
   */
  lemma TimeoutAfterSilence(timeout: nat, start: State, before: seq<Step>, steps: seq<Step>, i: nat)
    requires timeout > 0 && Init(start) && IsRun(timeout, start, before)
    requires var s := Run(timeout, start, before);
             && s.receptions != [] && s.receptions[|s.receptions| - 1] == s.now && !Recording(s)
             && i in s.readers && s.readers[i].Blocked?
             && IsRun(timeout, s, steps) && Silent(steps)
    ensures var s := Run(timeout, start, before);
            var s' := Run(timeout, s, steps);
            var end := GivesUp(timeout, s.readers[i].armed, s.now);
            && i in s'.readers && (s'.readers[i].Blocked? || s'.readers[i].TimedOut?)
            && (s'.readers[i].Blocked? ==> s'.now <= end)
            && (s'.readers[i].TimedOut? ==> s'.readers[i].at == end)
            && s.now + timeout <= end < s.now + 2 * timeout
  {
    hide IsRun, Run;
    var s := Run(timeout, start, before);
    var k := ReachableClock(timeout, start, before, 0);
    assert Winding(timeout, s, i, s.readers[i].armed, s.now);
    WindingRun(timeout, s, steps, i, s.readers[i].armed, s.now);
  }

  lemma Prepend(timeout: nat, s: State, steps: seq<Step>, k: nat, s': State)
    requires k < |steps| && Enabled(timeout, s, steps[k]) && IsRun(timeout, s', steps[k + 1..])
    requires var t := Apply(timeout, s, steps[k]);
             t.now == s'.now && t.activity == s'.activity && t.readers == s'.readers && t.receptions == s'.receptions
    ensures IsRun(timeout, s, steps[k..]) && Run(timeout, s, steps[k..]) == Run(timeout, s', steps[k + 1..])
  {
    hide Enabled, Apply;
    assert steps[k..][1..] == steps[k + 1..] && steps[k..][0] == steps[k];
  }

  /** Reader 0 has been waiting since 0 when reader 1 receives the session's last bytes at 1. */
  const LATE_START := State(1, 1, map[0 := Blocked(0), 1 := Away], [0, 1])

  lemma ReachesLateStart(timeout: nat) returns (start: State, before: seq<Step>)
    requires timeout > 0
    ensures Init(start) && IsRun(timeout, start, before) && Run(timeout, start, before) == LATE_START
  {
    hide IsRun, Run;
    start := State(0, 0, map[0 := Away, 1 := Away], [0]);
    before := [Arm(0), Advance(1), Arm(1), Receive(1), Store(1)];
    var s1 := State(0, 0, map[0 := Blocked(0), 1 := Away], [0]);
    var s2 := s1.(now := 1);
    var s3 := s2.(readers := map[0 := Blocked(0), 1 := Blocked(1)]);
    var s4 := s3.(readers := map[0 := Blocked(0), 1 := Received], receptions := [0, 1]);
    Stop(timeout, LATE_START);
    assert before[5..] == [] && before[0..] == before;
    Prepend(timeout, s4, before, 4, LATE_START);
    Prepend(timeout, s3, before, 3, s4);
    Prepend(timeout, s2, before, 2, s3);
    Prepend(timeout, s1, before, 1, s2);
    Prepend(timeout, start, before, 0, s1);
  }

  lemma LateTimeout(timeout: nat) returns (steps: seq<Step>, end: State)
    requires timeout > 0
    ensures IsRun(timeout, LATE_START, steps) && Silent(steps) && Run(timeout, LATE_START, steps) == end
    ensures end.receptions == [0, 1] && 0 in end.readers && end.readers[0] == TimedOut(2 * timeout)
  {
    hide IsRun, Run;
    steps := [Advance(timeout - 1), Fire(0), Advance(timeout), Fire(0)];
    var s1 := LATE_START.(now := timeout);
    var s2 := s1.(readers := map[0 := Blocked(timeout), 1 := Away]);
    var s3 := s2.(now := 2 * timeout);
    end := s3.(readers := map[0 := TimedOut(2 * timeout), 1 := Away]);
    Stop(timeout, end);
    assert steps[4..] == [] && steps[0..] == steps;
    Prepend(timeout, s3, steps, 3, end);
    Prepend(timeout, s2, steps, 2, s3);
    Prepend(timeout, s1, steps, 1, s2);
    Prepend(timeout, LATE_START, steps, 0, s1);
  }

  /** The late end of that range is reached for every timeout: a session silent since a = 1 times out at a + 2T - 1. */
  lemma LatestTimeout(timeout: nat) returns (start: State, before: seq<Step>, steps: seq<Step>)
    requires timeout > 0
    ensures Init(start) && IsRun(timeout, start, before)
    ensures var s := Run(timeout, start, before);
            && s.now == 1 && s.receptions == [0, 1] && !Recording(s)
            && IsRun(timeout, s, steps) && Silent(steps)
            && var s' := Run(timeout, s, steps);
               s'.receptions == s.receptions && 0 in s'.readers && s'.readers[0] == TimedOut(s.now + 2 * timeout - 1)
  {
    hide IsRun, Run;
    start, before := ReachesLateStart(timeout);
    var end;
    steps, end := LateTimeout(timeout);
  }

  lemma Stop(timeout: nat, s: State)
    ensures IsRun(timeout, s, []) && Run(timeout, s, []) == s
  {
  }
}
