/** The resolver as a concurrent system: the update loop, any number of refreshers, readers behind the startup gate. */
module ResolverSystem {
  import opened Bytes
  import opened Replicas
  import opened Resolve

  const THROTTLE: nat := 1_000_000_000 // nanoseconds between refreshes

  /** Where a caller of updateMasterAddress is; the lock phases are those of RefreshAddresses. */
  datatype Pc =
    | Idle
    | Waiting              // past the gate, waiting for refreshLock
    | Locked               // holds refreshLock, throttle not yet checked
    | Cleared              // throttle check passed
    | Resolving            // resolveMasterAddress is running
    | Resolved(addr: TCPAddr)
    | Tracking             // resolveReplicaAddresses is running
    | Tracked(list: seq<Replica>)
    | Leaving              // about to release refreshLock

  /** What a reader got, with the facts of that moment. */
  datatype ReadResult = ReadResult(addr: string, initialFailed: bool, published: bool)

  /** One master resolve: what Sentinel replied, what the world answered then, and the address it led to. */
  datatype Validation = Validation(oracle: Oracle, reply: Option<seq<string>>, addr: TCPAddr)

  /** One replica resolve: what Sentinel replied, and what names and nodes answered then. */
  datatype Probe = Probe(oracle: Oracle, reply: seq<Entry>)

  /** The resolver's fields, and the history the properties speak about. */
  datatype Fields = Fields(
    now: int,
    gate: bool,                    // initialMasterResolveLock is closed
    master: string,
    replicas: seq<Replica>,
    lock: Option<nat>,             // holder of refreshLock
    lastRefresh: Option<int>,      // none stands for the zero time
    loopOk: bool,                  // the loop's last resolve returned nil
    loopTried: bool,
    initialFailed: bool,
    published: bool,               // some resolve has set the master
    validated: seq<Validation>,    // successful master resolves
    probes: seq<Probe>,            // Sentinel replies that replica lists were built from
    starts: seq<int>,              // when refresh-triggered resolves started
    results: seq<ReadResult>)

  /** Thread 0 is the update loop, the others are refreshers. */
  datatype State = State(pc: map<nat, Pc>, f: Fields)

  function At(s: State, t: nat): Pc { if t in s.pc then s.pc[t] else Idle }

  const LOOP: nat := 0

  datatype Step =
    | Advance(dt: nat)
    | Begin(t: nat)                          // RefreshAddresses finds the gate open
    | Acquire(t: nat)
    | Check(t: nat)
    | Start(t: nat)
    | LoopResolve
    | ResolveFails(t: nat, oracle: Oracle, reply: Option<seq<string>>)
    | ResolveOk(t: nat, v: Validation)
    | SetMaster(t: nat)
    | TrackFails(t: nat)
    | TrackOk(t: nat, probe: Probe, list: seq<Replica>)
    | SetReplicas(t: nat)
    | Release(t: nat)
    | OpenGate(failed: bool)
    | Read

  predicate Throttled(f: Fields) { f.lastRefresh.Some? && f.now - f.lastRefresh.value < THROTTLE }

  predicate Genuine(v: Validation) { ResolveMaster(v.oracle, v.reply) == Good(v.addr) }

  ghost predicate Enabled(s: State, step: Step) {
    match step
    case Advance(_) => true
    case Begin(t) => t != LOOP && At(s, t) == Idle && s.f.gate
    case Acquire(t) => At(s, t) == Waiting && s.f.lock == None
    case Check(t) => At(s, t) == Locked
    case Start(t) => At(s, t) == Cleared
    // The loop goes on after a successful initial resolve, or retries before the gate opens.
    case LoopResolve => At(s, LOOP) == Idle && (if s.f.gate then !s.f.initialFailed else !s.f.loopOk)
    case ResolveFails(t, oracle, reply) => At(s, t) == Resolving && !ResolveMaster(oracle, reply).Good?
    case ResolveOk(t, v) => At(s, t) == Resolving && Genuine(v)
    case SetMaster(t) => At(s, t).Resolved?
    case TrackFails(t) => At(s, t) == Tracking
    case TrackOk(t, probe, list) => At(s, t) == Tracking && Snapshot(probe.oracle, probe.reply, list)
    case SetReplicas(t) => At(s, t).Tracked?
    case Release(t) => At(s, t) == Leaving
    case OpenGate(failed) => !s.f.gate && At(s, LOOP) == Idle && s.f.loopTried && failed == !s.f.loopOk
    case Read => s.f.gate
  }

  function Actor(step: Step): Option<nat> {
    match step
    case Advance(_) => None
    case OpenGate(_) => None
    case Read => None
    case LoopResolve => Some(LOOP)
    case _ => Some(step.t)
  }

  /** Where updateMasterAddress returns to. */
  function Back(t: nat): Pc { if t == LOOP then Idle else Leaving }

  function NextPc(track: bool, f: Fields, step: Step): Pc {
    match step
    case Begin(_) => Waiting
    case Acquire(_) => Locked
    case Check(_) => if Throttled(f) then Leaving else Cleared
    case Start(_) => Resolving
    case LoopResolve => Resolving
    case ResolveOk(_, v) => Resolved(v.addr)
    case SetMaster(t) => if track then Tracking else Back(t)
    case TrackFails(_) => Tracked([])
    case TrackOk(_, _, list) => Tracked(list)
    case ResolveFails(t, _, _) => Back(t)
    case SetReplicas(t) => Back(t)
    case _ => Idle
  }

  /** A call of updateMasterAddress by t returns. */
  function Returned(f: Fields, t: nat, ok: bool): Fields {
    if t == LOOP then f.(loopOk := ok, loopTried := true) else f
  }

  function Effect(track: bool, f: Fields, step: Step, p: Pc): Fields {
    match step
    case Advance(dt) => f.(now := f.now + dt)
    case Acquire(t) => f.(lock := Some(t))
    case Start(_) => f.(lastRefresh := Some(f.now), starts := f.starts + [f.now])
    case ResolveFails(t, _, _) => Returned(f, t, false)
    case ResolveOk(_, v) => f.(validated := f.validated + [v])
    case SetMaster(t) =>
      var f' := f.(master := if p.Resolved? then AddrText(p.addr) else "", published := true);
      if track then f' else Returned(f', t, true)
    case TrackOk(_, probe, _) => f.(probes := f.probes + [probe])
    case SetReplicas(t) => Returned(f.(replicas := if p.Tracked? then p.list else []), t, true)
    case Release(_) => f.(lock := None)
    case OpenGate(failed) => f.(gate := true, initialFailed := failed)
    case Read => f.(results := f.results + [ReadResult(f.master, f.initialFailed, f.published)])
    case _ => f
  }

  function Apply(track: bool, s: State, step: Step): State {
    var a := Actor(step);
    State(if a.Some? then s.pc[a.value := NextPc(track, s.f, step)] else s.pc,
          Effect(track, s.f, step, if a.Some? then At(s, a.value) else Idle))
  }

  function Init(now: int): State {
    State(map[], Fields(now, false, "", [], None, None, false, false, false, false, [], [], [], []))
  }

  ghost predicate IsRun(track: bool, s: State, steps: seq<Step>)
    decreases |steps|
  {
    steps != [] ==> Enabled(s, steps[0]) && IsRun(track, Apply(track, s, steps[0]), steps[1..])
  }

  ghost function Run(track: bool, s: State, steps: seq<Step>): State
    requires IsRun(track, s, steps)
    decreases |steps|
  {
    if steps == [] then s else Run(track, Apply(track, s, steps[0]), steps[1..])
  }

  // Invariants.

  /** Phases in which a refresher holds refreshLock. */
  predicate InLock(p: Pc) { p != Idle && p != Waiting }

  ghost predicate LockInv(s: State) {
    && (forall t: nat :: t != LOOP ==> (InLock(At(s, t)) <==> s.f.lock == Some(t)))
    && (forall t: nat :: t != LOOP && At(s, t) != Idle ==> s.f.gate)
    && At(s, LOOP) !in {Waiting, Locked, Cleared, Leaving}
    && s.f.lock != Some(LOOP)
  }

  /** What stands behind a published master address, in Sentinel's and the node's own terms. */
  predicate Confirmed(v: Validation) { Confirms(v.oracle, v.reply, v.addr) }

  lemma GenuineIsConfirmed(v: Validation)
    ensures Genuine(v) <==> Confirmed(v)
  {
    hide ResolveMaster, Confirms;
    ResolveMasterIff(v.oracle, v.reply);
  }

  ghost predicate Validated(vs: seq<Validation>, addr: string) {
    exists k :: 0 <= k < |vs| && Genuine(vs[k]) && AddrText(vs[k].addr) == addr
  }

  lemma ValidationAdded(vs: seq<Validation>, v: Validation)
    ensures forall addr :: Validated(vs, addr) ==> Validated(vs + [v], addr)
    ensures Genuine(v) ==> Validated(vs + [v], AddrText(v.addr))
  {
    hide Genuine, AddrText;
    var more := vs + [v];
    forall addr | Validated(vs, addr) ensures Validated(more, addr) {
      var k :| 0 <= k < |vs| && Genuine(vs[k]) && AddrText(vs[k].addr) == addr;
      assert more[k] == vs[k];
    }
    assert more[|vs|] == v;
  }

  ghost predicate ResultOk(r: ReadResult, vs: seq<Validation>) {
    if r.addr == "" then r.initialFailed && !r.published else Validated(vs, r.addr)
  }

  ghost predicate GateInv(s: State) {
    && (s.f.master == "" <==> !s.f.published)
    && (forall t: nat :: At(s, t) == Tracking || At(s, t).Tracked? ==> s.f.published)
    && (s.f.loopOk ==> s.f.published)
    && (s.f.gate && !s.f.initialFailed ==> s.f.published)
  }

  ghost predicate MasterInv(s: State) {
    && (s.f.master != "" ==> Validated(s.f.validated, s.f.master))
    && (forall t: nat :: At(s, t).Resolved? ==> Validated(s.f.validated, AddrText(At(s, t).addr)))
    && (forall r :: r in s.f.results ==> ResultOk(r, s.f.validated))
  }

  ghost predicate FromProbe(probes: seq<Probe>, list: seq<Replica>) {
    list == [] || exists k :: 0 <= k < |probes| && Snapshot(probes[k].oracle, probes[k].reply, list)
  }

  ghost predicate ReplicaInv(s: State) {
    && FromProbe(s.f.probes, s.f.replicas)
    && (forall t: nat :: At(s, t).Tracked? ==> FromProbe(s.f.probes, At(s, t).list))
  }

  ghost predicate Spaced(starts: seq<int>) {
    forall i :: 0 < i < |starts| ==> starts[i] - starts[i - 1] >= THROTTLE
  }

  ghost predicate ThrottleInv(s: State) {
    && Spaced(s.f.starts)
    && s.f.lastRefresh == (if s.f.starts == [] then None else Some(s.f.starts[|s.f.starts| - 1]))
    && (s.f.lastRefresh.Some? ==> s.f.lastRefresh.value <= s.f.now)
    && (forall t: nat :: At(s, t) == Cleared ==> !Throttled(s.f))
  }

  /** A step moves its own thread only. */
  lemma OneMoves(track: bool, s: State, step: Step)
    ensures forall u: nat ::
              At(Apply(track, s, step), u) == if Actor(step) == Some(u) then NextPc(track, s.f, step) else At(s, u)
  {
    hide NextPc, Effect, Actor;
  }

  lemma LockStep(track: bool, s: State, step: Step)
    requires LockInv(s) && Enabled(s, step)
    ensures LockInv(Apply(track, s, step))
  {
    hide At, Snapshot, Genuine, ResolveMaster, AddrText;
    OneMoves(track, s, step);
  }

  lemma GateStep(track: bool, s: State, step: Step)
    requires GateInv(s) && Enabled(s, step)
    ensures GateInv(Apply(track, s, step))
  {
    hide At, Snapshot, Genuine, ResolveMaster, AddrText;
    OneMoves(track, s, step);
  }

  lemma MasterStep(track: bool, s: State, step: Step)
    requires GateInv(s) && MasterInv(s) && Enabled(s, step)
    ensures MasterInv(Apply(track, s, step))
  {
    hide At, Snapshot, Validated, Genuine, ResolveMaster, AddrText;
    OneMoves(track, s, step);
    if step.ResolveOk? {
      ValidationAdded(s.f.validated, step.v);
    }
  }

  lemma ProbeAdded(probes: seq<Probe>, probe: Probe)
    ensures forall list :: FromProbe(probes, list) ==> FromProbe(probes + [probe], list)
    ensures forall list :: Snapshot(probe.oracle, probe.reply, list) ==> FromProbe(probes + [probe], list)
  {
    hide Snapshot;
    var more := probes + [probe];
    forall list | FromProbe(probes, list) ensures FromProbe(more, list) {
      if list != [] {
        var k :| 0 <= k < |probes| && Snapshot(probes[k].oracle, probes[k].reply, list);
        assert more[k] == probes[k];
      }
    }
    assert more[|probes|] == probe;
  }

  lemma ReplicaStep(track: bool, s: State, step: Step)
    requires ReplicaInv(s) && Enabled(s, step)
    ensures ReplicaInv(Apply(track, s, step))
  {
    hide At, Snapshot, FromProbe, Genuine, ResolveMaster, AddrText;
    OneMoves(track, s, step);
    if step.TrackOk? {
      ProbeAdded(s.f.probes, step.probe);
    }
    assert FromProbe(s.f.probes, []) by { NothingPublished(s.f.probes); }
  }

  lemma NothingPublished(probes: seq<Probe>)
    ensures FromProbe(probes, [])
  {
  }

  lemma ThrottleStep(track: bool, s: State, step: Step)
    requires LockInv(s) && ThrottleInv(s) && Enabled(s, step)
    ensures ThrottleInv(Apply(track, s, step))
  {
    hide At, Snapshot, Genuine, ResolveMaster, AddrText;
    OneMoves(track, s, step);
  }

  ghost predicate Inv(s: State) {
    LockInv(s) && GateInv(s) && MasterInv(s) && ReplicaInv(s) && ThrottleInv(s)
  }

  lemma {:induction false} InvHolds(track: bool, s: State, steps: seq<Step>)
    requires Inv(s) && IsRun(track, s, steps)
    ensures Inv(Run(track, s, steps))
    decreases |steps|
  {
    hide LockInv, GateInv, MasterInv, ReplicaInv, ThrottleInv, Enabled, Apply;
    if steps != [] {
      LockStep(track, s, steps[0]);
      GateStep(track, s, steps[0]);
      MasterStep(track, s, steps[0]);
      ReplicaStep(track, s, steps[0]);
      ThrottleStep(track, s, steps[0]);
      InvHolds(track, Apply(track, s, steps[0]), steps[1..]);
    }
  }

  lemma ReachableInv(track: bool, now: int, steps: seq<Step>)
    requires IsRun(track, Init(now), steps)
    ensures Inv(Run(track, Init(now), steps))
  {
    hide IsRun, Run;
    assert FromProbe([], []);
    InvHolds(track, Init(now), steps);
  }

  /**
   * In every interleaving, whatever MasterAddress ever returned is the text of an address that Sentinel reported, under
   * a host that is no placeholder, and that answered ROLE with "master"; or it was empty, which happens only when the
   * initial resolve failed and no resolve had published a master by then.
   */
  lemma MasterAddressSafe(track: bool, now: int, steps: seq<Step>)
    requires IsRun(track, Init(now), steps)
    ensures var f := Run(track, Init(now), steps).f;
            forall r :: r in f.results ==>
              if r.addr == "" then r.initialFailed && !r.published
              else exists k :: 0 <= k < |f.validated| && Confirmed(f.validated[k]) &&
                     AddrText(f.validated[k].addr) == r.addr
  {
    hide IsRun, Run, LockInv, GateInv, ReplicaInv, ThrottleInv, Genuine, Confirmed;
    ReachableInv(track, now, steps);
    forall v {
      GenuineIsConfirmed(v);
    }
  }

  /** The list holds exactly the replicas that the entries of one Sentinel reply stand for. */
  ghost predicate Lists(probe: Probe, list: seq<Replica>) {
    forall r :: r in list <==>
      exists i :: 0 <= i < |probe.reply| && StandsFor(probe.oracle, probe.reply[i], r)
  }

  lemma SnapshotLists(probe: Probe, list: seq<Replica>)
    requires Snapshot(probe.oracle, probe.reply, list)
    ensures Lists(probe, list)
  {
    hide Snapshot, StandsFor;
    forall r {
      PublishedExactly(probe.oracle, probe.reply, list, r);
    }
  }

  /**
   * Every published replica list is empty or the sorted filter of a single Sentinel reply: exactly the replicas that
   * its entries stand for, none of them flagged, with its link down, at an unusable address, or in another role.
   */
  lemma ReplicaListSafe(track: bool, now: int, steps: seq<Step>)
    requires IsRun(track, Init(now), steps)
    ensures var f := Run(track, Init(now), steps).f;
            && FromProbe(f.probes, f.replicas)
            && (f.replicas != [] ==> exists k :: 0 <= k < |f.probes| && Lists(f.probes[k], f.replicas))
  {
    hide IsRun, Run, LockInv, GateInv, MasterInv, ThrottleInv, Snapshot, Lists;
    ReachableInv(track, now, steps);
    var f := Run(track, Init(now), steps).f;
    if f.replicas != [] {
      var k :| 0 <= k < |f.probes| && Snapshot(f.probes[k].oracle, f.probes[k].reply, f.replicas);
      SnapshotLists(f.probes[k], f.replicas);
    }
  }

  ghost predicate Untracked(s: State) {
    s.f.replicas == [] && forall t: nat :: At(s, t) != Tracking && !At(s, t).Tracked?
  }

  lemma UntrackedStep(s: State, step: Step)
    requires Untracked(s) && Enabled(s, step)
    ensures Untracked(Apply(false, s, step))
  {
    hide At, Snapshot, Genuine, ResolveMaster, AddrText;
    OneMoves(false, s, step);
  }

  lemma {:induction false} UntrackedRun(s: State, steps: seq<Step>)
    requires Untracked(s) && IsRun(false, s, steps)
    ensures Untracked(Run(false, s, steps))
    decreases |steps|
  {
    hide Untracked, Enabled, Apply;
    if steps != [] {
      UntrackedStep(s, steps[0]);
      UntrackedRun(Apply(false, s, steps[0]), steps[1..]);
    }
  }

  /**
   * Replicas are tracked only for a replica endpoint of their own. Without one no run ever publishes a replica, so a
   * router has none to read from.
   */
  lemma NoReplicasUntracked(now: int, steps: seq<Step>)
    requires IsRun(false, Init(now), steps)
    ensures Run(false, Init(now), steps).f.replicas == []
  {
    hide IsRun, Run;
    UntrackedRun(Init(now), steps);
  }

  /** With one, every list that a Sentinel reply allows is published by some run, behind any confirmed master. */
  lemma ReplicasTracked(now: int, v: Validation, probe: Probe, list: seq<Replica>) returns (steps: seq<Step>)
    requires Genuine(v) && Snapshot(probe.oracle, probe.reply, list)
    ensures IsRun(true, Init(now), steps)
    ensures var f := Run(true, Init(now), steps).f; f.replicas == list && f.master == AddrText(v.addr)
  {
    hide Snapshot, Genuine, ResolveMaster, AddrText, IsRun, Run;
    steps := [LoopResolve, ResolveOk(LOOP, v), SetMaster(LOOP), TrackOk(LOOP, probe, list), SetReplicas(LOOP)];
    var s0 := Init(now);
    var s1 := Apply(true, s0, steps[0]);
    var s2 := Apply(true, s1, steps[1]);
    var s3 := Apply(true, s2, steps[2]);
    var s4 := Apply(true, s3, steps[3]);
    assert steps[5..] == [] && steps[0..] == steps;
    Stop(true, Apply(true, s4, steps[4]));
    Prepend(true, s4, steps, 4);
    Prepend(true, s3, steps, 3);
    Prepend(true, s2, steps, 2);
    Prepend(true, s1, steps, 1);
    Prepend(true, s0, steps, 0);
  }

  lemma Stop(track: bool, s: State)
    ensures IsRun(track, s, []) && Run(track, s, []) == s
  {
  }

  lemma Prepend(track: bool, s: State, steps: seq<Step>, k: nat)
    requires k < |steps| && Enabled(s, steps[k]) && IsRun(track, Apply(track, s, steps[k]), steps[k + 1..])
    ensures IsRun(track, s, steps[k..])
    ensures Run(track, s, steps[k..]) == Run(track, Apply(track, s, steps[k]), steps[k + 1..])
  {
    hide Enabled, Apply;
    assert steps[k..][1..] == steps[k + 1..] && steps[k..][0] == steps[k];
  }

  // Who publishes.

  lemma {:induction false} RunSnoc(track: bool, s: State, steps: seq<Step>, step: Step)
    requires IsRun(track, s, steps + [step])
    ensures IsRun(track, s, steps) && Enabled(Run(track, s, steps), step)
    ensures Run(track, s, steps + [step]) == Apply(track, Run(track, s, steps), step)
    decreases |steps|
  {
    hide Enabled, Apply;
    if steps == [] {
      assert steps + [step] == [step];
    } else {
      assert (steps + [step])[1..] == steps[1..] + [step];
      RunSnoc(track, Apply(track, s, steps[0]), steps[1..], step);
    }
  }

  lemma {:induction false} PrefixIsRun(track: bool, s: State, steps: seq<Step>, i: nat)
    requires IsRun(track, s, steps) && i <= |steps|
    ensures IsRun(track, s, steps[..i])
    decreases |steps|
  {
    hide IsRun, Run, Enabled;
    if i < |steps| {
      var n := |steps| - 1;
      assert steps[..n] + [steps[n]] == steps;
      RunSnoc(track, s, steps[..n], steps[n]);
      PrefixIsRun(track, s, steps[..n], i);
      assert steps[..n][..i] == steps[..i];
    } else {
      assert steps[..i] == steps;
    }
  }

  /** Thread t begins a resolve, or ends one. */
  predicate Restarts(step: Step, t: nat) {
    || (step.Start? && step.t == t) || (step.LoopResolve? && t == LOOP)
    || (step.ResolveFails? && step.t == t) || (step.ResolveOk? && step.t == t)
  }

  /** The last resolve of thread t in `steps` is the one that succeeded at step j. */
  ghost predicate Credited(steps: seq<Step>, t: nat, j: int) {
    && 0 <= j < |steps| && steps[j].ResolveOk? && steps[j].t == t
    && forall k :: j < k < |steps| ==> !Restarts(steps[k], t)
  }

  ghost predicate CreditOk(steps: seq<Step>, t: nat, p: Pc) {
    p.Resolved? || p == Tracking || p.Tracked? ==>
      exists j :: CreditFor(steps, t, j, p)
  }

  ghost predicate CreditFor(steps: seq<Step>, t: nat, j: int, p: Pc) {
    Credited(steps, t, j) && (p.Resolved? ==> p.addr == steps[j].v.addr)
  }

  lemma CreditKept(steps: seq<Step>, t: nat, j: int, p: Pc, step: Step)
    requires CreditFor(steps, t, j, p) && !Restarts(step, t)
    ensures CreditFor(steps + [step], t, j, p)
  {
  }

  lemma CreditGiven(steps: seq<Step>, step: Step)
    requires step.ResolveOk?
    ensures CreditFor(steps + [step], step.t, |steps|, Resolved(step.v.addr))
  {
  }

  lemma CreditPassedOn(steps: seq<Step>, t: nat, j: int, p: Pc, q: Pc)
    requires CreditFor(steps, t, j, p) && !q.Resolved?
    ensures CreditFor(steps, t, j, q)
  {
  }

  lemma CreditStep(track: bool, s: State, steps: seq<Step>, step: Step, t: nat)
    requires Enabled(s, step) && CreditOk(steps, t, At(s, t))
    ensures CreditOk(steps + [step], t, At(Apply(track, s, step), t))
  {
    hide At, Snapshot, Genuine, ResolveMaster, CreditFor, Effect;
    OneMoves(track, s, step);
    var p, q := At(s, t), At(Apply(track, s, step), t);
    if step.ResolveOk? {
      CreditGiven(steps, step);
    }
    if (p.Resolved? || p == Tracking || p.Tracked?) && !Restarts(step, t) {
      var j :| CreditFor(steps, t, j, p);
      CreditKept(steps, t, j, p, step);
      if !q.Resolved? {
        CreditPassedOn(steps + [step], t, j, p, q);
      }
    }
  }

  lemma {:induction false} CreditHolds(track: bool, now: int, steps: seq<Step>)
    requires IsRun(track, Init(now), steps)
    ensures forall t: nat :: CreditOk(steps, t, At(Run(track, Init(now), steps), t))
    decreases |steps|
  {
    hide IsRun, Enabled, Apply, CreditOk;
    if steps == [] {
      assert forall t: nat :: CreditOk([], t, Idle) by { NoCredit(); }
      StartsIdle(track, now);
    } else {
      var n := |steps| - 1;
      var init, last := steps[..n], steps[n];
      assert init + [last] == steps;
      RunSnoc(track, Init(now), init, last);
      CreditHolds(track, now, init);
      forall t: nat ensures CreditOk(steps, t, At(Run(track, Init(now), steps), t)) {
        CreditStep(track, Run(track, Init(now), init), init, last, t);
      }
    }
  }

  lemma NoCredit()
    ensures forall t: nat :: CreditOk([], t, Idle)
  {
  }

  lemma StartsIdle(track: bool, now: int)
    ensures IsRun(track, Init(now), []) && Run(track, Init(now), []) == Init(now)
    ensures forall t: nat :: At(Init(now), t) == Idle
  {
  }

  /** Only these two steps write what readers see, and neither writes the other's part. */
  lemma Writers(track: bool, f: Fields, step: Step, p: Pc)
    ensures !step.SetMaster? ==> Effect(track, f, step, p).master == f.master
    ensures !step.SetReplicas? ==> Effect(track, f, step, p).replicas == f.replicas
    ensures step.SetMaster? && p.Resolved? ==> Effect(track, f, step, p).master == AddrText(p.addr)
  {
    hide AddrText;
  }

  /**
   * A failed master resolve changes nothing. In every run, each write of the master or of the replica list follows a
   * successful resolve of the same caller, with no other resolve of that caller begun or failed in between; the master
   * written is the one that resolve confirmed; and nothing else changes either of the two.
   */
  lemma OnlySuccessPublishes(track: bool, now: int, steps: seq<Step>, i: nat)
    requires IsRun(track, Init(now), steps) && i < |steps|
    ensures IsRun(track, Init(now), steps[..i]) && IsRun(track, Init(now), steps[..i + 1])
    ensures steps[i].SetMaster? || steps[i].SetReplicas? ==>
              exists j :: Credited(steps[..i], steps[i].t, j) && Genuine(steps[j].v) &&
                (steps[i].SetMaster? ==> Run(track, Init(now), steps[..i + 1]).f.master == AddrText(steps[j].v.addr))
    ensures var f, f' := Run(track, Init(now), steps[..i]).f, Run(track, Init(now), steps[..i + 1]).f;
            (f'.master != f.master ==> steps[i].SetMaster?) && (f'.replicas != f.replicas ==> steps[i].SetReplicas?)
  {
    hide IsRun, Run, Snapshot, Effect, NextPc, Genuine, ResolveMaster, AddrText, Credited;
    PrefixIsRun(track, Init(now), steps, i);
    PrefixIsRun(track, Init(now), steps, i + 1);
    assert steps[..i] + [steps[i]] == steps[..i + 1];
    RunSnoc(track, Init(now), steps[..i], steps[i]);
    var s := Run(track, Init(now), steps[..i]);
    Writers(track, s.f, steps[i], if Actor(steps[i]).Some? then At(s, Actor(steps[i]).value) else Idle);
    CreditHolds(track, now, steps[..i]);
    if steps[i].SetMaster? || steps[i].SetReplicas? {
      var t := steps[i].t;
      assert CreditOk(steps[..i], t, At(s, t));
      var j :| CreditFor(steps[..i], t, j, At(s, t));
      CreditIsGenuine(track, now, steps, i, t, j);
    }
  }

  lemma CreditIsGenuine(track: bool, now: int, steps: seq<Step>, i: nat, t: nat, j: int)
    requires IsRun(track, Init(now), steps) && i <= |steps| && Credited(steps[..i], t, j)
    ensures 0 <= j < i && steps[..i][j] == steps[j] && steps[j].ResolveOk? && Genuine(steps[j].v)
  {
    hide IsRun, Run, Genuine;
    PrefixIsRun(track, Init(now), steps, j + 1);
    assert steps[..j] + [steps[j]] == steps[..j + 1];
    RunSnoc(track, Init(now), steps[..j], steps[j]);
  }

  /** Thread t is told what the replicas are. */
  predicate Tracks(step: Step, t: nat) { (step.TrackOk? || step.TrackFails?) && step.t == t }

  /** The last replica resolve of t in `steps`, at step j, gave this list: none if it failed. */
  ghost predicate TrackedBy(steps: seq<Step>, t: nat, j: int, list: seq<Replica>) {
    && 0 <= j < |steps| && Tracks(steps[j], t)
    && list == (if steps[j].TrackOk? then steps[j].list else [])
    && forall k :: j < k < |steps| ==> !Tracks(steps[k], t)
  }

  ghost predicate TrackedOk(steps: seq<Step>, t: nat, p: Pc) {
    p.Tracked? ==> exists j :: TrackedBy(steps, t, j, p.list)
  }

  lemma TrackKept(steps: seq<Step>, t: nat, j: int, list: seq<Replica>, step: Step)
    requires TrackedBy(steps, t, j, list) && !Tracks(step, t)
    ensures TrackedBy(steps + [step], t, j, list)
  {
  }

  lemma TrackGiven(steps: seq<Step>, step: Step, t: nat)
    requires Tracks(step, t)
    ensures TrackedBy(steps + [step], t, |steps|, if step.TrackOk? then step.list else [])
  {
  }

  lemma TrackedStep(track: bool, s: State, steps: seq<Step>, step: Step, t: nat)
    requires Enabled(s, step) && TrackedOk(steps, t, At(s, t))
    ensures TrackedOk(steps + [step], t, At(Apply(track, s, step), t))
  {
    hide At, Snapshot, Genuine, ResolveMaster, TrackedBy, Effect;
    OneMoves(track, s, step);
    if Tracks(step, t) {
      TrackGiven(steps, step, t);
    } else if At(s, t).Tracked? {
      var j :| TrackedBy(steps, t, j, At(s, t).list);
      TrackKept(steps, t, j, At(s, t).list, step);
    }
  }

  lemma {:induction false} TrackedHolds(track: bool, now: int, steps: seq<Step>)
    requires IsRun(track, Init(now), steps)
    ensures forall t: nat :: TrackedOk(steps, t, At(Run(track, Init(now), steps), t))
    decreases |steps|
  {
    hide IsRun, Enabled, Apply;
    if steps == [] {
      StartsIdle(track, now);
    } else {
      var n := |steps| - 1;
      var init, last := steps[..n], steps[n];
      assert init + [last] == steps;
      RunSnoc(track, Init(now), init, last);
      TrackedHolds(track, now, init);
      forall t: nat ensures TrackedOk(steps, t, At(Run(track, Init(now), steps), t)) {
        TrackedStep(track, Run(track, Init(now), init), init, last, t);
      }
    }
  }

  predicate Refreshing(p: Pc) { p == Resolving || p.Resolved? || p == Tracking || p.Tracked? }

  /** Where and how one step lets a call of updateMasterAddress return. */
  lemma Returns(track: bool, s: State, step: Step, t: nat)
    requires Enabled(s, step)
    requires Refreshing(At(s, t)) && !Refreshing(At(Apply(track, s, step), t))
    ensures Actor(step) == Some(t) && (step.ResolveFails? || (step.SetMaster? && !track) || step.SetReplicas?)
    ensures var f := Apply(track, s, step).f;
            (t == LOOP ==> f.loopTried && f.loopOk == !step.ResolveFails?) && (t != LOOP ==> f.loopOk == s.f.loopOk)
    ensures step.SetReplicas? ==> At(s, t).Tracked? && Apply(track, s, step).f.replicas == At(s, t).list
  {
    hide At, Snapshot, Genuine, ResolveMaster, AddrText, Throttled;
    OneMoves(track, s, step);
  }

  /**
   * A call of updateMasterAddress ends in one of three ways: its master resolve failed; or, without tracking, it has
   * set the master; or, with tracking, it has set the replicas too, to what its own last replica resolve gave, and to
   * none if that failed. The update loop is told of a failure exactly in the first case.
   */
  lemma CallEnds(track: bool, now: int, steps: seq<Step>, i: nat, t: nat)
    requires IsRun(track, Init(now), steps) && i < |steps|
    ensures IsRun(track, Init(now), steps[..i]) && IsRun(track, Init(now), steps[..i + 1])
    ensures var s, s' := Run(track, Init(now), steps[..i]), Run(track, Init(now), steps[..i + 1]);
            Refreshing(At(s, t)) && !Refreshing(At(s', t)) ==>
              && Actor(steps[i]) == Some(t)
              && (steps[i].ResolveFails? || (steps[i].SetMaster? && !track) || steps[i].SetReplicas?)
              && (steps[i].SetReplicas? ==> exists j :: TrackedBy(steps[..i], t, j, s'.f.replicas))
              && (t == LOOP ==> s'.f.loopTried && s'.f.loopOk == !steps[i].ResolveFails?)
  {
    hide IsRun, Run, Snapshot, Apply, Enabled, TrackedBy, At;
    PrefixIsRun(track, Init(now), steps, i);
    PrefixIsRun(track, Init(now), steps, i + 1);
    assert steps[..i] + [steps[i]] == steps[..i + 1];
    RunSnoc(track, Init(now), steps[..i], steps[i]);
    TrackedHolds(track, now, steps[..i]);
    var s := Run(track, Init(now), steps[..i]);
    if Refreshing(At(s, t)) && !Refreshing(At(Apply(track, s, steps[i]), t)) {
      Returns(track, s, steps[i], t);
      assert TrackedOk(steps[..i], t, At(s, t));
    }
  }

  /**
   * A refresh is turned away only if another started less than a throttle ago; otherwise it resolves. So the first
   * one after startup always does.
   */
  lemma RefreshDecision(track: bool, now: int, steps: seq<Step>, t: nat)
    requires IsRun(track, Init(now), steps) && At(Run(track, Init(now), steps), t) == Locked
    ensures var s := Run(track, Init(now), steps);
            && Enabled(s, Check(t))
            && var s' := Apply(track, s, Check(t));
               if s.f.starts == [] || s.f.now - s.f.starts[|s.f.starts| - 1] >= THROTTLE
               then Enabled(s', Start(t)) && At(Apply(track, s', Start(t)), t) == Resolving
               else At(s', t) == Leaving
  {
    hide IsRun, Run, LockInv, GateInv, MasterInv, ReplicaInv;
    ReachableInv(track, now, steps);
  }

  /**
   * A refresh does its work: after any run that leaves the gate open and refreshLock free, and no refresh started less
   * than a throttle ago, a caller can publish whatever master is confirmed then, and readers get it.
   */
  lemma RefreshPublishes(track: bool, now: int, steps: seq<Step>, v: Validation, t: nat) returns (more: seq<Step>)
    requires Genuine(v) && t != LOOP && IsRun(track, Init(now), steps)
    requires var s := Run(track, Init(now), steps);
             && s.f.gate && s.f.lock == None && At(s, t) == Idle
             && (s.f.starts == [] || s.f.now - s.f.starts[|s.f.starts| - 1] >= THROTTLE)
    ensures var s := Run(track, Init(now), steps);
            && IsRun(track, s, more) && StepsBy(more, t)
            && Run(track, s, more).f.results == s.f.results + [ReadResult(AddrText(v.addr), s.f.initialFailed, true)]
  {
    hide Genuine, AddrText, IsRun, Run, LockInv, GateInv, MasterInv, ReplicaInv;
    ReachableInv(track, now, steps);
    var s := Run(track, Init(now), steps);
    var a := Obtains(track, s, t);
    var b := ResolvesAndShows(track, Run(track, s, a), t, v);
    RunConcat(track, s, a, b);
    more := a + b;
  }

  /** The update loop goes on like that for ever once the initial resolve has succeeded, and never if it has failed. */
  lemma LoopPublishes(track: bool, now: int, steps: seq<Step>, v: Validation) returns (more: seq<Step>)
    requires Genuine(v) && IsRun(track, Init(now), steps)
    requires var s := Run(track, Init(now), steps); s.f.gate && At(s, LOOP) == Idle
    ensures var s := Run(track, Init(now), steps);
            if s.f.initialFailed then !Enabled(s, LoopResolve)
            else && IsRun(track, s, more) && StepsBy(more, LOOP)
                 && Run(track, s, more).f.results == s.f.results + [ReadResult(AddrText(v.addr), false, true)]
  {
    hide Genuine, AddrText, IsRun, Run;
    var s := Run(track, Init(now), steps);
    more := [LoopResolve];
    if !s.f.initialFailed {
      Stop(track, Apply(track, s, LoopResolve));
      assert more[1..] == [] && more[0..] == more;
      Prepend(track, s, more, 0);
      var b := ResolvesAndShows(track, Apply(track, s, LoopResolve), LOOP, v);
      RunConcat(track, s, more, b);
      more := more + b;
    }
  }

  lemma Obtains(track: bool, s: State, t: nat) returns (steps: seq<Step>)
    requires t != LOOP && s.f.gate && s.f.lock == None && At(s, t) == Idle && !Throttled(s.f)
    ensures IsRun(track, s, steps) && StepsBy(steps, t)
    ensures var s' := Run(track, s, steps);
            && At(s', t) == Resolving && s'.f.gate
            && s'.f.initialFailed == s.f.initialFailed && s'.f.results == s.f.results
  {
    hide IsRun, Run;
    steps := [Begin(t), Acquire(t), Check(t), Start(t)];
    var s1 := Apply(track, s, steps[0]);
    var s2 := Apply(track, s1, steps[1]);
    var s3 := Apply(track, s2, steps[2]);
    assert steps[4..] == [] && steps[0..] == steps;
    Stop(track, Apply(track, s3, steps[3]));
    Prepend(track, s3, steps, 3);
    Prepend(track, s2, steps, 2);
    Prepend(track, s1, steps, 1);
    Prepend(track, s, steps, 0);
  }

  lemma ResolvesAndShows(track: bool, s: State, t: nat, v: Validation) returns (steps: seq<Step>)
    requires At(s, t) == Resolving && s.f.gate && Genuine(v)
    ensures IsRun(track, s, steps) && StepsBy(steps, t)
    ensures Run(track, s, steps).f.results == s.f.results + [ReadResult(AddrText(v.addr), s.f.initialFailed, true)]
  {
    hide Genuine, ResolveMaster, AddrText, IsRun, Run;
    steps := [ResolveOk(t, v), SetMaster(t), Read];
    var s1 := Apply(track, s, steps[0]);
    var s2 := Apply(track, s1, steps[1]);
    assert steps[3..] == [] && steps[0..] == steps;
    Stop(track, Apply(track, s2, steps[2]));
    Prepend(track, s2, steps, 2);
    Prepend(track, s1, steps, 1);
    Prepend(track, s, steps, 0);
  }

  lemma {:induction false} RunConcat(track: bool, s: State, a: seq<Step>, b: seq<Step>)
    requires IsRun(track, s, a) && IsRun(track, Run(track, s, a), b)
    ensures IsRun(track, s, a + b) && Run(track, s, a + b) == Run(track, Run(track, s, a), b)
    decreases |a|
  {
    hide Enabled, Apply;
    if a == [] {
      assert a + b == b;
    } else {
      assert (a + b)[1..] == a[1..] + b;
      RunConcat(track, Apply(track, s, a[0]), a[1..], b);
    }
  }

  /** Nobody else moves. */
  predicate StepsBy(steps: seq<Step>, t: nat) {
    forall k :: 0 <= k < |steps| ==> Actor(steps[k]) == Some(t) || steps[k].Read?
  }

  // Every call comes to its end.

  /** Own steps a call still has to take, at most. */
  function Rank(p: Pc): nat {
    match p
    case Idle => 0
    case Leaving => 1
    case Tracked(_) => 2
    case Tracking => 3
    case Resolved(_) => 4
    case Resolving => 5
    case Cleared => 6
    case Locked => 7
    case Waiting => 8
  }

  lemma RankDrops(track: bool, s: State, step: Step, t: nat)
    requires Enabled(s, step) && Actor(step) == Some(t) && !step.Begin? && !step.LoopResolve?
    ensures Rank(At(Apply(track, s, step), t)) < Rank(At(s, t))
    ensures step.Release? ==> Apply(track, s, step).f.lock == None
  {
    hide At, Snapshot, Genuine, ResolveMaster, AddrText, Throttled;
    OneMoves(track, s, step);
  }

  /** Whatever phase a call is in, it has a step to take, but for waiting on refreshLock. */
  lemma HasStep(s: State, t: nat) returns (step: Step)
    requires LockInv(s) && At(s, t) != Idle && (At(s, t) == Waiting ==> s.f.lock == None)
    ensures Enabled(s, step) && Actor(step) == Some(t) && !step.Begin? && !step.LoopResolve?
  {
    hide At, Snapshot, Genuine;
    var o := Oracle(h => None, h => LookupFailed, a => None, (h, p, a) => h);
    step := match At(s, t)
      case Waiting => Acquire(t)
      case Locked => Check(t)
      case Cleared => Start(t)
      case Resolving => ResolveFails(t, o, None)
      case Resolved(_) => SetMaster(t)
      case Tracking => TrackFails(t)
      case Tracked(_) => SetReplicas(t)
      case _ => Release(t);
  }

  /**
   * No deadlock and no endless call: in every reachable state a caller that is not idle has a step to take, or waits
   * for refreshLock while its holder has one; each of its steps brings it nearer its end, so it takes at most eight;
   * and the lock is free again when its holder has left.
   */
  lemma CallsComplete(track: bool, now: int, steps: seq<Step>, t: nat)
    requires IsRun(track, Init(now), steps) && At(Run(track, Init(now), steps), t) != Idle
    ensures var s := Run(track, Init(now), steps);
            exists u: nat, step :: (u == t || s.f.lock == Some(u)) && MovesOn(track, s, step, u)
  {
    hide IsRun, Run, GateInv, MasterInv, ReplicaInv, ThrottleInv, At, Enabled, Apply;
    ReachableInv(track, now, steps);
    var s := Run(track, Init(now), steps);
    var u := if At(s, t) == Waiting && s.f.lock.Some? then s.f.lock.value else t;
    var step := HasStep(s, u);
    RankDrops(track, s, step, u);
    assert MovesOn(track, s, step, u);
  }

  ghost predicate MovesOn(track: bool, s: State, step: Step, t: nat) {
    && Enabled(s, step) && Actor(step) == Some(t)
    && Rank(At(Apply(track, s, step), t)) < Rank(At(s, t)) <= 8
    && (step.Release? ==> Apply(track, s, step).f.lock == None)
  }

  /** Refresh-triggered resolves never overlap each other. */
  lemma RefreshesAreSerial(track: bool, now: int, steps: seq<Step>, t: nat, u: nat)
    requires IsRun(track, Init(now), steps) && t != LOOP && u != LOOP
    requires Refreshing(At(Run(track, Init(now), steps), t)) && Refreshing(At(Run(track, Init(now), steps), u))
    ensures t == u
  {
    hide IsRun, Run, GateInv, MasterInv, ReplicaInv, ThrottleInv, At;
    ReachableInv(track, now, steps);
    var s := Run(track, Init(now), steps);
    assert InLock(At(s, t)) && InLock(At(s, u));
  }

  function CountIn(starts: seq<int>, from: int, to: int): nat {
    if starts == [] then 0 else
      CountIn(starts[..|starts| - 1], from, to) + if from <= starts[|starts| - 1] <= to then 1 else 0
  }

  lemma {:induction false} CountBelow(starts: seq<int>, from: int, to: int)
    requires Spaced(starts) && (starts != [] ==> starts[|starts| - 1] < from)
    ensures CountIn(starts, from, to) == 0
  {
    if starts != [] {
      var init := starts[..|starts| - 1];
      assert forall i :: 0 < i < |init| ==> init[i] - init[i - 1] >= THROTTLE;
      CountBelow(init, from, to);
    }
  }

  /** Starts that are a throttle apart fill a window only so far. */
  lemma {:induction false} CountWindow(starts: seq<int>, from: int, to: int)
    requires Spaced(starts) && from <= to
    ensures (CountIn(starts, from, to) - 1) * THROTTLE <= to - from
    ensures starts != [] && from <= starts[|starts| - 1] <= to ==>
              (CountIn(starts, from, to) - 1) * THROTTLE <= starts[|starts| - 1] - from
  {
    if starts != [] {
      var init := starts[..|starts| - 1];
      assert forall i :: 0 < i < |init| ==> init[i] - init[i - 1] >= THROTTLE;
      CountWindow(init, from, to);
      if from <= starts[|starts| - 1] <= to && init != [] && init[|init| - 1] < from {
        CountBelow(init, from, to);
      }
    }
  }

  /** At most window/1s + 1 refreshes start in any window of so many nanoseconds, however many callers ask. */
  lemma RefreshesAreThrottled(track: bool, now: int, steps: seq<Step>, from: int, window: nat)
    requires IsRun(track, Init(now), steps)
    ensures CountIn(Run(track, Init(now), steps).f.starts, from, from + window) <= window / 1_000_000_000 + 1
  {
    hide IsRun, Run, LockInv, GateInv, MasterInv, ReplicaInv, At;
    ReachableInv(track, now, steps);
    CountWindow(Run(track, Init(now), steps).f.starts, from, from + window);
  }
}
