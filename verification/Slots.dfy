/** Connection slots shared by both listeners, and the life of a session from accept to release. */
module Slots {
  /** One of the two pipe goroutines: not started, copying, offering its signal, or received. */
  datatype PipeState = Off | Copying | Signalling | Done

  datatype Phase =
    | Handshaking
    | Dialing(refreshed: bool)          // connectBackend: first attempt, or the retry after a refresh
    | DialingReplica                    // routed sessions only
    | Routing                           // the command loop
    | Piping                            // waiting for two signals
    | Closing                           // deferred closes run: replica, backend, client, then the slot

  /**
   * An accepted connection with its slot. `backend` is the master, or the picked node of a piped session; `up` and
   * `down` run on their own, whatever the phase; `received` counts signals taken from sigChan.
   */
  datatype Session = Session(
    routed: bool, phase: Phase, client: bool, backend: bool, replica: bool,
    up: PipeState, down: PipeState, received: nat, sigClosed: bool, dials: nat, refreshes: nat)

  function Fresh(routed: bool): Session {
    Session(routed, Handshaking, true, false, false, Off, Off, 0, false, 0, 0)
  }

  /** `limit` 0 is a nil semaphore: unlimited, nothing counted. */
  datatype State = State(tokens: nat, sessions: map<nat, Session>, rejected: nat)

  datatype Step =
    | Accept(id: nat, routed: bool)
    | ShakeHands(id: nat, ok: bool)
    | Dial(id: nat, ok: bool, canRefresh: bool)
    | DialReplica(id: nat, refreshed: bool, known: bool, ok: bool)
    | Stop(id: nat)                       // the command loop returns
    | Pin(id: nat, ok: bool)              // the replica is dropped; unless the write fails, the loop becomes a pipe
    | Signal(id: nat, up: bool)           // a pipe is done copying and offers its signal
    | Join(id: nat, up: bool)             // the session receives it
    | Unwind(id: nat)                     // behind the second receive: close(sigChan)
    | Close(id: nat)                      // the next deferred close
    | Release(id: nat)

  function PipeOf(x: Session, up: bool): PipeState { if up then x.up else x.down }

  /** What can happen to a session as it stands. */
  predicate Ready(x: Session, step: Step) {
    match step
    case Accept(_, _) => false
    case ShakeHands(_, _) => x.phase == Handshaking
    case Dial(_, _, _) => x.phase.Dialing?
    case DialReplica(_, _, _, _) => x.phase == DialingReplica
    case Stop(_) => x.phase == Routing
    case Pin(_, _) => x.phase == Routing
    case Signal(_, up) => PipeOf(x, up) == Copying
    // A rendezvous: the pipe sends on an open channel while the session waits for one of its two signals.
    case Join(_, up) => x.phase == Piping && PipeOf(x, up) == Signalling && x.received < 2 && !x.sigClosed
    case Unwind(_) => x.phase == Piping && x.received == 2
    case Close(_) => x.phase == Closing && x.client
    case Release(_) => x.phase == Closing && !x.client
  }

  predicate Enabled(s: State, step: Step) {
    if step.Accept? then step.id !in s.sessions else step.id in s.sessions && Ready(s.sessions[step.id], step)
  }

  function WithPipe(x: Session, up: bool, q: PipeState): Session { if up then x.(up := q) else x.(down := q) }

  function StartPipes(x: Session): Session { x.(phase := Piping, up := Copying, down := Copying) }

  function AfterDial(x: Session, ok: bool, canRefresh: bool): Session {
    if ok && x.routed then x.(backend := true, phase := DialingReplica)
    else if ok then StartPipes(x.(backend := true))
    else if x.phase == Dialing(false) && canRefresh then x.(phase := Dialing(true), refreshes := x.refreshes + 1)
    else x.(phase := Closing)
  }

  function Next(x: Session, step: Step): Session {
    match step
    case ShakeHands(_, ok) => x.(phase := if ok then Dialing(false) else Closing)
    case Dial(_, ok, canRefresh) => AfterDial(x.(dials := x.dials + 1), ok, canRefresh)
    case DialReplica(_, refreshed, known, ok) =>
      x.(replica := known && ok, phase := Routing, dials := x.dials + (if known then 1 else 0),
         refreshes := x.refreshes + (if refreshed then 1 else 0))
    case Stop(_) => x.(phase := Closing)
    case Pin(_, ok) => if ok then StartPipes(x.(replica := false)) else x.(replica := false, phase := Closing)
    case Signal(_, up) => WithPipe(x, up, Signalling)
    case Join(_, up) => WithPipe(x.(received := x.received + 1), up, Done)
    case Unwind(_) => x.(phase := Closing, sigClosed := true)
    case Close(_) =>
      if x.replica then x.(replica := false) else if x.backend then x.(backend := false) else x.(client := false)
    case _ => x
  }

  function Apply(limit: nat, s: State, step: Step): State
    requires Enabled(s, step)
  {
    match step
    case Accept(id, routed) =>
      if limit > 0 && s.tokens >= limit then s.(rejected := s.rejected + 1)
      else
        State(if limit > 0 then s.tokens + 1 else 0,
              s.sessions[id := Fresh(routed)], s.rejected)
    case Release(id) =>
      State(if limit > 0 && s.tokens > 0 then s.tokens - 1 else s.tokens, s.sessions - {id}, s.rejected)
    case _ => s.(sessions := s.sessions[step.id := Next(s.sessions[step.id], step)])
  }

  ghost predicate IsRun(limit: nat, s: State, steps: seq<Step>)
    decreases |steps|
  {
    steps != [] ==> Enabled(s, steps[0]) && IsRun(limit, Apply(limit, s, steps[0]), steps[1..])
  }

  ghost function Run(limit: nat, s: State, steps: seq<Step>): State
    requires IsRun(limit, s, steps)
    decreases |steps|
  {
    if steps == [] then s else Run(limit, Apply(limit, s, steps[0]), steps[1..])
  }

  const START := State(0, map[], 0)

  /** A session's connections in each phase. */
  ghost predicate LinksInv(x: Session) {
    && (x.phase != Closing ==> x.client)
    && (x.phase == Handshaking || x.phase.Dialing? ==> !x.backend && !x.replica)
    && (x.phase == DialingReplica ==> x.routed && x.backend && !x.replica)
    && (x.phase == Routing ==> x.routed && x.backend)
    && (x.phase == Piping ==> x.backend && !x.replica)
    && (x.replica ==> x.routed && x.backend)
    && (x.backend ==> x.client)
  }

  predicate Live(p: PipeState) { p == Copying || p == Signalling }

  function One(p: PipeState): nat { if p == Done then 1 else 0 }

  /** The pipes: started together, each signal received once, the channel closed behind both. */
  ghost predicate PipesInv(x: Session) {
    && x.received == One(x.up) + One(x.down)
    && (x.up == Off <==> x.down == Off)
    && (x.phase != Piping && x.phase != Closing ==> x.up == Off)
    && (x.phase == Piping ==> x.up != Off && !x.sigClosed)
    && (x.phase == Closing ==> !Live(x.up) && !Live(x.down))
    && (x.sigClosed <==> x.phase == Closing && x.up == Done)
  }

  /** connectBackend: one attempt, and after a refresh one more; a routed session's replica may add one of each. */
  predicate DialsOk(phase: Phase, routed: bool, dials: nat, refreshes: nat) {
    match phase
    case Handshaking => dials == 0 && refreshes == 0
    case Dialing(refreshed) => dials == refreshes && refreshes == if refreshed then 1 else 0
    case DialingReplica => routed && dials <= refreshes + 1 <= 2
    case _ => if routed then dials <= 3 && refreshes <= 2 else dials <= refreshes + 1 <= 2
  }

  predicate DialsInv(x: Session) { DialsOk(x.phase, x.routed, x.dials, x.refreshes) }

  ghost predicate SessionInv(x: Session) { LinksInv(x) && PipesInv(x) && DialsInv(x) }

  ghost predicate Inv(limit: nat, s: State) {
    && (limit > 0 ==> s.tokens == |s.sessions| <= limit)
    && (limit == 0 ==> s.tokens == 0)
    && (forall id :: id in s.sessions ==> SessionInv(s.sessions[id]))
  }

  lemma LinksKept(x: Session, step: Step)
    requires Ready(x, step) && LinksInv(x)
    ensures LinksInv(Next(x, step))
  {
  }

  lemma PipesKept(x: Session, step: Step)
    requires Ready(x, step) && LinksInv(x) && PipesInv(x)
    ensures PipesInv(Next(x, step))
  {
  }

  lemma DialKept(x: Session, ok: bool, canRefresh: bool)
    requires x.phase.Dialing? && DialsInv(x)
    ensures DialsInv(AfterDial(x.(dials := x.dials + 1), ok, canRefresh))
  {
  }

  lemma DialsKept(x: Session, step: Step)
    requires Ready(x, step) && LinksInv(x) && PipesInv(x) && DialsInv(x)
    ensures DialsInv(Next(x, step))
  {
    hide AfterDial, LinksInv, One, Live;
    if step.Dial? {
      DialKept(x, step.ok, step.canRefresh);
    }
  }

  lemma NextKeeps(x: Session, step: Step)
    requires Ready(x, step) && SessionInv(x)
    ensures SessionInv(Next(x, step))
  {
    hide Ready, Next, PipesInv, DialsInv;
    LinksKept(x, step);
    PipesKept(x, step);
    DialsKept(x, step);
  }

  lemma OneMore(sessions: map<nat, Session>, id: nat, x: Session)
    requires id !in sessions
    ensures |sessions[id := x]| == |sessions| + 1
  {
    assert sessions[id := x].Keys == sessions.Keys + {id};
  }

  lemma AcceptStep(limit: nat, s: State, id: nat, routed: bool)
    requires Inv(limit, s) && Enabled(s, Accept(id, routed))
    ensures Inv(limit, Apply(limit, s, Accept(id, routed)))
  {
    hide SessionInv, Fresh;
    FreshSession(routed);
    OneMore(s.sessions, id, Fresh(routed));
  }

  lemma ReleaseStep(limit: nat, s: State, id: nat)
    requires Inv(limit, s) && Enabled(s, Release(id))
    ensures Inv(limit, Apply(limit, s, Release(id)))
  {
    hide SessionInv;
    assert s.sessions.Keys == Apply(limit, s, Release(id)).sessions.Keys + {id};
  }

  lemma InvStep(limit: nat, s: State, step: Step)
    requires Inv(limit, s) && Enabled(s, step)
    ensures Inv(limit, Apply(limit, s, step))
  {
    hide Next, SessionInv;
    match step
    case Accept(id, routed) => AcceptStep(limit, s, id, routed);
    case Release(id) => ReleaseStep(limit, s, id);
    case _ =>
      NextKeeps(s.sessions[step.id], step);
      assert Apply(limit, s, step).sessions.Keys == s.sessions.Keys;
  }

  lemma FreshSession(routed: bool)
    ensures SessionInv(Fresh(routed))
  {
  }

  lemma {:induction false} InvHolds(limit: nat, s: State, steps: seq<Step>)
    requires Inv(limit, s) && IsRun(limit, s, steps)
    ensures Inv(limit, Run(limit, s, steps))
    decreases |steps|
  {
    hide Inv, Enabled, Apply;
    if steps != [] {
      InvStep(limit, s, steps[0]);
      InvHolds(limit, Apply(limit, s, steps[0]), steps[1..]);
    }
  }

  /** Tokens are live sessions and never more than the limit; a release finds its token, so it never blocks. */
  lemma SlotsConserved(limit: nat, steps: seq<Step>)
    requires limit > 0 && IsRun(limit, START, steps)
    ensures var s := Run(limit, START, steps);
            && s.tokens == |s.sessions| <= limit
            && forall id :: Enabled(s, Release(id)) ==> s.tokens > 0
  {
    hide IsRun, Run;
    InvHolds(limit, START, steps);
    var s := Run(limit, START, steps);
    forall id | Enabled(s, Release(id)) ensures s.tokens > 0 {
      assert id in s.sessions.Keys;
    }
  }

  /**
   * Teardown. No deferred close runs and no slot is freed while a pipe still copies or waits to signal; a slot is freed
   * only behind all closes; the signal channel is closed only after both pipes were received, each once; so a running
   * pipe finds its connections and the channel open, and a pipe that wants to signal is received.
   */
  lemma SlotFreedLast(limit: nat, steps: seq<Step>, id: nat)
    requires IsRun(limit, START, steps) && id in Run(limit, START, steps).sessions
    ensures var s := Run(limit, START, steps);
            var x := s.sessions[id];
            && (Enabled(s, Close(id)) || Enabled(s, Release(id)) ==> !Live(x.up) && !Live(x.down))
            && (Enabled(s, Release(id)) ==> !x.client && !x.backend && !x.replica && (x.up == Off || x.sigClosed))
            && (x.sigClosed ==> x.up == Done && x.down == Done && x.received == 2)
            && (Live(x.up) || Live(x.down) ==> x.client && x.backend && !x.replica && !x.sigClosed)
            && (forall up :: PipeOf(x, up) == Signalling ==> Enabled(s, Join(id, up)))
            && x.received == One(x.up) + One(x.down)
  {
    hide IsRun, Run, SessionInv, Ready, PipeOf;
    InvHolds(limit, START, steps);
    Teardown(Run(limit, START, steps).sessions[id], id);
  }

  lemma Teardown(x: Session, id: nat)
    requires SessionInv(x)
    ensures Ready(x, Close(id)) || Ready(x, Release(id)) ==> !Live(x.up) && !Live(x.down)
    ensures Ready(x, Release(id)) ==> !x.client && !x.backend && !x.replica && (x.up == Off || x.sigClosed)
    ensures x.sigClosed ==> x.up == Done && x.down == Done && x.received == 2
    ensures Live(x.up) || Live(x.down) ==> x.client && x.backend && !x.replica && !x.sigClosed
    ensures forall up :: PipeOf(x, up) == Signalling ==> Ready(x, Join(id, up))
    ensures x.received == One(x.up) + One(x.down)
  {
    hide DialsInv;
  }

  // A session whose pipes have both stopped copying needs nobody to free its slot.

  predicate Draining(x: Session) { x.phase in {Piping, Closing} && x.up != Copying && x.down != Copying }

  predicate Own(step: Step) { step.Join? || step.Unwind? || step.Close? || step.Release? }

  function Flag(b: bool): nat { if b then 1 else 0 }

  /** The steps it still has to take: receive, close the channel, close each open connection, free the slot. */
  function StepsLeft(x: Session): nat {
    (if x.phase == Piping && x.received <= 2 then 3 - x.received else 0) +
    Flag(x.client) + Flag(x.backend) + Flag(x.replica) + 1
  }

  lemma DrainStep(x: Session, step: Step)
    requires Draining(x) && SessionInv(x) && Ready(x, step)
    ensures Own(step)
    ensures if step.Release? then StepsLeft(x) == 1
            else Draining(Next(x, step)) && StepsLeft(Next(x, step)) == StepsLeft(x) - 1
  {
    hide DialsInv;
  }

  lemma DrainReady(x: Session, id: nat) returns (step: Step)
    requires Draining(x) && SessionInv(x)
    ensures Own(step) && step.id == id && Ready(x, step)
  {
    hide DialsInv;
    step := if x.phase == Closing then if x.client then Close(id) else Release(id)
            else if x.up == Signalling then Join(id, true)
            else if x.down == Signalling then Join(id, false)
            else Unwind(id);
  }

  function StepsOf(steps: seq<Step>, id: nat): nat {
    if steps == [] then 0 else Flag(steps[0].id == id) + StepsOf(steps[1..], id)
  }

  function LeftAt(s: State, id: nat): nat { if id in s.sessions then StepsLeft(s.sessions[id]) else 0 }

  ghost predicate Drained(s: State, id: nat) { id in s.sessions ==> Draining(s.sessions[id]) }

  ghost predicate NotReused(steps: seq<Step>, id: nat) {
    forall k :: 0 <= k < |steps| ==> !(steps[k].Accept? && steps[k].id == id)
  }

  lemma DrainApply(limit: nat, s: State, step: Step, id: nat)
    requires Inv(limit, s) && Enabled(s, step) && Drained(s, id) && !(step.Accept? && step.id == id)
    ensures Drained(Apply(limit, s, step), id)
    ensures LeftAt(Apply(limit, s, step), id) == LeftAt(s, id) - Flag(step.id == id)
  {
    hide Ready, Next, SessionInv, Draining, StepsLeft;
    if step.id == id {
      DrainStep(s.sessions[id], step);
    }
  }

  lemma {:induction false} DrainRun(limit: nat, s: State, more: seq<Step>, id: nat)
    requires Inv(limit, s) && Drained(s, id) && IsRun(limit, s, more) && NotReused(more, id)
    ensures Drained(Run(limit, s, more), id) && Inv(limit, Run(limit, s, more))
    ensures LeftAt(Run(limit, s, more), id) == LeftAt(s, id) - StepsOf(more, id)
    decreases |more|
  {
    hide Inv, Enabled, Apply, Drained, LeftAt;
    if more != [] {
      InvStep(limit, s, more[0]);
      DrainApply(limit, s, more[0], id);
      DrainRun(limit, Apply(limit, s, more[0]), more[1..], id);
    }
  }

  /**
   * Once neither pipe of a session copies any more, whatever the rest of the proxy does: as long as its slot is not
   * free, one of the session's own steps (receive, close the channel, close a connection, release) can happen; every
   * such step is one of a number fixed in advance; and the slot is free exactly when all of them are done.
   */
  lemma FreesItsSlot(limit: nat, steps: seq<Step>, more: seq<Step>, id: nat)
    requires IsRun(limit, START, steps) && id in Run(limit, START, steps).sessions
    requires var s := Run(limit, START, steps);
             Draining(s.sessions[id]) && IsRun(limit, s, more) && NotReused(more, id)
    ensures var s := Run(limit, START, steps);
            var s' := Run(limit, s, more);
            && StepsOf(more, id) <= StepsLeft(s.sessions[id])
            && (id !in s'.sessions <==> StepsOf(more, id) == StepsLeft(s.sessions[id]))
            && (id in s'.sessions ==> exists step: Step :: Own(step) && step.id == id && Enabled(s', step))
  {
    hide IsRun, Run, Ready, SessionInv, Draining, StepsOf;
    InvHolds(limit, START, steps);
    var s := Run(limit, START, steps);
    DrainRun(limit, s, more, id);
    var s' := Run(limit, s, more);
    if id in s'.sessions {
      var step := DrainReady(s'.sessions[id], id);
    }
  }

  /**
   * One refresh and one retry: a backend is connected, or given up, within two attempts, and the second comes only
   * after a refresh. The replica of a routed session costs at most one more of each.
   */
  lemma TwoAttempts(limit: nat, steps: seq<Step>, id: nat)
    requires IsRun(limit, START, steps) && id in Run(limit, START, steps).sessions
    ensures var x := Run(limit, START, steps).sessions[id];
            && (!x.routed || x.phase.Dialing? || x.phase == DialingReplica ==> x.dials <= x.refreshes + 1 <= 2)
            && x.dials <= 3 && x.refreshes <= 2
  {
    hide IsRun, Run;
    InvHolds(limit, START, steps);
  }

  // What the proxy does for a client, not only what it avoids.

  /** A connection is turned away exactly when the limit is reached by live sessions; otherwise it gets a session. */
  lemma AcceptedIffRoom(limit: nat, steps: seq<Step>, id: nat, routed: bool)
    requires IsRun(limit, START, steps) && id !in Run(limit, START, steps).sessions
    ensures var s := Run(limit, START, steps);
            && Enabled(s, Accept(id, routed))
            && var s' := Apply(limit, s, Accept(id, routed));
               if limit == 0 || |s.sessions| < limit
               then s'.sessions == s.sessions[id := Fresh(routed)] && s'.rejected == s.rejected
               else s'.sessions == s.sessions && s'.rejected == s.rejected + 1
  {
    hide IsRun, Run, SessionInv;
    InvHolds(limit, START, steps);
  }

  /** A client that fails the handshake costs no backend anything: nothing was dialed, only its own close is left. */
  lemma FailedHandshake(limit: nat, steps: seq<Step>, id: nat)
    requires IsRun(limit, START, steps) && Enabled(Run(limit, START, steps), ShakeHands(id, false))
    ensures var x := Apply(limit, Run(limit, START, steps), ShakeHands(id, false)).sessions[id];
            x.dials == 0 && !x.backend && !x.replica && Draining(x) && StepsLeft(x) == 2
  {
    hide IsRun, Run;
    InvHolds(limit, START, steps);
  }

  /** The dials of connectBackend: a second one if the first failed and there is a refresher. */
  function Connect(x: Session, id: nat, first: bool, second: bool, canRefresh: bool): Session {
    var y := Next(x, Dial(id, first, canRefresh));
    if y.phase.Dialing? then Next(y, Dial(id, second, canRefresh)) else y
  }

  /**
   * connectBackend succeeds if and only if the first dial does, or there is a refresher and the second does; the
   * session then goes on with its backend open, and is closed otherwise. The refresh happens exactly between two dials.
   */
  lemma ConnectedIff(limit: nat, steps: seq<Step>, id: nat, first: bool, second: bool, canRefresh: bool)
    requires IsRun(limit, START, steps) && At(Run(limit, START, steps), id, Dialing(false))
    ensures var x := Run(limit, START, steps).sessions[id];
            var y, again := Connect(x, id, first, second, canRefresh), !first && canRefresh;
            && Ready(x, Dial(id, first, canRefresh))
            && (again ==> Ready(Next(x, Dial(id, first, canRefresh)), Dial(id, second, canRefresh)))
            && y.dials == (if again then 2 else 1) && y.refreshes == (if again then 1 else 0)
            && (y.backend <==> first || (canRefresh && second))
            && y.phase == (if !y.backend then Closing else if y.routed then DialingReplica else Piping)
            && (y.phase == Piping ==> y.up == Copying && y.down == Copying)
  {
    hide IsRun, Run, LinksInv, PipesInv;
    InvHolds(limit, START, steps);
    NothingOpen(Run(limit, START, steps).sessions[id]);
  }

  lemma NothingOpen(x: Session)
    requires SessionInv(x) && x.phase == Dialing(false)
    ensures !x.backend && x.dials == 0 && x.refreshes == 0
  {
  }

  /** A replica that is unknown or cannot be reached never costs the client its session: it runs on the master alone. */
  lemma ReplicaIsOptional(limit: nat, steps: seq<Step>, id: nat, refreshed: bool, known: bool, ok: bool)
    requires IsRun(limit, START, steps) && At(Run(limit, START, steps), id, DialingReplica)
    ensures var s := Run(limit, START, steps);
            && Enabled(s, DialReplica(id, refreshed, known, ok))
            && var x := Apply(limit, s, DialReplica(id, refreshed, known, ok)).sessions[id];
               x.phase == Routing && x.client && x.backend && (x.replica <==> known && ok)
  {
    hide IsRun, Run;
    InvHolds(limit, START, steps);
  }

  /** A pin closes the replica's connection; the master's is piped if the command reached it, else all is closed. */
  lemma PinOutcome(limit: nat, steps: seq<Step>, id: nat, ok: bool)
    requires IsRun(limit, START, steps) && At(Run(limit, START, steps), id, Routing)
    ensures var s := Run(limit, START, steps);
            && Enabled(s, Pin(id, ok)) && Enabled(s, Stop(id))
            && Draining(Apply(limit, s, Stop(id)).sessions[id])
            && var x := Apply(limit, s, Pin(id, ok)).sessions[id];
               && !x.replica && x.client && x.backend
               && (if ok then x.phase == Piping && x.up == Copying && x.down == Copying else Draining(x))
  {
    hide IsRun, Run;
    InvHolds(limit, START, steps);
  }

  predicate At(s: State, id: nat, phase: Phase) { id in s.sessions && s.sessions[id].phase == phase }

  ghost function Routed(s: State): set<nat> { set id | id in s.sessions && s.sessions[id].routed }
  ghost function Backends(s: State): set<nat> { set id | id in s.sessions && s.sessions[id].backend }
  ghost function ReplicaLinks(s: State): set<nat> { set id | id in s.sessions && s.sessions[id].replica }

  lemma SubsetSize(a: set<nat>, b: set<nat>)
    requires a <= b
    ensures |a| <= |b|
  {
    assert b == a + (b - a);
  }

  /** Open backend connections: at most two per routed session and one per piped one, so at most twice the limit. */
  lemma BackendsBounded(limit: nat, steps: seq<Step>)
    requires IsRun(limit, START, steps)
    ensures var s := Run(limit, START, steps);
            var piped := s.sessions.Keys - Routed(s);
            && |Backends(s)| + |ReplicaLinks(s)| <= 2 * |Routed(s)| + |piped|
            && (limit > 0 ==> |Backends(s)| + |ReplicaLinks(s)| <= 2 * limit)
  {
    hide IsRun, Run;
    InvHolds(limit, START, steps);
    var s := Run(limit, START, steps);
    SubsetSize(Backends(s), s.sessions.Keys);
    SubsetSize(ReplicaLinks(s), Routed(s));
    SubsetSize(Routed(s), s.sessions.Keys);
    assert s.sessions.Keys == Routed(s) + (s.sessions.Keys - Routed(s));
  }
}
