/** The routed session: one client, a master and perhaps a replica, and the events that relate their byte streams. */
module Routing {
  import opened Bytes
  import opened Commands
  import opened Replies
  import opened Router

  /** One completed iteration of the session loop. */
  datatype Event =
    | Dropped(raw: string)
    | Mirrored(raw: string, reply: string, discarded: string)
    | Mastered(raw: string, reply: string)
    | Replicated(raw: string, reply: string)

  datatype Channel = ClientIn | ClientOut | MasterIn | MasterOut | ReplicaIn | ReplicaOut

  /** What an event moves over a channel: `In` towards the proxy's peer for backends, from it for the client. */
  function On(c: Channel, e: Event): seq<string> {
    match c
    case ClientIn => [e.raw]
    case ClientOut => if e.Dropped? then [] else [e.reply]
    case MasterIn => if e.Mirrored? || e.Mastered? then [e.raw] else []
    case MasterOut => if e.Mirrored? || e.Mastered? then [e.reply] else []
    case ReplicaIn => if e.Mirrored? || e.Replicated? then [e.raw] else []
    case ReplicaOut => if e.Mirrored? then [e.discarded] else if e.Replicated? then [e.reply] else []
  }

  function Flow(c: Channel, es: seq<Event>): seq<string> {
    if es == [] then [] else On(c, es[0]) + Flow(c, es[1..])
  }

  function Sent(c: Channel, es: seq<Event>): string { Concat(Flow(c, es)) }

  lemma {:induction false} FlowAppend(c: Channel, a: seq<Event>, b: seq<Event>)
    ensures Flow(c, a + b) == Flow(c, a) + Flow(c, b)
  {
    hide On;
    if a == [] {
      assert a + b == b;
    } else {
      FlowAppend(c, a[1..], b);
      assert (a + b)[1..] == a[1..] + b;
    }
  }

  lemma SentOne(c: Channel, es: seq<Event>, e: Event)
    ensures Sent(c, es + [e]) == Sent(c, es) + (if On(c, e) == [] then "" else On(c, e)[0])
  {
    FlowAppend(c, es, [e]);
    assert Flow(c, [e]) == On(c, e);
    ConcatAppend(Flow(c, es), On(c, e));
    assert On(c, e) != [] ==> Concat(On(c, e)) == On(c, e)[0];
  }

  function Name(fold: Fold, raw: string): string
    requires IsCommand(raw)
  {
    NameOf(fold, ArgsOf(raw))
  }

  predicate Routed(fold: Fold, hasReplica: bool, e: Event) {
    IsCommand(e.raw) &&
    match RouteOf(fold, Name(fold, e.raw), hasReplica)
    case Drop => e.Dropped?
    case Mirror => e.Mirrored?
    case ToMaster => e.Mastered?
    case ToReplica => e.Replicated?
    case Pin => false
  }

  predicate Answered(e: Event) {
    (e.Dropped? || IsReply(e.reply)) && (e.Mirrored? ==> IsReply(e.discarded))
  }

  ghost predicate AllRouted(fold: Fold, hasReplica: bool, es: seq<Event>) {
    forall e :: e in es ==> Routed(fold, hasReplica, e)
  }

  ghost predicate AllAnswered(es: seq<Event>) { forall e :: e in es ==> Answered(e) }

  /** The whole streams the peers deliver during the session. */
  datatype Streams = Streams(client: string, master: string, replica: string)

  /** What has been written to each peer and what is still to be read from it. */
  datatype Wire = Wire(
    clientLeft: string, clientGot: string,
    masterGot: string, masterLeft: string,
    replicaGot: string, replicaLeft: string)

  /** Lock-step: at the head of the loop all six streams are cut exactly behind the completed events. */
  ghost predicate Aligned(fold: Fold, hasReplica: bool, all: Streams, es: seq<Event>, w: Wire) {
    && AllRouted(fold, hasReplica, es)
    && AllAnswered(es)
    && all.client == Sent(ClientIn, es) + w.clientLeft
    && all.master == Sent(MasterOut, es) + w.masterLeft
    && all.replica == Sent(ReplicaOut, es) + w.replicaLeft
    && w.clientGot == Sent(ClientOut, es)
    && w.masterGot == Sent(MasterIn, es)
    && w.replicaGot == Sent(ReplicaIn, es)
  }

  function Part(c: Channel, e: Event): string { if On(c, e) == [] then "" else On(c, e)[0] }

  ghost predicate Moves(e: Event, w: Wire, w': Wire) {
    && w.clientLeft == Part(ClientIn, e) + w'.clientLeft
    && w.masterLeft == Part(MasterOut, e) + w'.masterLeft
    && w.replicaLeft == Part(ReplicaOut, e) + w'.replicaLeft
    && w'.clientGot == w.clientGot + Part(ClientOut, e)
    && w'.masterGot == w.masterGot + Part(MasterIn, e)
    && w'.replicaGot == w.replicaGot + Part(ReplicaIn, e)
  }

  lemma Cut(all: string, done: string, part: string, left: string, left': string, done': string)
    requires all == done + left && left == part + left' && done' == done + part
    ensures all == done' + left'
  {
    Assoc(done, part, left');
  }

  lemma AlignedStep(fold: Fold, hasReplica: bool, all: Streams, es: seq<Event>, w: Wire, e: Event, w': Wire)
    requires Aligned(fold, hasReplica, all, es, w) && Moves(e, w, w')
    requires Routed(fold, hasReplica, e) && Answered(e)
    ensures Aligned(fold, hasReplica, all, es + [e], w')
  {
    hide Routed, Answered, On, Sent;
    forall c: Channel ensures Sent(c, es + [e]) == Sent(c, es) + Part(c, e) {
      SentOne(c, es, e);
    }
    Cut(all.client, Sent(ClientIn, es), Part(ClientIn, e), w.clientLeft, w'.clientLeft, Sent(ClientIn, es + [e]));
    Cut(all.master, Sent(MasterOut, es), Part(MasterOut, e), w.masterLeft, w'.masterLeft, Sent(MasterOut, es + [e]));
    Cut(all.replica, Sent(ReplicaOut, es), Part(ReplicaOut, e), w.replicaLeft, w'.replicaLeft,
        Sent(ReplicaOut, es + [e]));
  }

  // How a session ends.

  /**
   * Closed: the client's stream ended or is malformed. Stopped: a write failed or a backend did not deliver a
   * whole reply. Pinned: client and master are piped together, after `raw` (empty for an inline client).
   */
  datatype End = Closed | Stopped | Pinned(raw: string)

  /** All that each peer was sent during the session, and whether a write to it failed. */
  datatype Outputs = Outputs(
    client: string, clientBroken: bool, master: string, masterBroken: bool, replica: string, replicaBroken: bool)

  /** Nothing was written since the loop head w. */
  predicate Quiet(w: Wire, o: Outputs) {
    o.client == w.clientGot && o.master == w.masterGot && o.replica == w.replicaGot
  }

  /** What a command on the given route brings to the master and to the replica. */
  function ForMaster(route: Route, raw: string): string { if route in {Mirror, ToMaster} then raw else "" }
  function ForReplica(route: Route, raw: string): string { if route in {Mirror, ToReplica} then raw else "" }

  /** The stream that answers a command on the given route. */
  function Answering(route: Route, w: Wire): string { if route == ToReplica then w.replicaLeft else w.masterLeft }

  /**
   * A forwarding was cut short. Backends off the route got nothing, those on it part of the command, all of it unless a
   * write to a backend failed. The client got part of the one reply, and exactly what there was of it unless some write
   * failed.
   */
  predicate HalfDone(w: Wire, raw: string, route: Route, o: Outputs) {
    var reply := Relayed(Answering(route, w), 1);
    && PartOf(w.clientGot, reply, o.client)
    && PartOf(w.masterGot, ForMaster(route, raw), o.master)
    && PartOf(w.replicaGot, ForReplica(route, raw), o.replica)
    && (!o.masterBroken && !o.replicaBroken ==>
          && o.master == w.masterGot + ForMaster(route, raw) && o.replica == w.replicaGot + ForReplica(route, raw)
          && Delivered(w.clientGot, reply, o.client, o.clientBroken))
  }

  /** Why it was cut short: a write failed, or a backend on the route has no whole reply to give. */
  predicate Excused(w: Wire, route: Route, o: Outputs) {
    || o.clientBroken || o.masterBroken || o.replicaBroken
    || (route != ToReplica && Copy(Int64, w.masterLeft, 1) == None)
    || (route != ToMaster && Copy(Int64, w.replicaLeft, 1) == None)
  }

  /** The command `raw` was being forwarded along its route when the session stopped. */
  predicate StoppedAt(fold: Fold, hasReplica: bool, w: Wire, raw: string, o: Outputs) {
    IsCommand(raw) && raw <= w.clientLeft &&
    var route := RouteOf(fold, Name(fold, raw), hasReplica);
    route in {Mirror, ToMaster, ToReplica} && HalfDone(w, raw, route, o) && Excused(w, route, o)
  }

  /** After a pin: every later client byte goes to the master, every later master byte to the client. */
  predicate HandedOver(w: Wire, o: Outputs) {
    && o.replica == w.replicaGot
    && PartOf(w.masterGot, w.clientLeft, o.master)
    && PartOf(w.clientGot, w.masterLeft, o.client)
    && (!o.masterBroken ==> o.master == w.masterGot + w.clientLeft)
    && (!o.masterBroken && !o.clientBroken ==> o.client == w.clientGot + w.masterLeft)
  }

  /** A pin happens at a pinning command or at bytes that are no RESP array. */
  predicate PinnedBy(fold: Fold, left: string, raw: string) {
    if raw == "" then ParseCommand(left) == Inline
    else raw <= left && IsCommand(raw) && IsPin(Name(fold, raw))
  }

  /** A whole run: it is aligned up to the last loop head w, and ends there in one of three ways. */
  ghost predicate WholeRun(
    fold: Fold, hasReplica: bool, all: Streams, es: seq<Event>, w: Wire, end: End, raw: string, o: Outputs)
  {
    Aligned(fold, hasReplica, all, es, w) &&
    match end
    case Closed => ParseCommand(w.clientLeft).Malformed? && Quiet(w, o)
    case Stopped => StoppedAt(fold, hasReplica, w, raw, o)
    case Pinned(frame) => frame == raw && PinnedBy(fold, w.clientLeft, raw) && HandedOver(w, o)
  }
}
