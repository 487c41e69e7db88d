/** Routing preserves meaning: the session against real servers, compared with a session on the master alone. */
module Meaning {
  import opened Bytes
  import opened Commands
  import opened Replies
  import opened Router
  import opened Routing
  import opened SessionLaws
  import Resp3
  import Reader

  datatype Outcome<D, C> = Outcome(reply: string, data: D, conn: C)

  /** A server executes a command frame on a dataset under a connection state. */
  datatype Server<!D, !C> = Server(exec: (string, D, C) -> Outcome<D, C>)

  /**
   * The assumptions on servers: a command gets one reply; listed read-only commands leave the dataset alone; only
   * state commands change the connection state, and they do so independently of the dataset.
   */
  ghost predicate LawfulAt<D, C>(fold: Fold, sv: Server<D, C>, raw: string, d: D, other: D, c: C)
    requires IsCommand(raw)
  {
    var o, name := sv.exec(raw, d, c), Name(fold, raw);
    name != "" && !IsPin(name) ==>
      && IsReply(o.reply)
      && (!IsState(name) && GetDirection(fold, name) == Read ==> o.data == d)
      && (!IsState(name) ==> o.conn == c)
      && (IsState(name) ==> sv.exec(raw, other, c).conn == o.conn)
  }

  ghost predicate LawfulFor<D(!new), C(!new)>(fold: Fold, sv: Server<D, C>, raw: string) {
    IsCommand(raw) ==> forall d, other, c :: LawfulAt(fold, sv, raw, d, other, c)
  }

  /** They are asked for the given commands only: a server may know others, as long as this client does not use them. */
  ghost predicate Lawful<D(!new), C(!new)>(fold: Fold, sv: Server<D, C>, raws: seq<string>) {
    forall raw :: raw in raws ==> LawfulFor(fold, sv, raw)
  }

  /** The assumptions are consistent: a server that answers OK to everything meets them. */
  lemma LawfulServerExists(fold: Fold) returns (sv: Server<int, int>)
    ensures forall raw :: LawfulFor(fold, sv, raw)
  {
    hide IsReply, IsCommand, Name;
    var ok := Resp3.Simple('+', "OK");
    Reader.LineCapFormula(BUFFER_SIZE);
    Resp3.RelaysResp3(ok, "");
    sv := Server((raw, d, c) => Outcome(Resp3.Encode(ok), d, c));
  }

  /**
   * Before each command other clients may change the master's dataset, any number of times, and the replica may catch
   * up to version `seen`, which can lie between two of those changes.
   */
  datatype Beat<!D> = Beat(others: seq<D -> D>, seen: nat)

  /** The versions that successive changes of d make. */
  function Versions<D>(d: D, others: seq<D -> D>): (vs: seq<D>)
    ensures |vs| == |others|
  {
    if others == [] then [] else [others[0](d)] + Versions(others[0](d), others[1..])
  }

  function Grown<D>(history: seq<D>, others: seq<D -> D>): (h: seq<D>)
    requires history != []
    ensures |h| == |history| + |others|
  {
    history + Versions(Last(history), others)
  }

  /** All versions of the master's dataset so far, and the state of both connections. */
  datatype World<D, C> = World(history: seq<D>, masterConn: C, replicaConn: C, seen: nat)

  function Last<D>(h: seq<D>): D
    requires h != []
  {
    h[|h| - 1]
  }

  ghost predicate CanTick<D, C>(w: World<D, C>, b: Beat<D>) {
    w.history != [] && w.seen <= b.seen < |w.history| + |b.others|
  }

  function Tick<D, C>(w: World<D, C>, b: Beat<D>): (w': World<D, C>)
    requires CanTick(w, b)
    ensures w'.history != [] && w'.seen < |w'.history|
  {
    w.(history := Grown(w.history, b.others), seen := b.seen)
  }

  function OnMaster<D, C>(sv: Server<D, C>, w: World<D, C>, raw: string): Outcome<D, C>
    requires w.history != []
  {
    sv.exec(raw, Last(w.history), w.masterConn)
  }

  function OnReplica<D, C>(sv: Server<D, C>, w: World<D, C>, raw: string): Outcome<D, C>
    requires w.seen < |w.history|
  {
    sv.exec(raw, w.history[w.seen], w.replicaConn)
  }

  /** The effect of one iteration on the servers. */
  function After<D, C>(sv: Server<D, C>, w: World<D, C>, e: Event): World<D, C>
    requires w.history != [] && w.seen < |w.history|
  {
    match e
    case Dropped(_) => w
    case Mastered(raw, _) =>
      var o := OnMaster(sv, w, raw);
      w.(history := w.history + [o.data], masterConn := o.conn)
    case Mirrored(raw, _, _) =>
      var o := OnMaster(sv, w, raw);
      w.(history := w.history + [o.data], masterConn := o.conn, replicaConn := OnReplica(sv, w, raw).conn)
    case Replicated(raw, _) => w.(replicaConn := OnReplica(sv, w, raw).conn)
  }

  /** A replication schedule for the session: the replica's version never goes back and never ahead of the master's. */
  ghost predicate Schedule<D, C>(sv: Server<D, C>, w: World<D, C>, es: seq<Event>, beats: seq<Beat<D>>)
    decreases |es|
  {
    |beats| == |es| &&
    (es != [] ==> CanTick(w, beats[0]) && Schedule(sv, After(sv, Tick(w, beats[0]), es[0]), es[1..], beats[1..]))
  }

  function HalfwayEvents(write: string, read: string): seq<Event> { [Mastered(write, ""), Replicated(read, "")] }

  function HalfwayBeats(): seq<Beat<int>> { [Beat([(d: int) => 1, (d: int) => 2], 0), Beat([], 1)] }

  /**
   * Schedules are as fine as the master's log: others write 1 and then 2, the session writes through the master, and
   * then reads from a replica that has only the first of those writes.
   */
  lemma HalfwayReplica(sv: Server<int, int>, conn: int, write: string, read: string)
    ensures var w, es, beats := World([0], conn, conn, 0), HalfwayEvents(write, read), HalfwayBeats();
            && Schedule(sv, w, es, beats) && CanTick(w, beats[0])
            && var t := Tick(w, beats[0]);
               var w' := After(sv, t, es[0]);
               && CanTick(w', beats[1])
               && OnMaster(sv, t, write) == sv.exec(write, 2, conn)
               && OnReplica(sv, Tick(w', beats[1]), read) == sv.exec(read, 1, conn)
  {
    var w, es, beats := World([0], conn, conn, 0), HalfwayEvents(write, read), HalfwayBeats();
    var more := beats[0].others;
    assert more[1..][1..] == [];
    assert Versions(1, more[1..]) == [2] && Versions(0, more) == [1, 2];
    var t := Tick(w, beats[0]);
    assert t.history == [0, 1, 2];
    var w' := After(sv, t, es[0]);
    assert Schedule(sv, After(sv, Tick(w', beats[1]), es[1]), es[1..][1..], beats[1..][1..]);
    assert Schedule(sv, w', es[1..], beats[1..]);
  }

  /** The replies the master and the replica send in answer to what the session forwards to them. */
  ghost function MasterSays<D, C>(sv: Server<D, C>, w: World<D, C>, es: seq<Event>, beats: seq<Beat<D>>): seq<string>
    requires Schedule(sv, w, es, beats)
    decreases |es|
  {
    if es == [] then [] else
      var t, e := Tick(w, beats[0]), es[0];
      (if e.Mastered? || e.Mirrored? then [OnMaster(sv, t, e.raw).reply] else []) +
      MasterSays(sv, After(sv, t, e), es[1..], beats[1..])
  }

  ghost function ReplicaSays<D, C>(sv: Server<D, C>, w: World<D, C>, es: seq<Event>, beats: seq<Beat<D>>): seq<string>
    requires Schedule(sv, w, es, beats)
    decreases |es|
  {
    if es == [] then [] else
      var t, e := Tick(w, beats[0]), es[0];
      (if e.Replicated? || e.Mirrored? then [OnReplica(sv, t, e.raw).reply] else []) +
      ReplicaSays(sv, After(sv, t, e), es[1..], beats[1..])
  }

  ghost function EndWorld<D, C>(sv: Server<D, C>, w: World<D, C>, es: seq<Event>, beats: seq<Beat<D>>)
    : (w': World<D, C>)
    requires w.history != [] && Schedule(sv, w, es, beats)
    ensures w'.history != []
    decreases |es|
  {
    if es == [] then w else EndWorld(sv, After(sv, Tick(w, beats[0]), es[0]), es[1..], beats[1..])
  }

  // The reference: the same client on the master alone.

  datatype Solo<D, C> = Solo(data: D, conn: C)

  ghost function SoloStep<D, C>(
    fold: Fold, sv: Server<D, C>, s: Solo<D, C>, raw: string, b: Beat<D>): (seq<string>, Solo<D, C>)
    requires IsCommand(raw)
  {
    var d := Last(Grown([s.data], b.others));
    if Name(fold, raw) == "" then ([], s.(data := d)) else
      var o := sv.exec(raw, d, s.conn);
      ([o.reply], Solo(o.data, o.conn))
  }

  ghost function SoloRun<D, C>(fold: Fold, sv: Server<D, C>, s: Solo<D, C>, raws: seq<string>, beats: seq<Beat<D>>)
    : (seq<string>, Solo<D, C>)
    requires AllCommands(raws) && |beats| == |raws|
    decreases |raws|
  {
    if raws == [] then ([], s) else
      var (reply, s') := SoloStep(fold, sv, s, raws[0], beats[0]);
      var (replies, end) := SoloRun(fold, sv, s', raws[1..], beats[1..]);
      (reply + replies, end)
  }

  /**
   * Every reply is what the master answers, under the connection state a master-only session would have, on its
   * current dataset or, for a command served by the replica, on the version the replica has reached.
   */
  ghost predicate Explained<D, C>(
    sv: Server<D, C>, history: seq<D>, conn: C, es: seq<Event>, beats: seq<Beat<D>>)
    decreases |es|
  {
    && |beats| == |es|
    && history != []
    && (es != [] ==>
          var h, e := Grown(history, beats[0].others), es[0];
          if e.Dropped? then Explained(sv, h, conn, es[1..], beats[1..]) else
            && (e.Replicated? ==> beats[0].seen < |h|)
            && e.reply == sv.exec(e.raw, if e.Replicated? then h[beats[0].seen] else Last(h), conn).reply
            && var o := sv.exec(e.raw, Last(h), conn);
               Explained(sv, if e.Replicated? then h else h + [o.data], o.conn, es[1..], beats[1..]))
  }

  /** The replica has every version the master has whenever it serves a command. */
  ghost predicate ZeroLag<D, C>(sv: Server<D, C>, w: World<D, C>, es: seq<Event>, beats: seq<Beat<D>>)
    requires Schedule(sv, w, es, beats)
    decreases |es|
  {
    es != [] ==>
      var t := Tick(w, beats[0]);
      (es[0].Replicated? ==> t.seen == |t.history| - 1) && ZeroLag(sv, After(sv, t, es[0]), es[1..], beats[1..])
  }

  /** One iteration: both connections stay in the state of the master-only session, which sees the same dataset. */
  lemma StepMeaning<D(!new), C(!new)>(
    fold: Fold, hasReplica: bool, sv: Server<D, C>, w: World<D, C>, e: Event, b: Beat<D>)
    requires LawfulFor(fold, sv, e.raw) && Routed(fold, hasReplica, e) && CanTick(w, b)
    requires hasReplica ==> w.masterConn == w.replicaConn
    ensures var w' := After(sv, Tick(w, b), e);
            && w'.history != [] && (hasReplica ==> w'.masterConn == w'.replicaConn)
            && SoloStep(fold, sv, Solo(Last(w.history), w.masterConn), e.raw, b).1 ==
               Solo(Last(w'.history), w'.masterConn)
    ensures !e.Dropped? ==> After(sv, Tick(w, b), e).masterConn == OnMaster(sv, Tick(w, b), e.raw).conn
    ensures e.Dropped? <==> Name(fold, e.raw) == ""
    ensures e.Replicated? ==> hasReplica
  {
    hide IsCommand, IsReply, Name, IsPin, IsState, GetDirection;
    var t := Tick(w, b);
    assert LawfulAt(fold, sv, e.raw, Last(t.history), t.history[t.seen], t.masterConn);
    assert LawfulAt(fold, sv, e.raw, t.history[t.seen], Last(t.history), t.masterConn);
  }

  /** The replies of one iteration are its servers' own. */
  ghost predicate Served<D, C>(sv: Server<D, C>, t: World<D, C>, e: Event)
    requires t.seen < |t.history|
  {
    && (e.Mastered? || e.Mirrored? ==> e.reply == OnMaster(sv, t, e.raw).reply)
    && (e.Replicated? ==> e.reply == OnReplica(sv, t, e.raw).reply)
  }

  ghost predicate AllServed<D, C>(sv: Server<D, C>, w: World<D, C>, es: seq<Event>, beats: seq<Beat<D>>)
    requires Schedule(sv, w, es, beats)
    decreases |es|
  {
    es != [] ==>
      var t := Tick(w, beats[0]);
      Served(sv, t, es[0]) && AllServed(sv, After(sv, t, es[0]), es[1..], beats[1..])
  }

  lemma {:induction false} SaidIsServed<D, C>(sv: Server<D, C>, w: World<D, C>, es: seq<Event>, beats: seq<Beat<D>>)
    requires Schedule(sv, w, es, beats)
    requires Flow(MasterOut, es) == MasterSays(sv, w, es, beats)
    requires Flow(ReplicaOut, es) == ReplicaSays(sv, w, es, beats)
    ensures AllServed(sv, w, es, beats)
    decreases |es|
  {
    hide After;
    if es != [] {
      var e, t := es[0], Tick(w, beats[0]);
      var m, r := On(MasterOut, e), On(ReplicaOut, e);
      assert Flow(MasterOut, es)[|m|..] == Flow(MasterOut, es[1..]);
      assert Flow(ReplicaOut, es)[|r|..] == Flow(ReplicaOut, es[1..]);
      assert m != [] ==> Flow(MasterOut, es)[0] == m[0];
      assert r != [] ==> Flow(ReplicaOut, es)[0] == r[0];
      SaidIsServed(sv, After(sv, t, e), es[1..], beats[1..]);
    }
  }

  lemma LawfulRest<D(!new), C(!new)>(fold: Fold, sv: Server<D, C>, es: seq<Event>)
    requires es != [] && Lawful(fold, sv, Flow(ClientIn, es))
    ensures LawfulFor(fold, sv, es[0].raw) && Lawful(fold, sv, Flow(ClientIn, es[1..]))
  {
    hide LawfulFor;
    assert Flow(ClientIn, es) == [es[0].raw] + Flow(ClientIn, es[1..]);
  }

  lemma {:induction false} RunExplained<D(!new), C(!new)>(
    fold: Fold, hasReplica: bool, sv: Server<D, C>, w: World<D, C>, es: seq<Event>, beats: seq<Beat<D>>)
    requires Lawful(fold, sv, Flow(ClientIn, es)) && AllRouted(fold, hasReplica, es) && Schedule(sv, w, es, beats)
    requires w.history != [] && (hasReplica ==> w.masterConn == w.replicaConn) && AllServed(sv, w, es, beats)
    ensures Explained(sv, w.history, w.masterConn, es, beats)
    decreases |es|
  {
    hide Lawful, LawfulFor, Routed;
    if es != [] {
      assert Routed(fold, hasReplica, es[0]);
      LawfulRest(fold, sv, es);
      StepMeaning(fold, hasReplica, sv, w, es[0], beats[0]);
      RunExplained(fold, hasReplica, sv, After(sv, Tick(w, beats[0]), es[0]), es[1..], beats[1..]);
    }
  }

  /** Without lag an iteration brings the client what the master-only session would. */
  lemma StepReply<D(!new), C(!new)>(
    fold: Fold, hasReplica: bool, sv: Server<D, C>, w: World<D, C>, e: Event, b: Beat<D>)
    requires Routed(fold, hasReplica, e) && CanTick(w, b) && Served(sv, Tick(w, b), e)
    requires hasReplica ==> w.masterConn == w.replicaConn
    requires e.Replicated? ==> Tick(w, b).seen == |Tick(w, b).history| - 1
    ensures SoloStep(fold, sv, Solo(Last(w.history), w.masterConn), e.raw, b).0 == On(ClientOut, e)
  {
    hide IsCommand, Name, IsPin, IsState, GetDirection;
  }

  lemma {:induction false} RunLikeSolo<D(!new), C(!new)>(
    fold: Fold, hasReplica: bool, sv: Server<D, C>, w: World<D, C>, es: seq<Event>, beats: seq<Beat<D>>)
    requires Lawful(fold, sv, Flow(ClientIn, es)) && AllRouted(fold, hasReplica, es) && Schedule(sv, w, es, beats)
    requires w.history != [] && (hasReplica ==> w.masterConn == w.replicaConn) && AllServed(sv, w, es, beats)
    requires AllCommands(Flow(ClientIn, es)) && |Flow(ClientIn, es)| == |es|
    ensures var (replies, end) := SoloRun(fold, sv, Solo(Last(w.history), w.masterConn), Flow(ClientIn, es), beats);
            var w' := EndWorld(sv, w, es, beats);
            && end == Solo(Last(w'.history), w'.masterConn)
            && (hasReplica ==> w'.replicaConn == end.conn)
            && (ZeroLag(sv, w, es, beats) ==> Flow(ClientOut, es) == replies)
    decreases |es|
  {
    hide Lawful, LawfulFor, Routed, IsCommand, Name, SoloStep, Served, After, Grown;
    if es != [] {
      var e, b := es[0], beats[0];
      assert Routed(fold, hasReplica, e);
      LawfulRest(fold, sv, es);
      StepMeaning(fold, hasReplica, sv, w, e, b);
      if e.Replicated? ==> Tick(w, b).seen == |Tick(w, b).history| - 1 {
        StepReply(fold, hasReplica, sv, w, e, b);
      }
      assert Flow(ClientIn, es)[1..] == Flow(ClientIn, es[1..]);
      RunLikeSolo(fold, hasReplica, sv, After(sv, Tick(w, b), e), es[1..], beats[1..]);
    }
  }

  lemma AllRepliesCons(r: string, rs: seq<string>)
    requires AllReplies(rs)
    ensures AllReplies([] + rs)
    ensures IsReply(r) ==> AllReplies([r] + rs)
  {
    hide IsReply;
  }

  lemma {:induction false} SaidAreReplies<D(!new), C(!new)>(
    fold: Fold, hasReplica: bool, sv: Server<D, C>, w: World<D, C>, es: seq<Event>, beats: seq<Beat<D>>)
    requires Lawful(fold, sv, Flow(ClientIn, es)) && AllRouted(fold, hasReplica, es) && Schedule(sv, w, es, beats)
    ensures AllReplies(MasterSays(sv, w, es, beats)) && |MasterSays(sv, w, es, beats)| == |Flow(MasterOut, es)|
    ensures AllReplies(ReplicaSays(sv, w, es, beats)) && |ReplicaSays(sv, w, es, beats)| == |Flow(ReplicaOut, es)|
    decreases |es|
  {
    hide AllReplies, IsReply, IsCommand, Name, RouteOf, Lawful, LawfulFor, After, Grown;
    if es == [] {
      NoReplies();
    } else {
      var e, t := es[0], Tick(w, beats[0]);
      assert Routed(fold, hasReplica, e);
      LawfulRest(fold, sv, es);
      OneReply(fold, hasReplica, sv, e, Last(t.history), t.masterConn);
      OneReply(fold, hasReplica, sv, e, t.history[t.seen], t.replicaConn);
      var t' := After(sv, t, e);
      SaidAreReplies(fold, hasReplica, sv, t', es[1..], beats[1..]);
      AllRepliesCons(OnMaster(sv, t, e.raw).reply, MasterSays(sv, t', es[1..], beats[1..]));
      AllRepliesCons(OnReplica(sv, t, e.raw).reply, ReplicaSays(sv, t', es[1..], beats[1..]));
    }
  }

  lemma NoReplies()
    ensures AllReplies([])
  {
  }

  lemma OneReply<D(!new), C(!new)>(fold: Fold, hasReplica: bool, sv: Server<D, C>, e: Event, d: D, c: C)
    requires LawfulFor(fold, sv, e.raw) && Routed(fold, hasReplica, e)
    ensures !e.Dropped? ==> IsReply(sv.exec(e.raw, d, c).reply)
  {
    hide IsReply, IsCommand, Name, IsPin, IsState, GetDirection;
    assert LawfulAt(fold, sv, e.raw, d, d, c);
  }

  /**
   * Routing preserves meaning, from byte streams to server state. If the backends' streams begin with their replies
   * to what was forwarded, then at every loop head (1) every reply is explained, at any lag; (2) the master's dataset
   * and both connection states are those of the master-only session; (3) without lag the client's transcript is that
   * of the master-only session, byte for byte.
   */
  lemma RoutingPreservesMeaning<D(!new), C(!new)>(
    fold: Fold, hasReplica: bool, sv: Server<D, C>, all: Streams, es: seq<Event>, wire: Wire,
    data: D, conn: C, beats: seq<Beat<D>>)
    requires Lawful(fold, sv, Front(all.client, |es|)) && Aligned(fold, hasReplica, all, es, wire)
    requires var w := World([data], conn, conn, 0);
             && Schedule(sv, w, es, beats)
             && Concat(MasterSays(sv, w, es, beats)) <= all.master
             && Concat(ReplicaSays(sv, w, es, beats)) <= all.replica
    ensures Explained(sv, [data], conn, es, beats)
    ensures |Front(all.client, |es|)| == |beats|
    ensures var w := World([data], conn, conn, 0);
            var (replies, end) := SoloRun(fold, sv, Solo(data, conn), Front(all.client, |es|), beats);
            var w' := EndWorld(sv, w, es, beats);
            && end == Solo(Last(w'.history), w'.masterConn)
            && (hasReplica ==> w'.replicaConn == end.conn)
            && (ZeroLag(sv, w, es, beats) ==> wire.clientGot == Concat(replies))
    ensures Flow(MasterOut, es) == MasterSays(sv, World([data], conn, conn, 0), es, beats)
  {
    hide LawfulFor, Routed, Answered, IsReply, Concat, Front, IsCommand;
    var w := World([data], conn, conn, 0);
    EventsAreClientCommands(fold, hasReplica, all, es, wire);
    SaidAreReplies(fold, hasReplica, sv, w, es, beats);
    FlowReplies(es, MasterOut);
    FlowReplies(es, ReplicaOut);
    SplitFront(Flow(MasterOut, es), MasterSays(sv, w, es, beats), all.master, wire.masterLeft);
    SplitFront(Flow(ReplicaOut, es), ReplicaSays(sv, w, es, beats), all.replica, wire.replicaLeft);
    SaidIsServed(sv, w, es, beats);
    RunExplained(fold, hasReplica, sv, w, es, beats);
    FlowLength(es);
    RunLikeSolo(fold, hasReplica, sv, w, es, beats);
  }

  /** The replies the session took from a stream are the ones the server put there. */
  lemma SplitFront(taken: seq<string>, said: seq<string>, stream: string, left: string)
    requires AllReplies(taken) && AllReplies(said) && |taken| == |said|
    requires stream == Concat(taken) + left && Concat(said) <= stream
    ensures taken == said
  {
    hide IsReply, Concat;
    assert stream == Concat(said) + stream[|Concat(said)|..];
    UniqueSplit(taken, said, left, stream[|Concat(said)|..]);
  }

  /** How a server carries on a conversation that is not one reply per command: the bytes it sends for those it gets. */
  type Talk<!D, !C> = (D, C, string) -> string

  /**
   * What the master sends during the whole run: its replies and, behind a pin, its raw conversation about every
   * remaining byte of the client.
   */
  ghost predicate MasterStream<D, C>(
    sv: Server<D, C>, talk: Talk<D, C>, w: World<D, C>, es: seq<Event>, beats: seq<Beat<D>>, pinned: bool,
    clientLeft: string, stream: string)
    requires w.history != [] && Schedule(sv, w, es, beats)
  {
    var w', said := EndWorld(sv, w, es, beats), Concat(MasterSays(sv, w, es, beats));
    said <= stream && (pinned ==> stream == said + talk(Last(w'.history), w'.masterConn, clientLeft))
  }

  /** The whole transcript of the master-only session: replies up to the pin, then the raw conversation behind it. */
  ghost function SoloTranscript<D, C>(
    fold: Fold, sv: Server<D, C>, talk: Talk<D, C>, s: Solo<D, C>, raws: seq<string>, beats: seq<Beat<D>>, pinned: bool,
    left: string): string
    requires AllCommands(raws) && |beats| == |raws|
  {
    var (replies, end) := SoloRun(fold, sv, s, raws, beats);
    Concat(replies) + (if pinned then talk(end.data, end.conn, left) else "")
  }

  /** What the server answers to `raw` on its route in the given world. */
  ghost function Answer<D, C>(sv: Server<D, C>, t: World<D, C>, route: Route, raw: string): string
    requires t.seen < |t.history|
  {
    if route == ToReplica then OnReplica(sv, t, raw).reply else OnMaster(sv, t, raw).reply
  }

  /**
   * A run stopped at `raw` finds the answering stream to go on with the server's reply, to break off within it, or to
   * have more behind it; without lag, if the replica answers.
   */
  ghost predicate AnswerFollows<D, C>(
    sv: Server<D, C>, w: World<D, C>, next: Beat<D>, route: Route, raw: string, wire: Wire)
  {
    CanTick(w, next) &&
    var t, left := Tick(w, next), Answering(route, wire);
    (route == ToReplica ==> t.seen == |t.history| - 1) &&
    (Answer(sv, t, route, raw) <= left || left <= Answer(sv, t, route, raw))
  }

  lemma {:induction false} SoloSnoc<D, C>(
    fold: Fold, sv: Server<D, C>, s: Solo<D, C>, raws: seq<string>, beats: seq<Beat<D>>, raw: string, b: Beat<D>)
    requires AllCommands(raws) && |beats| == |raws| && IsCommand(raw)
    ensures AllCommands(raws + [raw])
    ensures var (replies, end) := SoloRun(fold, sv, s, raws, beats);
            SoloRun(fold, sv, s, raws + [raw], beats + [b]).0 == replies + SoloStep(fold, sv, end, raw, b).0
    decreases |raws|
  {
    hide IsCommand, SoloStep;
    if raws == [] {
      assert raws + [raw] == [raw] && beats + [b] == [b];
      assert SoloRun(fold, sv, SoloStep(fold, sv, s, raw, b).1, [raw][1..], [b][1..]).0 == [];
    } else {
      assert (raws + [raw])[1..] == raws[1..] + [raw] && (beats + [b])[1..] == beats[1..] + [b];
      SoloSnoc(fold, sv, SoloStep(fold, sv, s, raws[0], beats[0]).1, raws[1..], beats[1..], raw, b);
    }
  }

  /** The solo session answers the interrupted command with the very bytes the stopped one was relaying. */
  lemma InterruptedAnswer<D(!new), C(!new)>(
    fold: Fold, hasReplica: bool, sv: Server<D, C>, w: World<D, C>, next: Beat<D>, raw: string, wire: Wire)
    requires LawfulFor(fold, sv, raw) && IsCommand(raw) && (hasReplica ==> w.masterConn == w.replicaConn)
    requires var route := RouteOf(fold, Name(fold, raw), hasReplica);
             route in {Mirror, ToMaster, ToReplica} && AnswerFollows(sv, w, next, route, raw, wire)
    ensures var route := RouteOf(fold, Name(fold, raw), hasReplica);
            var answer := Answer(sv, Tick(w, next), route, raw);
            && SoloStep(fold, sv, Solo(Last(w.history), w.masterConn), raw, next).0 == [answer]
            && Relayed(Answering(route, wire), 1) <= answer
  {
    hide IsCommand, IsReply, Name, IsPin, IsState, GetDirection, Relayed;
    var t, route := Tick(w, next), RouteOf(fold, Name(fold, raw), hasReplica);
    var d := if route == ToReplica then t.history[t.seen] else Last(t.history);
    assert LawfulAt(fold, sv, raw, d, d, t.masterConn);
    RelayedAtMost(Answering(route, wire), Answer(sv, t, route, raw));
  }

  lemma StoppedTranscript<D(!new), C(!new)>(
    fold: Fold, hasReplica: bool, sv: Server<D, C>, w: World<D, C>, next: Beat<D>, raw: string, wire: Wire, o: Outputs,
    s: Solo<D, C>, raws: seq<string>, beats: seq<Beat<D>>)
    requires LawfulFor(fold, sv, raw) && StoppedAt(fold, hasReplica, wire, raw, o)
    requires hasReplica ==> w.masterConn == w.replicaConn
    requires AnswerFollows(sv, w, next, RouteOf(fold, Name(fold, raw), hasReplica), raw, wire)
    requires AllCommands(raws) && |beats| == |raws|
    requires var (replies, end) := SoloRun(fold, sv, s, raws, beats);
             end == Solo(Last(w.history), w.masterConn) && wire.clientGot == Concat(replies)
    ensures AllCommands(raws + [raw])
    ensures o.client <= Concat(SoloRun(fold, sv, s, raws + [raw], beats + [next]).0)
  {
    hide LawfulFor, Concat, IsCommand, Name, RouteOf, Excused, SoloRun, SoloStep, Answer, Relayed;
    var answer := Answer(sv, Tick(w, next), RouteOf(fold, Name(fold, raw), hasReplica), raw);
    InterruptedAnswer(fold, hasReplica, sv, w, next, raw, wire);
    SoloSnoc(fold, sv, s, raws, beats, raw, next);
    var replies := SoloRun(fold, sv, s, raws, beats).0;
    ConcatAppend(replies, [answer]);
    OneConcat(answer);
    Below(o.client, wire.clientGot, Relayed(Answering(RouteOf(fold, Name(fold, raw), hasReplica), wire), 1), answer);
  }

  lemma OneConcat(s: string)
    ensures Concat([s]) == s
  {
    assert [s][1..] == [] && s + "" == s;
  }

  lemma Below(now: string, got: string, part: string, whole: string)
    requires now <= got + part && part <= whole
    ensures now <= got + whole
  {
    assert got + part <= got + whole;
  }

  /**
   * Without lag, the whole run is transparent, however it ends and to the last byte. Closed or pinned, it has served
   * all the client's commands, or all in front of the pin, and the client has received exactly what a session on the
   * master alone would have sent it, or a prefix of that if a write failed. Stopped, which takes a failed write or a
   * backend with too few replies, the client has the replies to all completed commands, and behind them nothing but
   * the beginning of what that session answers to the interrupted one.
   */
  lemma WholeRunTransparent<D(!new), C(!new)>(
    fold: Fold, hasReplica: bool, sv: Server<D, C>, talk: Talk<D, C>, all: Streams, es: seq<Event>, wire: Wire,
    end: End, raw: string, o: Outputs, data: D, conn: C, beats: seq<Beat<D>>, next: Beat<D>)
    requires WholeRun(fold, hasReplica, all, es, wire, end, raw, o)
    requires Lawful(fold, sv, Front(all.client, |es|)) && (end.Stopped? ==> LawfulFor(fold, sv, raw))
    requires var w := World([data], conn, conn, 0);
             && Schedule(sv, w, es, beats) && ZeroLag(sv, w, es, beats)
             && MasterStream(sv, talk, w, es, beats, end.Pinned?, wire.clientLeft, all.master)
             && Concat(ReplicaSays(sv, w, es, beats)) <= all.replica
             && (end.Stopped? ==>
                   var route := RouteOf(fold, Name(fold, raw), hasReplica);
                   AnswerFollows(sv, EndWorld(sv, w, es, beats), next, route, raw, wire))
    ensures |Front(all.client, |es|)| == |beats|
    ensures all.client == Concat(Front(all.client, |es|)) + wire.clientLeft
    ensures var front := Front(all.client, |es|);
            var solo := SoloTranscript(fold, sv, talk, Solo(data, conn), front, beats, end.Pinned?, wire.clientLeft);
            && Concat(SoloRun(fold, sv, Solo(data, conn), front, beats).0) <= o.client
            && (end.Closed? ==> o.client == solo)
            && (end.Pinned? ==> o.client <= solo && (!o.clientBroken && !o.masterBroken ==> o.client == solo))
            && (end.Stopped? ==>
                  && raw <= wire.clientLeft && AllCommands(front + [raw])
                  && o.client <= Concat(SoloRun(fold, sv, Solo(data, conn), front + [raw], beats + [next]).0))
    ensures !end.Stopped? ==> Front(all.client, |es|) == Script(fold, all.client)
    ensures end.Closed? ==> Front(all.client, |es|) == Frames(all.client)
    ensures Unbroken(o) && Supplied(fold, hasReplica, all) ==> !end.Stopped?
  {
    hide Lawful, LawfulFor, Aligned, Concat, Front, IsCommand, ParseCommand, IsPin, Name, RouteOf, Excused, Flow;
    hide Supplied, Script, Frames, SoloRun, EndWorld, MasterSays, ReplicaSays, Schedule, ZeroLag, Explained;
    hide AnswerFollows, Relayed;
    RoutingPreservesMeaning(fold, hasReplica, sv, all, es, wire, data, conn, beats);
    InputsFromClient(fold, hasReplica, all, es, wire);
    var w' := EndWorld(sv, World([data], conn, conn, 0), es, beats);
    if end.Pinned? {
      StreamsOf(fold, hasReplica, all, es, wire);
      SameSuffix(Concat(Flow(MasterOut, es)), wire.masterLeft, talk(Last(w'.history), w'.masterConn, wire.clientLeft));
    }
    if !end.Stopped? {
      EndServesScript(fold, hasReplica, all, es, wire, end, raw, o);
    } else if Unbroken(o) && Supplied(fold, hasReplica, all) {
      WholeScriptServed(fold, hasReplica, all, es, wire, end, raw, o);
    }
    if end.Stopped? {
      StoppedTranscript(fold, hasReplica, sv, w', next, raw, wire, o, Solo(data, conn), Front(all.client, |es|), beats);
    }
  }
}
