/** What holds at every loop head, and at the end, of every run of the routed session. */
module SessionLaws {
  import opened Bytes
  import opened Commands
  import opened Replies
  import opened Router
  import opened Routing

  /** The frames on the given routes, in order. */
  function Select(fold: Fold, hasReplica: bool, raws: seq<string>, routes: set<Route>): seq<string>
    requires AllCommands(raws)
  {
    if raws == [] then [] else
      (if RouteOf(fold, Name(fold, raws[0]), hasReplica) in routes then [raws[0]] else []) +
      Select(fold, hasReplica, raws[1..], routes)
  }

  lemma SelectNil(fold: Fold, hasReplica: bool)
    ensures AllCommands([])
    ensures forall routes :: Select(fold, hasReplica, [], routes) == []
  {
  }

  lemma SelectCons(fold: Fold, hasReplica: bool, raw: string, raws: seq<string>, routes: set<Route>)
    requires IsCommand(raw) && AllCommands(raws)
    ensures AllCommands([raw] + raws)
    ensures Select(fold, hasReplica, [raw] + raws, routes) ==
            (if RouteOf(fold, Name(fold, raw), hasReplica) in routes then [raw] else []) +
            Select(fold, hasReplica, raws, routes)
  {
    hide IsCommand, RouteOf, Name;
    assert ([raw] + raws)[1..] == raws;
  }

  lemma {:induction false} FlowCommands(fold: Fold, hasReplica: bool, es: seq<Event>, c: Channel)
    requires AllRouted(fold, hasReplica, es) && c in {ClientIn, MasterIn, ReplicaIn}
    ensures AllCommands(Flow(c, es))
  {
    hide IsCommand, RouteOf;
    if es != [] {
      assert Routed(fold, hasReplica, es[0]);
      FlowCommands(fold, hasReplica, es[1..], c);
    }
  }

  lemma {:induction false} FlowReplies(es: seq<Event>, c: Channel)
    requires AllAnswered(es) && c in {ClientOut, MasterOut, ReplicaOut}
    ensures AllReplies(Flow(c, es))
  {
    hide IsReply;
    if es != [] {
      assert Answered(es[0]);
      FlowReplies(es[1..], c);
    }
  }

  /** Every frame is accounted for: where it goes is decided by its own route alone, and order is kept. */
  lemma {:induction false} FramesByRoute(fold: Fold, hasReplica: bool, es: seq<Event>)
    requires AllRouted(fold, hasReplica, es)
    ensures AllCommands(Flow(ClientIn, es))
    ensures Flow(MasterIn, es) == Select(fold, hasReplica, Flow(ClientIn, es), {Mirror, ToMaster})
    ensures Flow(ReplicaIn, es) == Select(fold, hasReplica, Flow(ClientIn, es), {Mirror, ToReplica})
    ensures |Flow(ClientOut, es)| == |Select(fold, hasReplica, Flow(ClientIn, es), {Mirror, ToMaster, ToReplica})|
    ensures Select(fold, hasReplica, Flow(ClientIn, es), {Pin}) == []
  {
    hide IsCommand, RouteOf, Name, Select, AllCommands;
    FlowCommands(fold, hasReplica, es, ClientIn);
    if es == [] {
      SelectNil(fold, hasReplica);
    } else {
      assert Routed(fold, hasReplica, es[0]);
      FramesByRoute(fold, hasReplica, es[1..]);
      forall routes: set<Route> {
        SelectCons(fold, hasReplica, es[0].raw, Flow(ClientIn, es[1..]), routes);
      }
    }
  }

  /** The completed iterations are the first commands of the client's stream, whatever the backends answer. */
  lemma EventsAreClientCommands(fold: Fold, hasReplica: bool, all: Streams, es: seq<Event>, w: Wire)
    requires Aligned(fold, hasReplica, all, es, w)
    ensures |es| <= |Frames(all.client)| && Flow(ClientIn, es) == Front(all.client, |es|)
  {
    hide IsCommand, Routed, Answered, Concat, Frames;
    FlowCommands(fold, hasReplica, es, ClientIn);
    FramesConcat(Flow(ClientIn, es), w.clientLeft);
    FlowLength(es);
  }

  lemma {:induction false} FlowLength(es: seq<Event>)
    ensures |Flow(ClientIn, es)| == |es|
  {
    if es != [] {
      FlowLength(es[1..]);
    }
  }

  /** Byte accounting at a loop head: the master's and the replica's input are functions of the client's stream. */
  lemma InputsFromClient(fold: Fold, hasReplica: bool, all: Streams, es: seq<Event>, w: Wire)
    requires Aligned(fold, hasReplica, all, es, w)
    ensures all.client == Concat(Front(all.client, |es|)) + w.clientLeft
    ensures w.masterGot == Concat(Select(fold, hasReplica, Front(all.client, |es|), {Mirror, ToMaster}))
    ensures w.replicaGot == Concat(Select(fold, hasReplica, Front(all.client, |es|), {Mirror, ToReplica}))
    ensures Select(fold, hasReplica, Front(all.client, |es|), {Pin}) == []
  {
    hide IsCommand, Routed, Answered, Front, Concat, Select;
    EventsAreClientCommands(fold, hasReplica, all, es, w);
    FramesByRoute(fold, hasReplica, es);
  }

  /**
   * The master's whole input at the end of a run: the frames routed to it and, behind a pin, every remaining byte of
   * the client; never anything else.
   */
  lemma FinalMasterInput(
    fold: Fold, hasReplica: bool, all: Streams, es: seq<Event>, w: Wire, end: End, raw: string, o: Outputs)
    requires WholeRun(fold, hasReplica, all, es, w, end, raw, o)
    ensures all.client == Concat(Front(all.client, |es|)) + w.clientLeft
    ensures var sent := Concat(Select(fold, hasReplica, Front(all.client, |es|), {Mirror, ToMaster}));
            && PartOf(sent, w.clientLeft, o.master)
            && (end.Closed? ==> o.master == sent)
            && (end.Pinned? && !o.masterBroken ==> o.master == sent + w.clientLeft)
            && (end.Stopped? ==> PartOf(sent, ForMaster(RouteOf(fold, Name(fold, raw), hasReplica), raw), o.master))
  {
    hide IsCommand, Front, Concat, Select, Aligned, RouteOf, Name, Excused, ParseCommand, Relayed;
    InputsFromClient(fold, hasReplica, all, es, w);
    if end.Stopped? {
      var part := ForMaster(RouteOf(fold, Name(fold, raw), hasReplica), raw);
      PartAtOnce(w.masterGot, part, w.clientLeft[|part|..], o.master);
      assert w.clientLeft == part + w.clientLeft[|part|..];
    }
  }

  /** Without a replica the master is sent the client's whole stream but for frames with an empty name before a pin. */
  lemma MasterSeesAllButDropped(
    fold: Fold, all: Streams, es: seq<Event>, w: Wire, end: End, raw: string, o: Outputs)
    requires WholeRun(fold, false, all, es, w, end, raw, o)
    ensures all.client == Concat(Front(all.client, |es|)) + w.clientLeft
    ensures var sent := Concat(NonEmpty(fold, Front(all.client, |es|)));
            && PartOf(sent, w.clientLeft, o.master)
            && (end.Closed? ==> o.master == sent)
            && (end.Pinned? && !o.masterBroken ==> o.master == sent + w.clientLeft)
            && (end.Stopped? && !o.masterBroken && !o.replicaBroken ==> o.master == sent + raw)
    ensures o.replica == ""
  {
    hide IsCommand, Front, Concat, Select, NonEmpty, Aligned, Name, IsPin, IsState, GetDirection, ParseCommand;
    hide Excused, Relayed;
    FinalMasterInput(fold, false, all, es, w, end, raw, o);
    InputsFromClient(fold, false, all, es, w);
    AllToMaster(fold, Front(all.client, |es|));
    NothingConcat();
  }

  lemma NothingConcat()
    ensures Concat([]) == ""
  {
  }

  function NonEmpty(fold: Fold, raws: seq<string>): seq<string>
    requires AllCommands(raws)
  {
    if raws == [] then [] else (if Name(fold, raws[0]) != "" then [raws[0]] else []) + NonEmpty(fold, raws[1..])
  }

  lemma {:induction false} AllToMaster(fold: Fold, raws: seq<string>)
    requires AllCommands(raws) && Select(fold, false, raws, {Pin}) == []
    ensures Select(fold, false, raws, {Mirror, ToMaster}) == NonEmpty(fold, raws)
    ensures Select(fold, false, raws, {Mirror, ToReplica}) == []
  {
    hide IsCommand, Name, IsPin, IsState, GetDirection;
    if raws != [] {
      AllToMaster(fold, raws[1..]);
    }
  }

  // Lock-step.

  /** Replies consumed match commands forwarded, per backend and for the client, and split at the same points. */
  lemma LockStep(fold: Fold, hasReplica: bool, all: Streams, es: seq<Event>, w: Wire)
    requires Aligned(fold, hasReplica, all, es, w)
    ensures Relay(all.master, |Frames(w.masterGot)|) == Some(Flow(MasterOut, es))
    ensures Relay(all.replica, |Frames(w.replicaGot)|) == Some(Flow(ReplicaOut, es))
    ensures Relay(w.clientGot, |NonEmpty(fold, Front(all.client, |es|))|) == Some(Flow(ClientOut, es))
    ensures all.master == Concat(Flow(MasterOut, es)) + w.masterLeft
    ensures all.replica == Concat(Flow(ReplicaOut, es)) + w.replicaLeft
  {
    hide IsCommand, Routed, Answered, Frames, Front, Concat, IsReply, Relay, Select, NonEmpty, Flow;
    BackendLockStep(fold, hasReplica, es, MasterIn, MasterOut, w.masterLeft);
    BackendLockStep(fold, hasReplica, es, ReplicaIn, ReplicaOut, w.replicaLeft);
    EventsAreClientCommands(fold, hasReplica, all, es, w);
    FramesByRoute(fold, hasReplica, es);
    FlowReplies(es, ClientOut);
    RelayConcat(Flow(ClientOut, es), "");
    assert Concat(Flow(ClientOut, es)) + "" == Concat(Flow(ClientOut, es));
    AnsweredNames(fold, hasReplica, Flow(ClientIn, es));
  }

  lemma FramesOf(raws: seq<string>)
    requires AllCommands(raws)
    ensures Frames(Concat(raws)) == raws
  {
    hide IsCommand, Concat;
    FramesConcat(raws, "");
    assert Concat(raws) + "" == Concat(raws);
    assert Frames("") == [];
  }

  lemma BackendLockStep(fold: Fold, hasReplica: bool, es: seq<Event>, input: Channel, output: Channel, left: string)
    requires AllRouted(fold, hasReplica, es) && AllAnswered(es)
    requires (input == MasterIn && output == MasterOut) || (input == ReplicaIn && output == ReplicaOut)
    ensures Relay(Sent(output, es) + left, |Frames(Sent(input, es))|) == Some(Flow(output, es))
  {
    hide IsCommand, Routed, Answered, Frames, Concat, IsReply, Relay;
    FlowCommands(fold, hasReplica, es, input);
    FramesOf(Flow(input, es));
    FlowReplies(es, output);
    SameLength(es, input, output);
    RelayConcat(Flow(output, es), left);
  }

  lemma {:induction false} SameLength(es: seq<Event>, input: Channel, output: Channel)
    requires (input == MasterIn && output == MasterOut) || (input == ReplicaIn && output == ReplicaOut)
    ensures |Flow(input, es)| == |Flow(output, es)|
  {
    if es != [] {
      SameLength(es[1..], input, output);
    }
  }

  lemma {:induction false} AnsweredNames(fold: Fold, hasReplica: bool, raws: seq<string>)
    requires AllCommands(raws) && Select(fold, hasReplica, raws, {Pin}) == []
    ensures Select(fold, hasReplica, raws, {Mirror, ToMaster, ToReplica}) == NonEmpty(fold, raws)
  {
    hide IsCommand, Name, IsPin, IsState, GetDirection;
    if raws != [] {
      AnsweredNames(fold, hasReplica, raws[1..]);
    }
  }

  // What a replica may see.

  predicate Permitted(fold: Fold, name: string) {
    name != "" && !IsPin(name) && !IsSubscription(name) && (IsState(name) || GetDirection(fold, name) == Read)
  }

  predicate PermittedFrame(fold: Fold, hasReplica: bool, raw: string) {
    IsCommand(raw) && hasReplica && Permitted(fold, Name(fold, raw))
  }

  lemma {:induction false} ReplicaFlowPermitted(fold: Fold, hasReplica: bool, es: seq<Event>)
    requires AllRouted(fold, hasReplica, es)
    ensures AllCommands(Flow(ReplicaIn, es))
    ensures forall raw :: raw in Flow(ReplicaIn, es) ==> PermittedFrame(fold, hasReplica, raw)
  {
    hide IsCommand, Name, IsState, GetDirection, IsSubscription;
    FlowCommands(fold, hasReplica, es, ReplicaIn);
    if es != [] {
      assert Routed(fold, hasReplica, es[0]);
      ReplicaFlowPermitted(fold, hasReplica, es[1..]);
    }
  }

  /** The replica's input stays isolated with part of a frame behind it that is itself on a replica's route. */
  lemma PartIsolated(
    fold: Fold, hasReplica: bool, all: Streams, es: seq<Event>, w: Wire, raw: string, part: string)
    requires Aligned(fold, hasReplica, all, es, w)
    requires part == "" ||
             (IsCommand(raw) && part <= raw && RouteOf(fold, Name(fold, raw), hasReplica) in {Mirror, ToReplica})
    ensures forall cmd :: cmd in Frames(w.replicaGot + part) ==> PermittedFrame(fold, hasReplica, cmd)
  {
    hide Routed, Answered, Concat, Frames, IsCommand, Name, IsState, GetDirection, IsSubscription;
    ReplicaFlowPermitted(fold, hasReplica, es);
    FramesConcat(Flow(ReplicaIn, es), part);
    if part == "" {
      FramesOf([]);
      NothingConcat();
    } else {
      FramesPart(raw, part);
    }
  }

  /**
   * Replica isolation: however a run ends, and wherever it was cut, everything the replica was ever sent decodes to
   * mirrored state commands and read-only, non-pinning commands.
   */
  lemma ReplicaIsolation(
    fold: Fold, hasReplica: bool, all: Streams, es: seq<Event>, w: Wire, end: End, raw: string, o: Outputs)
    requires WholeRun(fold, hasReplica, all, es, w, end, raw, o)
    ensures forall cmd :: cmd in Frames(o.replica) ==> PermittedFrame(fold, hasReplica, cmd)
  {
    hide Aligned, Frames, IsCommand, Name, RouteOf, Excused, PermittedFrame, ParseCommand, Relayed;
    var part := o.replica[|w.replicaGot|..];
    assert o.replica == w.replicaGot + part;
    PartIsolated(fold, hasReplica, all, es, w, raw, part);
  }

  // Connection state.

  function StateFrames(fold: Fold, raws: seq<string>): seq<string>
    requires AllCommands(raws)
  {
    if raws == [] then [] else
      (if IsState(Name(fold, raws[0])) then [raws[0]] else []) + StateFrames(fold, raws[1..])
  }

  /** Both backends have been sent the same state commands, byte for byte and in the same order. */
  lemma StateInSync(fold: Fold, all: Streams, es: seq<Event>, w: Wire)
    requires Aligned(fold, true, all, es, w)
    ensures StateFrames(fold, Frames(w.masterGot)) == StateFrames(fold, Frames(w.replicaGot))
  {
    hide Routed, Answered, Concat, Frames, IsCommand, StateFrames;
    FlowCommands(fold, true, es, MasterIn);
    FlowCommands(fold, true, es, ReplicaIn);
    FramesOf(Flow(MasterIn, es));
    FramesOf(Flow(ReplicaIn, es));
    SameStateFrames(fold, es);
  }

  lemma StateFramesCons(fold: Fold, raw: string, raws: seq<string>)
    requires IsCommand(raw) && AllCommands(raws)
    ensures AllCommands([raw] + raws)
    ensures StateFrames(fold, [raw] + raws) ==
            (if IsState(Name(fold, raw)) then [raw] else []) + StateFrames(fold, raws)
  {
    hide IsCommand, Name, IsState;
    assert ([raw] + raws)[1..] == raws;
  }

  lemma {:induction false} SameStateFrames(fold: Fold, es: seq<Event>)
    requires AllRouted(fold, true, es) && AllCommands(Flow(MasterIn, es)) && AllCommands(Flow(ReplicaIn, es))
    ensures StateFrames(fold, Flow(MasterIn, es)) == StateFrames(fold, Flow(ReplicaIn, es))
  {
    hide IsCommand, Name, IsState, GetDirection, IsPin, StateFrames, AllCommands;
    if es != [] {
      var e, rest := es[0], es[1..];
      assert Routed(fold, true, e);
      FlowCommands(fold, true, rest, MasterIn);
      FlowCommands(fold, true, rest, ReplicaIn);
      SameStateFrames(fold, rest);
      StateFramesCons(fold, e.raw, Flow(MasterIn, rest));
      StateFramesCons(fold, e.raw, Flow(ReplicaIn, rest));
      assert [] + Flow(MasterIn, rest) == Flow(MasterIn, rest);
      assert [] + Flow(ReplicaIn, rest) == Flow(ReplicaIn, rest);
    }
  }

  // Determinism.

  lemma {:induction false} EventsDetermined(fold: Fold, hasReplica: bool, a: seq<Event>, b: seq<Event>)
    requires AllRouted(fold, hasReplica, a) && AllRouted(fold, hasReplica, b) && |a| == |b|
    requires forall c | c in {ClientIn, MasterOut, ReplicaOut} :: Flow(c, a) == Flow(c, b)
    ensures a == b
  {
    hide IsCommand, RouteOf, Name;
    if a != [] {
      var x, y := a[0], b[0];
      assert Routed(fold, hasReplica, x) && Routed(fold, hasReplica, y);
      assert Flow(ClientIn, a)[0] == x.raw && Flow(ClientIn, b)[0] == y.raw;
      forall c | c in {ClientIn, MasterOut, ReplicaOut}
        ensures Flow(c, a[1..]) == Flow(c, b[1..]) && On(c, x) == On(c, y)
      {
        var n := |On(c, x)|;
        assert Flow(c, a)[..n] == On(c, x) && Flow(c, a)[n..] == Flow(c, a[1..]);
        assert Flow(c, b)[..n] == On(c, y) && Flow(c, b)[n..] == Flow(c, b[1..]);
      }
      assert On(MasterOut, x) == On(MasterOut, y) && On(ReplicaOut, x) == On(ReplicaOut, y);
      EventsDetermined(fold, hasReplica, a[1..], b[1..]);
      assert a == [x] + a[1..] && b == [y] + b[1..];
    }
  }

  lemma SameReplies(a: seq<Event>, b: seq<Event>, input: Channel, output: Channel, s: string, t: string)
    requires AllAnswered(a) && AllAnswered(b) && Flow(input, a) == Flow(input, b)
    requires (input == MasterIn && output == MasterOut) || (input == ReplicaIn && output == ReplicaOut)
    requires Sent(output, a) + s == Sent(output, b) + t
    ensures Flow(output, a) == Flow(output, b) && s == t
  {
    hide Answered, IsReply, Flow, Concat;
    FlowReplies(a, output);
    FlowReplies(b, output);
    SameLength(a, input, output);
    SameLength(b, input, output);
    UniqueSplit(Flow(output, a), Flow(output, b), s, t);
  }

  /** The three incoming streams determine the events; how they are cut into reads does not matter. */
  lemma StreamsDetermineRun(fold: Fold, hasReplica: bool, all: Streams, a: seq<Event>, v: Wire, b: seq<Event>, w: Wire)
    requires Aligned(fold, hasReplica, all, a, v) && Aligned(fold, hasReplica, all, b, w) && |a| == |b|
    ensures a == b && v == w
  {
    hide IsCommand, Routed, Answered, Front, Concat, Select, Flow;
    EventsAreClientCommands(fold, hasReplica, all, a, v);
    EventsAreClientCommands(fold, hasReplica, all, b, w);
    FramesByRoute(fold, hasReplica, a);
    FramesByRoute(fold, hasReplica, b);
    SameReplies(a, b, MasterIn, MasterOut, v.masterLeft, w.masterLeft);
    SameReplies(a, b, ReplicaIn, ReplicaOut, v.replicaLeft, w.replicaLeft);
    EventsDetermined(fold, hasReplica, a, b);
    SameSuffix(Sent(ClientIn, a), v.clientLeft, w.clientLeft);
  }

  lemma SameSuffix(p: string, s: string, t: string)
    requires p + s == p + t
    ensures s == t
  {
    assert s == (p + s)[|p|..] && t == (p + t)[|p|..];
  }

  // Determinism of whole runs.

  lemma SentSplit(c: Channel, a: seq<Event>, b: seq<Event>)
    ensures Sent(c, a + b) == Sent(c, a) + Sent(c, b)
  {
    hide Flow, Concat;
    FlowAppend(c, a, b);
    ConcatAppend(Flow(c, a), Flow(c, b));
  }

  /** Every loop head on the way was aligned too. */
  lemma AlignedBefore(fold: Fold, hasReplica: bool, all: Streams, a: seq<Event>, b: seq<Event>, w: Wire)
    requires Aligned(fold, hasReplica, all, a + b, w)
    ensures var v := Wire(Sent(ClientIn, b) + w.clientLeft, Sent(ClientOut, a), Sent(MasterIn, a),
                          Sent(MasterOut, b) + w.masterLeft, Sent(ReplicaIn, a), Sent(ReplicaOut, b) + w.replicaLeft);
            Aligned(fold, hasReplica, all, a, v)
  {
    hide Routed, Answered, Sent;
    forall c: Channel {
      SentSplit(c, a, b);
    }
    Assoc(Sent(ClientIn, a), Sent(ClientIn, b), w.clientLeft);
    Assoc(Sent(MasterOut, a), Sent(MasterOut, b), w.masterLeft);
    Assoc(Sent(ReplicaOut, a), Sent(ReplicaOut, b), w.replicaLeft);
    assert forall e :: e in a ==> e in a + b;
  }

  lemma CommandInFront(s: string, raw: string)
    requires IsCommand(raw) && raw <= s
    ensures ParseCommand(s).Command? && ParseCommand(s).size == |raw|
  {
    hide ParseCommand;
    CommandExtend(raw, s[|raw|..]);
    assert s == raw + s[|raw|..];
  }

  lemma ReplyInFront(s: string, reply: string)
    requires IsReply(reply) && reply <= s
    ensures Copy(Int64, s, 1).Some?
  {
    hide Copy;
    CopyExtend(Int64, reply, s[|reply|..], 1);
    assert s == reply + s[|reply|..];
  }

  lemma SentFirst(c: Channel, e: Event, es: seq<Event>)
    ensures Part(c, e) <= Sent(c, [e] + es)
  {
    SentSplit(c, [e], es);
    SentOne(c, [], e);
    assert [] + [e] == [e];
  }

  predicate Unbroken(o: Outputs) { !o.clientBroken && !o.masterBroken && !o.replicaBroken }

  /** No unbroken run ends where another one still completes an iteration. */
  lemma EndsNoEarlier(
    fold: Fold, hasReplica: bool, all: Streams, a: seq<Event>, v: Wire, end: End, raw: string, o: Outputs,
    b: seq<Event>, w: Wire)
    requires WholeRun(fold, hasReplica, all, a, v, end, raw, o) && Unbroken(o)
    requires Aligned(fold, hasReplica, all, b, w)
    ensures |b| <= |a|
  {
    hide IsCommand, ParseCommand, IsReply, Copy, Name, Sent, HalfDone, HandedOver, AllRouted, AllAnswered, Quiet;
    if |a| < |b| {
      var e, more := b[|a|], b[|a| + 1..];
      assert b[..|a|] + ([e] + more) == b;
      AlignedBefore(fold, hasReplica, all, b[..|a|], [e] + more, w);
      var u := Wire(Sent(ClientIn, [e] + more) + w.clientLeft, Sent(ClientOut, b[..|a|]), Sent(MasterIn, b[..|a|]),
                    Sent(MasterOut, [e] + more) + w.masterLeft, Sent(ReplicaIn, b[..|a|]),
                    Sent(ReplicaOut, [e] + more) + w.replicaLeft);
      StreamsDetermineRun(fold, hasReplica, all, a, v, b[..|a|], u);
      EventInList(fold, hasReplica, b, e);
      SentFirst(ClientIn, e, more);
      SentFirst(MasterOut, e, more);
      SentFirst(ReplicaOut, e, more);
      NeitherEnds(fold, hasReplica, v, e, end, raw, o);
    }
  }

  lemma EventInList(fold: Fold, hasReplica: bool, es: seq<Event>, e: Event)
    requires AllRouted(fold, hasReplica, es) && AllAnswered(es) && e in es
    ensures Routed(fold, hasReplica, e) && Answered(e)
  {
    hide Routed, Answered;
  }

  /** A loop head from which a whole iteration can be taken is not the end of an unbroken run. */
  lemma NeitherEnds(fold: Fold, hasReplica: bool, v: Wire, e: Event, end: End, raw: string, o: Outputs)
    requires Routed(fold, hasReplica, e) && Answered(e) && Unbroken(o)
    requires e.raw <= v.clientLeft && Part(MasterOut, e) <= v.masterLeft && Part(ReplicaOut, e) <= v.replicaLeft
    ensures end.Closed? ==> !ParseCommand(v.clientLeft).Malformed?
    ensures end.Pinned? ==> !PinnedBy(fold, v.clientLeft, raw)
    ensures end.Stopped? ==> !StoppedAt(fold, hasReplica, v, raw, o)
  {
    hide IsCommand, ParseCommand, IsReply, Copy, Name, IsState, GetDirection, HalfDone;
    CommandInFront(v.clientLeft, e.raw);
    if IsCommand(raw) && raw <= v.clientLeft {
      CommandInFront(v.clientLeft, raw);
      assert raw == v.clientLeft[..|raw|] == e.raw;
      if e.Mirrored? || e.Mastered? {
        ReplyInFront(v.masterLeft, e.reply);
      }
      if e.Mirrored? || e.Replicated? {
        ReplyInFront(v.replicaLeft, Part(ReplicaOut, e));
      }
    }
  }

  /** The three incoming streams determine a whole unbroken run: its events, how it ends, and all it has sent. */
  lemma StreamsDetermineWholeRun(
    fold: Fold, hasReplica: bool, all: Streams,
    a: seq<Event>, v: Wire, endA: End, rawA: string, outA: Outputs,
    b: seq<Event>, w: Wire, endB: End, rawB: string, outB: Outputs)
    requires WholeRun(fold, hasReplica, all, a, v, endA, rawA, outA) && Unbroken(outA)
    requires WholeRun(fold, hasReplica, all, b, w, endB, rawB, outB) && Unbroken(outB)
    ensures a == b && v == w && endA == endB && (!endA.Closed? ==> rawA == rawB)
    ensures outA == outB
  {
    hide Aligned, IsCommand, ParseCommand, Copy, Name, IsPin, IsState, GetDirection, Excused, Relayed;
    EndsNoEarlier(fold, hasReplica, all, a, v, endA, rawA, outA, b, w);
    EndsNoEarlier(fold, hasReplica, all, b, w, endB, rawB, outB, a, v);
    StreamsDetermineRun(fold, hasReplica, all, a, v, b, w);
    if IsCommand(rawA) && rawA <= v.clientLeft {
      CommandInFront(v.clientLeft, rawA);
    }
    if IsCommand(rawB) && rawB <= v.clientLeft {
      CommandInFront(v.clientLeft, rawB);
    }
    assert |rawA| == |rawB| && rawA <= v.clientLeft && rawB <= v.clientLeft ==> rawA == rawB;
  }

  // The whole script is served.

  /** The commands in front of the first that pins. */
  function BeforePin(fold: Fold, raws: seq<string>): (rs: seq<string>)
    requires AllCommands(raws)
    ensures AllCommands(rs) && rs <= raws
  {
    hide IsCommand, Name, IsPin;
    if raws == [] || IsPin(Name(fold, raws[0])) then [] else [raws[0]] + BeforePin(fold, raws[1..])
  }

  /** The commands a client's stream asks to be routed. */
  function Script(fold: Fold, client: string): (rs: seq<string>)
    ensures AllCommands(rs)
  {
    hide IsCommand, Frames;
    BeforePin(fold, Frames(client))
  }

  lemma CommandsAppend(a: seq<string>, b: seq<string>)
    ensures AllCommands(a) && AllCommands(b) <==> AllCommands(a + b)
  {
    hide IsCommand;
    assert forall i :: 0 <= i < |a| ==> (a + b)[i] == a[i];
    assert forall i :: 0 <= i < |b| ==> (a + b)[|a| + i] == b[i];
  }

  lemma {:induction false} SelectAppend(
    fold: Fold, hasReplica: bool, a: seq<string>, b: seq<string>, routes: set<Route>)
    requires AllCommands(a) && AllCommands(b)
    ensures AllCommands(a + b)
    ensures Select(fold, hasReplica, a + b, routes) ==
            Select(fold, hasReplica, a, routes) + Select(fold, hasReplica, b, routes)
  {
    hide IsCommand, RouteOf, Name, Select, AllCommands;
    CommandsAppend(a, b);
    if a == [] {
      SelectNil(fold, hasReplica);
      assert a + b == b;
    } else {
      var x, rest := a[0], a[1..];
      assert a == [x] + rest && a + b == [x] + (rest + b);
      FirstCommand(x, rest);
      SelectAppend(fold, hasReplica, rest, b, routes);
      SelectCons(fold, hasReplica, x, rest, routes);
      SelectCons(fold, hasReplica, x, rest + b, routes);
    }
  }

  lemma FirstCommand(x: string, rest: seq<string>)
    requires AllCommands([x] + rest)
    ensures IsCommand(x) && AllCommands(rest)
  {
    hide IsCommand;
    CommandsAppend([x], rest);
    assert [x][0] == x;
  }

  lemma PinRoute(fold: Fold, hasReplica: bool, name: string)
    ensures IsPin(name) <==> RouteOf(fold, name, hasReplica) == Pin
  {
    hide IsState, GetDirection;
  }

  lemma BeforePinCons(fold: Fold, raw: string, raws: seq<string>)
    requires IsCommand(raw) && AllCommands(raws)
    ensures AllCommands([raw] + raws)
    ensures BeforePin(fold, [raw] + raws) == if IsPin(Name(fold, raw)) then [] else [raw] + BeforePin(fold, raws)
  {
    hide IsCommand, Name, IsPin;
    assert ([raw] + raws)[1..] == raws;
  }

  lemma {:induction false} BeforePinAppend(fold: Fold, hasReplica: bool, a: seq<string>, b: seq<string>)
    requires AllCommands(a) && AllCommands(b) && Select(fold, hasReplica, a, {Pin}) == []
    ensures AllCommands(a + b) && BeforePin(fold, a + b) == a + BeforePin(fold, b)
  {
    hide IsCommand, Name, IsPin, RouteOf, Select, AllCommands, BeforePin;
    CommandsAppend(a, b);
    if a == [] {
      assert a + b == b;
    } else {
      var x, rest := a[0], a[1..];
      assert a == [x] + rest && a + b == [x] + (rest + b);
      FirstCommand(x, rest);
      PinRoute(fold, hasReplica, Name(fold, x));
      SelectCons(fold, hasReplica, x, rest, {Pin});
      BeforePinAppend(fold, hasReplica, rest, b);
      BeforePinCons(fold, x, rest + b);
    }
  }

  /** The script is the completed commands and what the unread rest still asks for. */
  lemma ScriptSplit(fold: Fold, hasReplica: bool, all: Streams, es: seq<Event>, w: Wire)
    requires Aligned(fold, hasReplica, all, es, w)
    ensures AllCommands(Flow(ClientIn, es)) && Frames(all.client) == Flow(ClientIn, es) + Frames(w.clientLeft)
    ensures Script(fold, all.client) == Flow(ClientIn, es) + Script(fold, w.clientLeft)
  {
    hide IsCommand, Routed, Answered, Frames, Concat, BeforePin, Select;
    FlowCommands(fold, hasReplica, es, ClientIn);
    FramesConcat(Flow(ClientIn, es), w.clientLeft);
    FramesByRoute(fold, hasReplica, es);
    BeforePinAppend(fold, hasReplica, Flow(ClientIn, es), Frames(w.clientLeft));
  }

  lemma FramesEnd(s: string)
    requires !ParseCommand(s).Command?
    ensures Frames(s) == []
  {
    hide ParseCommand;
  }

  lemma FramesFirst(s: string, raw: string)
    requires IsCommand(raw) && raw <= s
    ensures Frames(s) != [] && Frames(s)[0] == raw
  {
    hide ParseCommand;
    CommandInFront(s, raw);
    assert s[..|raw|] == raw;
  }

  /** A run that does not stop has served the whole script: all of the client's commands, or all in front of the pin. */
  lemma EndServesScript(
    fold: Fold, hasReplica: bool, all: Streams, es: seq<Event>, w: Wire, end: End, raw: string, o: Outputs)
    requires WholeRun(fold, hasReplica, all, es, w, end, raw, o) && !end.Stopped?
    ensures Front(all.client, |es|) == Script(fold, all.client)
    ensures end.Closed? ==> Front(all.client, |es|) == Frames(all.client)
  {
    hide Aligned, IsCommand, ParseCommand, Frames, Name, IsPin, Flow, HandedOver, Quiet, Front;
    EventsAreClientCommands(fold, hasReplica, all, es, w);
    ScriptSplit(fold, hasReplica, all, es, w);
    if end.Pinned? && raw != "" {
      FramesFirst(w.clientLeft, raw);
    } else {
      FramesEnd(w.clientLeft);
    }
  }

  /** Behind k replies taken, a stream that holds more than k holds another one. */
  lemma {:induction false} RelayBehind(rs: seq<string>, t: string, n: nat)
    requires AllReplies(rs) && |rs| < n && Relay(Concat(rs) + t, n).Some?
    ensures Copy(Int64, t, 1).Some?
    decreases |rs|
  {
    hide Copy;
    if rs == [] {
      assert Concat(rs) + t == t;
    } else {
      var tail := Concat(rs[1..]) + t;
      Assoc(rs[0], Concat(rs[1..]), t);
      CopyExtend(Int64, rs[0], tail, 1);
      assert (rs[0] + tail)[|rs[0]|..] == tail;
      RelayBehind(rs[1..], t, n - 1);
    }
  }

  /** A backend's stream holds a reply to every command of the script on the given routes. */
  ghost predicate Plenty(fold: Fold, hasReplica: bool, client: string, stream: string, routes: set<Route>) {
    Relay(stream, |Select(fold, hasReplica, Script(fold, client), routes)|).Some?
  }

  ghost predicate Supplied(fold: Fold, hasReplica: bool, all: Streams) {
    && Plenty(fold, hasReplica, all.client, all.master, {Mirror, ToMaster})
    && Plenty(fold, hasReplica, all.client, all.replica, {Mirror, ToReplica})
  }

  /** At a command on one of its routes, such a backend has a reply to give. */
  lemma NextReply(
    fold: Fold, hasReplica: bool, all: Streams, es: seq<Event>, w: Wire, raw: string,
    input: Channel, output: Channel, left: string, routes: set<Route>)
    requires Aligned(fold, hasReplica, all, es, w) && IsCommand(raw) && raw <= w.clientLeft
    requires (input == MasterIn && output == MasterOut && routes == {Mirror, ToMaster}) ||
             (input == ReplicaIn && output == ReplicaOut && routes == {Mirror, ToReplica})
    requires RouteOf(fold, Name(fold, raw), hasReplica) in routes
    requires Plenty(fold, hasReplica, all.client, Sent(output, es) + left, routes)
    ensures Copy(Int64, left, 1).Some?
  {
    hide IsCommand, Routed, Answered, Frames, Concat, IsReply, Copy, Relay, Select, Name, BeforePin;
    ScriptSplit(fold, hasReplica, all, es, w);
    FramesByRoute(fold, hasReplica, es);
    FramesFirst(w.clientLeft, raw);
    NextSelected(fold, hasReplica, Frames(w.clientLeft), routes);
    SelectAppend(fold, hasReplica, Flow(ClientIn, es), Script(fold, w.clientLeft), routes);
    SameLength(es, input, output);
    FlowReplies(es, output);
    RelayBehind(Flow(output, es), left, |Select(fold, hasReplica, Script(fold, all.client), routes)|);
  }

  lemma NextSelected(fold: Fold, hasReplica: bool, raws: seq<string>, routes: set<Route>)
    requires raws != [] && AllCommands(raws) && Pin !in routes
    requires RouteOf(fold, Name(fold, raws[0]), hasReplica) in routes
    ensures |Select(fold, hasReplica, BeforePin(fold, raws), routes)| > 0
  {
    hide IsCommand, Name, IsPin, RouteOf;
    PinRoute(fold, hasReplica, Name(fold, raws[0]));
  }

  /**
   * Completeness: when no write fails and the backends have a reply to every command of the script, the run does not
   * stop; it serves the script to its end.
   */
  lemma WholeScriptServed(
    fold: Fold, hasReplica: bool, all: Streams, es: seq<Event>, w: Wire, end: End, raw: string, o: Outputs)
    requires WholeRun(fold, hasReplica, all, es, w, end, raw, o) && Unbroken(o) && Supplied(fold, hasReplica, all)
    ensures !end.Stopped? && Front(all.client, |es|) == Script(fold, all.client)
  {
    hide Aligned, IsCommand, ParseCommand, Copy, Name, RouteOf, Plenty, Sent, HalfDone, Front, Script;
    if end.Stopped? {
      var route := RouteOf(fold, Name(fold, raw), hasReplica);
      StreamsOf(fold, hasReplica, all, es, w);
      if route != ToReplica {
        NextReply(fold, hasReplica, all, es, w, raw, MasterIn, MasterOut, w.masterLeft, {Mirror, ToMaster});
      }
      if route != ToMaster {
        NextReply(fold, hasReplica, all, es, w, raw, ReplicaIn, ReplicaOut, w.replicaLeft, {Mirror, ToReplica});
      }
    } else {
      EndServesScript(fold, hasReplica, all, es, w, end, raw, o);
    }
  }

  lemma StreamsOf(fold: Fold, hasReplica: bool, all: Streams, es: seq<Event>, w: Wire)
    requires Aligned(fold, hasReplica, all, es, w)
    ensures all.master == Sent(MasterOut, es) + w.masterLeft && all.replica == Sent(ReplicaOut, es) + w.replicaLeft
  {
    hide Routed, Answered, Sent;
  }
}
