/** The session loop itself, on live connections. */
module Session {
  import opened Bytes
  import opened Reader
  import opened Commands
  import opened Replies
  import opened Router
  import opened Routing

  /** A copyRESP success moved exactly one reply. */
  lemma MovedIsReply(s: string, moved: string, rest: string)
    requires s == moved + rest && Copy(Int64, s, 1) == Some(|moved|)
    ensures IsReply(moved)
  {
    hide Copy;
    CopyShrink(Int64, s, 1);
    assert s[..|moved|] == moved;
  }

  /** A readCommand success took exactly one command. */
  lemma TakenIsCommand(fold: Fold, s: string, raw: string, rest: string)
    requires s == raw + rest && ParseCommand(s).Command? && ParseCommand(s).size == |raw|
    ensures IsCommand(raw) && Name(fold, raw) == NameOf(fold, ParseCommand(s).args)
  {
    hide ParseCommand, NameOf;
    CommandShrink(s);
    assert s[..|raw|] == raw;
  }

  /** pipe: copies until the reader ends or the writer fails. */
  method Pipe(w: Sink, r: BufReader)
    requires r.Valid() && !w.broken
    modifies w, r
    ensures r.Valid()
    ensures !w.broken ==> r.Rest() == "" && w.written == old(w.written) + old(r.Rest())
    ensures PartOf(old(w.written), old(r.Rest()), w.written)
  {
    ghost var s, start := r.Rest(), w.written;
    ghost var moved := "";
    while true
      invariant r.Valid() && !w.broken && s == moved + r.Rest() && w.written == start + moved
      decreases |r.Rest()|, |r.incoming|
    {
      if r.buffered == "" {
        var more := r.Fill();
        if !more {
          return;
        }
      }
      var chunk := r.buffered;
      var ok := w.Write(chunk);
      if !ok {
        PartFurther(start, moved, chunk, r.incoming, w.written);
        return;
      }
      Assoc(start, moved, chunk);
      Assoc(moved, chunk, r.incoming);
      r.buffered := "";
      moved := moved + chunk;
      assert r.Rest() == r.incoming;
    }
  }

  lemma StartAligned(fold: Fold, hasReplica: bool, all: Streams)
    ensures Aligned(fold, hasReplica, all, [], Wire(all.client, "", "", all.master, "", all.replica))
  {
    assert "" + all.client == all.client && "" + all.master == all.master && "" + all.replica == all.replica;
  }

  class RoutedSession {
    const fold: Fold
    const client: Sink
    const clientR: BufReader
    const master: Sink
    const masterR: BufReader
    var replica: Sink? // null: the session runs on the master alone
    var replicaR: BufReader?

    constructor (
      fold: Fold, client: Sink, clientR: BufReader, master: Sink, masterR: BufReader,
      replica: Sink?, replicaR: BufReader?)
      ensures this.fold == fold && this.client == client && this.clientR == clientR && this.master == master
      ensures this.masterR == masterR && this.replica == replica && this.replicaR == replicaR
    {
      this.fold, this.client, this.clientR, this.master, this.masterR := fold, client, clientR, master, masterR;
      this.replica, this.replicaR := replica, replicaR;
    }

    static ghost predicate Ready(r: BufReader)
      reads r
    {
      r.Valid() && r.size == BUFFER_SIZE
    }

    ghost predicate Valid()
      reads this, clientR, masterR, replicaR
    {
      && Ready(clientR) && Ready(masterR) && clientR != masterR && client != master
      && (replica != null ==>
            && replicaR != null && Ready(replicaR) && replicaR != clientR && replicaR != masterR
            && replica != client && replica != master)
    }

    ghost predicate Intact()
      reads this, client, master, replica
    {
      !client.broken && !master.broken && (replica != null ==> !replica.broken)
    }

    ghost function Snapshot(): Wire
      requires replica != null ==> replicaR != null
      reads this, client, clientR, master, masterR, replica, replicaR
    {
      Wire(clientR.Rest(), client.written, master.written, masterR.Rest(),
           if replica == null then "" else replica.written,
           if replica == null then "" else replicaR.Rest())
    }

    ghost function Objects(): set<object>
      reads this
    {
      {this, client, clientR, master, masterR} +
      (if replica == null then {} else {replica}) + (if replicaR == null then {} else {replicaR})
    }

    /** Sends `raw` to one backend and relays its reply. */
    method Forward(w: Sink, r: BufReader, raw: string) returns (ok: bool, ghost reply: string)
      requires Valid() && Intact() && ((w == master && r == masterR) || (w == replica && r == replicaR))
      modifies w, r, client
      ensures Valid()
      ensures ok ==> Intact() && IsReply(reply) && w.written == old(w.written) + raw
      ensures ok ==> old(r.Rest()) == reply + r.Rest() && client.written == old(client.written) + reply
      ensures !ok ==> PartOf(old(w.written), raw, w.written) && (!w.broken ==> w.written == old(w.written) + raw)
      ensures !ok ==> PartOf(old(client.written), Relayed(old(r.Rest()), 1), client.written)
      ensures !ok && !w.broken ==>
                Delivered(old(client.written), Relayed(old(r.Rest()), 1), client.written, client.broken)
      ensures !ok ==> !Intact() || Copy(Int64, old(r.Rest()), 1) == None
    {
      hide Copy, IsReply, Relayed;
      ghost var s := r.Rest();
      reply := "";
      ok := w.Write(raw);
      if !ok {
        return;
      }
      ok, reply := CopyResp(client, r);
      if ok {
        MovedIsReply(s, reply, r.Rest());
      }
    }

    /** stateCommand: each backend executes `raw`; of the two replies only the master's reaches the client. */
    method StateCommand(raw: string) returns (ok: bool, ghost reply: string, ghost discarded: string)
      requires Valid() && Intact()
      modifies client, master, masterR
      modifies if replica == null then {} else {replica}, if replica == null then {} else {replicaR}
      ensures Valid()
      ensures ok ==> Intact() && IsReply(reply) && master.written == old(master.written) + raw
      ensures ok ==> old(masterR.Rest()) == reply + masterR.Rest() && client.written == old(client.written) + reply
      ensures ok && replica != null ==> replica.written == old(replica.written) + raw
      ensures ok && replica != null ==> IsReply(discarded) && old(replicaR.Rest()) == discarded + replicaR.Rest()
      ensures !ok ==> PartOf(old(client.written), Relayed(old(masterR.Rest()), 1), client.written)
      ensures !ok && !master.broken && (replica == null || !replica.broken) ==>
                Delivered(old(client.written), Relayed(old(masterR.Rest()), 1), client.written, client.broken)
      ensures !ok ==> PartOf(old(master.written), raw, master.written)
      ensures !ok && !master.broken ==> master.written == old(master.written) + raw
      ensures !ok && replica != null ==> PartOf(old(replica.written), raw, replica.written)
      ensures !ok && replica != null && !master.broken && !replica.broken ==>
                replica.written == old(replica.written) + raw
      ensures !ok ==> !Intact() || Copy(Int64, old(masterR.Rest()), 1) == None ||
                      (replica != null && Copy(Int64, old(replicaR.Rest()), 1) == None)
    {
      hide Copy, IsReply, Relayed;
      ghost var s := masterR.Rest();
      reply, discarded := "", "";
      ok := master.Write(raw);
      if !ok {
        return;
      }
      if replica != null {
        ok := replica.Write(raw);
        if !ok {
          return;
        }
      }
      ok, reply := CopyResp(client, masterR);
      if !ok {
        return;
      }
      MovedIsReply(s, reply, masterR.Rest());
      if replica != null {
        ghost var t := replicaR.Rest();
        ok, discarded := CopyResp(null, replicaR);
        if ok {
          MovedIsReply(t, discarded, replicaR.Rest());
        }
      }
    }

    /** The streams the peers deliver from here on. */
    ghost function Incoming(): Streams
      requires replica != null ==> replicaR != null
      reads this, clientR, masterR, replicaR
    {
      Streams(clientR.Rest(), masterR.Rest(), if replica == null then "" else replicaR.Rest())
    }

    /** What the peers have been sent, `link` being the replica connection the session started with. */
    ghost function Output(link: Sink?): Outputs
      reads client, master, link
    {
      Outputs(client.written, client.broken, master.written, master.broken,
              if link == null then "" else link.written, link != null && link.broken)
    }

    /** pin: no replica from here on, `raw` for the master, and a pipe in each direction. The pipes share no object. */
    method PinTo(raw: string, ghost w: Wire)
      requires Valid() && Intact()
      requires w.clientLeft == raw + clientR.Rest() && Snapshot() == w.(clientLeft := clientR.Rest())
      modifies this`replica, client, clientR, master, masterR
      ensures replica == null && HandedOver(w, Output(old(replica)))
    {
      replica := null;
      if raw != "" {
        var ok := master.Write(raw);
        if !ok {
          PartAtOnce(w.masterGot, raw, clientR.Rest(), master.written);
          return;
        }
      }
      assert master.written == w.masterGot + raw;
      Pipe(client, masterR);
      ghost var left := clientR.Rest();
      Pipe(master, clientR);
      Assoc(w.masterGot, raw, left);
      PartBehind(w.masterGot, raw, left, master.written);
    }

    /** The part of the loop body that talks to the backends. */
    method Handle(name: string, raw: string, ghost w: Wire) returns (ok: bool, ghost e: Event)
      requires Valid() && Intact() && IsCommand(raw) && name == Name(fold, raw) && name != "" && !IsPin(name)
      requires w.clientLeft == raw + clientR.Rest() && Snapshot() == w.(clientLeft := clientR.Rest())
      modifies client, master, masterR
      modifies if replica == null then {} else {replica}, if replica == null then {} else {replicaR}
      ensures Valid() && e.raw == raw && Routed(fold, replica != null, e)
      ensures clientR.Rest() == old(clientR.Rest())
      ensures ok ==> Intact() && Answered(e) && Moves(e, w, Snapshot())
      ensures !ok ==> StoppedAt(fold, replica != null, w, raw, Output(replica))
    {
      hide IsPin, IsState, ReadOnly, Upper, IsReply, Copy, Relayed, ParseCommand, Moves, NameOf;
      if IsState(name) {
        ghost var reply, discarded;
        ok, reply, discarded := StateCommand(raw);
        e := if replica != null then Mirrored(raw, reply, discarded) else Mastered(raw, reply);
        if ok {
          EventMoves(e, w, Snapshot());
        }
        return;
      }
      if replica != null && GetDirection(fold, name) == Read {
        ghost var reply;
        ok, reply := Forward(replica, replicaR, raw);
        e := Replicated(raw, reply);
      } else {
        ghost var reply;
        ok, reply := Forward(master, masterR, raw);
        e := Mastered(raw, reply);
      }
      if ok {
        EventMoves(e, w, Snapshot());
      }
    }

    /**
     * run. `es` are the completed iterations and `w` the streams at the last loop head; `raw` is the command that
     * was being forwarded when the session stopped, or that pinned it.
     */
    method Run() returns (end: End, ghost es: seq<Event>, ghost w: Wire, ghost raw: string)
      requires Valid() && Intact()
      requires client.written == "" && master.written == "" && (replica != null ==> replica.written == "")
      modifies Objects()
      ensures WholeRun(fold, old(replica) != null, old(Incoming()), es, w, end, raw, Output(old(replica)))
      ensures end.Pinned? ==> replica == null
    {
      hide ParseCommand, Aligned, Name, IsReply, Copy, IsPin, IsState, GetDirection, Routed, Answered, NameOf;
      hide StoppedAt, HandedOver, Moves;
      ghost var all, link := Incoming(), replica;
      ghost var hasReplica := replica != null;
      es, raw := [], "";
      StartAligned(fold, hasReplica, all);
      while true
        invariant Valid() && Intact() && replica == link && replicaR == old(replicaR)
        invariant Aligned(fold, hasReplica, all, es, Snapshot())
        decreases |clientR.Rest()|
      {
        w := Snapshot();
        var r, name, frame := ReadCommand(fold, clientR);
        raw := "";
        if r.Inline? {
          PinTo("", w);
          return Pinned(""), es, w, raw;
        }
        if r.Malformed? {
          return Closed, es, w, raw;
        }
        raw := frame;
        TakenIsCommand(fold, w.clientLeft, raw, clientR.Rest());
        if name == "" {
          DropMoves(fold, hasReplica, raw, w, Snapshot());
          AlignedStep(fold, hasReplica, all, es, w, Dropped(raw), Snapshot());
          es := es + [Dropped(raw)];
          continue;
        }
        if IsPin(name) {
          PinTo(frame, w);
          return Pinned(frame), es, w, raw;
        }
        ghost var e;
        var ok;
        ok, e := Handle(name, frame, w);
        if !ok {
          return Stopped, es, w, raw;
        }
        AlignedStep(fold, hasReplica, all, es, w, e, Snapshot());
        es := es + [e];
      }
    }
  }

  lemma EventMoves(e: Event, w: Wire, w': Wire)
    requires w.clientLeft == e.raw + w'.clientLeft
    requires e.Mastered? ==> w'.replicaGot == w.replicaGot && w'.replicaLeft == w.replicaLeft
    requires e.Replicated? ==> w'.masterGot == w.masterGot && w'.masterLeft == w.masterLeft
    requires !e.Dropped? && w'.clientGot == w.clientGot + e.reply
    requires !e.Replicated? ==> w'.masterGot == w.masterGot + e.raw && w.masterLeft == e.reply + w'.masterLeft
    requires !e.Mastered? ==> w'.replicaGot == w.replicaGot + e.raw
    requires e.Replicated? ==> w.replicaLeft == e.reply + w'.replicaLeft
    requires e.Mirrored? ==> w.replicaLeft == e.discarded + w'.replicaLeft
    ensures Moves(e, w, w')
  {
  }

  lemma DropMoves(fold: Fold, hasReplica: bool, raw: string, w: Wire, w': Wire)
    requires IsCommand(raw) && Name(fold, raw) == ""
    requires w.clientLeft == raw + w'.clientLeft && w' == w.(clientLeft := w'.clientLeft)
    ensures var e := Dropped(raw); Routed(fold, hasReplica, e) && Answered(e) && Moves(e, w, w')
  {
    hide ParseCommand, NameOf;
  }
}
