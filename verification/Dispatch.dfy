/** Which commands reach which backend, said with the tables and the client's own spelling, for every run. */
module Dispatch {
  import opened Bytes
  import opened Commands
  import opened Replies
  import opened Router
  import opened Routing
  import opened SessionLaws

  // Both inputs, exactly.

  /** A replica is sent the state commands and what the table lists as read-only, but nothing that pins. */
  predicate ForReplicas(fold: Fold, name: string) {
    IsState(name) || (name != "" && !IsPin(name) && ReadOnly(Upper(fold, name)))
  }

  /** The master is sent the state commands and, apart from what pins, all that no replica serves. */
  predicate ForMasters(fold: Fold, hasReplica: bool, name: string) {
    IsState(name) || (name != "" && !IsPin(name) && !(hasReplica && ReadOnly(Upper(fold, name))))
  }

  function ReplicaFrames(fold: Fold, raws: seq<string>): seq<string>
    requires AllCommands(raws)
  {
    if raws == [] then [] else
      (if ForReplicas(fold, Name(fold, raws[0])) then [raws[0]] else []) + ReplicaFrames(fold, raws[1..])
  }

  function MasterFrames(fold: Fold, hasReplica: bool, raws: seq<string>): seq<string>
    requires AllCommands(raws)
  {
    if raws == [] then [] else
      (if ForMasters(fold, hasReplica, Name(fold, raws[0])) then [raws[0]] else []) +
      MasterFrames(fold, hasReplica, raws[1..])
  }

  lemma RouteByTable(fold: Fold, hasReplica: bool, name: string)
    ensures RouteOf(fold, name, hasReplica) in {Mirror, ToReplica} <==> hasReplica && ForReplicas(fold, name)
    ensures RouteOf(fold, name, hasReplica) in {Mirror, ToMaster} <==> ForMasters(fold, hasReplica, name)
  {
    hide ReadOnly, Upper;
    StateIsNoPin(name);
  }

  lemma StateIsNoPin(name: string)
    ensures IsState(name) ==> name != "" && !IsPin(name)
  {
  }

  lemma {:induction false} SelectedByTable(fold: Fold, hasReplica: bool, raws: seq<string>)
    requires AllCommands(raws)
    ensures Select(fold, hasReplica, raws, {Mirror, ToReplica}) ==
            if hasReplica then ReplicaFrames(fold, raws) else []
    ensures Select(fold, hasReplica, raws, {Mirror, ToMaster}) == MasterFrames(fold, hasReplica, raws)
  {
    hide IsCommand, Name, RouteOf, ForReplicas, ForMasters;
    if raws != [] {
      RouteByTable(fold, hasReplica, Name(fold, raws[0]));
      SelectedByTable(fold, hasReplica, raws[1..]);
    }
  }

  /** What of an interrupted command belongs to each backend. */
  function ReplicaPart(fold: Fold, hasReplica: bool, raw: string): string
    requires IsCommand(raw)
  {
    if hasReplica && ForReplicas(fold, Name(fold, raw)) then raw else ""
  }

  function MasterPart(fold: Fold, hasReplica: bool, raw: string): string
    requires IsCommand(raw)
  {
    if ForMasters(fold, hasReplica, Name(fold, raw)) then raw else ""
  }

  /**
   * The whole input of both backends, for every run. The replica gets exactly, in order, the client's state and
   * read-only commands in front of a pin; the master gets exactly the state commands and all others in front of a pin,
   * and behind it every byte. A run that stops has sent that for the completed commands, and part of one more.
   */
  lemma InputsByTable(
    fold: Fold, hasReplica: bool, all: Streams, es: seq<Event>, w: Wire, end: End, raw: string, o: Outputs)
    requires WholeRun(fold, hasReplica, all, es, w, end, raw, o)
    ensures !end.Stopped? ==> all.client == Concat(Script(fold, all.client)) + w.clientLeft
    ensures !end.Stopped? ==>
              o.replica == if hasReplica then Concat(ReplicaFrames(fold, Script(fold, all.client))) else ""
    ensures var sent := Concat(MasterFrames(fold, hasReplica, Script(fold, all.client)));
            && (end.Closed? ==> o.master == sent)
            && (end.Pinned? ==> Delivered(sent, w.clientLeft, o.master, o.masterBroken))
    ensures end.Stopped? ==>
              var front, intact := Front(all.client, |es|), !o.masterBroken && !o.replicaBroken;
              && IsCommand(raw)
              && Delivered(if hasReplica then Concat(ReplicaFrames(fold, front)) else "",
                           ReplicaPart(fold, hasReplica, raw), o.replica, !intact)
              && Delivered(Concat(MasterFrames(fold, hasReplica, front)),
                           MasterPart(fold, hasReplica, raw), o.master, !intact)
  {
    hide IsCommand, Front, Concat, Select, Script, Aligned, ParseCommand, RouteOf, Name, Excused, Relayed;
    hide ForReplicas, ForMasters, ReplicaFrames, MasterFrames;
    var front := Front(all.client, |es|);
    InputsFromClient(fold, hasReplica, all, es, w);
    SelectedByTable(fold, hasReplica, front);
    NothingConcat();
    if end.Stopped? {
      RouteByTable(fold, hasReplica, Name(fold, raw));
    } else {
      EndServesScript(fold, hasReplica, all, es, w, end, raw, o);
    }
  }

  /** Event by event: who answers a command is decided by the tables. */
  lemma EventByTable(fold: Fold, hasReplica: bool, e: Event)
    requires Routed(fold, hasReplica, e)
    ensures var n := Name(fold, e.raw);
            && !IsPin(n)
            && (e.Dropped? <==> n == "")
            && (e.Mirrored? <==> hasReplica && IsState(n))
            && (e.Replicated? <==> hasReplica && n != "" && !IsState(n) && ReadOnly(Upper(fold, n)))
  {
    hide IsCommand, Name, ReadOnly, Upper;
    StateIsNoPin(Name(fold, e.raw));
  }

  // The client's spelling does not matter.

  /** The command `raw` is `word` in some mixture of capitals and small letters. */
  predicate Called(raw: string, word: string) {
    IsCommand(raw) && ArgsOf(raw) != [] && SameButCase(ArgsOf(raw)[0], word)
  }

  lemma CalledName(fold: Fold, raw: string, word: string)
    requires Called(raw, word) && Capitals(word)
    ensures Name(fold, raw) == word
  {
    hide ParseCommand, NameOf, SameButCase;
    assert IsAscii(word);
    CaseKeepsAscii(ArgsOf(raw)[0], word);
    NameIff(fold, ArgsOf(raw), word);
  }

  lemma {:induction false} FlowAt(es: seq<Event>, i: nat)
    requires i < |es|
    ensures |Flow(ClientIn, es)| == |es| && Flow(ClientIn, es)[i] == es[i].raw
  {
    FlowLength(es);
    if i > 0 {
      FlowAt(es[1..], i - 1);
    }
  }

  lemma ServedAt(fold: Fold, hasReplica: bool, all: Streams, es: seq<Event>, w: Wire, i: nat)
    requires Aligned(fold, hasReplica, all, es, w) && i < |es|
    ensures i < |Frames(all.client)| && es[i].raw == Frames(all.client)[i] && Routed(fold, hasReplica, es[i])
  {
    hide IsCommand, Routed, Answered, Frames, Flow;
    EventsAreClientCommands(fold, hasReplica, all, es, w);
    FlowAt(es, i);
    assert Front(all.client, |es|)[i] == Frames(all.client)[i];
  }

  predicate PinWord(word: string) {
    word in {"SUBSCRIBE", "PSUBSCRIBE", "SSUBSCRIBE", "UNSUBSCRIBE", "PUNSUBSCRIBE", "SUNSUBSCRIBE",
             "MULTI", "WATCH", "MONITOR"}
  }

  predicate StateWord(word: string) { word in {"AUTH", "HELLO", "SELECT", "RESET", "CLIENT"} }

  lemma PinWords(word: string)
    requires PinWord(word)
    ensures IsPin(word) && Capitals(word)
  {
  }

  lemma StateWords(word: string)
    requires StateWord(word)
    ensures IsState(word) && Capitals(word)
  {
  }

  /**
   * A pinning command pins, in any case: no run serves it as an ordinary command, and a run that has served all in
   * front of it ends there, with the session handed to the master from that very command on.
   */
  lemma PinsInAnyCase(
    fold: Fold, hasReplica: bool, all: Streams, es: seq<Event>, w: Wire, end: End, raw: string, o: Outputs,
    i: nat, word: string)
    requires WholeRun(fold, hasReplica, all, es, w, end, raw, o)
    requires i < |Frames(all.client)| && PinWord(word) && Called(Frames(all.client)[i], word)
    ensures |es| <= i
    ensures |es| == i ==> end == Pinned(Frames(all.client)[i]) && Frames(all.client)[i] <= w.clientLeft
  {
    hide Aligned, IsCommand, ParseCommand, Frames, IsPin, Called, PinWord, Excused, HalfDone, HandedOver, Name;
    hide IsState, GetDirection, Flow;
    var frame := Frames(all.client)[i];
    PinWords(word);
    CalledName(fold, frame, word);
    if i < |es| {
      ServedAt(fold, hasReplica, all, es, w, i);
      EventByTable(fold, hasReplica, es[i]);
    }
    ScriptSplit(fold, hasReplica, all, es, w);
    FlowLength(es);
    if |es| == i {
      assert Frames(w.clientLeft)[0] == frame;
      FirstFrame(w.clientLeft);
      if IsCommand(raw) && raw <= w.clientLeft {
        CommandInFront(w.clientLeft, raw);
        assert raw == frame;
      }
    }
  }

  lemma FirstFrame(s: string)
    requires Frames(s) != []
    ensures ParseCommand(s).Command? && Frames(s)[0] == s[..ParseCommand(s).size]
  {
    hide ParseCommand;
  }

  /** A state command is mirrored, in any case: both backends get it, or the master alone if there is no replica. */
  lemma StateInAnyCase(fold: Fold, hasReplica: bool, all: Streams, es: seq<Event>, w: Wire, i: nat, word: string)
    requires Aligned(fold, hasReplica, all, es, w) && i < |es| && StateWord(word) && Called(es[i].raw, word)
    ensures if hasReplica then es[i].Mirrored? else es[i].Mastered?
  {
    hide Aligned, IsCommand, Called, Name, IsPin, IsState, ReadOnly, Routed, StateWord;
    StateWords(word);
    StateIsNoPin(word);
    ServedAt(fold, hasReplica, all, es, w, i);
    CalledName(fold, es[i].raw, word);
    EventByTable(fold, hasReplica, es[i]);
  }

  /** A sample of reads and of writes, one or more for each part of the table. */
  predicate ReadWord(word: string) {
    word in {"GET", "MGET", "HGETALL", "LRANGE", "ZRANGE", "SCAN", "EXISTS", "XREAD", "PING", "INFO", "SMEMBERS",
             "PFCOUNT", "GEOSEARCH", "SORT_RO", "GEORADIUS_RO", "BITFIELD_RO", "EVAL_RO"}
  }

  predicate ModuleReadWord(word: string) {
    word in {"JSON.GET", "FT.SEARCH", "BF.EXISTS", "CF.COUNT", "CMS.QUERY", "TOPK.LIST", "TDIGEST.QUANTILE",
             "TS.RANGE", "GRAPH.RO_QUERY"}
  }

  predicate WriteWord(word: string) {
    word in {"SET", "DEL", "INCR", "HSET", "LPUSH", "ZADD", "XADD", "EXPIRE", "FLUSHALL", "SORT", "GEORADIUS", "GETEX",
             "BITFIELD", "XREADGROUP", "EVAL", "PUBLISH"}
  }

  predicate ModuleWriteWord(word: string) {
    word in {"JSON.SET", "FT.CREATE", "BF.ADD", "CMS.INCRBY", "TDIGEST.ADD", "TS.ADD", "GRAPH.QUERY"}
  }

  lemma ReadWordsListed(word: string)
    requires ReadWord(word)
    ensures ReadOnly(word)
  {
  }

  lemma ReadWordsPlain(word: string)
    requires ReadWord(word)
    ensures word != "" && !IsState(word) && Capitals(word)
  {
  }

  lemma ModuleReadWordsListed(word: string)
    requires ModuleReadWord(word)
    ensures ReadOnly(word)
  {
  }

  lemma ModuleReadWordsPlain(word: string)
    requires ModuleReadWord(word)
    ensures word != "" && !IsState(word) && Capitals(word)
  {
  }

  lemma WriteWordsUnlisted(word: string)
    requires WriteWord(word)
    ensures !ReadOnly(word)
  {
  }

  lemma WriteWordsPlain(word: string)
    requires WriteWord(word)
    ensures word != "" && !IsState(word) && Capitals(word)
  {
  }

  lemma ModuleWriteWordsUnlisted(word: string)
    requires ModuleWriteWord(word)
    ensures !ReadOnly(word)
  {
  }

  lemma ModuleWriteWordsPlain(word: string)
    requires ModuleWriteWord(word)
    ensures word != "" && !IsState(word) && Capitals(word)
  {
  }

  lemma CapitalsUpper(fold: Fold, word: string)
    requires Capitals(word)
    ensures Upper(fold, word) == word
  {
  }

  /** A word that is no state command and no pin goes by the read-only table, however the client spells it. */
  lemma GoesByTable(fold: Fold, hasReplica: bool, all: Streams, es: seq<Event>, w: Wire, i: nat, word: string)
    requires Aligned(fold, hasReplica, all, es, w) && i < |es| && Called(es[i].raw, word)
    requires word != "" && !IsState(word) && Capitals(word)
    ensures if hasReplica && ReadOnly(word) then es[i].Replicated? else es[i].Mastered?
  {
    hide Aligned, IsCommand, Called, Name, IsPin, IsState, ReadOnly, Routed, Upper, Capitals;
    CapitalsUpper(fold, word);
    ServedAt(fold, hasReplica, all, es, w, i);
    CalledName(fold, es[i].raw, word);
    EventByTable(fold, hasReplica, es[i]);
  }

  /** Reads are what a replica is for, in any case. */
  lemma ReadsInAnyCase(fold: Fold, all: Streams, es: seq<Event>, w: Wire, i: nat, word: string)
    requires Aligned(fold, true, all, es, w) && i < |es| && Called(es[i].raw, word)
    requires ReadWord(word) || ModuleReadWord(word)
    ensures es[i].Replicated?
  {
    hide Aligned, Called, IsState, ReadOnly, Capitals, ReadWord, ModuleReadWord;
    if ReadWord(word) {
      ReadWordsListed(word);
      ReadWordsPlain(word);
    } else {
      ModuleReadWordsListed(word);
      ModuleReadWordsPlain(word);
    }
    GoesByTable(fold, true, all, es, w, i, word);
  }

  /** Writes never reach one, in any case. */
  lemma WritesInAnyCase(fold: Fold, hasReplica: bool, all: Streams, es: seq<Event>, w: Wire, i: nat, word: string)
    requires Aligned(fold, hasReplica, all, es, w) && i < |es| && Called(es[i].raw, word)
    requires WriteWord(word) || ModuleWriteWord(word)
    ensures es[i].Mastered?
  {
    hide Aligned, Called, IsState, ReadOnly, Capitals, WriteWord, ModuleWriteWord;
    if WriteWord(word) {
      WriteWordsUnlisted(word);
      WriteWordsPlain(word);
    } else {
      ModuleWriteWordsUnlisted(word);
      ModuleWriteWordsPlain(word);
    }
    GoesByTable(fold, hasReplica, all, es, w, i, word);
  }
}
