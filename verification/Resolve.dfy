/** From a Sentinel report to the address of a node: usableTCPAddr, the role probe, and what a failure costs. */
module Resolve {
  import opened Bytes
  import Retry

  datatype TCPAddr = TCPAddr(ip: string, port: nat)

  function JoinHostPort(host: string, port: string): string {
    if ':' in host || '%' in host then "[" + host + "]:" + port else host + ":" + port
  }

  function AddrText(a: TCPAddr): (s: string)
    ensures s != ""
  {
    JoinHostPort(a.ip, Decimal(a.port))
  }

  function LastColon(s: string): (i: int)
    ensures -1 <= i < |s|
    ensures i >= 0 ==> s[i] == ':'
    ensures forall j :: i < j < |s| ==> s[j] != ':'
  {
    if s == "" then -1 else if s[|s| - 1] == ':' then |s| - 1 else LastColon(s[..|s| - 1])
  }

  /** What a dialer makes of the text: the port is behind the last colon, the host in front, without its brackets. */
  function SplitHostPort(s: string): Option<(string, string)> {
    var i := LastColon(s);
    if i < 0 then None
    else if i > 1 && s[0] == '[' && s[i - 1] == ']' then Some((s[1..i - 1], s[i + 1..]))
    else Some((s[..i], s[i + 1..]))
  }

  lemma {:induction false} LastColonIs(front: string, back: string)
    requires ':' !in back
    ensures LastColon(front + ":" + back) == |front|
    decreases |back|
  {
    var s := front + ":" + back;
    if back != "" {
      var init := back[..|back| - 1];
      assert s[|s| - 1] == back[|back| - 1] && s[..|s| - 1] == front + ":" + init;
      LastColonIs(front, init);
    }
  }

  lemma SplitJoin(host: string, port: string)
    requires '[' !in host && ':' !in port
    ensures SplitHostPort(JoinHostPort(host, port)) == Some((host, port))
  {
    hide LastColon;
    if ':' in host || '%' in host {
      var front := "[" + host + "]";
      var s := front + ":" + port;
      assert JoinHostPort(host, port) == s;
      LastColonIs(front, port);
      assert s[1..|front| - 1] == host && s[|front| + 1..] == port;
    } else {
      var s := host + ":" + port;
      LastColonIs(host, port);
      assert s[..|host|] == host && s[|host| + 1..] == port;
      assert host != "" ==> s[0] in host;
    }
  }

  /** Host and port can be read back from the text of an address, so different addresses have different texts. */
  lemma AddrRoundTrip(a: TCPAddr)
    requires '[' !in a.ip && a.port <= INT64_MAX
    ensures SplitHostPort(AddrText(a)) == Some((a.ip, Decimal(a.port))) && ParseInt(Decimal(a.port)) == Some(a.port)
  {
    hide Decimal, ParseInt, SplitHostPort;
    ParseIntDecimal(a.port);
    SplitJoin(a.ip, Decimal(a.port));
  }

  datatype Lookup = Found(ip: string) | NoSuchHost | LookupFailed

  /**
   * The world outside at one moment: which texts are IP literals (with the address in its usual spelling), what name
   * resolution finds for the others, what ROLE answers at an address, and the log name of a node. Of the literals only
   * the two spellings below are fixed.
   */
  datatype Oracle = Oracle(
    literal: string -> Option<string>,
    lookup: string -> Lookup,
    role: TCPAddr -> Option<string>,
    display: (string, string, TCPAddr) -> string)

  predicate Unspecified(ip: string) { ip == "0.0.0.0" || ip == "::" }

  /** net.ParseIP, up to spelling. */
  function ParseIP(o: Oracle, host: string): Option<string> {
    if Unspecified(host) then Some(host) else o.literal(host)
  }

  /** The host part of net.ResolveTCPAddr: a literal is its own address, anything else is looked up. */
  function ResolveHost(o: Oracle, host: string): Lookup {
    match ParseIP(o, host) case Some(ip) => Found(ip) case None => o.lookup(host)
  }

  predicate IsPlaceholder(o: Oracle, host: string) { ParseIP(o, host).Some? && Unspecified(ParseIP(o, host).value) }

  /** A port is acceptable as a signed decimal numeral from 1 to 65535. */
  predicate PortOk(port: string) { ParseInt(port).Some? && 1 <= ParseInt(port).value <= 65535 }

  datatype Usable = Usable(addr: TCPAddr) | NotReady | Unusable

  /** usableTCPAddr. */
  function UsableAddr(o: Oracle, host: string, port: string): Usable {
    if host == "" || port == "" then Unusable
    else if IsPlaceholder(o, host) then NotReady
    else if !PortOk(port) then Unusable
    else
      match ResolveHost(o, host)
      case Found(ip) => Usable(TCPAddr(ip, ParseInt(port).value))
      case NoSuchHost => NotReady
      case LookupFailed => Unusable
  }

  /** Every printed port number is judged by its value. */
  lemma PortByValue(n: nat)
    requires n <= INT64_MAX
    ensures PortOk(Decimal(n)) <==> 1 <= n <= 65535
    ensures ParseInt(Decimal(n)) == Some(n)
  {
    ParseIntDecimal(n);
  }

  // The placeholder promise.

  /** Kept for every literal, however it is spelled: the address that comes out is never unspecified. */
  lemma LiteralNeverPlaceholder(o: Oracle, host: string, port: string)
    requires ParseIP(o, host).Some? && UsableAddr(o, host, port).Usable?
    ensures UsableAddr(o, host, port).addr.ip == ParseIP(o, host).value
    ensures !Unspecified(UsableAddr(o, host, port).addr.ip)
  {
    hide PortOk;
  }

  /** Broken exactly for names that resolve to an unspecified address, which is not looked at again. */
  lemma PlaceholderIff(o: Oracle, host: string, port: string)
    ensures UsableAddr(o, host, port).Usable? && Unspecified(UsableAddr(o, host, port).addr.ip) <==>
              && host != "" && PortOk(port) && ParseIP(o, host).None?
              && o.lookup(host).Found? && Unspecified(o.lookup(host).ip)
  {
    hide Unspecified;
    assert !PortOk("");
    if ParseIP(o, host).Some? && UsableAddr(o, host, port).Usable? {
      LiteralNeverPlaceholder(o, host, port);
    }
  }

  datatype Resolution = Good(addr: TCPAddr) | Waits | Counts

  /** resolveMasterAddress on what Sentinel replied, if it did: an address, or an error that waits or counts. */
  function ResolveMaster(o: Oracle, reply: Option<seq<string>>): Resolution {
    if reply.None? || |reply.value| != 2 then Counts
    else
      match UsableAddr(o, reply.value[0], reply.value[1])
      case Usable(addr) => if o.role(addr) == Some("master") then Good(addr) else Counts
      case NotReady => Waits
      case Unusable => Counts
  }

  /**
   * The self-connect loop the check is there to prevent: with 0.0.0.0 rejected as it should be, a name that resolves
   * to it is resolved, probed, and accepted as the master.
   */
  lemma PlaceholderExample() returns (o: Oracle, port: string)
    ensures ResolveMaster(o, Some(["0.0.0.0", port])) == Waits && ResolveMaster(o, Some(["::", port])) == Waits
    ensures ResolveMaster(o, Some(["redis", port])) == Good(TCPAddr("0.0.0.0", 6379))
  {
    hide ParseInt, Decimal;
    o := Oracle(h => None, h => Found("0.0.0.0"), a => Some("master"), (h, p, a) => h);
    port := Decimal(6379);
    PortByValue(6379);
  }

  // What is waited out.

  function OutcomeOf(r: Resolution): Retry.Outcome {
    match r case Good(_) => Retry.Ok case Waits => Retry.NotReady case Counts => Retry.Failed
  }

  /** Sentinel reports a placeholder, or a name that does not exist at the moment. */
  predicate FixesItself(o: Oracle, host: string, port: string) {
    host != "" && port != "" &&
    (IsPlaceholder(o, host) || (PortOk(port) && ParseIP(o, host).None? && o.lookup(host) == NoSuchHost))
  }

  predicate SelfFixing(o: Oracle, reply: Option<seq<string>>) {
    reply.Some? && |reply.value| == 2 && FixesItself(o, reply.value[0], reply.value[1])
  }

  /** Sentinel reports a host that is no placeholder and resolves to an address that answers ROLE with "master". */
  predicate Confirms(o: Oracle, reply: Option<seq<string>>, addr: TCPAddr) {
    && reply.Some? && |reply.value| == 2
    && var host, port := reply.value[0], reply.value[1];
       && host != "" && host != "0.0.0.0" && host != "::" && !IsPlaceholder(o, host) && PortOk(port)
       && ResolveHost(o, host) == Found(addr.ip) && ParseInt(port) == Some(addr.port)
       && o.role(addr) == Some("master")
  }

  /** Which resolve succeeds and which failure is waited out; every other one counts. */
  lemma ResolveMasterIff(o: Oracle, reply: Option<seq<string>>)
    ensures forall addr :: ResolveMaster(o, reply) == Good(addr) <==> Confirms(o, reply, addr)
    ensures ResolveMaster(o, reply) == Waits <==> SelfFixing(o, reply)
  {
    hide DigitsValue;
    assert !PortOk("");
  }

  /** One attempt: what Sentinel replied, if it did, and what the world answered then. */
  datatype Report = Report(oracle: Oracle, reply: Option<seq<string>>)

  /** The loop sees these outcomes. */
  ghost predicate Outcomes(reports: seq<Report>, turns: seq<Retry.Turn>) {
    |reports| == |turns| &&
    forall i :: 0 <= i < |turns| ==> turns[i].outcome == OutcomeOf(ResolveMaster(reports[i].oracle, reports[i].reply))
  }

  /** The last attempt below n that succeeded, plus one; 0 if there is none. */
  function SinceSuccess(reports: seq<Report>, n: nat): (from: nat)
    requires n <= |reports|
    ensures from <= n
  {
    if n == 0 || ResolveMaster(reports[n - 1].oracle, reports[n - 1].reply).Good? then n
    else SinceSuccess(reports, n - 1)
  }

  function CountFixing(reports: seq<Report>, from: nat, n: nat): (k: nat)
    requires from <= n <= |reports|
    ensures k <= n - from
  {
    if from == n then 0
    else CountFixing(reports, from, n - 1) + if SelfFixing(reports[n - 1].oracle, reports[n - 1].reply) then 1 else 0
  }

  /**
   * The budget in terms of what Sentinel reported: since the last success, placeholders and vanished names are waited
   * out, wherever and however long they come, and every other failure counts: no reply, a malformed one, an unusable
   * address, a lookup error, a node that is no master.
   */
  lemma {:induction false} BudgetSpent(reports: seq<Report>, turns: seq<Retry.Turn>, n: nat)
    requires Outcomes(reports, turns) && n <= |turns|
    ensures var from := SinceSuccess(reports, n);
            var fixing := CountFixing(reports, from, n);
            Retry.NotReadies(turns, n) == fixing && Retry.Failures(turns, n) == n - from - fixing
  {
    hide ResolveMaster, SelfFixing;
    if n > 0 {
      ResolveMasterIff(reports[n - 1].oracle, reports[n - 1].reply);
      BudgetSpent(reports, turns, n - 1);
    }
  }

  /** So an unreachable Sentinel, or one that does not know the master, uses up the budget attempt by attempt. */
  lemma {:induction false} UnansweredCounts(reports: seq<Report>, turns: seq<Retry.Turn>, from: nat, n: nat)
    requires Outcomes(reports, turns) && from <= n <= |turns| && (from == 0 || turns[from - 1].outcome == Retry.Ok)
    requires forall i :: from <= i < n ==> reports[i].reply.None? || |reports[i].reply.value| != 2
    ensures Retry.Failures(turns, n) == n - from
  {
    if from < n {
      ResolveMasterIff(reports[n - 1].oracle, reports[n - 1].reply);
      UnansweredCounts(reports, turns, from, n - 1);
    }
  }

  /** And a Sentinel that reports only placeholders and vanished names never uses up any of it. */
  lemma {:induction false} WaitedOut(reports: seq<Report>, turns: seq<Retry.Turn>, from: nat, n: nat)
    requires Outcomes(reports, turns) && from <= n <= |turns| && (from == 0 || turns[from - 1].outcome == Retry.Ok)
    requires forall i :: from <= i < n ==> SelfFixing(reports[i].oracle, reports[i].reply)
    ensures Retry.Failures(turns, n) == 0 && Retry.NotReadies(turns, n) == n - from
  {
    hide ResolveMaster, SelfFixing;
    if from < n {
      ResolveMasterIff(reports[n - 1].oracle, reports[n - 1].reply);
      WaitedOut(reports, turns, from, n - 1);
    }
  }
}
