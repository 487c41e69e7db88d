/** From one Sentinel reply to the published replica list. */
module Replicas {
  import opened Bytes
  import opened Resolve

  type Entry = map<string, string>

  function Field(e: Entry, key: string): string { if key in e then e[key] else "" }

  predicate Contains(s: string, sub: string) {
    exists i :: 0 <= i <= |s| && sub <= s[i..]
  }

  datatype Replica = Replica(addr: string, name: string)

  /** What makes an entry of Sentinel's reply a replica to publish: Sentinel's view of it, and the node's own. */
  predicate Healthy(o: Oracle, e: Entry) {
    var flags := Field(e, "flags");
    && !Contains(flags, "s_down") && !Contains(flags, "o_down") && !Contains(flags, "disconnected")
    && ("master-link-status" in e ==> e["master-link-status"] == "ok")
    && var addr := UsableAddr(o, Field(e, "ip"), Field(e, "port"));
       addr.Usable? && o.role(addr.addr) == Some("slave")
  }

  function ReplicaOf(o: Oracle, e: Entry): Replica
    requires Healthy(o, e)
  {
    var addr := UsableAddr(o, Field(e, "ip"), Field(e, "port")).addr;
    Replica(AddrText(addr), o.display(Field(e, "ip"), Field(e, "port"), addr))
  }

  /** The healthy replicas in Sentinel's order. */
  function Filtered(o: Oracle, reply: seq<Entry>): seq<Replica> {
    if reply == [] then [] else
      var last := reply[|reply| - 1];
      Filtered(o, reply[..|reply| - 1]) + if Healthy(o, last) then [ReplicaOf(o, last)] else []
  }

  /** strings.Compare(a, b) <= 0: bytewise lexicographic order. */
  predicate LexLe(a: string, b: string) {
    a == "" || (b != "" && (a[0] < b[0] || (a[0] == b[0] && LexLe(a[1..], b[1..]))))
  }

  /** The first place where the texts differ decides; a proper prefix comes first. */
  lemma {:induction false} LexLeIff(a: string, b: string)
    ensures LexLe(a, b) <==> exists k :: 0 <= k <= |a| && k <= |b| && LexAt(a, b, k)
  {
    if a != "" && b != "" {
      LexLeIff(a[1..], b[1..]);
      if LexLe(a, b) && a[0] == b[0] {
        var k :| 0 <= k <= |a[1..]| && k <= |b[1..]| && LexAt(a[1..], b[1..], k);
        assert a[..k + 1] == [a[0]] + a[1..][..k] && b[..k + 1] == [b[0]] + b[1..][..k];
        assert LexAt(a, b, k + 1);
      } else if LexLe(a, b) {
        assert LexAt(a, b, 0);
      }
      forall k | 0 <= k <= |a| && k <= |b| && LexAt(a, b, k) ensures LexLe(a, b) {
        if k > 0 {
          assert a[..k][0] == a[0] && b[..k][0] == b[0];
          assert a[1..][..k - 1] == a[..k][1..] && b[1..][..k - 1] == b[..k][1..];
          assert LexAt(a[1..], b[1..], k - 1);
        }
      }
    } else {
      assert a == "" ==> LexAt(a, b, 0);
    }
  }

  predicate LexAt(a: string, b: string, k: nat)
    requires k <= |a| && k <= |b|
  {
    a[..k] == b[..k] && (k == |a| || (k < |b| && a[k] < b[k]))
  }

  lemma {:induction false} LexTotal(a: string, b: string)
    ensures LexLe(a, b) || LexLe(b, a)
  {
    if a != "" && b != "" && a[0] == b[0] {
      LexTotal(a[1..], b[1..]);
    }
  }

  lemma {:induction false} LexTransitive(a: string, b: string, c: string)
    requires LexLe(a, b) && LexLe(b, c)
    ensures LexLe(a, c)
  {
    if a != "" && a[0] == b[0] && b[0] == c[0] {
      LexTransitive(a[1..], b[1..], c[1..]);
    }
  }

  lemma {:induction false} LexAntisymmetric(a: string, b: string)
    requires LexLe(a, b) && LexLe(b, a)
    ensures a == b
  {
    if a != "" && b != "" {
      LexAntisymmetric(a[1..], b[1..]);
      assert a == [a[0]] + a[1..] && b == [b[0]] + b[1..];
    }
  }

  ghost predicate Sorted(rs: seq<Replica>) {
    forall i, j :: 0 <= i < j < |rs| ==> LexLe(rs[i].addr, rs[j].addr)
  }

  function Addrs(rs: seq<Replica>): (a: seq<string>)
    ensures |a| == |rs|
  {
    seq(|rs|, i requires 0 <= i < |rs| => rs[i].addr)
  }

  function Names(rs: seq<Replica>): (a: seq<string>)
    ensures |a| == |rs|
  {
    seq(|rs|, i requires 0 <= i < |rs| => rs[i].name)
  }

  /** A list that may be published for one Sentinel reply: its healthy replicas, each once, sorted by address. */
  ghost predicate Snapshot(o: Oracle, reply: seq<Entry>, rs: seq<Replica>) {
    Sorted(rs) && multiset(rs) == multiset(Filtered(o, reply))
  }

  /** Puts r behind every address that is not greater. */
  method Insert(rs: seq<Replica>, r: Replica) returns (out: seq<Replica>)
    requires Sorted(rs)
    ensures Sorted(out) && multiset(out) == multiset(rs) + multiset{r}
  {
    hide LexLe, Sorted;
    var i := |rs|;
    while i > 0 && !LexLe(rs[i - 1].addr, r.addr)
      invariant 0 <= i <= |rs|
      invariant forall j :: i <= j < |rs| ==> LexLe(r.addr, rs[j].addr)
    {
      LexTotal(rs[i - 1].addr, r.addr);
      i := i - 1;
    }
    out := rs[..i] + [r] + rs[i..];
    InsertSorted(rs, r, i);
    InsertMultiset(rs, r, i);
  }

  lemma InsertMultiset(rs: seq<Replica>, r: Replica, i: nat)
    requires i <= |rs|
    ensures multiset(rs[..i] + [r] + rs[i..]) == multiset(rs) + multiset{r}
  {
    assert rs == rs[..i] + rs[i..];
  }

  lemma InsertSorted(rs: seq<Replica>, r: Replica, i: nat)
    requires Sorted(rs) && i <= |rs|
    requires i > 0 ==> LexLe(rs[i - 1].addr, r.addr)
    requires forall j :: i <= j < |rs| ==> LexLe(r.addr, rs[j].addr)
    ensures Sorted(rs[..i] + [r] + rs[i..])
  {
    hide LexLe;
    var out := rs[..i] + [r] + rs[i..];
    forall a | 0 <= a < i ensures LexLe(rs[a].addr, r.addr) {
      if a < i - 1 {
        LexTransitive(rs[a].addr, rs[i - 1].addr, r.addr);
      }
    }
    forall a, b | 0 <= a < b < |out| ensures LexLe(out[a].addr, out[b].addr) {
      var x := if a < i then rs[a] else if a == i then r else rs[a - 1];
      var y := if b < i then rs[b] else if b == i then r else rs[b - 1];
      assert out[a] == x && out[b] == y;
    }
  }

  /** slices.SortFunc by address; equal addresses may come in any order. */
  method SortByAddr(rs: seq<Replica>) returns (out: seq<Replica>)
    ensures Sorted(out) && multiset(out) == multiset(rs)
  {
    hide Sorted;
    out := [];
    EmptySorted();
    for i := 0 to |rs|
      invariant Sorted(out) && multiset(out) == multiset(rs[..i])
    {
      assert rs[..i + 1] == rs[..i] + [rs[i]];
      out := Insert(out, rs[i]);
    }
    assert rs[..|rs|] == rs;
  }

  lemma EmptySorted()
    ensures Sorted([])
  {
  }

  /** resolveReplicaAddresses for one Sentinel reply: addresses and names come from one sorted list, so they align. */
  method ResolveReplicas(o: Oracle, reply: seq<Entry>) returns (addrs: seq<string>, names: seq<string>)
    ensures exists rs :: Snapshot(o, reply, rs) && addrs == Addrs(rs) && names == Names(rs)
  {
    hide Contains, UsableAddr, Sorted;
    var reps: seq<Replica> := [];
    for i := 0 to |reply|
      invariant reps == Filtered(o, reply[..i])
    {
      var fields := reply[i];
      assert reply[..i + 1][..i] == reply[..i];
      var flags := Field(fields, "flags");
      if Contains(flags, "s_down") || Contains(flags, "o_down") || Contains(flags, "disconnected") {
        continue;
      }
      if "master-link-status" in fields && fields["master-link-status"] != "ok" {
        continue;
      }
      var addr := UsableAddr(o, Field(fields, "ip"), Field(fields, "port"));
      if !addr.Usable? || o.role(addr.addr) != Some("slave") {
        continue;
      }
      var name := o.display(Field(fields, "ip"), Field(fields, "port"), addr.addr);
      reps := reps + [Replica(AddrText(addr.addr), name)];
    }
    assert reply[..|reply|] == reply;
    var sorted := SortByAddr(reps);
    addrs, names := Addrs(sorted), Names(sorted);
  }

  // What is published, entry by entry.

  predicate Mentions(s: string, word: string) {
    exists i, j :: 0 <= i <= j <= |s| && s[i..j] == word
  }

  lemma ContainsIsMention(s: string, word: string)
    ensures Contains(s, word) <==> Mentions(s, word)
  {
    if Contains(s, word) {
      var i :| 0 <= i <= |s| && word <= s[i..];
      assert s[i..i + |word|] == word;
    }
    if Mentions(s, word) {
      var i, j :| 0 <= i <= j <= |s| && s[i..j] == word;
      assert s[i..][..|word|] == word;
    }
  }

  /** Entry e stands for the replica r: Sentinel has nothing against it, and the node itself says it is one. */
  predicate StandsFor(o: Oracle, e: Entry, r: Replica) {
    var flags, host, port := Field(e, "flags"), Field(e, "ip"), Field(e, "port");
    && !Mentions(flags, "s_down") && !Mentions(flags, "o_down") && !Mentions(flags, "disconnected")
    && ("master-link-status" in e ==> e["master-link-status"] == "ok")
    && host != "" && !IsPlaceholder(o, host) && PortOk(port) && ResolveHost(o, host).Found?
    && var addr := TCPAddr(ResolveHost(o, host).ip, ParseInt(port).value);
       o.role(addr) == Some("slave") && r == Replica(AddrText(addr), o.display(host, port, addr))
  }

  lemma HealthyStands(o: Oracle, e: Entry)
    ensures Healthy(o, e) ==> StandsFor(o, e, ReplicaOf(o, e))
    ensures forall r :: StandsFor(o, e, r) ==> Healthy(o, e) && r == ReplicaOf(o, e)
  {
    hide Contains, Mentions, ParseIP, AddrText, DigitsValue;
    var flags := Field(e, "flags");
    ContainsIsMention(flags, "s_down");
    ContainsIsMention(flags, "o_down");
    ContainsIsMention(flags, "disconnected");
    assert !PortOk("");
  }

  /** How many entries stand for r. */
  function Times(o: Oracle, reply: seq<Entry>, r: Replica): nat {
    if reply == [] then 0 else
      Times(o, reply[..|reply| - 1], r) + if StandsFor(o, reply[|reply| - 1], r) then 1 else 0
  }

  lemma {:induction false} FilteredTimes(o: Oracle, reply: seq<Entry>, r: Replica)
    ensures multiset(Filtered(o, reply))[r] == Times(o, reply, r)
  {
    hide Healthy, ReplicaOf, StandsFor;
    if reply != [] {
      HealthyStands(o, reply[|reply| - 1]);
      FilteredTimes(o, reply[..|reply| - 1], r);
    }
  }

  lemma {:induction false} TimesPositive(o: Oracle, reply: seq<Entry>, r: Replica)
    ensures Times(o, reply, r) > 0 <==> exists i :: 0 <= i < |reply| && StandsFor(o, reply[i], r)
  {
    hide StandsFor;
    if reply != [] {
      var init := reply[..|reply| - 1];
      TimesPositive(o, init, r);
      assert forall i :: 0 <= i < |init| ==> init[i] == reply[i];
      if Times(o, init, r) > 0 {
        var i :| 0 <= i < |init| && StandsFor(o, init[i], r);
        assert StandsFor(o, reply[i], r);
      }
      if exists i :: 0 <= i < |reply| && StandsFor(o, reply[i], r) {
        var i :| 0 <= i < |reply| && StandsFor(o, reply[i], r);
        assert i < |init| ==> StandsFor(o, init[i], r);
      }
    }
  }

  /** A published list holds exactly the replicas that entries of the reply stand for, each as often as that. */
  lemma PublishedExactly(o: Oracle, reply: seq<Entry>, rs: seq<Replica>, r: Replica)
    requires Snapshot(o, reply, rs)
    ensures multiset(rs)[r] == Times(o, reply, r)
    ensures r in rs <==> exists i :: 0 <= i < |reply| && StandsFor(o, reply[i], r)
  {
    hide Filtered, Times, StandsFor, Sorted;
    FilteredTimes(o, reply, r);
    TimesPositive(o, reply, r);
    assert r in rs <==> r in multiset(rs);
  }

  /** Sentinel has something against the entry: one of three flags, wherever it stands, or a link that is down. */
  ghost predicate HeldBack(e: Entry, before: string, word: string, behind: string) {
    || (word in {"s_down", "o_down", "disconnected"} && Field(e, "flags") == before + word + behind)
    || ("master-link-status" in e && e["master-link-status"] != "ok")
  }

  lemma HeldBackUnhealthy(o: Oracle, e: Entry, before: string, word: string, behind: string)
    requires HeldBack(e, before, word, behind)
    ensures !Healthy(o, e)
  {
    hide UsableAddr, Mentions;
    var flags := Field(e, "flags");
    if word in {"s_down", "o_down", "disconnected"} && flags == before + word + behind {
      WordInside(before, word, behind);
      assert Contains(flags, word);
    }
  }

  lemma WordInside(before: string, word: string, behind: string)
    ensures Contains(before + word + behind, word)
  {
    var s := before + word + behind;
    assert s[|before|..] == word + behind;
  }

  /** Such an entry contributes nothing, whatever stands around it. */
  lemma HeldBackIsSkipped(
    o: Oracle, e: Entry, before: string, word: string, behind: string, p: seq<Entry>, q: seq<Entry>)
    requires HeldBack(e, before, word, behind)
    ensures Filtered(o, p + [e] + q) == Filtered(o, p + q)
  {
    hide Healthy, HeldBack;
    HeldBackUnhealthy(o, e, before, word, behind);
    assert [e][..0] == [];
    assert Filtered(o, [e]) == [];
    FilteredAppend(o, p + [e], q);
    FilteredAppend(o, p, [e]);
    FilteredAppend(o, p, q);
  }

  // The published addresses do not depend on the order in which Sentinel lists the replicas.

  lemma {:induction false} FilteredAppend(o: Oracle, a: seq<Entry>, b: seq<Entry>)
    ensures Filtered(o, a + b) == Filtered(o, a) + Filtered(o, b)
  {
    hide Healthy;
    if b == [] {
      assert a + b == a;
    } else {
      var b' := b[..|b| - 1];
      assert (a + b)[..|a + b| - 1] == a + b';
      FilteredAppend(o, a, b');
    }
  }

  lemma FilteredAt(o: Oracle, reply: seq<Entry>, i: nat)
    requires i < |reply|
    ensures multiset(Filtered(o, reply)) ==
            multiset(Filtered(o, reply[..i] + reply[i + 1..])) + multiset(Filtered(o, [reply[i]]))
  {
    hide Filtered;
    var a, x, b := reply[..i], [reply[i]], reply[i + 1..];
    assert reply == a + (x + b);
    FilteredAppend(o, a, x + b);
    FilteredAppend(o, x, b);
    FilteredAppend(o, a, b);
  }

  lemma RemoveAt<T>(s: seq<T>, i: nat)
    requires i < |s|
    ensures multiset(s) == multiset(s[..i] + s[i + 1..]) + multiset{s[i]}
  {
    assert s == s[..i] + [s[i]] + s[i + 1..];
  }

  lemma Cancel<T>(a: multiset<T>, b: multiset<T>, x: T)
    requires a + multiset{x} == b + multiset{x}
    ensures a == b
  {
    assert a == a + multiset{x} - multiset{x};
    assert b == b + multiset{x} - multiset{x};
  }

  lemma Occurs<T>(s: seq<T>, x: T) returns (i: nat)
    requires x in multiset(s)
    ensures i < |s| && s[i] == x
  {
    i :| 0 <= i < |s| && s[i] == x;
  }

  lemma {:induction false} FilteredPermuted(o: Oracle, p: seq<Entry>, q: seq<Entry>)
    requires multiset(p) == multiset(q)
    ensures multiset(Filtered(o, p)) == multiset(Filtered(o, q))
    decreases |p|
  {
    hide Filtered;
    if p == [] {
      assert |multiset(q)| == 0 && q == [];
    } else {
      assert p[0] in multiset(p);
      var i := Occurs(q, p[0]);
      RemoveAt(p, 0);
      RemoveAt(q, i);
      FilteredAt(o, p, 0);
      FilteredAt(o, q, i);
      Cancel(multiset(p[..0] + p[1..]), multiset(q[..i] + q[i + 1..]), p[0]);
      FilteredPermuted(o, p[..0] + p[1..], q[..i] + q[i + 1..]);
    }
  }

  lemma AddrsAt(rs: seq<Replica>, i: nat)
    requires i < |rs|
    ensures multiset(Addrs(rs)) == multiset(Addrs(rs[..i] + rs[i + 1..])) + multiset{rs[i].addr}
  {
    assert Addrs(rs)[..i] + Addrs(rs)[i + 1..] == Addrs(rs[..i] + rs[i + 1..]);
    RemoveAt(Addrs(rs), i);
  }

  lemma {:induction false} AddrsPermuted(p: seq<Replica>, q: seq<Replica>)
    requires multiset(p) == multiset(q)
    ensures multiset(Addrs(p)) == multiset(Addrs(q))
    decreases |p|
  {
    hide Addrs;
    if p == [] {
      assert |multiset(q)| == 0 && q == [];
    } else {
      assert p[0] in multiset(p);
      var i := Occurs(q, p[0]);
      RemoveAt(p, 0);
      RemoveAt(q, i);
      AddrsAt(p, 0);
      AddrsAt(q, i);
      Cancel(multiset(p[..0] + p[1..]), multiset(q[..i] + q[i + 1..]), p[0]);
      AddrsPermuted(p[..0] + p[1..], q[..i] + q[i + 1..]);
    }
  }

  ghost predicate LexSorted(s: seq<string>) {
    forall i, j :: 0 <= i < j < |s| ==> LexLe(s[i], s[j])
  }

  lemma SameGreatest(p: seq<string>, q: seq<string>)
    requires LexSorted(p) && LexSorted(q) && multiset(p) == multiset(q) && |p| == |q| > 0
    ensures p[|p| - 1] == q[|q| - 1]
  {
    hide LexLe;
    var n := |p| - 1;
    assert p[n] in multiset(p) && q[n] in multiset(q);
    var i := Occurs(q, p[n]);
    var j := Occurs(p, q[n]);
    if i < n && j < n {
      LexAntisymmetric(p[n], q[n]);
    }
  }

  lemma {:induction false} SortedUnique(p: seq<string>, q: seq<string>)
    requires LexSorted(p) && LexSorted(q) && multiset(p) == multiset(q)
    ensures p == q
    decreases |p|
  {
    hide LexLe;
    assert |multiset(p)| == |p| && |multiset(q)| == |q|;
    if p != [] {
      var n := |p| - 1;
      SameGreatest(p, q);
      var p', q' := p[..n], q[..n];
      assert p == p' + [p[n]] && q == q' + [q[n]];
      Cancel(multiset(p'), multiset(q'), p[n]);
      SortedUnique(p', q');
    }
  }

  /** So the change check compares sets of addresses: a reordered Sentinel reply publishes the same list. */
  lemma OrderIndependent(o: Oracle, p: seq<Entry>, q: seq<Entry>, rs: seq<Replica>, ts: seq<Replica>)
    requires multiset(p) == multiset(q) && Snapshot(o, p, rs) && Snapshot(o, q, ts)
    ensures Addrs(rs) == Addrs(ts)
  {
    hide LexLe, Filtered;
    FilteredPermuted(o, p, q);
    AddrsPermuted(rs, ts);
    SortedUnique(Addrs(rs), Addrs(ts));
  }
}
