/** Server replies: copyRESP's flat counter, with the writer it copies to. */
module Replies {
  import opened Bytes
  import opened Reader
  import opened Commands

  /** One header line, with its blob if it has one: the bytes it takes, the owed values it settles and adds. */
  datatype Frame = Frame(size: nat, settles: nat, adds: nat)

  predicate IsScalarType(c: char) { c in "+-:,#(_" }
  predicate IsBlobType(c: char) { c in "$=!" }

  function AtLeast0(n: int): nat { if n > 0 then n else 0 }

  /** What one iteration of copyRESP's loop takes from the front of s. */
  function ReadFrame(s: string): (r: Option<Frame>)
    ensures r.Some? ==> 3 <= r.value.size <= |s| && r.value.settles <= 1 && r.value.adds <= 2 * MAX_ELEMENTS
  {
    match Line(s)
    case None => None
    case Some(l) =>
      if IsScalarType(s[0]) then Some(Frame(l, 1, 0)) else
        match Header(s)
        case None => None
        case Some((_, n)) => HeadedFrame(s[0], l, n, |s|)
  }

  function HeadedFrame(kind: char, l: nat, n: int, available: nat): Option<Frame> {
    if IsBlobType(kind) then
      if n > MAX_BULK_LEN then None
      else if n < 0 then Some(Frame(l, 1, 0))
      else if l + n + 2 <= available then Some(Frame(l + n + 2, 1, 0))
      else None
    else if n > MAX_ELEMENTS then None
    else match kind
      case '*' => Some(Frame(l, 1, AtLeast0(n)))
      case '~' => Some(Frame(l, 1, AtLeast0(n)))
      case '%' => Some(Frame(l, 1, 2 * AtLeast0(n)))
      case '|' => Some(Frame(l, 0, 2 * AtLeast0(n)))
      case '>' => Some(Frame(l, 0, AtLeast0(n)))
      case _ => None
  }

  /** The counter as written (int64) or without a width. */
  datatype Width = Unbounded | Int64

  function Count(w: Width, n: int): int { if w.Int64? then Wrap64(n) else n }

  function Shift(k: nat, r: Option<nat>): Option<nat> {
    match r case None => None case Some(m) => Some(k + m)
  }

  /** copyRESP with `remaining` values still owed: how many bytes it copies before it returns nil. */
  function Copy(w: Width, s: string, remaining: int): (r: Option<nat>)
    ensures r.Some? ==> r.value <= |s|
    decreases |s|
  {
    if remaining <= 0 then Some(0) else
      match ReadFrame(s)
      case None => None
      case Some(f) => Shift(f.size, Copy(w, s[f.size..], Count(w, remaining - f.settles + f.adds)))
  }

  lemma CopyUnfold(w: Width, s: string, remaining: int)
    ensures remaining <= 0 ==> Copy(w, s, remaining) == Some(0)
    ensures remaining > 0 ==>
              match ReadFrame(s)
              case None => Copy(w, s, remaining) == None
              case Some(f) =>
                var next := Count(w, remaining - f.settles + f.adds);
                Copy(w, s, remaining) == Shift(f.size, Copy(w, s[f.size..], next))
  {
    hide ReadFrame, Count;
  }

  // Replies are self-delimiting.

  lemma FrameExtend(s: string, t: string)
    requires ReadFrame(s).Some?
    ensures ReadFrame(s + t) == ReadFrame(s)
  {
    LineLenExtend(s, t, LineCap(BUFFER_SIZE));
    if !IsScalarType(s[0]) {
      HeaderExtend(s, t);
    }
  }

  lemma FrameShrink(s: string, k: nat)
    requires ReadFrame(s).Some? && ReadFrame(s).value.size <= k <= |s|
    ensures ReadFrame(s[..k]) == ReadFrame(s)
  {
    FirstLFUnique(s[..k], Line(s).value - 1);
    if !IsScalarType(s[0]) {
      HeaderShrink(s, k);
    }
  }

  /** Success does not look past the reply: the same bytes are consumed whatever follows. */
  lemma {:induction false} CopyExtend(w: Width, s: string, t: string, remaining: int)
    requires Copy(w, s, remaining).Some?
    ensures Copy(w, s + t, remaining) == Copy(w, s, remaining)
    decreases |s|
  {
    hide ReadFrame, Count;
    if remaining > 0 {
      var f := ReadFrame(s).value;
      FrameExtend(s, t);
      assert (s + t)[f.size..] == s[f.size..] + t;
      CopyExtend(w, s[f.size..], t, Count(w, remaining - f.settles + f.adds));
    }
  }

  lemma {:induction false} CopyShrink(w: Width, s: string, remaining: int)
    requires Copy(w, s, remaining).Some?
    ensures Copy(w, s[..Copy(w, s, remaining).value], remaining) == Copy(w, s, remaining)
    decreases |s|
  {
    hide ReadFrame, Count;
    if remaining > 0 {
      var f := ReadFrame(s).value;
      var next := Count(w, remaining - f.settles + f.adds);
      var m := Copy(w, s[f.size..], next).value;
      FrameShrink(s, f.size + m);
      assert s[..f.size + m][f.size..] == s[f.size..][..m];
      CopyShrink(w, s[f.size..], next);
    }
  }

  /** Prefix-freeness: with fewer bytes than the whole reply, copyRESP never succeeds. */
  lemma CopyNeedsAll(w: Width, s: string, remaining: int, k: nat)
    requires Copy(w, s, remaining).Some? && k < Copy(w, s, remaining).value
    ensures Copy(w, s[..k], remaining) == None
  {
    hide Copy;
    assert s[..k] + s[k..] == s;
    if Copy(w, s[..k], remaining).Some? {
      CopyExtend(w, s[..k], s[k..], remaining);
    }
  }

  /** Exactly one reply in copyRESP's sense, with the attributes and pushes in front of it. */
  predicate IsReply(b: string) { Copy(Int64, b, 1) == Some(|b|) }

  predicate AllReplies(rs: seq<string>) { forall i :: 0 <= i < |rs| ==> IsReply(rs[i]) }

  /** k successive copyRESP calls on one stream. */
  function Relay(s: string, k: nat): (r: Option<seq<string>>)
    ensures r.Some? ==> |r.value| == k
  {
    if k == 0 then Some([]) else
      match Copy(Int64, s, 1)
      case None => None
      case Some(n) =>
        match Relay(s[n..], k - 1)
        case None => None
        case Some(rest) => Some([s[..n]] + rest)
  }

  /** A pipeline of replies is taken apart by the calls exactly where it was put together. */
  lemma {:induction false} RelayConcat(rs: seq<string>, t: string)
    requires AllReplies(rs)
    ensures Relay(Concat(rs) + t, |rs|) == Some(rs)
  {
    hide Copy;
    if rs != [] {
      var tail := Concat(rs[1..]) + t;
      Assoc(rs[0], Concat(rs[1..]), t);
      CopyExtend(Int64, rs[0], tail, 1);
      assert (rs[0] + tail)[..|rs[0]|] == rs[0];
      assert (rs[0] + tail)[|rs[0]|..] == tail;
      RelayConcat(rs[1..], t);
      assert rs == [rs[0]] + rs[1..];
    }
  }

  /** So no byte stream is the concatenation of k replies in two ways. */
  lemma UniqueSplit(a: seq<string>, b: seq<string>, s: string, t: string)
    requires AllReplies(a) && AllReplies(b) && |a| == |b|
    requires Concat(a) + s == Concat(b) + t
    ensures a == b && s == t
  {
    hide IsReply, Concat;
    RelayConcat(a, s);
    RelayConcat(b, t);
    assert (Concat(a) + s)[|Concat(a)|..] == s;
  }

  // The int64 counter.

  const LINES_LIMIT: nat := 0x400_0000_0000 // 2^42

  /** Loop iterations copyRESP completes with an ideal counter. */
  function Lines(s: string, remaining: int): nat
    decreases |s|
  {
    if remaining <= 0 || ReadFrame(s).None? then 0
    else var f := ReadFrame(s).value; 1 + Lines(s[f.size..], remaining - f.settles + f.adds)
  }

  /** Every iteration consumes at least three bytes. */
  lemma {:induction false} LinesAdvance(s: string, remaining: int)
    ensures 3 * Lines(s, remaining) <= |s|
    decreases |s|
  {
    hide ReadFrame;
    if remaining > 0 && ReadFrame(s).Some? {
      var f := ReadFrame(s).value;
      LinesAdvance(s[f.size..], remaining - f.settles + f.adds);
    }
  }

  /** The ideal counter after i iterations. */
  function CounterAt(s: string, remaining: int, i: nat): int
    requires i <= Lines(s, remaining)
    decreases i
  {
    if i == 0 then remaining
    else var f := ReadFrame(s).value; CounterAt(s[f.size..], remaining - f.settles + f.adds, i - 1)
  }

  /** An iteration adds at most twice maxRESPElements to the counter. */
  lemma {:induction false} CounterBound(s: string, remaining: int, i: nat)
    requires i <= Lines(s, remaining)
    ensures CounterAt(s, remaining, i) <= remaining + 2 * MAX_ELEMENTS * i
    decreases i
  {
    hide ReadFrame;
    if i > 0 {
      var f := ReadFrame(s).value;
      CounterBound(s[f.size..], remaining - f.settles + f.adds, i - 1);
    }
  }

  ghost predicate FitsInt64(s: string, remaining: int) {
    forall i :: 0 <= i <= Lines(s, remaining) ==> CounterAt(s, remaining, i) <= INT64_MAX
  }

  lemma FitsUnfold(s: string, remaining: int)
    requires 0 < remaining <= INT64_MAX
    ensures match ReadFrame(s)
            case None => FitsInt64(s, remaining)
            case Some(f) => FitsInt64(s, remaining) <==> FitsInt64(s[f.size..], remaining - f.settles + f.adds)
  {
    hide ReadFrame;
    if ReadFrame(s).Some? {
      var f := ReadFrame(s).value;
      var rest, next := s[f.size..], remaining - f.settles + f.adds;
      forall i | 0 <= i <= Lines(rest, next) ensures CounterAt(rest, next, i) == CounterAt(s, remaining, i + 1) {
      }
      forall i | 0 < i <= Lines(s, remaining) ensures CounterAt(s, remaining, i) == CounterAt(rest, next, i - 1) {
      }
    }
  }

  /** A counter beyond int64 wraps to a negative one: the loop ends at once, where the ideal one would read on. */
  lemma WrapEndsLoop(s: string, next: int)
    requires INT64_MAX < next <= INT64_MAX + 2 * MAX_ELEMENTS
    ensures Copy(Int64, s, Wrap64(next)) == Some(0) && Copy(Unbounded, s, next) != Some(0)
  {
    hide ReadFrame;
    assert Wrap64(next) < 0;
  }

  /** The int64 counter does what an ideal one does if and only if the ideal one never leaves int64. */
  lemma {:induction false} AgreeIffFits(s: string, remaining: int)
    requires 0 < remaining <= INT64_MAX
    ensures Copy(Int64, s, remaining) == Copy(Unbounded, s, remaining) <==> FitsInt64(s, remaining)
    decreases |s|
  {
    hide ReadFrame, Wrap64, Copy, FitsInt64;
    FitsUnfold(s, remaining);
    CopyUnfold(Int64, s, remaining);
    CopyUnfold(Unbounded, s, remaining);
    if ReadFrame(s).Some? {
      var f := ReadFrame(s).value;
      var rest, next := s[f.size..], remaining - f.settles + f.adds;
      if next > INT64_MAX {
        WrapEndsLoop(rest, next);
        assert !FitsInt64(rest, next) by { BeyondAtOnce(rest, next); }
      } else if next > 0 {
        AgreeIffFits(rest, next);
      } else {
        FitsAtOnce(rest, next);
        CopyUnfold(Int64, rest, next);
        CopyUnfold(Unbounded, rest, next);
      }
    }
  }

  lemma BeyondAtOnce(s: string, next: int)
    requires next > INT64_MAX
    ensures !FitsInt64(s, next)
  {
    assert CounterAt(s, next, 0) == next;
  }

  lemma FitsAtOnce(s: string, next: int)
    requires next <= 0
    ensures FitsInt64(s, next)
  {
  }

  /** So below 2^42 lines int64 is enough. */
  lemma NoOverflow(s: string)
    requires Lines(s, 1) < LINES_LIMIT
    ensures forall i :: 0 <= i <= Lines(s, 1) ==> CounterAt(s, 1, i) <= 1 + 2 * MAX_ELEMENTS * i
    ensures Copy(Int64, s, 1) == Copy(Unbounded, s, 1)
  {
    hide ReadFrame, Copy, Lines, CounterAt;
    forall i | 0 <= i <= Lines(s, 1) ensures CounterAt(s, 1, i) <= 1 + 2 * MAX_ELEMENTS * i {
      CounterBound(s, 1, i);
    }
    AgreeIffFits(s, 1);
  }

  /** k attribute headers that each announce the largest legal number of entries. */
  function Attributes(k: nat): string {
    if k == 0 then "" else "|" + Decimal(MAX_ELEMENTS) + "\r\n" + Attributes(k - 1)
  }

  lemma AttributeFrame(k: nat)
    requires k > 0
    ensures ReadFrame(Attributes(k)) == Some(Frame(|Decimal(MAX_ELEMENTS)| + 3, 0, 2 * MAX_ELEMENTS))
    ensures Attributes(k)[|Decimal(MAX_ELEMENTS)| + 3..] == Attributes(k - 1)
  {
    hide Decimal, ParseInt, LineLen;
    HeaderDecimal('|', MAX_ELEMENTS, Attributes(k - 1));
  }

  lemma WrapAtLimit()
    ensures Wrap64(1 + 2 * MAX_ELEMENTS * LINES_LIMIT) < 0
    ensures Attributes(0) == "" && ReadFrame("") == None
  {
  }

  lemma {:induction false} AttributesNeverEnd(k: nat, remaining: nat)
    requires remaining > 0
    ensures Copy(Unbounded, Attributes(k), remaining) == None
    ensures Lines(Attributes(k), remaining) == k
    decreases k
  {
    hide ReadFrame, Attributes;
    if k == 0 {
      WrapAtLimit();
    } else {
      AttributeFrame(k);
      AttributesNeverEnd(k - 1, remaining + 2 * MAX_ELEMENTS);
    }
  }

  lemma {:induction false} AttributesOverflow(k: nat, remaining: int)
    requires k <= LINES_LIMIT && remaining + 2 * MAX_ELEMENTS * k == 1 + 2 * MAX_ELEMENTS * LINES_LIMIT
    ensures Copy(Int64, Attributes(k), Wrap64(remaining)) == Some(|Attributes(k)|)
  {
    hide ReadFrame, Attributes, Wrap64, Copy, Decimal;
    if k == 0 {
      WrapAtLimit();
      CopyUnfold(Int64, Attributes(k), Wrap64(remaining));
    } else {
      assert 0 < remaining <= INT64_MAX;
      CopyUnfold(Int64, Attributes(k), remaining);
      AttributeFrame(k);
      AttributesOverflow(k - 1, remaining + 2 * MAX_ELEMENTS);
    }
  }

  /** The limit is sharp: with exactly 2^42 lines the counter wraps and an endless attribute passes for a reply. */
  lemma OverflowAtLimit()
    ensures Lines(Attributes(LINES_LIMIT), 1) == LINES_LIMIT
    ensures IsReply(Attributes(LINES_LIMIT))
    ensures Copy(Unbounded, Attributes(LINES_LIMIT), 1) == None
  {
    hide Attributes, Copy, Lines;
    AttributesOverflow(LINES_LIMIT, 1);
    AttributesNeverEnd(LINES_LIMIT, 1);
  }

  /** The writing half of a connection; a failed write may have delivered a part. */
  class Sink {
    var written: string
    var broken: bool

    constructor ()
      ensures written == "" && !broken
    {
      written, broken := "", false;
    }

    method Write(p: string) returns (ok: bool)
      modifies this
      ensures ok ==> written == old(written) + p && broken == old(broken)
      ensures !ok ==> broken && old(written) <= written <= old(written) + p
    {
      ok := *;
      if ok {
        written := written + p;
      } else {
        var n :| 0 <= n <= |p|;
        written, broken := written + p[..n], true;
      }
    }
  }

  // What is sent on.

  /** What an iteration that fails sends before it does: nothing, the header line, or a blob that breaks off. */
  function Fragment(s: string): string {
    match Line(s)
    case None => ""
    case Some(l) =>
      if IsBlobType(s[0]) && Header(s).Some? && 0 <= Header(s).value.1 <= MAX_BULK_LEN then s else s[..l]
  }

  function FrameText(s: string): string {
    match ReadFrame(s) case None => Fragment(s) case Some(f) => s[..f.size]
  }

  /** All that copyRESP sends on when no write fails, whether it succeeds or not. */
  function Relayed(s: string, remaining: int): string
    decreases |s|
  {
    if remaining <= 0 then "" else
      match ReadFrame(s)
      case None => FrameText(s)
      case Some(f) => FrameText(s) + Relayed(s[f.size..], Wrap64(remaining - f.settles + f.adds))
  }

  lemma RelayedUnfold(s: string, remaining: int)
    ensures remaining <= 0 ==> Relayed(s, remaining) == ""
    ensures remaining > 0 ==> FrameText(s) <= Relayed(s, remaining)
    ensures remaining > 0 && ReadFrame(s).None? ==> Relayed(s, remaining) == FrameText(s)
    ensures remaining > 0 && ReadFrame(s).Some? ==>
              var f := ReadFrame(s).value;
              FrameText(s) == s[..f.size] &&
              Relayed(s, remaining) == s[..f.size] + Relayed(s[f.size..], Wrap64(remaining - f.settles + f.adds))
  {
    hide ReadFrame, Wrap64, Fragment;
  }

  lemma FragmentPart(s: string)
    ensures FrameText(s) <= s
  {
    hide LineLen, Header;
  }

  /** It never reaches past the reply: of a whole reply exactly that reply is sent, otherwise what there is of it. */
  lemma {:induction false} RelayedReply(s: string, remaining: int)
    ensures Relayed(s, remaining) <= s
    ensures Copy(Int64, s, remaining).Some? ==> Relayed(s, remaining) == s[..Copy(Int64, s, remaining).value]
    decreases |s|
  {
    hide ReadFrame, Wrap64, Copy, Relayed, FrameText;
    RelayedUnfold(s, remaining);
    CopyUnfold(Int64, s, remaining);
    FragmentPart(s);
    if remaining > 0 && ReadFrame(s).Some? {
      var f := ReadFrame(s).value;
      var rest, next := s[f.size..], Wrap64(remaining - f.settles + f.adds);
      RelayedReply(rest, next);
      assert s == s[..f.size] + rest;
      if Copy(Int64, rest, next).Some? {
        var k := Copy(Int64, rest, next).value;
        assert s[..f.size + k] == s[..f.size] + rest[..k];
      }
    }
  }

  /** Of a stream that begins with a reply, or is cut off within it, nothing but that reply is ever sent. */
  lemma RelayedAtMost(s: string, reply: string)
    requires IsReply(reply) && (reply <= s || s <= reply)
    ensures Relayed(s, 1) <= reply
    ensures reply <= s ==> Relayed(s, 1) == reply
  {
    hide Copy, Relayed;
    RelayedReply(s, 1);
    if reply <= s {
      CopyExtend(Int64, reply, s[|reply|..], 1);
      assert s == reply + s[|reply|..];
    }
  }

  lemma NoLineFeed(s: string)
    ensures '\n' in s || FirstLF(s) == |s|
  {
  }

  /** A reply that breaks off in a blob has been sent on to its last byte; of a header line that breaks off, nothing. */
  lemma BrokenOff(kind: char, n: nat, part: string)
    requires IsBlobType(kind) && n <= MAX_BULK_LEN && |part| < n + 2
    ensures var s := [kind] + Decimal(n) + "\r\n" + part; Copy(Int64, s, 1) == None && Relayed(s, 1) == s
    ensures forall s :: '\n' !in s ==> Copy(Int64, s, 1) == None && Relayed(s, 1) == ""
  {
    hide Decimal, ParseInt, LineCap;
    var s := [kind] + Decimal(n) + "\r\n" + part;
    HeaderDecimal(kind, n, part);
    assert ReadFrame(s) == None;
    forall t | '\n' !in t ensures Copy(Int64, t, 1) == None && Relayed(t, 1) == "" {
      NoLineFeed(t);
    }
  }

  function Available(s: string, n: nat): string { if n <= |s| then s[..n] else s }

  /** Reads a header line and writes it on. A null sink discards. */
  method CopyLine(w: Sink?, br: BufReader) returns (line: Option<string>)
    requires br.Valid() && br.size == BUFFER_SIZE
    modifies br, if w == null then {} else {w}
    ensures br.Valid()
    ensures line.Some? ==> Line(old(br.Rest())) == Some(|line.value|) && old(br.Rest()) == line.value + br.Rest()
    ensures line.Some? && w != null ==> w.written == old(w.written) + line.value && w.broken == old(w.broken)
    ensures line.None? ==> Line(old(br.Rest())) == None || (w != null && w.broken)
    ensures w != null ==>
              var l := Line(old(br.Rest()));
              Delivered(old(w.written), if l.None? then "" else old(br.Rest())[..l.value], w.written, w.broken)
  {
    hide LineLen;
    line := br.ReadLine();
    if line.Some? && w != null {
      var ok := w.Write(line.value);
      if !ok {
        line := None;
      }
    }
  }

  /** io.CopyN: copies n bytes on, or as many as there are. */
  method CopyBlob(w: Sink?, br: BufReader, n: nat) returns (ok: bool, ghost blob: string)
    requires br.Valid()
    modifies br, if w == null then {} else {w}
    ensures br.Valid()
    ensures ok ==> |blob| == n && old(br.Rest()) == blob + br.Rest()
    ensures ok && w != null ==> w.written == old(w.written) + blob && w.broken == old(w.broken)
    ensures !ok ==> |old(br.Rest())| < n || (w != null && w.broken)
    ensures w != null ==> Delivered(old(w.written), Available(old(br.Rest()), n), w.written, w.broken)
  {
    var got;
    ok, got := br.ReadFull(n);
    blob := got;
    assert got == Available(old(br.Rest()), n);
    if w != null {
      var sent := w.Write(got);
      ok := ok && sent;
    }
  }

  /** What a header line and the number it announces, if any, let an iteration take and send. */
  lemma FrameTextIs(s: string, line: string, rest: string)
    requires Line(s) == Some(|line|) && s == line + rest
    ensures 3 <= |line| && s[..|line|] == line && line <= FrameText(s)
    ensures IsScalarType(line[0]) ==> FrameText(s) == line
    ensures ReadFrame(s) ==
            if IsScalarType(line[0]) then Some(Frame(|line|, 1, 0)) else
              match ParseInt(line[1..|line| - 2])
              case None => None
              case Some(n) => HeadedFrame(line[0], |line|, n, |s|)
    ensures var n := ParseInt(line[1..|line| - 2]);
            FrameText(s) == if IsBlobType(line[0]) && n.Some? && 0 <= n.value <= MAX_BULK_LEN
                            then line + Available(rest, n.value + 2) else line
  {
    hide LineLen, Header, ParseInt;
    HeaderOfLine(s, Some(line), rest);
    assert s[..|line|] == line;
    var n := ParseInt(line[1..|line| - 2]);
    if n.Some? && 0 <= n.value && |line| + n.value + 2 <= |s| {
      assert s[..|line| + n.value + 2] == line + rest[..n.value + 2];
    }
  }

  /** Only a blob of legal length looks beyond its header line. */
  lemma HeadedFrameIs(kind: char, l: nat, n: int, available: nat)
    ensures if IsBlobType(kind) && 0 <= n <= MAX_BULK_LEN
            then HeadedFrame(kind, l, n, available) ==
                 if l + n + 2 <= available then Some(Frame(l + n + 2, 1, 0)) else None
            else HeadedFrame(kind, l, n, available) == HeadedFrame(kind, l, n, l)
    ensures var f := HeadedFrame(kind, l, n, l); f.Some? ==> f.value.size == l
  {
  }

  /** One iteration: a header line, and the blob behind it if it announces one. */
  method CopyFrame(w: Sink?, br: BufReader) returns (f: Option<Frame>, ghost bytes: string)
    requires br.Valid() && br.size == BUFFER_SIZE
    modifies br, if w == null then {} else {w}
    ensures br.Valid()
    ensures f.Some? ==> f == ReadFrame(old(br.Rest())) && |bytes| == f.value.size
    ensures f.Some? ==> old(br.Rest()) == bytes + br.Rest()
    ensures f.Some? && w != null ==> w.written == old(w.written) + bytes && w.broken == old(w.broken)
    ensures f.None? ==> ReadFrame(old(br.Rest())) == None || (w != null && w.broken)
    ensures w != null ==> Delivered(old(w.written), FrameText(old(br.Rest())), w.written, w.broken)
  {
    hide LineLen, ParseInt, Delivered, FrameText, ReadFrame, Available, HeadedFrame, IsScalarType, IsBlobType;
    ghost var s, start := br.Rest(), if w == null then "" else w.written;
    bytes := "";
    var line := CopyLine(w, br);
    if line.None? {
      NoLine(s);
      if w != null {
        FailedLine(s, start, w.written, w.broken);
      }
      return None, bytes;
    }
    FrameTextIs(s, line.value, br.Rest());
    bytes := line.value;
    if IsScalarType(line.value[0]) {
      return Some(Frame(|line.value|, 1, 0)), bytes;
    }
    var n := ParseInt(line.value[1..|line.value| - 2]);
    if n.None? {
      return None, bytes;
    }
    HeadedFrameIs(line.value[0], |line.value|, n.value, |s|);
    if IsBlobType(line.value[0]) && 0 <= n.value <= MAX_BULK_LEN {
      ghost var rest := br.Rest();
      var ok, blob := CopyBlob(w, br, n.value + 2);
      if w != null {
        DeliveredBehind(start, line.value, Available(rest, n.value + 2), w.written, w.broken);
      }
      if !ok {
        return None, bytes;
      }
      Assoc(start, bytes, blob);
      Assoc(bytes, blob, br.Rest());
      bytes := bytes + blob;
      return Some(Frame(|line.value| + n.value + 2, 1, 0)), bytes;
    }
    f := HeadedFrame(line.value[0], |line.value|, n.value, |line.value|);
  }

  lemma NoLine(s: string)
    ensures Line(s).None? ==> ReadFrame(s).None?
  {
    hide LineLen;
  }

  lemma FailedLine(s: string, start: string, now: string, broken: bool)
    requires Line(s).None? || broken
    requires Delivered(start, if Line(s).None? then "" else s[..Line(s).value], now, broken)
    ensures Delivered(start, FrameText(s), now, broken)
  {
    hide LineLen;
    if Line(s).Some? {
      var l := Line(s).value;
      FrameTextIs(s, s[..l], s[l..]) by { assert s == s[..l] + s[l..]; }
      DeliveredLess(start, s[..l], FrameText(s), now);
    }
  }

  /**
   * copyRESP: the writer receives exactly what Relayed says, or a part of it if a write fails; so never a byte past
   * the one reply.
   */
  method CopyResp(w: Sink?, br: BufReader) returns (ok: bool, ghost moved: string)
    requires br.Valid() && br.size == BUFFER_SIZE
    modifies br, if w == null then {} else {w}
    ensures br.Valid()
    ensures ok ==> Copy(Int64, old(br.Rest()), 1) == Some(|moved|) && old(br.Rest()) == moved + br.Rest()
    ensures ok && w != null ==> w.written == old(w.written) + moved && w.broken == old(w.broken)
    ensures !ok ==> Copy(Int64, old(br.Rest()), 1) == None || (w != null && w.broken)
    ensures w != null ==> Delivered(old(w.written), Relayed(old(br.Rest()), 1), w.written, w.broken)
  {
    hide ReadFrame, Copy, Wrap64, Delivered, Relayed, FrameText;
    ghost var s := br.Rest();
    ghost var before := if w == null then "" else w.written;
    moved := "";
    var remaining := 1;
    while remaining > 0
      invariant br.Valid() && s == moved + br.Rest()
      invariant w != null ==> w.written == before + moved && w.broken == old(w.broken)
      invariant Copy(Int64, s, 1) == Shift(|moved|, Copy(Int64, br.Rest(), remaining))
      invariant Relayed(s, 1) == moved + Relayed(br.Rest(), remaining)
      decreases |br.Rest()|
    {
      ghost var rest := br.Rest();
      CopyUnfold(Int64, rest, remaining);
      RelayedUnfold(rest, remaining);
      var f, bytes := CopyFrame(w, br);
      if f.None? {
        if w != null {
          FailedFrame(before, moved, rest, remaining, w.written, w.broken);
        }
        return false, moved;
      }
      Assoc(before, moved, bytes);
      Assoc(moved, bytes, br.Rest());
      assert br.Rest() == rest[|bytes|..] && bytes == rest[..|bytes|];
      remaining := Wrap64(remaining - f.value.settles + f.value.adds);
      Assoc(moved, bytes, Relayed(br.Rest(), remaining));
      moved := moved + bytes;
    }
    CopyUnfold(Int64, br.Rest(), remaining);
    RelayedUnfold(br.Rest(), remaining);
    if w != null {
      AllDelivered(before, moved, w.broken);
    }
    ok := true;
  }

  lemma FailedFrame(before: string, moved: string, rest: string, remaining: int, now: string, broken: bool)
    requires remaining > 0 && (ReadFrame(rest).None? || broken)
    requires Delivered(before + moved, FrameText(rest), now, broken)
    ensures Delivered(before, moved + Relayed(rest, remaining), now, broken)
  {
    hide ReadFrame, Delivered, Relayed, FrameText;
    RelayedUnfold(rest, remaining);
    if ReadFrame(rest).Some? {
      DeliveredLess(before + moved, FrameText(rest), Relayed(rest, remaining), now);
    }
    DeliveredBehind(before, moved, Relayed(rest, remaining), now, broken);
  }

  lemma AllDelivered(before: string, moved: string, broken: bool)
    ensures Delivered(before, moved + "", before + moved, broken)
  {
    assert moved + "" == moved;
  }
}
