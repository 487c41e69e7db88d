/** The recursive reply grammar that copyRESP's flat counter refines. */
module Grammar {
  import opened Bytes
  import opened Reader
  import opened Commands
  import opened Replies

  /**
   * A slot is one owed value: any number of attributes and pushes, each with its own slots, then the value.
   * Header lines and blobs are kept byte for byte, so every spelling the code accepts has a tree.
   */
  datatype Slot =
    | Value(line: string, blob: string, slots: Slots)
    | Annotated(line: string, slots: Slots, of: Slot)
  datatype Slots = Nil | Cons(head: Slot, tail: Slots)

  function Length(ts: Slots): nat { match ts case Nil => 0 case Cons(_, more) => 1 + Length(more) }

  function Text(t: Slot): string {
    match t
    case Value(line, blob, slots) => line + blob + TextAll(slots)
    case Annotated(line, slots, of) => line + TextAll(slots) + Text(of)
  }

  function TextAll(ts: Slots): string {
    match ts case Nil => "" case Cons(t, more) => Text(t) + TextAll(more)
  }

  /** A complete header line: ends in CRLF, has no other LF, and fits the line reader. */
  predicate IsLine(line: string) {
    3 <= |line| <= LineCap(BUFFER_SIZE) && line[|line| - 2] == '\r' && line[|line| - 1] == '\n' &&
    forall j :: 0 <= j < |line| - 1 ==> line[j] != '\n'
  }

  function Announced(line: string): Option<int>
    requires IsLine(line)
  {
    ParseInt(line[1..|line| - 2])
  }

  /** The line and blob of a value with `arity` slots; a negative announcement is a null. */
  predicate ValueHead(line: string, blob: string, arity: nat) {
    IsLine(line) &&
    var n := Announced(line);
    if line[0] in "+-:,#(_" then blob == "" && arity == 0
    else if line[0] in "$=!" then
      n.Some? && n.value <= MAX_BULK_LEN && |blob| == (if n.value < 0 then 0 else n.value + 2) && arity == 0
    else if line[0] in "*~%" then
      n.Some? && n.value <= MAX_ELEMENTS && blob == "" &&
      arity == (if line[0] == '%' then 2 else 1) * AtLeast0(n.value)
    else false
  }

  predicate AnnotationHead(line: string, arity: nat) {
    IsLine(line) && line[0] in "|>" && Announced(line).Some? && Announced(line).value <= MAX_ELEMENTS &&
    arity == (if line[0] == '|' then 2 else 1) * AtLeast0(Announced(line).value)
  }

  predicate WellFormed(t: Slot) {
    match t
    case Value(line, blob, slots) => ValueHead(line, blob, Length(slots)) && AllWellFormed(slots)
    case Annotated(line, slots, of) => AnnotationHead(line, Length(slots)) && AllWellFormed(slots) && WellFormed(of)
  }

  predicate AllWellFormed(ts: Slots) {
    match ts case Nil => true case Cons(t, more) => WellFormed(t) && AllWellFormed(more)
  }

  // From trees to bytes: the copy takes exactly the text.

  lemma LineInFront(line: string, rest: string)
    requires IsLine(line)
    ensures Line(line + rest) == Some(|line|)
    ensures Header(line + rest) == match Announced(line) case None => None case Some(n) => Some((|line|, n))
  {
    hide ParseInt;
    LineLenPrefix(line, rest, LineCap(BUFFER_SIZE));
    assert (line + rest)[1..|line| - 2] == line[1..|line| - 2];
  }

  lemma ValueFrame(line: string, blob: string, arity: nat, rest: string)
    requires ValueHead(line, blob, arity)
    ensures ReadFrame(line + blob + rest) == Some(Frame(|line + blob|, 1, arity))
  {
    hide ParseInt, Header, LineLen;
    LineInFront(line, blob + rest);
    Assoc(line, blob, rest);
  }

  lemma AnnotationFrame(line: string, arity: nat, rest: string)
    requires AnnotationHead(line, arity)
    ensures ReadFrame(line + rest) == Some(Frame(|line|, 0, arity))
  {
    hide ParseInt, Header, LineLen;
    LineInFront(line, rest);
  }

  function Head(t: Slot): string { match t case Value(line, blob, _) => line + blob case Annotated(line, _, _) => line }

  function AfterHead(t: Slot): string {
    match t case Value(_, _, slots) => TextAll(slots) case Annotated(_, slots, of) => TextAll(slots) + Text(of)
  }

  lemma SlotFrame(t: Slot, s: string)
    requires WellFormed(t)
    ensures Text(t) + s == Head(t) + (AfterHead(t) + s)
    ensures ReadFrame(Text(t) + s) == Some(Frame(|Head(t)|, if t.Value? then 1 else 0, Length(t.slots)))
  {
    hide ReadFrame, ValueHead, AnnotationHead;
    var tail := AfterHead(t) + s;
    match t
    case Value(line, blob, slots) =>
      Assoc(line + blob, TextAll(slots), s);
      ValueFrame(line, blob, Length(slots), tail);
    case Annotated(line, slots, of) =>
      Assoc(line, TextAll(slots), Text(of));
      Assoc(line, TextAll(slots) + Text(of), s);
      AnnotationFrame(line, Length(slots), tail);
  }

  /** Every slot takes a byte at least, so a complete reply never makes the counter exceed its own length. */
  lemma {:induction false} SlotsTakeBytes(ts: Slots)
    requires AllWellFormed(ts)
    ensures Length(ts) <= |TextAll(ts)|
  {
    hide ValueHead, AnnotationHead;
    if ts.Cons? {
      SlotsTakeBytes(ts.tail);
      HeadNotEmpty(ts.head);
    }
  }

  lemma HeadNotEmpty(t: Slot)
    requires WellFormed(t)
    ensures 3 <= |Head(t)| <= |Text(t)|
  {
    hide Announced;
  }

  /** What the counter can count up to: anything, or the largest int64. */
  predicate Countable(w: Width, n: int) { w.Int64? ==> n < INT64_MAX }

  lemma CopyHead(w: Width, head: string, settles: nat, adds: nat, owed: nat, tail: string)
    requires ReadFrame(head + tail) == Some(Frame(|head|, settles, adds)) && settles <= 1
    requires Countable(w, owed + adds)
    ensures Copy(w, head + tail, owed + 1) == Shift(|head|, Copy(w, tail, owed + 1 - settles + adds))
  {
    hide ReadFrame, Copy;
    CopyUnfold(w, head + tail, owed + 1);
    assert (head + tail)[|head|..] == tail;
  }

  lemma {:induction false} CopySlot(w: Width, t: Slot, owed: nat, rest: string)
    requires WellFormed(t) && Countable(w, owed + |Text(t)|)
    ensures Copy(w, Text(t) + rest, owed + 1) == Shift(|Text(t)|, Copy(w, rest, owed))
  {
    hide ReadFrame, ValueHead, AnnotationHead, Copy;
    SlotFrame(t, rest);
    SlotsTakeBytes(t.slots);
    HeadNotEmpty(t);
    CopyHead(w, Head(t), if t.Value? then 1 else 0, Length(t.slots), owed, AfterHead(t) + rest);
    match t
    case Value(line, blob, slots) =>
      CopySlots(w, slots, owed, rest);
    case Annotated(line, slots, of) =>
      Assoc(TextAll(slots), Text(of), rest);
      CopySlots(w, slots, owed + 1, Text(of) + rest);
      CopySlot(w, of, owed, rest);
  }

  lemma {:induction false} CopySlots(w: Width, ts: Slots, owed: nat, rest: string)
    requires AllWellFormed(ts) && Countable(w, owed + |TextAll(ts)|)
    ensures Copy(w, TextAll(ts) + rest, Length(ts) + owed) == Shift(|TextAll(ts)|, Copy(w, rest, owed))
  {
    hide Copy, WellFormed;
    match ts
    case Nil =>
      assert TextAll(ts) + rest == rest;
    case Cons(t, more) =>
      Assoc(Text(t), TextAll(more), rest);
      SlotsTakeBytes(more);
      CopySlot(w, t, Length(more) + owed, TextAll(more) + rest);
      CopySlots(w, more, owed, rest);
  }

  /** Completeness: a well-formed reply (below 2^63 bytes) is copied whole and nothing behind it is touched. */
  lemma CopyTree(w: Width, t: Slot, rest: string)
    requires WellFormed(t) && Countable(w, |Text(t)|)
    ensures Copy(w, Text(t) + rest, 1) == Some(|Text(t)|)
  {
    hide WellFormed, Text, Copy;
    CopyUnfold(w, rest, 0);
    CopySlot(w, t, 0, rest);
  }

  // From bytes to trees: whatever the copy takes is the text of owed values.

  lemma SplitSlots(ts: Slots, k: nat) returns (a: Slots, b: Slots)
    requires k <= Length(ts) && AllWellFormed(ts)
    ensures Length(a) == k && Length(b) == Length(ts) - k
    ensures AllWellFormed(a) && AllWellFormed(b)
    ensures TextAll(ts) == TextAll(a) + TextAll(b)
  {
    if k == 0 {
      a, b := Nil, ts;
    } else {
      var more, rest := SplitSlots(ts.tail, k - 1);
      a, b := Cons(ts.head, more), rest;
      Assoc(Text(ts.head), TextAll(more), TextAll(rest));
    }
  }

  lemma FrameHead(s: string) returns (line: string, blob: string)
    requires ReadFrame(s).Some?
    ensures s[..ReadFrame(s).value.size] == line + blob
    ensures if ReadFrame(s).value.settles == 1 then ValueHead(line, blob, ReadFrame(s).value.adds)
            else blob == "" && AnnotationHead(line, ReadFrame(s).value.adds)
  {
    hide ParseInt;
    var l, size := Line(s).value, ReadFrame(s).value.size;
    line, blob := s[..l], s[l..size];
    assert s[1..l - 2] == line[1..l - 2];
  }

  /** Soundness, with the tree as witness: a success took the text of exactly the owed values. */
  lemma {:induction false} CopiedSlots(s: string, owed: nat) returns (ts: Slots)
    requires Copy(Unbounded, s, owed).Some?
    ensures AllWellFormed(ts) && Length(ts) == owed
    ensures TextAll(ts) == s[..Copy(Unbounded, s, owed).value]
    decreases |s|
  {
    hide ReadFrame, ValueHead, AnnotationHead, Copy, AllWellFormed, TextAll, Length;
    CopyUnfold(Unbounded, s, owed);
    if owed == 0 {
      ts := Ended();
      return;
    }
    var f := ReadFrame(s).value;
    var line, blob := FrameHead(s);
    var next := owed - f.settles + f.adds;
    var inner := CopiedSlots(s[f.size..], next);
    var n := Copy(Unbounded, s[f.size..], next).value;
    assert s[..f.size + n] == s[..f.size] + s[f.size..][..n];
    ts := Close(line, blob, f.settles == 1, f.adds, inner);
  }

  lemma Ended() returns (ts: Slots)
    ensures AllWellFormed(ts) && Length(ts) == 0 && TextAll(ts) == ""
  {
    ts := Nil;
  }

  /** Gathers the first `adds` of the following slots under the header in front of them. */
  lemma Close(line: string, blob: string, settles: bool, adds: nat, inner: Slots) returns (ts: Slots)
    requires AllWellFormed(inner) && adds + (if settles then 0 else 1) <= Length(inner)
    requires if settles then ValueHead(line, blob, adds) else blob == "" && AnnotationHead(line, adds)
    ensures AllWellFormed(ts) && Length(ts) == Length(inner) - adds + (if settles then 1 else 0)
    ensures TextAll(ts) == line + blob + TextAll(inner)
  {
    hide ValueHead, AnnotationHead;
    var mine, rest := SplitSlots(inner, adds);
    if settles {
      ts := Cons(Value(line, blob, mine), rest);
      Assoc(line + blob, TextAll(mine), TextAll(rest));
    } else {
      ts := Cons(Annotated(line, mine, rest.head), rest.tail);
      Assoc(line, TextAll(mine), TextAll(rest));
      Assoc(line + TextAll(mine), Text(rest.head), TextAll(rest.tail));
    }
  }

  /** Refinement: the flat counter succeeds on s exactly when s begins with a reply tree, and takes that tree's text. */
  lemma CopyRefinesGrammar(s: string, k: nat)
    ensures Copy(Unbounded, s, 1) == Some(k) <==> exists t :: WellFormed(t) && |Text(t)| == k && Text(t) <= s
  {
    hide Copy, WellFormed, Text;
    if Copy(Unbounded, s, 1) == Some(k) {
      var t := CopiedSlot(s);
    }
    forall t | WellFormed(t) && |Text(t)| == k && Text(t) <= s
      ensures Copy(Unbounded, s, 1) == Some(k)
    {
      CopyTree(Unbounded, t, s[k..]);
      assert s == Text(t) + s[k..];
    }
  }

  lemma CopiedSlot(s: string) returns (t: Slot)
    requires Copy(Unbounded, s, 1).Some?
    ensures WellFormed(t) && Text(t) == s[..Copy(Unbounded, s, 1).value]
  {
    hide Copy;
    var ts := CopiedSlots(s, 1);
    t := ts.head;
    assert TextAll(ts) == Text(t) + TextAll(Nil);
  }

  /** For the code's own counter: below 2^42 lines, IsReply is the grammar. */
  lemma ReplyIsTree(b: string)
    requires Lines(b, 1) < LINES_LIMIT
    ensures IsReply(b) <==> exists t :: WellFormed(t) && Text(t) == b
  {
    hide Copy, WellFormed, Text, Lines;
    NoOverflow(b);
    CopyRefinesGrammar(b, |b|);
    forall t | WellFormed(t) && |Text(t)| == |b| && Text(t) <= b ensures Text(t) == b {
    }
  }

  // One text, one tree.

  /** The grammar is unambiguous, even with arbitrary bytes behind. */
  lemma {:induction false} Unambiguous(a: Slots, b: Slots, s: string, t: string)
    requires AllWellFormed(a) && AllWellFormed(b) && Length(a) == Length(b)
    requires TextAll(a) + s == TextAll(b) + t
    ensures a == b && s == t
    decreases a
  {
    hide ReadFrame, ValueHead, AnnotationHead;
    if a.Cons? {
      var u, v := TextAll(a.tail) + s, TextAll(b.tail) + t;
      Assoc(Text(a.head), TextAll(a.tail), s);
      Assoc(Text(b.head), TextAll(b.tail), t);
      UnambiguousSlot(a.head, b.head, u, v);
      Unambiguous(a.tail, b.tail, s, t);
    } else {
      assert TextAll(a) + s == s && TextAll(b) + t == t;
    }
  }

  lemma {:induction false} UnambiguousSlot(a: Slot, b: Slot, s: string, t: string)
    requires WellFormed(a) && WellFormed(b)
    requires Text(a) + s == Text(b) + t
    ensures a == b && s == t
    decreases a
  {
    hide ReadFrame, ValueHead, AnnotationHead;
    SlotFrame(a, s);
    SlotFrame(b, t);
    var u, v := AfterHead(a) + s, AfterHead(b) + t;
    assert Head(a) + u == Head(b) + v;
    assert Head(a) == (Head(a) + u)[..|Head(a)|];
    assert u == (Head(a) + u)[|Head(a)|..] && v == (Head(b) + v)[|Head(b)|..];
    SameLine(a, b);
    match a
    case Value(line, blob, slots) =>
      Unambiguous(slots, b.slots, s, t);
    case Annotated(line, slots, of) =>
      Assoc(TextAll(slots), Text(of), s);
      Assoc(TextAll(b.slots), Text(b.of), t);
      Unambiguous(slots, b.slots, Text(of) + s, Text(b.of) + t);
      UnambiguousSlot(of, b.of, s, t);
  }

  lemma SameLine(a: Slot, b: Slot)
    requires WellFormed(a) && WellFormed(b) && Head(a) == Head(b)
    ensures a.line == b.line
    ensures a.Value? && b.Value? ==> a.blob == b.blob
  {
    hide ParseInt;
    LineInFront(a.line, if a.Value? then a.blob else "");
    LineInFront(b.line, if b.Value? then b.blob else "");
    assert Head(a)[..|a.line|] == a.line;
    assert Head(b)[..|b.line|] == b.line;
    assert a.Value? ==> Head(a)[|a.line|..] == a.blob;
    assert b.Value? ==> Head(b)[|b.line|..] == b.blob;
    assert a.Annotated? ==> a.line + "" == a.line;
    assert b.Annotated? ==> b.line + "" == b.line;
  }

  // The counter as a sum over an explicit stack of open aggregates, attributes and pushes.

  function Owed(stack: seq<nat>): nat {
    if stack == [] then 0 else stack[0] + Owed(stack[1..])
  }

  /** A pushdown reader: each open aggregate, attribute or push remembers how many slots it still waits for. */
  function StackCopy(s: string, stack: seq<nat>): Option<nat>
    decreases |s|, |stack|
  {
    if stack == [] then Some(0)
    else if stack[0] == 0 then StackCopy(s, stack[1..])
    else
      match ReadFrame(s)
      case None => None
      case Some(f) => Shift(f.size, StackCopy(s[f.size..], [f.adds, stack[0] - f.settles] + stack[1..]))
  }

  /** The stack after i iterations of the pushdown reader. */
  function StackAt(s: string, stack: seq<nat>, i: nat): seq<nat>
    requires i <= Lines(s, Owed(stack))
    decreases i, |stack|
  {
    if i == 0 then stack
    else if stack[0] == 0 then StackAt(s, stack[1..], i)
    else
      var f := ReadFrame(s).value;
      Pushed(stack, f);
      StackAt(s[f.size..], [f.adds, stack[0] - f.settles] + stack[1..], i - 1)
  }

  lemma OwedCons(n: nat, stack: seq<nat>)
    ensures Owed([n] + stack) == n + Owed(stack)
  {
    assert ([n] + stack)[1..] == stack;
  }

  lemma Pushed(stack: seq<nat>, f: Frame)
    requires stack != [] && f.settles <= stack[0]
    ensures Owed([f.adds, stack[0] - f.settles] + stack[1..]) == Owed(stack) - f.settles + f.adds
  {
    hide Owed;
    var top, rest := stack[0] - f.settles, stack[1..];
    assert [f.adds, top] + rest == [f.adds] + ([top] + rest) && stack == [stack[0]] + rest;
    OwedCons(f.adds, [top] + rest);
    OwedCons(top, rest);
    OwedCons(stack[0], rest);
  }

  /** After every iteration, `remaining` is what the open stack still owes: counting replaces the stack. */
  lemma {:induction false} CounterIsStack(s: string, stack: seq<nat>, i: nat)
    requires i <= Lines(s, Owed(stack))
    ensures CounterAt(s, Owed(stack), i) == Owed(StackAt(s, stack, i))
    decreases i, |stack|
  {
    hide ReadFrame;
    if i > 0 {
      if stack[0] == 0 {
        CounterIsStack(s, stack[1..], i);
      } else {
        var f := ReadFrame(s).value;
        Pushed(stack, f);
        CounterIsStack(s[f.size..], [f.adds, stack[0] - f.settles] + stack[1..], i - 1);
      }
    }
  }

  /** So both readers take the same bytes. */
  lemma {:induction false} SameCopy(s: string, stack: seq<nat>)
    ensures StackCopy(s, stack) == Copy(Unbounded, s, Owed(stack))
    decreases |s|, |stack|
  {
    hide ReadFrame;
    if stack != [] {
      if stack[0] == 0 {
        SameCopy(s, stack[1..]);
      } else if ReadFrame(s).Some? {
        var f := ReadFrame(s).value;
        Pushed(stack, f);
        SameCopy(s[f.size..], [f.adds, stack[0] - f.settles] + stack[1..]);
      }
    }
  }
}
