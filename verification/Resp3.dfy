/** Replies as the RESP3 specification describes and prints them, independent of how the proxy reads them. */
module Resp3 {
  import opened Bytes
  import opened Reader
  import opened Commands
  import opened Replies
  import opened Grammar

  /** The items of a map or an attribute are its keys and values in turn. */
  datatype Reply =
    | Simple(kind: char, text: string)
    | Blob(kind: char, data: string)
    | NullBlob
    | NullArray
    | Aggregate(kind: char, items: Items)
    | Annotation(kind: char, items: Items, of: Reply)
    | StreamedBlob(chunks: seq<string>)
    | StreamedAggregate(kind: char, items: Items)
  datatype Items = NoItems | Item(first: Reply, more: Items)

  function Size(xs: Items): nat { match xs case NoItems => 0 case Item(_, more) => 1 + Size(more) }

  /** The count a header of the given kind announces: maps and attributes count pairs. */
  function Counted(kind: char, xs: Items): nat { if kind in "%|" then Size(xs) / 2 else Size(xs) }

  function Encode(r: Reply): string {
    match r
    case Simple(kind, text) => [kind] + text + "\r\n"
    case Blob(kind, data) => [kind] + Decimal(|data|) + "\r\n" + (data + "\r\n")
    case NullBlob => "$-1\r\n"
    case NullArray => "*-1\r\n"
    case Aggregate(kind, items) => [kind] + Decimal(Counted(kind, items)) + "\r\n" + EncodeItems(items)
    case Annotation(kind, items, of) =>
      [kind] + Decimal(Counted(kind, items)) + "\r\n" + (EncodeItems(items) + Encode(of))
    case StreamedBlob(chunks) => "$?\r\n" + (EncodeChunks(chunks) + ";0\r\n")
    case StreamedAggregate(kind, items) => [kind] + "?\r\n" + (EncodeItems(items) + ".\r\n")
  }

  function EncodeItems(xs: Items): string {
    match xs case NoItems => "" case Item(r, more) => Encode(r) + EncodeItems(more)
  }

  function EncodeChunks(chunks: seq<string>): string {
    if chunks == [] then "" else
      ";" + Decimal(|chunks[0]|) + "\r\n" + chunks[0] + "\r\n" + EncodeChunks(chunks[1..])
  }

  /** What the specification allows. */
  predicate Legal(r: Reply) {
    match r
    case Simple(kind, text) => IsScalarType(kind) && '\n' !in text
    case Blob(kind, data) => IsBlobType(kind)
    case NullBlob => true
    case NullArray => true
    case Aggregate(kind, items) => kind in "*~%" && Paired(kind, items) && LegalItems(items)
    case Annotation(kind, items, of) => kind in "|>" && Paired(kind, items) && LegalItems(items) && Legal(of)
    case StreamedBlob(chunks) => forall i :: 0 <= i < |chunks| ==> chunks[i] != ""
    case StreamedAggregate(kind, items) => kind in "*~%" && Paired(kind, items) && LegalItems(items)
  }

  predicate LegalItems(xs: Items) { match xs case NoItems => true case Item(r, more) => Legal(r) && LegalItems(more) }

  predicate Paired(kind: char, xs: Items) { kind in "%|" ==> Size(xs) % 2 == 0 }

  /** What the proxy relays of it: nothing streamed, and nothing above its own maxima. */
  predicate Relayable(r: Reply) {
    match r
    case Simple(_, text) => |text| + 3 <= LineCap(BUFFER_SIZE)
    case Blob(_, data) => |data| <= MAX_BULK_LEN
    case NullBlob => true
    case NullArray => true
    case Aggregate(kind, items) => Counted(kind, items) <= MAX_ELEMENTS && RelayableItems(items)
    case Annotation(kind, items, of) =>
      Counted(kind, items) <= MAX_ELEMENTS && RelayableItems(items) && Relayable(of)
    case StreamedBlob(_) => false
    case StreamedAggregate(_, _) => false
  }

  predicate RelayableItems(xs: Items) {
    match xs case NoItems => true case Item(r, more) => Relayable(r) && RelayableItems(more)
  }

  // Header lines.

  lemma CountLine(kind: char, n: nat)
    requires n <= INT64_MAX && kind != '\n'
    ensures var line := [kind] + Decimal(n) + "\r\n"; IsLine(line) && Announced(line) == Some(n)
  {
    var line := [kind] + Decimal(n) + "\r\n";
    DecimalLength(n);
    LineCapFormula(BUFFER_SIZE);
    forall j | 0 <= j < |line| - 1 ensures line[j] != '\n' {
      if 1 <= j < |line| - 2 {
        assert line[j] in Decimal(n);
      }
    }
    assert line[1..|line| - 2] == Decimal(n);
    ParseIntDecimal(n);
  }

  lemma NullLine(kind: char)
    requires kind != '\n'
    ensures var line := [kind] + "-1\r\n"; IsLine(line) && Announced(line) == Some(-1)
  {
    var line := [kind] + "-1\r\n";
    LineCapFormula(BUFFER_SIZE);
    assert line[1..|line| - 2] == "-1" && "-1"[1..] == "1";
    assert DigitsValue("1") == 1;
  }

  lemma SimpleLine(kind: char, text: string)
    requires kind != '\n' && '\n' !in text
    ensures var line := [kind] + text + "\r\n"; forall j :: 0 <= j < |line| - 1 ==> line[j] != '\n'
  {
    var line := [kind] + text + "\r\n";
    forall j | 0 <= j < |line| - 1 ensures line[j] != '\n' {
      if 1 <= j < |line| - 2 {
        assert line[j] in text;
      }
    }
  }

  // Relayable replies are slots of the reader's grammar.

  lemma SimpleSlot(kind: char, text: string) returns (t: Slot)
    requires Legal(Simple(kind, text)) && Relayable(Simple(kind, text))
    ensures WellFormed(t) && Text(t) == [kind] + text + "\r\n"
  {
    SimpleLine(kind, text);
    t := Value([kind] + text + "\r\n", "", Nil);
  }

  lemma BlobSlot(kind: char, data: string) returns (t: Slot)
    requires IsBlobType(kind) && |data| <= MAX_BULK_LEN
    ensures WellFormed(t) && Text(t) == [kind] + Decimal(|data|) + "\r\n" + (data + "\r\n")
  {
    hide Decimal, IsLine, Announced;
    CountLine(kind, |data|);
    t := Value([kind] + Decimal(|data|) + "\r\n", data + "\r\n", Nil);
  }

  lemma NullSlot(kind: char) returns (t: Slot)
    requires kind == '$' || kind == '*'
    ensures WellFormed(t) && Text(t) == [kind] + "-1\r\n"
  {
    hide IsLine, Announced;
    NullLine(kind);
    t := Value([kind] + "-1\r\n", "", Nil);
  }

  lemma AggregateSlot(kind: char, n: nat, ts: Slots) returns (t: Slot)
    requires kind in "*~%" && n <= MAX_ELEMENTS
    requires AllWellFormed(ts) && Length(ts) == (if kind == '%' then 2 else 1) * n
    ensures WellFormed(t) && Text(t) == [kind] + Decimal(n) + "\r\n" + TextAll(ts)
  {
    hide Decimal, IsLine, Announced, AllWellFormed, Length, TextAll;
    CountLine(kind, n);
    t := Value([kind] + Decimal(n) + "\r\n", "", ts);
  }

  lemma AnnotationSlot(kind: char, n: nat, ts: Slots, of: Slot) returns (t: Slot)
    requires kind in "|>" && n <= MAX_ELEMENTS
    requires AllWellFormed(ts) && Length(ts) == (if kind == '|' then 2 else 1) * n && WellFormed(of)
    ensures WellFormed(t) && Text(t) == [kind] + Decimal(n) + "\r\n" + (TextAll(ts) + Text(of))
  {
    hide Decimal, IsLine, Announced, AllWellFormed, Length, TextAll;
    CountLine(kind, n);
    t := Annotated([kind] + Decimal(n) + "\r\n", ts, of);
    Assoc([kind] + Decimal(n) + "\r\n", TextAll(ts), Text(of));
  }

  lemma {:induction false} AsSlot(r: Reply) returns (t: Slot)
    requires Legal(r) && Relayable(r)
    ensures WellFormed(t) && Text(t) == Encode(r)
  {
    hide Decimal, WellFormed, Text, AllWellFormed, TextAll, Length;
    match r
    case Simple(kind, text) => t := SimpleSlot(kind, text);
    case Blob(kind, data) => t := BlobSlot(kind, data);
    case NullBlob =>
      t := NullSlot('$');
      assert "$-1\r\n" == ['$'] + "-1\r\n";
    case NullArray =>
      t := NullSlot('*');
      assert "*-1\r\n" == ['*'] + "-1\r\n";
    case Aggregate(kind, items) =>
      var ts := AsSlots(items);
      t := AggregateSlot(kind, Counted(kind, items), ts);
    case Annotation(kind, items, of) =>
      var ts := AsSlots(items);
      var u := AsSlot(of);
      t := AnnotationSlot(kind, Counted(kind, items), ts, u);
  }

  lemma {:induction false} AsSlots(xs: Items) returns (ts: Slots)
    requires LegalItems(xs) && RelayableItems(xs)
    ensures AllWellFormed(ts) && Length(ts) == Size(xs) && TextAll(ts) == EncodeItems(xs)
  {
    hide Encode, Legal, Relayable;
    match xs
    case NoItems => ts := Nil;
    case Item(r, more) =>
      var t := AsSlot(r);
      var us := AsSlots(more);
      ts := Cons(t, us);
  }

  // Everything else is refused, at the first header that is streamed or too large.

  lemma Refused(s: string, owed: nat)
    requires ReadFrame(s) == None
    ensures Copy(Int64, s, owed + 1) == None
  {
    hide ReadFrame;
  }

  lemma LongLine(kind: char, text: string, tail: string)
    requires kind != '\n' && '\n' !in text && |text| + 3 > LineCap(BUFFER_SIZE)
    ensures ReadFrame([kind] + text + "\r\n" + tail) == None
  {
    hide Header, LineCap;
    var line := [kind] + text + "\r\n";
    SimpleLine(kind, text);
    FirstLFUnique(line + tail, |line| - 1);
  }

  lemma CountTooLarge(kind: char, n: nat, tail: string)
    requires n <= INT64_MAX
    requires if IsBlobType(kind) then n > MAX_BULK_LEN else kind in "*~%|>" && n > MAX_ELEMENTS
    ensures ReadFrame([kind] + Decimal(n) + "\r\n" + tail) == None
  {
    hide Decimal, IsLine, Announced, LineLen, Header;
    CountLine(kind, n);
    LineInFront([kind] + Decimal(n) + "\r\n", tail);
  }

  lemma StreamHeader(kind: char, tail: string)
    requires kind in "$*~%"
    ensures ReadFrame([kind] + "?\r\n" + tail) == None
  {
    hide LineLen, Header;
    var line := [kind] + "?\r\n";
    LineCapFormula(BUFFER_SIZE);
    assert line[1..|line| - 2] == "?" && "?"[0] in "?";
    LineInFront(line, tail);
  }

  lemma CountFrame(kind: char, n: nat, tail: string)
    requires n <= MAX_ELEMENTS && kind in "*~%|>"
    ensures var head := [kind] + Decimal(n) + "\r\n";
            ReadFrame(head + tail) ==
            Some(Frame(|head|, if kind in "|>" then 0 else 1, (if kind in "%|" then 2 else 1) * n))
  {
    hide Decimal, IsLine, Announced, LineLen, Header;
    CountLine(kind, n);
    LineInFront([kind] + Decimal(n) + "\r\n", tail);
  }

  lemma {:induction false} ItemsTakeBytes(xs: Items)
    ensures Size(xs) <= |EncodeItems(xs)|
  {
    if xs.Item? {
      ItemsTakeBytes(xs.more);
    }
  }

  /** An aggregate or annotation header in front of a tail. */
  lemma CopyCount(kind: char, items: Items, owed: nat, tail: string)
    requires kind in "*~%|>" && Paired(kind, items) && Counted(kind, items) <= MAX_ELEMENTS
    requires Countable(Int64, owed + Size(items))
    ensures var head := [kind] + Decimal(Counted(kind, items)) + "\r\n";
            Copy(Int64, head + tail, owed + 1) ==
            Shift(|head|, Copy(Int64, tail, owed + Size(items) + (if kind in "|>" then 1 else 0)))
  {
    hide Decimal, ReadFrame, Copy;
    CountFrame(kind, Counted(kind, items), tail);
    var head := [kind] + Decimal(Counted(kind, items)) + "\r\n";
    CopyHead(Int64, head, if kind in "|>" then 0 else 1, Size(items), owed, tail);
  }

  lemma {:induction false} CopyRefused(r: Reply, owed: nat, rest: string)
    requires Legal(r) && !Relayable(r) && Countable(Int64, owed + |Encode(r)|)
    ensures Copy(Int64, Encode(r) + rest, owed + 1) == None
    decreases r, 1
  {
    hide Decimal, ReadFrame, Copy, LineCap, DigitsValue;
    match r
    case Simple(kind, text) =>
      LongLine(kind, text, rest);
      Refused(Encode(r) + rest, owed);
    case Blob(kind, data) =>
      BlobTooLarge(kind, data, owed, rest);
    case StreamedBlob(chunks) =>
      Streamed('$', EncodeChunks(chunks) + ";0\r\n", owed, rest);
      assert ['$'] + "?\r\n" == "$?\r\n";
    case StreamedAggregate(kind, items) =>
      Streamed(kind, EncodeItems(items) + ".\r\n", owed, rest);
    case Aggregate(kind, items) =>
      ItemsTakeBytes(items);
      HeaderRefused(kind, items, EncodeItems(items), owed, rest);
      if Counted(kind, items) <= MAX_ELEMENTS {
        ItemsRefused(items, owed, rest);
      }
    case Annotation(kind, items, of) =>
      ItemsTakeBytes(items);
      HeaderRefused(kind, items, EncodeItems(items) + Encode(of), owed, rest);
      if Counted(kind, items) <= MAX_ELEMENTS {
        BehindHeaderRefused(r, owed, rest);
      }
  }

  lemma {:induction false} BehindHeaderRefused(r: Reply, owed: nat, rest: string)
    requires r.Annotation? && LegalItems(r.items) && Legal(r.of)
    requires !(RelayableItems(r.items) && Relayable(r.of))
    requires Countable(Int64, owed + 1 + |EncodeItems(r.items) + Encode(r.of)|)
    ensures Copy(Int64, EncodeItems(r.items) + Encode(r.of) + rest, owed + Size(r.items) + 1) == None
    decreases r, 0
  {
    hide Encode, Copy, Legal, Relayable;
    Assoc(EncodeItems(r.items), Encode(r.of), rest);
    if RelayableItems(r.items) {
      var ts := AsSlots(r.items);
      CopySlots(Int64, ts, owed + 1, Encode(r.of) + rest);
      CopyRefused(r.of, owed, rest);
    } else {
      ItemsRefused(r.items, owed + 1, Encode(r.of) + rest);
    }
  }

  lemma {:induction false} ItemsRefused(xs: Items, owed: nat, rest: string)
    requires LegalItems(xs) && !RelayableItems(xs) && Countable(Int64, owed + |EncodeItems(xs)|)
    ensures Copy(Int64, EncodeItems(xs) + rest, Size(xs) + owed) == None
    decreases xs, 0
  {
    hide Encode, Copy, Legal, Relayable, WellFormed, Text;
    var tail := EncodeItems(xs.more) + rest;
    Assoc(Encode(xs.first), EncodeItems(xs.more), rest);
    ItemsTakeBytes(xs.more);
    if Relayable(xs.first) {
      var t := AsSlot(xs.first);
      CopySlot(Int64, t, Size(xs.more) + owed, tail);
      ItemsRefused(xs.more, owed, rest);
    } else {
      CopyRefused(xs.first, Size(xs.more) + owed, tail);
    }
  }

  lemma BlobTooLarge(kind: char, data: string, owed: nat, rest: string)
    requires IsBlobType(kind) && MAX_BULK_LEN < |data| <= INT64_MAX
    ensures Copy(Int64, [kind] + Decimal(|data|) + "\r\n" + (data + "\r\n") + rest, owed + 1) == None
  {
    hide Decimal, ReadFrame, Copy;
    var head := [kind] + Decimal(|data|) + "\r\n";
    Assoc(head, data + "\r\n", rest);
    CountTooLarge(kind, |data|, data + "\r\n" + rest);
    Refused(head + (data + "\r\n" + rest), owed);
  }

  lemma Streamed(kind: char, tail: string, owed: nat, rest: string)
    requires kind in "$*~%"
    ensures Copy(Int64, [kind] + "?\r\n" + tail + rest, owed + 1) == None
  {
    hide ReadFrame, Copy;
    Assoc([kind] + "?\r\n", tail, rest);
    StreamHeader(kind, tail + rest);
    Refused([kind] + "?\r\n" + (tail + rest), owed);
  }

  lemma HeaderRefused(kind: char, items: Items, tail: string, owed: nat, rest: string)
    requires kind in "*~%|>" && Paired(kind, items) && Countable(Int64, owed + Size(items))
    ensures var head := [kind] + Decimal(Counted(kind, items)) + "\r\n";
            Copy(Int64, head + tail + rest, owed + 1) ==
            if Counted(kind, items) > MAX_ELEMENTS then None
            else Shift(|head|, Copy(Int64, tail + rest, owed + Size(items) + (if kind in "|>" then 1 else 0)))
  {
    hide Decimal, ReadFrame, Copy;
    var head := [kind] + Decimal(Counted(kind, items)) + "\r\n";
    Assoc(head, tail, rest);
    if Counted(kind, items) > MAX_ELEMENTS {
      CountTooLarge(kind, Counted(kind, items), tail + rest);
      Refused(head + (tail + rest), owed);
    } else {
      CopyCount(kind, items, owed, tail + rest);
    }
  }

  /**
   * What copyRESP is for, on every RESP3 reply below 2^63 bytes: it relays the reply byte for byte and leaves what
   * follows unread, if and only if no part of it is streamed or above the proxy's maxima; otherwise it fails.
   */
  lemma RelaysResp3(r: Reply, rest: string)
    requires Legal(r) && |Encode(r)| < INT64_MAX
    ensures Copy(Int64, Encode(r) + rest, 1) == if Relayable(r) then Some(|Encode(r)|) else None
    ensures IsReply(Encode(r)) <==> Relayable(r)
  {
    hide Copy, Encode, Legal, Relayable, WellFormed, Text;
    assert Encode(r) + "" == Encode(r);
    if Relayable(r) {
      var t := AsSlot(r);
      CopyTree(Int64, t, rest);
      CopyTree(Int64, t, "");
    } else {
      CopyRefused(r, 0, rest);
      CopyRefused(r, 0, "");
    }
  }

  /** The maxima by number: 512 MB of blob and 2^20 elements pass, one more of either is refused. */
  lemma ReplyLimits(data: string, kind: char, rest: string)
    requires kind in "*~%|>"
    ensures |data| == 536_870_912 ==> Copy(Int64, Encode(Blob('$', data)) + rest, 1) == Some(|Encode(Blob('$', data))|)
    ensures |data| == 536_870_913 ==> Copy(Int64, Encode(Blob('$', data)) + rest, 1) == None
    ensures ReadFrame([kind] + Decimal(1_048_576) + "\r\n" + rest).Some?
    ensures Copy(Int64, [kind] + Decimal(1_048_577) + "\r\n" + rest, 1) == None
  {
    hide Decimal, ReadFrame, Copy;
    if |data| == 536_870_912 || |data| == 536_870_913 {
      DecimalLength(|data|);
      RelaysResp3(Blob('$', data), rest);
    }
    CountFrame(kind, 1_048_576, rest);
    CountTooLarge(kind, 1_048_577, rest);
    Refused([kind] + Decimal(1_048_577) + "\r\n" + rest, 0);
  }
}
