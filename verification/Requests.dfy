/** The grammar of client commands, independent of how readCommand walks through them. */
module Requests {
  import opened Bytes
  import opened Reader
  import opened Commands
  import opened Grammar

  /** One bulk string: its header line, its payload, and the two bytes behind that nobody looks at. */
  datatype Bulk = Bulk(line: string, payload: string, end: string)

  datatype Request = Request(line: string, bulks: seq<Bulk>)

  function BulkText(b: Bulk): string { b.line + (b.payload + b.end) }

  function BulksText(bs: seq<Bulk>): string { if bs == [] then "" else BulkText(bs[0]) + BulksText(bs[1..]) }

  function RequestText(r: Request): string { r.line + BulksText(r.bulks) }

  predicate LegalBulk(b: Bulk) {
    && IsLine(b.line) && b.line[0] == '$' && Announced(b.line) == Some(|b.payload|)
    && |b.payload| <= 512 * 1024 * 1024 && |b.end| == 2
  }

  predicate LegalBulks(bs: seq<Bulk>) { forall i :: 0 <= i < |bs| ==> LegalBulk(bs[i]) }

  /** An array header with as many bulk strings as it announces; a negative count announces none. */
  predicate LegalRequest(r: Request) {
    && IsLine(r.line) && r.line[0] == '*' && LegalBulks(r.bulks)
    && Announced(r.line).Some? && Announced(r.line).value <= 1024 * 1024
    && |r.bulks| == if Announced(r.line).value < 0 then 0 else Announced(r.line).value
  }

  function Payloads(bs: seq<Bulk>): seq<string> { seq(|bs|, i requires 0 <= i < |bs| => bs[i].payload) }

  lemma BulkIsArg(b: Bulk, rest: string)
    requires LegalBulk(b)
    ensures Arg(BulkText(b) + rest) == Some((b.payload, |BulkText(b)|))
  {
    hide ParseInt, LineLen, Header;
    var l, tail := |b.line|, b.payload + b.end;
    Assoc(b.line, tail, rest);
    LineInFront(b.line, tail + rest);
    var s := BulkText(b) + rest;
    assert s[l..] == b.payload + b.end + rest;
    assert s[l..l + |b.payload|] == b.payload;
  }

  lemma ArgIsBulk(s: string) returns (b: Bulk)
    requires Arg(s).Some?
    ensures LegalBulk(b) && b.payload == Arg(s).value.0 && BulkText(b) == s[..Arg(s).value.1]
  {
    hide ParseInt;
    var (l, n) := Header(s).value;
    b := Bulk(s[..l], s[l..l + n], s[l + n..l + n + 2]);
    assert s[1..l - 2] == b.line[1..l - 2];
    assert BulkText(b) == s[..l + n + 2];
  }

  lemma {:induction false} BulksAreArgs(bs: seq<Bulk>, rest: string)
    requires LegalBulks(bs)
    ensures Args(BulksText(bs) + rest, |bs|) == Some((Payloads(bs), |BulksText(bs)|))
  {
    hide Arg, LegalBulk, BulkText;
    if bs != [] {
      var first, more := BulkText(bs[0]), BulksText(bs[1..]) + rest;
      BulkIsArg(bs[0], more);
      Assoc(first, BulksText(bs[1..]), rest);
      assert (first + more)[|first|..] == more;
      BulksAreArgs(bs[1..], rest);
      ArgsCons(first + more, |bs|, bs[0].payload, |first|, Payloads(bs[1..]), |BulksText(bs[1..])|);
      assert Payloads(bs) == [bs[0].payload] + Payloads(bs[1..]);
    } else {
      assert Payloads(bs) == [];
    }
  }

  lemma {:induction false} ArgsAreBulks(s: string, n: nat) returns (bs: seq<Bulk>)
    requires Args(s, n).Some?
    ensures LegalBulks(bs) && Payloads(bs) == Args(s, n).value.0 && BulksText(bs) == s[..Args(s, n).value.1]
    decreases n
  {
    hide Arg, LegalBulk, BulkText;
    if n == 0 {
      bs := [];
    } else {
      var b := ArgIsBulk(s);
      var k := Arg(s).value.1;
      var more := ArgsAreBulks(s[k..], n - 1);
      bs := [b] + more;
      assert bs[1..] == more;
      assert Payloads(bs) == [b.payload] + Payloads(more);
      var m := Args(s[k..], n - 1).value.1;
      assert s[..k + m] == s[..k] + s[k..][..m];
    }
  }

  ghost predicate Reads(s: string, args: seq<string>, k: nat, r: Request) {
    LegalRequest(r) && RequestText(r) <= s && |RequestText(r)| == k && Payloads(r.bulks) == args
  }

  lemma RequestParses(s: string, args: seq<string>, k: nat, r: Request)
    requires Reads(s, args, k, r)
    ensures ParseCommand(s) == Command(args, k)
  {
    hide Args, LegalBulks, Payloads, BulksText, ParseInt, LineLen, Header;
    var tail := s[k..];
    assert s == RequestText(r) + tail;
    Assoc(r.line, BulksText(r.bulks), tail);
    LineInFront(r.line, BulksText(r.bulks) + tail);
    BulksAreArgs(r.bulks, tail);
    assert s[|r.line|..] == BulksText(r.bulks) + tail;
  }

  lemma ParsedIsRequest(s: string) returns (r: Request)
    requires ParseCommand(s).Command?
    ensures Reads(s, ParseCommand(s).args, ParseCommand(s).size, r)
  {
    hide Args, LegalBulks, BulksText, ParseInt;
    var (l, n) := Header(s).value;
    var count := if n < 0 then 0 else n;
    var bs := ArgsAreBulks(s[l..], count);
    var m := Args(s[l..], count).value.1;
    r := Request(s[..l], bs);
    assert s[1..l - 2] == r.line[1..l - 2];
    assert s[..l + m] == s[..l] + s[l..][..m];
  }

  /**
   * readCommand accepts exactly the grammar: it returns these arguments and consumes k bytes if and only if the stream
   * begins with a request of k bytes whose payloads they are.
   */
  lemma CommandRefinesGrammar(s: string, args: seq<string>, k: nat)
    ensures ParseCommand(s) == Command(args, k) <==> exists r :: Reads(s, args, k, r)
    ensures ParseCommand(s) == Inline <==> s != "" && s[0] != '*'
  {
    hide Args, Reads;
    if ParseCommand(s) == Command(args, k) {
      var r := ParsedIsRequest(s);
    }
    forall r | Reads(s, args, k, r) ensures ParseCommand(s) == Command(args, k) {
      RequestParses(s, args, k, r);
    }
  }
}
