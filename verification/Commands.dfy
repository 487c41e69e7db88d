/** Client commands: the array-of-bulk-strings parser and the printer it inverts. */
module Commands {
  import opened Bytes
  import opened Reader

  const BUFFER_SIZE: nat := 4096 // bufio.NewReader's default
  const MAX_ELEMENTS: nat := 1024 * 1024
  const MAX_BULK_LEN: nat := 512 * 1024 * 1024

  /** Go's upper-casing of text outside ASCII is left to this parameter. */
  type Fold = string -> string

  predicate IsAscii(s: string) { forall c :: c in s ==> c < 128 as char }

  function Upper(fold: Fold, s: string): string {
    if IsAscii(s)
    then seq(|s|, i requires 0 <= i < |s| => UpperAscii(s[i]))
    else fold(s)
  }

  function UpperAscii(c: char): char {
    if 'a' <= c <= 'z' then (c as int - 32) as char else c
  }

  function NameOf(fold: Fold, args: seq<string>): string {
    if args == [] then "" else Upper(fold, args[0])
  }

  /** The same text up to the case of ASCII letters. */
  predicate SameButCase(a: string, b: string) {
    |a| == |b| &&
    forall i :: 0 <= i < |a| ==> a[i] == b[i] || IsCapitalOf(a[i], b[i]) || IsCapitalOf(b[i], a[i])
  }

  predicate IsCapitalOf(c: char, d: char) { 'A' <= c <= 'Z' && d as int == c as int + 32 }

  /** ASCII without small letters. */
  predicate Capitals(s: string) { forall i :: 0 <= i < |s| ==> s[i] < 128 as char && !('a' <= s[i] <= 'z') }

  /** The name of a command is its first argument in capitals, so the spelling never matters. */
  lemma NameIff(fold: Fold, args: seq<string>, name: string)
    requires args != [] && IsAscii(args[0])
    ensures NameOf(fold, args) == name <==> Capitals(name) && SameButCase(args[0], name)
  {
    var a := args[0];
    assert forall i :: 0 <= i < |a| ==> a[i] in a;
    if Capitals(name) && SameButCase(a, name) {
      assert Upper(fold, a) == name;
    }
  }

  lemma CaseKeepsAscii(a: string, b: string)
    requires SameButCase(a, b) && IsAscii(b)
    ensures IsAscii(a)
  {
    forall c | c in a ensures c < 128 as char {
      var i :| 0 <= i < |a| && a[i] == c;
      assert b[i] in b;
    }
  }

  /** Two spellings of one command have the same name. */
  lemma NameIgnoresCase(fold: Fold, a: seq<string>, b: seq<string>)
    requires a != [] && b != [] && IsAscii(a[0]) && SameButCase(b[0], a[0])
    ensures NameOf(fold, a) == NameOf(fold, b)
  {
    CaseKeepsAscii(b[0], a[0]);
    var name := NameOf(fold, a);
    NameIff(fold, a, name);
    assert SameButCase(b[0], name);
    NameIff(fold, b, name);
  }

  function Line(s: string): Option<nat> { LineLen(s, LineCap(BUFFER_SIZE)) }

  /** The header line at the front of s: its length and the number after the type byte. */
  function Header(s: string): (r: Option<(nat, int)>)
    ensures r.Some? ==> 3 <= r.value.0 <= |s|
  {
    match Line(s)
    case None => None
    case Some(l) =>
      match ParseInt(s[1..l - 2])
      case None => None
      case Some(n) => Some((l, n))
  }

  /** The limit at work: a line of 69632 bytes, above maxLineLen, comes back whole; with one more byte it does not. */
  lemma LineLimitExample(rest: string)
    ensures LineCap(BUFFER_SIZE) == 69632 > MAX_LINE_LEN
    ensures var line := seq(69630, _ => 'a') + "\r\n";
            Line(line + rest) == Some(69632) && Line("a" + line + rest) == None
  {
    hide LineCap;
    LineCapFormula(BUFFER_SIZE);
    var line := seq(69630, _ => 'a') + "\r\n";
    LineLenPrefix(line, rest, LineCap(BUFFER_SIZE));
    FirstLFUnique("a" + line + rest, 69632);
  }

  /** What readLine returned decides the header. */
  lemma HeaderOfLine(s: string, line: Option<string>, rest: string)
    requires match Line(s)
             case None => line.None?
             case Some(l) => line.Some? && |line.value| == l && s == line.value + rest
    ensures line.None? ==> Header(s) == None
    ensures line.Some? ==> |line.value| >= 3 && s[0] == line.value[0]
    ensures line.Some? ==>
              Header(s) == match ParseInt(line.value[1..|line.value| - 2])
                           case None => None
                           case Some(n) => Some((|line.value|, n))
  {
    hide ParseInt, FirstLF;
    if line.Some? {
      assert s[1..|line.value| - 2] == line.value[1..|line.value| - 2];
    }
  }

  lemma HeaderExtend(s: string, t: string)
    requires Header(s).Some?
    ensures Header(s + t) == Header(s)
  {
    LineLenExtend(s, t, LineCap(BUFFER_SIZE));
    var l := Line(s).value;
    assert (s + t)[1..l - 2] == s[1..l - 2];
  }

  lemma HeaderDecimal(c: char, n: nat, rest: string)
    requires n < 1_000_000_000 && c != '\n'
    ensures Header([c] + Decimal(n) + "\r\n" + rest) == Some((|Decimal(n)| + 3, n))
  {
    var line := [c] + Decimal(n) + "\r\n";
    DecimalLength(n);
    LineCapFormula(BUFFER_SIZE);
    assert forall j :: 0 <= j < |line| - 1 ==> line[j] != '\n' by {
      forall j | 0 <= j < |line| - 1 ensures line[j] != '\n' {
        if 1 <= j < |line| - 2 {
          assert line[j] in Decimal(n);
        }
      }
    }
    LineLenPrefix(line, rest, LineCap(BUFFER_SIZE));
    assert (line + rest)[1..|line| - 2] == Decimal(n);
    ParseIntDecimal(n);
  }

  /** One bulk string of a command: the argument and the bytes it takes. */
  function Arg(s: string): (r: Option<(string, nat)>)
    ensures r.Some? ==> 3 <= r.value.1 <= |s|
  {
    match Header(s)
    case None => None
    case Some((l, n)) =>
      if s[0] != '$' || n < 0 || n > MAX_BULK_LEN || l + n + 2 > |s| then None
      else Some((s[l..l + n], l + n + 2))
  }

  function Args(s: string, n: nat): (r: Option<(seq<string>, nat)>)
    ensures r.Some? ==> |r.value.0| == n && r.value.1 <= |s|
  {
    if n == 0 then Some(([], 0)) else
      match Arg(s)
      case None => None
      case Some((a, k)) =>
        match Args(s[k..], n - 1)
        case None => None
        case Some((rest, m)) => Some(([a] + rest, k + m))
  }

  datatype Parsed =
    | Command(args: seq<string>, size: nat) // `size` bytes were consumed
    | Inline                                // nothing was consumed
    | Malformed

  /** readCommand on the bytes to come. */
  function ParseCommand(s: string): (r: Parsed)
    ensures r.Command? ==> 3 <= r.size <= |s|
  {
    if s == "" then Malformed
    else if s[0] != '*' then Inline
    else
      match Header(s)
      case None => Malformed
      case Some((l, n)) =>
        if n > MAX_ELEMENTS then Malformed else
          match Args(s[l..], if n < 0 then 0 else n)
          case None => Malformed
          case Some((args, k)) => Command(args, l + k)
  }

  /**
   * When the session loop takes a command for a no-op. The empty array is not the only case: a negative count and an
   * empty first argument have an empty name too.
   */
  lemma EmptyName(fold: Fold, s: string)
    requires ParseCommand(s).Command? && forall t :: fold(t) == "" ==> t == ""
    ensures var args := ParseCommand(s).args;
            && (args == [] <==> Header(s).value.1 <= 0)
            && (NameOf(fold, args) == "" <==> Header(s).value.1 <= 0 || args[0] == "")
  {
    hide Args;
  }

  /** A null array is dropped like an empty one. */
  lemma NullArrayHasNoName(fold: Fold, rest: string)
    ensures ParseCommand("*-1\r\n" + rest) == Command([], 5) && NameOf(fold, []) == ""
  {
    hide LineCap;
    LineCapFormula(BUFFER_SIZE);
    var line := "*-1\r\n";
    LineLenPrefix(line, rest, LineCap(BUFFER_SIZE));
    assert (line + rest)[1..3] == "-1" && "-1"[1..] == "1";
    assert DigitsValue("1") == 1;
  }

  /** So is a command whose name is the empty string, with all its arguments, though it is no empty array. */
  lemma EmptyNameIsCommand(fold: Fold, args: seq<string>, rest: string)
    requires args != [] && args[0] == "" && WithinLimits(args)
    ensures ParseCommand(Encode(args) + rest) == Command(args, |Encode(args)|) && NameOf(fold, args) == ""
  {
    hide ParseCommand;
    CommandRoundTrip(args, rest);
  }

  lemma EmptyNameExample(fold: Fold)
    ensures ParseCommand("*1\r\n$0\r\n\r\n") == Command([""], 10) && NameOf(fold, [""]) == ""
  {
    hide ParseCommand;
    assert EncodeArgs([""][1..]) == "" && EncodeArgs([""]) == EncodeArg("") + "";
    assert EncodeArg("") == "$0\r\n\r\n" && Encode([""]) == "*1\r\n$0\r\n\r\n";
    EmptyNameIsCommand(fold, [""], "");
    assert Encode([""]) + "" == Encode([""]);
  }

  // The printer used by the tests, and the round trip.

  function EncodeArg(a: string): string { "$" + Decimal(|a|) + "\r\n" + a + "\r\n" }

  function EncodeArgs(args: seq<string>): string {
    if args == [] then "" else EncodeArg(args[0]) + EncodeArgs(args[1..])
  }

  function Encode(args: seq<string>): string {
    "*" + Decimal(|args|) + "\r\n" + EncodeArgs(args)
  }

  predicate WithinLimits(args: seq<string>) {
    |args| <= MAX_ELEMENTS && forall a :: a in args ==> |a| <= MAX_BULK_LEN
  }

  lemma ArgRoundTrip(a: string, rest: string)
    requires |a| <= MAX_BULK_LEN
    ensures Arg(EncodeArg(a) + rest) == Some((a, |EncodeArg(a)|))
  {
    hide Header, Decimal;
    var s, tail := EncodeArg(a) + rest, a + "\r\n" + rest;
    HeaderDecimal('$', |a|, tail);
    assert s == ['$'] + Decimal(|a|) + "\r\n" + tail;
    var l := |Decimal(|a|)| + 3;
    assert s[l..] == tail;
    assert s[l..l + |a|] == a;
  }

  lemma {:induction false} ArgsRoundTrip(args: seq<string>, rest: string)
    requires forall a :: a in args ==> |a| <= MAX_BULK_LEN
    ensures Args(EncodeArgs(args) + rest, |args|) == Some((args, |EncodeArgs(args)|))
  {
    hide Arg, EncodeArg;
    if args != [] {
      var first, more := EncodeArg(args[0]), EncodeArgs(args[1..]) + rest;
      ArgRoundTrip(args[0], more);
      Assoc(first, EncodeArgs(args[1..]), rest);
      assert (first + more)[|first|..] == more;
      ArgsRoundTrip(args[1..], rest);
      ArgsCons(first + more, |args|, args[0], |first|, args[1..], |EncodeArgs(args[1..])|);
      assert args == [args[0]] + args[1..];
    }
  }

  lemma ArgsCons(s: string, n: nat, a: string, k: nat, rest: seq<string>, m: nat)
    requires n > 0 && Arg(s) == Some((a, k)) && Args(s[k..], n - 1) == Some((rest, m))
    ensures Args(s, n) == Some(([a] + rest, k + m))
  {
    hide Arg;
  }

  /** Reading a printed command gives its arguments back and leaves exactly what follows it. */
  lemma CommandRoundTrip(args: seq<string>, rest: string)
    requires WithinLimits(args)
    ensures ParseCommand(Encode(args) + rest) == Command(args, |Encode(args)|)
    ensures (Encode(args) + rest)[|Encode(args)|..] == rest
  {
    hide Header, Args, EncodeArgs, Decimal;
    var tail := EncodeArgs(args) + rest;
    HeaderDecimal('*', |args|, tail);
    assert Encode(args) + rest == ['*'] + Decimal(|args|) + "\r\n" + tail;
    assert (Encode(args) + rest)[|Decimal(|args|)| + 3..] == tail;
    ArgsRoundTrip(args, rest);
  }

  // Commands are self-delimiting.

  lemma ArgExtend(s: string, t: string)
    requires Arg(s).Some?
    ensures Arg(s + t) == Arg(s)
  {
    hide Header;
    HeaderExtend(s, t);
    var l, k := Header(s).value.0, Arg(s).value.1;
    assert (s + t)[l..k - 2] == s[l..k - 2];
  }

  lemma {:induction false} ArgsExtend(s: string, t: string, n: nat)
    requires Args(s, n).Some?
    ensures Args(s + t, n) == Args(s, n)
  {
    hide Arg;
    if n > 0 {
      ArgExtend(s, t);
      var k := Arg(s).value.1;
      assert (s + t)[k..] == s[k..] + t;
      ArgsExtend(s[k..], t, n - 1);
    }
  }

  /** What follows a command cannot change how it is read. */
  lemma CommandExtend(s: string, t: string)
    requires ParseCommand(s).Command?
    ensures ParseCommand(s + t) == ParseCommand(s)
  {
    hide Header, Args;
    HeaderExtend(s, t);
    var (l, n) := Header(s).value;
    assert (s + t)[l..] == s[l..] + t;
    ArgsExtend(s[l..], t, if n < 0 then 0 else n);
  }

  lemma ArgShrink(s: string, k: nat)
    requires Arg(s).Some? && Arg(s).value.1 <= k <= |s|
    ensures Arg(s[..k]) == Arg(s)
  {
    hide Header;
    HeaderShrink(s, k);
    var l, m := Header(s).value.0, Arg(s).value.1;
    assert s[..k][l..m - 2] == s[l..m - 2];
  }

  lemma {:induction false} ArgsShrink(s: string, n: nat)
    requires Args(s, n).Some?
    ensures Args(s[..Args(s, n).value.1], n) == Args(s, n)
  {
    hide Arg;
    if n > 0 {
      var k := Arg(s).value.1;
      var m := Args(s[k..], n - 1).value.1;
      ArgShrink(s, k + m);
      assert s[..k + m][k..] == s[k..][..m];
      ArgsShrink(s[k..], n - 1);
    }
  }

  lemma HeaderShrink(s: string, k: nat)
    requires Header(s).Some? && Header(s).value.0 <= k <= |s|
    ensures Header(s[..k]) == Header(s)
  {
    var l := Header(s).value.0;
    var cut := s[..k];
    FirstLFUnique(cut, l - 1);
    assert cut[1..l - 2] == s[1..l - 2];
  }

  /** The consumed bytes alone are the same command. */
  lemma CommandShrink(s: string)
    requires ParseCommand(s).Command?
    ensures ParseCommand(s[..ParseCommand(s).size]) == ParseCommand(s)
  {
    hide Header, Args;
    var (l, n) := Header(s).value;
    var count := if n < 0 then 0 else n;
    var k := Args(s[l..], count).value.1;
    HeaderShrink(s, l + k);
    ArgsShrink(s[l..], count);
    assert s[..l + k][l..] == s[l..][..k];
  }

  /** A string that is exactly one command. */
  predicate IsCommand(raw: string) {
    ParseCommand(raw).Command? && ParseCommand(raw).size == |raw|
  }

  function ArgsOf(raw: string): seq<string>
    requires IsCommand(raw)
  {
    ParseCommand(raw).args
  }

  predicate AllCommands(raws: seq<string>) { forall i :: 0 <= i < |raws| ==> IsCommand(raws[i]) }

  /** The frames that successive readCommand calls find in a stream, up to the first that is not a command. */
  function Frames(s: string): (fs: seq<string>)
    ensures AllCommands(fs)
  {
    match ParseCommand(s)
    case Command(_, k) => CommandShrink(s); [s[..k]] + Frames(s[k..])
    case _ => []
  }

  /** The first n of them. */
  function Front(s: string, n: nat): (fs: seq<string>)
    ensures AllCommands(fs)
  {
    hide IsCommand, Frames;
    if n <= |Frames(s)| then Frames(s)[..n] else Frames(s)
  }

  /** Commands written back to back are read back one by one, in one way only. */
  lemma {:induction false} FramesConcat(raws: seq<string>, t: string)
    requires AllCommands(raws)
    ensures Frames(Concat(raws) + t) == raws + Frames(t)
  {
    hide ParseCommand;
    if raws == [] {
      assert Concat(raws) + t == t;
    } else {
      var tail := Concat(raws[1..]) + t;
      Assoc(raws[0], Concat(raws[1..]), t);
      CommandExtend(raws[0], tail);
      assert (raws[0] + tail)[..|raws[0]|] == raws[0];
      assert (raws[0] + tail)[|raws[0]|..] == tail;
      FramesConcat(raws[1..], t);
      assert raws == [raws[0]] + raws[1..];
    }
  }

  function EncodeAll(script: seq<seq<string>>): (raws: seq<string>)
    ensures |raws| == |script|
  {
    seq(|script|, i requires 0 <= i < |script| => Encode(script[i]))
  }

  /** A client's whole script, printed command by command, is read back as that script. */
  lemma ScriptRoundTrip(script: seq<seq<string>>, rest: string)
    requires forall i :: 0 <= i < |script| ==> WithinLimits(script[i])
    ensures AllCommands(EncodeAll(script))
    ensures forall i :: 0 <= i < |script| ==> ArgsOf(EncodeAll(script)[i]) == script[i]
    ensures Frames(Concat(EncodeAll(script)) + rest) == EncodeAll(script) + Frames(rest)
  {
    hide ParseCommand, Encode, WithinLimits, Frames;
    var raws := EncodeAll(script);
    forall i | 0 <= i < |script| ensures IsCommand(raws[i]) && ArgsOf(raws[i]) == script[i] {
      CommandRoundTrip(script[i], "");
      assert Encode(script[i]) + "" == Encode(script[i]);
    }
    FramesConcat(raws, rest);
  }

  /** A part of a command holds no command, unless it is all of it. */
  lemma FramesPart(raw: string, part: string)
    requires IsCommand(raw) && part <= raw
    ensures Frames(part) == if part == raw then [raw] else []
  {
    hide Args, Header;
    assert raw == part + raw[|part|..];
    if ParseCommand(part).Command? {
      CommandExtend(part, raw[|part|..]);
      assert part == raw;
      assert part[|part|..] == "";
    }
  }

  /** readCommand. */
  method ReadCommand(fold: Fold, br: BufReader) returns (r: Parsed, name: string, raw: string)
    requires br.Valid() && br.size == BUFFER_SIZE
    modifies br
    ensures br.Valid()
    ensures r == ParseCommand(old(br.Rest()))
    ensures r.Command? ==> name == NameOf(fold, r.args) && |raw| == r.size && old(br.Rest()) == raw + br.Rest()
    ensures r.Inline? ==> br.Rest() == old(br.Rest())
  {
    hide Arg, Args, ArgsGoOn, ParseInt, FirstLF, LineLen, Upper;
    ghost var s := br.Rest();
    name, raw := "", "";
    var first := br.Peek();
    if first.None? {
      return Malformed, name, raw;
    }
    if first.value != '*' {
      return Inline, name, raw;
    }
    var line := br.ReadLine();
    if line.None? {
      return Malformed, name, raw;
    }
    raw := line.value;
    ghost var l := |raw|;
    assert s[1..l - 2] == raw[1..l - 2];
    assert s[l..] == br.Rest();
    var n := ParseInt(raw[1..|raw| - 2]);
    if n.None? || n.value > MAX_ELEMENTS {
      return Malformed, name, raw;
    }
    var args: seq<string> := [];
    ghost var count := if n.value < 0 then 0 else n.value;
    ArgsGoOnStart(s[l..], count);
    while |args| < n.value
      invariant br.Valid() && s == raw + br.Rest() && l <= |raw| && |args| <= count
      invariant ArgsGoOn(s[l..], count, args, |raw| - l, br.Rest())
      invariant name == NameOf(fold, args)
    {
      ghost var rest := br.Rest();
      ArgsStep(s[l..], count, args, |raw| - l, rest);
      var ok, arg, bytes := ReadArg(br);
      if !ok {
        return Malformed, name, raw;
      }
      Assoc(raw, bytes, br.Rest());
      raw := raw + bytes;
      assert br.Rest() == rest[|bytes|..];
      args := args + [arg];
      if |args| == 1 {
        name := Upper(fold, arg);
      }
    }
    ArgsGoOnEnd(s[l..], count, args, |raw| - l, br.Rest());
    r := Command(args, |raw|);
  }

  /** Having read `args` from s in k bytes, the remaining arguments decide the outcome. */
  ghost predicate ArgsGoOn(s: string, n: nat, args: seq<string>, k: nat, rest: string) {
    |args| <= n &&
    match Args(rest, n - |args|)
    case None => Args(s, n) == None
    case Some((more, m)) => Args(s, n) == Some((args + more, k + m))
  }

  lemma ArgsGoOnStart(s: string, n: nat)
    ensures ArgsGoOn(s, n, [], 0, s)
  {
    hide Arg;
    if Args(s, n).Some? {
      assert [] + Args(s, n).value.0 == Args(s, n).value.0;
    }
  }

  lemma ArgsGoOnEnd(s: string, n: nat, args: seq<string>, k: nat, rest: string)
    requires ArgsGoOn(s, n, args, k, rest) && |args| == n
    ensures Args(s, n) == Some((args, k))
  {
    assert args + [] == args;
  }

  lemma ArgsStep(s: string, n: nat, args: seq<string>, k: nat, rest: string)
    requires ArgsGoOn(s, n, args, k, rest) && |args| < n
    ensures Arg(rest).None? ==> Args(s, n) == None
    ensures Arg(rest).Some? ==>
              ArgsGoOn(s, n, args + [Arg(rest).value.0], k + Arg(rest).value.1, rest[Arg(rest).value.1..])
  {
    hide Arg;
    if Arg(rest).Some? {
      var (a, j) := Arg(rest).value;
      var more := Args(rest[j..], n - |args| - 1);
      if more.Some? {
        assert args + ([a] + more.value.0) == args + [a] + more.value.0;
      }
    }
  }

  lemma ArgIs(line: string, payload: string, rest: string, n: nat)
    requires line != "" && line[0] == '$' && n <= MAX_BULK_LEN && |payload| == n + 2
    requires Header(line + (payload + rest)) == Some((|line|, n))
    ensures Arg(line + (payload + rest)) == Some((payload[..n], |line| + |payload|))
  {
    hide Header;
    assert (line + (payload + rest))[|line|..|line| + n] == payload[..n];
  }

  /** One iteration of readCommand's loop. */
  method ReadArg(br: BufReader) returns (ok: bool, arg: string, bytes: string)
    requires br.Valid() && br.size == BUFFER_SIZE
    modifies br
    ensures br.Valid()
    ensures ok == Arg(old(br.Rest())).Some?
    ensures ok ==> Arg(old(br.Rest())) == Some((arg, |bytes|)) && old(br.Rest()) == bytes + br.Rest()
  {
    hide Header, ParseInt, LineLen, FirstLF;
    ok, arg, bytes := false, "", "";
    ghost var s := br.Rest();
    var line := br.ReadLine();
    HeaderOfLine(s, line, br.Rest());
    if line.None? {
      return;
    }
    bytes := line.value;
    if bytes[0] != '$' {
      return;
    }
    var n := ParseInt(bytes[1..|bytes| - 2]);
    if n.None? || n.value < 0 || n.value > MAX_BULK_LEN {
      return;
    }
    var full, payload := br.ReadFull(n.value + 2);
    if !full {
      return;
    }
    assert s == bytes + (payload + br.Rest());
    ArgIs(bytes, payload, br.Rest(), n.value);
    Assoc(bytes, payload, br.Rest());
    bytes := bytes + payload;
    ok, arg := true, payload[..n.value];
  }
}
