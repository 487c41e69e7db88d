/** The buffered reader the proxy parses from, and the chunked line reader on top of it. */
module Reader {
  import opened Bytes

  const MAX_LINE_LEN: nat := 64 * 1024

  /** First multiple of the chunk size, counting up from c, that fails the line-length check. */
  function FirstBeyond(c: nat, size: nat): (r: nat)
    requires size > 0
    ensures r >= c && (c <= MAX_LINE_LEN ==> r >= c + size)
    decreases MAX_LINE_LEN + 1 - c
  {
    if c > MAX_LINE_LEN then c else FirstBeyond(c + size, size)
  }

  /** Longest line a reader with a buffer of `size` bytes returns whole. */
  function LineCap(size: nat): nat
    requires size > 0
  {
    FirstBeyond(0, size)
  }

  /** The limit in closed form: it is the buffer size, not maxLineLen alone, that decides. */
  lemma LineCapFormula(size: nat)
    requires size > 0
    ensures LineCap(size) == (MAX_LINE_LEN / size + 1) * size
  {
    FirstBeyondFormula(0, 0, size);
  }

  lemma {:induction false} FirstBeyondFormula(k: nat, c: nat, size: nat)
    requires size > 0 && c == k * size && k <= MAX_LINE_LEN / size + 1
    ensures FirstBeyond(c, size) == (MAX_LINE_LEN / size + 1) * size
    decreases MAX_LINE_LEN / size + 1 - k
  {
    var q := MAX_LINE_LEN / size;
    MultipleWithin(k, q, size);
    if k <= q {
      assert c + size == (k + 1) * size;
      FirstBeyondFormula(k + 1, c + size, size);
    }
  }

  lemma MultipleWithin(k: nat, q: nat, size: nat)
    requires size > 0 && q == MAX_LINE_LEN / size
    ensures k * size <= MAX_LINE_LEN <==> k <= q
  {
    assert q * size <= MAX_LINE_LEN < q * size + size;
    if k <= q {
      assert k * size <= q * size;
    } else {
      assert k * size >= (q + 1) * size;
    }
  }

  /** The simple reader: everything up to the first LF, at most `cap` bytes, ending in CRLF. */
  function LineLen(s: string, cap: nat): (r: Option<nat>)
    ensures r.Some? ==> 3 <= r.value <= |s| && r.value <= cap
  {
    var i := FirstLF(s);
    if i < |s| && 3 <= i + 1 <= cap && s[i - 1] == '\r' then Some(i + 1) else None
  }

  lemma LineLenPrefix(line: string, rest: string, cap: nat)
    requires 3 <= |line| <= cap && line[|line| - 2] == '\r' && line[|line| - 1] == '\n'
    requires forall j :: 0 <= j < |line| - 1 ==> line[j] != '\n'
    ensures LineLen(line + rest, cap) == Some(|line|)
  {
    FirstLFUnique(line + rest, |line| - 1);
  }

  lemma FirstLFBehind(line: string, rest: string)
    requires FirstLF(line + rest) >= |line|
    ensures FirstLF(line + rest) == |line| + FirstLF(rest)
  {
    var s := line + rest;
    assert forall j :: |line| <= j < |s| ==> s[j] == rest[j - |line|];
    if FirstLF(rest) < |rest| {
      FirstLFUnique(s, |line| + FirstLF(rest));
    }
  }

  lemma LineLenIs(line: string, rest: string, cap: nat)
    requires 0 < |line| <= cap && FirstLF(line + rest) == |line| - 1
    ensures LineLen(line + rest, cap) ==
            if |line| < 3 || line[|line| - 2] != '\r' then None else Some(|line|)
  {
  }

  /** More input behind a complete line changes nothing. */
  lemma LineLenExtend(s: string, t: string, cap: nat)
    requires LineLen(s, cap).Some?
    ensures LineLen(s + t, cap) == LineLen(s, cap)
  {
    FirstLFUnique(s + t, FirstLF(s));
  }

  lemma TakeFrom(got: string, buffered: string, incoming: string, n: nat)
    requires n <= |buffered|
    ensures got + (buffered + incoming) == got + buffered[..n] + (buffered[n..] + incoming)
  {
    assert buffered == buffered[..n] + buffered[n..];
  }

  datatype Slice = Found(part: string) | Full(part: string) | Ended

  /**
   * A bufio.Reader: `buffered` is the unread part of its buffer, `incoming` what the connection
   * still delivers before it ends (EOF or any read error). How much each fill brings is arbitrary.
   */
  class BufReader {
    const size: nat
    var buffered: string
    var incoming: string

    constructor (size: nat, incoming: string)
      requires size > 0
      ensures Valid() && this.size == size && Rest() == incoming
    {
      this.size := size;
      this.buffered := "";
      this.incoming := incoming;
    }

    ghost predicate Valid()
      reads this
    {
      size > 0 && |buffered| <= size
    }

    /** Everything still to be read. */
    ghost function Rest(): string
      reads this
    {
      buffered + incoming
    }

    method Fill() returns (ok: bool)
      requires Valid() && |buffered| < size
      modifies this
      ensures Valid() && Rest() == old(Rest())
      ensures ok <==> old(incoming) != ""
      ensures ok ==> |incoming| < |old(incoming)| && old(buffered) <= buffered
      ensures !ok ==> buffered == old(buffered) && incoming == ""
    {
      ok := incoming != "";
      if ok {
        var n :| 1 <= n <= |incoming| && n <= size - |buffered|;
        buffered, incoming := buffered + incoming[..n], incoming[n..];
      }
    }

    /** ReadSlice('\n'): the outcome depends on the bytes to come, not on how they arrive. */
    method ReadSlice() returns (r: Slice)
      requires Valid()
      modifies this
      ensures Valid()
      ensures var s, i := old(Rest()), FirstLF(old(Rest()));
              if i < |s| && i < size then r == Found(s[..i + 1]) && Rest() == s[i + 1..]
              else if |s| >= size then r == Full(s[..size]) && Rest() == s[size..]
              else r == Ended && Rest() == ""
      ensures !r.Ended? ==> old(Rest()) == r.part + Rest()
    {
      ghost var s := Rest();
      while true
        invariant Valid() && Rest() == s
        decreases |incoming|
      {
        var i := FirstLF(buffered);
        if i < |buffered| {
          FirstLFUnique(s, i);
          r := Found(buffered[..i + 1]);
          buffered := buffered[i + 1..];
          return;
        }
        assert forall j :: 0 <= j < |buffered| ==> s[j] == buffered[j];
        if |buffered| == size {
          r := Full(buffered);
          buffered := "";
          return;
        }
        var ok := Fill();
        if !ok {
          r := Ended;
          buffered := "";
          return;
        }
      }
    }

    /** readLine: returned whole exactly when the simple reader at cap LineCap(size) returns it. */
    method ReadLine() returns (r: Option<string>)
      requires Valid()
      modifies this
      ensures Valid()
      ensures var s, l := old(Rest()), LineLen(old(Rest()), LineCap(size));
              if l.Some? then r.Some? && |r.value| == l.value && s == r.value + Rest() else r == None
    {
      hide FirstLF;
      ghost var s := Rest();
      var line := "";
      while true
        invariant Valid() && FirstBeyond(|line|, size) == LineCap(size)
        invariant s == line + Rest() && FirstLF(s) >= |line| && |line| <= MAX_LINE_LEN
        decreases |Rest()|
      {
        ghost var rest := Rest();
        FirstLFBehind(line, rest);
        var part := ReadSlice();
        if part.Ended? {
          return None;
        }
        Assoc(line, part.part, Rest());
        line := line + part.part;
        if part.Found? {
          LineLenIs(line, Rest(), LineCap(size));
          return if |line| < 3 || line[|line| - 2] != '\r' then None else Some(line);
        }
        if |line| > MAX_LINE_LEN {
          return None;
        }
      }
    }

    /** io.ReadFull and the read side of io.CopyN: n bytes, or the stream ends first. */
    method ReadFull(n: nat) returns (ok: bool, got: string)
      requires Valid()
      modifies this
      ensures Valid() && ok == (n <= |old(Rest())|)
      ensures old(Rest()) == got + Rest()
      ensures if ok then |got| == n else Rest() == ""
    {
      ghost var s := Rest();
      got := "";
      while |got| < n
        invariant Valid() && |got| <= n && s == got + Rest()
        decreases n - |got|, |incoming|
      {
        if buffered == "" {
          var more := Fill();
          if !more {
            return false, got;
          }
        }
        var take := if |buffered| <= n - |got| then |buffered| else n - |got|;
        TakeFrom(got, buffered, incoming, take);
        got, buffered := got + buffered[..take], buffered[take..];
      }
      ok := true;
    }

    /** Peek(1). */
    method Peek() returns (r: Option<char>)
      requires Valid()
      modifies this
      ensures Valid() && Rest() == old(Rest())
      ensures r == if Rest() == "" then None else Some(Rest()[0])
    {
      if buffered == "" {
        var more := Fill();
      }
      r := if buffered == "" then None else Some(buffered[0]);
    }
  }
}
