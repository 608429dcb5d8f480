/**
 The page-aligned write buffer.  Its sink is modelled as the list of writes issued to it, all of
 which succeed.
 */
module PageWriter {
  import opened Basics

  type Byte = bv8

  // --- arithmetic of pages -----------------------------------------------------

  /** The position within a page of m bytes: x modulo m, counted down so that proofs stay linear. */
  function Phase(x: nat, m: nat): (r: nat)
    requires m > 0
    ensures r < m
  {
    if x < m then x else Phase(x - m, m)
  }

  lemma ProductAtLeast(d: int, m: nat)
    requires d >= 1
    ensures d * m >= m
  {
    assert d * m == (d - 1) * m + m;
  }

  lemma DivisionUnique(m: nat, q: int, r: int, s: int, u: int)
    requires 0 <= r < m && 0 <= u < m && q * m + r == s * m + u
    ensures q == s && r == u
  {
    assert (q - s) * m == u - r && (s - q) * m == r - u;
    if q > s {
      ProductAtLeast(q - s, m);
    } else if s > q {
      ProductAtLeast(s - q, m);
    }
  }

  /** Phase is the program's remainder, and what it leaves off is a whole number of pages. */
  lemma {:induction false} PhaseIsModulo(x: nat, m: nat)
    requires m > 0
    ensures Phase(x, m) == x % m && x / m * m == x - Phase(x, m)
  {
    if x < m {
      DivisionUnique(m, 0, x, x / m, x % m);
    } else {
      PhaseIsModulo(x - m, m);
      var q := (x - m) / m;
      assert (q + 1) * m == q * m + m;
      DivisionUnique(m, q + 1, Phase(x - m, m), x / m, x % m);
    }
  }

  lemma {:induction false} PhaseAdd(a: nat, c: nat, m: nat)
    requires m > 0
    ensures Phase(a + c, m) == Phase(Phase(a, m) + c, m)
  {
    if a >= m {
      PhaseAdd(a - m, c, m);
    }
  }

  lemma SamePhase(a: nat, b: nat, c: nat, m: nat)
    requires m > 0 && Phase(a, m) == Phase(b, m)
    ensures Phase(a + c, m) == Phase(b + c, m) == Phase(Phase(a + c, m), m)
  {
    PhaseAdd(a, c, m);
    PhaseAdd(b, c, m);
  }

  /** Filling up the current page reaches a page boundary. */
  lemma FillPage(x: nat, m: nat)
    requires m > 0
    ensures Phase(x + (m - Phase(x, m)), m) == 0
  {
    PhaseAdd(x, m - Phase(x, m), m);
  }

  /** Moving on within the current page. */
  lemma WithinPage(x: nat, k: nat, m: nat)
    requires m > 0 && k < m - Phase(x, m)
    ensures Phase(x + k, m) == Phase(x, m) + k
  {
    PhaseAdd(x, k, m);
  }

  lemma {:induction false} WholePages(x: nat, m: nat)
    requires m > 0
    ensures Phase(x, m) <= x && Phase(x - Phase(x, m), m) == 0
  {
    if x >= m {
      WholePages(x - m, m);
    }
  }

  /** The bytes of the whole pages in x, as the program computes them. */
  function WholeBytes(x: nat, m: nat): (r: nat)
    requires m > 0
    ensures r <= x && Phase(r, m) == 0 && x - r == Phase(x, m)
  {
    PhaseIsModulo(x, m);
    WholePages(x, m);
    x / m * m
  }

  // --- the recursion of a write -------------------------------------------------

  datatype Call = Ends | Again(pageOffset: nat, buffered: nat, length: nat)

  /** The bytes that complete the page at x; none if x is a page boundary. */
  function ToFill(x: nat, pageBytes: nat): nat
    requires pageBytes > 0
  {
    if Phase(x, pageBytes) == 0 then 0 else pageBytes - Phase(x, pageBytes)
  }

  /** The page offset once so many bytes have been flushed. */
  function Cleared(pageOffset: nat, flushed: nat, pageBytes: nat): nat
    requires pageBytes > 0
  {
    if flushed == 0 then pageOffset else Phase(pageOffset + flushed, pageBytes)
  }

  /** What is left of `length` bytes after writing whole pages, if they are more than one. */
  function Remainder(length: nat, pageBytes: nat): nat
    requires pageBytes > 0
  {
    if length > pageBytes then Phase(length, pageBytes) else length
  }

  /** The recursive call that a write of `length` bytes makes, if any. */
  function Recursion(pageBytes: nat, watermark: nat, pageOffset: nat, buffered: nat, length: nat): Call
    requires pageBytes > 0
  {
    var fill := ToFill(pageOffset + buffered, pageBytes);
    if length + buffered <= watermark || fill > length then Ends
    else Again(Cleared(pageOffset, buffered + fill, pageBytes), 0, Remainder(length - fill, pageBytes))
  }

  /** Whether a write ends with at most so many calls to itself. */
  predicate EndsWithin(pageBytes: nat, watermark: nat, pageOffset: nat, buffered: nat, length: nat, calls: nat)
    requires pageBytes > 0
    decreases calls
  {
    var c := Recursion(pageBytes, watermark, pageOffset, buffered, length);
    c.Ends? || (calls > 0 && EndsWithin(pageBytes, watermark, c.pageOffset, c.buffered, c.length, calls - 1))
  }

  /** The first recursive call finds an empty, aligned buffer and at most a page to write. */
  lemma FirstCall(pageBytes: nat, watermark: nat, pageOffset: nat, buffered: nat, length: nat)
    requires pageBytes > 0
    ensures var c := Recursion(pageBytes, watermark, pageOffset, buffered, length);
            c.Again? ==> c.buffered == 0 && Phase(c.pageOffset, pageBytes) == 0 && c.length <= pageBytes
  {
    FillPage(pageOffset + buffered, pageBytes);
  }

  /** From there a write ends at once or calls itself again and again with the same arguments. */
  lemma {:induction false} NeverEnds(pageBytes: nat, watermark: nat, pageOffset: nat, length: nat, calls: nat)
    requires pageBytes > 0 && Phase(pageOffset, pageBytes) == 0 && watermark < length <= pageBytes
    ensures !EndsWithin(pageBytes, watermark, pageOffset, 0, length, calls)
  {
    assert Recursion(pageBytes, watermark, pageOffset, 0, length) == Again(pageOffset, 0, length);
    if calls > 0 {
      NeverEnds(pageBytes, watermark, pageOffset, length, calls - 1);
    }
  }

  lemma EndsByFirstCall(pageBytes: nat, watermark: nat, pageOffset: nat, buffered: nat, length: nat, calls: nat)
    requires pageBytes > 0
    ensures EndsWithin(pageBytes, watermark, pageOffset, buffered, length, calls) ==>
              EndsWithin(pageBytes, watermark, pageOffset, buffered, length, 1)
  {
    var c := Recursion(pageBytes, watermark, pageOffset, buffered, length);
    if c.Again? && calls > 0 {
      FirstCall(pageBytes, watermark, pageOffset, buffered, length);
      if c.length > watermark {
        NeverEnds(pageBytes, watermark, c.pageOffset, c.length, calls - 1);
      }
    }
  }

  /** A write ends within one call to itself, or never. */
  lemma WriteEndsIff(pageBytes: nat, watermark: nat, pageOffset: nat, buffered: nat, length: nat)
    requires pageBytes > 0
    ensures (exists calls :: EndsWithin(pageBytes, watermark, pageOffset, buffered, length, calls))
            <==> EndsWithin(pageBytes, watermark, pageOffset, buffered, length, 1)
  {
    forall calls | EndsWithin(pageBytes, watermark, pageOffset, buffered, length, calls)
      ensures EndsWithin(pageBytes, watermark, pageOffset, buffered, length, 1)
    {
      EndsByFirstCall(pageBytes, watermark, pageOffset, buffered, length, calls);
    }
  }

  /** All writes end iff a page fits under the watermark. */
  lemma RecursionEndsIff(pageBytes: nat, watermark: nat)
    requires pageBytes > 0
    ensures (forall o: nat, b: nat, n: nat :: EndsWithin(pageBytes, watermark, o, b, n, 1)) <==> pageBytes <= watermark
  {
    if pageBytes <= watermark {
      forall o: nat, b: nat, n: nat ensures EndsWithin(pageBytes, watermark, o, b, n, 1) {
        FirstCall(pageBytes, watermark, o, b, n);
      }
    } else {
      NeverEnds(pageBytes, watermark, 0, pageBytes, 1);
    }
  }

  // --- the writer --------------------------------------------------------------

  /** The buffer is at most at the watermark, or is filling a page that began at or before it. */
  ghost predicate Room(pageBytes: nat, watermark: nat, pageOffset: nat, buffered: nat)
    requires pageBytes > 0
  {
    var x := Phase(pageOffset + buffered, pageBytes);
    buffered <= watermark || (x != 0 && buffered - x <= watermark)
  }

  /** The j-th write, of a stream that began at `origin`, ends on a page boundary. */
  ghost predicate EndsAligned(origin: nat, pageBytes: nat, sink: seq<seq<Byte>>, j: nat)
    requires pageBytes > 0 && j < |sink|
  {
    Phase(origin + |Flatten(sink[..j + 1])|, pageBytes) == 0
  }

  class PageWriter {
    const pageBytes: nat
    const watermark: nat
    const buf: array<Byte>
    const origin: nat
    var pageOffset: nat
    var buffered: nat
    var sink: seq<seq<Byte>>

    ghost predicate Sound()
      reads this
    {
      && 0 < pageBytes
      && buf.Length == watermark + pageBytes
      && buffered <= buf.Length
      && Phase(pageOffset, pageBytes) == Phase(origin + |Flatten(sink)|, pageBytes)
    }

    ghost predicate Valid()
      reads this
    {
      Sound() && Room(pageBytes, watermark, pageOffset, buffered)
    }

    /** Everything written so far, whether it has reached the sink or not. */
    ghost function Stream(): seq<Byte>
      requires Sound()
      reads this, buf
    {
      Flatten(sink) + buf[..buffered]
    }

    /** The writes from the k-th on end on page boundaries. */
    ghost predicate AlignedFrom(k: nat)
      requires pageBytes > 0
      reads this
    {
      forall j :: k <= j < |sink| ==> EndsAligned(origin, pageBytes, sink, j)
    }

    constructor (pageBytes: nat, pageOffset: nat, watermark: nat)
      ensures pageBytes > 0 ==> Valid() && Stream() == []
      ensures origin == pageOffset && sink == [] && fresh(buf) && buf.Length == watermark + pageBytes
      ensures this.pageBytes == pageBytes && this.watermark == watermark
    {
      this.pageBytes, this.pageOffset, this.watermark, origin := pageBytes, pageOffset, watermark, pageOffset;
      buffered := 0;
      buf := new Byte[watermark + pageBytes];
      sink := [];
    }

    method CopyIn(p: seq<Byte>)
      requires buffered + |p| <= buf.Length
      modifies this`buffered, buf
      ensures buffered == old(buffered) + |p|
      ensures buf[..buffered] == old(buf[..buffered]) + p
    {
      forall i | 0 <= i < |p| {
        buf[buffered + i] := p[i];
      }
      buffered := buffered + |p|;
    }

    /** Hand a chunk to the sink. */
    method Issue(chunk: seq<Byte>, ghost k: nat)
      requires pageBytes > 0 && k <= |sink| && AlignedFrom(k)
      modifies this`sink
      ensures old(sink) <= sink && Flatten(sink) == old(Flatten(sink)) + chunk
      ensures Phase(origin + |Flatten(sink)|, pageBytes) == 0 ==> AlignedFrom(k)
    {
      ghost var was := sink;
      FlattenSnoc(sink, chunk);
      sink := sink + [chunk];
      assert sink[..|sink|] == sink;
      forall j | k <= j < |was| ensures EndsAligned(origin, pageBytes, sink, j) {
        assert EndsAligned(origin, pageBytes, was, j);
        assert sink[..j + 1] == was[..j + 1];
      }
    }

    method Flush(ghost k: nat)
      requires Sound() && k <= |sink| && AlignedFrom(k)
      modifies this`sink, this`pageOffset, this`buffered
      ensures Valid() && buffered == 0 && Stream() == old(Stream()) && old(sink) <= sink
      ensures Phase(pageOffset, pageBytes) == Phase(old(pageOffset + buffered), pageBytes)
      ensures pageOffset == Cleared(old(pageOffset), old(buffered), pageBytes)
      ensures Phase(pageOffset, pageBytes) == 0 ==> AlignedFrom(k)
    {
      if buffered == 0 {
        return;
      }
      SamePhase(pageOffset, origin + |Flatten(sink)|, buffered, pageBytes);
      Issue(buf[..buffered], k);
      assert |Flatten(sink)| == old(|Flatten(sink)|) + buffered;
      pageOffset := Phase(pageOffset + buffered, pageBytes);
      buffered := 0;
      assert buf[..buffered] == [];
    }

    /** Not enough data to complete the page: it stays within the page's room in the buffer. */
    method FillPart(p: seq<Byte>)
      requires Valid() && Phase(pageOffset + buffered, pageBytes) != 0
      requires |p| < pageBytes - Phase(pageOffset + buffered, pageBytes)
      modifies this`buffered, buf
      ensures Valid() && Stream() == old(Stream()) + p
    {
      WithinPage(pageOffset + buffered, |p|, pageBytes);
      CopyIn(p);
      assert Stream() == old(Stream()) + p;
    }

    /** Complete the page in the buffer, which ends within the buffer, and clear it out. */
    method FillAndFlush(p: seq<Byte>, ghost k: nat)
      requires Valid() && |p| == ToFill(pageOffset + buffered, pageBytes)
      requires k <= |sink| && AlignedFrom(k)
      modifies this, buf
      ensures Valid() && buffered == 0 && Phase(pageOffset, pageBytes) == 0 && Stream() == old(Stream()) + p
      ensures pageOffset == Cleared(old(pageOffset), old(buffered) + |p|, pageBytes)
      ensures old(sink) <= sink && AlignedFrom(k)
    {
      FillPage(pageOffset + buffered, pageBytes);
      CopyIn(p);
      assert Stream() == old(Stream()) + p;
      Flush(k);
    }

    /** Write whole pages straight to the sink. */
    method IssuePages(chunk: seq<Byte>, ghost k: nat)
      requires Valid() && buffered == 0 && Phase(pageOffset, pageBytes) == 0 && Phase(|chunk|, pageBytes) == 0
      requires k <= |sink| && AlignedFrom(k)
      modifies this`sink
      ensures Valid() && Stream() == old(Stream()) + chunk
      ensures old(sink) <= sink && AlignedFrom(k)
    {
      PhaseAdd(origin + |Flatten(sink)|, |chunk|, pageBytes);
      Issue(chunk, k);
      assert buf[..buffered] == [];
    }

    /** The whole pages of what is left after the first `taken` bytes go straight to the sink. */
    method WritePages(p: seq<Byte>, taken: nat, ghost k: nat) returns (n: nat)
      requires Valid() && buffered == 0 && Phase(pageOffset, pageBytes) == 0 && taken <= |p|
      requires k <= |sink| && AlignedFrom(k)
      modifies this`sink
      ensures Valid() && taken <= n <= |p|
      ensures Stream() == old(Stream()) + p[taken..n]
      ensures old(sink) <= sink && AlignedFrom(k)
      ensures |p| - n == Remainder(|p| - taken, pageBytes)
    {
      n := taken;
      if |p| - taken > pageBytes {
        n := taken + WholeBytes(|p| - taken, pageBytes);
        IssuePages(p[taken..n], k);
      }
    }

    /** Complete the page in the buffer if it is unaligned, and clear the buffer out. */
    method ClearOut(p: seq<Byte>, ghost k: nat) returns (n: nat)
      requires Valid() && ToFill(pageOffset + buffered, pageBytes) <= |p|
      requires k <= |sink| && AlignedFrom(k)
      modifies this, buf
      ensures Valid() && buffered == 0 && Phase(pageOffset, pageBytes) == 0
      ensures n == ToFill(old(pageOffset + buffered), pageBytes) && Stream() == old(Stream()) + p[..n]
      ensures pageOffset == Cleared(old(pageOffset), old(buffered) + n, pageBytes)
      ensures old(sink) <= sink && AlignedFrom(k)
    {
      n := 0;
      var slack := pageBytes - Phase(pageOffset + buffered, pageBytes);
      if slack != pageBytes {
        FillAndFlush(p[..slack], k);
        n := slack;
      } else {
        Flush(k);
      }
    }

    /** Clear the buffer out and write all whole pages. */
    method Spill(p: seq<Byte>, ghost k: nat) returns (n: nat)
      requires Valid() && ToFill(pageOffset + buffered, pageBytes) <= |p|
      requires k <= |sink| && AlignedFrom(k)
      modifies this, buf
      ensures Valid() && buffered == 0 && n <= |p|
      ensures Stream() == old(Stream()) + p[..n]
      ensures pageOffset == Cleared(old(pageOffset), old(buffered) + ToFill(old(pageOffset + buffered), pageBytes), pageBytes)
      ensures |p| - n == Remainder(|p| - ToFill(old(pageOffset + buffered), pageBytes), pageBytes)
      ensures old(sink) <= sink && AlignedFrom(k)
    {
      var taken := ClearOut(p, k);
      n := WritePages(p, taken, k);
      assert p[..taken] + p[taken..n] == p[..n];
      Associates(old(Stream()), p[..taken], p[taken..n]);
    }

    /** What a write does before it calls itself: it is done exactly when no call is due, and otherwise the
        writer and what is left after n bytes are as the call finds them. */
    method WriteFront(p: seq<Byte>, ghost k: nat) returns (n: nat, done: bool)
      requires Valid() && k <= |sink| && AlignedFrom(k)
      modifies this, buf
      ensures Valid() && n <= |p| && (done ==> n == |p|)
      ensures Stream() == old(Stream()) + p[..n]
      ensures old(sink) <= sink && AlignedFrom(k)
      ensures Recursion(pageBytes, watermark, old(pageOffset), old(buffered), |p|)
              == if done then Ends else Again(pageOffset, buffered, |p| - n)
      ensures old(buffered) + |p| <= watermark ==> sink == old(sink)
    {
      assert p[..|p|] == p;
      if |p| + buffered <= watermark {
        CopyIn(p);
        assert Stream() == old(Stream()) + p;
        return |p|, true;
      }
      var slack := pageBytes - Phase(pageOffset + buffered, pageBytes);
      if slack != pageBytes && slack > |p| {
        FillPart(p);
        return |p|, true;
      }
      n := Spill(p, k);
      done := false;
    }

    /** A write that ends keeps every byte in order; every write issued on the way ends on a page boundary
        (k names the write from which that is so), and none is issued up to the watermark; and the buffer is
        never overrun. */
    method Write(p: seq<Byte>, ghost k: nat) returns (n: nat)
      requires Valid() && EndsWithin(pageBytes, watermark, pageOffset, buffered, |p|, 1)
      requires k <= |sink| && AlignedFrom(k)
      modifies this, buf
      ensures Valid() && n == |p|
      ensures Stream() == old(Stream()) + p
      ensures old(sink) <= sink && AlignedFrom(k)
      ensures old(buffered) + |p| <= watermark ==> sink == old(sink)
      decreases if Recursion(pageBytes, watermark, pageOffset, buffered, |p|).Ends? then 0 else 1
    {
      var done;
      n, done := WriteFront(p, k);
      assert p[..n] + p[n..] == p;
      if !done {
        Associates(old(Stream()), p[..n], p[n..]);
        var c := Write(p[n..], k);
        n := n + c;
      }
    }
  }
}
