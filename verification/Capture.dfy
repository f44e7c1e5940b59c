/** `BoundedCapture`: keeps the start and the end of a stream that may be too long to keep whole. */
module Capture {
  import opened Base

  /** One-shot truncation: the stream itself if it fits, otherwise its first half-limit and its last bytes. */
  function Truncation(stream: Bytes, limit: nat): Bytes
    requires limit > 0
  {
    if |stream| <= limit then stream
    else stream[..limit / 2] + stream[|stream| - (limit - limit / 2)..]
  }

  /** What two byte strings end in, they still end in after the same bytes are added. */
  lemma SuffixAppend(a: Bytes, b: Bytes, chunk: Bytes, tail: nat)
    requires tail <= |a| && tail <= |b| && a[|a| - tail..] == b[|b| - tail..]
    ensures (a + chunk)[|a + chunk| - tail..] == (b + chunk)[|b + chunk| - tail..]
  {
    var x, y := (a + chunk)[|a + chunk| - tail..], (b + chunk)[|b + chunk| - tail..];
    forall i | 0 <= i < tail ensures x[i] == y[i] {
      if i + |chunk| < tail {
        assert x[i] == a[|a| - tail..][i + |chunk|];
        assert y[i] == b[|b| - tail..][i + |chunk|];
      }
    }
  }

  lemma Middle(stream: Bytes, head: nat, tail: nat)
    requires head + tail <= |stream|
    ensures var kept := stream[..head] + stream[|stream| - tail..];
            |kept| == head + tail && kept[..head] == stream[..head]
              && kept[|kept| - tail..] == stream[|stream| - tail..]
  {
  }

  lemma PrefixAppend(a: Bytes, chunk: Bytes, head: nat)
    requires head <= |a|
    ensures (a + chunk)[..head] == a[..head]
  {
  }

  /** Truncating piecewise is truncating at once. */
  lemma TruncationStep(stream: Bytes, chunk: Bytes, limit: nat)
    requires limit > 0
    ensures Truncation(Truncation(stream, limit) + chunk, limit) == Truncation(stream + chunk, limit)
  {
    var head, tail := limit / 2, limit - limit / 2;
    var kept := Truncation(stream, limit);
    if |stream| > limit {
      Middle(stream, head, tail);
      if chunk == [] {
        assert kept + chunk == kept && stream + chunk == stream;
      } else {
        SameEnds(kept, stream, chunk, head, tail);
        assert |kept + chunk| > limit && |stream + chunk| > limit;
      }
    }
  }

  /** Two byte strings that begin and end alike still do so after the same bytes are added. */
  lemma SameEnds(a: Bytes, b: Bytes, chunk: Bytes, head: nat, tail: nat)
    requires head + tail <= |a| && head + tail <= |b|
    requires a[..head] == b[..head] && a[|a| - tail..] == b[|b| - tail..]
    ensures (a + chunk)[..head] == (b + chunk)[..head]
    ensures (a + chunk)[|a + chunk| - tail..] == (b + chunk)[|b + chunk| - tail..]
  {
    PrefixAppend(a, chunk, head);
    PrefixAppend(b, chunk, head);
    SuffixAppend(a, b, chunk, tail);
  }

  class BoundedCapture {
    const limit: nat
    var value: Bytes
    var truncated: bool
    ghost var stream: Bytes

    /** The capture shows the one-shot truncation of everything fed to it, and says whether that is all of it. */
    ghost predicate Valid()
      reads this
    {
      limit > 0 && value == Truncation(stream, limit) && (truncated <==> |stream| > limit)
    }

    constructor (limit: nat)
      requires limit > 0
      ensures Valid() && stream == [] && this.limit == limit
    {
      this.limit, value, truncated, stream := limit, [], false, [];
    }

    method Feed(chunk: Bytes)
      requires Valid()
      modifies this
      ensures Valid() && stream == old(stream) + chunk
    {
      TruncationStep(stream, chunk, limit);
      stream := stream + chunk;
      var combined := value + chunk;
      if |combined| <= limit {
        value := combined;
        return;
      }
      var head := limit / 2;
      var tail := limit - head;
      value := combined[..head] + combined[|combined| - tail..];
      truncated := true;
    }

    /** The drain loop of the launcher: feeds chunk after chunk. */
    method Drain(chunks: seq<Bytes>)
      requires Valid()
      modifies this
      ensures Valid() && stream == old(stream) + Concat(chunks)
    {
      assert old(stream) + Concat(chunks[..0]) == old(stream);
      for i := 0 to |chunks|
        invariant Valid() && stream == old(stream) + Concat(chunks[..i])
      {
        assert chunks[..i + 1] == chunks[..i] + [chunks[i]];
        ConcatAppend(chunks[..i], [chunks[i]]);
        ConcatOne(chunks[i]);
        Feed(chunks[i]);
      }
      assert chunks[..|chunks|] == chunks;
    }
  }

  lemma ConcatOne(chunk: Bytes)
    ensures Concat([chunk]) == chunk
  {
    assert [chunk][1..] == [];
  }

  /**
   * The capture is the whole stream exactly when that is within the limit. Otherwise it is as long as the limit: its
   * first half the start of the stream, the rest the end of it.
   */
  lemma UntruncatedIsWhole(stream: Bytes, limit: nat)
    requires limit > 0
    ensures |stream| <= limit ==> Truncation(stream, limit) == stream
    ensures |stream| > limit ==>
              var kept, half := Truncation(stream, limit), limit / 2;
              && |kept| == limit && kept != stream
              && kept[..half] == stream[..half] && kept[half..] == stream[|stream| - (limit - half)..]
  {
    if |stream| > limit {
      Middle(stream, limit / 2, limit - limit / 2);
    }
  }
}
