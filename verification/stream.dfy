/** The streamed reply: which chunks of the server's stream reach the page,
    how the page joins them, and the final whitespace trim
    (`response_generator` and the end of `generate_response`,
    src/pages/chat.py). */
module Stream {
  import opened Joins

  /** One chunk of a streamed generation. */
  datatype Chunk = Chunk(response: string, done: bool)

  /** The fragments the generator yields: the response of every chunk before
      the first `done` chunk, in arrival order. The `done` chunk's own text
      and everything after it are dropped; with no `done` chunk every
      response is yielded. */
  function KeptFragments(chunks: seq<Chunk>): (r: seq<string>)
    ensures |r| <= |chunks|
    ensures forall i :: 0 <= i < |r| ==> !chunks[i].done && r[i] == chunks[i].response
    ensures |r| < |chunks| ==> chunks[|r|].done
  {
    if |chunks| == 0 then []
    else if chunks[0].done then []
    else [chunks[0].response] + KeptFragments(chunks[1..])
  }

  /** A fragment contributes its own text. */
  function Verbatim(fragment: string): string
  {
    fragment
  }

  /** The streaming widget's final value: the yielded fragments joined. */
  function Concat(fragments: seq<string>): string
  {
    JoinFront(fragments, Verbatim)
  }

  /** The characters Python's `str.strip()` removes: those `str.isspace()`
      accepts. */
  const Whitespace: set<char> := {
    ' ', '\t', '\n', '\r', '\U{000B}', '\U{000C}',
    '\U{001C}', '\U{001D}', '\U{001E}', '\U{001F}',
    '\U{0085}', '\U{00A0}', '\U{1680}',
    '\U{2000}', '\U{2001}', '\U{2002}', '\U{2003}', '\U{2004}', '\U{2005}',
    '\U{2006}', '\U{2007}', '\U{2008}', '\U{2009}', '\U{200A}',
    '\U{2028}', '\U{2029}', '\U{202F}', '\U{205F}', '\U{3000}'
  }

  predicate IsSpace(c: char)
  {
    c in Whitespace
  }

  /** Every character of `s` outside positions `lo` to `hi` (exclusive) is
      whitespace. */
  predicate SpaceOutside(s: string, lo: int, hi: int)
  {
    forall k :: 0 <= k < |s| && !(lo <= k < hi) ==> IsSpace(s[k])
  }

  /** `s` with its leading whitespace removed. */
  function TrimStart(s: string): string
  {
    if |s| > 0 && IsSpace(s[0]) then TrimStart(s[1..]) else s
  }

  /** `s` with its trailing whitespace removed. */
  function TrimEnd(s: string): string
  {
    if |s| > 0 && IsSpace(s[|s| - 1]) then TrimEnd(s[..|s| - 1]) else s
  }

  /** Trimming the start removes a whitespace prefix and stops at the first
      other character. */
  lemma {:induction false} TrimStartSpec(s: string)
    ensures var r := TrimStart(s);
            && |r| <= |s| && r == s[|s| - |r|..]
            && SpaceOutside(s, |s| - |r|, |s|)
            && (r != [] ==> !IsSpace(r[0]))
    decreases |s|
  {
    if |s| > 0 && IsSpace(s[0]) {
      TrimStartSpec(s[1..]);
      var r := TrimStart(s);
      forall k | 0 <= k < |s| - |r|
        ensures IsSpace(s[k])
      {
        if k > 0 {
          assert s[k] == s[1..][k - 1];
        }
      }
    }
  }

  /** Trimming the end removes a whitespace suffix and stops at the last
      other character. */
  lemma {:induction false} TrimEndSpec(s: string)
    ensures var r := TrimEnd(s);
            && |r| <= |s| && r == s[..|r|]
            && SpaceOutside(s, 0, |r|)
            && (r != [] ==> !IsSpace(r[|r| - 1]))
    decreases |s|
  {
    if |s| > 0 && IsSpace(s[|s| - 1]) {
      var s' := s[..|s| - 1];
      TrimEndSpec(s');
      var r := TrimEnd(s);
      assert r == s'[..|r|];
      forall k | |r| <= k < |s|
        ensures IsSpace(s[k])
      {
        if k < |s| - 1 {
          assert s[k] == s'[k];
        }
      }
    }
  }

  /** `r` is `s` stripped: the part of `s` left after removing a whitespace
      prefix and a whitespace suffix, with no whitespace at either end. */
  predicate IsStripOf(s: string, r: string)
  {
    && |r| <= |s|
    && (exists i :: 0 <= i <= |s| && StrippedAt(s, r, i))
    && (r != [] ==> !IsSpace(r[0]) && !IsSpace(r[|r| - 1]))
  }

  /** `r` occurs in `s` at position `i` with only whitespace around it. */
  predicate StrippedAt(s: string, r: string, i: int)
  {
    0 <= i <= |s| - |r| && r == s[i..i + |r|] && SpaceOutside(s, i, i + |r|)
  }

  /** Python's `str.strip()` with no argument. */
  function Strip(s: string): string
  {
    TrimEnd(TrimStart(s))
  }

  /** Stripping meets its specification. */
  lemma StripSpec(s: string)
    ensures IsStripOf(s, Strip(s))
  {
    var t := TrimStart(s);
    TrimStartSpec(s);
    TrimEndSpec(t);
    var r := TrimEnd(t);
    var i := |s| - |t|;
    assert r == s[i..i + |r|] by {
      assert t == s[i..];
    }
    assert StrippedAt(s, r, i) by {
      forall k | 0 <= k < |s| && !(i <= k < i + |r|)
        ensures IsSpace(s[k])
      {
        if k >= i {
          assert s[k] == t[k - i];
        }
      }
    }
  }

  /** Where a stripped string sits inside `s` is fixed by its first and last
      characters. */
  lemma StripPositionUnique(s: string, r: string, i: int, q: string, j: int)
    requires StrippedAt(s, r, i) && StrippedAt(s, q, j)
    requires r != [] ==> !IsSpace(r[0]) && !IsSpace(r[|r| - 1])
    requires q != [] ==> !IsSpace(q[0]) && !IsSpace(q[|q| - 1])
    ensures r == q
  {
  }

  /** There is only one way to strip a string: any `r` meeting `IsStripOf`
      is `Strip(s)`. */
  lemma StripUnique(s: string, r: string)
    requires IsStripOf(s, r)
    ensures r == Strip(s)
  {
    var q := Strip(s);
    StripSpec(s);
    var i :| StrippedAt(s, r, i);
    var j :| StrippedAt(s, q, j);
    StripPositionUnique(s, r, i, q, j);
  }

  /** Stripping twice changes nothing more. */
  lemma StripIdempotent(s: string)
    ensures Strip(Strip(s)) == Strip(s)
  {
    var r := Strip(s);
    StripSpec(s);
    assert StrippedAt(r, r, 0) by {
      assert r == r[0..0 + |r|];
    }
    StripUnique(r, r);
  }

  /** The reply `generate_response` returns for a stream. */
  function Reply(chunks: seq<Chunk>): string
  {
    Strip(Concat(KeptFragments(chunks)))
  }

  /** The generator loop and the final trim: stop at the first `done`
      chunk, join what came before it, strip the join. The reply never
      starts or ends with whitespace. */
  method CollectReply(chunks: seq<Chunk>) returns (reply: string)
    ensures reply == Strip(Concat(KeptFragments(chunks)))
    ensures reply != [] ==> !IsSpace(reply[0]) && !IsSpace(reply[|reply| - 1])
  {
    ghost var total := Concat(KeptFragments(chunks));
    var streamed := "";
    var i := 0;
    assert chunks[0..] == chunks;
    while i < |chunks|
      invariant 0 <= i <= |chunks|
      invariant streamed + Concat(KeptFragments(chunks[i..])) == total
    {
      if chunks[i].done {
        assert KeptFragments(chunks[i..]) == [] by {
          assert chunks[i..][0].done;
        }
        break;
      }
      KeepStep(chunks, i);
      var piece := chunks[i].response;
      ghost var later := Concat(KeptFragments(chunks[i + 1..]));
      assert streamed + (piece + later) == (streamed + piece) + later;
      streamed := streamed + piece;
      i := i + 1;
    }
    assert streamed == total;
    reply := Strip(streamed);
    StripSpec(streamed);
  }

  /** One step of the generator: a chunk that is not `done` contributes its
      response ahead of whatever the rest of the stream contributes. */
  lemma KeepStep(chunks: seq<Chunk>, i: nat)
    requires i < |chunks| && !chunks[i].done
    ensures Concat(KeptFragments(chunks[i..])) == chunks[i].response + Concat(KeptFragments(chunks[i + 1..]))
  {
  }

  /** A `done` chunk cuts the stream: what follows it, and its own text,
      never reach the reply. */
  lemma DoneCutsStream(before: seq<Chunk>, last: string, after: seq<Chunk>)
    requires forall k :: 0 <= k < |before| ==> !before[k].done
    ensures KeptFragments(before + [Chunk(last, true)] + after) == KeptFragments(before)
  {
    var all := before + [Chunk(last, true)] + after;
    var r, q := KeptFragments(all), KeptFragments(before);
    assert |q| == |before|;
    assert all[|before|].done;
    assert |r| == |before|;
  }

  /** Without a `done` chunk, every response is kept. */
  lemma NoDoneKeepsAll(chunks: seq<Chunk>)
    requires forall k :: 0 <= k < |chunks| ==> !chunks[k].done
    ensures KeptFragments(chunks) == seq(|chunks|, k requires 0 <= k < |chunks| => chunks[k].response)
  {
  }

  /** The reply is the joined text with only its outer whitespace removed:
      it occurs in the join as one contiguous piece with nothing but
      whitespace around it, so everything inside it, line breaks included,
      reaches the reply unchanged. */
  lemma ReplyKeepsInnerText(chunks: seq<Chunk>)
    ensures IsStripOf(Concat(KeptFragments(chunks)), Reply(chunks))
  {
    var joined := Concat(KeptFragments(chunks));
    StripSpec(joined);
    assert Reply(chunks) == Strip(joined);
  }
}
