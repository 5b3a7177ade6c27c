/**
  `chunk_text`: the words of the input, grouped into consecutive batches of at most
  `chunk_size` words, each batch joined back with single spaces.
*/
module Chunking {
  import opened Wrappers
  import opened Text

  function Min(a: int, b: int): int {
    if a <= b then a else b
  }

  /** `words[0:k]`, `words[k:2k]`, ...: the batches the loop of `chunk_text` visits. */
  function Batches(ws: seq<string>, k: nat): seq<seq<string>>
    requires k > 0
    decreases |ws|
  {
    if ws == [] then []
    else
      var m := Min(k, |ws|);
      [ws[..m]] + Batches(ws[m..], k)
  }

  /** Each batch has 1 to k words, all but the last exactly k, and together in order they are `ws`. */
  lemma {:induction false} BatchesShape(ws: seq<string>, k: nat)
    requires k > 0
    ensures forall j :: 0 <= j < |Batches(ws, k)| ==> 0 < |Batches(ws, k)[j]| <= k
    ensures forall j :: 0 <= j < |Batches(ws, k)| - 1 ==> |Batches(ws, k)[j]| == k
    ensures Flatten(Batches(ws, k)) == ws
    decreases |ws|
  {
    if ws != [] {
      var m := Min(k, |ws|);
      var bs := Batches(ws, k);
      BatchesShape(ws[m..], k);
      assert bs[1..] == Batches(ws[m..], k);
      assert ws[..m] + ws[m..] == ws;
    }
  }

  /** Each batch joined with single spaces. */
  function JoinEach(bs: seq<seq<string>>): (cs: seq<string>)
    ensures |cs| == |bs|
    ensures forall j :: 0 <= j < |bs| ==> cs[j] == JoinSpaced(bs[j])
  {
    if bs == [] then [] else [JoinSpaced(bs[0])] + JoinEach(bs[1..])
  }

  /** What `chunk_text(text, k)` returns for a positive `k`. */
  function Chunked(text: string, k: nat): seq<string>
    requires k > 0
  {
    JoinEach(Batches(Words(text), k))
  }

  /** `range(0, n, 0)` raises ValueError. */
  datatype ChunkError = ZeroStep

  /**
    `chunk_text(text, chunk_size)`. A zero `chunk_size` raises (the step of `range`
    must not be zero); a negative one makes `range(0, n, chunk_size)` empty.
  */
  method ChunkText(text: string, chunkSize: int) returns (r: Result<seq<string>, ChunkError>)
    ensures chunkSize == 0 ==> r == Failure(ZeroStep)
    ensures chunkSize < 0 ==> r == Success([])
    ensures chunkSize > 0 ==> r == Success(Chunked(text, chunkSize))
  {
    var words := Words(text);
    if chunkSize == 0 {
      return Failure(ZeroStep);
    }
    var chunks: seq<string> := [];
    if chunkSize < 0 {
      return Success(chunks);
    }
    ghost var k: nat := chunkSize;
    ghost var all := JoinEach(Batches(words, k));
    var i := 0;
    assert words[Min(i, |words|)..] == words;
    while i < |words|
      invariant 0 <= i
      invariant chunks + JoinEach(Batches(words[Min(i, |words|)..], k)) == all
    {
      var next := Min(i + chunkSize, |words|);
      var chunk := JoinSpaced(words[i..next]);
      ghost var later := JoinEach(Batches(words[next..], k));
      BatchesFrom(words, i, k);
      assert (chunks + [chunk]) + later == chunks + ([chunk] + later);
      chunks := chunks + [chunk];
      i := i + chunkSize;
      assert Min(i, |words|) == next;
    }
    assert Batches(words[Min(i, |words|)..], k) == [];
    assert chunks + JoinEach([]) == chunks;
    return Success(chunks);
  }

  /** The batches from position `i` on: the one starting at `i`, then those from `i + k` on. */
  lemma BatchesFrom(ws: seq<string>, i: nat, k: nat)
    requires k > 0 && i < |ws|
    ensures JoinEach(Batches(ws[i..], k))
         == [JoinSpaced(ws[i..Min(i + k, |ws|)])] + JoinEach(Batches(ws[Min(i + k, |ws|)..], k))
  {
    var rest := ws[i..];
    var m := Min(k, |rest|);
    assert rest[..m] == ws[i..Min(i + k, |ws|)];
    assert rest[m..] == ws[Min(i + k, |ws|)..];
    assert Batches(rest, k) == [rest[..m]] + Batches(rest[m..], k);
  }

  /** ceil(n / k) batches, and none exactly when there are no words. */
  lemma {:induction false} BatchCount(ws: seq<string>, k: nat)
    requires k > 0
    ensures |Batches(ws, k)| == (|ws| + k - 1) / k
    ensures |Batches(ws, k)| == 0 <==> ws == []
    decreases |ws|
  {
    var n := |ws|;
    if n > k {
      BatchCount(ws[k..], k);
      assert |Batches(ws, k)| == 1 + |Batches(ws[k..], k)|;
      DivStep(n + k - 1, k);
      assert (n + k - 1) - k == |ws[k..]| + k - 1;
    } else if n > 0 {
      DivOne(n + k - 1, k);
    } else {
      DivZero(k - 1, k);
    }
  }

  lemma DivStep(a: nat, k: nat)
    requires k > 0 && a >= k
    ensures a / k == (a - k) / k + 1
  {
    var q, r := (a - k) / k, (a - k) % k;
    assert a - k == q * k + r;
    assert a == (q + 1) * k + r;
    DivUnique(a, k, q + 1, r);
  }

  lemma DivOne(a: nat, k: nat)
    requires k > 0 && k <= a < 2 * k
    ensures a / k == 1
  {
    DivUnique(a, k, 1, a - k);
  }

  lemma DivZero(a: nat, k: nat)
    requires k > 0 && a < k
    ensures a / k == 0
  {
    DivUnique(a, k, 0, a);
  }

  lemma DivUnique(a: nat, k: nat, q: nat, r: nat)
    requires k > 0 && r < k && a == q * k + r
    ensures a / k == q
  {
    var q', r' := a / k, a % k;
    assert a == q' * k + r';
    if q' < q {
      assert q' * k + k <= q * k by { MulMono(q' + 1, q, k); }
    } else if q' > q {
      assert q * k + k <= q' * k by { MulMono(q + 1, q', k); }
    }
  }

  lemma MulMono(x: nat, y: nat, k: nat)
    requires x <= y
    ensures x * k <= y * k
  {
  }

  /** `chunk_text` returns ceil(N / k) chunks for N words, and none for empty or all-whitespace text. */
  lemma ChunkCount(text: string, k: nat)
    requires k > 0
    ensures |Chunked(text, k)| == (|Words(text)| + k - 1) / k
    ensures |Chunked(text, k)| == 0 <==> forall i :: 0 <= i < |text| ==> IsWhitespace(text[i])
  {
    BatchCount(Words(text), k);
    NoWordsIffBlank(text);
  }

  /**
    Chunk `j` is batch `j` joined by single spaces: between one and `k` words, exactly
    `k` unless it is the last, non-empty, with no leading, trailing or doubled separator.
  */
  lemma ChunkShape(text: string, k: nat, j: nat)
    requires k > 0 && j < |Chunked(text, k)|
    ensures Words(Chunked(text, k)[j]) == Batches(Words(text), k)[j]
    ensures 0 < |Words(Chunked(text, k)[j])| <= k
    ensures j < |Chunked(text, k)| - 1 ==> |Words(Chunked(text, k)[j])| == k
    ensures SingleSpaced(Chunked(text, k)[j])
    ensures Chunked(text, k)[j] == Normalise(Chunked(text, k)[j])
  {
    var ws := Words(text);
    var b := Batches(ws, k)[j];
    BatchesShape(ws, k);
    BatchesAreWords(ws, k, j);
    SplitOfJoin(b);
    JoinIsSingleSpaced(b);
  }

  /** Every batch holds words of the input, so it is made of words. */
  lemma {:induction false} BatchesAreWords(ws: seq<string>, k: nat, j: nat)
    requires k > 0 && AllWords(ws) && j < |Batches(ws, k)|
    ensures AllWords(Batches(ws, k)[j])
    decreases |ws|
  {
    var m := Min(k, |ws|);
    if j > 0 {
      BatchesAreWords(ws[m..], k, j - 1);
    }
  }

  /** Splitting the chunks again gives exactly `text.split()`: nothing lost, duplicated or reordered. */
  lemma {:induction false} ChunksKeepWords(text: string, k: nat)
    requires k > 0
    ensures WordsOfEach(Chunked(text, k)) == Words(text)
  {
    BatchesKeepWords(Words(text), k);
  }

  lemma {:induction false} BatchesKeepWords(ws: seq<string>, k: nat)
    requires k > 0 && AllWords(ws)
    ensures WordsOfEach(JoinEach(Batches(ws, k))) == ws
    decreases |ws|
  {
    if ws != [] {
      var m := Min(k, |ws|);
      var cs := JoinEach(Batches(ws, k));
      BatchesHead(ws, k);
      SplitOfJoin(ws[..m]);
      BatchesKeepWords(ws[m..], k);
      calc {
        WordsOfEach(cs);
        Words(cs[0]) + WordsOfEach(cs[1..]);
        ws[..m] + ws[m..];
        { assert ws[..m] + ws[m..] == ws; }
        ws;
      }
    }
  }

  /** The first joined batch, then the rest; both halves of a word list are word lists. */
  lemma BatchesHead(ws: seq<string>, k: nat)
    requires k > 0 && AllWords(ws) && ws != []
    ensures JoinEach(Batches(ws, k))[0] == JoinSpaced(ws[..Min(k, |ws|)])
    ensures JoinEach(Batches(ws, k))[1..] == JoinEach(Batches(ws[Min(k, |ws|)..], k))
    ensures AllWords(ws[..Min(k, |ws|)]) && AllWords(ws[Min(k, |ws|)..])
  {
    var m := Min(k, |ws|);
    assert JoinEach(Batches(ws, k)) == [JoinSpaced(ws[..m])] + JoinEach(Batches(ws[m..], k));
  }

  /** Joining the chunks with single spaces gives `' '.join(text.split())`. */
  lemma ChunksJoin(text: string, k: nat)
    requires k > 0
    ensures JoinSpaced(Chunked(text, k)) == Normalise(text)
  {
    BatchesJoin(Words(text), k);
  }

  lemma {:induction false} BatchesJoin(ws: seq<string>, k: nat)
    requires k > 0
    ensures JoinSpaced(JoinEach(Batches(ws, k))) == JoinSpaced(ws)
    decreases |ws|
  {
    if ws != [] {
      var m := Min(k, |ws|);
      var bs := Batches(ws, k);
      assert bs[1..] == Batches(ws[m..], k);
      if m < |ws| {
        BatchesJoin(ws[m..], k);
        JoinAppend(ws[..m], ws[m..]);
        assert ws[..m] + ws[m..] == ws;
      } else {
        assert ws[..m] == ws;
      }
    }
  }
}
