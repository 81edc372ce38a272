/** Batching a list of messages into groups, and filling one batch from goroutines that finish in any
    order. */
module BatchSpec {
  import opened Common
  import opened TrackSpec

  // A message stands for what json.Marshal makes of it.
  datatype Encoded = Encoded(bytes: Payload) | Unencodable(err: Error)

  predicate AllEncode(batch: seq<Encoded>) {
    forall i :: 0 <= i < |batch| ==> batch[i].Encoded?
  }

  function Bytes(batch: seq<Encoded>): (r: seq<Payload>)
    requires AllEncode(batch)
    ensures |r| == |batch|
  {
    seq(|batch|, i requires 0 <= i < |batch| => batch[i].bytes)
  }

  // ---- completion orders ----

  // Every goroutine of a batch finishes once.
  ghost predicate IsOrder(order: seq<nat>, n: nat) {
    && |order| == n
    && (forall i :: 0 <= i < n ==> order[i] < n)
    && (forall i, j :: 0 <= i < j < n ==> order[i] != order[j])
  }

  function Elements(order: seq<nat>): set<nat> { set x | x in order }

  lemma {:induction false} DistinctSize(order: seq<nat>)
    requires forall i, j :: 0 <= i < j < |order| ==> order[i] != order[j]
    ensures |Elements(order)| == |order|
  {
    if order != [] {
      var n := |order| - 1;
      DistinctSize(order[..n]);
      assert order == order[..n] + [order[n]];
      assert Elements(order) == Elements(order[..n]) + {order[n]};
    }
  }

  /** An order of n goroutines visits every index below n. */
  lemma OrderCovers(order: seq<nat>, n: nat, k: nat)
    requires IsOrder(order, n) && k < n
    ensures k in order
  {
    DistinctSize(order);
    SubsetSize(Elements(order), Below(n));
    assert k in Below(n);
  }

  // ---- chunks ----

  function Chunks<T>(s: seq<T>, size: nat): (r: seq<seq<T>>)
    requires size >= 1
    decreases |s|
  {
    if s == [] then [] else if |s| <= size then [s] else [s[..size]] + Chunks(s[size..], size)
  }

  function Flatten<T>(ss: seq<seq<T>>): seq<T> {
    if ss == [] then [] else ss[0] + Flatten(ss[1..])
  }

  function Least(a: int, b: int): int { if a < b then a else b }

  // The index of BatchPublish's loop after k rounds.
  function IndexAfter(size: int, k: nat): int {
    if k == 0 then 0 else IndexAfter(size, k - 1) + size
  }

  lemma {:induction false} IndexGrows(size: nat, k: nat)
    ensures IndexAfter(size, k) >= (if k > 0 then size else 0)
    ensures size >= 1 ==> IndexAfter(size, k) >= k
  {
    if k > 0 {
      IndexGrows(size, k - 1);
    }
  }

  lemma {:induction false} IndexStays(size: int, k: nat)
    requires size <= 0
    ensures IndexAfter(size, k) <= 0
  {
    if k > 0 {
      IndexStays(size, k - 1);
    }
  }

  /** The loop leaves a non-empty list behind at some round exactly when the batch size is positive. */
  lemma {:induction false} ProgressIff(size: int, n: nat)
    requires n > 0
    ensures (exists k: nat :: IndexAfter(size, k) >= n) <==> size >= 1
  {
    if size >= 1 {
      IndexGrows(size, n);
      assert IndexAfter(size, n) >= n;
    } else {
      forall k: nat ensures IndexAfter(size, k) <= 0 {
        IndexStays(size, k);
      }
    }
  }

  lemma {:induction false} ChunkAt<T>(s: seq<T>, size: nat, j: nat)
    requires size >= 1
    ensures var cs, i := Chunks(s, size), IndexAfter(size, j);
      && i >= 0 && (j < |cs| <==> i < |s|)
      && (j < |cs| ==> cs[j] == s[i..Least(i + size, |s|)])
    decreases |s|
  {
    IndexGrows(size, j);
    if |s| > size && j > 0 {
      ChunkAt(s[size..], size, j - 1);
      if j < |Chunks(s, size)| {
        assert Chunks(s, size)[j] == Chunks(s[size..], size)[j - 1];
      }
    }
  }

  lemma {:induction false} ChunksFlatten<T>(s: seq<T>, size: nat)
    requires size >= 1
    ensures Flatten(Chunks(s, size)) == s
    decreases |s|
  {
    if s != [] && |s| > size {
      ChunksFlatten(s[size..], size);
      assert Chunks(s, size)[1..] == Chunks(s[size..], size);
    } else if s != [] {
      assert Flatten([s]) == s + Flatten<T>([]);
    }
  }

  lemma OneMoreTimes(k: int, size: nat)
    ensures (k + 1) * size == k * size + size && (k - 1) * size == k * size - size
  {
  }

  lemma {:induction false} ChunksCount<T>(s: seq<T>, size: nat)
    requires size >= 1
    ensures var k := |Chunks(s, size)|;
      k * size >= |s| && (s != [] ==> k > 0 && (k - 1) * size < |s|)
    decreases |s|
  {
    if s != [] && |s| > size {
      ChunksCount(s[size..], size);
      var k: nat := |Chunks(s[size..], size)|;
      assert |Chunks(s, size)| == k + 1;
      OneMoreTimes(k, size);
      assert (k + 1 - 1) * size == k * size;
    } else if s != [] {
      OneMoreTimes(0, size);
    }
  }

  lemma {:induction false} ChunksFull<T>(s: seq<T>, size: nat, j: nat)
    requires size >= 1 && j < |Chunks(s, size)|
    ensures var cs := Chunks(s, size); 1 <= |cs[j]| <= size && (j < |cs| - 1 ==> |cs[j]| == size)
    decreases |s|
  {
    if |s| > size && j > 0 {
      ChunksFull(s[size..], size, j - 1);
      assert Chunks(s, size)[j] == Chunks(s[size..], size)[j - 1];
    }
  }

  /** The chunks concatenate to the list; none is empty and all but the last are full; there are
      ceil(n/size) of them. */
  lemma {:induction false} ChunksCover<T>(s: seq<T>, size: nat)
    requires size >= 1
    ensures var cs := Chunks(s, size);
      && Flatten(cs) == s
      && (forall j :: 0 <= j < |cs| ==> 1 <= |cs[j]| <= size && (j < |cs| - 1 ==> |cs[j]| == size))
      && |cs| * size >= |s| && (s != [] ==> (|cs| - 1) * size < |s|)
  {
    ChunksFlatten(s, size);
    ChunksCount(s, size);
    forall j | 0 <= j < |Chunks(s, size)|
      ensures var cs := Chunks(s, size); 1 <= |cs[j]| <= size && (j < |cs| - 1 ==> |cs[j]| == size)
    {
      ChunksFull(s, size, j);
    }
  }

  // ---- what the two ways of publishing write ----

  function PlaceChunks(g: nat, chunks: seq<seq<Payload>>): seq<Placed> {
    if chunks == [] then []
    else PlaceChunks(g, chunks[..|chunks| - 1]) + PlaceAll((g + |chunks| - 1) % GROUP_IDS, chunks[|chunks| - 1])
  }

  lemma PlaceSnoc(g: nat, chunks: seq<seq<Payload>>, chunk: seq<Payload>)
    ensures PlaceChunks(g, chunks + [chunk]) == PlaceChunks(g, chunks) + PlaceAll((g + |chunks|) % GROUP_IDS, chunk)
  {
    assert (chunks + [chunk])[..|chunks|] == chunks;
  }

  // The entry is object o of chunk j.
  predicate IsObject(e: Placed, g: nat, chunks: seq<seq<Payload>>, j: nat) {
    && j < |chunks| && e.group == (g + j) % GROUP_IDS
    && e.obj < |chunks[j]| && e.payload == chunks[j][e.obj]
  }

  /** Each entry is an object of one chunk, under that chunk's group and numbered within it. */
  lemma {:induction false} PlacedInGroups(g: nat, chunks: seq<seq<Payload>>, i: nat)
    requires i < |PlaceChunks(g, chunks)|
    ensures exists j :: IsObject(PlaceChunks(g, chunks)[i], g, chunks, j)
  {
    var n := |chunks| - 1;
    var front := PlaceChunks(g, chunks[..n]);
    if i < |front| {
      PlacedInGroups(g, chunks[..n], i);
      var j :| IsObject(front[i], g, chunks[..n], j);
      assert IsObject(PlaceChunks(g, chunks)[i], g, chunks, j);
    } else {
      assert IsObject(PlaceChunks(g, chunks)[i], g, chunks, n);
    }
  }

  function Payloads(log: seq<Placed>): (r: seq<Payload>)
    ensures |r| == |log|
  {
    seq(|log|, i requires 0 <= i < |log| => log[i].payload)
  }

  lemma {:induction false} PayloadsOfChunks(g: nat, chunks: seq<seq<Payload>>)
    ensures Payloads(PlaceChunks(g, chunks)) == Flatten(chunks)
  {
    if chunks != [] {
      var n := |chunks| - 1;
      PayloadsOfChunks(g, chunks[..n]);
      FlattenSnoc(chunks[..n], chunks[n]);
      assert chunks == chunks[..n] + [chunks[n]];
      assert Payloads(PlaceAll((g + n) % GROUP_IDS, chunks[n])) == chunks[n];
    }
  }

  lemma {:induction false} FlattenSnoc<T>(ss: seq<seq<T>>, s: seq<T>)
    ensures Flatten(ss + [s]) == Flatten(ss) + s
  {
    if ss == [] {
      assert Flatten([s]) == s + Flatten<T>([]);
    } else {
      assert (ss + [s])[1..] == ss[1..] + [s];
      FlattenSnoc(ss[1..], s);
    }
  }

  /** Batching refines streaming: the payloads of the batch groups, in order, are the objects that
      PublishStream writes as one group, and those are the encoded messages. */
  lemma BatchesRefineStream(g: nat, messages: seq<Encoded>, size: nat)
    requires size >= 1 && AllEncode(messages)
    ensures Payloads(PlaceChunks(g, Chunks(Bytes(messages), size))) == Payloads(PlaceAll(g, Bytes(messages))) == Bytes(messages)
    ensures var n, k := |messages|, |Chunks(Bytes(messages), size)|;
      k * size >= n && (n > 0 ==> (k - 1) * size < n)
  {
    PayloadsOfChunks(g, Chunks(Bytes(messages), size));
    ChunksCover(Bytes(messages), size);
  }

  ghost predicate AllBatchesEncode(cs: seq<seq<Encoded>>) {
    forall j :: 0 <= j < |cs| ==> AllEncode(cs[j])
  }

  ghost function ByteChunks(cs: seq<seq<Encoded>>): (r: seq<seq<Payload>>)
    requires AllBatchesEncode(cs)
    ensures |r| == |cs|
  {
    seq(|cs|, j requires 0 <= j < |cs| => Bytes(cs[j]))
  }

  /** The batches all encode exactly when the messages do. */
  lemma {:induction false} BatchesEncodeIff(messages: seq<Encoded>, size: nat)
    requires size >= 1
    ensures AllBatchesEncode(Chunks(messages, size)) <==> AllEncode(messages)
    decreases |messages|
  {
    if messages != [] && |messages| > size {
      var cs, first, rest := Chunks(messages, size), messages[..size], messages[size..];
      BatchesEncodeIff(rest, size);
      assert cs == [first] + Chunks(rest, size);
      assert AllBatchesEncode(cs) <==> AllEncode(cs[0]) && AllBatchesEncode(cs[1..]);
      assert messages == first + rest;
      assert AllEncode(messages) <==> AllEncode(first) && AllEncode(rest);
    } else if messages != [] {
      assert Chunks(messages, size)[0] == messages;
    }
  }

  /** Encoding batch by batch gives the batches of the encoded list. */
  lemma {:induction false} BatchesOfBytes(messages: seq<Encoded>, size: nat)
    requires size >= 1 && AllEncode(messages)
    ensures AllBatchesEncode(Chunks(messages, size))
    ensures ByteChunks(Chunks(messages, size)) == Chunks(Bytes(messages), size)
    decreases |messages|
  {
    BatchesEncodeIff(messages, size);
    if messages != [] && |messages| > size {
      var first, rest := messages[..size], messages[size..];
      BatchesOfBytes(rest, size);
      assert Bytes(messages)[size..] == Bytes(rest) && Bytes(messages)[..size] == Bytes(first);
      ByteChunksCons(first, Chunks(rest, size));
    } else if messages != [] {
      assert ByteChunks([messages]) == [Bytes(messages)];
    }
  }

  lemma ByteChunksCons(first: seq<Encoded>, cs: seq<seq<Encoded>>)
    requires AllEncode(first) && AllBatchesEncode(cs)
    ensures AllBatchesEncode([first] + cs) && ByteChunks([first] + cs) == [Bytes(first)] + ByteChunks(cs)
  {
  }

  /** What a successful BatchPublish places is, object by object, the encoded messages. */
  lemma PlacedBatchesAreMessages(g: nat, messages: seq<Encoded>, size: nat)
    requires size >= 1 && AllEncode(messages)
    ensures AllBatchesEncode(Chunks(messages, size))
    ensures Payloads(PlaceChunks(g, ByteChunks(Chunks(messages, size)))) == Bytes(messages)
  {
    BatchesOfBytes(messages, size);
    BatchesRefineStream(g, messages, size);
  }
}
