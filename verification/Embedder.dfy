/** The embedder that sends texts to a remote model in batches. */
module Embedder {
  import opened IngestStores

  const BATCH: nat := 96

  function Concat<T>(parts: seq<seq<T>>): seq<T> {
    if parts == [] then [] else parts[0] + Concat(parts[1..])
  }

  function MapSeq<A, B>(f: A -> B, s: seq<A>): seq<B> {
    seq(|s|, i requires 0 <= i < |s| => f(s[i]))
  }

  function Chunks(texts: seq<string>): seq<seq<string>> {
    if |texts| <= BATCH then (if texts == [] then [] else [texts])
    else [texts[..BATCH]] + Chunks(texts[BATCH..])
  }

  /** The requests cover the texts in order, none empty and none above the model's limit. */
  lemma {:induction false} ChunksCover(texts: seq<string>)
    ensures Concat(Chunks(texts)) == texts
    ensures forall i :: 0 <= i < |Chunks(texts)| ==> 1 <= |Chunks(texts)[i]| <= BATCH
  {
    if |texts| > BATCH {
      ChunksCover(texts[BATCH..]);
      assert texts == texts[..BATCH] + texts[BATCH..];
    } else if texts != [] {
      assert [texts][1..] == [];
    }
  }

  lemma {:induction false} MapConcat<A, B>(f: A -> B, parts: seq<seq<A>>)
    ensures MapSeq(f, Concat(parts)) == Concat(MapSeq((s: seq<A>) => MapSeq(f, s), parts))
  {
    if parts != [] {
      var g := (s: seq<A>) => MapSeq(f, s);
      MapConcat(f, parts[1..]);
      assert MapSeq(g, parts)[1..] == MapSeq(g, parts[1..]);
    }
  }

  /** The model answers a batch with the embedding of each text, in order. */
  ghost predicate Pointwise(client: seq<string> -> seq<Embedding>, embed: string -> Embedding) {
    forall batch: seq<string> :: 1 <= |batch| <= BATCH ==> client(batch) == MapSeq(embed, batch)
  }

  class CohereEmbedder {
    const client: seq<string> -> seq<Embedding>

    constructor (client: seq<string> -> seq<Embedding>)
      ensures this.client == client
    {
      this.client := client;
    }

    /** The answers to the batches, joined; with a model that answers batches pointwise, the
        embedding of each text in the order of the texts. */
    method Embed(texts: seq<string>) returns (out: seq<Embedding>)
      ensures out == Concat(MapSeq(client, Chunks(texts)))
      ensures forall embed: string -> Embedding :: Pointwise(client, embed) ==> out == MapSeq(embed, texts)
    {
      out := [];
      var i := 0;
      while i < |texts|
        invariant 0 <= i
        invariant out + Rest(client, texts, i) == Rest(client, texts, 0)
      {
        var end := if i + BATCH <= |texts| then i + BATCH else |texts|;
        NextChunk(client, texts, i, end);
        Regroup(out, client(texts[i..end]), Rest(client, texts, i + BATCH));
        out := out + client(texts[i..end]);
        i := i + BATCH;
      }
      assert texts[0..] == texts;
      forall embed: string -> Embedding | Pointwise(client, embed) ensures out == MapSeq(embed, texts) {
        PointwiseBatches(client, embed, texts);
      }
    }
  }

  /** The answers to the batches from position `i` on. */
  function Rest(client: seq<string> -> seq<Embedding>, texts: seq<string>, i: nat): seq<Embedding> {
    if i <= |texts| then Concat(MapSeq(client, Chunks(texts[i..]))) else []
  }

  lemma Regroup<T>(a: seq<T>, b: seq<T>, c: seq<T>)
    ensures a + (b + c) == (a + b) + c
  {}

  lemma NextChunk(client: seq<string> -> seq<Embedding>, texts: seq<string>, i: nat, end: nat)
    requires i < |texts| && end == if i + BATCH <= |texts| then i + BATCH else |texts|
    ensures Rest(client, texts, i) == client(texts[i..end]) + Rest(client, texts, i + BATCH)
  {
    var rest := texts[i..];
    if |rest| <= BATCH {
      assert texts[i..end] == rest;
      assert Chunks(rest) == [rest];
      assert MapSeq(client, [rest]) == [client(rest)];
      assert [client(rest)][1..] == [];
      assert Concat(MapSeq(client, Chunks(rest))) == client(rest);
      if i + BATCH == |texts| {
        assert texts[i + BATCH..] == [];
        assert MapSeq(client, Chunks(texts[i + BATCH..])) == [];
      }
      assert Rest(client, texts, i + BATCH) == [];
    } else {
      assert rest[..BATCH] == texts[i..end] && rest[BATCH..] == texts[i + BATCH..];
      var chunks := Chunks(rest);
      assert chunks == [texts[i..end]] + Chunks(texts[i + BATCH..]);
      assert MapSeq(client, chunks)[1..] == MapSeq(client, Chunks(texts[i + BATCH..]));
    }
  }

  lemma PointwiseBatches(client: seq<string> -> seq<Embedding>, embed: string -> Embedding, texts: seq<string>)
    requires Pointwise(client, embed)
    ensures Concat(MapSeq(client, Chunks(texts))) == MapSeq(embed, texts)
  {
    ChunksCover(texts);
    MapConcat(embed, Chunks(texts));
    var g := (s: seq<string>) => MapSeq(embed, s);
    assert MapSeq(client, Chunks(texts)) == MapSeq(g, Chunks(texts));
  }
}
