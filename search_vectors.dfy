/**
 * The placeholder vector search of the full retrieval path: it returns the
 * first `top_k` embedded chunks, whatever the query.
 */
module VectorSearch {
  import opened Sequences

  /** The default `top_k`. */
  const DefaultTopK: int := 3

  /** `search_vectors(query, embedded_chunks, top_k)`: the slice `embedded_chunks[:top_k]`. */
  function SearchVectors<T>(query: string, embeddedChunks: seq<T>, topK: int): (r: seq<T>)
    ensures |r| <= |embeddedChunks| && r == embeddedChunks[..|r|]
    ensures topK >= 0 ==> |r| == if topK <= |embeddedChunks| then topK else |embeddedChunks|
    ensures topK < 0 ==> |r| == if -topK <= |embeddedChunks| then |embeddedChunks| + topK else 0
  {
    Take(embeddedChunks, topK)
  }

  /** The query plays no part in the result. */
  lemma SearchIgnoresQuery<T>(q1: string, q2: string, embeddedChunks: seq<T>, topK: int)
    ensures SearchVectors(q1, embeddedChunks, topK) == SearchVectors(q2, embeddedChunks, topK)
  {
  }

  /** With the default `top_k` at most three chunks come back, and all three when there are that many. */
  lemma SearchDefaultAtMostThree<T>(query: string, embeddedChunks: seq<T>)
    ensures |SearchVectors(query, embeddedChunks, DefaultTopK)| <= 3
    ensures |embeddedChunks| >= 3 ==> SearchVectors(query, embeddedChunks, DefaultTopK) == embeddedChunks[..3]
  {
  }
}
