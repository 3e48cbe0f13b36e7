/** The chunk record shared by both chunkers: a dictionary with `source` and `text`. */
module Chunks {
  import opened Text

  datatype Chunk = Chunk(source: string, text: string)

  /** The `text` of every chunk, in order (`[chunk["text"] for chunk in chunks]`). */
  function Texts(chunks: seq<Chunk>): (r: seq<string>)
    ensures |r| == |chunks|
    ensures forall k :: 0 <= k < |chunks| ==> r[k] == chunks[k].text
  {
    seq(|chunks|, k requires 0 <= k < |chunks| => chunks[k].text)
  }

  lemma TextsAppend(a: seq<Chunk>, b: seq<Chunk>)
    ensures Texts(a + b) == Texts(a) + Texts(b)
  {
  }
}
