/**
 * The paragraph chunker used when the corpus is (re)loaded into the index:
 * a Markdown file's content is split at blank lines, each piece is stripped,
 * and pieces of 20 characters or fewer are dropped as noise. The file read
 * is replaced by the `content` argument.
 */
module ParagraphChunker {
  import opened Text
  import opened Chunks
  import opened Sequences

  /** The piece separator: a blank line. */
  const Separator: string := "\n\n"

  /** Stripped pieces of this length or shorter are dropped. */
  const MinLength: nat := 20

  predicate Keeps(piece: string)
  {
    |Strip(piece)| > MinLength
  }

  /** The record `chunk_markdown` makes of a kept piece. */
  function Record(filePath: string, piece: string): Chunk
  {
    Chunk(filePath, Strip(piece))
  }

  /**
   * The records kept from `pieces`, in order: each is a stripped piece
   * longer than the minimum, without whitespace at either end, tagged with
   * the file path.
   */
  function KeptRecords(filePath: string, pieces: seq<string>): (r: seq<Chunk>)
    ensures |r| <= |pieces|
    ensures forall j :: 0 <= j < |r| ==>
      r[j].source == filePath && |r[j].text| > MinLength && IsStripped(r[j].text)
  {
    var r := FilterMap(pieces, Keeps, (i, p) => Record(filePath, p));
    FilterMapPositions(pieces, Keeps, (i, p) => Record(filePath, p));
    r
  }

  /**
   * The kept records are the stripped pieces at the kept positions, in the
   * order of the pieces, each tagged with the file path.
   */
  lemma KeptRecordsArePositions(filePath: string, pieces: seq<string>)
    ensures |KeptRecords(filePath, pieces)| == |Positions(pieces, Keeps)|
    ensures forall j :: 0 <= j < |Positions(pieces, Keeps)| ==>
      KeptRecords(filePath, pieces)[j] == Chunk(filePath, Strip(pieces[Positions(pieces, Keeps)[j]]))
  {
    FilterMapPositions(pieces, Keeps, (i, p) => Record(filePath, p));
  }

  /** The candidate pieces join back, with the separator, into the content. */
  lemma PiecesRejoin(content: string)
    ensures Join(Separator, Split(content, Separator)) == content
  {
    JoinSplit(content, Separator);
  }

  /** `chunk_markdown(file_path)` with the file's content passed in. */
  method ChunkMarkdown(filePath: string, content: string) returns (chunkData: seq<Chunk>)
    ensures chunkData == KeptRecords(filePath, Split(content, Separator))
  {
    var chunks := Split(content, Separator);
    chunkData := [];
    var idx := 0;
    while idx < |chunks|
      invariant 0 <= idx <= |chunks|
      invariant chunkData == FilterMap(chunks[..idx], Keeps, (i, p) => Record(filePath, p))
    {
      var chunk := chunks[idx];
      FilterMapStep(chunks, Keeps, (i, p) => Record(filePath, p), idx);
      if |Strip(chunk)| > 20 {
        chunkData := chunkData + [Chunk(filePath, Strip(chunk))];
      }
      idx := idx + 1;
    }
    assert chunks[..idx] == chunks;
  }
}
