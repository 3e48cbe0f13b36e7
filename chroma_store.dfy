/**
 * The vector index as the core uses it: a collection of records keyed by
 * id, filled by `store_chunks` without ever overwriting a record, and the
 * confidence filter `query_chunks` applies to the rows a similarity query
 * returns. Chroma's own storage and similarity search are not modelled:
 * the collection is a map from id to document and metadata, and a query's
 * answer is an input.
 */
module ChromaStore {
  import opened Text
  import opened Outcomes
  import opened Chunks
  import opened Sequences

  /** A match whose distance is at most this is confident (distance is the inverse of confidence). */
  const ConfidenceThreshold: real := 0.75

  /** The corpus whose chunks are stored; also the first tag of every record. */
  const CorpusTag: string := "pro-analytics-01"

  /** The number of results `query_chunks` asks for by default. */
  const DefaultTopK: int := 3

  datatype Metadata = Metadata(source: string, tags: string)

  datatype Record = Record(document: string, metadata: Metadata)

  /** The chunk field a tag test looks at, lower-cased. */
  datatype Field = InSource | InText

  /** A tag and the substrings any one of which earns it. */
  datatype TagRule = TagRule(tag: string, field: Field, patterns: seq<string>)

  /** The tag tests of `store_chunks`, in the order they append. */
  const TagRules: seq<TagRule> := [
    TagRule("Machine Setup", InSource, ["machine-setup"]),
    TagRule("Project Initialization", InSource, ["project-initialization"]),
    TagRule("Repeatable Workflow", InSource, ["repeatable-workflow"]),
    TagRule("Setup Task", InText, ["setup"]),
    TagRule("Initialization Task", InText, ["initialize"]),
    TagRule("Workflow Task", InText, ["workflow"]),
    TagRule("CheatSheet", InText, ["cheatsheet"]),
    TagRule("Git Command", InText, ["git "]),
    TagRule("Pip Command", InText, ["pip "]),
    TagRule("Python Command", InText, ["python ", "py "]),
    TagRule("Audio Guide", InText, ["audio guides"]),
    TagRule("Explore Section", InText, ["explore"])
  ]

  predicate RuleHolds(rule: TagRule, chunk: Chunk)
  {
    var field := Lower(if rule.field == InSource then chunk.source else chunk.text);
    exists p | p in rule.patterns :: Contains(field, p)
  }

  /** The tag test of each rule, for one chunk. */
  function HoldsFor(chunk: Chunk): TagRule -> bool
  {
    (rule: TagRule) => RuleHolds(rule, chunk)
  }

  function TagOf(k: nat, rule: TagRule): string
  {
    rule.tag
  }

  /** The tags a chunk earns from `rules`, in rule order. */
  function EarnedTags(rules: seq<TagRule>, chunk: Chunk): (r: seq<string>)
    ensures |r| <= |rules|
  {
    FilterMap(rules, HoldsFor(chunk), TagOf)
  }

  /** The tag list a rule list gives a chunk: the corpus tag, then each earned tag in rule order. */
  function TagList(rules: seq<TagRule>, chunk: Chunk): seq<string>
  {
    [CorpusTag] + EarnedTags(rules, chunk)
  }

  /** The tag list of a chunk under the tag tests of `store_chunks`. */
  function Tags(chunk: Chunk): (r: seq<string>)
    ensures 1 <= |r| <= 1 + |TagRules| && r[0] == CorpusTag
  {
    TagList(TagRules, chunk)
  }

  predicate DistinctTags(rules: seq<TagRule>)
  {
    forall i, j :: 0 <= i < j < |rules| ==> rules[i].tag != rules[j].tag
  }

  lemma TagNamesDistinct()
    ensures DistinctTags(TagRules)
    ensures forall i :: 0 <= i < |TagRules| ==> TagRules[i].tag != CorpusTag
  {
    forall i, j | 0 <= i < j < |TagRules|
      ensures TagRules[i].tag != TagRules[j].tag
    {
      var a, b := TagRules[i].tag, TagRules[j].tag;
      assert |a| != |b| || a[0] != b[0];
    }
  }

  /** With distinct tag names, a rule's tag is earned exactly when the rule holds. */
  lemma EarnedTagIff(rules: seq<TagRule>, chunk: Chunk, k: nat)
    requires DistinctTags(rules) && k < |rules|
    ensures rules[k].tag in EarnedTags(rules, chunk) <==> RuleHolds(rules[k], chunk)
  {
    var keep := HoldsFor(chunk);
    var earned := EarnedTags(rules, chunk);
    var pos := Positions(rules, keep);
    FilterMapPositions(rules, keep, TagOf);
    if RuleHolds(rules[k], chunk) {
      assert k in pos;
      var j :| 0 <= j < |pos| && pos[j] == k;
      assert earned[j] == rules[k].tag;
    } else {
      forall j | 0 <= j < |earned|
        ensures earned[j] != rules[k].tag
      {
        assert earned[j] == rules[pos[j]].tag && pos[j] != k;
      }
    }
  }

  /** After the corpus tag come the tags of the rules that hold, in rule order. */
  lemma TagsInRuleOrder(rules: seq<TagRule>, chunk: Chunk)
    ensures |TagList(rules, chunk)| == 1 + |Positions(rules, HoldsFor(chunk))|
    ensures TagList(rules, chunk)[0] == CorpusTag
    ensures forall j :: 0 <= j < |Positions(rules, HoldsFor(chunk))| ==>
      TagList(rules, chunk)[1 + j] == rules[Positions(rules, HoldsFor(chunk))[j]].tag
  {
    FilterMapPositions(rules, HoldsFor(chunk), TagOf);
  }

  /** A tag is in a chunk's list exactly when its test holds. */
  lemma TagPresentIff(chunk: Chunk, k: nat)
    requires k < |TagRules|
    ensures TagRules[k].tag in Tags(chunk) <==> RuleHolds(TagRules[k], chunk)
  {
    TagNamesDistinct();
    EarnedTagIff(TagRules, chunk, k);
  }

  /** The id of the chunk at position `i` of the input: `f"{i}-{source}"`. */
  function Id(i: nat, source: string): string
  {
    NatToString(i) + "-" + source
  }

  /** Different positions give different ids, whatever the sources. */
  lemma IdInjective(i: nat, s: string, j: nat, t: string)
    requires Id(i, s) == Id(j, t)
    ensures i == j && s == t
  {
    var a, b := NatToString(i), NatToString(j);
    DigitsThenDash(a, s, b, t);
    ParseNatToString(i);
    ParseNatToString(j);
  }

  /** A digit string followed by `-` can be cut back apart: the digits cannot contain the dash. */
  lemma DigitsThenDash(a: string, s: string, b: string, t: string)
    requires IsDigits(a) && IsDigits(b) && a + "-" + s == b + "-" + t
    ensures a == b && s == t
  {
    var x := a + "-" + s;
    assert x == b + "-" + t;
    assert x[|a|] == '-' && x[|b|] == '-';
    assert forall k :: 0 <= k < |a| ==> x[k] == a[k] != '-';
    assert forall k :: 0 <= k < |b| ==> x[k] == b[k] != '-';
    assert |a| == |b|;
    assert a == x[..|a|] == b;
    assert s == x[|a| + 1..] == t;
  }

  /** A record to be stored, with its id. */
  datatype Candidate = Candidate(id: string, record: Record)

  /** `store_chunks` keeps a chunk only when its lower-cased source names the corpus. */
  predicate FromCorpus(chunk: Chunk)
  {
    Contains(Lower(chunk.source), CorpusTag)
  }

  function CandidateOf(i: nat, chunk: Chunk): Candidate
  {
    Candidate(Id(i, chunk.source), Record(chunk.text, Metadata(chunk.source, Join(", ", Tags(chunk)))))
  }

  /** The records `store_chunks` prepares, in input order, before looking at the collection. */
  function Candidates(chunks: seq<Chunk>): seq<Candidate>
  {
    FilterMap(chunks, FromCorpus, CandidateOf)
  }

  /** The test of the second loop: the id is not yet in the collection. */
  function Unseen(existing: set<string>): Candidate -> bool
  {
    (c: Candidate) => c.id !in existing
  }

  function Itself(k: nat, c: Candidate): Candidate
  {
    c
  }

  /** Candidates whose id is not among `existing`, in order. */
  function NewCandidates(cs: seq<Candidate>, existing: set<string>): seq<Candidate>
  {
    FilterMap(cs, Unseen(existing), Itself)
  }

  /** The ids of a list of candidates. */
  function IdsOf(cs: seq<Candidate>): set<string>
    decreases |cs|
  {
    if |cs| == 0 then {} else IdsOf(cs[..|cs| - 1]) + {cs[|cs| - 1].id}
  }

  predicate DistinctIds(cs: seq<Candidate>)
  {
    forall a, b :: 0 <= a < b < |cs| ==> cs[a].id != cs[b].id
  }

  /** The collection after adding `cs` one after the other. */
  function Inserted(m: map<string, Record>, cs: seq<Candidate>): map<string, Record>
    decreases |cs|
  {
    if |cs| == 0 then m
    else
      var n := |cs| - 1;
      Inserted(m, cs[..n])[cs[n].id := cs[n].record]
  }

  /** The collection `store_chunks(chunks)` leaves behind when it starts from `m`. */
  function Stored(m: map<string, Record>, chunks: seq<Chunk>): map<string, Record>
  {
    Inserted(m, NewCandidates(Candidates(chunks), m.Keys))
  }

  /**
   * A chunk becomes a candidate exactly when its source names the corpus;
   * candidate `j` is built from the chunk at position `Positions(...)[j]`
   * of the whole input, so its id carries that position.
   */
  lemma CandidatesFromCorpus(chunks: seq<Chunk>)
    ensures |Candidates(chunks)| == |Positions(chunks, FromCorpus)|
    ensures forall i :: 0 <= i < |chunks| ==> (i in Positions(chunks, FromCorpus) <==> FromCorpus(chunks[i]))
    ensures forall j :: 0 <= j < |Candidates(chunks)| ==>
      Candidates(chunks)[j] == CandidateOf(Positions(chunks, FromCorpus)[j], chunks[Positions(chunks, FromCorpus)[j]])
  {
    FilterMapPositions(chunks, FromCorpus, CandidateOf);
  }

  /** The ids prepared in one call are pairwise distinct. */
  lemma CandidateIdsDistinct(chunks: seq<Chunk>)
    ensures DistinctIds(Candidates(chunks))
  {
    var cs := Candidates(chunks);
    var pos := Positions(chunks, FromCorpus);
    CandidatesFromCorpus(chunks);
    forall a, b | 0 <= a < b < |cs|
      ensures cs[a].id != cs[b].id
    {
      if cs[a].id == cs[b].id {
        IdInjective(pos[a], chunks[pos[a]].source, pos[b], chunks[pos[b]].source);
      }
    }
  }

  /** An id is in `IdsOf(cs)` exactly when some candidate carries it. */
  lemma {:induction false} IdsOfMembers(cs: seq<Candidate>)
    ensures forall j :: 0 <= j < |cs| ==> cs[j].id in IdsOf(cs)
    ensures forall x :: x in IdsOf(cs) ==> exists j :: 0 <= j < |cs| && cs[j].id == x
    decreases |cs|
  {
    if |cs| > 0 {
      var n := |cs| - 1;
      IdsOfMembers(cs[..n]);
      assert forall j :: 0 <= j < n ==> cs[..n][j] == cs[j];
    }
  }

  /** Distinct ids: as many ids as candidates. */
  lemma {:induction false} DistinctIdsCount(cs: seq<Candidate>)
    requires DistinctIds(cs)
    ensures |IdsOf(cs)| == |cs|
    decreases |cs|
  {
    if |cs| > 0 {
      var n := |cs| - 1;
      var prefix := cs[..n];
      assert forall j :: 0 <= j < n ==> prefix[j] == cs[j];
      DistinctIdsCount(prefix);
      IdsOfMembers(prefix);
      assert cs[n].id !in IdsOf(prefix);
    }
  }

  /** New candidate `j` is the candidate at the `j`-th position whose id is not in `existing`. */
  lemma NewCandidatesAt(cs: seq<Candidate>, existing: set<string>)
    ensures |NewCandidates(cs, existing)| == |Positions(cs, Unseen(existing))|
    ensures forall j :: 0 <= j < |NewCandidates(cs, existing)| ==>
      NewCandidates(cs, existing)[j] == cs[Positions(cs, Unseen(existing))[j]]
    ensures forall k :: 0 <= k < |cs| ==> (k in Positions(cs, Unseen(existing)) <==> cs[k].id !in existing)
  {
    FilterMapPositions(cs, Unseen(existing), Itself);
  }

  /**
   * The new candidates are the candidates with an id outside `existing`:
   * each of them is one of the candidates, their ids are still distinct,
   * and together they carry exactly the ids not yet present.
   */
  lemma NewCandidatesFacts(cs: seq<Candidate>, existing: set<string>)
    requires DistinctIds(cs)
    ensures DistinctIds(NewCandidates(cs, existing))
    ensures forall j :: 0 <= j < |NewCandidates(cs, existing)| ==> NewCandidates(cs, existing)[j].id !in existing
    ensures forall j :: 0 <= j < |NewCandidates(cs, existing)| ==> NewCandidates(cs, existing)[j] in cs
    ensures IdsOf(NewCandidates(cs, existing)) == IdsOf(cs) - existing
  {
    var unseen := NewCandidates(cs, existing);
    var pos := Positions(cs, Unseen(existing));
    NewCandidatesAt(cs, existing);
    forall j | 0 <= j < |unseen|
      ensures unseen[j].id !in existing && unseen[j] in cs
    {
      assert pos[j] in pos;
    }
    NewIdsExact(cs, existing, unseen, pos);
  }

  lemma NewIdsExact(cs: seq<Candidate>, existing: set<string>, unseen: seq<Candidate>, pos: seq<nat>)
    requires |unseen| == |pos|
    requires forall j :: 0 <= j < |pos| ==> pos[j] < |cs| && unseen[j] == cs[pos[j]]
    requires forall j :: 0 <= j < |unseen| ==> unseen[j].id !in existing
    requires forall k :: 0 <= k < |cs| ==> (k in pos <==> cs[k].id !in existing)
    ensures IdsOf(unseen) == IdsOf(cs) - existing
  {
    IdsOfMembers(cs);
    IdsOfMembers(unseen);
    forall x | x in IdsOf(cs) - existing
      ensures x in IdsOf(unseen)
    {
      var k :| 0 <= k < |cs| && cs[k].id == x;
      var j :| 0 <= j < |pos| && pos[j] == k;
      assert unseen[j].id == x;
    }
    forall x | x in IdsOf(unseen)
      ensures x in IdsOf(cs) - existing
    {
      var j :| 0 <= j < |unseen| && unseen[j].id == x;
      assert cs[pos[j]].id == x;
    }
  }

  /** Adding distinct unseen ids adds exactly those keys and changes no existing record. */
  lemma {:induction false} InsertedFacts(m: map<string, Record>, cs: seq<Candidate>)
    requires DistinctIds(cs)
    requires forall j :: 0 <= j < |cs| ==> cs[j].id !in m
    ensures Inserted(m, cs).Keys == m.Keys + IdsOf(cs)
    ensures forall k :: k in m ==> k in Inserted(m, cs) && Inserted(m, cs)[k] == m[k]
    ensures forall j :: 0 <= j < |cs| ==> cs[j].id in Inserted(m, cs) && Inserted(m, cs)[cs[j].id] == cs[j].record
    decreases |cs|
  {
    if |cs| > 0 {
      var n := |cs| - 1;
      var prefix := cs[..n];
      assert forall j :: 0 <= j < n ==> prefix[j] == cs[j];
      InsertedFacts(m, prefix);
      var before := Inserted(m, prefix);
      var last := cs[n];
      assert Inserted(m, cs) == before[last.id := last.record];
      assert IdsOf(cs) == IdsOf(prefix) + {last.id};
      forall j | 0 <= j < |cs|
        ensures cs[j].id in Inserted(m, cs) && Inserted(m, cs)[cs[j].id] == cs[j].record
      {
        if j < n {
          assert cs[j].id != last.id && cs[j].id in before;
        }
      }
    }
  }

  /** Adding distinct unseen ids grows the collection by their number. */
  lemma InsertedCount(m: map<string, Record>, cs: seq<Candidate>)
    requires DistinctIds(cs)
    requires forall j :: 0 <= j < |cs| ==> cs[j].id !in m
    ensures |Inserted(m, cs)| == |m| + |cs|
  {
    InsertedFacts(m, cs);
    DistinctIdsCount(cs);
    IdsOfMembers(cs);
    forall x | x in IdsOf(cs)
      ensures x !in m
    {
      var j :| 0 <= j < |cs| && cs[j].id == x;
    }
    KeysCount(Inserted(m, cs), m, IdsOf(cs));
  }

  lemma KeysCount<K, V>(r: map<K, V>, m: map<K, V>, extra: set<K>)
    requires r.Keys == m.Keys + extra && m.Keys !! extra
    ensures |r| == |m| + |extra|
  {
    assert |r.Keys| == |r|;
    assert |m.Keys| == |m|;
  }

  /**
   * After `store_chunks`, every prepared id is in the collection, no record
   * that was there has changed, and the count grew by the number of
   * prepared ids that were not there.
   */
  lemma StoredFacts(m: map<string, Record>, chunks: seq<Chunk>)
    ensures Stored(m, chunks).Keys == m.Keys + IdsOf(Candidates(chunks))
    ensures forall k :: k in m ==> k in Stored(m, chunks) && Stored(m, chunks)[k] == m[k]
    ensures |Stored(m, chunks)| == |m| + |IdsOf(Candidates(chunks)) - m.Keys|
  {
    var cs := Candidates(chunks);
    var unseen := NewCandidates(cs, m.Keys);
    CandidateIdsDistinct(chunks);
    NewCandidatesFacts(cs, m.Keys);
    StoredKeys(m, cs, unseen);
    StoredCount(m, cs, unseen);
  }

  lemma StoredKeys(m: map<string, Record>, cs: seq<Candidate>, unseen: seq<Candidate>)
    requires DistinctIds(unseen) && forall j :: 0 <= j < |unseen| ==> unseen[j].id !in m
    requires IdsOf(unseen) == IdsOf(cs) - m.Keys
    ensures Inserted(m, unseen).Keys == m.Keys + IdsOf(cs)
    ensures forall k :: k in m ==> k in Inserted(m, unseen) && Inserted(m, unseen)[k] == m[k]
  {
    InsertedFacts(m, unseen);
  }

  lemma StoredCount(m: map<string, Record>, cs: seq<Candidate>, unseen: seq<Candidate>)
    requires DistinctIds(unseen) && forall j :: 0 <= j < |unseen| ==> unseen[j].id !in m
    requires IdsOf(unseen) == IdsOf(cs) - m.Keys
    ensures |Inserted(m, unseen)| == |m| + |IdsOf(cs) - m.Keys|
  {
    InsertedCount(m, unseen);
    DistinctIdsCount(unseen);
  }

  /** Each prepared record whose id was not stored before is stored under its id. */
  lemma StoredNewRecords(m: map<string, Record>, chunks: seq<Chunk>, j: nat)
    requires j < |Candidates(chunks)| && Candidates(chunks)[j].id !in m
    ensures Candidates(chunks)[j].id in Stored(m, chunks)
    ensures Stored(m, chunks)[Candidates(chunks)[j].id] == Candidates(chunks)[j].record
  {
    var cs := Candidates(chunks);
    var unseen := NewCandidates(cs, m.Keys);
    var pos := Positions(cs, Unseen(m.Keys));
    CandidateIdsDistinct(chunks);
    NewCandidatesFacts(cs, m.Keys);
    NewCandidatesAt(cs, m.Keys);
    assert j in pos;
    var i :| 0 <= i < |pos| && pos[i] == j;
    assert unseen[i] == cs[j];
    InsertedFacts(m, unseen);
  }

  /** Storing the same chunks a second time changes nothing. */
  lemma StoreIdempotent(m: map<string, Record>, chunks: seq<Chunk>)
    ensures Stored(Stored(m, chunks), chunks) == Stored(m, chunks)
  {
    var once := Stored(m, chunks);
    var cs := Candidates(chunks);
    StoredFacts(m, chunks);
    IdsOfMembers(cs);
    FilterMapNone(cs, Unseen(once.Keys), Itself);
  }

  /** The collection: records by id (`get_or_create_collection(name="project-docs")`). */
  class Collection {
    var records: map<string, Record>

    /** A collection with nothing stored yet. */
    constructor ()
      ensures records == map[]
    {
      records := map[];
    }

    /** `collection.count()`. */
    function Count(): nat
      reads this
    {
      |records|
    }

    /** `collection.add(...)`, which the core only calls with new, distinct ids. */
    method Add(batch: seq<Candidate>)
      requires DistinctIds(batch)
      requires forall j :: 0 <= j < |batch| ==> batch[j].id !in records
      modifies this
      ensures records == Inserted(old(records), batch)
      ensures Count() == old(Count()) + |batch|
    {
      InsertedCount(records, batch);
      records := Inserted(records, batch);
    }

    /**
     * `store_chunks(chunks)`: prepare a record for every corpus chunk, then
     * add those whose id is not yet stored. No stored record changes.
     */
    method StoreChunks(chunks: seq<Chunk>)
      modifies this
      ensures records == Stored(old(records), chunks)
      ensures records.Keys == old(records).Keys + IdsOf(Candidates(chunks))
      ensures forall k :: k in old(records) ==> k in records && records[k] == old(records)[k]
      ensures Count() == old(Count()) + |IdsOf(Candidates(chunks)) - old(records).Keys|
    {
      var candidates: seq<Candidate> := [];
      var i := 0;
      while i < |chunks|
        invariant 0 <= i <= |chunks|
        invariant candidates == FilterMap(chunks[..i], FromCorpus, CandidateOf)
        invariant records == old(records)
      {
        FilterMapStep(chunks, FromCorpus, CandidateOf, i);
        var chunk := chunks[i];
        if Contains(Lower(chunk.source), CorpusTag) {
          var metadata := Metadata(chunk.source, Join(", ", Tags(chunk)));
          candidates := candidates + [Candidate(Id(i, chunk.source), Record(chunk.text, metadata))];
        }
        i := i + 1;
      }
      assert chunks[..i] == chunks;
      assert candidates == Candidates(chunks);

      var existingIds := records.Keys;
      var unseen: seq<Candidate> := [];
      var j := 0;
      while j < |candidates|
        invariant 0 <= j <= |candidates|
        invariant unseen == NewCandidates(candidates[..j], existingIds)
        invariant records == old(records)
      {
        FilterMapStep(candidates, Unseen(existingIds), Itself, j);
        if candidates[j].id !in existingIds {
          unseen := unseen + [candidates[j]];
        }
        j := j + 1;
      }
      assert candidates[..j] == candidates;
      assert unseen == NewCandidates(Candidates(chunks), records.Keys);
      assert records == old(records);

      StoredFacts(records, chunks);
      if |unseen| > 0 {
        CandidateIdsDistinct(chunks);
        NewCandidatesFacts(candidates, existingIds);
        Add(unseen);
      }
    }
  }

  /**
   * What `collection.query(query_texts=[text], n_results=top_k)` returns:
   * one list of documents, metadatas and (when present) distances per
   * query text, best match first.
   */
  datatype QueryResult = QueryResult(
    documents: seq<seq<string>>,
    metadatas: seq<seq<Metadata>>,
    distances: seq<Option<seq<real>>>)

  /** One step of `zip(documents, metadatas, distances)`; the metadata only feeds the log. */
  datatype Row = Row(documents: seq<string>, distances: Option<seq<real>>)

  function Min3(a: nat, b: nat, c: nat): nat
  {
    if a <= b && a <= c then a else if b <= c then b else c
  }

  /** The rows of a query answer; `zip` stops at the shortest list. */
  function Rows(results: QueryResult): (r: seq<Row>)
    ensures |r| <= |results.documents| && |r| <= |results.metadatas| && |r| <= |results.distances|
    ensures |r| == |results.documents| || |r| == |results.metadatas| || |r| == |results.distances|
    ensures forall k :: 0 <= k < |r| ==> r[k].documents == results.documents[k] && r[k].distances == results.distances[k]
  {
    var n := Min3(|results.documents|, |results.metadatas|, |results.distances|);
    seq(n, k requires 0 <= k < n => Row(results.documents[k], results.distances[k]))
  }

  /** A row is a confident match: its distance list is non-empty and starts at or below `threshold`. */
  predicate Confident(row: Row, threshold: real)
  {
    row.distances.Some? && |row.distances.value| > 0 && row.distances.value[0] <= threshold
  }

  function ConfidentAt(threshold: real): Row -> bool
  {
    (row: Row) => Confident(row, threshold)
  }

  /** `doc[0]` for a confident row; an empty row never gets here without raising. */
  function FirstDocument(k: nat, row: Row): string
  {
    if |row.documents| > 0 then row.documents[0] else ""
  }

  /** A confident row with no document: `doc[0]` raises `IndexError`. */
  predicate MissingDocument(row: Row, threshold: real)
  {
    Confident(row, threshold) && |row.documents| == 0
  }

  /** The result of the confidence filter over `rows`. */
  function ConfidentDocuments(rows: seq<Row>, threshold: real): (r: Result<seq<string>>)
    ensures r.Ok? ==> |r.value| <= |rows|
  {
    if exists k | 0 <= k < |rows| :: MissingDocument(rows[k], threshold) then Err(IndexOutOfRange)
    else Ok(FilterMap(rows, ConfidentAt(threshold), FirstDocument))
  }

  /**
   * The filter fails exactly when a confident row has no document;
   * otherwise it returns, in row order, the first document of exactly the
   * confident rows, a distance equal to the threshold included, and skips
   * rows whose distance list is empty or missing.
   */
  lemma ConfidentDocumentsSpec(rows: seq<Row>, threshold: real)
    ensures ConfidentDocuments(rows, threshold).Err? <==>
      exists k :: 0 <= k < |rows| && Confident(rows[k], threshold) && |rows[k].documents| == 0
    ensures ConfidentDocuments(rows, threshold).Ok? ==>
      var docs, pos := ConfidentDocuments(rows, threshold).value, Positions(rows, ConfidentAt(threshold));
      && |docs| == |pos|
      && (forall k :: 0 <= k < |rows| ==> (k in pos <==>
            rows[k].distances.Some? && |rows[k].distances.value| > 0 && rows[k].distances.value[0] <= threshold))
      && (forall j :: 0 <= j < |pos| ==> |rows[pos[j]].documents| > 0 && docs[j] == rows[pos[j]].documents[0])
  {
    var pos := Positions(rows, ConfidentAt(threshold));
    FilterMapPositions(rows, ConfidentAt(threshold), FirstDocument);
    if ConfidentDocuments(rows, threshold).Ok? {
      forall j | 0 <= j < |pos|
        ensures |rows[pos[j]].documents| > 0
      {
        assert pos[j] in pos;
        assert !MissingDocument(rows[pos[j]], threshold);
      }
    }
  }

  /** A higher threshold accepts every row a lower one does, so it never returns fewer documents. */
  lemma ThresholdMonotone(rows: seq<Row>, low: real, high: real)
    requires low <= high
    ensures ConfidentDocuments(rows, low).Err? ==> ConfidentDocuments(rows, high).Err?
    ensures ConfidentDocuments(rows, low).Ok? && ConfidentDocuments(rows, high).Ok? ==>
      |ConfidentDocuments(rows, low).value| <= |ConfidentDocuments(rows, high).value|
  {
    if ConfidentDocuments(rows, low).Err? {
      var k :| 0 <= k < |rows| && MissingDocument(rows[k], low);
      assert MissingDocument(rows[k], high);
    }
    FilterMapMonotone(rows, ConfidentAt(low), ConfidentAt(high), FirstDocument);
  }

  /**
   * The collection's matches for one query text, best first: their
   * documents, their metadatas and, when present, their distances.
   */
  datatype Matches = Matches(documents: seq<string>, metadatas: seq<Metadata>, distances: Option<seq<real>>)

  /** The similarity search of the collection, for one query text and a result count. */
  type Search = (string, int) -> Matches

  /**
   * The answer to `collection.query(query_texts=[text], ...)`: a single
   * query text gets a single entry in each list.
   */
  function SingleQuery(m: Matches): QueryResult
  {
    QueryResult([m.documents], [m.metadatas], [m.distances])
  }

  /** The one row `query_chunks` looks at: the best match's document list and distances. */
  function BestRow(m: Matches): Row
  {
    Row(m.documents, m.distances)
  }

  /**
   * What `query_chunks(user_input, top_k)` returns for the collection's
   * answer `search`: since one query text is sent, at most one document,
   * whatever `top_k` is.
   */
  function Retrieve(search: Search, userInput: string, topK: int): (r: Result<seq<string>>)
    ensures r.Ok? ==> |r.value| <= 1
  {
    ConfidentDocuments(Rows(SingleQuery(search(userInput, topK))), ConfidenceThreshold)
  }

  /**
   * Retrieval looks only at the best match: it raises when that match is
   * confident but carries no document, returns its first document when it
   * is confident, and returns nothing otherwise.
   */
  lemma RetrieveBestMatch(search: Search, userInput: string, topK: int)
    ensures var row := BestRow(search(userInput, topK));
      && (Retrieve(search, userInput, topK).Err? <==> Confident(row, ConfidenceThreshold) && |row.documents| == 0)
      && (Retrieve(search, userInput, topK).Ok? && Confident(row, ConfidenceThreshold) ==>
            |row.documents| > 0 && Retrieve(search, userInput, topK).value == [row.documents[0]])
      && (!Confident(row, ConfidenceThreshold) ==> Retrieve(search, userInput, topK) == Ok([]))
  {
    var row := BestRow(search(userInput, topK));
    var rows := Rows(SingleQuery(search(userInput, topK)));
    assert rows == [row];
    assert rows[..0] == [];
    ConfidentDocumentsSpec(rows, ConfidenceThreshold);
  }

  /**
   * `query_chunks(user_input, top_k)`: ask the collection, then keep the
   * first document of each confident row.
   */
  method QueryChunks(search: Search, userInput: string, topK: int) returns (r: Result<seq<string>>)
    ensures r == Retrieve(search, userInput, topK)
  {
    var results := SingleQuery(search(userInput, topK));
    var rows := Rows(results);
    var highConfidence: seq<string> := [];
    var k := 0;
    while k < |rows|
      invariant 0 <= k <= |rows|
      invariant forall i :: 0 <= i < k ==> !MissingDocument(rows[i], ConfidenceThreshold)
      invariant highConfidence == FilterMap(rows[..k], ConfidentAt(ConfidenceThreshold), FirstDocument)
    {
      FilterMapStep(rows, ConfidentAt(ConfidenceThreshold), FirstDocument, k);
      var row := rows[k];
      if row.distances.Some? && |row.distances.value| > 0 {
        var actualDistance := row.distances.value[0];
        if actualDistance <= ConfidenceThreshold {
          if |row.documents| == 0 {
            return Err(IndexOutOfRange);
          }
          highConfidence := highConfidence + [row.documents[0]];
        }
      }
      k := k + 1;
    }
    assert rows[..k] == rows;
    return Ok(highConfidence);
  }
}
