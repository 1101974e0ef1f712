/**
  Reciprocal rank fusion (`memory/store.py`, search_memories): two ranked lists of documents are
  merged by the sum of 1 / (60 + rank). The ids are visited in the order of a Python set, so that
  order is arbitrary; the sort is stable.
*/
module Fusion {
  import opened Sorting
  import opened Wrappers

  const K: nat := 60

  // ---------- Fusion ----------

  // The dictionary {id: rank + 1}; a later entry for the same id would overwrite an earlier one.
  function Rank(list: seq<Id>, id: Id): (r: nat)
    ensures r <= |list| && (r == 0 <==> id !in list) && (r > 0 ==> list[r - 1] == id)
  {
    if list == [] then 0
    else if list[|list| - 1] == id then |list|
    else Rank(list[..|list| - 1], id)
  }

  function Share(rank: nat): real {
    if rank == 0 then 0.0 else 1.0 / (K + rank) as real
  }

  function Score(vector: seq<Id>, keyword: seq<Id>, id: Id): real {
    Share(Rank(vector, id)) + Share(Rank(keyword, id))
  }

  function Fused(vector: seq<Id>, keyword: seq<Id>, order: seq<Id>): seq<Id> {
    SortDesc(order, ScoreOf(vector, keyword))
  }

  function ScoreOf(vector: seq<Id>, keyword: seq<Id>): Id -> real {
    id => Score(vector, keyword, id)
  }

  /** The ids that search_memories returns; `order` is the iteration order of the set of all hits. */
  function Fuse(vector: seq<Id>, keyword: seq<Id>, order: seq<Id>, topK: nat): seq<Id> {
    Take(Fused(vector, keyword, order), topK)
  }

  // The vector candidates: rows with an embedding that are similar enough, most similar first.
  function Similar(rows: seq<Id>, similarity: Id -> Option<real>, minSimilarity: real): seq<Id> {
    if rows == [] then []
    else
      var last := rows[|rows| - 1];
      Similar(rows[..|rows| - 1], similarity, minSimilarity)
      + (if similarity(last).Some? && similarity(last).value >= minSimilarity then [last] else [])
  }

  function VectorTop(rows: seq<Id>, similarity: Id -> Option<real>, minSimilarity: real, topK: nat): seq<Id> {
    Take(SortDesc(Similar(rows, similarity, minSimilarity), Similarity(similarity)), 2 * topK)
  }

  // Some iteration order of the set of all hits.
  ghost predicate Enumerates(order: seq<Id>, vector: seq<Id>, keyword: seq<Id>) {
    Distinct(order) && forall id :: id in order <==> id in vector || id in keyword
  }

  function Similarity(similarity: Id -> Option<real>): Id -> real {
    id => if similarity(id).Some? then similarity(id).value else 0.0
  }

  method SearchVectors(rows: seq<Id>, similarity: Id -> Option<real>, minSimilarity: real, topK: nat)
    returns (vectorTop: seq<Id>)
    ensures vectorTop == VectorTop(rows, similarity, minSimilarity, topK)
  {
    var vectorResults: seq<Id> := [];
    var i := 0;
    while i < |rows|
      invariant 0 <= i <= |rows| && vectorResults == Similar(rows[..i], similarity, minSimilarity)
    {
      assert rows[..i + 1][..i] == rows[..i];
      if similarity(rows[i]).Some? && similarity(rows[i]).value >= minSimilarity {
        vectorResults := vectorResults + [rows[i]];
      }
      i := i + 1;
    }
    assert rows[..i] == rows;
    vectorTop := Take(SortDesc(vectorResults, Similarity(similarity)), 2 * topK);
  }

  method FuseHits(vectorTop: seq<Id>, keywordTop: seq<Id>, order: seq<Id>, topK: nat) returns (results: seq<Id>)
    ensures results == Fuse(vectorTop, keywordTop, order, topK)
  {
    var scores: map<Id, real> := map[];
    var fused: seq<Id> := [];
    var i := 0;
    while i < |order|
      invariant 0 <= i <= |order| && fused == order[..i]
      invariant forall j | 0 <= j < i ::
        order[j] in scores && scores[order[j]] == Score(vectorTop, keywordTop, order[j])
    {
      var score := 0.0;
      if order[i] in vectorTop {
        score := score + 1.0 / (K + Rank(vectorTop, order[i])) as real;
      }
      if order[i] in keywordTop {
        score := score + 1.0 / (K + Rank(keywordTop, order[i])) as real;
      }
      scores := scores[order[i] := score];
      fused := fused + [order[i]];
      i := i + 1;
    }
    var key := id => if id in scores then scores[id] else 0.0;
    SameKeys(order, key, ScoreOf(vectorTop, keywordTop));
    results := Take(SortDesc(order, key), topK);
  }

  /** A failing keyword search counts as one without hits. */
  method SearchMemories(rows: seq<Id>, similarity: Id -> Option<real>, minSimilarity: real,
                        keywordRows: Option<seq<Id>>, order: seq<Id>, topK: nat)
    returns (results: seq<Id>)
    ensures results == Fuse(VectorTop(rows, similarity, minSimilarity, topK),
                            if keywordRows.Some? then keywordRows.value else [], order, topK)
  {
    var vectorTop := SearchVectors(rows, similarity, minSimilarity, topK);
    var keywordTop := if keywordRows.Some? then keywordRows.value else [];
    results := FuseHits(vectorTop, keywordTop, order, topK);
  }
}
