/**
 * The list bookkeeping the CRUD screens do after a successful response:
 * merge the response into the element with the matching id (`Array.map` with a
 * spread), append it, or drop the elements with the matching id (`Array.filter`).
 */
module ListUpdates {
  import opened Js
  import opened Seqs

  /** `x[key] === id` */
  predicate Matches(x: Record, key: string, id: Value)
  {
    StrictEquals(Get(x, key), id)
  }

  /** `list.map(x => x[key] === id ? { ...x, ...patch } : x)` */
  function MergeWhere(list: seq<Record>, key: string, id: Value, patch: Record): (r: seq<Record>)
    ensures |r| == |list|
    ensures forall i :: 0 <= i < |list| && !Matches(list[i], key, id) ==> r[i] == list[i]
    ensures forall i :: 0 <= i < |list| && Matches(list[i], key, id) ==>
              r[i].Keys == list[i].Keys + patch.Keys
    ensures forall i, k :: 0 <= i < |list| && Matches(list[i], key, id) ==>
              Get(r[i], k) == if k in patch then patch[k] else Get(list[i], k)
  {
    seq(|list|, i requires 0 <= i < |list| =>
      if Matches(list[i], key, id) then Spread(list[i], patch) else list[i])
  }

  /** `list.filter(x => x[key] !== id)` */
  function RemoveWhere(list: seq<Record>, key: string, id: Value): (r: seq<Record>)
    ensures forall x :: x in r ==> x in list && !Matches(x, key, id)
    ensures forall i :: 0 <= i < |list| && !Matches(list[i], key, id) ==> list[i] in r
    ensures IsSubsequence(r, list)
    ensures forall x :: multiset(r)[x] == if Matches(x, key, id) then 0 else multiset(list)[x]
  {
    var keep := (x: Record) => !Matches(x, key, id);
    FilterIsSubsequence(list, keep);
    FilterCounts(list, keep);
    Filter(list, keep)
  }

  /** After a successful submit: merge into the matching elements when editing,
      append when creating. */
  function Submitted(list: seq<Record>, isEditMode: bool, key: string, id: Value, patch: Record): (r: seq<Record>)
    ensures isEditMode ==> r == MergeWhere(list, key, id, patch)
    ensures !isEditMode ==> |r| == |list| + 1 && r[..|list|] == list && r[|list|] == patch
  {
    if isEditMode then MergeWhere(list, key, id, patch) else list + [patch]
  }

  /** Removing when nothing matches changes nothing. */
  lemma RemoveNoMatch(list: seq<Record>, key: string, id: Value)
    requires forall i :: 0 <= i < |list| ==> !Matches(list[i], key, id)
    ensures RemoveWhere(list, key, id) == list
  {
    FilterAllPass(list, (x: Record) => !Matches(x, key, id));
  }

  /** Removing twice is removing once. */
  lemma RemoveIdempotent(list: seq<Record>, key: string, id: Value)
    ensures RemoveWhere(RemoveWhere(list, key, id), key, id) == RemoveWhere(list, key, id)
  {
    var r := RemoveWhere(list, key, id);
    assert forall i :: 0 <= i < |r| ==> r[i] in r;
    RemoveNoMatch(r, key, id);
  }

  /** Merging when nothing matches changes nothing. */
  lemma MergeNoMatch(list: seq<Record>, key: string, id: Value, patch: Record)
    requires forall i :: 0 <= i < |list| ==> !Matches(list[i], key, id)
    ensures MergeWhere(list, key, id, patch) == list
  {
  }

  /** Merging the same response twice is merging it once. */
  lemma MergeIdempotent(list: seq<Record>, key: string, id: Value, patch: Record)
    ensures MergeWhere(MergeWhere(list, key, id, patch), key, id, patch) == MergeWhere(list, key, id, patch)
  {
    var once := MergeWhere(list, key, id, patch);
    var twice := MergeWhere(once, key, id, patch);
    forall i | 0 <= i < |list| ensures twice[i] == once[i] {
      if Matches(list[i], key, id) {
        assert once[i] + patch == once[i];
      }
    }
  }
}
