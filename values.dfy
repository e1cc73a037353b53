/** Records as the server sends them and the caches store them, and the object operations
    the reducers apply to cached records. */
module Values {
  import opened IdLists
  import opened Api

  /** A JSON-like value. JavaScript numbers are modelled as integers. */
  datatype Value =
    | Undefined
    | Null
    | Bool(b: bool)
    | Num(n: int)
    | Str(s: string)
    | Arr(items: seq<Value>)
    | Obj(fields: map<string, Value>)

  /** A cached post or comment: its `_id` and every other field of the server's object
      (`content`, `image`, `author`, `reactions`, ...). */
  datatype Doc = Doc(id: Id, fields: map<string, Value>)

  /** `docs.map(d => d._id)`. */
  function Ids(docs: seq<Doc>): (r: seq<Id>)
    ensures |r| == |docs|
    ensures forall k :: 0 <= k < |docs| ==> r[k] == docs[k].id
  {
    seq(|docs|, k requires 0 <= k < |docs| => docs[k].id)
  }

  lemma IdsTail(docs: seq<Doc>)
    requires docs != []
    ensures Ids(docs) == [docs[0].id] + Ids(docs[1..])
  {
    assert Ids(docs)[1..] == Ids(docs[1..]);
  }

  /** `docs.forEach(d => byId[d._id] = d)`: later documents overwrite earlier ones. */
  function StoreDocs(byId: map<Id, Doc>, docs: seq<Doc>): map<Id, Doc>
    decreases |docs|
  {
    if docs == [] then byId
    else StoreDocs(byId[docs[0].id := docs[0]], docs[1..])
  }

  /** After storing, the keys are the old keys plus every fetched id. */
  lemma {:induction false} StoreDocsKeys(byId: map<Id, Doc>, docs: seq<Doc>)
    ensures forall k :: k in StoreDocs(byId, docs) <==> k in byId || k in Ids(docs)
    decreases |docs|
  {
    if docs != [] {
      StoreDocsKeys(byId[docs[0].id := docs[0]], docs[1..]);
      IdsTail(docs);
    }
  }

  /** Every cached entry that was not fetched is untouched. */
  lemma {:induction false} StoreDocsKeepsOthers(byId: map<Id, Doc>, docs: seq<Doc>)
    ensures forall k :: k in byId && k !in Ids(docs) ==>
              k in StoreDocs(byId, docs) && StoreDocs(byId, docs)[k] == byId[k]
    decreases |docs|
  {
    if docs != [] {
      StoreDocsKeys(byId[docs[0].id := docs[0]], docs[1..]);
      StoreDocsKeepsOthers(byId[docs[0].id := docs[0]], docs[1..]);
      IdsTail(docs);
    }
  }

  /** A fetched id holds the last fetched document carrying it. */
  lemma {:induction false} StoreDocsLastWins(byId: map<Id, Doc>, docs: seq<Doc>, i: nat)
    requires i < |docs|
    requires forall j :: i < j < |docs| ==> docs[j].id != docs[i].id
    ensures docs[i].id in StoreDocs(byId, docs)
    ensures StoreDocs(byId, docs)[docs[i].id] == docs[i]
    decreases |docs|
  {
    var next := byId[docs[0].id := docs[0]];
    if i > 0 {
      assert docs[1..][i - 1] == docs[i];
      forall j | i - 1 < j < |docs[1..]| ensures docs[1..][j].id != docs[i].id {
        assert docs[1..][j] == docs[j + 1];
      }
      StoreDocsLastWins(next, docs[1..], i - 1);
    } else {
      StoreDocsKeys(next, docs[1..]);
      StoreDocsKeepsOthers(next, docs[1..]);
      forall k | 0 <= k < |docs[1..]| ensures Ids(docs[1..])[k] != docs[0].id {
        assert docs[1..][k] == docs[k + 1];
      }
    }
  }

  /** `record.reactions = reactions`: only the `reactions` field changes. */
  function SetReactions(d: Doc, reactions: Value): (r: Doc)
    ensures r.id == d.id
    ensures "reactions" in r.fields && r.fields["reactions"] == reactions
    ensures forall f :: f != "reactions" ==> (f in r.fields <==> f in d.fields)
    ensures forall f :: f in d.fields && f != "reactions" ==> r.fields[f] == d.fields[f]
  {
    d.(fields := d.fields["reactions" := reactions])
  }

  /** `{...cached, ...updated}`: the result carries the updated id; a field of `updated` wins,
      every other field of the cached record is kept. Spreading `undefined` (no cached record)
      contributes no field. */
  function ShallowMerge(cached: Option<Doc>, updated: Doc): (r: Doc)
    ensures r.id == updated.id
    ensures forall f :: f in updated.fields ==> f in r.fields && r.fields[f] == updated.fields[f]
    ensures cached.Some? ==> forall f :: f in cached.value.fields && f !in updated.fields ==>
              f in r.fields && r.fields[f] == cached.value.fields[f]
    ensures forall f :: f in r.fields ==> f in updated.fields || (cached.Some? && f in cached.value.fields)
  {
    var base := if cached.Some? then cached.value.fields else map[];
    Doc(updated.id, base + updated.fields)
  }

  /** `byId[id]`, or nothing for an id that is not cached. */
  function Lookup(byId: map<Id, Doc>, id: Id): (r: Option<Doc>)
    ensures r.Some? <==> id in byId
    ensures r.Some? ==> r.value == byId[id]
  {
    if id in byId then Some(byId[id]) else None
  }
}
