/**
 * The document store the application talks to, reduced to what it uses: named
 * collections of documents, each document an id and a record. A collection is kept
 * in the store's natural query order, ascending by document id, which is the order
 * queries without `order_by` return (and so the order `limit(1)` picks from).
 */
module DocStore {
  import opened Values

  datatype Doc = Doc(id: string, fields: Record)

  /** No two documents of one collection share an id. */
  ghost predicate UniqueIds(docs: seq<Doc>) {
    forall i, j :: 0 <= i < j < |docs| ==> docs[i].id != docs[j].id
  }

  /** Ids compare as strings: character by character, a proper prefix first. */
  predicate IdLess(a: string, b: string) {
    if b == [] then false
    else if a == [] then true
    else if a[0] != b[0] then a[0] < b[0]
    else IdLess(a[1..], b[1..])
  }

  lemma {:induction false} IdLessIrreflexive(a: string)
    ensures !IdLess(a, a)
  {
    if a != [] {
      IdLessIrreflexive(a[1..]);
    }
  }

  lemma {:induction false} IdLessTotal(a: string, b: string)
    requires a != b
    ensures IdLess(a, b) || IdLess(b, a)
  {
    if a != [] && b != [] && a[0] == b[0] {
      assert a == [a[0]] + a[1..] && b == [b[0]] + b[1..];
      IdLessTotal(a[1..], b[1..]);
    }
  }

  lemma {:induction false} IdLessTransitive(a: string, b: string, c: string)
    requires IdLess(a, b) && IdLess(b, c)
    ensures IdLess(a, c)
  {
    if a != [] && a[0] == b[0] && b[0] == c[0] {
      IdLessTransitive(a[1..], b[1..], c[1..]);
    }
  }

  /** The documents are in ascending id order, which also makes their ids distinct. */
  ghost predicate SortedIds(docs: seq<Doc>) {
    forall i, j :: 0 <= i < j < |docs| ==> IdLess(docs[i].id, docs[j].id)
  }

  lemma SortedIdsUnique(docs: seq<Doc>)
    requires SortedIds(docs)
    ensures UniqueIds(docs)
  {
    forall i, j | 0 <= i < j < |docs| ensures docs[i].id != docs[j].id {
      IdLessIrreflexive(docs[i].id);
    }
  }

  /** A new document placed before the first document with a larger id. */
  function InsertById(docs: seq<Doc>, d: Doc): (r: seq<Doc>)
    ensures |r| == |docs| + 1
    ensures multiset(r) == multiset(docs) + multiset{d}
  {
    if docs == [] then [d]
    else if IdLess(d.id, docs[0].id) then [d] + docs
    else
      assert docs == [docs[0]] + docs[1..];
      [docs[0]] + InsertById(docs[1..], d)
  }

  /** Every document's id is above `id`. */
  ghost predicate AllAbove(id: string, docs: seq<Doc>) {
    forall j :: 0 <= j < |docs| ==> IdLess(id, docs[j].id)
  }

  lemma SortedCons(d: Doc, docs: seq<Doc>)
    requires AllAbove(d.id, docs) && SortedIds(docs)
    ensures SortedIds([d] + docs)
  {
    var r := [d] + docs;
    forall i, j | 0 <= i < j < |r| ensures IdLess(r[i].id, r[j].id) {
      if i > 0 {
        assert r[i] == docs[i - 1] && r[j] == docs[j - 1];
      } else {
        assert r[j] == docs[j - 1];
      }
    }
  }

  lemma {:induction false} InsertByIdSorted(docs: seq<Doc>, d: Doc)
    requires SortedIds(docs) && !HasId(docs, d.id)
    ensures SortedIds(InsertById(docs, d))
  {
    if docs == [] {
    } else if IdLess(d.id, docs[0].id) {
      forall j | 0 <= j < |docs| ensures IdLess(d.id, docs[j].id) {
        if j > 0 {
          IdLessTransitive(d.id, docs[0].id, docs[j].id);
        }
      }
      SortedCons(d, docs);
    } else {
      assert docs[0].id != d.id;
      IdLessTotal(docs[0].id, d.id);
      var rest := docs[1..];
      assert !HasId(rest, d.id);
      assert SortedIds(rest);
      InsertByIdSorted(rest, d);
      var tail := InsertById(rest, d);
      forall j | 0 <= j < |tail| ensures IdLess(docs[0].id, tail[j].id) {
        assert tail[j] in multiset(rest) + multiset{d};
        if tail[j] != d {
          assert tail[j] in rest;
          var m :| 0 <= m < |rest| && rest[m] == tail[j];
          assert docs[m + 1] == tail[j];
        }
      }
      SortedCons(docs[0], tail);
    }
  }

  /** The new document sits at some `k`, after every smaller id and before every larger one. */
  lemma InsertByIdPlaces(docs: seq<Doc>, d: Doc) returns (k: nat)
    requires SortedIds(docs) && !HasId(docs, d.id)
    ensures var r := InsertById(docs, d);
      k < |r| && r[k] == d
      && (forall i :: 0 <= i < k ==> IdLess(r[i].id, d.id))
      && (forall i :: k < i < |r| ==> IdLess(d.id, r[i].id))
  {
    var r := InsertById(docs, d);
    InsertByIdSorted(docs, d);
    assert d in multiset(r);
    assert d in r;
    k :| 0 <= k < |r| && r[k] == d;
  }

  predicate HasId(docs: seq<Doc>, id: string) {
    exists i :: 0 <= i < |docs| && docs[i].id == id
  }

  /** `document(id).update(patch)` on a collection: top-level fields of `patch` overwrite. */
  function Patched(docs: seq<Doc>, id: string, patch: Record): (r: seq<Doc>)
    ensures |r| == |docs|
    ensures forall i :: 0 <= i < |docs| ==> r[i].id == docs[i].id
    ensures forall i :: 0 <= i < |docs| && docs[i].id != id ==> r[i] == docs[i]
    ensures forall i :: 0 <= i < |docs| && docs[i].id == id ==> r[i].fields == docs[i].fields + patch
  {
    if docs == [] then []
    else
      [if docs[0].id == id then Doc(id, docs[0].fields + patch) else docs[0]] + Patched(docs[1..], id, patch)
  }

  /** `document(id).delete()` on a collection. */
  function Removed(docs: seq<Doc>, id: string): (r: seq<Doc>)
    ensures forall i :: 0 <= i < |r| ==> r[i].id != id
    ensures forall d :: d in r <==> d in docs && d.id != id
  {
    if docs == [] then []
    else (if docs[0].id == id then [] else [docs[0]]) + Removed(docs[1..], id)
  }

  lemma PatchedKeepsSorted(docs: seq<Doc>, id: string, patch: Record)
    requires SortedIds(docs)
    ensures SortedIds(Patched(docs, id, patch))
  {
  }

  lemma {:induction false} RemovedKeepsSorted(docs: seq<Doc>, id: string)
    requires SortedIds(docs)
    ensures SortedIds(Removed(docs, id))
  {
    if docs != [] {
      RemovedKeepsSorted(docs[1..], id);
      var rest := Removed(docs[1..], id);
      if docs[0].id != id {
        assert Removed(docs, id) == [docs[0]] + rest;
        forall j | 0 <= j < |rest| ensures IdLess(docs[0].id, rest[j].id) {
          assert rest[j] in docs[1..];
          var m :| 0 <= m < |docs[1..]| && docs[1..][m] == rest[j];
          assert docs[m + 1] == rest[j];
        }
      }
    }
  }

  lemma {:induction false} RemovedKeepsUnique(docs: seq<Doc>, id: string)
    requires UniqueIds(docs)
    ensures UniqueIds(Removed(docs, id))
  {
    if docs != [] {
      RemovedKeepsUnique(docs[1..], id);
      var rest := Removed(docs[1..], id);
      if docs[0].id != id {
        assert Removed(docs, id) == [docs[0]] + rest;
        forall j | 0 <= j < |rest| ensures docs[0].id != rest[j].id {
          assert rest[j] in docs[1..];
        }
      }
    }
  }

  /** Deleting removes exactly one document when the id is present, none otherwise. */
  lemma {:induction false} RemovedLength(docs: seq<Doc>, id: string)
    requires UniqueIds(docs)
    ensures |Removed(docs, id)| == if HasId(docs, id) then |docs| - 1 else |docs|
  {
    if docs != [] {
      RemovedLength(docs[1..], id);
      if docs[0].id == id {
        assert !HasId(docs[1..], id);
      } else {
        assert HasId(docs, id) ==> HasId(docs[1..], id) by {
          if HasId(docs, id) {
            var m :| 0 <= m < |docs| && docs[m].id == id;
            assert docs[1..][m - 1].id == id;
          }
        }
        assert HasId(docs[1..], id) ==> HasId(docs, id) by {
          if HasId(docs[1..], id) {
            var m :| 0 <= m < |docs[1..]| && docs[1..][m].id == id;
            assert docs[m + 1].id == id;
          }
        }
      }
    }
  }

  /** The store: collection name to its documents. */
  class Store {
    var collections: map<string, seq<Doc>>

    ghost predicate Valid()
      reads this
    {
      forall c :: c in collections ==> UniqueIds(collections[c]) && SortedIds(collections[c])
    }

    /** The documents of a collection; a collection nobody wrote to is empty. */
    function Docs(c: string): (r: seq<Doc>)
      reads this
      ensures c !in collections ==> r == []
    {
      if c in collections then collections[c] else []
    }

    constructor ()
      ensures collections == map[] && Valid()
    {
      collections := map[];
    }

    /** `collection(c).add(fields)`: a new document under a fresh id, in its place in id order. */
    method Add(c: string, fields: Record, newId: string)
      requires Valid() && !HasId(Docs(c), newId)
      modifies this
      ensures Valid()
      ensures collections == old(collections)[c := InsertById(old(Docs(c)), Doc(newId, fields))]
    {
      InsertByIdSorted(Docs(c), Doc(newId, fields));
      var docs := InsertById(Docs(c), Doc(newId, fields));
      SortedIdsUnique(docs);
      collections := collections[c := docs];
    }

    /** `collection(c).document(id).update(patch)`: false (NotFound) when there is no such document. */
    method Update(c: string, id: string, patch: Record) returns (found: bool)
      requires Valid()
      modifies this
      ensures Valid()
      ensures found == HasId(old(Docs(c)), id)
      ensures collections == if found then old(collections)[c := Patched(old(Docs(c)), id, patch)] else old(collections)
    {
      found := HasId(Docs(c), id);
      if found {
        var docs := Patched(Docs(c), id, patch);
        PatchedKeepsSorted(Docs(c), id, patch);
        SortedIdsUnique(docs);
        collections := collections[c := docs];
      }
    }

    /** `collection(c).document(id).delete()`: succeeds whether or not the document exists. */
    method Delete(c: string, id: string)
      requires Valid()
      modifies this
      ensures Valid()
      ensures c in old(collections) ==> collections == old(collections)[c := Removed(old(Docs(c)), id)]
      ensures c !in old(collections) ==> collections == old(collections)
    {
      if c in collections {
        RemovedKeepsUnique(collections[c], id);
        RemovedKeepsSorted(collections[c], id);
        collections := collections[c := Removed(collections[c], id)];
      }
    }
  }

  /** A caller's dict that a store helper fills in before writing it. */
  class FormData {
    var fields: Record

    constructor (fields: Record)
      ensures this.fields == fields
    {
      this.fields := fields;
    }
  }
}
