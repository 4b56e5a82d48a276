/** One project's `issues` collection, reduced to what the handlers use:
    find with an equality filter sorted newest first, insertOne, updateOne
    with `$set`, and deleteOne by id. */
module Store {
  import opened Json

  /** A document as the store returns it: its id beside its fields. */
  datatype Doc = Doc(id: string, fields: Record)

  /** A document agrees with an equality filter on every filter key. */
  predicate Matches(r: Record, filter: Record)
  {
    forall k :: k in filter ==> k in r && r[k] == filter[k]
  }

  /** The sort key of `sort({created_on: -1})`: the creation time, or 0 when
      `created_on` is missing or is not a date. */
  function CreatedKey(r: Record): nat
  {
    if "created_on" in r && r["created_on"].Date? then r["created_on"].time else 0
  }

  /** Newest first. */
  ghost predicate NewestFirst(s: seq<Doc>)
  {
    forall i, j :: 0 <= i < j < |s| ==> CreatedKey(s[i].fields) >= CreatedKey(s[j].fields)
  }

  ghost predicate DistinctIds(s: seq<Doc>)
  {
    forall i, j :: 0 <= i < j < |s| ==> s[i].id != s[j].id
  }

  ghost function IdsOf(s: seq<Doc>): set<string>
  {
    set i | 0 <= i < |s| :: s[i].id
  }

  ghost function MatchingIds(docs: map<string, Record>, filter: Record): set<string>
  {
    set id | id in docs && Matches(docs[id], filter)
  }

  /** `s` is an answer to `find(filter).sort({created_on: -1})` over `docs`:
      every stored document that matches, each once and as stored, and
      nothing else, newest first. */
  ghost predicate IsListing(docs: map<string, Record>, filter: Record, s: seq<Doc>)
  {
    && (forall i :: 0 <= i < |s| ==> s[i].id in docs && s[i].fields == docs[s[i].id])
    && IdsOf(s) == MatchingIds(docs, filter)
    && DistinctIds(s)
    && NewestFirst(s)
  }

  /** `find(filter).sort({created_on: -1})`: scans the collection and inserts
      each matching document after every one at least as new. */
  method Select(docs: map<string, Record>, filter: Record) returns (results: seq<Doc>)
    ensures IsListing(docs, filter, results)
  {
    var pending := docs.Keys;
    results := [];
    while pending != {}
      invariant pending <= docs.Keys
      invariant forall i :: 0 <= i < |results| ==>
        results[i].id in docs && results[i].id !in pending && results[i].fields == docs[results[i].id]
      invariant IdsOf(results) == MatchingIds(docs, filter) - pending
      invariant DistinctIds(results)
      invariant NewestFirst(results)
      decreases pending
    {
      var id :| id in pending;
      if Matches(docs[id], filter) {
        var d := Doc(id, docs[id]);
        var k := 0;
        while k < |results| && CreatedKey(results[k].fields) >= CreatedKey(d.fields)
          invariant 0 <= k <= |results|
          invariant forall j :: 0 <= j < k ==> CreatedKey(results[j].fields) >= CreatedKey(d.fields)
        {
          k := k + 1;
        }
        assert id !in IdsOf(results);
        InsertKeepsOrder(results, d, k);
        InsertKeepsIds(results, d, k);
        results := InsertAt(results, d, k);
      }
      pending := pending - {id};
    }
  }

  /** `s` with `d` placed at position `k`. */
  function InsertAt(s: seq<Doc>, d: Doc, k: nat): (r: seq<Doc>)
    requires k <= |s|
    ensures |r| == |s| + 1
    ensures forall i :: 0 <= i < |r| ==> r[i] == if i < k then s[i] else if i == k then d else s[i - 1]
  {
    s[..k] + [d] + s[k..]
  }

  /** Putting `d` after every document at least as new and before the first
      strictly older one keeps the sequence newest first. */
  lemma {:induction false} InsertKeepsOrder(s: seq<Doc>, d: Doc, k: nat)
    requires k <= |s|
    requires NewestFirst(s)
    requires forall j :: 0 <= j < k ==> CreatedKey(s[j].fields) >= CreatedKey(d.fields)
    requires k < |s| ==> CreatedKey(s[k].fields) < CreatedKey(d.fields)
    ensures NewestFirst(InsertAt(s, d, k))
  {
    var r := InsertAt(s, d, k);
    forall i, j | 0 <= i < j < |r|
      ensures CreatedKey(r[i].fields) >= CreatedKey(r[j].fields)
    {
      if i == k && j > k {
        assert CreatedKey(s[k].fields) >= CreatedKey(s[j - 1].fields);
      }
    }
  }

  /** Inserting a document whose id is new adds exactly that id, once. */
  lemma {:induction false} InsertKeepsIds(s: seq<Doc>, d: Doc, k: nat)
    requires k <= |s|
    requires d.id !in IdsOf(s)
    requires DistinctIds(s)
    ensures DistinctIds(InsertAt(s, d, k))
    ensures IdsOf(InsertAt(s, d, k)) == IdsOf(s) + {d.id}
  {
    var r := InsertAt(s, d, k);
    forall i, j | 0 <= i < j < |r| ensures r[i].id != r[j].id {
      if i == k { assert s[j - 1].id in IdsOf(s); }
      else if j == k { assert s[i].id in IdsOf(s); }
    }
    forall x | x in IdsOf(r) ensures x in IdsOf(s) + {d.id} {
      var i :| 0 <= i < |r| && r[i].id == x;
      if i < k { assert s[i].id == x; } else if i > k { assert s[i - 1].id == x; }
    }
    forall x | x in IdsOf(s) + {d.id} ensures x in IdsOf(r) {
      if x == d.id {
        assert r[k].id == x;
      } else {
        var i :| 0 <= i < |s| && s[i].id == x;
        if i < k { assert r[i].id == x; } else { assert r[i + 1].id == x; }
      }
    }
  }

  /** With the empty filter a listing holds every stored document, once. */
  lemma {:induction false} UnfilteredListsAll(docs: map<string, Record>, s: seq<Doc>)
    requires IsListing(docs, map[], s)
    ensures |s| == |docs|
    ensures forall id :: id in docs ==> Doc(id, docs[id]) in s
  {
    assert MatchingIds(docs, map[]) == docs.Keys;
    DistinctCount(s);
    forall id | id in docs ensures Doc(id, docs[id]) in s {
      assert id in IdsOf(s);
      var i :| 0 <= i < |s| && s[i].id == id;
      assert s[i] == Doc(id, docs[id]);
    }
  }

  /** A sequence with distinct ids has as many elements as ids. */
  lemma {:induction false} DistinctCount(s: seq<Doc>)
    requires DistinctIds(s)
    ensures |IdsOf(s)| == |s|
  {
    if s != [] {
      var t := s[..|s| - 1];
      assert DistinctIds(t);
      DistinctCount(t);
      assert IdsOf(s) == IdsOf(t) + {s[|s| - 1].id};
      assert s[|s| - 1].id !in IdsOf(t);
    }
  }

  /** The `issues` collection of one project. `ops` counts the operations
      run against it, so a handler's "no store access" can be stated. */
  class Collection {
    var docs: map<string, Record>
    ghost var ops: nat

    constructor ()
      ensures docs == map[] && ops == 0
    {
      docs := map[];
      ops := 0;
    }

    method Find(filter: Record) returns (results: seq<Doc>)
      modifies this
      ensures docs == old(docs) && ops == old(ops) + 1
      ensures IsListing(docs, filter, results)
    {
      results := Select(docs, filter);
      ops := ops + 1;
    }

    /** `insertOne`: `id` is the identifier the store generates, never one in use. */
    method InsertOne(id: string, doc: Record)
      requires id !in docs
      modifies this
      ensures docs == old(docs)[id := doc] && ops == old(ops) + 1
    {
      docs := docs[id := doc];
      ops := ops + 1;
    }

    /** `updateOne({_id: id}, {$set: fieldSet})`: overwrites the fields in `fieldSet` of
        that one document; the modified count is 1 exactly when a document
        with that id exists and its fields actually changed. */
    method UpdateOne(id: string, fieldSet: Record) returns (modifiedCount: nat)
      modifies this
      ensures id in old(docs) ==> docs == old(docs)[id := old(docs)[id] + fieldSet]
      ensures id !in old(docs) ==> docs == old(docs)
      ensures modifiedCount == if id in old(docs) && old(docs)[id] + fieldSet != old(docs)[id] then 1 else 0
      ensures ops == old(ops) + 1
    {
      modifiedCount := 0;
      if id in docs {
        var updated := docs[id] + fieldSet;
        if updated != docs[id] {
          modifiedCount := 1;
        }
        docs := docs[id := updated];
      }
      ops := ops + 1;
    }

    /** `deleteOne({_id: id})`: removes that document if there is one; the
        deleted count says whether it did. */
    method DeleteOne(id: string) returns (deletedCount: nat)
      modifies this
      ensures docs == old(docs) - {id}
      ensures deletedCount == if id in old(docs) then 1 else 0
      ensures ops == old(ops) + 1
    {
      deletedCount := if id in docs then 1 else 0;
      docs := docs - {id};
      ops := ops + 1;
    }
  }
}
