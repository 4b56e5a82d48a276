/** The four handlers of the `/api/issues/:project` route. Each takes the
    project's collection (the path parameter picks it), the parsed query or
    body, and the clock reading where it needs one; each validates, builds its
    filter, record or `$set` document, runs at most one store operation and
    turns the result into a response. */
module Routes {
  import opened Json
  import opened Issues
  import opened Store
  import opened Translate

  /** What a handler sends back. Errors and statuses are both ordinary
      success-shaped payloads that differ only by key. */
  datatype Response =
    | Listing(issues: seq<Doc>)  // the array of matching issues
    | Created(issue: Doc)        // the new issue, with its `_id`
    | Failure(error: string)     // `{error: ...}`
    | Status(status: string)     // `{status: ...}`
    | Ended                      // an empty response
    | NoReply                    // the store call threw; the error was logged and nothing sent

  /** GET: lists the project's issues that match every query parameter but
      the first, newest first; never an error. */
  method Get(store: Collection, query: Payload) returns (resp: Response)
    modifies store
    ensures store.docs == old(store.docs) && store.ops == old(store.ops) + 1
    ensures resp.Listing? && IsListing(store.docs, FilterOf(query), resp.issues)
  {
    var searchObj := BuildFilter(query);
    var results := store.Find(searchObj);
    resp := Listing(results);
  }

  /** POST: refuses a payload without a truthy title, text or author and
      touches nothing; otherwise builds the issue, inserts it under the id the
      store hands out and returns it with that id. */
  method Post(store: Collection, data: Payload, now: nat, insertedId: string) returns (resp: Response)
    requires insertedId !in store.docs
    modifies store
    ensures MissingRequiredField(data) ==>
      resp == Failure(MissingRequiredError) && unchanged(store)
    ensures !MissingRequiredField(data) ==>
      && resp.Created? && resp.issue.id == insertedId
      && IsNewIssue(resp.issue.fields, data, now)
      && (forall k :: k in RequiredFields ==> Truthy(resp.issue.fields[k]))
      && store.docs == old(store.docs)[insertedId := resp.issue.fields]
      && store.ops == old(store.ops) + 1
  {
    if MissingRequiredField(data) {
      resp := Failure(MissingRequiredError);
      return;
    }
    var newIssue := new Issue(data, now);
    store.InsertOne(insertedId, newIssue.Fields());
    newIssue.AttachId(insertedId);
    resp := Created(Doc(newIssue.id, newIssue.Fields()));
  }

  /** PUT: without a truthy `_id`, ends the response empty; when every other
      value is `''`, reports that no field was sent; otherwise `$set`s the
      truthy fields and a fresh `updated_on` on the issue with that id and
      reports whether the store modified it. */
  method Put(store: Collection, data: Payload, now: nat) returns (resp: Response)
    modifies store
    ensures !Truthy(Lookup(data, "_id")) ==> resp == Ended && unchanged(store)
    ensures Truthy(Lookup(data, "_id")) && NoUpdatedField(data) ==>
      resp == Failure(NoUpdatedFieldError) && unchanged(store)
    ensures Truthy(Lookup(data, "_id")) && !NoUpdatedField(data) && !Lookup(data, "_id").Str? ==>
      resp == NoReply && unchanged(store)
    ensures Truthy(Lookup(data, "_id")) && !NoUpdatedField(data) && Lookup(data, "_id").Str? ==>
      var id := Lookup(data, "_id").s;
      var fieldSet := UpdateDocOf(data, now);
      var changed := id in old(store.docs) && old(store.docs)[id] + fieldSet != old(store.docs)[id];
      && store.docs == (if id in old(store.docs) then old(store.docs)[id := old(store.docs)[id] + fieldSet] else old(store.docs))
      && resp == Status(if changed then "successfully updated " + id else "could not update " + id)
      && store.ops == old(store.ops) + 1
  {
    var searchId := Lookup(data, "_id");
    if !Truthy(searchId) {
      resp := Ended;
      return;
    }
    if NoUpdatedField(data) {
      resp := Failure(NoUpdatedFieldError);
      return;
    }
    var updateObj := BuildUpdate(data, now);
    if !searchId.Str? {
      resp := NoReply;
      return;
    }
    var modifiedCount := store.UpdateOne(searchId.s, updateObj);
    resp := Status(UpdateStatus(searchId.s, modifiedCount));
  }

  /** DELETE: without a truthy `_id`, reports an id error and touches
      nothing; otherwise deletes the issue with that id and reports whether
      exactly one was removed. */
  method Delete(store: Collection, data: Payload) returns (resp: Response)
    modifies store
    ensures !Truthy(Lookup(data, "_id")) ==> resp == Failure(IdError) && unchanged(store)
    ensures Truthy(Lookup(data, "_id")) && !Lookup(data, "_id").Str? ==>
      resp == NoReply && unchanged(store)
    ensures Truthy(Lookup(data, "_id")) && Lookup(data, "_id").Str? ==>
      var id := Lookup(data, "_id").s;
      && store.docs == old(store.docs) - {id}
      && resp == Status(if id in old(store.docs) then "deleted " + id else "could not delete " + id)
      && store.ops == old(store.ops) + 1
  {
    var searchId := Lookup(data, "_id");
    if !Truthy(searchId) {
      resp := Failure(IdError);
      return;
    }
    if !searchId.Str? {
      resp := NoReply;
      return;
    }
    var deletedCount := store.DeleteOne(searchId.s);
    resp := Status(DeleteStatus(searchId.s, deletedCount));
  }

  // ---------------------------------------------------------------------------
  // Request sequences: two from the functional tests, and a repeated delete
  // whose second answer follows from the count mapping of the delete status

  /** An issue created and then fetched with no filter comes back with the
      fields it was created with. */
  method CreateThenList(store: Collection, data: Payload, now: nat, insertedId: string)
    returns (created: Response, listed: Response)
    requires insertedId !in store.docs
    requires !MissingRequiredField(data)
    modifies store
    ensures created.Created? && listed.Listing?
    ensures created.issue in listed.issues
    ensures |listed.issues| == |old(store.docs)| + 1
  {
    created := Post(store, data, now, insertedId);
    assert store.docs.Keys == old(store.docs).Keys + {insertedId};
    listed := Get(store, []);
    assert FilterOf([]) == map[];
    UnfilteredListsAll(store.docs, listed.issues);
    assert created.issue == Doc(insertedId, store.docs[insertedId]);
  }

  /** Deleting a freshly created issue reports "deleted <id>" and restores
      the collection (as the functional tests check); deleting it again
      reports "could not delete <id>", since nothing is left to remove. */
  method CreateThenDeleteTwice(store: Collection, data: Payload, now: nat, insertedId: string)
    returns (first: Response, second: Response)
    requires insertedId !in store.docs && insertedId != ""
    requires !MissingRequiredField(data)
    modifies store
    ensures first == Status("deleted " + insertedId)
    ensures second == Status("could not delete " + insertedId)
    ensures store.docs == old(store.docs)
  {
    var created := Post(store, data, now, insertedId);
    var body := [("_id", Str(created.issue.id))];
    first := Delete(store, body);
    second := Delete(store, body);
    assert store.docs == old(store.docs);
  }

  /** Updating an existing issue with at least one truthy field, at a time
      later than its last update, succeeds; `updated_on` moves forward and
      every field the request does not set keeps its value. */
  method UpdateExisting(store: Collection, data: Payload, now: nat, id: string, t: nat)
    returns (resp: Response)
    requires UniqueKeys(data)
    requires Lookup(data, "_id") == Str(id) && id != ""
    requires exists i :: 0 <= i < |data| && data[i].0 != "_id" && data[i].1 != Str("")
    requires id in store.docs && "updated_on" in store.docs[id]
    requires store.docs[id]["updated_on"] == Date(t) && t < now
    modifies store
    ensures resp == Status("successfully updated " + id)
    ensures id in store.docs && "updated_on" in store.docs[id] && store.docs[id]["updated_on"] == Date(now)
    ensures forall k :: k in old(store.docs[id]) && k != "updated_on" && k !in UpdateDocOf(data, now) ==>
      k in store.docs[id] && store.docs[id][k] == old(store.docs[id][k])
  {
    NoUpdatedFieldIff(data);
    UpdateDocContents(data, now);
    ghost var before := store.docs[id];
    resp := Put(store, data, now);
    assert (before + UpdateDocOf(data, now))["updated_on"] != before["updated_on"];
  }
}
