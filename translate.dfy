/** The request-to-store translation inside the route handlers: the list
    filter, the required-field check of a create, the empty-update check and
    the sparse `$set` document of a partial update, and the mapping from the
    store's counts to status strings. */
module Translate {
  import opened Json

  const MissingRequiredError := "missing required field."
  const NoUpdatedFieldError := "no updated field sent"
  const IdError := "_id error"

  // ---------------------------------------------------------------------------
  // List: the equality filter

  /** The object that maps each key of `ks` to its value in `data`. */
  function Assigned(data: Payload, ks: seq<string>): Record
  {
    map k | k in ks :: Lookup(data, k)
  }

  /** The filter a list request uses: every query key except the first, each
      with its query value. */
  function FilterOf(query: Payload): Record
  {
    var ks := Keys(query);
    Assigned(query, if ks == [] then [] else ks[1..])
  }

  /** Builds `searchObj` as the get handler does: takes the query's keys,
      shifts the first one off and copies the rest. */
  method BuildFilter(query: Payload) returns (searchObj: Record)
    ensures searchObj == FilterOf(query)
  {
    var dataKeys := Keys(query);
    if dataKeys != [] {
      dataKeys := dataKeys[1..];
    }
    searchObj := map[];
    for i := 0 to |dataKeys|
      invariant searchObj == Assigned(query, dataKeys[..i])
    {
      var key := dataKeys[i];
      assert dataKeys[..i + 1] == dataKeys[..i] + [key];
      searchObj := searchObj[key := Lookup(query, key)];
    }
    assert dataKeys[..|dataKeys|] == dataKeys;
  }

  /** The filter holds exactly the query keys after the first, each mapped
      to its own value; a query of at most one key gives the empty,
      unrestricted filter. */
  lemma {:induction false} FilterOfQuery(query: Payload)
    requires UniqueKeys(query)
    ensures forall i :: 1 <= i < |query| ==> query[i].0 in FilterOf(query) && FilterOf(query)[query[i].0] == query[i].1
    ensures forall k :: k in FilterOf(query) ==> exists i :: 1 <= i < |query| && query[i].0 == k
    ensures |query| > 0 ==> query[0].0 !in FilterOf(query)
    ensures |query| <= 1 ==> FilterOf(query) == map[]
  {
    var f := FilterOf(query);
    forall i | 1 <= i < |query|
      ensures query[i].0 in f && f[query[i].0] == query[i].1
    {
      assert Keys(query)[1..][i - 1] == query[i].0;
      LookupAt(query, i);
    }
    forall k | k in f ensures exists i :: 1 <= i < |query| && query[i].0 == k {
      var j :| 0 <= j < |Keys(query)[1..]| && Keys(query)[1..][j] == k;
      assert query[j + 1].0 == k;
    }
  }

  // ---------------------------------------------------------------------------
  // Create: the required-field check

  /** `!data.issue_title || !data.issue_text || !data.created_by`: some
      field an issue requires is absent or falsy. */
  predicate MissingRequiredField(data: Payload)
  {
    || !Truthy(Lookup(data, "issue_title"))
    || !Truthy(Lookup(data, "issue_text"))
    || !Truthy(Lookup(data, "created_by"))
  }

  // ---------------------------------------------------------------------------
  // Partial update: the empty-update check and the `$set` document

  /** The number of values that are not the empty string:
      `values.filter(value => value !== '').length`. */
  function NonEmptyCount(vs: seq<Value>): nat
  {
    if vs == [] then 0
    else (if vs[0] != Str("") then 1 else 0) + NonEmptyCount(vs[1..])
  }

  /** The put handler's "no updated field sent" condition: exactly one value
      of the payload is not `''`. */
  predicate NoUpdatedField(data: Payload): (none: bool)
    ensures none <==> exists i :: OnlyNonEmptyAt(Values(data), i)
  {
    NonEmptyCountOne(Values(data));
    NonEmptyCount(Values(data)) == 1
  }

  /** Position `i` holds the one value of `vs` that is not `''`. */
  ghost predicate OnlyNonEmptyAt(vs: seq<Value>, i: int)
  {
    && 0 <= i < |vs| && vs[i] != Str("")
    && forall j :: 0 <= j < |vs| && j != i ==> vs[j] == Str("")
  }

  /** The count is one exactly when a single position holds a value that is
      not `''`. */
  lemma {:induction false} NonEmptyCountOne(vs: seq<Value>)
    ensures NonEmptyCount(vs) == 1 <==> exists i :: OnlyNonEmptyAt(vs, i)
  {
    if vs == [] {
      return;
    }
    var tail := vs[1..];
    assert forall j :: 1 <= j < |vs| ==> vs[j] == tail[j - 1];
    NonEmptyCountZero(tail);
    if vs[0] != Str("") {
      if NonEmptyCount(vs) == 1 {
        assert OnlyNonEmptyAt(vs, 0);
      }
      if exists i :: OnlyNonEmptyAt(vs, i) {
        var i :| OnlyNonEmptyAt(vs, i);
        assert i == 0;
      }
    } else {
      NonEmptyCountOne(tail);
      if NonEmptyCount(vs) == 1 {
        var i :| OnlyNonEmptyAt(tail, i);
        assert OnlyNonEmptyAt(vs, i + 1);
      }
      if exists i :: OnlyNonEmptyAt(vs, i) {
        var i :| OnlyNonEmptyAt(vs, i);
        assert OnlyNonEmptyAt(tail, i - 1);
      }
    }
  }

  lemma {:induction false} NonEmptyCountAppend(a: seq<Value>, b: seq<Value>)
    ensures NonEmptyCount(a + b) == NonEmptyCount(a) + NonEmptyCount(b)
  {
    if a == [] {
      assert a + b == b;
    } else {
      assert (a + b)[0] == a[0];
      assert (a + b)[1..] == a[1..] + b;
      NonEmptyCountAppend(a[1..], b);
    }
  }

  lemma {:induction false} NonEmptyCountZero(vs: seq<Value>)
    ensures NonEmptyCount(vs) == 0 <==> forall i :: 0 <= i < |vs| ==> vs[i] == Str("")
  {
    if vs != [] {
      NonEmptyCountZero(vs[1..]);
      assert forall i :: 1 <= i < |vs| ==> vs[i] == vs[1..][i - 1];
    }
  }

  /** Once the id is known to be truthy, the check fires exactly when every
      other value of the payload is the empty string. */
  lemma {:induction false} NoUpdatedFieldIff(data: Payload)
    requires UniqueKeys(data)
    requires Truthy(Lookup(data, "_id"))
    ensures NoUpdatedField(data) <==>
      forall i :: 0 <= i < |data| && data[i].0 != "_id" ==> data[i].1 == Str("")
  {
    var j := LookupFound(data, "_id");
    var vs := Values(data);
    var before, after := vs[..j], vs[j + 1..];
    assert vs == before + [vs[j]] + after;
    NonEmptyCountAppend(before + [vs[j]], after);
    NonEmptyCountAppend(before, [vs[j]]);
    assert NonEmptyCount([vs[j]]) == 1;
    NonEmptyCountZero(before);
    NonEmptyCountZero(after);
    forall i | 0 <= i < |data| ensures data[i].0 != "_id" <==> i != j {
      if i < j { assert data[i].0 != data[j].0; }
      if i > j { assert data[j].0 != data[i].0; }
    }
    forall i | 0 <= i < |data| && i != j
      ensures data[i].1 == if i < j then before[i] else after[i - j - 1]
    {
    }
  }

  /** The truthy values of `data` under the keys in `ks`, except `_id`. */
  function TruthyFields(data: Payload, ks: seq<string>): Record
  {
    map k | k in ks && k != "_id" && Truthy(Lookup(data, k)) :: Lookup(data, k)
  }

  /** The `$set` document of a partial update made at time `now`. */
  function UpdateDocOf(data: Payload, now: nat): Record
  {
    TruthyFields(data, Keys(data))["updated_on" := Date(now)]
  }

  /** Builds `updateObj` as the put handler does: walks the payload's keys,
      skips `_id`, copies every truthy value, then stamps `updated_on`. */
  method BuildUpdate(data: Payload, now: nat) returns (updateObj: Record)
    ensures updateObj == UpdateDocOf(data, now)
  {
    var keys := Keys(data);
    updateObj := map[];
    for i := 0 to |keys|
      invariant updateObj == TruthyFields(data, keys[..i])
    {
      var key := keys[i];
      assert keys[..i + 1] == keys[..i] + [key];
      if key == "_id" {
        continue;
      } else if Truthy(Lookup(data, key)) {
        updateObj := updateObj[key := Lookup(data, key)];
      }
    }
    assert keys[..|keys|] == keys;
    updateObj := updateObj["updated_on" := Date(now)];
  }

  /** The `$set` document never names `_id`; it carries every other payload
      key whose value is truthy, with that value, and no key whose value is
      falsy; `updated_on` is always the current time, whatever the client
      sent under that key; it names nothing the payload does not. */
  lemma {:induction false} UpdateDocContents(data: Payload, now: nat)
    requires UniqueKeys(data)
    ensures "_id" !in UpdateDocOf(data, now)
    ensures UpdateDocOf(data, now)["updated_on"] == Date(now)
    ensures forall i :: 0 <= i < |data| && data[i].0 != "_id" && data[i].0 != "updated_on" ==>
      (data[i].0 in UpdateDocOf(data, now) <==> Truthy(data[i].1))
    ensures forall i :: 0 <= i < |data| && data[i].0 != "updated_on" && data[i].0 in UpdateDocOf(data, now) ==>
      UpdateDocOf(data, now)[data[i].0] == data[i].1
    ensures forall k :: k in UpdateDocOf(data, now) && k != "updated_on" ==>
      exists i :: 0 <= i < |data| && data[i].0 == k
  {
    forall i | 0 <= i < |data| {
      LookupAt(data, i);
    }
  }

  /** Applying the `$set` document leaves every field of the record that the
      payload does not set to a truthy value as it was, except `updated_on`. */
  lemma {:induction false} UpdateKeepsOtherFields(r: Record, data: Payload, now: nat, k: string)
    requires UniqueKeys(data)
    requires k in r && k != "updated_on"
    requires forall i :: 0 <= i < |data| && data[i].0 == k && k != "_id" ==> !Truthy(data[i].1)
    ensures (r + UpdateDocOf(data, now))[k] == r[k]
  {
    if k in UpdateDocOf(data, now) {
      var i := LookupFound(data, k);
    }
  }

  /** `{_id, open: false}` passes the empty-update check, since `false` is
      not `''`, yet the `$set` document it yields holds only `updated_on`:
      the request cannot close the issue. */
  lemma {:induction false} FalseOpenOnlyStamps(id: string, now: nat)
    requires id != ""
    ensures var data := [("_id", Str(id)), ("open", Bool(false))];
      !NoUpdatedField(data) && UpdateDocOf(data, now) == map["updated_on" := Date(now)]
  {
    var data := [("_id", Str(id)), ("open", Bool(false))];
    assert Values(data) == [Str(id), Bool(false)];
    assert NonEmptyCount([Bool(false)]) == 1;
    assert Keys(data) == ["_id", "open"];
    assert Lookup(data, "open") == Bool(false);
    assert TruthyFields(data, Keys(data)).Keys == {};
  }

  /** Nothing keeps a client from rewriting `created_on` (or any other field)
      with a partial update. */
  lemma {:induction false} CreatedOnCanBeRewritten(id: string, when: string, now: nat)
    requires id != "" && when != ""
    ensures var data := [("_id", Str(id)), ("created_on", Str(when))];
      && !NoUpdatedField(data)
      && "created_on" in UpdateDocOf(data, now)
      && UpdateDocOf(data, now)["created_on"] == Str(when)
  {
    var data := [("_id", Str(id)), ("created_on", Str(when))];
    assert Values(data) == [Str(id), Str(when)];
    assert NonEmptyCount([Str(when)]) == 1;
    assert Keys(data) == ["_id", "created_on"];
    assert "created_on" != "_id" && "created_on" != "updated_on";
    assert Lookup(data, "created_on") == Str(when);
    assert "created_on" in TruthyFields(data, Keys(data));
  }

  // ---------------------------------------------------------------------------
  // Statuses

  /** The status a partial update reports for `updateOne`'s modified count. */
  function UpdateStatus(id: string, modifiedCount: nat): (status: string)
    ensures |status| > |id| && status[|status| - |id|..] == id
    ensures status[0] == 's' <==> modifiedCount != 0
  {
    if modifiedCount == 0 then "could not update " + id else "successfully updated " + id
  }

  /** The status a delete reports for `deleteOne`'s deleted count. */
  function DeleteStatus(id: string, deletedCount: nat): (status: string)
    ensures |status| > |id| && status[|status| - |id|..] == id
    ensures status[0] == 'd' <==> deletedCount == 1
  {
    if deletedCount == 1 then "deleted " + id else "could not delete " + id
  }

  /** A caller can read both the outcome and the id back from an update
      status: two equal statuses name the same id and the same outcome. */
  lemma {:induction false} UpdateStatusReadable(id1: string, n1: nat, id2: string, n2: nat)
    requires UpdateStatus(id1, n1) == UpdateStatus(id2, n2)
    ensures id1 == id2
    ensures n1 == 0 <==> n2 == 0
  {
  }

  /** Likewise for delete statuses: equal statuses name the same id and the
      same outcome (exactly one document removed, or not). */
  lemma {:induction false} DeleteStatusReadable(id1: string, n1: nat, id2: string, n2: nat)
    requires DeleteStatus(id1, n1) == DeleteStatus(id2, n2)
    ensures id1 == id2
    ensures n1 == 1 <==> n2 == 1
  {
  }
}
