/**
 The two persisted tables the session controller writes, `Users` and `Tags`,
 each a map from its unique key to the rest of the record, and the
 full-snapshot reconciliation of a user's tags against the list the remote
 service reports.
 */
module Store {

  type UserId = string
  type TagId = string

  /** A `Users` row, keyed by the remote user id. `apiKey` is the token as stored (encrypted). */
  datatype UserRecord = UserRecord(apiKey: string, username: string)

  /** A `Tags` row, keyed by the remote tag id. */
  datatype TagRecord = TagRecord(owner: UserId, text: string)

  /** One element of the `data` array of the remote tag listing. */
  datatype RemoteTag = RemoteTag(id: TagId, name: string)

  /** The database: two tables, each upserted and deleted by key. */
  class Database {
    var users: map<UserId, UserRecord>
    var tags: map<TagId, TagRecord>

    constructor ()
      ensures users == map[] && tags == map[]
    {
      users := map[];
      tags := map[];
    }
  }

  /** `Tags.objects.filter(tag_owner=user)`, as a set of tag ids. */
  function OwnedIds(store: map<TagId, TagRecord>, user: UserId): set<TagId>
  {
    set id | id in store && store[id].owner == user
  }

  /** The ids in a remote tag listing. */
  function RemoteIds(data: seq<RemoteTag>): set<TagId>
  {
    set i | 0 <= i < |data| :: data[i].id
  }

  /** `data[i]` is the last element of `data` that carries its id. */
  predicate IsLastOccurrence(data: seq<RemoteTag>, i: nat)
    requires i < |data|
  {
    forall j :: i < j < |data| ==> data[j].id != data[i].id
  }

  /** A last occurrence before the final tag stays last once the final tag is dropped. */
  lemma LastOccurrenceInPrefix(data: seq<RemoteTag>, i: nat)
    requires i < |data| - 1 && IsLastOccurrence(data, i)
    ensures IsLastOccurrence(data[..|data| - 1], i) && data[i].id != data[|data| - 1].id
  {
  }

  /**
   The upsert pass: `Tags.objects.update_or_create(tag_id=..., defaults=...)`
   for each remote tag in order, giving it owner `user` and text
   `encode(name)`. The table gains exactly the remote ids as keys;
   `UpsertAllAt` says what each row holds.
   */
  function UpsertAll(store: map<TagId, TagRecord>, user: UserId, data: seq<RemoteTag>,
                     encode: string -> string): (r: map<TagId, TagRecord>)
    ensures r.Keys == store.Keys + RemoteIds(data)
  {
    if data == [] then store
    else
      var n := |data| - 1;
      assert data[..n + 1] == data;
      RemoteIdsStep(data, n);
      UpsertAll(store, user, data[..n], encode)[data[n].id := TagRecord(user, encode(data[n].name))]
  }

  /** A row whose id the listing does not name is untouched by the upsert pass. */
  lemma {:induction false} UpsertAllKeepsOthers(store: map<TagId, TagRecord>, user: UserId, data: seq<RemoteTag>,
                                                encode: string -> string, id: TagId)
    requires id in store && id !in RemoteIds(data)
    ensures UpsertAll(store, user, data, encode)[id] == store[id]
  {
    if data != [] {
      var n := |data| - 1;
      assert data[..n + 1] == data;
      RemoteIdsStep(data, n);
      UpsertAllKeepsOthers(store, user, data[..n], encode, id);
    }
  }

  /**
   Every remote id ends up owned by `user`, whoever owned it before, with the
   text of the last remote tag that carries that id.
   */
  lemma {:induction false} UpsertAllAt(store: map<TagId, TagRecord>, user: UserId, data: seq<RemoteTag>,
                                       encode: string -> string)
    ensures forall i :: 0 <= i < |data| ==> UpsertAll(store, user, data, encode)[data[i].id].owner == user
    ensures forall i :: 0 <= i < |data| && IsLastOccurrence(data, i) ==>
              UpsertAll(store, user, data, encode)[data[i].id] == TagRecord(user, encode(data[i].name))
  {
    if data != [] {
      var n := |data| - 1;
      var prefix := data[..n];
      assert data[..n + 1] == data;
      RemoteIdsStep(data, n);
      UpsertAllAt(store, user, prefix, encode);
      var prev := UpsertAll(store, user, prefix, encode);
      var r := UpsertAll(store, user, data, encode);
      assert r == prev[data[n].id := TagRecord(user, encode(data[n].name))];
      forall i | 0 <= i < |data|
        ensures r[data[i].id].owner == user
        ensures IsLastOccurrence(data, i) ==> r[data[i].id] == TagRecord(user, encode(data[i].name))
      {
        if i < n {
          assert prefix[i] == data[i];
          if IsLastOccurrence(data, i) {
            LastOccurrenceInPrefix(data, i);
          }
        }
      }
    }
  }

  /** The ids of a prefix of a listing grown by one tag. */
  lemma RemoteIdsStep(data: seq<RemoteTag>, i: nat)
    requires i < |data|
    ensures RemoteIds(data[..i + 1]) == RemoteIds(data[..i]) + {data[i].id}
  {
  }

  /** The upsert pass over a prefix grown by one tag is one more upsert. */
  lemma UpsertAllStep(store: map<TagId, TagRecord>, user: UserId, data: seq<RemoteTag>,
                      encode: string -> string, i: nat)
    requires i < |data|
    ensures UpsertAll(store, user, data[..i + 1], encode)
            == UpsertAll(store, user, data[..i], encode)[data[i].id := TagRecord(user, encode(data[i].name))]
  {
    assert data[..i + 1][..i] == data[..i];
  }

  /**
   The tag synchronisation as a whole: upsert every remote tag, then delete
   each id the user owned at the start that the remote listing does not name.
   */
  function Reconcile(store: map<TagId, TagRecord>, user: UserId, data: seq<RemoteTag>,
                     encode: string -> string): map<TagId, TagRecord>
  {
    UpsertAll(store, user, data, encode) - (OwnedIds(store, user) - RemoteIds(data))
  }

  /** Every id in a non-empty listing has a last occurrence. */
  lemma {:induction false} LastOccurrenceExists(data: seq<RemoteTag>, id: TagId)
    requires id in RemoteIds(data)
    ensures exists i :: 0 <= i < |data| && data[i].id == id && IsLastOccurrence(data, i)
  {
    var n := |data| - 1;
    if data[n].id == id {
      assert IsLastOccurrence(data, n);
    } else {
      var prefix := data[..n];
      assert id in RemoteIds(prefix) by {
        var k :| 0 <= k < |data| && data[k].id == id;
        assert prefix[k].id == id;
      }
      LastOccurrenceExists(prefix, id);
      var i :| 0 <= i < |prefix| && prefix[i].id == id && IsLastOccurrence(prefix, i);
      assert data[i] == prefix[i];
      assert IsLastOccurrence(data, i);
    }
  }

  /**
   After reconciliation the ids the user owns are exactly the ids the remote
   listing names: no stale tag, no missing tag.
   */
  lemma ReconcileOwnsExactlyRemote(store: map<TagId, TagRecord>, user: UserId, data: seq<RemoteTag>,
                                   encode: string -> string)
    ensures OwnedIds(Reconcile(store, user, data, encode), user) == RemoteIds(data)
  {
    var r := Reconcile(store, user, data, encode);
    forall id | id in RemoteIds(data) ensures id in OwnedIds(r, user) {
      var i :| 0 <= i < |data| && data[i].id == id;
      ReconcileStoresRemote(store, user, data, encode, i);
    }
    forall id | id in OwnedIds(r, user) ensures id in RemoteIds(data) {
      if id !in RemoteIds(data) {
        ReconcileDeletesOnlyLeftovers(store, user, data, encode, id);
      }
    }
  }

  /**
   Every remote tag is in the store afterwards, owned by the user, with the
   text of the last remote tag carrying its id, whether or not the id was
   there before and whoever owned it.
   */
  lemma ReconcileStoresRemote(store: map<TagId, TagRecord>, user: UserId, data: seq<RemoteTag>,
                              encode: string -> string, i: nat)
    requires i < |data|
    ensures data[i].id in Reconcile(store, user, data, encode)
    ensures Reconcile(store, user, data, encode)[data[i].id].owner == user
    ensures IsLastOccurrence(data, i) ==>
              Reconcile(store, user, data, encode)[data[i].id] == TagRecord(user, encode(data[i].name))
  {
    UpsertAllAt(store, user, data, encode);
  }

  /**
   Deletion reaches only ids the user owned and the listing does not name;
   every other row, including rows of other users, keeps its presence and
   its value.
   */
  lemma ReconcileDeletesOnlyLeftovers(store: map<TagId, TagRecord>, user: UserId, data: seq<RemoteTag>,
                                      encode: string -> string, id: TagId)
    requires id !in RemoteIds(data)
    ensures id in Reconcile(store, user, data, encode) <==> id in store && store[id].owner != user
    ensures id in Reconcile(store, user, data, encode) ==> Reconcile(store, user, data, encode)[id] == store[id]
  {
    if id in store {
      UpsertAllKeepsOthers(store, user, data, encode, id);
    }
  }

  /** Running the reconciliation again with the same listing changes nothing. */
  lemma ReconcileIdempotent(store: map<TagId, TagRecord>, user: UserId, data: seq<RemoteTag>,
                            encode: string -> string)
    ensures Reconcile(Reconcile(store, user, data, encode), user, data, encode)
            == Reconcile(store, user, data, encode)
  {
    var once := Reconcile(store, user, data, encode);
    var twice := Reconcile(once, user, data, encode);
    forall id | id in RemoteIds(data) ensures id in once && id in twice && twice[id] == once[id] {
      LastOccurrenceExists(data, id);
      var i :| 0 <= i < |data| && data[i].id == id && IsLastOccurrence(data, i);
      ReconcileStoresRemote(store, user, data, encode, i);
      ReconcileStoresRemote(once, user, data, encode, i);
    }
    forall id | id !in RemoteIds(data)
      ensures (id in twice <==> id in once) && (id in once ==> twice[id] == once[id])
    {
      ReconcileDeletesOnlyLeftovers(store, user, data, encode, id);
      ReconcileDeletesOnlyLeftovers(once, user, data, encode, id);
    }
    assert twice.Keys == once.Keys;
  }

  /**
   A worked case: the user owns tags "2" and "3", the service lists "1"
   (home) and "2" (work). Afterwards the user owns exactly "1" and "2",
   "2" now reads `encode("work")`, and "3" is gone.
   */
  lemma ReconcileExample(user: UserId, encode: string -> string)
    ensures var store := map["2" := TagRecord(user, "errands"), "3" := TagRecord(user, "garden")];
            var data := [RemoteTag("1", "home"), RemoteTag("2", "work")];
            var r := Reconcile(store, user, data, encode);
            && OwnedIds(r, user) == {"1", "2"}
            && r.Keys == {"1", "2"}
            && r["1"] == TagRecord(user, encode("home"))
            && r["2"] == TagRecord(user, encode("work"))
  {
    var store := map["2" := TagRecord(user, "errands"), "3" := TagRecord(user, "garden")];
    var data := [RemoteTag("1", "home"), RemoteTag("2", "work")];
    assert RemoteIds(data) == {"1", "2"} by {
      assert data[0].id == "1" && data[1].id == "2";
    }
    assert OwnedIds(store, user) == {"2", "3"};
    UpsertAllAt(store, user, data, encode);
    assert IsLastOccurrence(data, 0) && IsLastOccurrence(data, 1);
  }
}
