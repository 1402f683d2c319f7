/**
 * The client and the server together: a snapshot pushed by one store reaches
 * a store whose `lastUpdate` is older, and only such a store.
 */
module SyncProtocol {
  import opened Wrappers
  import opened JsNumber
  import opened TodoStore
  import opened SyncServer

  /** The query `retrieveSyncData(lastUpdate)` sends: `updatedAt=${lastUpdate}`. */
  function Query(lastUpdate: int): (q: Option<string>)
  {
    Some(Show(lastUpdate))
  }

  /** How a GET reply reaches the store: a 200 body as is, a thrown handler as a failed fetch. */
  function ToFetch(reply: Reply): (f: Fetch)
  {
    match reply
    case Reply(data, isNewer) => Fetched(Some(SyncResponse(Some(data), Some(isNewer))))
    case Thrown(_) => FetchFailed
  }

  /**
   * After `pushSyncData(blob, snapshot.lastUpdate)` stored `blob` as the newest
   * file, a store with local version `local` adopts the snapshot exactly when
   * `local < snapshot.lastUpdate`, and otherwise is told nothing is newer.
   */
  lemma {:induction false} PushReachesOlderStores(tmp: Option<Directory>, snapshot: Snapshot, blob: string, now: int,
                                                  local: int, listing: seq<string>, parse: Parser)
    requires blob != ""
    requires parse(blob) == Some(Payload(Some(snapshot.todoLists), Some(snapshot.todoItems), Some(snapshot.lastUpdate)))
    requires forall name :: tmp.Some? && name in tmp.value && tmp.value[name].File? && name != Show(snapshot.lastUpdate)
               ==> tmp.value[name].mtime < now
    requires ListsExactly(listing, Stored(tmp, snapshot.lastUpdate, blob, now))
    ensures Reconcile(ToFetch(Get(Some(Stored(tmp, snapshot.lastUpdate, blob, now)), Query(local), listing)), parse)
      == if snapshot.lastUpdate > local then Replaced(snapshot) else NothingNewer
    ensures Reconcile(ToFetch(GetChecked(Some(Stored(tmp, snapshot.lastUpdate, blob, now)), Query(local), listing)), parse)
      == if snapshot.lastUpdate > local then Replaced(snapshot) else NothingNewer
  {
    var dir := Stored(tmp, snapshot.lastUpdate, blob, now);
    PostThenGet(tmp, snapshot.lastUpdate, blob, now, local, listing);
    var reply := Get(Some(dir), Query(local), listing);
    ShowRoundTrip(local);
    GetCheckedAgrees(Some(dir), Show(local), listing);
    assert GetChecked(Some(dir), Query(local), listing) == reply;
    if snapshot.lastUpdate > local {
      assert reply == Reply(blob, true);
      ReconcileAdoptsNewer(blob, parse, snapshot);
    } else {
      assert reply == Reply("", false);
    }
  }
}
