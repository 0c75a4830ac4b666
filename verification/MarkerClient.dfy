/** The loops around the requests of the marker protocol, as one client runs them against the
    store while others act in between: reserve_version, write_commit and Marker::release. */
module MarkerClient {
  import opened ObjectStore
  import opened MarkerWorld

  type LogStore = MemoryConnector<Key, Content>

  /** A version somebody reserved under this ETag: it still holds the marker exactly if it still
      carries the ETag. */
  ghost predicate Reservation(s: Store<Key, Content>, k: Key, etag: nat) {
    && FreshEtags(s) && etag <= s.nextEtag && k in s.objects
    && (s.objects[k].etag == etag <==> s.objects[k].content.Marker?)
  }

  /** What the steps of others do to a reserved version: they may take the marker over with an empty
      commit; a version that is not a marker stays as it is. No version disappears. */
  ghost predicate LeavesReservation(s: Store<Key, Content>, s': Store<Key, Content>, k: Key, etag: nat) {
    && FreshEtags(s') && s.nextEtag <= s'.nextEtag
    && (forall n <- s.objects :: n in s'.objects)
    && (k in s.objects ==>
          if s.objects[k].etag == etag then
            s'.objects[k] == s.objects[k] || (s'.objects[k].content == RELEASED && s'.objects[k].etag > s.nextEtag)
          else s.objects[k].content.Commit? ==>
            s'.objects[k].content == s.objects[k].content && s'.objects[k].etag != etag)
  }

  /** Every step of another transaction has that effect: this is what the protocol guarantees. */
  lemma OthersLeaveReservation(w: World, w': World, actor: nat, at: Target, k: Key, etag: nat)
    requires WorldInv(w) && WorldInv(w') && Evolves(w, w', actor, at)
    requires at != Only(k) && Reservation(w.store, k, etag)
    ensures LeavesReservation(w.store, w'.store, k, etag) && Reservation(w'.store, k, etag)
  {
    assert KeyInv(w, k) && KeyEvolves(w, w', actor, at, k);
    forall n <- w'.store.objects ensures w'.store.objects[n].etag <= w'.store.nextEtag {
      assert KeyInv(w', n);
    }
    forall n <- w.store.objects ensures n in w'.store.objects {
      assert KeyEvolves(w, w', actor, at, n);
    }
  }

  /** Anything others may do between two requests; only the contract matters here. */
  method OthersAct(c: LogStore, k: Key, etag: nat)
    requires FreshEtags(c.View())
    modifies c
    ensures LeavesReservation(old(c.View()), c.View(), k, etag)
  {}

  datatype CommitWrite = Done | Taken | Gone

  class Marker {
    const key: Key
    const etag: nat
    const store: LogStore
    var valid: bool

    constructor (store: LogStore, key: Key, etag: nat)
      ensures this.store == store && this.key == key && this.etag == etag && valid
    {
      this.store, this.key, this.etag, this.valid := store, key, etag, true;
    }

    /** After true the version is not reserved by this marker any more; what it held, if it was not
        the marker, is still there. One request that gets through is enough. */
    method Release(faults: nat -> Fault) returns (ok: bool)
      requires Reservation(store.View(), key, etag)
      modifies this, store
      ensures Reservation(store.View(), key, etag)
      ensures !old(valid) || (exists attempt: nat :: attempt < 5 && faults(attempt).Delivered?) ==> ok
      ensures ok ==> !valid
      ensures ok && old(valid) ==> store.objects[key].content.Commit?
      ensures ok && old(valid) && old(store.objects[key].content.Marker?) ==> store.objects[key].content == RELEASED
      ensures old(store.objects[key].content.Commit?) ==> store.objects[key].content == old(store.objects[key].content)
      ensures !ok ==> valid
    {
      if !valid { return true; }
      for attempt := 0 to 5
        invariant valid && Reservation(store.View(), key, etag)
        invariant forall before: nat | before < attempt :: !faults(before).Delivered?
        invariant old(store.objects[key].content.Commit?) ==> store.objects[key].content == old(store.objects[key].content)
        invariant old(store.objects[key].content.Marker?) ==> store.objects[key].content.Marker? || store.objects[key].content == RELEASED
      {
        OthersAct(store, key, etag);
        var status := store.WriteIfMatch(key, RELEASED, etag, faults(attempt));
        if status == Ok || status == PreconditionFailed {
          valid := false;
          return true;
        }
      }
      return false;
    }

    /** write_commit. Done: the version holds the log. Taken: it holds another commit, and therefore
        never the log. Gone: unknown, all attempts failed; not if one of them got through. */
    method WriteCommit(log: Content, retries: nat, faults: nat -> Fault) returns (r: CommitWrite)
      requires valid && Reservation(store.View(), key, etag)
      requires log.Commit? && log != RELEASED && store.objects[key].content != log
      modifies this, store
      ensures Reservation(store.View(), key, etag)
      ensures r == Done ==> !valid && store.objects[key].content == log
      ensures r == Taken ==> !valid && store.objects[key].content.Commit? && store.objects[key].content != log
      ensures r == Gone ==> valid && forall attempt: nat | attempt < retries :: !faults(attempt).Delivered?
      ensures old(store.objects[key].content.Commit?) ==> store.objects[key].content == old(store.objects[key].content)
    {
      var uncertain := false;
      for attempt := 0 to retries
        invariant valid && Reservation(store.View(), key, etag)
        invariant !uncertain ==> store.objects[key].content != log
        invariant forall before: nat | before < attempt :: !faults(before).Delivered?
        invariant old(store.objects[key].content.Commit?) ==> store.objects[key].content == old(store.objects[key].content)
      {
        OthersAct(store, key, etag);
        var status := store.WriteIfMatch(key, log, etag, faults(attempt));
        if status == Ok {
          valid := false;
          return Done;
        }
        if status == PreconditionFailed {
          OthersAct(store, key, etag);
          valid := false;
          return if uncertain && store.objects[key].content == log then Done else Taken;
        }
        uncertain := true;
      }
      return Gone;
    }
  }

  /** reserve_version, for at most `fuel` requests: the first version the store lets it have, above
      the highest one known. All versions in between exist. If all requests get through and it has
      none, every request has met another existing version. */
  method ReserveVersion(c: LogStore, table: nat, highest: nat, owner: nat, deadline: int, fuel: nat, faults: nat -> Fault)
    returns (ok: bool, version: nat, etag: nat)
    requires FreshEtags(c.View())
    modifies c
    ensures FreshEtags(c.View())
    ensures ok ==> version > highest && Reservation(c.View(), Key(table, version), etag)
    ensures ok ==> c.objects[Key(table, version)] == Object(Content.Marker(owner, deadline), etag)
    ensures forall v: nat | highest < v < version :: Key(table, v) in c.objects
    ensures !ok && (forall request: nat | request < fuel :: faults(request).Delivered?) ==>
              version == highest + fuel && (fuel > 0 ==> Key(table, version) in c.objects)
  {
    version, etag := highest, 0;
    for request := 0 to fuel
      invariant FreshEtags(c.View()) && version >= highest
      invariant forall v: nat | highest < v <= version :: Key(table, v) in c.objects
      invariant (forall before: nat | before < request :: faults(before).Delivered?) ==> version == highest + request
    {
      var k := Key(table, version + 1);
      OthersAct(c, k, 0);
      if k in c.objects {
        version := version + 1;
      } else {
        OthersAct(c, k, 0);
        var status, newEtag := c.WriteAtomic(k, Content.Marker(owner, deadline), faults(request));
        if status == Ok {
          return true, version + 1, newEtag;
        }
        if status != Error { version := version + 1; }
      }
    }
    return false, version, etag;
  }
}
