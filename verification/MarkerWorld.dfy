/** The part of the marker protocol all transactions share: the log versions in the object store,
    plus a history the code does not keep (when each version became final, who reserved it). */
module MarkerWorld {
  import opened ObjectStore
  import opened DeltaReplay

  /** <table>/_delta_log/<version>.json */
  datatype Key = Key(table: nat, version: nat)

  /** Writer: the commit of a transaction. Release: the empty commit that gives a version up or
      takes it over. Legacy: a commit of an engine that knows no markers. */
  datatype Author = Writer(txn: nat) | Release | Legacy

  datatype Content =
    | Marker(owner: nat, deadline: int)
    | Commit(author: Author, actions: seq<FileAction>)

  const RELEASED: Content := Commit(Release, [])

  function Actions(content: Content): seq<FileAction> {
    match content
    case Marker(_, _) => []
    case Commit(_, actions) => actions
  }

  datatype World = World(store: Store<Key, Content>, time: nat, finalAt: map<Key, nat>, owner: map<Key, nat>)
  {
    ghost predicate Exists(k: Key) { k in store.objects }

    function Holds(k: Key): Content
      requires k in store.objects
    {
      store.objects[k].content
    }

    predicate Final(k: Key) {
      k in store.objects && store.objects[k].content.Commit?
    }

    predicate Carries(k: Key, etag: nat) {
      k in store.objects && store.objects[k].etag == etag
    }
  }

  // ---- requests, each one atomic in the store --------------------------------------------

  function Tick(w: World): World { w.(time := w.time + 1) }

  /** reserve_version: put-if-absent of a marker. */
  function PlaceMarker(w: World, k: Key, c: nat, deadline: int, f: Fault): (World, WriteStatus) {
    var r := PutIfAbsent(w.store, k, Marker(c, deadline), f);
    var owner := if f.Refused? || k in w.store.objects then w.owner else w.owner[k := c];
    (World(r.0, w.time + 1, w.finalAt, owner), r.1)
  }

  /** Every other write of the protocol but one: replace the object that carries the ETag. */
  function Swap(w: World, k: Key, content: Content, etag: nat, f: Fault): (World, WriteStatus) {
    var r := PutIfMatch(w.store, k, content, etag, f);
    var finalAt := if f.Refused? || !w.Carries(k, etag) then w.finalAt else w.finalAt[k := w.time];
    (World(r.0, w.time + 1, finalAt, w.owner), r.1)
  }

  /** open_tableV2 after a failed load: an unconditional empty commit. */
  function Overwrite(w: World, k: Key, f: Fault): World {
    var finalAt := if f.Refused? || k in w.finalAt then w.finalAt else w.finalAt[k := w.time];
    World(Put(w.store, k, RELEASED, f).0, w.time + 1, finalAt, w.owner)
  }

  /** A commit of an engine without markers: put-if-absent of its actions. */
  function LegacyCommit(w: World, k: Key, actions: seq<FileAction>): World
    requires k !in w.store.objects
  {
    World(Stored(w.store, k, Commit(Legacy, actions)), w.time + 1, w.finalAt[k := w.time], w.owner)
  }

  // ---- the invariant of the shared part ------------------------------------------------------

  /** Below an existing version there is no gap, ETags are not from the future, and the history
      fits the objects. */
  ghost predicate KeyInv(w: World, k: Key) {
    && (k.version > 0 && w.Exists(k) ==> w.Exists(Key(k.table, k.version - 1)))
    && (w.Exists(k) ==> w.store.objects[k].etag <= w.store.nextEtag)
    && (k in w.finalAt <==> w.Final(k))
    && (k in w.finalAt ==> w.finalAt[k] < w.time)
    && (k in w.owner ==> w.Exists(k))
    && (w.Exists(k) && w.Holds(k).Marker? ==> k in w.owner && w.owner[k] == w.Holds(k).owner)
    && (w.Exists(k) && w.Holds(k).Commit? && w.Holds(k).author.Writer? ==>
          k in w.owner && w.owner[k] == w.Holds(k).author.txn)
    && (k in w.owner && w.Final(k) ==> w.Holds(k) == RELEASED || w.Holds(k).author == Writer(w.owner[k]))
  }

  ghost predicate WorldInv(w: World) {
    forall k :: KeyInv(w, k)
  }

  /** The version a step may turn into a commit of the acting transaction. */
  datatype Target = Nothing | Only(key: Key)

  /** What one step of transaction `actor` may do to a version. */
  ghost predicate KeyEvolves(w: World, w': World, actor: nat, at: Target, k: Key) {
    && (w.Exists(k) ==> w'.Exists(k))
    && (!w.Exists(k) && w'.Exists(k) ==> w'.Holds(k).Marker? || w'.Holds(k).author.Legacy?)
    && (k in w.owner ==> k in w'.owner && w'.owner[k] == w.owner[k])
    && (k !in w.owner && k in w'.owner ==> !w.Exists(k) && w'.owner[k] == actor)
    && (w.Final(k) ==> Kept(w, w', k))
    && (w.Exists(k) && w.Holds(k).Marker? ==>
          w'.store.objects[k] == w.store.objects[k] || Finished(w, w', k, actor, at))
  }

  /** A final version keeps its content and the time it became final. */
  ghost predicate Kept(w: World, w': World, k: Key)
    requires w.Final(k)
  {
    && w'.Final(k) && w'.Holds(k) == w.Holds(k)
    && (k in w.finalAt ==> k in w'.finalAt && w'.finalAt[k] == w.finalAt[k])
    && (w'.store.objects[k] == w.store.objects[k] || w.store.nextEtag < w'.store.objects[k].etag)
  }

  /** A marker became final just now, under a new ETag. */
  ghost predicate Finished(w: World, w': World, k: Key, actor: nat, at: Target)
    requires w.Exists(k)
  {
    && w'.Exists(k) && k in w'.finalAt && w'.finalAt[k] == w.time
    && w.store.nextEtag < w'.store.objects[k].etag
    && (w'.Holds(k) == RELEASED ||
        (at == Only(k) && k in w.owner && w.owner[k] == actor &&
         w'.Holds(k).Commit? && w'.Holds(k).author == Writer(actor)))
  }

  ghost predicate Evolves(w: World, w': World, actor: nat, at: Target) {
    && w'.time == w.time + 1
    && w.store.nextEtag <= w'.store.nextEtag
    && forall k :: KeyEvolves(w, w', actor, at, k)
  }

  lemma TickEvolves(w: World, actor: nat, at: Target)
    requires WorldInv(w)
    ensures WorldInv(Tick(w)) && Evolves(w, Tick(w), actor, at)
  {
    var w' := Tick(w);
    forall k ensures KeyInv(w', k) && KeyEvolves(w, w', actor, at, k) {
      assert KeyInv(w, k);
    }
  }

  lemma PlaceMarkerEvolves(w: World, k0: Key, c: nat, deadline: int, f: Fault, at: Target)
    requires WorldInv(w) && (k0.version > 0 ==> w.Exists(Key(k0.table, k0.version - 1)))
    ensures var w' := PlaceMarker(w, k0, c, deadline, f).0;
            WorldInv(w') && Evolves(w, w', c, at)
  {
    var w' := PlaceMarker(w, k0, c, deadline, f).0;
    forall k ensures KeyInv(w', k) && KeyEvolves(w, w', c, at, k) {
      assert KeyInv(w, k);
    }
  }

  /** The holder of the ETag commits, or anyone replaces a marker by an empty commit. */
  lemma SwapEvolves(w: World, k0: Key, content: Content, etag: nat, f: Fault, actor: nat, at: Target)
    requires WorldInv(w)
    requires w.Carries(k0, etag) ==> w.Holds(k0).Marker?
    requires content == RELEASED ||
             (at == Only(k0) && content.Commit? && content.author == Writer(actor) &&
              k0 in w.owner && w.owner[k0] == actor)
    ensures var w' := Swap(w, k0, content, etag, f).0;
            WorldInv(w') && Evolves(w, w', actor, at)
  {
    var w' := Swap(w, k0, content, etag, f).0;
    forall k ensures KeyInv(w', k) && KeyEvolves(w, w', actor, at, k) {
      assert KeyInv(w, k);
    }
  }

  lemma OverwriteEvolves(w: World, k0: Key, f: Fault, actor: nat, at: Target)
    requires WorldInv(w) && w.Exists(k0)
    requires w.Holds(k0).Marker? || w.Holds(k0) == RELEASED
    ensures var w' := Overwrite(w, k0, f);
            WorldInv(w') && Evolves(w, w', actor, at)
  {
    var w' := Overwrite(w, k0, f);
    forall k ensures KeyInv(w', k) && KeyEvolves(w, w', actor, at, k) {
      assert KeyInv(w, k);
    }
  }

  lemma LegacyEvolves(w: World, k0: Key, actions: seq<FileAction>, actor: nat, at: Target)
    requires WorldInv(w) && !w.Exists(k0)
    requires k0.version > 0 ==> w.Exists(Key(k0.table, k0.version - 1))
    ensures var w' := LegacyCommit(w, k0, actions);
            WorldInv(w') && Evolves(w, w', actor, at)
  {
    var w' := LegacyCommit(w, k0, actions);
    forall k ensures KeyInv(w', k) && KeyEvolves(w, w', actor, at, k) {
      assert KeyInv(w, k);
    }
  }
}
