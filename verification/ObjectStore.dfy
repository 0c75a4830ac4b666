/** The object store every protocol of LakeVilla rests on: put-if-absent and
    overwrite-if-the-ETag-matches over a map of objects (MemoryConnector.cpp).

    A request meets one of three fates. MemoryConnector itself knows the first two (its
    fail_hook refuses a request before it is applied); a network adds the third. */
module ObjectStore {

  datatype WriteStatus = Ok | AlreadyExists | PreconditionFailed | Error

  /** Delivered: applied, and the caller learns the status. Refused: not applied, Error.
      ResponseLost: applied, yet the caller sees Error. */
  datatype Fault = Delivered | Refused | ResponseLost

  datatype Object<C> = Object(content: C, etag: nat)

  datatype Store<K, C> = Store(objects: map<K, Object<C>>, nextEtag: nat)

  function Seen(status: WriteStatus, f: Fault): WriteStatus {
    if f.Delivered? then status else Error
  }

  function Stored<K, C>(s: Store<K, C>, k: K, content: C): Store<K, C> {
    Store(s.objects[k := Object(content, s.nextEtag + 1)], s.nextEtag + 1)
  }

  function PutIfAbsent<K, C>(s: Store<K, C>, k: K, content: C, f: Fault): (Store<K, C>, WriteStatus) {
    if f.Refused? then (s, Error)
    else if k in s.objects then (s, Seen(AlreadyExists, f))
    else (Stored(s, k, content), Seen(Ok, f))
  }

  function PutIfMatch<K, C>(s: Store<K, C>, k: K, content: C, etag: nat, f: Fault): (Store<K, C>, WriteStatus) {
    if f.Refused? then (s, Error)
    else if k !in s.objects || s.objects[k].etag != etag then (s, Seen(PreconditionFailed, f))
    else (Stored(s, k, content), Seen(Ok, f))
  }

  function Put<K, C>(s: Store<K, C>, k: K, content: C, f: Fault): (Store<K, C>, bool) {
    if f.Refused? then (s, false) else (Stored(s, k, content), f.Delivered?)
  }

  function Erase<K, C>(s: Store<K, C>, k: K, f: Fault): (Store<K, C>, bool) {
    if f.Refused? then (s, false) else (s.(objects := s.objects - {k}), f.Delivered?)
  }

  /** The connector as the source keeps it: a map and an ETag counter, changed in place. */
  class MemoryConnector<K(==), C> {
    var objects: map<K, Object<C>>
    var nextEtag: nat

    ghost function View(): Store<K, C>
      reads this
    {
      Store(objects, nextEtag)
    }

    constructor ()
      ensures View() == Store(map[], 0)
    {
      objects, nextEtag := map[], 0;
    }

    method StoreObject(k: K, content: C)
      modifies this
      ensures View() == Stored(old(View()), k, content)
    {
      nextEtag := nextEtag + 1;
      objects := objects[k := Object(content, nextEtag)];
    }

    method Write(k: K, content: C, f: Fault) returns (ok: bool)
      modifies this
      ensures (View(), ok) == Put(old(View()), k, content, f)
    {
      if f.Refused? { return false; }
      StoreObject(k, content);
      return f.Delivered?;
    }

    method WriteAtomic(k: K, content: C, f: Fault) returns (status: WriteStatus, etag: nat)
      modifies this
      ensures (View(), status) == PutIfAbsent(old(View()), k, content, f)
      ensures f.Delivered? ==> status == if old(k in objects) then AlreadyExists else Ok
      ensures status.Ok? ==> k in objects && objects[k] == Object(content, etag) && etag == nextEtag
    {
      etag := 0;
      if f.Refused? { return Error, etag; }
      if k in objects { return Seen(AlreadyExists, f), etag; }
      StoreObject(k, content);
      return Seen(Ok, f), nextEtag;
    }

    method WriteIfMatch(k: K, content: C, etag: nat, f: Fault) returns (status: WriteStatus)
      modifies this
      ensures (View(), status) == PutIfMatch(old(View()), k, content, etag, f)
      ensures f.Delivered? ==> status == if old(k in objects && objects[k].etag == etag) then Ok else PreconditionFailed
    {
      if f.Refused? { return Error; }
      if k !in objects || objects[k].etag != etag { return Seen(PreconditionFailed, f); }
      StoreObject(k, content);
      return Seen(Ok, f);
    }

    method DeleteFile(k: K, f: Fault) returns (ok: bool)
      modifies this
      ensures (View(), ok) == Erase(old(View()), k, f)
    {
      if f.Refused? { return false; }
      objects := objects - {k};
      return f.Delivered?;
    }
  }

  // ---- an ETag names one write for ever ----------------------------------------------------

  datatype Request<K, C> =
    | WritePlain(key: K, content: C, fault: Fault)
    | WriteNew(key: K, content: C, fault: Fault)
    | WriteOver(key: K, content: C, etag: nat, fault: Fault)
    | Delete(key: K, fault: Fault)

  function Serve<K, C>(s: Store<K, C>, r: Request<K, C>): Store<K, C> {
    match r
    case WritePlain(k, c, f) => Put(s, k, c, f).0
    case WriteNew(k, c, f) => PutIfAbsent(s, k, c, f).0
    case WriteOver(k, c, e, f) => PutIfMatch(s, k, c, e, f).0
    case Delete(k, f) => Erase(s, k, f).0
  }

  function ServeAll<K, C>(s: Store<K, C>, rs: seq<Request<K, C>>): Store<K, C>
    decreases |rs|
  {
    if rs == [] then s else ServeAll(Serve(s, rs[0]), rs[1..])
  }

  ghost predicate FreshEtags<K, C>(s: Store<K, C>) {
    forall k <- s.objects :: s.objects[k].etag <= s.nextEtag
  }

  /** Whatever requests are served in between, an object that carries an ETag already handed out
      is that very object: deleting and recreating it, or overwriting it twice, cannot bring an
      old ETag back. A conditional write that succeeds therefore replaces what its caller saw. */
  lemma {:induction false} EtagPinsObject<K, C>(s: Store<K, C>, rs: seq<Request<K, C>>, k: K)
    requires FreshEtags(s)
    ensures var s' := ServeAll(s, rs);
            FreshEtags(s') && s.nextEtag <= s'.nextEtag
    ensures var s' := ServeAll(s, rs);
            k in s'.objects && s'.objects[k].etag <= s.nextEtag ==>
              k in s.objects && s.objects[k] == s'.objects[k]
    decreases |rs|
  {
    if rs != [] {
      EtagPinsObject(Serve(s, rs[0]), rs[1..], k);
    }
  }
}
