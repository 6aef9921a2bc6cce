/** `BaseIndex`: index lifecycle, synchronization tracking and keyed CRUD of one entity
    type over the backend. The entity-specific hooks of the abstract Java class
    (`getKeyValue`, `getIndexSettings`, `mapKey`, `mapProperties`, `toDoc`) and the
    normalizer are given to the constructor. */
module Index {
  import opened Wrappers
  import opened Json
  import Compiler = Mapping
  import opened Backend

  /** Names of the index, its type, and the shared management index and its type. */
  datatype IndexDefinition = IndexDefinition(
    indexName: string, indexType: string, managementIndex: string, managementType: string)

  /** The abstract members a concrete index supplies. `indexSettings` is `Err` when
      `getIndexSettings` throws; `dtoKey` is `Dto.getKey()`. */
  datatype Hooks<D, !E, !K> = Hooks(
    keyValue: K -> string,
    indexSettings: Result<Settings, Error>,
    mapKey: Mapping,
    mapProperties: Mapping,
    toDoc: Source -> D,
    dtoKey: E -> K)

  /** The normalizer: turns an object, an entity or a key into update requests (or throws). */
  datatype Normalizer<!E, !K, !O> = Normalizer(
    normalizeObject: (O, K) -> Result<seq<UpdateRequest>, Error>,
    normalizeDto: E -> Result<seq<UpdateRequest>, Error>,
    normalizeKey: K -> Result<seq<UpdateRequest>, Error>)

  datatype IndexStat = IndexStat(documentCount: nat, lastUpdate: int)

  /** The fixed settings of the management index. */
  const ManagementSettings: Settings :=
    map["mapper.dynamic" := JBool(true), "number_of_replicas" := JNumber(1), "number_of_shards" := JNumber(1)]

  const UpdatedAt: string := "updatedAt"

  const NestedDeleteMessage: string := "Cannot delete nested Object from ES. Should be using Update"

  function InvalidConfiguration(indexName: string): string {
    "Invalid configuration for index " + indexName
  }

  function EnsureIndex(s: State, index: string, settings: Settings): State {
    if index in s.indices then s else s.Created(index, settings)
  }

  /** `t` keeps the documents, the indices and the settings of existing indices of `s`. */
  ghost predicate Extends(s: State, t: State) {
    && t.docs == s.docs
    && s.indices <= t.indices
    && forall i :: i in s.indices && i in s.settings ==> i in t.settings && t.settings[i] == s.settings[i]
  }

  // ---------------------------------------------------------------------------
  // Synchronization record: one document per domain index in the management index

  /** What `getField("updatedAt").getValue()` yields for a fetched management document. */
  function SyncTime(doc: Option<Source>): (r: Result<int, Error>)
    ensures r.Ok? <==> doc.Some? && UpdatedAt in doc.value && doc.value[UpdatedAt].JNumber?
    ensures r.Ok? ==> r.value == doc.value[UpdatedAt].n
    ensures r.Err? ==> r.error == NullValue(UpdatedAt) || r.error == ClassCast(UpdatedAt)
  {
    match doc
    case None => Err(NullValue(UpdatedAt))
    case Some(d) =>
      if UpdatedAt !in d then Err(NullValue(UpdatedAt))
      else if d[UpdatedAt].JNumber? then Ok(d[UpdatedAt].n)
      else Err(ClassCast(UpdatedAt))
  }

  function StoredTime(docs: map<DocAddr, Source>, addr: DocAddr): Option<int> {
    match SyncTime(Lookup(docs, addr))
    case Ok(t) => Some(t)
    case Err(_) => None
  }

  function Max(a: int, b: int): int { if a < b then b else a }

  function SyncRequest(addr: DocAddr, now: int): UpdateRequest {
    UpdateRequest(addr.index, addr.docType, addr.id, map[UpdatedAt := JNumber(now)], None)
  }

  /** `setLastSynchronization` as written: the time is written only when a readable time is
      stored and the new time is strictly after it. */
  function Synchronized(docs: map<DocAddr, Source>, addr: DocAddr, now: int): (r: map<DocAddr, Source>)
    ensures r == docs || r == ApplyUpdate(docs, SyncRequest(addr, now))
    ensures forall a :: a != addr ==> Lookup(r, a) == Lookup(docs, a)
  {
    match StoredTime(docs, addr)
    case Some(t) => if now > t then ApplyUpdate(docs, SyncRequest(addr, now)) else docs
    case None => docs
  }

  /** The intended rule: a missing record means "never synchronized", so the time is then
      stored with an upsert. Afterwards a time is always recorded: the new one when nothing
      readable was stored, the larger of the two otherwise. */
  function SynchronizedIntended(docs: map<DocAddr, Source>, addr: DocAddr, now: int): (r: map<DocAddr, Source>)
    ensures StoredTime(r, addr) ==
      Some(if StoredTime(docs, addr).Some? then Max(StoredTime(docs, addr).value, now) else now)
    ensures forall a :: a != addr ==> Lookup(r, a) == Lookup(docs, a)
  {
    match StoredTime(docs, addr)
    case Some(t) => if now > t then ApplyUpdate(docs, SyncRequest(addr, now)) else docs
    case None => ApplyUpdate(docs, SyncRequest(addr, now).(upsert := Some(map[UpdatedAt := JNumber(now)])))
  }

  /** The stored time never decreases: after a write attempt it is the larger of the old and
      the new time, and no other document changes. */
  lemma SyncNeverRegresses(docs: map<DocAddr, Source>, addr: DocAddr, now: int)
    requires StoredTime(docs, addr).Some?
    ensures StoredTime(Synchronized(docs, addr, now), addr) == Some(Max(StoredTime(docs, addr).value, now))
    ensures forall a :: a != addr ==> Lookup(Synchronized(docs, addr, now), a) == Lookup(docs, a)
  {
  }

  /** Two write attempts commute, and, when a time is stored, leave the largest of the three
      times. */
  lemma SyncOrderIndependent(docs: map<DocAddr, Source>, addr: DocAddr, t1: int, t2: int)
    ensures Synchronized(Synchronized(docs, addr, t1), addr, t2) == Synchronized(Synchronized(docs, addr, t2), addr, t1)
    ensures StoredTime(docs, addr).Some? ==>
      StoredTime(Synchronized(Synchronized(docs, addr, t1), addr, t2), addr) ==
        Some(Max(StoredTime(docs, addr).value, Max(t1, t2)))
  {
    if StoredTime(docs, addr).None? {
      SyncAsWrittenNeverInitializes(docs, addr, t1);
      SyncAsWrittenNeverInitializes(docs, addr, t2);
      return;
    }
    var t := StoredTime(docs, addr).value;
    SyncNeverRegresses(docs, addr, t1);
    SyncNeverRegresses(docs, addr, t2);
    SyncNeverRegresses(Synchronized(docs, addr, t1), addr, t2);
    SyncNeverRegresses(Synchronized(docs, addr, t2), addr, t1);
    var a, b := Synchronized(Synchronized(docs, addr, t1), addr, t2), Synchronized(Synchronized(docs, addr, t2), addr, t1);
    assert addr in a && addr in b;
    assert a[addr] == b[addr] by {
      var d := docs[addr];
      var w := Max(t, Max(t1, t2));
      assert a[addr] == (if w == t then d else d[UpdatedAt := JNumber(w)]);
      assert b[addr] == (if w == t then d else d[UpdatedAt := JNumber(w)]);
    }
    assert forall x :: x in a <==> x in b by {
      forall x ensures x in a <==> x in b {
        if x != addr {
          assert Lookup(a, x) == Lookup(docs, x) == Lookup(b, x);
        }
      }
    }
    forall x | x in a ensures a[x] == b[x] {
      if x != addr {
        assert Lookup(a, x) == Lookup(docs, x) == Lookup(b, x);
      }
    }
  }

  /** As written, a record that is missing (or unreadable) is never created: every write
      attempt leaves the documents as they are. */
  lemma SyncAsWrittenNeverInitializes(docs: map<DocAddr, Source>, addr: DocAddr, now: int)
    requires StoredTime(docs, addr).None?
    ensures Synchronized(docs, addr, now) == docs
    ensures StoredTime(Synchronized(docs, addr, now), addr).None?
  {
  }

  // ---------------------------------------------------------------------------
  // Bulk writes

  /** `request.index(...).id(...).type(...)`: the request now addresses one document. */
  function Stamp(r: UpdateRequest, index: string, docType: string, id: string): UpdateRequest {
    r.(index := index, docType := docType, id := id)
  }

  function Stamped(rs: seq<UpdateRequest>, index: string, docType: string, id: string): (r: seq<UpdateRequest>)
    ensures |r| == |rs|
    ensures forall i :: 0 <= i < |r| ==>
      r[i].Addr() == DocAddr(index, docType, id) && r[i].doc == rs[i].doc && r[i].upsert == rs[i].upsert
  {
    seq(|rs|, i requires 0 <= i < |rs| => Stamp(rs[i], index, docType, id))
  }

  /** An upsert batch writes only the keyed document: it keeps every other document, and the keyed
      one exists afterwards exactly when it existed or some request carries an upsert document. */
  lemma UpsertBatchEffect(docs: map<DocAddr, Source>, rs: seq<UpdateRequest>, index: string, docType: string, id: string)
    ensures var after := ApplyAll(docs, Stamped(rs, index, docType, id));
      && (DocAddr(index, docType, id) in after <==>
            DocAddr(index, docType, id) in docs || exists i :: 0 <= i < |rs| && rs[i].upsert.Some?)
      && forall a :: a != DocAddr(index, docType, id) ==> Lookup(after, a) == Lookup(docs, a)
  {
    var st := Stamped(rs, index, docType, id);
    BulkTouchesOnlyItsDocument(docs, st, DocAddr(index, docType, id));
    assert forall i :: 0 <= i < |rs| ==> (st[i].upsert.Some? <==> rs[i].upsert.Some?);
  }

  class BaseIndex<D, E, K, O> {
    const definition: IndexDefinition
    const normalizer: Normalizer<E, K, O>
    const hooks: Hooks<D, E, K>
    const backend: Backend

    constructor (definition: IndexDefinition, normalizer: Normalizer<E, K, O>, hooks: Hooks<D, E, K>, backend: Backend)
      ensures this.definition == definition && this.normalizer == normalizer
      ensures this.hooks == hooks && this.backend == backend
    {
      this.definition := definition;
      this.normalizer := normalizer;
      this.hooks := hooks;
      this.backend := backend;
    }

    /** `mapDomain()`, built from the entity's own key and property mappings. */
    function MapDomain(): Mapping {
      Compiler.MapDomain(hooks.mapKey, hooks.mapProperties)
    }

    /** The management document that holds this index's synchronization time. */
    function SyncAddr(): DocAddr {
      DocAddr(definition.managementIndex, definition.managementType, definition.indexName)
    }

    /** The document of a key: id `getKeyValue(key)` in this index and type. */
    function KeyAddr(key: K): DocAddr {
      DocAddr(definition.indexName, definition.indexType, hooks.keyValue(key))
    }

    // -------------------------------------------------------------------------
    // Lifecycle

    /** What `initializeIndex` returns and leaves behind, from a backend state and the failing
        requests. Failures of the management index setup and of the existence check of this
        index come out as they are; later ones are wrapped in an IllegalStateException that
        names the index. */
    function InitializeSpec(s: State, faults: set<Fault>): (Outcome<Error>, State) {
      var mgmt, name := definition.managementIndex, definition.indexName;
      var wrap := (e: Error) => Fail(IllegalState(InvalidConfiguration(name), Some(e)));
      if Fault(ExistsOp, mgmt) in faults then (Fail(RequestFailed(ExistsOp, mgmt)), s)
      else if mgmt !in s.indices && Fault(CreateOp, mgmt) in faults then (Fail(RequestFailed(CreateOp, mgmt)), s)
      else
        var s1 := EnsureIndex(s, mgmt, ManagementSettings);
        if Fault(ExistsOp, name) in faults then (Fail(RequestFailed(ExistsOp, name)), s1)
        else if name !in s1.indices && hooks.indexSettings.Err? then (wrap(hooks.indexSettings.error), s1)
        else if name !in s1.indices && Fault(CreateOp, name) in faults then (wrap(RequestFailed(CreateOp, name)), s1)
        else
          var s2 := if name in s1.indices then s1 else s1.Created(name, hooks.indexSettings.value);
          if Fault(PutMappingOp, name) in faults then (wrap(RequestFailed(PutMappingOp, name)), s2)
          else (Pass, s2.MappingPut(name, definition.indexType, MapDomain()))
    }

    /** `initializeManagementIndex`: create the shared management index if it is absent. */
    method InitializeManagementIndex() returns (o: Outcome<Error>)
      modifies backend`state
      ensures o == if Fault(ExistsOp, definition.managementIndex) in backend.faults
                   then Fail(RequestFailed(ExistsOp, definition.managementIndex))
                   else if definition.managementIndex !in old(backend.state.indices)
                        && Fault(CreateOp, definition.managementIndex) in backend.faults
                   then Fail(RequestFailed(CreateOp, definition.managementIndex))
                   else Pass
      ensures backend.state ==
        if o.Pass? then EnsureIndex(old(backend.state), definition.managementIndex, ManagementSettings)
        else old(backend.state)
    {
      var present := backend.Exists(definition.managementIndex);
      if present.Err? {
        return Fail(present.error);
      }
      if !present.value {
        o := backend.CreateIndex(definition.managementIndex, ManagementSettings);
      } else {
        o := Pass;
      }
    }

    /** `initializeIndex`: management index, then this index if absent, then always the
        mapping. */
    method InitializeIndex() returns (o: Outcome<Error>)
      modifies backend`state
      ensures (o, backend.state) == InitializeSpec(old(backend.state), backend.faults)
    {
      var name := definition.indexName;
      var m := InitializeManagementIndex();
      if m.Fail? {
        return m;
      }
      var present := backend.Exists(name);
      if present.Err? {
        return Fail(present.error);
      }
      if !present.value {
        if hooks.indexSettings.Err? {
          return Fail(IllegalState(InvalidConfiguration(name), Some(hooks.indexSettings.error)));
        }
        var c := backend.CreateIndex(name, hooks.indexSettings.value);
        if c.Fail? {
          return Fail(IllegalState(InvalidConfiguration(name), Some(c.error)));
        }
      }
      var p := backend.PutMapping(name, definition.indexType, MapDomain());
      if p.Fail? {
        return Fail(IllegalState(InvalidConfiguration(name), Some(p.error)));
      }
      o := Pass;
    }

    /** `start()`: set the index up. */
    method Start() returns (o: Outcome<Error>)
      modifies backend`state
      ensures (o, backend.state) == InitializeSpec(old(backend.state), backend.faults)
    {
      o := InitializeIndex();
    }

    /** Running the set-up twice: the second run succeeds whenever the first did, and changes
        nothing. */
    method InitializeTwice() returns (first: Outcome<Error>, second: Outcome<Error>)
      modifies backend`state
      ensures first.Pass? ==> second.Pass? && backend.state == InitializeSpec(old(backend.state), backend.faults).1
    {
      first := InitializeIndex();
      ghost var afterFirst := backend.state;
      InitializeIsIdempotent(old(backend.state), backend.faults);
      second := InitializeIndex();
      assert first.Pass? ==> backend.state == afterFirst;
    }

    /** Set-up is idempotent: from the state a successful run leaves, a second run succeeds and
        yields the same state. */
    lemma InitializeIsIdempotent(s: State, faults: set<Fault>)
      ensures InitializeSpec(s, faults).0.Pass? ==>
        InitializeSpec(InitializeSpec(s, faults).1, faults) == (Pass, InitializeSpec(s, faults).1)
    {
      var (o, s1) := InitializeSpec(s, faults);
      if o.Pass? {
        var mgmt, name, ty := definition.managementIndex, definition.indexName, definition.indexType;
        var sa := EnsureIndex(s, mgmt, ManagementSettings);
        var sb := if name in sa.indices then sa else sa.Created(name, hooks.indexSettings.value);
        assert s1 == sb.MappingPut(name, ty, MapDomain());
        var prev := if (name, ty) in sb.mappings then sb.mappings[(name, ty)] else map[];
        var cur := s1.mappings[(name, ty)];
        assert cur == prev + MapDomain();
        assert cur + MapDomain() == cur;
        assert mgmt in s1.indices && name in s1.indices;
        var (o2, s2) := InitializeSpec(s1, faults);
        assert s2 == s1.MappingPut(name, ty, MapDomain());
        assert s2.mappings == s1.mappings;
      }
    }

    /** Set-up never removes an index, never changes the settings of an index that exists,
        and touches no document, whether it succeeds or fails. */
    lemma InitializeKeepsData(s: State, faults: set<Fault>)
      ensures InitializeSpec(s, faults).1.docs == s.docs
      ensures s.indices <= InitializeSpec(s, faults).1.indices
      ensures forall i :: i in s.indices && i in s.settings ==>
        i in InitializeSpec(s, faults).1.settings && InitializeSpec(s, faults).1.settings[i] == s.settings[i]
    {
      var mgmt, name := definition.managementIndex, definition.indexName;
      var r := InitializeSpec(s, faults).1;
      var s1 := EnsureIndex(s, mgmt, ManagementSettings);
      assert Extends(s, s1);
      if r != s && r != s1 {
        var s2 := if name in s1.indices then s1 else s1.Created(name, hooks.indexSettings.value);
        assert Extends(s1, s2);
        assert r == s2 || r == s2.MappingPut(name, definition.indexType, MapDomain());
        assert Extends(s, r);
      }
    }

    /** After a successful set-up both indices exist, a management index it created has the
        fixed settings, and the type's mapping carries every entry of the domain mapping. */
    lemma InitializeSucceeds(s: State, faults: set<Fault>)
      requires InitializeSpec(s, faults).0.Pass?
      ensures definition.managementIndex in InitializeSpec(s, faults).1.indices
      ensures definition.indexName in InitializeSpec(s, faults).1.indices
      ensures definition.managementIndex !in s.indices ==>
        InitializeSpec(s, faults).1.settings[definition.managementIndex] == ManagementSettings
      ensures definition.indexName !in s.indices && definition.indexName != definition.managementIndex ==>
        InitializeSpec(s, faults).1.settings[definition.indexName] == hooks.indexSettings.value
      ensures (definition.indexName, definition.indexType) in InitializeSpec(s, faults).1.mappings
      ensures forall k :: k in MapDomain() ==>
        (k in InitializeSpec(s, faults).1.mappings[(definition.indexName, definition.indexType)]
         && InitializeSpec(s, faults).1.mappings[(definition.indexName, definition.indexType)][k] == MapDomain()[k])
    {
    }

    /** A failed set-up reports an IllegalStateException exactly when the management index
        and the existence check of this index went through. */
    lemma InitializeWrapsLateFailures(s: State, faults: set<Fault>)
      requires InitializeSpec(s, faults).0.Fail?
      ensures InitializeSpec(s, faults).0.error.IllegalState? <==>
        && Fault(ExistsOp, definition.managementIndex) !in faults
        && (definition.managementIndex in s.indices || Fault(CreateOp, definition.managementIndex) !in faults)
        && Fault(ExistsOp, definition.indexName) !in faults
      ensures InitializeSpec(s, faults).0.error.IllegalState? ==>
        InitializeSpec(s, faults).0.error.message == InvalidConfiguration(definition.indexName)
    {
    }

    // -------------------------------------------------------------------------
    // Statistics and synchronization

    /** `getLastSynchronization`: read this index's record in the management index. */
    method GetLastSynchronization() returns (r: Result<int, Error>)
      ensures r == if Fault(GetOp, definition.managementIndex) in backend.faults
                   then Err(RequestFailed(GetOp, definition.managementIndex))
                   else SyncTime(Lookup(backend.state.docs, SyncAddr()))
    {
      var got := backend.Get(GetRequest(SyncAddr(), None));
      if got.Err? {
        return Err(got.error);
      }
      r := SyncTime(got.value);
    }

    /** `setLastSynchronization`, with the current time as a parameter: compare with the
        stored time, then write only a strictly later one. */
    method SetLastSynchronization(now: int) returns (o: Outcome<Error>)
      modifies backend`state
      ensures o == if Fault(GetOp, definition.managementIndex) in backend.faults
                   then Fail(RequestFailed(GetOp, definition.managementIndex))
                   else match SyncTime(Lookup(old(backend.state.docs), SyncAddr()))
                     case Err(e) => Fail(e)
                     case Ok(t) =>
                       if now > t && Fault(UpdateOp, definition.managementIndex) in backend.faults
                       then Fail(RequestFailed(UpdateOp, definition.managementIndex))
                       else Pass
      ensures backend.state ==
        if o.Pass? then old(backend.state).(docs := Synchronized(old(backend.state.docs), SyncAddr(), now))
        else old(backend.state)
    {
      var last := GetLastSynchronization();
      if last.Err? {
        return Fail(last.error);
      }
      if now > last.value {
        o := backend.Update(SyncRequest(SyncAddr(), now));
      } else {
        o := Pass;
      }
    }

    /** `getIndexStat`: the index's document count and its last synchronization time. */
    method GetIndexStat() returns (r: Result<IndexStat, Error>)
      ensures r == if Fault(CountOp, definition.indexName) in backend.faults
                   then Err(RequestFailed(CountOp, definition.indexName))
                   else if Fault(GetOp, definition.managementIndex) in backend.faults
                   then Err(RequestFailed(GetOp, definition.managementIndex))
                   else match SyncTime(Lookup(backend.state.docs, SyncAddr()))
                     case Err(e) => Err(e)
                     case Ok(t) => Ok(IndexStat(backend.state.CountIn(definition.indexName), t))
    {
      var count := backend.Count(definition.indexName);
      if count.Err? {
        return Err(count.error);
      }
      var last := GetLastSynchronization();
      if last.Err? {
        return Err(last.error);
      }
      r := Ok(IndexStat(count.value, last.value));
    }

    /** `refresh()`: make recent writes visible to searches; no document changes. */
    method Refresh() returns (o: Outcome<Error>)
      ensures o == if Fault(RefreshOp, definition.indexName) in backend.faults
                   then Fail(RequestFailed(RefreshOp, definition.indexName))
                   else Pass
    {
      o := backend.Refresh(definition.indexName);
    }

    // -------------------------------------------------------------------------
    // CRUD

    /** `getByKey`: id and routing are both `getKeyValue(key)`; a missing document is `None`. */
    method GetByKey(key: K) returns (r: Result<Option<D>, Error>)
      ensures r.Err? <==> Fault(GetOp, definition.indexName) in backend.faults
      ensures r.Err? ==> r.error == RequestFailed(GetOp, definition.indexName)
      ensures r.Ok? ==> (r.value.None? <==> KeyAddr(key) !in backend.state.docs)
      ensures r.Ok? && r.value.Some? ==> r.value.value == hooks.toDoc(backend.state.docs[KeyAddr(key)])
    {
      var id := hooks.keyValue(key);
      var got := backend.Get(GetRequest(DocAddr(definition.indexName, definition.indexType, id), Some(id)));
      if got.Err? {
        return Err(got.error);
      }
      match got.value
      case Some(src) => r := Ok(Some(hooks.toDoc(src)));
      case None => r := Ok(None);
    }

    /** What one bulk submission of `requests` for `key` reports. */
    function BulkOutcome(requests: seq<UpdateRequest>, faults: set<Fault>): Outcome<Error> {
      if requests == [] then Fail(ValidationFailed(NoRequestsAdded))
      else if Fault(BulkOp, definition.indexName) in faults then Fail(RequestFailed(BulkOp, definition.indexName))
      else Pass
    }

    /** The backend state after the bulk submission of `requests` for `key`. */
    function Upserted(s: State, requests: seq<UpdateRequest>, key: K, faults: set<Fault>): State {
      if BulkOutcome(requests, faults).Pass? then
        s.BulkApplied(Stamped(requests, definition.indexName, definition.indexType, hooks.keyValue(key)))
      else s
    }

    /** `updateDocument`: one bulk item per request, each stamped with this index, this type
        and id `getKeyValue(key)`, submitted as a single bulk request. */
    method UpdateDocument(requests: seq<UpdateRequest>, key: K) returns (o: Outcome<Error>)
      modifies backend`state
      ensures o == BulkOutcome(requests, backend.faults)
      ensures backend.state == Upserted(old(backend.state), requests, key, backend.faults)
    {
      var bulk: seq<UpdateRequest> := [];
      var i := 0;
      while i < |requests|
        invariant 0 <= i <= |requests|
        invariant |bulk| == i
        invariant forall j :: 0 <= j < i ==>
          bulk[j] == Stamp(requests[j], definition.indexName, definition.indexType, hooks.keyValue(key))
      {
        bulk := bulk + [Stamp(requests[i], definition.indexName, definition.indexType, hooks.keyValue(key))];
        i := i + 1;
      }
      assert bulk == Stamped(requests, definition.indexName, definition.indexType, hooks.keyValue(key));
      o := backend.Bulk(bulk);
    }

    /** `upsert(obj, key)`: normalizer and bulk failures reach the caller. */
    method Upsert(obj: O, key: K) returns (o: Outcome<Error>)
      modifies backend`state
      ensures match normalizer.normalizeObject(obj, key)
        case Err(e) => o == Fail(e) && backend.state == old(backend.state)
        case Ok(rs) =>
          o == BulkOutcome(rs, backend.faults) && backend.state == Upserted(old(backend.state), rs, key, backend.faults)
    {
      var rs := normalizer.normalizeObject(obj, key);
      if rs.Err? {
        return Fail(rs.error);
      }
      o := UpdateDocument(rs.value, key);
    }

    /** `upsertByDto`: any failure is logged and swallowed; the index is then unchanged. */
    method UpsertByDto(item: E)
      modifies backend`state
      ensures backend.state ==
        match normalizer.normalizeDto(item)
        case Err(_) => old(backend.state)
        case Ok(rs) => Upserted(old(backend.state), rs, hooks.dtoKey(item), backend.faults)
    {
      var rs := normalizer.normalizeDto(item);
      if rs.Ok? {
        var _ := UpdateDocument(rs.value, hooks.dtoKey(item));
      }
    }

    /** `upsertByKey`: rebuild the document from its key; failures are swallowed. */
    method UpsertByKey(key: K)
      modifies backend`state
      ensures backend.state ==
        match normalizer.normalizeKey(key)
        case Err(_) => old(backend.state)
        case Ok(rs) => Upserted(old(backend.state), rs, key, backend.faults)
    {
      var rs := normalizer.normalizeKey(key);
      if rs.Ok? {
        var _ := UpdateDocument(rs.value, key);
      }
    }

    /** `deleteDocument`: delete the keyed document; failures reach the caller. */
    method DeleteDocument(key: K) returns (o: Outcome<Error>)
      modifies backend`state
      ensures o == if Fault(DeleteOp, definition.indexName) in backend.faults
                   then Fail(RequestFailed(DeleteOp, definition.indexName))
                   else Pass
      ensures backend.state == if o.Pass? then old(backend.state).Deleted(KeyAddr(key)) else old(backend.state)
    {
      o := backend.Delete(KeyAddr(key));
    }

    /** `delete(obj, key)`: a nested object cannot be deleted on its own; this always throws. */
    method Delete(obj: O, key: K) returns (o: Outcome<Error>)
      ensures o == Fail(IllegalState(NestedDeleteMessage, None))
    {
      o := Fail(IllegalState(NestedDeleteMessage, None));
    }

    /** `deleteByKey`: best effort; a failure is logged and swallowed. */
    method DeleteByKey(key: K)
      modifies backend`state
      ensures backend.state ==
        if Fault(DeleteOp, definition.indexName) in backend.faults then old(backend.state)
        else old(backend.state).Deleted(KeyAddr(key))
    {
      var _ := DeleteDocument(key);
    }

    /** `deleteByDto`: delete the entity's document; failures are swallowed. */
    method DeleteByDto(item: E)
      modifies backend`state
      ensures backend.state ==
        if Fault(DeleteOp, definition.indexName) in backend.faults then old(backend.state)
        else old(backend.state).Deleted(KeyAddr(hooks.dtoKey(item)))
    {
      var _ := DeleteDocument(hooks.dtoKey(item));
    }

    /** A successful upsert for `key` is followed by a `getByKey(key)` that finds the document
        when it existed or a request carried an upsert document; other documents are kept. */
    lemma UpsertedKeyPresence(s: State, requests: seq<UpdateRequest>, key: K, faults: set<Fault>)
      requires BulkOutcome(requests, faults).Pass?
      ensures KeyAddr(key) in Upserted(s, requests, key, faults).docs <==>
        KeyAddr(key) in s.docs || exists i :: 0 <= i < |requests| && requests[i].upsert.Some?
      ensures forall a :: a != KeyAddr(key) ==> Lookup(Upserted(s, requests, key, faults).docs, a) == Lookup(s.docs, a)
    {
      UpsertBatchEffect(s.docs, requests, definition.indexName, definition.indexType, hooks.keyValue(key));
    }

    /** `upsert(obj, key)` followed by `getByKey(key)`: when normalizing, the bulk request and
        the get go through, the get finds the document exactly when it existed before or some
        request carried an upsert document; every other document is as before. */
    method UpsertThenGet(obj: O, key: K) returns (r: Result<Option<D>, Error>)
      modifies backend`state
      ensures (normalizer.normalizeObject(obj, key).Ok?
               && BulkOutcome(normalizer.normalizeObject(obj, key).value, backend.faults).Pass?
               && Fault(GetOp, definition.indexName) !in backend.faults) ==>
        && r.Ok?
        && (r.value.Some? <==>
              || KeyAddr(key) in old(backend.state.docs)
              || exists i :: 0 <= i < |normalizer.normalizeObject(obj, key).value| &&
                   normalizer.normalizeObject(obj, key).value[i].upsert.Some?)
      ensures forall a :: a != KeyAddr(key) ==> Lookup(backend.state.docs, a) == Lookup(old(backend.state.docs), a)
    {
      ghost var before := backend.state;
      var o := Upsert(obj, key);
      var rs := normalizer.normalizeObject(obj, key);
      if rs.Ok? && BulkOutcome(rs.value, backend.faults).Pass? {
        UpsertedKeyPresence(before, rs.value, key, backend.faults);
      }
      r := GetByKey(key);
    }

    /** `deleteByKey(key)` followed by `getByKey(key)`: when neither request fails, the get
        finds nothing, and every other document is as before. */
    method DeleteThenGet(key: K) returns (r: Result<Option<D>, Error>)
      modifies backend`state
      ensures (Fault(DeleteOp, definition.indexName) !in backend.faults
               && Fault(GetOp, definition.indexName) !in backend.faults) ==> r == Ok(None)
      ensures forall a :: a != KeyAddr(key) ==> Lookup(backend.state.docs, a) == Lookup(old(backend.state.docs), a)
    {
      DeleteByKey(key);
      r := GetByKey(key);
    }
  }
}
