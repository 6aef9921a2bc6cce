/** The search backend as `BaseIndex` sees it through its client: indices with settings,
    per-type mappings and documents addressed by index, type and id. The network is not
    modelled; a request of a kind and index listed in `faults` throws instead of answering. */
module Backend {
  import opened Wrappers
  import opened Json

  /** The kinds of request the client sends. */
  datatype Op = ExistsOp | CreateOp | PutMappingOp | GetOp | UpdateOp | BulkOp | DeleteOp | RefreshOp | CountOp

  /** Requests of kind `op` addressed to `index` throw. */
  datatype Fault = Fault(op: Op, index: string)

  /** Where a document lives. */
  datatype DocAddr = DocAddr(index: string, docType: string, id: string)

  /** The exceptions that reach `BaseIndex`. */
  datatype Error =
    | RequestFailed(op: Op, index: string)        // the client threw for this request
    | ValidationFailed(reason: string)            // the request was refused before it was sent
    | IndexAlreadyExists(index: string)
    | IndexMissing(index: string)
    | DocumentMissing(addr: DocAddr)
    | NullValue(what: string)                     // a NullPointerException
    | ClassCast(what: string)                     // a ClassCastException
    | IllegalState(message: string, cause: Option<Error>)

  type Settings = map<string, Json>
  type Source = map<string, Json>

  /** An update of one document: `doc` is merged into an existing document; on a missing
      document `upsert`, when given, is stored instead. */
  datatype UpdateRequest = UpdateRequest(
    index: string, docType: string, id: string, doc: Source, upsert: Option<Source>)
  {
    function Addr(): DocAddr { DocAddr(index, docType, id) }
  }

  datatype GetRequest = GetRequest(addr: DocAddr, routing: Option<string>)

  function Lookup(docs: map<DocAddr, Source>, addr: DocAddr): Option<Source> {
    if addr in docs then Some(docs[addr]) else None
  }

  /** One update applied to the documents. A missing document without upsert is left missing
      (inside a bulk request that item fails; the failure is not reported back). */
  function ApplyUpdate(docs: map<DocAddr, Source>, r: UpdateRequest): map<DocAddr, Source> {
    if r.Addr() in docs then docs[r.Addr() := docs[r.Addr()] + r.doc]
    else if r.upsert.Some? then docs[r.Addr() := r.upsert.value]
    else docs
  }

  /** The items of a bulk request applied in order. */
  function ApplyAll(docs: map<DocAddr, Source>, items: seq<UpdateRequest>): map<DocAddr, Source>
    decreases |items|
  {
    if items == [] then docs else ApplyAll(ApplyUpdate(docs, items[0]), items[1..])
  }

  datatype State = State(
    indices: set<string>,
    settings: map<string, Settings>,
    mappings: map<(string, string), Mapping>,
    docs: map<DocAddr, Source>)
  {
    function Created(index: string, s: Settings): State {
      this.(indices := indices + {index}, settings := settings[index := s])
    }

    /** A put-mapping that ignores conflicts: the new top-level entries are merged over
        the type's current mapping. */
    function MappingPut(index: string, docType: string, m: Mapping): State {
      var current := if (index, docType) in mappings then mappings[(index, docType)] else map[];
      this.(mappings := mappings[(index, docType) := current + m])
    }

    function Updated(r: UpdateRequest): State {
      this.(docs := ApplyUpdate(docs, r))
    }

    function BulkApplied(items: seq<UpdateRequest>): State {
      this.(docs := ApplyAll(docs, items))
    }

    function Deleted(addr: DocAddr): State {
      this.(docs := docs - {addr})
    }

    /** The number of documents of one index, all types together. */
    function CountIn(index: string): nat {
      |set a | a in docs && a.index == index|
    }
  }

  const NoRequestsAdded: string := "no requests added"

  /** The index of the first bulk item whose index fails bulk requests. */
  function BulkIndex(items: seq<UpdateRequest>, faults: set<Fault>): string
    requires exists i :: 0 <= i < |items| && Fault(BulkOp, items[i].index) in faults
  {
    if Fault(BulkOp, items[0].index) in faults then items[0].index
    else
      assert exists i :: 0 <= i < |items[1..]| && Fault(BulkOp, items[1..][i].index) in faults by {
        var i :| 0 <= i < |items| && Fault(BulkOp, items[i].index) in faults;
        assert items[1..][i - 1] == items[i];
      }
      BulkIndex(items[1..], faults)
  }

  class Backend {
    var state: State
    var faults: set<Fault>

    constructor (faults: set<Fault>)
      ensures state == State({}, map[], map[], map[]) && this.faults == faults
    {
      this.state := State({}, map[], map[], map[]);
      this.faults := faults;
    }

    method Exists(index: string) returns (r: Result<bool, Error>)
      ensures r == if Fault(ExistsOp, index) in faults then Err(RequestFailed(ExistsOp, index)) else Ok(index in state.indices)
    {
      if Fault(ExistsOp, index) in faults {
        r := Err(RequestFailed(ExistsOp, index));
      } else {
        r := Ok(index in state.indices);
      }
    }

    method CreateIndex(index: string, settings: Settings) returns (o: Outcome<Error>)
      modifies this`state
      ensures o == if Fault(CreateOp, index) in faults then Fail(RequestFailed(CreateOp, index))
                   else if index in old(state.indices) then Fail(IndexAlreadyExists(index))
                   else Pass
      ensures state == if o.Pass? then old(state).Created(index, settings) else old(state)
    {
      if Fault(CreateOp, index) in faults {
        o := Fail(RequestFailed(CreateOp, index));
      } else if index in state.indices {
        o := Fail(IndexAlreadyExists(index));
      } else {
        state := state.Created(index, settings);
        o := Pass;
      }
    }

    method PutMapping(index: string, docType: string, m: Mapping) returns (o: Outcome<Error>)
      modifies this`state
      ensures o == if Fault(PutMappingOp, index) in faults then Fail(RequestFailed(PutMappingOp, index))
                   else if index !in old(state.indices) then Fail(IndexMissing(index))
                   else Pass
      ensures state == if o.Pass? then old(state).MappingPut(index, docType, m) else old(state)
    {
      if Fault(PutMappingOp, index) in faults {
        o := Fail(RequestFailed(PutMappingOp, index));
      } else if index !in state.indices {
        o := Fail(IndexMissing(index));
      } else {
        state := state.MappingPut(index, docType, m);
        o := Pass;
      }
    }

    /** A real-time get: routing places the request but does not change what is found. */
    method Get(req: GetRequest) returns (r: Result<Option<Source>, Error>)
      ensures r == if Fault(GetOp, req.addr.index) in faults then Err(RequestFailed(GetOp, req.addr.index))
                   else Ok(Lookup(state.docs, req.addr))
    {
      if Fault(GetOp, req.addr.index) in faults {
        r := Err(RequestFailed(GetOp, req.addr.index));
      } else {
        r := Ok(Lookup(state.docs, req.addr));
      }
    }

    method Update(req: UpdateRequest) returns (o: Outcome<Error>)
      modifies this`state
      ensures o == if Fault(UpdateOp, req.index) in faults then Fail(RequestFailed(UpdateOp, req.index))
                   else if req.Addr() !in old(state.docs) && req.upsert.None? then Fail(DocumentMissing(req.Addr()))
                   else Pass
      ensures state == if o.Pass? then old(state).Updated(req) else old(state)
    {
      if Fault(UpdateOp, req.index) in faults {
        o := Fail(RequestFailed(UpdateOp, req.index));
      } else if req.Addr() !in state.docs && req.upsert.None? {
        o := Fail(DocumentMissing(req.Addr()));
      } else {
        state := state.Updated(req);
        o := Pass;
      }
    }

    /** A bulk request: refused when it holds no item; it throws when one of its items
        addresses an index whose bulk requests fail. */
    method Bulk(items: seq<UpdateRequest>) returns (o: Outcome<Error>)
      modifies this`state
      ensures o == if items == [] then Fail(ValidationFailed(NoRequestsAdded))
                   else if exists i :: 0 <= i < |items| && Fault(BulkOp, items[i].index) in faults
                   then Fail(RequestFailed(BulkOp, BulkIndex(items, faults)))
                   else Pass
      ensures state == if o.Pass? then old(state).BulkApplied(items) else old(state)
    {
      if items == [] {
        o := Fail(ValidationFailed(NoRequestsAdded));
      } else if exists i :: 0 <= i < |items| && Fault(BulkOp, items[i].index) in faults {
        o := Fail(RequestFailed(BulkOp, BulkIndex(items, faults)));
      } else {
        state := state.BulkApplied(items);
        o := Pass;
      }
    }

    method Delete(addr: DocAddr) returns (o: Outcome<Error>)
      modifies this`state
      ensures o == if Fault(DeleteOp, addr.index) in faults then Fail(RequestFailed(DeleteOp, addr.index)) else Pass
      ensures state == if o.Pass? then old(state).Deleted(addr) else old(state)
    {
      if Fault(DeleteOp, addr.index) in faults {
        o := Fail(RequestFailed(DeleteOp, addr.index));
      } else {
        state := state.Deleted(addr);
        o := Pass;
      }
    }

    method Refresh(index: string) returns (o: Outcome<Error>)
      ensures o == if Fault(RefreshOp, index) in faults then Fail(RequestFailed(RefreshOp, index)) else Pass
    {
      o := if Fault(RefreshOp, index) in faults then Fail(RequestFailed(RefreshOp, index)) else Pass;
    }

    method Count(index: string) returns (r: Result<nat, Error>)
      ensures r == if Fault(CountOp, index) in faults then Err(RequestFailed(CountOp, index)) else Ok(state.CountIn(index))
    {
      r := if Fault(CountOp, index) in faults then Err(RequestFailed(CountOp, index)) else Ok(state.CountIn(index));
    }
  }

  /** A bulk request whose items all address one document changes only that document, and
      leaves it present exactly when it was present or some item carries an upsert. */
  lemma {:induction false} BulkTouchesOnlyItsDocument(docs: map<DocAddr, Source>, items: seq<UpdateRequest>, addr: DocAddr)
    requires forall i :: 0 <= i < |items| ==> items[i].Addr() == addr
    ensures addr in ApplyAll(docs, items) <==>
      addr in docs || exists i :: 0 <= i < |items| && items[i].upsert.Some?
    ensures forall a :: a != addr ==> Lookup(ApplyAll(docs, items), a) == Lookup(docs, a)
    decreases |items|
  {
    if items != [] {
      var next := ApplyUpdate(docs, items[0]);
      BulkTouchesOnlyItsDocument(next, items[1..], addr);
      if items[0].upsert.Some? {
        assert addr in next;
      }
      if exists i :: 0 <= i < |items| && items[i].upsert.Some? {
        if !items[0].upsert.Some? {
          var i :| 0 <= i < |items| && items[i].upsert.Some?;
          assert items[1..][i - 1].upsert.Some?;
        }
      }
      if exists i :: 0 <= i < |items[1..]| && items[1..][i].upsert.Some? {
        var i :| 0 <= i < |items[1..]| && items[1..][i].upsert.Some?;
        assert items[i + 1].upsert.Some?;
      }
    }
  }
}
