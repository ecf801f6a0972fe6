/** The document registry (`Arc1643`): an owner-gated store of document records
    keyed by name, plus a list of names that every write appends to and no
    removal shortens. The registry sits beside the token ledger, so the owner it
    checks against is passed in. */
module Documents {
  import opened Base

  /** A stored document: its URI, its content hash and the round it was written. */
  datatype DocumentRecord = DocumentRecord(uri: string, hash: Bytes, timestamp: U64)

  /** The `doc` box map and the `docs` name-list box, which may not exist yet. */
  datatype Registry = Registry(documents: map<Bytes, DocumentRecord>, documentKeys: Option<seq<Bytes>>)

  /** A registry in which nothing has been stored. */
  const EMPTY: Registry := Registry(map[], None)

  /** Length of the ARC-4 encoding of a byte string: a 2-byte length header
      followed by the bytes themselves. */
  function Arc4EncodedLength(b: Bytes): nat {
    2 + |b|
  }

  /** `arc1643_set_document(name, uri, hash)` at round `tx.round`, as written. Its
      `empty_name` guard measures the ARC-4 encoding of `name`, which the length
      header alone makes non-empty, so an empty name is stored like any other. */
  function SetDocument(reg: Registry, owner: Address, tx: Txn, name: Bytes, uri: string, hash: Bytes)
    : (r: Result<Registry>)
    ensures tx.sender != owner ==> r == Err(OnlyOwner)
    ensures r.Ok? <==> tx.sender == owner
    ensures r.Ok? ==> r.value.documentKeys.Some?
    ensures r.Ok? ==> |r.value.documentKeys.value| == |ListDocuments(reg)| + 1
    ensures r.Ok? ==> ListDocuments(r.value) == ListDocuments(reg) + [name]
    ensures r.Ok? ==> forall n :: n != name ==> GetDocument(r.value, n) == GetDocument(reg, n)
  {
    if tx.sender != owner then Err(OnlyOwner)
    else if Arc4EncodedLength(name) == 0 then Err(EmptyName)
    else
      var documents := reg.documents[name := DocumentRecord(uri, hash, tx.round)];
      match reg.documentKeys
      case None => Ok(Registry(documents, Some([name])))
      case Some(keys) => Ok(Registry(documents, Some(keys + [name])))
  }

  /** `arc1643_set_document` with the `empty_name` guard measuring the name
      itself, as its message intends: an empty name is refused, and every other
      write behaves exactly as the code as written. */
  function SetNamedDocument(reg: Registry, owner: Address, tx: Txn, name: Bytes, uri: string, hash: Bytes)
    : (r: Result<Registry>)
    ensures tx.sender != owner ==> r == Err(OnlyOwner)
    ensures tx.sender == owner && |name| == 0 ==> r == Err(EmptyName)
    ensures r.Ok? <==> tx.sender == owner && |name| > 0
    ensures |name| > 0 ==> r == SetDocument(reg, owner, tx, name, uri, hash)
    ensures r.Ok? ==> ListDocuments(r.value) == ListDocuments(reg) + [name]
    ensures r.Ok? ==> GetDocument(r.value, name) == Ok(DocumentRecord(uri, hash, tx.round))
    ensures r.Ok? ==> forall n :: n != name ==> GetDocument(r.value, n) == GetDocument(reg, n)
  {
    if tx.sender != owner then Err(OnlyOwner)
    else if |name| == 0 then Err(EmptyName)
    else SetDocument(reg, owner, tx, name, uri, hash)
  }

  /** The owner can store a record under the empty name, and the empty name is
      then listed; the corrected write refuses the same call. */
  lemma EmptyNameIsStored(reg: Registry, owner: Address, round: U64, uri: string, hash: Bytes)
    ensures
      var r := SetDocument(reg, owner, Txn(owner, round), [], uri, hash);
      && r.Ok?
      && GetDocument(r.value, []) == Ok(DocumentRecord(uri, hash, round))
      && [] in ListDocuments(r.value)
    ensures SetNamedDocument(reg, owner, Txn(owner, round), [], uri, hash) == Err(EmptyName)
  {
  }

  /** `arc1643_get_document(name)`: read-only, aborts for an unknown name. */
  function GetDocument(reg: Registry, name: Bytes): (r: Result<DocumentRecord>)
    ensures r.Ok? <==> name in reg.documents
    ensures r.Ok? ==> r.value == reg.documents[name]
    ensures r.Err? ==> r.error == NotFound
  {
    if name !in reg.documents then Err(NotFound) else Ok(reg.documents[name])
  }

  /** `arc1643_remove_document(name)`: deletes the record but leaves the name list
      as it is. */
  function RemoveDocument(reg: Registry, owner: Address, tx: Txn, name: Bytes): (r: Result<Registry>)
    ensures tx.sender != owner ==> r == Err(OnlyOwner)
    ensures r.Ok? <==> tx.sender == owner && GetDocument(reg, name).Ok?
    ensures r.Ok? ==> GetDocument(r.value, name) == Err(NotFound)
    ensures r.Ok? ==> forall n :: n != name ==> GetDocument(r.value, n) == GetDocument(reg, n)
    ensures r.Ok? ==> r.value.documentKeys == reg.documentKeys
  {
    if tx.sender != owner then Err(OnlyOwner)
    else if name !in reg.documents then Err(NotFound)
    else Ok(reg.(documents := reg.documents - {name}))
  }

  /** `arc1643_get_all_documents()` as written: it reads the name-list box
      unconditionally, so it aborts on a registry where nothing was ever stored. */
  function GetAllDocuments(reg: Registry): (r: Result<seq<Bytes>>)
    ensures r.Ok? <==> reg.documentKeys.Some?
    ensures r.Ok? ==> r.value == ListDocuments(reg)
  {
    match reg.documentKeys
    case None => Err(NoValue)
    case Some(keys) => Ok(keys)
  }

  /** The name list as the registry evidently means to report it: empty while
      the list box does not exist. */
  function ListDocuments(reg: Registry): (names: seq<Bytes>)
    ensures reg.documentKeys.None? ==> names == []
    ensures reg.documentKeys.Some? ==> names == reg.documentKeys.value
  {
    match reg.documentKeys
    case None => []
    case Some(keys) => keys
  }

  /** On a registry where nothing was ever stored, listing aborts instead of
      returning the empty list. */
  lemma GetAllDocumentsAbortsWhenEmpty()
    ensures GetAllDocuments(EMPTY).Err?
    ensures ListDocuments(EMPTY) == []
  {
  }

  /** Reading a name right after storing it returns exactly what was stored, with
      the round of the write as its timestamp; a later write wins. */
  lemma GetAfterSet(reg: Registry, owner: Address, tx: Txn, name: Bytes, uri: string, hash: Bytes)
    requires SetDocument(reg, owner, tx, name, uri, hash).Ok?
    ensures GetDocument(SetDocument(reg, owner, tx, name, uri, hash).value, name)
      == Ok(DocumentRecord(uri, hash, tx.round))
  {
  }

  /** Every stored record's name appears in the name list. */
  ghost predicate Indexed(reg: Registry) {
    forall n :: n in reg.documents ==> n in ListDocuments(reg)
  }

  /* ------------------------------ histories ------------------------------ */

  /** A registry write, as the owner or anyone else may submit it. */
  datatype Call = Set(name: Bytes, uri: string, hash: Bytes) | Remove(name: Bytes)

  /** One call, with the corrected write: a failed call leaves the registry as
      it was. */
  function Apply(reg: Registry, owner: Address, tx: Txn, call: Call): Registry {
    var r :=
      match call
      case Set(name, uri, hash) => SetNamedDocument(reg, owner, tx, name, uri, hash)
      case Remove(name) => RemoveDocument(reg, owner, tx, name);
    if r.Ok? then r.value else reg
  }

  /** A sequence of calls, in order. */
  function Run(reg: Registry, owner: Address, calls: seq<(Txn, Call)>): Registry
    decreases |calls|
  {
    if |calls| == 0 then reg
    else Run(Apply(reg, owner, calls[0].0, calls[0].1), owner, calls[1..])
  }

  /** The names a sequence of calls stores successfully. */
  function Stored(reg: Registry, owner: Address, calls: seq<(Txn, Call)>): set<Bytes>
    decreases |calls|
  {
    if |calls| == 0 then {}
    else
      var tx := calls[0].0;
      var call := calls[0].1;
      var here :=
        if call.Set? && SetNamedDocument(reg, owner, tx, call.name, call.uri, call.hash).Ok? then {call.name} else {};
      here + Stored(Apply(reg, owner, tx, call), owner, calls[1..])
  }

  /** The names listed after a history are those listed before plus exactly the
      names the history stored: removal never drops a name, and nothing else adds
      one. From the empty registry, the listing is the set of names ever stored. */
  lemma {:induction false} RunListsStoredNames(reg: Registry, owner: Address, calls: seq<(Txn, Call)>)
    ensures
      (set n | n in ListDocuments(Run(reg, owner, calls)))
      == (set n | n in ListDocuments(reg)) + Stored(reg, owner, calls)
    decreases |calls|
  {
    if |calls| > 0 {
      var next := Apply(reg, owner, calls[0].0, calls[0].1);
      RunListsStoredNames(next, owner, calls[1..]);
    }
  }

  /** Every name that currently has a record is listed, after any history. */
  lemma {:induction false} RunKeepsIndexed(reg: Registry, owner: Address, calls: seq<(Txn, Call)>)
    requires Indexed(reg)
    ensures Indexed(Run(reg, owner, calls))
    decreases |calls|
  {
    if |calls| > 0 {
      var next := Apply(reg, owner, calls[0].0, calls[0].1);
      assert Indexed(next);
      RunKeepsIndexed(next, owner, calls[1..]);
    }
  }

  /** With the corrected write, no history ever lists or stores the empty name
      when the registry started without it. */
  lemma {:induction false} RunNeverStoresEmptyName(reg: Registry, owner: Address, calls: seq<(Txn, Call)>)
    requires [] !in reg.documents && [] !in ListDocuments(reg)
    ensures [] !in Run(reg, owner, calls).documents
    ensures [] !in ListDocuments(Run(reg, owner, calls))
    decreases |calls|
  {
    if |calls| > 0 {
      var next := Apply(reg, owner, calls[0].0, calls[0].1);
      assert [] !in next.documents && [] !in ListDocuments(next);
      RunNeverStoresEmptyName(next, owner, calls[1..]);
    }
  }
}
