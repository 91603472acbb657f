/** The in-memory side of the signature library
    (pkg/signature/signature_manager.go): the list the manager keeps next
    to its database, and the update check. Every database statement and
    the HTTP request are oracles whose outcome is a parameter; times are
    integers (Go's `time.Time` on one clock). */
module SignatureManager {
  import opened Outcomes

  /** One detection signature as stored. */
  datatype Signature = Signature(
    id: int,
    pattern: string,
    kind: string,
    description: string,
    weight: real,
    category: string,
    createTime: string,
    updateTime: string)

  /** The manager's list and the time it was last loaded. */
  datatype Library = Library(signatures: seq<Signature>, lastUpdate: int)

  /** The position of the first signature with the given id, if any. */
  function FirstWithId(sigs: seq<Signature>, id: int): (r: Option<nat>)
    ensures r.Some? ==> r.value < |sigs| && sigs[r.value].id == id
    ensures r.Some? ==> forall j :: 0 <= j < r.value ==> sigs[j].id != id
    ensures r.None? <==> forall j :: 0 <= j < |sigs| ==> sigs[j].id != id
    decreases |sigs|
  {
    if |sigs| == 0 then None
    else if sigs[0].id == id then Some(0)
    else
      match FirstWithId(sigs[1..], id)
      case None =>
        assert forall j :: 1 <= j < |sigs| ==> sigs[j] == sigs[1..][j - 1];
        None
      case Some(k) =>
        assert forall j :: 1 <= j < k + 1 ==> sigs[j] == sigs[1..][j - 1];
        Some(k + 1)
  }

  /** The update loop: the first signature with the new one's id is
      replaced by it, and the loop stops there. */
  function ReplaceFirst(sigs: seq<Signature>, sig: Signature): (r: seq<Signature>)
    ensures |r| == |sigs|
    ensures FirstWithId(sigs, sig.id).None? ==> r == sigs
    ensures FirstWithId(sigs, sig.id).Some? ==>
      var i := FirstWithId(sigs, sig.id).value;
      r[i] == sig && forall j :: 0 <= j < |sigs| && j != i ==> r[j] == sigs[j]
    decreases |sigs|
  {
    if |sigs| == 0 then []
    else if sigs[0].id == sig.id then [sig] + sigs[1..]
    else [sigs[0]] + ReplaceFirst(sigs[1..], sig)
  }

  /** The delete loop: the first signature with the id is cut out, the rest
      keep their order, and the loop stops there. */
  function RemoveFirst(sigs: seq<Signature>, id: int): (r: seq<Signature>)
    ensures FirstWithId(sigs, id).None? ==> r == sigs
    ensures FirstWithId(sigs, id).Some? ==>
      var i := FirstWithId(sigs, id).value;
      r == sigs[..i] + sigs[i + 1..]
    decreases |sigs|
  {
    if |sigs| == 0 then []
    else if sigs[0].id == id then sigs[1..]
    else
      var rest := RemoveFirst(sigs[1..], id);
      match FirstWithId(sigs[1..], id)
      case None => [sigs[0]] + rest
      case Some(k) =>
        assert [sigs[0]] + sigs[1..][..k] == sigs[..k + 1];
        assert sigs[1..][k + 1..] == sigs[k + 2..];
        [sigs[0]] + rest
  }

  /** `AddSignature`: on a failed insert the list stays as it was; otherwise
      the signature, carrying the id the database assigned, is appended. */
  function AddSignature(lib: Library, sig: Signature, insert: Result<int>): (r: (Library, Status))
    ensures insert.Err? ==> r == (lib, Fail("failed to insert signature: " + insert.message))
    ensures insert.Ok? ==> r.1 == Pass && r.0.lastUpdate == lib.lastUpdate
    ensures insert.Ok? ==> |r.0.signatures| == |lib.signatures| + 1
    ensures insert.Ok? ==> r.0.signatures[..|lib.signatures|] == lib.signatures
    ensures insert.Ok? ==> r.0.signatures[|lib.signatures|] == sig.(id := insert.value)
  {
    match insert
    case Err(e) => (lib, Fail("failed to insert signature: " + e))
    case Ok(id) =>
      var added := lib.signatures + [sig.(id := id)];
      assert added[..|lib.signatures|] == lib.signatures;
      (lib.(signatures := added), Pass)
  }

  /** `UpdateSignature`: on a failed update the list stays as it was;
      otherwise the first signature with the same id is replaced. */
  function UpdateSignature(lib: Library, sig: Signature, update: Status): (r: (Library, Status))
    ensures update.Fail? ==> r == (lib, Fail("failed to update signature: " + update.message))
    ensures update.Pass? ==> r == (lib.(signatures := ReplaceFirst(lib.signatures, sig)), Pass)
  {
    match update
    case Fail(e) => (lib, Fail("failed to update signature: " + e))
    case Pass => (lib.(signatures := ReplaceFirst(lib.signatures, sig)), Pass)
  }

  /** `DeleteSignature`: on a failed delete the list stays as it was;
      otherwise the first signature with the id is removed. */
  function DeleteSignature(lib: Library, id: int, delete: Status): (r: (Library, Status))
    ensures delete.Fail? ==> r == (lib, Fail("failed to delete signature: " + delete.message))
    ensures delete.Pass? ==> r == (lib.(signatures := RemoveFirst(lib.signatures, id)), Pass)
  {
    match delete
    case Fail(e) => (lib, Fail("failed to delete signature: " + e))
    case Pass => (lib.(signatures := RemoveFirst(lib.signatures, id)), Pass)
  }

  /** The outcome of the load query: the query itself may fail, and so may
      the scan of any row. */
  datatype Rows = QueryFailed(message: string) | Read(rows: seq<Result<Signature>>)

  /** The index of the first row that could not be scanned, if any. */
  function FirstBadRow(rows: seq<Result<Signature>>): (r: Option<nat>)
    ensures r.Some? ==> r.value < |rows| && rows[r.value].Err?
    ensures r.Some? ==> forall j :: 0 <= j < r.value ==> rows[j].Ok?
    ensures r.None? <==> forall j :: 0 <= j < |rows| ==> rows[j].Ok?
    decreases |rows|
  {
    if |rows| == 0 then None
    else if rows[0].Err? then Some(0)
    else
      match FirstBadRow(rows[1..])
      case None =>
        assert forall j :: 1 <= j < |rows| ==> rows[j] == rows[1..][j - 1];
        None
      case Some(k) =>
        assert forall j :: 1 <= j < k + 1 ==> rows[j] == rows[1..][j - 1];
        Some(k + 1)
  }

  /** The scanned signatures, in row order. */
  function Values(rows: seq<Result<Signature>>): (r: seq<Signature>)
    requires forall j :: 0 <= j < |rows| ==> rows[j].Ok?
    ensures |r| == |rows| && forall j :: 0 <= j < |rows| ==> r[j] == rows[j].value
    decreases |rows|
  {
    if |rows| == 0 then [] else [rows[0].value] + Values(rows[1..])
  }

  /** `loadSignatures`: the list is replaced wholesale by the rows read and
      the load time recorded; on any failure nothing changes. */
  function LoadSignatures(lib: Library, read: Rows, now: int): (r: (Library, Status))
    ensures read.QueryFailed? ==> r == (lib, Fail("failed to query signatures: " + read.message))
    ensures read.Read? && FirstBadRow(read.rows).Some? ==>
      r == (lib, Fail("failed to scan signature: " + read.rows[FirstBadRow(read.rows).value].message))
    ensures read.Read? && FirstBadRow(read.rows).None? ==>
      r.1 == Pass && r.0.lastUpdate == now
      && |r.0.signatures| == |read.rows|
      && forall j :: 0 <= j < |read.rows| ==> r.0.signatures[j] == read.rows[j].value
  {
    match read
    case QueryFailed(e) => (lib, Fail("failed to query signatures: " + e))
    case Read(rows) =>
      match FirstBadRow(rows)
      case Some(k) => (lib, Fail("failed to scan signature: " + rows[k].message))
      case None => (Library(Values(rows), now), Pass)
  }

  /** `NewManager` after the database is open: an empty library loaded
      once; a failed load is an error. */
  function NewManager(read: Rows, now: int): (r: Result<Library>)
    ensures r.Ok? <==> LoadSignatures(Library([], 0), read, now).1.Pass?
    ensures r.Ok? ==> r.value.lastUpdate == now
  {
    var (lib, status) := LoadSignatures(Library([], 0), read, now);
    match status
    case Fail(e) => Err("failed to load signatures: " + e)
    case Pass => Ok(lib)
  }

  /** `CheckUpdate`: the request and the decoding may fail; otherwise an
      update is reported exactly when the remote library is newer than the
      last load (the same instant is not newer). */
  function CheckUpdate(lib: Library, get: Status, updatedAt: Result<int>): (r: Result<bool>)
    ensures get.Fail? ==> r == Err("failed to check update: " + get.message)
    ensures get.Pass? && updatedAt.Err? ==> r == Err("failed to decode response: " + updatedAt.message)
    ensures get.Pass? && updatedAt.Ok? ==> r.Ok? && (r.value <==> updatedAt.value > lib.lastUpdate)
  {
    match get
    case Fail(e) => Err("failed to check update: " + e)
    case Pass =>
      match updatedAt
      case Err(e) => Err("failed to decode response: " + e)
      case Ok(t) => Ok(t > lib.lastUpdate)
  }

  /** The ids present in a list. */
  function Ids(sigs: seq<Signature>): set<int> {
    set j | 0 <= j < |sigs| :: sigs[j].id
  }

  /** Adding a signature under a fresh id and deleting that id gives back
      the list that was there before. */
  lemma DeleteUndoesAdd(lib: Library, sig: Signature, id: int)
    requires id !in Ids(lib.signatures)
    ensures var added := AddSignature(lib, sig, Ok(id)).0;
      DeleteSignature(added, id, Pass).0 == lib
  {
    var added := AddSignature(lib, sig, Ok(id)).0;
    var n := |lib.signatures|;
    forall j | 0 <= j < n ensures added.signatures[j].id != id {
      assert added.signatures[j] == lib.signatures[j];
      assert lib.signatures[j].id in Ids(lib.signatures);
    }
    assert FirstWithId(added.signatures, id) == Some(n);
    assert added.signatures[..n] == lib.signatures;
  }

  /** Updating keeps the set of ids: the replacement carries the id it
      replaced. */
  lemma UpdateKeepsIds(lib: Library, sig: Signature)
    ensures Ids(UpdateSignature(lib, sig, Pass).0.signatures) == Ids(lib.signatures)
  {
    var sigs := lib.signatures;
    var r := ReplaceFirst(sigs, sig);
    forall j | 0 <= j < |r| ensures r[j].id == sigs[j].id {
    }
    forall x | x in Ids(r) ensures x in Ids(sigs) {
      var j :| 0 <= j < |r| && r[j].id == x;
      assert sigs[j].id == x;
    }
    forall x | x in Ids(sigs) ensures x in Ids(r) {
      var j :| 0 <= j < |sigs| && sigs[j].id == x;
      assert r[j].id == x;
    }
  }

  /** Updating twice with the same signature is updating once. */
  lemma {:induction false} ReplaceFirstIdempotent(sigs: seq<Signature>, sig: Signature)
    ensures ReplaceFirst(ReplaceFirst(sigs, sig), sig) == ReplaceFirst(sigs, sig)
    decreases |sigs|
  {
    if |sigs| > 0 && sigs[0].id != sig.id {
      ReplaceFirstIdempotent(sigs[1..], sig);
      var r := ReplaceFirst(sigs, sig);
      assert r[0] == sigs[0] && r[1..] == ReplaceFirst(sigs[1..], sig);
    }
  }

  /** Deleting an id that is present removes exactly one signature, the
      first with that id; deleting an absent id removes none. */
  lemma DeleteRemovesOne(lib: Library, id: int)
    ensures var after := DeleteSignature(lib, id, Pass).0.signatures;
      && (id in Ids(lib.signatures) ==> |after| == |lib.signatures| - 1)
      && (id !in Ids(lib.signatures) ==> after == lib.signatures)
      && multiset(after) <= multiset(lib.signatures)
  {
    var sigs := lib.signatures;
    match FirstWithId(sigs, id)
    case None =>
    case Some(i) =>
      assert sigs[i].id in Ids(sigs);
      assert sigs == sigs[..i] + [sigs[i]] + sigs[i + 1..];
  }

  /** A failed database statement never touches the list. */
  lemma FailedStatementsChangeNothing(lib: Library, sig: Signature, id: int, e: string)
    ensures AddSignature(lib, sig, Err(e)).0 == lib
    ensures UpdateSignature(lib, sig, Fail(e)).0 == lib
    ensures DeleteSignature(lib, id, Fail(e)).0 == lib
  {
  }

  /** Right after a load, a remote library stamped no later than the load
      is not an update. */
  lemma NoUpdateRightAfterLoad(lib: Library, rows: seq<Result<Signature>>, now: int, stamp: int)
    requires FirstBadRow(rows).None? && stamp <= now
    ensures CheckUpdate(LoadSignatures(lib, Read(rows), now).0, Pass, Ok(stamp)) == Ok(false)
  {
  }
}
