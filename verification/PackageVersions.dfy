// Version chains of packages: rows of one table that point back to their predecessor.
module PackageVersions {
  import opened Wrappers
  import opened Text

  type Id = string

  datatype Row = Row(
    filename: string, storageUri: string, sizeBytes: int, contentHash: string,
    version: int, comment: Option<string>, createdBy: Option<string>, previous: Option<Id>,
    shellCount: int, submodelCount: int, conceptCount: int, info: string, createdAt: int)

  type Table = map<Id, Row>

  datatype PackageVersion = PackageVersion(
    version: int, createdAt: int, createdBy: Option<string>, comment: Option<string>, contentHash: string,
    parentVersion: Option<int>)

  datatype VersionError = PackageNotFound | VersionNotFound | MultipleResultsFound

  // ---------------------------------------------------------------- chains

  // Every row points to an existing row whose version is one less.
  predicate Linked(t: Table) {
    forall id {:trigger LinkedRow(t, id)} :: id in t ==> LinkedRow(t, id)
  }

  predicate LinkedRow(t: Table, id: Id)
    requires id in t
  {
    t[id].version >= 1 && (t[id].previous.Some? ==>
      t[id].previous.value in t && t[id].version == t[t[id].previous.value].version + 1)
  }

  predicate IsNext(t: Table, id: Id, next: Id) {
    next in t && t[next].previous == Some(id)
  }

  predicate Newest(t: Table, id: Id) {
    forall next :: next in t ==> !IsNext(t, id, next)
  }

  // No two rows have the same predecessor.
  predicate Unbranched(t: Table, id: Id) {
    forall a, b :: a in t && b in t && IsNext(t, id, a) && IsNext(t, id, b) ==> a == b
  }

  predicate Linear(t: Table) {
    forall id :: id in t ==> Unbranched(t, id)
  }

  function Root(t: Table, id: Id): (r: Id)
    requires Linked(t) && id in t
    ensures r in t && t[r].previous == None
    decreases t[id].version
  {
    assert LinkedRow(t, id);
    if t[id].previous.None? then id else Root(t, t[id].previous.value)
  }

  // scalar_one_or_none on the rows whose predecessor is id
  function NextOf(t: Table, id: Id): Result<Option<Id>, VersionError> {
    if Newest(t, id) then Ok(None)
    else if !Unbranched(t, id) then Err(MultipleResultsFound)
    else
      var next :| next in t && IsNext(t, id, next);
      Ok(Some(next))
  }

  // How many rows have a higher version: what the forward walk has still before it.
  function Higher(t: Table, version: int): nat {
    |set id | id in t && t[id].version > version|
  }

  lemma HigherShrinks(t: Table, id: Id, next: Id)
    requires Linked(t) && id in t && IsNext(t, id, next)
    ensures Higher(t, t[next].version) < Higher(t, t[id].version)
  {
    assert LinkedRow(t, next);
    var before := set x | x in t && t[x].version > t[id].version;
    var after := set x | x in t && t[x].version > t[next].version;
    assert next in before && next !in after && after <= before - {next};
    Fewer(after, before - {next});
  }

  lemma {:induction false} Fewer<T>(a: set<T>, b: set<T>)
    requires a <= b
    ensures |a| <= |b|
  {
    assert b == a + (b - a);
  }

  // The forward walk from a row.
  function Onward(t: Table, id: Id): (r: Result<seq<Id>, VersionError>)
    requires Linked(t) && id in t
    ensures r.Ok? ==> r.value != [] && r.value[0] == id && forall x :: x in r.value ==> x in t
    decreases Higher(t, t[id].version)
  {
    match NextOf(t, id)
    case Err(e) => Err(e)
    case Ok(None) => Ok([id])
    case Ok(Some(next)) =>
      HigherShrinks(t, id, next);
      match Onward(t, next)
      case Err(e) => Err(e)
      case Ok(ids) => Ok([id] + ids)
  }

  function Describe(row: Row): PackageVersion {
    PackageVersion(row.version, row.createdAt, row.createdBy, row.comment, row.contentHash,
      if row.previous.Some? then Some(row.version - 1) else None)
  }

  function DescribeAll(t: Table, ids: seq<Id>): (r: seq<PackageVersion>)
    requires forall id :: id in ids ==> id in t
    ensures |r| == |ids| && forall i :: 0 <= i < |ids| ==> r[i] == Describe(t[ids[i]])
  {
    seq(|ids|, i requires 0 <= i < |ids| => Describe(t[ids[i]]))
  }

  function ListOf(t: Table, id: Id): Result<seq<PackageVersion>, VersionError>
    requires Linked(t)
  {
    if id !in t then Ok([])
    else
      match Onward(t, Root(t, id))
      case Err(e) => Err(e)
      case Ok(ids) => Ok(DescribeAll(t, ids))
  }

  // The forward walk that stops at a version number.
  function Search(t: Table, id: Id, version: int): (r: Result<Option<Id>, VersionError>)
    requires Linked(t) && id in t
    ensures r.Ok? && r.value.Some? ==> r.value.value in t
    decreases Higher(t, t[id].version)
  {
    if t[id].version == version then Ok(Some(id))
    else
      match NextOf(t, id)
      case Err(e) => Err(e)
      case Ok(None) => Ok(None)
      case Ok(Some(next)) =>
        HigherShrinks(t, id, next);
        Search(t, next, version)
  }

  // ---------------------------------------------------------------- new rows

  // What the caller of create_version supplies; size and hash are those of the content.
  datatype Draft = Draft(
    filename: string, storageUri: string, sizeBytes: int, contentHash: string, createdBy: Option<string>,
    comment: Option<string>)

  function NewVersion(current: Row, id: Id, draft: Draft, now: int): Row {
    Row(draft.filename, draft.storageUri, draft.sizeBytes, draft.contentHash, current.version + 1, draft.comment,
      draft.createdBy, Some(id), current.shellCount, current.submodelCount, current.conceptCount, current.info, now)
  }

  function RolledBack(target: Row, latest: Row, id: Id, comment: string, now: int): Row {
    target.(version := latest.version + 1, comment := Some(comment), createdBy := None, previous := Some(id),
            createdAt := now)
  }

  function IntToString(n: int): string {
    if n < 0 then "-" + NatToString(-n) else NatToString(n)
  }

  function RollbackComment(version: int): string {
    "Rollback to version " + IntToString(version)
  }

  // The table after create_version; newId is a fresh identifier.
  function Created(t: Table, id: Id, draft: Draft, newId: Id, now: int): Result<Table, VersionError> {
    if id !in t then Err(PackageNotFound) else Ok(t[newId := NewVersion(t[id], id, draft, now)])
  }

  function RolledBackTable(t: Table, id: Id, version: int, newId: Id, now: int): Result<Table, VersionError>
    requires Linked(t)
  {
    match ListOf(t, id)
    case Err(e) => Err(e)
    case Ok(versions) =>
      if versions == [] then Err(PackageNotFound)
      else if forall v :: v in versions ==> v.version != version then Err(VersionNotFound)
      else
        match Search(t, Root(t, id), version)
        case Err(e) => Err(e)
        case Ok(None) => Err(VersionNotFound)
        case Ok(Some(target)) => Ok(t[newId := RolledBack(t[target], t[id], id, RollbackComment(version), now)])
  }

  // Foreign keys to the deleted row become NULL.
  function Deleted(t: Table, id: Id): Table {
    map x | x in t && x != id :: if t[x].previous == Some(id) then t[x].(previous := None) else t[x]
  }

  function Prepend(ids: seq<Id>, rest: Result<seq<Id>, VersionError>): Result<seq<Id>, VersionError> {
    match rest
    case Err(e) => Err(e)
    case Ok(more) => Ok(ids + more)
  }

  // The package table as the manager changes it.
  class PackageManager {
    var table: Table

    constructor ()
      ensures table == map[]
    {
      table := map[];
    }

    // Back along the predecessors; a missing row ends the walk.
    method FindRoot(packageId: Id) returns (rootId: Id)
      requires Linked(table)
      ensures rootId == if packageId in table then Root(table, packageId) else packageId
    {
      var currentId := packageId;
      rootId := packageId;
      while true
        invariant rootId == currentId && (packageId in table <==> currentId in table)
        invariant packageId in table ==> Root(table, currentId) == Root(table, packageId)
        invariant packageId !in table ==> currentId == packageId
        decreases if currentId in table && table[currentId].version > 0 then table[currentId].version else 0
      {
        if currentId !in table {
          break;
        }
        assert LinkedRow(table, currentId);
        var package := table[currentId];
        if package.previous.Some? {
          currentId := package.previous.value;
          rootId := currentId;
          assert LinkedRow(table, currentId);
        } else {
          break;
        }
      }
    }

    method ListVersions(packageId: Id) returns (r: Result<seq<PackageVersion>, VersionError>)
      requires Linked(table)
      ensures r == ListOf(table, packageId)
    {
      var rootId := FindRoot(packageId);
      var versions: seq<PackageVersion> := [];
      ghost var ids: seq<Id> := [];
      var currentId := Some(rootId);
      assert DescribeAll(table, ids) == [];
      if packageId in table {
        PrependNone(Onward(table, rootId));
      }
      while currentId.Some?
        invariant currentId.Some? ==> (currentId.value in table <==> packageId in table)
        invariant packageId !in table ==> currentId == Some(rootId) && ids == []
        invariant forall id :: id in ids ==> id in table
        invariant versions == DescribeAll(table, ids)
        invariant packageId in table ==>
          Onward(table, rootId) == if currentId.Some? then Prepend(ids, Onward(table, currentId.value)) else Ok(ids)
        decreases currentId.Some?, if currentId.Some? && currentId.value in table
                                   then Higher(table, table[currentId.value].version) else 0
      {
        var id := currentId.value;
        if id !in table {
          break;
        }
        versions := versions + [Describe(table[id])];
        var next := NextOf(table, id);
        if next.Err? {
          return Err(next.error);
        }
        if next.value.Some? {
          HigherShrinks(table, id, next.value.value);
          PrependOne(ids, id, Onward(table, next.value.value));
        }
        ids := ids + [id];
        currentId := next.value;
      }
      r := Ok(versions);
    }

    method FindVersion(rootId: Id, version: int) returns (r: Result<Option<Id>, VersionError>)
      requires Linked(table) && rootId in table
      ensures r == Search(table, rootId, version)
    {
      var currentId := Some(rootId);
      while currentId.Some?
        invariant currentId.Some? ==> currentId.value in table
        invariant Search(table, rootId, version)
               == if currentId.Some? then Search(table, currentId.value, version) else Ok(None)
        decreases currentId.Some?, if currentId.Some? then Higher(table, table[currentId.value].version) else 0
      {
        var id := currentId.value;
        if table[id].version == version {
          return Ok(Some(id));
        }
        var next := NextOf(table, id);
        if next.Err? {
          return Err(next.error);
        }
        if next.value.Some? {
          HigherShrinks(table, id, next.value.value);
        }
        currentId := next.value;
      }
      r := Ok(None);
    }

    method CreateVersion(packageId: Id, draft: Draft, newId: Id, now: int) returns (r: Result<Id, VersionError>)
      requires newId !in table
      modifies this
      ensures match Created(old(table), packageId, draft, newId, now)
              case Err(e) => r == Err(e) && table == old(table)
              case Ok(t) => r == Ok(newId) && table == t
    {
      if packageId !in table {
        return Err(PackageNotFound);
      }
      table := table[newId := NewVersion(table[packageId], packageId, draft, now)];
      r := Ok(newId);
    }

    method RollbackToVersion(packageId: Id, version: int, newId: Id, now: int) returns (r: Result<Id, VersionError>)
      requires Linked(table) && newId !in table
      modifies this
      ensures match RolledBackTable(old(table), packageId, version, newId, now)
              case Err(e) => r == Err(e) && table == old(table)
              case Ok(t) => r == Ok(newId) && table == t
    {
      var listed := ListVersions(packageId);
      if listed.Err? {
        return Err(listed.error);
      }
      var versions := listed.value;
      if versions == [] {
        return Err(PackageNotFound);
      }
      var found := false;
      for i := 0 to |versions|
        invariant found <==> exists k :: 0 <= k < i && versions[k].version == version
      {
        if versions[i].version == version {
          found := true;
        }
      }
      assert found <==> exists v :: v in versions && v.version == version;
      if !found {
        return Err(VersionNotFound);
      }
      var rootId := FindRoot(packageId);
      var target := FindVersion(rootId, version);
      if target.Err? {
        return Err(target.error);
      }
      if target.value.None? {
        return Err(VersionNotFound);
      }
      var comment := RollbackComment(version);
      table := table[newId := RolledBack(table[target.value.value], table[packageId], packageId, comment, now)];
      r := Ok(newId);
    }
  }

  lemma PrependNone(rest: Result<seq<Id>, VersionError>)
    ensures Prepend([], rest) == rest
  {
    if rest.Ok? {
      assert [] + rest.value == rest.value;
    }
  }

  lemma PrependOne(ids: seq<Id>, id: Id, rest: Result<seq<Id>, VersionError>)
    ensures Prepend(ids, Prepend([id], rest)) == Prepend(ids + [id], rest)
  {
    if rest.Ok? {
      assert ids + ([id] + rest.value) == ids + [id] + rest.value;
    }
  }

  // ---------------------------------------------------------------- one list is the whole chain

  // A successful walk, row by row: each row follows the one before, none of them branches,
  // and the last is newest.
  lemma {:induction false} WalkAt(t: Table, id: Id, ids: seq<Id>, i: nat)
    requires Linked(t) && id in t && Onward(t, id) == Ok(ids) && i < |ids|
    ensures ids[i] in t && t[ids[i]].version == t[id].version + i
    ensures Root(t, ids[i]) == Root(t, id) && Unbranched(t, ids[i])
    ensures i > 0 ==> t[ids[i]].previous == Some(ids[i - 1])
    ensures i == |ids| - 1 ==> Newest(t, ids[i])
    decreases i
  {
    var next := NextOf(t, id);
    assert LinkedRow(t, id);
    if i > 0 {
      assert LinkedRow(t, next.value.value);
      assert ids[i] == ids[1..][i - 1] && (i > 1 ==> ids[i - 1] == ids[1..][i - 2]);
      WalkAt(t, next.value.value, ids[1..], i - 1);
    }
  }

  // A successful walk from a root meets every row of its chain.
  lemma {:induction false} WalkMeets(t: Table, root: Id, ids: seq<Id>, x: Id)
    requires Linked(t) && root in t && Onward(t, root) == Ok(ids)
    requires x in t && Root(t, x) == root
    ensures x in ids
    decreases t[x].version
  {
    assert LinkedRow(t, x);
    if t[x].previous.Some? {
      var p := t[x].previous.value;
      assert LinkedRow(t, p);
      WalkMeets(t, root, ids, p);
      var i :| 0 <= i < |ids| && ids[i] == p;
      WalkAt(t, root, ids, i);
      assert IsNext(t, p, x);
      WalkAt(t, root, ids, i + 1);
      assert IsNext(t, p, ids[i + 1]);
    }
  }

  lemma {:induction false} FailureBranches(t: Table, id: Id) returns (x: Id)
    requires Linked(t) && id in t && Onward(t, id).Err?
    ensures x in t && Root(t, x) == Root(t, id) && !Unbranched(t, x) && Onward(t, id) == Err(MultipleResultsFound)
    decreases Higher(t, t[id].version)
  {
    var next := NextOf(t, id);
    if next.Err? {
      x := id;
    } else {
      HigherShrinks(t, id, next.value.value);
      x := FailureBranches(t, next.value.value);
    }
  }

  // list_versions fails if and only if some row of the chain has two successors.
  lemma ListFailsExactly(t: Table, id: Id)
    requires Linked(t) && id in t
    ensures ListOf(t, id).Err? <==> exists x :: x in t && Root(t, x) == Root(t, id) && !Unbranched(t, x)
    ensures ListOf(t, id).Err? ==> ListOf(t, id).error == MultipleResultsFound
  {
    RootOfRoot(t, id);
    if ListOf(t, id).Err? {
      var x := FailureBranches(t, Root(t, id));
    } else {
      var ids := Onward(t, Root(t, id)).value;
      forall x | x in t && Root(t, x) == Root(t, id) ensures Unbranched(t, x) {
        WalkMeets(t, Root(t, id), ids, x);
        var i :| 0 <= i < |ids| && ids[i] == x;
        WalkAt(t, Root(t, id), ids, i);
      }
    }
  }

  lemma RootOfRoot(t: Table, id: Id)
    requires Linked(t) && id in t
    ensures Root(t, Root(t, id)) == Root(t, id)
  {
  }

  // The rows a successful walk from a root meets are exactly those of its chain.
  lemma WalkIsChain(t: Table, root: Id, ids: seq<Id>, x: Id)
    requires Linked(t) && root in t && t[root].previous == None && Onward(t, root) == Ok(ids)
    ensures x in ids <==> x in t && Root(t, x) == root
  {
    if x in t && Root(t, x) == root {
      WalkMeets(t, root, ids, x);
    }
    if x in ids {
      var i :| 0 <= i < |ids| && ids[i] == x;
      WalkAt(t, root, ids, i);
    }
  }

  // The ids behind a list of versions.
  function ChainOf(t: Table, id: Id): (ids: seq<Id>)
    requires Linked(t) && id in t && ListOf(t, id).Ok?
    ensures ids != [] && forall x :: x in ids ==> x in t
  {
    Onward(t, Root(t, id)).value
  }

  // From any row of a chain the list holds exactly the rows of that chain, oldest first.
  lemma ListIsWholeChain(t: Table, id: Id, x: Id)
    requires Linked(t) && id in t && ListOf(t, id).Ok?
    ensures var ids := ChainOf(t, id);
            && ids[0] == Root(t, id) && ListOf(t, id) == Ok(DescribeAll(t, ids))
            && (x in ids <==> x in t && Root(t, x) == Root(t, id))
  {
    WalkIsChain(t, Root(t, id), ChainOf(t, id), x);
  }

  lemma WalkDescribes(t: Table, root: Id, ids: seq<Id>, i: nat)
    requires Linked(t) && root in t && t[root].previous == None && Onward(t, root) == Ok(ids) && i < |ids|
    ensures DescribeAll(t, ids)[i].version == t[root].version + i
    ensures DescribeAll(t, ids)[i].parentVersion == if i == 0 then None else Some(t[root].version + i - 1)
  {
    WalkAt(t, root, ids, i);
    assert DescribeAll(t, ids)[i] == Describe(t[ids[i]]);
  }

  // Version numbers are consecutive, and each version names its predecessor's.
  lemma VersionsAreConsecutive(t: Table, id: Id, i: nat)
    requires Linked(t) && id in t && ListOf(t, id).Ok? && i < |ListOf(t, id).value|
    ensures var versions := ListOf(t, id).value;
            && versions[i].version == t[Root(t, id)].version + i
            && versions[i].parentVersion == if i == 0 then None else Some(versions[i].version - 1)
  {
    WalkDescribes(t, Root(t, id), ChainOf(t, id), i);
  }

  // ---------------------------------------------------------------- adding a version

  predicate Extends(t: Table, id: Id, newId: Id, row: Row) {
    id in t && newId !in t && row.previous == Some(id) && row.version == t[id].version + 1
  }

  lemma ExtendLinked(t: Table, id: Id, newId: Id, row: Row)
    requires Linked(t) && Extends(t, id, newId, row)
    ensures Linked(t[newId := row])
  {
    var u := t[newId := row];
    forall x | x in u ensures LinkedRow(u, x) {
      assert LinkedRow(t, if x in t then x else id);
    }
  }

  // Nothing points to a row that is not there.
  lemma MissingIsNewest(t: Table, id: Id)
    requires Linked(t) && id !in t
    ensures Newest(t, id)
  {
    forall next | next in t ensures !IsNext(t, id, next) {
      assert LinkedRow(t, next);
    }
  }

  // A new version keeps every chain unbranched if and only if it is made from a newest row.
  lemma ExtendLinearExactly(t: Table, id: Id, newId: Id, row: Row)
    requires Linked(t) && Extends(t, id, newId, row)
    ensures Linear(t[newId := row]) <==> Linear(t) && Newest(t, id)
  {
    var u := t[newId := row];
    MissingIsNewest(t, newId);
    assert forall x, next :: next in t ==> (IsNext(u, x, next) <==> IsNext(t, x, next));
    if Linear(u) {
      forall x | x in t ensures Unbranched(t, x) {
        assert Unbranched(u, x);
      }
      assert Unbranched(u, id) && IsNext(u, id, newId);
    }
    if Linear(t) && Newest(t, id) {
      forall x | x in u ensures Unbranched(u, x) {
        assert x in t ==> Unbranched(t, x);
      }
    }
  }

  lemma {:induction false} ExtendRoot(t: Table, id: Id, newId: Id, row: Row, x: Id)
    requires Linked(t) && Extends(t, id, newId, row) && x in t
    ensures Linked(t[newId := row]) && Root(t[newId := row], x) == Root(t, x)
    decreases t[x].version
  {
    ExtendLinked(t, id, newId, row);
    assert LinkedRow(t, x) && LinkedRow(t[newId := row], x);
    if t[x].previous.Some? {
      assert LinkedRow(t, t[x].previous.value);
      ExtendRoot(t, id, newId, row, t[x].previous.value);
    }
  }

  lemma ExtendNext(t: Table, id: Id, newId: Id, row: Row, x: Id)
    requires Linked(t) && Extends(t, id, newId, row) && Newest(t, id) && x in t
    ensures NextOf(t[newId := row], x) == if x == id then Ok(Some(newId)) else NextOf(t, x)
    ensures NextOf(t[newId := row], newId) == Ok(None)
  {
    var u := t[newId := row];
    MissingIsNewest(t, newId);
    assert forall y, next :: next in t ==> (IsNext(u, y, next) <==> IsNext(t, y, next));
    assert forall next :: IsNext(u, newId, next) ==> next !in t && next == newId && row.previous == Some(newId);
    assert !IsNext(u, newId, newId);
    if x == id {
      assert IsNext(u, id, newId);
    } else {
      assert !IsNext(u, x, newId);
      assert Unbranched(u, x) == Unbranched(t, x);
    }
  }

  lemma {:induction false} ExtendOnward(t: Table, id: Id, newId: Id, row: Row, x: Id)
    requires Linked(t) && Extends(t, id, newId, row) && Newest(t, id) && x in t && Onward(t, x).Ok?
    ensures Linked(t[newId := row])
    ensures var ids := Onward(t, x).value;
            Onward(t[newId := row], x) == Ok(ids + if ids[|ids| - 1] == id then [newId] else [])
    decreases Higher(t, t[x].version)
  {
    var u := t[newId := row];
    ExtendLinked(t, id, newId, row);
    ExtendNext(t, id, newId, row, x);
    assert Onward(u, newId) == Ok([newId]);
    var next := NextOf(t, x);
    if next.value.Some? {
      HigherShrinks(t, x, next.value.value);
      ExtendOnward(t, id, newId, row, next.value.value);
      var rest := Onward(t, next.value.value).value;
      var tail := if rest[|rest| - 1] == id then [newId] else [];
      assert x != id && [x] + (rest + tail) == [x] + rest + tail;
    } else {
      assert Onward(t, x) == Ok([x]) && [x] + [] == [x];
    }
  }

  // The newest row of a chain is where its walk ends.
  lemma WalkEndsAtNewest(t: Table, root: Id, ids: seq<Id>, id: Id)
    requires Linked(t) && root in t && t[root].previous == None && Onward(t, root) == Ok(ids)
    requires id in t && Newest(t, id)
    ensures ids[|ids| - 1] == id <==> Root(t, id) == root
  {
    WalkAt(t, root, ids, |ids| - 1);
    if Root(t, id) == root {
      WalkMeets(t, root, ids, id);
      var i :| 0 <= i < |ids| && ids[i] == id;
      if i < |ids| - 1 {
        NotBeforeNewest(t, root, ids, i);
      }
    }
  }

  lemma NotBeforeNewest(t: Table, root: Id, ids: seq<Id>, i: nat)
    requires Linked(t) && root in t && Onward(t, root) == Ok(ids) && i < |ids| - 1
    ensures !Newest(t, ids[i])
  {
    WalkAt(t, root, ids, i + 1);
    assert IsNext(t, ids[i], ids[i + 1]);
  }

  // A version made from the newest row is listed last in its own chain, from every row of
  // the chain; every other chain is listed as before, and no earlier row changes.
  lemma ExtendAppends(t: Table, id: Id, newId: Id, row: Row, x: Id)
    requires Linked(t) && Extends(t, id, newId, row) && Newest(t, id) && x in t && ListOf(t, x).Ok?
    ensures Linked(t[newId := row]) && t[newId := row] - {newId} == t
    ensures ListOf(t[newId := row], x)
            == Ok(ListOf(t, x).value + if Root(t, x) == Root(t, id) then [Describe(row)] else [])
  {
    var u := t[newId := row];
    var root, ids := Root(t, x), ChainOf(t, x);
    ExtendLinked(t, id, newId, row);
    ExtendRoot(t, id, newId, row, x);
    ExtendOnward(t, id, newId, row, root);
    WalkEndsAtNewest(t, root, ids, id);
    var added := if Root(t, id) == root then [newId] else [];
    assert DescribeAll(u, ids + added) == DescribeAll(t, ids) + DescribeAll(u, added);
    assert DescribeAll(u, added) == if Root(t, id) == root then [Describe(row)] else [];
  }

  // ---------------------------------------------------------------- rollback

  // The search finds the one row of the chain with that version.
  lemma {:induction false} SearchFinds(t: Table, id: Id, ids: seq<Id>, version: int)
    requires Linked(t) && id in t && Onward(t, id) == Ok(ids)
    ensures Search(t, id, version).Ok?
    ensures var found := Search(t, id, version).value;
            if t[id].version <= version < t[id].version + |ids|
            then found == Some(ids[version - t[id].version])
            else found == None
    decreases |ids|
  {
    var next := NextOf(t, id);
    if next.value.Some? {
      assert LinkedRow(t, next.value.value);
      SearchFinds(t, next.value.value, ids[1..], version);
    }
  }

  predicate SameContent(a: Row, b: Row) {
    && a.filename == b.filename && a.storageUri == b.storageUri && a.sizeBytes == b.sizeBytes
    && a.contentHash == b.contentHash && a.shellCount == b.shellCount && a.submodelCount == b.submodelCount
    && a.conceptCount == b.conceptCount && a.info == b.info
  }

  predicate Listed(t: Table, id: Id, version: int)
    requires Linked(t)
  {
    id in t && ListOf(t, id).Ok? && exists v :: v in ListOf(t, id).value && v.version == version
  }

  // A listed version is that of one row of the chain, which the search finds.
  lemma ListedIsFound(t: Table, id: Id, version: int)
    requires Linked(t) && Listed(t, id, version)
    ensures var found := Search(t, Root(t, id), version);
            && found.Ok? && found.value.Some?
            && Root(t, found.value.value) == Root(t, id) && t[found.value.value].version == version
  {
    var root, ids := Root(t, id), ChainOf(t, id);
    SearchFinds(t, root, ids, version);
    var versions := ListOf(t, id).value;
    var v :| v in versions && v.version == version;
    var i :| 0 <= i < |versions| && versions[i] == v;
    WalkAt(t, root, ids, i);
    assert version == t[root].version + i;
  }

  // Rollback succeeds if and only if the package exists, its chain does not branch and holds
  // the version; the new row then copies the content of the row with that version, is linked
  // after the given row, and every earlier row is as it was.
  lemma RollbackCopies(t: Table, id: Id, version: int, newId: Id, now: int)
    requires Linked(t) && newId !in t
    ensures RolledBackTable(t, id, version, newId, now).Ok? <==> Listed(t, id, version)
    ensures RolledBackTable(t, id, version, newId, now).Ok? ==>
              var u := RolledBackTable(t, id, version, newId, now).value;
              && newId in u && u - {newId} == t && Extends(t, id, newId, u[newId])
              && exists target :: target in t && Root(t, target) == Root(t, id) && t[target].version == version
                               && SameContent(u[newId], t[target])
  {
    if Listed(t, id, version) {
      ListedIsFound(t, id, version);
    }
  }

  // ---------------------------------------------------------------- runs

  datatype Op =
    | Upload(newId: Id, row: Row)
    | Create(id: Id, draft: Draft, newId: Id, now: int)
    | Rollback(id: Id, version: int, newId: Id, now: int)
    | Delete(id: Id)

  // Identifiers are fresh, and uploads start a chain.
  predicate Proper(t: Table, op: Op) {
    match op
    case Upload(newId, row) => newId !in t && row.version == 1 && row.previous == None
    case Create(_, _, newId, _) => newId !in t
    case Rollback(_, _, newId, _) => newId !in t
    case Delete(_) => true
  }

  // Failed operations leave the table alone.
  function Next(t: Table, op: Op): Table
    requires Linked(t)
  {
    match op
    case Upload(newId, row) => t[newId := row]
    case Create(id, draft, newId, now) =>
      (match Created(t, id, draft, newId, now) case Err(_) => t case Ok(u) => u)
    case Rollback(id, version, newId, now) =>
      (match RolledBackTable(t, id, version, newId, now) case Err(_) => t case Ok(u) => u)
    case Delete(id) => Deleted(t, id)
  }

  predicate FromNewest(t: Table, op: Op) {
    match op
    case Create(id, _, _, _) => Newest(t, id)
    case Rollback(id, _, _, _) => Newest(t, id)
    case _ => true
  }

  lemma DeleteKeeps(t: Table, id: Id)
    requires Linked(t)
    ensures Linked(Deleted(t, id)) && (Linear(t) ==> Linear(Deleted(t, id)))
  {
    var u := Deleted(t, id);
    forall x | x in u ensures LinkedRow(u, x) {
      assert LinkedRow(t, x);
    }
    assert forall x, next :: IsNext(u, x, next) ==> IsNext(t, x, next);
    if Linear(t) {
      forall x | x in u ensures Unbranched(u, x) {
        assert Unbranched(t, x);
      }
    }
  }

  lemma UploadKeeps(t: Table, newId: Id, row: Row)
    requires Linked(t) && Proper(t, Upload(newId, row))
    ensures Linked(t[newId := row]) && (Linear(t) ==> Linear(t[newId := row]))
  {
    var u := t[newId := row];
    forall x | x in u ensures LinkedRow(u, x) {
      assert x in t ==> LinkedRow(t, x);
    }
    MissingIsNewest(t, newId);
    assert forall x, next :: IsNext(u, x, next) ==> IsNext(t, x, next);
    if Linear(t) {
      forall x | x in u ensures Unbranched(u, x) {
        assert x in t ==> Unbranched(t, x);
      }
    }
  }

  lemma StepKeeps(t: Table, op: Op)
    requires Linked(t) && Proper(t, op)
    ensures Linked(Next(t, op))
    ensures Linear(t) && FromNewest(t, op) ==> Linear(Next(t, op))
  {
    match op
    case Upload(newId, row) => UploadKeeps(t, newId, row);
    case Create(id, draft, newId, now) =>
      if id in t {
        ExtendLinked(t, id, newId, NewVersion(t[id], id, draft, now));
        ExtendLinearExactly(t, id, newId, NewVersion(t[id], id, draft, now));
      }
    case Rollback(id, version, newId, now) =>
      RollbackCopies(t, id, version, newId, now);
      var r := RolledBackTable(t, id, version, newId, now);
      if r.Ok? {
        assert r.value == t[newId := r.value[newId]];
        ExtendLinked(t, id, newId, r.value[newId]);
        ExtendLinearExactly(t, id, newId, r.value[newId]);
      }
    case Delete(id) => DeleteKeeps(t, id);
  }

  predicate ValidRun(t: Table, run: seq<Op>)
    requires Linked(t)
    decreases |run|
  {
    run != [] ==>
      && Proper(t, run[0]) && FromNewest(t, run[0])
      && (StepKeeps(t, run[0]); ValidRun(Next(t, run[0]), run[1..]))
  }

  function After(t: Table, run: seq<Op>): (u: Table)
    requires Linked(t) && ValidRun(t, run)
    ensures Linked(u)
    decreases |run|
  {
    if run == [] then t else (StepKeeps(t, run[0]); After(Next(t, run[0]), run[1..]))
  }

  // As long as versions are made from newest rows, every package can always list its versions.
  lemma {:induction false} RunListable(t: Table, run: seq<Op>, id: Id)
    requires Linked(t) && Linear(t) && ValidRun(t, run)
    ensures Linear(After(t, run)) && ListOf(After(t, run), id).Ok?
    decreases |run|
  {
    if run == [] {
      if id in t {
        ListFailsExactly(t, id);
      }
    } else {
      StepKeeps(t, run[0]);
      RunListable(Next(t, run[0]), run[1..], id);
    }
  }

  // Two versions made from one row make the whole chain unlistable.
  lemma BranchingBreaksList(t: Table, id: Id, draft: Draft, first: Id, second: Id, now: int)
    requires Linked(t) && id in t && first !in t && second !in t && first != second
    ensures var u := Next(t, Create(id, draft, first, now));
            Linked(u) && var v := Next(u, Create(id, draft, second, now));
            Linked(v) && ListOf(v, id) == Err(MultipleResultsFound)
  {
    StepKeeps(t, Create(id, draft, first, now));
    var u := Next(t, Create(id, draft, first, now));
    StepKeeps(u, Create(id, draft, second, now));
    var v := Next(u, Create(id, draft, second, now));
    assert IsNext(v, id, first) && IsNext(v, id, second);
    ListFailsExactly(v, id);
  }
}
