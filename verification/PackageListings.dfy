// What a listing of versions tells after each operation on the package table.
module PackageListings {
  import opened Wrappers
  import opened Text
  import opened PackageVersions

  // ---------------------------------------------------------------- new versions

  // A version created from the newest row is listed last, with what its creator supplied and
  // the number after that row's; the counts stay those of the row it was made from.
  lemma CreatedIsListed(t: Table, id: Id, draft: Draft, newId: Id, now: int, x: Id)
    requires Linked(t) && id in t && newId !in t && Newest(t, id)
    requires x in t && Root(t, x) == Root(t, id) && ListOf(t, x).Ok?
    ensures Created(t, id, draft, newId, now).Ok?
    ensures var u, number := Created(t, id, draft, newId, now).value, t[id].version;
            && Linked(u) && newId in u && u - {newId} == t
            && ListOf(u, x) == Ok(ListOf(t, x).value
                 + [PackageVersion(number + 1, now, draft.createdBy, draft.comment, draft.contentHash, Some(number))])
            && SupplyOf(u[newId]) == (draft.filename, draft.storageUri, draft.sizeBytes)
            && CountsOf(u[newId]) == CountsOf(t[id])
  {
    ExtendAppends(t, id, newId, NewVersion(t[id], id, draft, now), x);
  }

  function SupplyOf(row: Row): (string, string, int) {
    (row.filename, row.storageUri, row.sizeBytes)
  }

  function CountsOf(row: Row): (int, int, int, string) {
    (row.shellCount, row.submodelCount, row.conceptCount, row.info)
  }

  // int() reads the number in the comment of a rollback.
  lemma NumberInComment(version: int)
    ensures RollbackComment(version)[..20] == "Rollback to version "
    ensures PyInt(RollbackComment(version)[20..]) == Some(version)
  {
    var digits := NatToString(if version < 0 then -version else version);
    PyIntSigned("", if version < 0 then "-" else "", if version < 0 then -version else version, "");
    assert "" + ((if version < 0 then "-" else "") + digits + "") == IntToString(version);
    assert RollbackComment(version)[20..] == IntToString(version);
  }

  // A rollback from the newest row is listed last, by nobody, with a comment that names the
  // version and with the hash that version is listed with.
  lemma RollbackIsListed(t: Table, id: Id, version: int, newId: Id, now: int)
    requires Linked(t) && newId !in t && Listed(t, id, version) && Newest(t, id)
    ensures RolledBackTable(t, id, version, newId, now).Ok?
    ensures var u, versions, number :=
              RolledBackTable(t, id, version, newId, now).value, ListOf(t, id).value, t[id].version;
            && Linked(u)
            && exists v :: v in versions && v.version == version
                 && ListOf(u, id) == Ok(versions + [PackageVersion(number + 1, now, None,
                                          Some(RollbackComment(version)), v.contentHash, Some(number))])
  {
    ListedIsFound(t, id, version);
    var target := Search(t, Root(t, id), version).value.value;
    var row := RolledBack(t[target], t[id], id, RollbackComment(version), now);
    ExtendAppends(t, id, newId, row, id);
    ListIsWholeChain(t, id, target);
    var ids, versions := ChainOf(t, id), ListOf(t, id).value;
    var i :| 0 <= i < |ids| && ids[i] == target;
    assert versions[i] == Describe(t[target]);
    assert versions[i] in versions && versions[i].version == version && versions[i].contentHash == row.contentHash;
  }

  // The first version of a package is all that is listed for it.
  lemma UploadIsListed(t: Table, newId: Id, row: Row)
    requires Linked(t) && Proper(t, Upload(newId, row))
    ensures Linked(t[newId := row])
    ensures ListOf(t[newId := row], newId)
            == Ok([PackageVersion(1, row.createdAt, row.createdBy, row.comment, row.contentHash, None)])
  {
    var u := t[newId := row];
    UploadKeeps(t, newId, row);
    MissingIsNewest(t, newId);
    forall next | next in u ensures !IsNext(u, newId, next) {
      assert next in t ==> !IsNext(t, newId, next);
    }
    assert Onward(u, newId) == Ok([newId]) && Root(u, newId) == newId;
    assert DescribeAll(u, [newId]) == [Describe(row)];
  }

  // ---------------------------------------------------------------- deleted versions

  // Every row of a walk is met once, and the walk from it is the rest.
  lemma {:induction false} WalkFrom(t: Table, root: Id, ids: seq<Id>, i: nat)
    requires Linked(t) && root in t && Onward(t, root) == Ok(ids) && i < |ids|
    ensures ids[i] in t && Onward(t, ids[i]) == Ok(ids[i..])
    decreases i
  {
    if i > 0 {
      var next := NextOf(t, root).value.value;
      WalkFrom(t, next, ids[1..], i - 1);
      assert ids[1..][i - 1..] == ids[i..];
    } else {
      assert ids[0..] == ids;
    }
  }

  lemma WalkOnce(t: Table, root: Id, ids: seq<Id>, i: nat, k: nat)
    requires Linked(t) && root in t && Onward(t, root) == Ok(ids) && i < |ids| && k < |ids| && ids[i] == ids[k]
    ensures i == k
  {
    WalkAt(t, root, ids, i);
    WalkAt(t, root, ids, k);
  }

  lemma DeleteNext(t: Table, id: Id, x: Id)
    requires Linked(t) && x in t && x != id && NextOf(t, x).Ok?
    ensures NextOf(Deleted(t, id), x) == if NextOf(t, x) == Ok(Some(id)) then Ok(None) else NextOf(t, x)
  {
    var u := Deleted(t, id);
    assert forall next :: next in u ==> (IsNext(u, x, next) <==> IsNext(t, x, next));
    assert Unbranched(t, x) && Unbranched(u, x);
    if NextOf(t, x).value.Some? {
      var next := NextOf(t, x).value.value;
      assert next != id ==> next in u && IsNext(u, x, next);
    }
  }

  // How much of a walk is left when it has to stop before a row.
  predicate StopsAt(ids: seq<Id>, id: Id, i: nat) {
    i <= |ids| && id !in ids[..i] && (i < |ids| ==> ids[i] == id)
  }

  lemma {:induction false} DeleteOnward(t: Table, id: Id, x: Id, ids: seq<Id>, i: nat)
    requires Linked(t) && x in t && x != id && Onward(t, x) == Ok(ids) && StopsAt(ids, id, i)
    ensures Linked(Deleted(t, id)) && Onward(Deleted(t, id), x) == Ok(ids[..i])
    decreases i
  {
    DeleteKeeps(t, id);
    DeleteNext(t, id, x);
    var next := NextOf(t, x).value;
    assert ids[..i][0] == ids[0];
    if i == 1 {
      assert ids[..1] == [x];
    } else {
      assert next.Some? && ids[1] == next.value && ids[..i][1] == ids[1];
      assert ids[1..][..i - 1] == ids[..i][1..];
      assert ids[..i] == [x] + ids[1..][..i - 1];
      DeleteOnward(t, id, next.value, ids[1..], i - 1);
    }
  }

  // The oldest row that is left before a row of the chain.
  lemma {:induction false} DeleteRoot(t: Table, id: Id, root: Id, ids: seq<Id>, i: nat, k: nat)
    requires Linked(t) && root in t && t[root].previous == None && Onward(t, root) == Ok(ids)
    requires StopsAt(ids, id, i) && k < |ids| && k != i
    ensures Linked(Deleted(t, id)) && ids[k] in Deleted(t, id)
    ensures Root(Deleted(t, id), ids[k]) == ids[if i < k then i + 1 else 0]
    decreases k
  {
    DeleteKeeps(t, id);
    WalkAt(t, root, ids, k);
    if i < |ids| && ids[k] == id {
      WalkOnce(t, root, ids, i, k);
    }
    if k > 0 && k != i + 1 {
      DeleteRoot(t, id, root, ids, i, k - 1);
    }
  }

  lemma LaterOnly(t: Table, id: Id, root: Id, ids: seq<Id>, i: nat, k: nat)
    requires Linked(t) && root in t && t[root].previous == None && Onward(t, root) == Ok(ids)
    requires StopsAt(ids, id, i) && i < k < |ids|
    ensures ids[k] !in ids[..i] && ids[i + 1] in Deleted(t, id) && Linked(Deleted(t, id))
    ensures Onward(Deleted(t, id), ids[i + 1]) == Ok(ids[i + 1..])
  {
    if j :| 0 <= j < i && ids[j] == ids[k] {
      WalkOnce(t, root, ids, j, k);
    }
    DeleteRoot(t, id, root, ids, i, i + 1);
    WalkFrom(t, root, ids, i + 1);
    var rest := ids[i + 1..];
    if j :| 0 <= j < |rest| && rest[j] == id {
      WalkOnce(t, root, ids, i, i + 1 + j);
    }
    assert rest[..|rest|] == rest;
    DeleteOnward(t, id, ids[i + 1], rest, |rest|);
  }

  lemma EarlierListed(t: Table, id: Id, root: Id, ids: seq<Id>, i: nat, k: nat)
    requires Linked(t) && root in t && t[root].previous == None && Onward(t, root) == Ok(ids)
    requires StopsAt(ids, id, i) && k < i
    ensures Linked(Deleted(t, id)) && ListOf(Deleted(t, id), ids[k]) == Ok(DescribeAll(t, ids)[..i])
  {
    var u := Deleted(t, id);
    DeleteRoot(t, id, root, ids, i, k);
    assert ids[..i][0] == root;
    DeleteOnward(t, id, root, ids, i);
    forall j | 0 <= j < i ensures Describe(u[ids[..i][j]]) == Describe(t[ids[j]]) {
      Kept(t, id, root, ids, i, j);
    }
    assert DescribeAll(u, ids[..i]) == DescribeAll(t, ids)[..i];
  }

  // What is left of a row.
  lemma Kept(t: Table, id: Id, root: Id, ids: seq<Id>, i: nat, k: nat)
    requires Linked(t) && root in t && t[root].previous == None && Onward(t, root) == Ok(ids)
    requires StopsAt(ids, id, i) && k < |ids| && k != i
    ensures ids[k] in Deleted(t, id)
    ensures var now, before := Deleted(t, id)[ids[k]], DescribeAll(t, ids)[k];
            && Describe(now) == (if k == i + 1 then before.(parentVersion := None) else before)
            && SupplyOf(now) == SupplyOf(t[ids[k]]) && CountsOf(now) == CountsOf(t[ids[k]])
  {
    DeleteRoot(t, id, root, ids, i, k);
    WalkAt(t, root, ids, k);
    if k > 0 && k != i + 1 && ids[k - 1] == id {
      assert i < |ids|;
      WalkOnce(t, root, ids, i, k - 1);
    }
  }

  // The rows after the deleted one.
  predicate Later(t: Table, id: Id, ids: seq<Id>, i: nat)
    requires Linked(t)
  {
    && ids != [] && ids[0] in t && t[ids[0]].previous == None && Onward(t, ids[0]) == Ok(ids)
    && StopsAt(ids, id, i) && i + 1 < |ids|
  }

  lemma LaterDescribed(t: Table, id: Id, ids: seq<Id>, i: nat, rest: seq<Id>)
    requires Linked(t) && Later(t, id, ids, i) && rest == ids[i + 1..]
    ensures forall x :: x in ids ==> x in t
    ensures forall x :: x in rest ==> x in Deleted(t, id)
    ensures var versions := DescribeAll(t, ids);
            DescribeAll(Deleted(t, id), rest) == [versions[i + 1].(parentVersion := None)] + versions[i + 2..]
  {
    var u, versions := Deleted(t, id), DescribeAll(t, ids);
    forall j | 0 <= j < |rest|
      ensures rest[j] in u
      ensures Describe(u[rest[j]]) == if j == 0 then versions[i + 1].(parentVersion := None) else versions[i + 1 + j]
    {
      Kept(t, id, ids[0], ids, i, i + 1 + j);
    }
    var expected := [versions[i + 1].(parentVersion := None)] + versions[i + 2..];
    assert forall j :: 0 < j < |expected| ==> expected[j] == versions[i + 1 + j];
    assert DescribeAll(u, rest) == expected;
  }

  lemma LaterListed(t: Table, id: Id, root: Id, ids: seq<Id>, i: nat, k: nat)
    requires Linked(t) && root in t && t[root].previous == None && Onward(t, root) == Ok(ids)
    requires StopsAt(ids, id, i) && i < k < |ids|
    ensures Linked(Deleted(t, id))
    ensures var versions := DescribeAll(t, ids);
            ListOf(Deleted(t, id), ids[k]) == Ok([versions[i + 1].(parentVersion := None)] + versions[i + 2..])
  {
    DeleteRoot(t, id, root, ids, i, k);
    LaterOnly(t, id, root, ids, i, k);
    LaterDescribed(t, id, ids, i, ids[i + 1..]);
  }

  // Deleting a version splits its chain: the earlier versions are listed without it, and the
  // later ones form a chain of their own that keeps its numbers; only the first of these
  // forgets its parent. Chains without that version are listed as before.
  lemma DeleteSplits(t: Table, id: Id, x: Id, i: nat)
    requires Linked(t) && x in t && x != id && ListOf(t, x).Ok? && StopsAt(ChainOf(t, x), id, i)
    ensures Linked(Deleted(t, id)) && (x in ChainOf(t, x)[..i] || i + 1 < |ChainOf(t, x)|)
    ensures var versions := ListOf(t, x).value;
            ListOf(Deleted(t, id), x)
            == Ok(if x in ChainOf(t, x)[..i] then versions[..i]
                  else [versions[i + 1].(parentVersion := None)] + versions[i + 2..])
  {
    var root, ids := Root(t, x), ChainOf(t, x);
    WalkIsChain(t, root, ids, x);
    var k :| 0 <= k < |ids| && ids[k] == x;
    if k < i {
      assert ids[..i][k] == x;
      EarlierListed(t, id, root, ids, i, k);
    } else {
      LaterOnly(t, id, root, ids, i, k);
      LaterListed(t, id, root, ids, i, k);
    }
  }
}
