// The session's content-addressed image assets: one identifier per digest, each a prefix of
// its own digest, derived from a parent committed before it.
module AssetStores {
  import opened JsonValues
  import opened Sequences

  const DIGEST_LENGTH := 64
  const SHORTEST_PREFIX := 16

  datatype Asset = Asset(id: string, digest: string, parent: Option<string>, depth: nat)

  datatype Commit = Commit(asset: Asset, parent: string, reused: bool)

  // `order` is the insertion order of `records`.
  datatype Contents = Contents(order: seq<string>, records: map<string, Asset>, digestIds: map<string, string>)

  datatype CommitError = SessionClosed | AssetNotFound | DepthLimitExceeded | AssetLimitExceeded | InvalidImage

  datatype CommitResult = Committed(commits: seq<Commit>) | Rejected(error: CommitError)

  function IdOf(digest: string, length: nat): (r: string)
    requires length <= |digest|
  {
    "img_" + digest[..length]
  }

  predicate IsDigest(digest: string)
  {
    |digest| == DIGEST_LENGTH
  }

  // `id` is a long enough prefix of `digest`.
  predicate Names(id: string, digest: string)
  {
    && IsDigest(digest) && 4 + SHORTEST_PREFIX <= |id| <= 4 + DIGEST_LENGTH
    && id == IdOf(digest, |id| - 4)
  }

  lemma FullNameIsUnique(a: string, b: string)
    requires IsDigest(a) && Names(IdOf(a, DIGEST_LENGTH), b)
    ensures a == b
  {
    var id := IdOf(a, DIGEST_LENGTH);
    assert id[4..] == a[..DIGEST_LENGTH] == a;
    assert IdOf(b, DIGEST_LENGTH)[4..] == b[..DIGEST_LENGTH] == b;
  }

  /******* What holds of the contents *******/

  // Identifiers and digests are in bijection.
  ghost predicate Addressed(c: Contents)
  {
    && (forall id :: id in c.records ==>
          && c.records[id].id == id && Names(id, c.records[id].digest)
          && c.records[id].digest in c.digestIds && c.digestIds[c.records[id].digest] == id)
    && (forall d :: d in c.digestIds ==>
          c.digestIds[d] in c.records && c.records[c.digestIds[d]].digest == d)
  }

  ghost predicate InOrder(c: Contents)
  {
    && (forall id :: id in c.records <==> id in c.order)
    && (forall i, j :: 0 <= i < j < |c.order| ==> c.order[i] != c.order[j])
  }

  // The first asset is the root; every other has an earlier parent one level above it.
  ghost predicate Derived(c: Contents, maxDepth: nat)
    requires InOrder(c)
  {
    && c.order != []
    && (forall i :: 0 <= i < |c.order| ==> DerivedAt(c, maxDepth, i))
  }

  ghost predicate DerivedAt(c: Contents, maxDepth: nat, i: nat)
    requires i < |c.order| && InOrder(c)
  {
    assert c.order[i] in c.order;
    var a := c.records[c.order[i]];
    if i == 0 then a.parent.None? && a.depth == 0
    else
      && a.parent.Some?
      && (exists j :: 0 <= j < i && c.order[j] == a.parent.value)
      && a.parent.value in c.records
      && a.depth == c.records[a.parent.value].depth + 1 <= maxDepth
  }

  ghost predicate Consistent(c: Contents, maxDepth: nat)
  {
    Addressed(c) && InOrder(c) && Derived(c, maxDepth)
  }

  /******* Allocation *******/

  // `planned` gives each planned identifier its digest.
  ghost predicate NamesOwnDigests(planned: map<string, string>)
  {
    forall id :: id in planned ==> Names(id, planned[id])
  }

  predicate Free(planned: map<string, string>, id: string, digest: string)
  {
    id in planned ==> planned[id] == digest
  }

  // The shortest prefix not taken by another digest. It never runs out: the full digest
  // can only name itself.
  method AllocateId(digest: string, planned: map<string, string>) returns (id: Option<string>)
    requires IsDigest(digest) && NamesOwnDigests(planned)
    ensures id.Some? && Names(id.value, digest) && Free(planned, id.value, digest)
    ensures forall length :: SHORTEST_PREFIX <= length < |id.value| - 4 ==> !Free(planned, IdOf(digest, length), digest)
  {
    for length := SHORTEST_PREFIX to DIGEST_LENGTH + 1
      invariant forall shorter :: SHORTEST_PREFIX <= shorter < length ==> !Free(planned, IdOf(digest, shorter), digest)
    {
      var candidate := IdOf(digest, length);
      if candidate !in planned || planned[candidate] == digest {
        return Some(candidate);
      }
    }
    assert !Free(planned, IdOf(digest, DIGEST_LENGTH), digest);
    FullNameIsUnique(digest, planned[IdOf(digest, DIGEST_LENGTH)]);
    assert false;
  }

  /******* One prepared asset *******/

  // Adds one asset under a new identifier.
  function Added(c: Contents, a: Asset): (r: Contents)
  {
    Contents(c.order + [a.id], c.records[a.id := a], c.digestIds[a.digest := a.id])
  }

  lemma AddedIsDerived(c: Contents, a: Asset, maxDepth: nat)
    requires InOrder(c) && Derived(c, maxDepth) && a.id !in c.records
    requires a.parent.Some? && a.parent.value in c.records
    requires a.depth == c.records[a.parent.value].depth + 1 <= maxDepth
    ensures InOrder(Added(c, a)) && Derived(Added(c, a), maxDepth)
  {
    var r := Added(c, a);
    var p :| 0 <= p < |c.order| && c.order[p] == a.parent.value;
    forall i | 0 <= i < |r.order|
      ensures DerivedAt(r, maxDepth, i)
    {
      if i < |c.order| {
        assert r.order[i] == c.order[i] && c.order[i] in c.records;
        assert DerivedAt(c, maxDepth, i);
        if 0 < i {
          var j :| 0 <= j < i && c.order[j] == c.records[c.order[i]].parent.value;
          assert r.order[j] == c.order[j];
        }
      } else {
        assert r.order[p] == a.parent.value;
      }
    }
  }

  // What committing one digest under `parent` does: reuse it or add it.
  ghost predicate Commits(c: Contents, parent: string, depth: nat, digest: string, r: Contents, commit: Commit)
  {
    && commit.parent == parent && commit.asset.digest == digest
    && commit.reused == (digest in c.digestIds)
    && if digest in c.digestIds
       then c.digestIds[digest] in c.records && r == c && commit.asset == c.records[c.digestIds[digest]]
       else commit.asset.parent == Some(parent) && commit.asset.depth == depth
            && commit.asset.id !in c.records && Names(commit.asset.id, digest) && r == Added(c, commit.asset)
  }

  lemma CommitsKeepConsistent(c: Contents, parent: string, digest: string, r: Contents, commit: Commit, maxDepth: nat)
    requires Consistent(c, maxDepth) && parent in c.records && c.records[parent].depth + 1 <= maxDepth
    requires Commits(c, parent, c.records[parent].depth + 1, digest, r, commit)
    ensures Consistent(r, maxDepth) && parent in r.records && r.records[parent] == c.records[parent]
  {
    if digest !in c.digestIds {
      AddedIsDerived(c, commit.asset, maxDepth);
    }
  }

  // A whole batch, one digest after the other.
  ghost predicate CommitsAll(c: Contents, parent: string, depth: nat, digests: seq<string>, r: Contents,
                             commits: seq<Commit>)
    decreases |digests|
  {
    && |commits| == |digests|
    && if digests == [] then r == c
       else exists m :: CommitsAll(c, parent, depth, Front(digests), m, Front(commits))
                        && Commits(m, parent, depth, Last(digests), r, Last(commits))
  }

  function NewCount(commits: seq<Commit>): (r: nat)
    ensures r <= |commits|
  {
    if commits == [] then 0
    else NewCount(commits[..|commits| - 1]) + (if commits[|commits| - 1].reused then 0 else 1)
  }

  lemma {:induction false} CommitsAllKeepsConsistent(c: Contents, parent: string, digests: seq<string>, r: Contents,
                                                     commits: seq<Commit>, maxDepth: nat)
    requires Consistent(c, maxDepth) && parent in c.records && c.records[parent].depth + 1 <= maxDepth
    requires CommitsAll(c, parent, c.records[parent].depth + 1, digests, r, commits)
    ensures Consistent(r, maxDepth) && parent in r.records && r.records[parent] == c.records[parent]
    ensures |r.order| == |c.order| + NewCount(commits)
    decreases |digests|
  {
    if digests != [] {
      var n := |digests| - 1;
      var depth := c.records[parent].depth + 1;
      var m :| CommitsAll(c, parent, depth, Front(digests), m, Front(commits))
        && Commits(m, parent, depth, digests[n], r, commits[n]);
      CommitsAllKeepsConsistent(c, parent, digests[..n], m, commits[..n], maxDepth);
      CommitsKeepConsistent(m, parent, digests[n], r, commits[n], maxDepth);
    }
  }

  lemma CommitOneMore(c: Contents, parent: string, depth: nat, digests: seq<string>, m: Contents, commits: seq<Commit>,
                      digest: string, r: Contents, commit: Commit)
    requires CommitsAll(c, parent, depth, digests, m, commits) && Commits(m, parent, depth, digest, r, commit)
    ensures CommitsAll(c, parent, depth, digests + [digest], r, commits + [commit])
    ensures NewCount(commits + [commit]) == NewCount(commits) + (if commit.reused then 0 else 1)
  {
    assert Front(digests + [digest]) == digests && Front(commits + [commit]) == commits;
  }

  // The distinct digests of a batch that the store does not have yet.
  function NewDigests(c: Contents, digests: seq<string>): (r: set<string>)
  {
    set d | d in digests && d !in c.digestIds
  }

  lemma NewDigestsStep(c: Contents, digests: seq<string>)
    requires digests != []
    ensures NewDigests(c, digests)
      == NewDigests(c, Front(digests)) + (if Last(digests) in c.digestIds then {} else {Last(digests)})
  {
    assert digests == Front(digests) + [Last(digests)];
  }

  lemma CommitsKeys(c: Contents, parent: string, depth: nat, digest: string, r: Contents, commit: Commit)
    requires Commits(c, parent, depth, digest, r, commit)
    ensures r.digestIds.Keys == c.digestIds.Keys + {digest}
    ensures commit.reused <==> digest in c.digestIds.Keys
  {}

  lemma AddedSize(a: set<string>, x: string)
    ensures |a + {x}| == |a| + if x in a then 0 else 1
  {
    if x in a { assert a + {x} == a; }
  }

  // The batch adds exactly its new digests, so the capacity check made before it is exact.
  lemma {:induction false} CommitsAllAddsNewDigests(c: Contents, parent: string, depth: nat, digests: seq<string>,
                                                    r: Contents, commits: seq<Commit>)
    requires CommitsAll(c, parent, depth, digests, r, commits)
    ensures r.digestIds.Keys == c.digestIds.Keys + NewDigests(c, digests)
    ensures NewCount(commits) == |NewDigests(c, digests)|
    decreases |digests|
  {
    if digests == [] {
      assert NewDigests(c, digests) == {};
    } else {
      var m :| CommitsAll(c, parent, depth, Front(digests), m, Front(commits))
            && Commits(m, parent, depth, Last(digests), r, Last(commits));
      CommitsAllAddsNewDigests(c, parent, depth, Front(digests), m, Front(commits));
      CommitsKeys(m, parent, depth, Last(digests), r, Last(commits));
      NewDigestsStep(c, digests);
      KeysStep(c.digestIds.Keys, NewDigests(c, Front(digests)), Last(digests));
      NewDigestsCount(c, Front(digests), Last(digests), Last(commits).reused);
    }
  }

  lemma KeysStep(known: set<string>, added: set<string>, digest: string)
    ensures known + added + {digest} == known + (added + (if digest in known then {} else {digest}))
  {}

  lemma NewDigestsCount(c: Contents, front: seq<string>, digest: string, reused: bool)
    requires reused <==> digest in c.digestIds.Keys + NewDigests(c, front)
    ensures |NewDigests(c, front) + (if digest in c.digestIds then {} else {digest})|
         == |NewDigests(c, front)| + if reused then 0 else 1
  {
    if digest in c.digestIds {
      assert NewDigests(c, front) + {} == NewDigests(c, front);
    } else {
      AddedSize(NewDigests(c, front), digest);
    }
  }

  // What a batch makes of one of its digests: an asset known before or committed earlier in
  // the batch is reused as it is, any other is new, one level below the parent.
  ghost predicate CommittedAt(c: Contents, parent: string, depth: nat, digests: seq<string>, r: Contents,
                              commits: seq<Commit>, i: int)
    requires 0 <= i < |digests| == |commits|
  {
    var d, commit := digests[i], commits[i];
    && commit.parent == parent && commit.asset.digest == d
    && (commit.reused <==> d in c.digestIds || d in digests[..i])
    && (d in c.digestIds ==> c.digestIds[d] in c.records && commit.asset == c.records[c.digestIds[d]])
    && (!commit.reused ==> commit.asset.parent == Some(parent) && commit.asset.depth == depth)
    && d in r.digestIds && r.digestIds[d] in r.records && r.records[r.digestIds[d]] == commit.asset
  }

  // All that was there stays as it was, in the same place.
  ghost predicate Extends(c: Contents, r: Contents)
  {
    && c.order <= r.order
    && (forall id :: id in c.records ==> id in r.records && r.records[id] == c.records[id])
    && (forall d :: d in c.digestIds ==> d in r.digestIds && r.digestIds[d] == c.digestIds[d])
  }

  lemma CommitExtends(m: Contents, parent: string, depth: nat, digest: string, r: Contents, commit: Commit)
    requires Commits(m, parent, depth, digest, r, commit)
    ensures Extends(m, r)
    ensures commit.asset.digest in r.digestIds && r.digestIds[commit.asset.digest] in r.records
    ensures r.records[r.digestIds[commit.asset.digest]] == commit.asset
  {}

  lemma CommittedStays(c: Contents, parent: string, depth: nat, digests: seq<string>, m: Contents, r: Contents,
                       commits: seq<Commit>, i: nat)
    requires i < |digests| - 1 && |commits| == |digests| && Extends(m, r)
    requires CommittedAt(c, parent, depth, Front(digests), m, Front(commits), i)
    ensures CommittedAt(c, parent, depth, digests, r, commits, i)
  {
    assert Front(digests)[..i] == digests[..i];
  }

  lemma CommittedLast(c: Contents, parent: string, depth: nat, digests: seq<string>, m: Contents, r: Contents,
                      commits: seq<Commit>)
    requires digests != [] && |commits| == |digests| && Extends(c, m)
    requires m.digestIds.Keys == c.digestIds.Keys + NewDigests(c, Front(digests))
    requires forall id :: id in c.digestIds.Values ==> id in c.records
    requires Commits(m, parent, depth, Last(digests), r, Last(commits))
    ensures CommittedAt(c, parent, depth, digests, r, commits, |digests| - 1)
  {
    CommitExtends(m, parent, depth, Last(digests), r, Last(commits));
    assert Front(digests) == digests[..|digests| - 1];
    assert Last(digests) in m.digestIds <==> Last(digests) in m.digestIds.Keys;
    assert Last(digests) in c.digestIds ==> c.digestIds[Last(digests)] in c.digestIds.Values;
  }

  // Nothing that was there is touched, and each digest gets the one asset it should.
  lemma {:induction false} CommitsAllExact(c: Contents, parent: string, depth: nat, digests: seq<string>, r: Contents,
                                           commits: seq<Commit>)
    requires CommitsAll(c, parent, depth, digests, r, commits)
    requires forall id :: id in c.digestIds.Values ==> id in c.records
    ensures Extends(c, r)
    ensures forall i :: 0 <= i < |digests| ==> CommittedAt(c, parent, depth, digests, r, commits, i)
    decreases |digests|
  {
    if digests != [] {
      var m :| CommitsAll(c, parent, depth, Front(digests), m, Front(commits))
        && Commits(m, parent, depth, Last(digests), r, Last(commits));
      CommitsAllExact(c, parent, depth, Front(digests), m, Front(commits));
      CommitsAllAddsNewDigests(c, parent, depth, Front(digests), m, Front(commits));
      CommitExtends(m, parent, depth, Last(digests), r, Last(commits));
      CommittedLast(c, parent, depth, digests, m, r, commits);
      forall i | 0 <= i < |digests| - 1
        ensures CommittedAt(c, parent, depth, digests, r, commits, i)
      {
        CommittedStays(c, parent, depth, digests, m, r, commits, i);
      }
      ExtendsThrough(c, m, r);
    }
  }

  lemma ExtendsThrough(c: Contents, m: Contents, r: Contents)
    requires Extends(c, m) && Extends(m, r)
    ensures Extends(c, r)
  {}

  lemma {:induction false} DistinctSize(s: seq<string>)
    requires forall i, j :: 0 <= i < j < |s| ==> s[i] != s[j]
    ensures |set x | x in s| == |s|
  {
    if s != [] {
      var n := |s| - 1;
      DistinctSize(s[..n]);
      assert (set x | x in s) == (set x | x in s[..n]) + {s[n]};
    }
  }

  // All assets but the root have a parent, so there is one less of them than there are assets.
  lemma DerivedExact(c: Contents, maxDepth: nat)
    requires Consistent(c, maxDepth)
    ensures |c.order| - 1 == |set id | id in c.records && c.records[id].parent.Some?|
  {
    var derived := set id | id in c.records && c.records[id].parent.Some?;
    assert DerivedAt(c, maxDepth, 0);
    assert c.order[0] in c.order;
    forall id | id in c.records && id != c.order[0]
      ensures id in derived
    {
      var i :| 0 <= i < |c.order| && c.order[i] == id;
      assert DerivedAt(c, maxDepth, i);
    }
    DistinctSize(c.order);
    assert (set id | id in c.order) == derived + {c.order[0]};
  }

  /******* The store *******/

  class AssetStore {
    const maxDerivedAssets: nat
    const maxDerivationDepth: nat
    var contents: Contents
    var closed: bool

    ghost predicate Valid()
      reads this
    {
      !closed ==> Consistent(contents, maxDerivationDepth)
    }

    constructor (rootDigest: string, maxDerivedAssets: nat, maxDerivationDepth: nat)
      requires IsDigest(rootDigest)
      ensures Valid() && !closed
      ensures this.maxDerivedAssets == maxDerivedAssets && this.maxDerivationDepth == maxDerivationDepth
      ensures contents.order == [IdOf(rootDigest, SHORTEST_PREFIX)]
    {
      var id := IdOf(rootDigest, SHORTEST_PREFIX);
      this.maxDerivedAssets, this.maxDerivationDepth := maxDerivedAssets, maxDerivationDepth;
      contents := Contents([id], map[id := Asset(id, rootDigest, None, 0)], map[rootDigest := id]);
      closed := false;
    }

    // The number of derived assets; the root is not one.
    function DerivedCount(): (r: int)
      reads this
    {
      |contents.order| - 1
    }

    // It is the number of assets that have a parent.
    lemma DerivedCountExact()
      requires Valid() && !closed
      ensures DerivedCount() == |set id | id in contents.records && contents.records[id].parent.Some?|
    {
      DerivedExact(contents, maxDerivationDepth);
    }

    // A worst-case check made before anything is rendered.
    method EnsureCapacity(parent: string, pendingCount: nat) returns (error: Option<CommitError>)
      requires Valid()
      ensures error.None? <==>
        && !closed && parent in contents.records
        && contents.records[parent].depth + 1 <= maxDerivationDepth
        && DerivedCount() + pendingCount <= maxDerivedAssets
    {
      if closed {
        return Some(SessionClosed);
      }
      if parent !in contents.records {
        return Some(AssetNotFound);
      }
      if contents.records[parent].depth + 1 > maxDerivationDepth {
        return Some(DepthLimitExceeded);
      }
      if DerivedCount() + pendingCount > maxDerivedAssets {
        return Some(AssetLimitExceeded);
      }
      error := None;
    }

    // The first check a batch fails.
    function BatchError(parent: string, prepared: Option<seq<string>>): (r: Option<CommitError>)
      reads this
    {
      if closed then Some(SessionClosed)
      else if parent !in contents.records then Some(AssetNotFound)
      else if contents.records[parent].depth + 1 > maxDerivationDepth then Some(DepthLimitExceeded)
      else if prepared.None? then Some(InvalidImage)
      else if DerivedCount() + |NewDigests(contents, prepared.value)| > maxDerivedAssets then Some(AssetLimitExceeded)
      else None
    }

    // The whole batch is planned beside the store and installed at once.
    method CommitPrepared(parent: string, digests: seq<string>) returns (commits: seq<Commit>)
      requires Valid() && !closed && parent in contents.records
      requires contents.records[parent].depth + 1 <= maxDerivationDepth
      requires forall d :: d in digests ==> IsDigest(d)
      modifies this
      ensures Valid() && !closed
      ensures CommitsAll(old(contents), parent, old(contents).records[parent].depth + 1, digests, contents, commits)
      ensures DerivedCount() == old(DerivedCount()) + NewCount(commits)
      ensures contents.digestIds.Keys == old(contents.digestIds.Keys) + NewDigests(old(contents), digests)
    {
      var depth := contents.records[parent].depth + 1;
      var planned;
      planned, commits := PlanBatch(contents, parent, depth, digests, maxDerivationDepth);
      PlanIsExact(contents, parent, digests, planned, commits, maxDerivationDepth);
      contents := planned;
    }

    // All or nothing. `prepared` is None when a pending image is no valid image.
    method CommitBatch(parent: string, prepared: Option<seq<string>>) returns (result: CommitResult)
      requires Valid()
      requires prepared.Some? ==> forall d :: d in prepared.value ==> IsDigest(d)
      modifies this
      ensures Valid() && closed == old(closed)
      ensures old(BatchError(parent, prepared)).Some? ==>
        result == Rejected(old(BatchError(parent, prepared)).value) && contents == old(contents)
      ensures result.Committed? <==>
        && !old(closed) && parent in old(contents).records
        && old(contents).records[parent].depth + 1 <= maxDerivationDepth && prepared.Some?
        && |old(contents).order| + |NewDigests(old(contents), prepared.value)| <= maxDerivedAssets + 1
      ensures old(BatchError(parent, prepared)).None? ==>
        && result.Committed? && prepared.Some?
        && CommitsAll(old(contents), parent, old(contents).records[parent].depth + 1, prepared.value,
                      contents, result.commits)
        && DerivedCount() == old(DerivedCount()) + NewCount(result.commits)
        && contents.digestIds.Keys == old(contents.digestIds.Keys) + NewDigests(old(contents), prepared.value)
    {
      var error := BatchError(parent, prepared);
      if error.Some? {
        return Rejected(error.value);
      }
      var commits := CommitPrepared(parent, prepared.value);
      result := Committed(commits);
    }

    // The batch as its callers count it: one commit an image, reused ones included.
    method Commit(parent: string, prepared: Option<seq<string>>) returns (result: CommitResult)
      requires Valid()
      requires prepared.Some? ==> forall d :: d in prepared.value ==> IsDigest(d)
      modifies this
      ensures Valid() && closed == old(closed)
      ensures result.Rejected? ==> old(BatchError(parent, prepared)) == Some(result.error) && contents == old(contents)
      ensures result.Committed? ==>
        && prepared.Some? && |result.commits| == |prepared.value|
        && DerivedCount() == old(DerivedCount()) + NewCount(result.commits)
        && contents.digestIds.Keys == old(contents.digestIds.Keys) + NewDigests(old(contents), prepared.value)
    {
      result := CommitBatch(parent, prepared);
    }

    method Close()
      modifies this
      ensures Valid() && closed
      ensures old(closed) ==> contents == old(contents)
      ensures !old(closed) ==> contents == Contents([], map[], map[])
    {
      if !closed {
        closed := true;
        contents := Contents([], map[], map[]);
      }
    }

    // From the root down to the asset.
    method LineageForAsset(id: string) returns (lineage: seq<string>)
      requires Valid() && !closed
      ensures id !in contents.records ==> lineage == []
      ensures id in contents.records ==>
        && |lineage| == contents.records[id].depth + 1
        && lineage[0] == contents.order[0] && lineage[|lineage| - 1] == id
        && IsLineage(contents, lineage)
    {
      lineage := [];
      var current := if id in contents.records then Some(id) else None;
      while current.Some?
        invariant id !in contents.records ==> current.None? && lineage == []
        invariant current.Some? ==> current.value in contents.records
        invariant id in contents.records ==>
          |lineage| + (if current.Some? then contents.records[current.value].depth + 1 else 0)
            == contents.records[id].depth + 1
        invariant id in contents.records && lineage == [] ==> current == Some(id)
        invariant lineage != [] ==> lineage[|lineage| - 1] == id && IsLineage(contents, lineage)
        invariant lineage != [] ==> contents.records[lineage[0]].parent == current
        decreases if current.Some? then contents.records[current.value].depth + 1 else 0
      {
        ParentIsKnown(contents, maxDerivationDepth, current.value);
        lineage := [current.value] + lineage;
        current := contents.records[current.value].parent;
      }
      if id in contents.records { ParentIsKnown(contents, maxDerivationDepth, lineage[0]); }
    }
  }

  // Every step of a lineage goes from a parent to its child.
  ghost predicate IsLineage(c: Contents, lineage: seq<string>)
  {
    && (forall i :: 0 <= i < |lineage| ==> lineage[i] in c.records)
    && (forall i :: 0 < i < |lineage| ==> c.records[lineage[i]].parent == Some(lineage[i - 1]))
  }

  lemma ParentIsKnown(c: Contents, maxDepth: nat, id: string)
    requires Consistent(c, maxDepth) && id in c.records
    ensures c.records[id].parent.None? ==> id == c.order[0] && c.records[id].depth == 0
    ensures c.records[id].parent.Some? ==>
      c.records[id].parent.value in c.records && c.records[id].depth == c.records[c.records[id].parent.value].depth + 1
  {
    var i :| 0 <= i < |c.order| && c.order[i] == id;
    assert DerivedAt(c, maxDepth, i);
  }

  // A plan that accounts for a batch and keeps the contents consistent.
  ghost predicate IsPlan(c: Contents, parent: string, digests: seq<string>, planned: Contents, commits: seq<Commit>,
                         maxDepth: nat)
  {
    && parent in c.records
    && CommitsAll(c, parent, c.records[parent].depth + 1, digests, planned, commits)
    && Consistent(planned, maxDepth) && parent in planned.records && planned.records[parent] == c.records[parent]
  }

  // Installing a plan adds as many assets as it has new commits, for exactly its new digests.
  lemma PlanIsExact(c: Contents, parent: string, digests: seq<string>, planned: Contents, commits: seq<Commit>,
                    maxDepth: nat)
    requires Consistent(c, maxDepth) && IsPlan(c, parent, digests, planned, commits, maxDepth)
    requires c.records[parent].depth + 1 <= maxDepth
    ensures Consistent(planned, maxDepth)
    ensures CommitsAll(c, parent, c.records[parent].depth + 1, digests, planned, commits)
    ensures |planned.order| == |c.order| + NewCount(commits)
    ensures planned.digestIds.Keys == c.digestIds.Keys + NewDigests(c, digests)
  {
    CommitsAllKeepsConsistent(c, parent, digests, planned, commits, maxDepth);
    CommitsAllAddsNewDigests(c, parent, c.records[parent].depth + 1, digests, planned, commits);
  }

  lemma EmptyPlan(c: Contents, parent: string, maxDepth: nat)
    requires Consistent(c, maxDepth) && parent in c.records
    ensures IsPlan(c, parent, [], c, [], maxDepth)
  {}

  lemma PlanOneMore(c: Contents, parent: string, digests: seq<string>, planned: Contents, commits: seq<Commit>,
                    digest: string, next: Contents, commit: Commit, maxDepth: nat)
    requires IsPlan(c, parent, digests, planned, commits, maxDepth) && c.records[parent].depth + 1 <= maxDepth
    requires Commits(planned, parent, c.records[parent].depth + 1, digest, next, commit)
    ensures IsPlan(c, parent, digests + [digest], next, commits + [commit], maxDepth)
  {
    CommitOneMore(c, parent, c.records[parent].depth + 1, digests, planned, commits, digest, next, commit);
    CommitsKeepConsistent(planned, parent, digest, next, commit, maxDepth);
  }

  // The planning loop: identifiers, digests and new records side by side, in the order of
  // the batch.
  method PlanBatch(c: Contents, parent: string, depth: nat, digests: seq<string>, ghost maxDepth: nat)
    returns (planned: Contents, commits: seq<Commit>)
    requires Consistent(c, maxDepth) && parent in c.records && depth == c.records[parent].depth + 1 <= maxDepth
    requires forall d :: d in digests ==> IsDigest(d)
    ensures IsPlan(c, parent, digests, planned, commits, maxDepth)
  {
    planned, commits := c, [];
    EmptyPlan(c, parent, maxDepth);
    for i := 0 to |digests|
      invariant IsPlan(c, parent, digests[..i], planned, commits, maxDepth)
    {
      var next, commit := PlanOne(planned, parent, depth, digests[i]);
      PlanOneMore(c, parent, digests[..i], planned, commits, digests[i], next, commit, maxDepth);
      assert digests[..i + 1] == digests[..i] + [digests[i]];
      planned, commits := next, commits + [commit];
    }
    assert digests[..|digests|] == digests;
  }

  function DigestsOf(c: Contents): (r: map<string, string>)
  {
    map id | id in c.records :: c.records[id].digest
  }

  // Pixels the plan knows are reused; others get an identifier of their own.
  method PlanOne(c: Contents, parent: string, depth: nat, digest: string)
    returns (planned: Contents, commit: Commit)
    requires Addressed(c) && IsDigest(digest)
    ensures Commits(c, parent, depth, digest, planned, commit)
  {
    if digest in c.digestIds {
      planned, commit := c, Commit(c.records[c.digestIds[digest]], parent, true);
    } else {
      var id := AllocateId(digest, DigestsOf(c));
      commit := Commit(Asset(id.value, digest, Some(parent), depth), parent, false);
      planned := Added(c, commit.asset);
    }
  }
}
