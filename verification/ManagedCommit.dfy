/** Candidate commits: built in the local object database, and read back before anything trusts them. */
module ManagedCommit {
  import opened Text
  import opened ManagedText
  import opened Permutations
  import opened CommitGraph
  import PlanArtifact
  import Review = ReviewDiff
  import opened GitTree
  import opened ManagedPlan
  import opened ManagedBuild
  import opened ManagedPreflight

  // ---------------------------------------------------------------------
  // Git's object database.
  // ---------------------------------------------------------------------

  datatype Commit = Commit(tree: Oid, parent: Oid)

  /** Object ids are content addresses, so one database stands for the caches of all repositories. */
  datatype Objects = Objects(commits: map<Oid, Commit>, trees: map<Oid, Tree>, blobs: map<Oid, Content>)

  /**
   * Git's plumbing. An id is a function of the object, and of the clock for a commit; `refuses` says which of the
   * writing calls fail.
   */
  datatype Plumbing = Plumbing(
    blobId: Content -> Oid,
    treeId: Tree -> Oid,
    commitId: (Commit, nat) -> Oid,
    lsTree: Tree -> Option<string>,
    readListing: string -> Option<Tree>,
    diffTree: (Tree, Tree) -> Option<seq<string>>,
    refuses: nat -> bool)

  function Root(path: string): string {
    Split(path, '/')[0]
  }

  function At(t: Tree, name: string): Option<TreeEntry> {
    if name in t then Some(t[name]) else None
  }

  predicate IsSubtree(e: Option<TreeEntry>) {
    e.Some? && e.value.kind == "tree"
  }

  /**
   * git diff-tree -r --name-only: paths under exactly the root names that differ, and the name itself where neither
   * side is a tree.
   */
  ghost predicate TrueDiff(a: Tree, b: Tree, paths: seq<string>) {
    && (forall p :: p in paths ==> At(a, Root(p)) != At(b, Root(p)))
    && (forall name :: At(a, name) != At(b, name) ==> exists p :: p in paths && Root(p) == name)
    && (forall p :: p in paths && !IsSubtree(At(a, Root(p))) && !IsSubtree(At(b, Root(p))) ==> p == Root(p))
    && (forall i, j :: 0 <= i < j < |paths| ==> paths[i] != paths[j])
  }

  ghost predicate Prints(t: Tree, listing: string) {
    exists entries :: ProperListing(entries) && listing == Listing(entries) && TreeOf(entries) == t
  }

  /** ls-tree prints trees, mktree reads listings back, diff-tree names what differs, and blob ids fit a listing. */
  ghost predicate Honest(git: Plumbing) {
    && (forall c :: Clean(git.blobId(c)))
    && (forall t :: git.lsTree(t).Some? ==> Prints(t, git.lsTree(t).value))
    && (forall entries :: ProperListing(entries) && git.readListing(Listing(entries)).Some? ==>
          git.readListing(Listing(entries)).value == TreeOf(entries))
    && (forall a, b :: git.diffTree(a, b).Some? ==> TrueDiff(a, b, git.diffTree(a, b).value))
  }

  /** Git prints the first tree, takes every listing of the second, and compares the two. */
  ghost predicate Serves(git: Plumbing, was: Tree, now: Tree) {
    && git.lsTree(was).Some?
    && (forall entries :: ProperListing(entries) && TreeOf(entries) == now ==>
          git.readListing(Listing(entries)).Some?)
    && git.diffTree(was, now).Some?
  }

  /** No call fails on the base tree of a planned change and on the one tree made of it. */
  ghost predicate Able(git: Plumbing, o: Objects, planned: RepositoryPlan) {
    && (forall k :: !git.refuses(k))
    && (Plannable(o, planned) ==>
          Serves(git, RootTree(o, planned.baseOid).value, NewTree(git, o, planned)))
  }

  ghost predicate AbleForAll(git: Plumbing, o: Objects, p: Plan) {
    forall i :: 0 <= i < |p.repositories| ==> Able(git, o, p.repositories[i])
  }

  /** Object ids have the form Git promises. */
  ghost predicate WellFormedIds(git: Plumbing) {
    && (forall t :: PlanArtifact.IsOid(git.treeId(t)))
    && (forall c, clock :: PlanArtifact.IsOid(git.commitId(c, clock)))
  }

  /** Every object is stored under its own id. */
  ghost predicate Consistent(git: Plumbing, o: Objects) {
    && (forall oid :: oid in o.blobs ==> git.blobId(o.blobs[oid]) == oid)
    && (forall oid :: oid in o.trees ==> git.treeId(o.trees[oid]) == oid)
    && (forall oid :: oid in o.commits ==> exists clock :: git.commitId(o.commits[oid], clock) == oid)
  }

  /** Git writes an object only where there is none: what is stored under an id stays. */
  function Keep<V>(stored: map<Oid, V>, oid: Oid, v: V): map<Oid, V> {
    if oid in stored then stored else stored[oid := v]
  }

  predicate IdsAreOids(c: PreparedCommit) {
    PlanArtifact.IsOid(c.treeOid) && PlanArtifact.IsOid(c.commitOid)
  }

  ghost predicate Extends(was: Objects, now: Objects) {
    && (forall oid :: oid in was.commits ==> oid in now.commits && now.commits[oid] == was.commits[oid])
    && (forall oid :: oid in was.trees ==> oid in now.trees && now.trees[oid] == was.trees[oid])
    && (forall oid :: oid in was.blobs ==> oid in now.blobs && now.blobs[oid] == was.blobs[oid])
  }

  function RootTree(o: Objects, commit: Oid): Option<Tree> {
    if commit in o.commits && o.commits[commit].tree in o.trees then Some(o.trees[o.commits[commit].tree]) else None
  }

  class Store {
    const git: Plumbing
    var objects: Objects
    var calls: nat

    constructor (git: Plumbing, objects: Objects)
      ensures this.git == git && this.objects == objects && calls == 0
    {
      this.git, this.objects, calls := git, objects, 0;
    }

    method WriteBlob(content: Content) returns (oid: Option<Oid>)
      modifies this
      ensures oid == if git.refuses(old(calls)) then None else Some(git.blobId(content))
      ensures objects == if oid.None? then old(objects)
                         else old(objects).(blobs := Keep(old(objects).blobs, oid.value, content))
      ensures Extends(old(objects), objects) && calls == old(calls) + 1
    {
      calls := calls + 1;
      if git.refuses(calls - 1) {
        return None;
      }
      objects := objects.(blobs := Keep(objects.blobs, git.blobId(content), content));
      return Some(git.blobId(content));
    }

    /** ls-tree, the splice, mktree: the id of the base tree with one root entry set. */
    method BuildTreeWithRootBlob(base: Oid, path: string, mode: string, blobOid: Oid) returns (oid: Option<Oid>)
      requires Honest(git)
      modifies this
      ensures Extends(old(objects), objects) && objects.commits == old(objects).commits
      ensures objects.blobs == old(objects).blobs
      ensures oid.None? ==> objects == old(objects)
      ensures !RootPath(path) || !BlobMode(mode) || RootTree(old(objects), base).None? ==> oid.None?
      ensures oid.Some? ==> exists tree ::
                oid.value == git.treeId(tree) && objects.trees == Keep(old(objects).trees, oid.value, tree)
      ensures RootPath(path) && BlobMode(mode) && Clean(blobOid) && RootTree(old(objects), base).Some? ==>
                var was := RootTree(old(objects), base).value;
                var now := was[path := TreeEntry(mode, "blob", blobOid)];
                && (oid.Some? ==>
                      oid.value == git.treeId(now) && objects.trees == Keep(old(objects).trees, oid.value, now))
                && ((forall k :: !git.refuses(k)) && Serves(git, was, now) ==> oid.Some?)
    {
      hide Record, Listing, Kept, Split, TreeOf, RootPath, BlobMode, Clean, TrueDiff;
      if !RootPath(path) || !BlobMode(mode) {
        return None;
      }
      var tree := RootTree(objects, base);
      calls := calls + 1;
      if tree.None? || git.refuses(calls - 1) {
        return None;
      }
      var current := git.lsTree(tree.value);
      if current.None? {
        return None;
      }
      ghost var entries :| ProperListing(entries) && current.value == Listing(entries) && TreeOf(entries) == tree.value;
      ghost var spliced: seq<Named> := [];
      if Clean(blobOid) {
        RootPathIsProper(path, mode, blobOid);
        spliced := SpliceSetsOneEntry(entries, path, TreeEntry(mode, "blob", blobOid));
      }
      var input := SpliceRootBlob(current.value, path, mode, blobOid);
      if input.Err? {
        return None;
      }
      calls := calls + 1;
      var made := git.readListing(input.value);
      if made.None? || git.refuses(calls - 1) {
        return None;
      }
      var treeOid := git.treeId(made.value);
      objects := objects.(trees := Keep(objects.trees, treeOid, made.value));
      return Some(treeOid);
    }

    method CreateCommitObject(tree: Oid, parent: Oid) returns (oid: Option<Oid>)
      modifies this
      ensures oid == if git.refuses(old(calls)) then None else Some(git.commitId(Commit(tree, parent), old(calls)))
      ensures objects == if oid.None? then old(objects)
                         else old(objects).(commits := Keep(old(objects).commits, oid.value, Commit(tree, parent)))
      ensures Extends(old(objects), objects) && calls == old(calls) + 1
    {
      calls := calls + 1;
      if git.refuses(calls - 1) {
        return None;
      }
      oid := Some(git.commitId(Commit(tree, parent), calls - 1));
      objects := objects.(commits := Keep(objects.commits, oid.value, Commit(tree, parent)));
    }

    method ChangedPaths(base: Oid, commit: Oid) returns (paths: Option<seq<string>>)
      ensures paths == if RootTree(objects, base).None? || RootTree(objects, commit).None? then None
                       else git.diffTree(RootTree(objects, base).value, RootTree(objects, commit).value)
    {
      var a, b := RootTree(objects, base), RootTree(objects, commit);
      return if a.None? || b.None? then None else git.diffTree(a.value, b.value);
    }

    method ReadBlobBounded(oid: Oid) returns (content: Option<Content>)
      ensures content == if oid in objects.blobs && Size(objects.blobs[oid]) <= MAX_TEXT_BYTES
                         then Some(objects.blobs[oid]) else None
    {
      return if oid in objects.blobs && Size(objects.blobs[oid]) <= MAX_TEXT_BYTES then Some(objects.blobs[oid])
             else None;
    }
  }

  lemma RootPathIsProper(path: string, mode: string, oid: string)
    requires RootPath(path) && BlobMode(mode) && Clean(oid)
    ensures Proper(Named(path, TreeEntry(mode, "blob", oid)))
  {
  }

  // ---------------------------------------------------------------------
  // Verification.
  // ---------------------------------------------------------------------

  /** The commit's root listing is the base's with only README.md set, to the reviewed mode and content. */
  predicate SetsOnlyReadme(o: Objects, planned: RepositoryPlan, commit: Oid)
    requires |planned.actions| == 1 && planned.actions[0].desired.content.Some?
  {
    && RootTree(o, planned.baseOid).Some? && RootTree(o, commit).Some?
    && var was, now, desired := RootTree(o, planned.baseOid).value, RootTree(o, commit).value,
         planned.actions[0].desired;
       && README_PATH in now && now == was[README_PATH := now[README_PATH]]
       && now[README_PATH].mode == desired.mode && now[README_PATH].kind == "blob"
       && now[README_PATH].oid in o.blobs && o.blobs[now[README_PATH].oid] == desired.content.value
  }

  lemma ReadmeIsRoot()
    ensures Root(README_PATH) == README_PATH
  {
    IndexAnyAfter(README_PATH, "", "/");
    assert README_PATH + "" == README_PATH;
  }

  lemma OnlyReadmeDiffers(a: Tree, b: Tree, paths: seq<string>)
    requires TrueDiff(a, b, paths) && paths == [README_PATH] && README_PATH in b
    ensures b == a[README_PATH := b[README_PATH]]
  {
    hide Root;
    ReadmeIsRoot();
    forall name | name != README_PATH ensures At(a, name) == At(b, name) {
      assert forall p :: p in paths ==> Root(p) != name;
    }
    assert forall name :: name in b <==> name == README_PATH || name in a by {
      forall name ensures name in b <==> name == README_PATH || name in a {
        assert name != README_PATH ==> At(a, name) == At(b, name);
      }
    }
    forall name | name in b && name != README_PATH ensures b[name] == a[name] {
      assert At(a, name) == At(b, name);
    }
  }

  /** What reading a candidate back has to show. */
  predicate Verifies(git: Plumbing, o: Objects, planned: RepositoryPlan, commit: Oid)
    requires |planned.actions| == 1 && planned.actions[0].desired.content.Some?
  {
    && SetsOnlyReadme(o, planned, commit)
    && Size(planned.actions[0].desired.content.value) <= MAX_TEXT_BYTES
    && git.diffTree(RootTree(o, planned.baseOid).value, RootTree(o, commit).value) == Some([README_PATH])
  }

  /** Such a commit keeps every other root entry and has one README.md, a blob of the reviewed mode and content. */
  lemma VerifiedSays(git: Plumbing, o: Objects, planned: RepositoryPlan, commit: Oid)
    requires |planned.actions| == 1 && planned.actions[0].desired.content.Some? && Verifies(git, o, planned, commit)
    ensures var desired, was, now :=
              planned.actions[0].desired, RootTree(o, planned.baseOid).value, RootTree(o, commit).value;
            && git.diffTree(was, now) == Some(["README.md"])
            && (forall name :: name != "README.md" ==> At(was, name) == At(now, name))
            && "README.md" in now && now["README.md"].mode == desired.mode && now["README.md"].kind == "blob"
            && now["README.md"].oid in o.blobs && o.blobs[now["README.md"].oid] == desired.content.value
            && Size(desired.content.value) <= 1048576
  {
  }

  method VerifyPreparedCommit(store: Store, planned: RepositoryPlan, commit: Oid, desired: Content) returns (ok: bool)
    requires Honest(store.git) && |planned.actions| == 1 && planned.actions[0].desired.content == Some(desired)
    ensures ok <==> Verifies(store.git, store.objects, planned, commit)
  {
    hide TrueDiff, Root;
    var paths := store.ChangedPaths(planned.baseOid, commit);
    if paths.None? || |paths.value| != 1 || paths.value[0] != README_PATH {
      return false;
    }
    var was, now := RootTree(store.objects, planned.baseOid).value, RootTree(store.objects, commit).value;
    if README_PATH !in now || now[README_PATH].kind != "blob"
      || now[README_PATH].mode != planned.actions[0].desired.mode {
      return false;
    }
    OnlyReadmeDiffers(was, now, paths.value);
    var content := store.ReadBlobBounded(now[README_PATH].oid);
    return content.Some? && content.value == desired;
  }

  /** The observation is true of the base commit. */
  predicate TrueOf(o: Objects, base: Oid, seen: Observation) {
    && RootTree(o, base).Some?
    && var tree := RootTree(o, base).value;
       if seen.present then
         README_PATH in tree && tree[README_PATH].kind == "blob" && tree[README_PATH].oid in o.blobs
           && o.blobs[tree[README_PATH].oid] == seen.content
       else README_PATH !in tree
  }

  /** A commit that sets a README truly observed to be something else always reads back as that one change. */
  lemma BuiltCommitVerifies(git: Plumbing, o: Objects, planned: RepositoryPlan, commit: Oid, seen: Observation)
    requires Honest(git) && |planned.actions| == 1 && planned.actions[0].desired.content.Some?
    requires Size(planned.actions[0].desired.content.value) <= MAX_TEXT_BYTES
    requires TrueOf(o, planned.baseOid, seen)
    requires !(seen.present && Some(seen.content) == planned.actions[0].desired.content)
    requires SetsOnlyReadme(o, planned, commit)
    requires git.diffTree(RootTree(o, planned.baseOid).value, RootTree(o, commit).value).Some?
    ensures Verifies(git, o, planned, commit)
  {
    hide Root;
    var a, b := RootTree(o, planned.baseOid).value, RootTree(o, commit).value;
    OneReadmePath(a, b, git.diffTree(a, b).value);
  }

  lemma OneReadmePath(a: Tree, b: Tree, paths: seq<string>)
    requires TrueDiff(a, b, paths) && README_PATH in b && b == a[README_PATH := b[README_PATH]]
    requires At(a, README_PATH) != At(b, README_PATH)
    requires !IsSubtree(At(a, README_PATH)) && !IsSubtree(At(b, README_PATH))
    ensures paths == [README_PATH]
  {
    hide Root;
    ReadmeIsRoot();
    forall p | p in paths ensures p == README_PATH {
      assert Root(p) == README_PATH;
    }
    assert README_PATH in paths;
    assert forall i :: 0 <= i < |paths| ==> paths[i] in paths && paths[i] == README_PATH;
    assert paths[|paths| - 1] == paths[0];
  }

  // ---------------------------------------------------------------------
  // Prepare.
  // ---------------------------------------------------------------------

  datatype PreparedCommit = PreparedCommit(uid: string, id: string, baseOid: Oid, treeOid: Oid, commitOid: Oid)

  predicate PreparedFor(c: PreparedCommit, planned: RepositoryPlan) {
    c.uid == planned.uid && c.id == planned.id && c.baseOid == planned.baseOid
  }

  datatype ApplyError = StaleError | OtherError

  lemma ExtendsItself(o: Objects)
    ensures Extends(o, o)
  {
  }

  lemma ExtendsFurther(a: Objects, b: Objects, c: Objects)
    ensures Extends(a, b) && Extends(b, c) ==> Extends(a, c)
  {
  }

  /** A candidate for a planned repository that reads back as the one reviewed change. */
  predicate Made(git: Plumbing, o: Objects, planned: RepositoryPlan, c: PreparedCommit)
    requires |planned.actions| == 1 && planned.actions[0].desired.content.Some?
  {
    PreparedFor(c, planned) && Verifies(git, o, planned, c.commitOid)
  }

  /** The candidate's id stands for its own tree on the reviewed base. */
  predicate OnBase(o: Objects, planned: RepositoryPlan, c: PreparedCommit) {
    c.commitOid in o.commits && o.commits[c.commitOid] == Commit(c.treeOid, planned.baseOid)
  }

  lemma StaysMade(git: Plumbing, was: Objects, now: Objects, planned: RepositoryPlan, c: PreparedCommit)
    requires Extends(was, now) && |planned.actions| == 1 && planned.actions[0].desired.content.Some?
    requires Made(git, was, planned, c)
    ensures Made(git, now, planned, c)
    ensures OnBase(was, planned, c) ==> OnBase(now, planned, c)
  {
    hide Size;
    assert RootTree(now, planned.baseOid) == RootTree(was, planned.baseOid)
      && RootTree(now, c.commitOid) == RootTree(was, c.commitOid);
  }

  // ---------------------------------------------------------------------
  // Collisions.
  // ---------------------------------------------------------------------

  predicate Plannable(o: Objects, planned: RepositoryPlan) {
    |planned.actions| == 1 && planned.actions[0].desired.content.Some? && RootTree(o, planned.baseOid).Some?
  }

  function NewTree(git: Plumbing, o: Objects, planned: RepositoryPlan): Tree
    requires Plannable(o, planned)
  {
    var desired := planned.actions[0].desired;
    var readme := TreeEntry(desired.mode, "blob", git.blobId(desired.content.value));
    RootTree(o, planned.baseOid).value[README_PATH := readme]
  }

  function NewCommit(git: Plumbing, o: Objects, planned: RepositoryPlan): Commit
    requires Plannable(o, planned)
  {
    Commit(git.treeId(NewTree(git, o, planned)), planned.baseOid)
  }

  /** Nothing else is stored under the id of an object. */
  predicate Free<V(==)>(stored: map<Oid, V>, oid: Oid, v: V) {
    oid in stored ==> stored[oid] == v
  }

  /** No id of the three objects a change makes already stands for another object. */
  ghost predicate NoCollision(git: Plumbing, o: Objects, planned: RepositoryPlan)
    requires Plannable(o, planned)
  {
    var content := planned.actions[0].desired.content.value;
    && Free(o.blobs, git.blobId(content), content)
    && Free(o.trees, git.treeId(NewTree(git, o, planned)), NewTree(git, o, planned))
    && forall clock :: Free(o.commits, git.commitId(NewCommit(git, o, planned), clock), NewCommit(git, o, planned))
  }

  /** The objects a plan is about: those stored before it, and those its changes make. */
  ghost predicate KnownBlob(o: Objects, p: Plan, c: Content) {
    c in o.blobs.Values || exists i :: 0 <= i < |p.repositories| && Plannable(o, p.repositories[i])
                                       && p.repositories[i].actions[0].desired.content.value == c
  }

  ghost predicate KnownTree(git: Plumbing, o: Objects, p: Plan, t: Tree) {
    t in o.trees.Values || exists i :: 0 <= i < |p.repositories| && Plannable(o, p.repositories[i])
                                       && NewTree(git, o, p.repositories[i]) == t
  }

  ghost predicate KnownCommit(git: Plumbing, o: Objects, p: Plan, c: Commit) {
    c in o.commits.Values || exists i :: 0 <= i < |p.repositories| && Plannable(o, p.repositories[i])
                                         && NewCommit(git, o, p.repositories[i]) == c
  }

  /** No two of those objects share an id. */
  ghost predicate CollisionFree(git: Plumbing, o: Objects, p: Plan) {
    && (forall x, y :: KnownBlob(o, p, x) && KnownBlob(o, p, y) && git.blobId(x) == git.blobId(y) ==> x == y)
    && (forall x, y :: KnownTree(git, o, p, x) && KnownTree(git, o, p, y) && git.treeId(x) == git.treeId(y) ==> x == y)
    && (forall x, y, s, t ::
          KnownCommit(git, o, p, x) && KnownCommit(git, o, p, y) && git.commitId(x, s) == git.commitId(y, t) ==>
            x == y)
  }

  /**
   * A database on the way from `o`: it still holds it, and otherwise only objects of the plan, each under its own id.
   */
  ghost predicate Within(git: Plumbing, o: Objects, p: Plan, now: Objects) {
    && Extends(o, now) && Consistent(git, now)
    && (forall oid :: oid in now.blobs ==> KnownBlob(o, p, now.blobs[oid]))
    && (forall oid :: oid in now.trees ==> KnownTree(git, o, p, now.trees[oid]))
    && (forall oid :: oid in now.commits ==> KnownCommit(git, o, p, now.commits[oid]))
  }

  /** What preparing one repository may add: its blob, its tree, its commit. */
  ghost predicate Grown(git: Plumbing, was: Objects, now: Objects, planned: RepositoryPlan)
    requires |planned.actions| == 1 && planned.actions[0].desired.content.Some?
  {
    var content := planned.actions[0].desired.content.value;
    && (now.blobs == was.blobs || now.blobs == Keep(was.blobs, git.blobId(content), content))
    && (now.trees == was.trees
        || (Plannable(was, planned)
            && now.trees == Keep(was.trees, git.treeId(NewTree(git, was, planned)), NewTree(git, was, planned))))
    && (now.commits == was.commits
        || (Plannable(was, planned)
            && exists clock :: now.commits == Keep(was.commits, git.commitId(NewCommit(git, was, planned), clock),
                                                   NewCommit(git, was, planned))))
  }

  lemma SameBase(git: Plumbing, o: Objects, now: Objects, planned: RepositoryPlan)
    requires Extends(o, now) && Plannable(o, planned)
    ensures Plannable(now, planned) && RootTree(now, planned.baseOid) == RootTree(o, planned.baseOid)
    ensures NewTree(git, now, planned) == NewTree(git, o, planned)
    ensures NewCommit(git, now, planned) == NewCommit(git, o, planned)
  {
  }

  lemma GrownExtends(git: Plumbing, was: Objects, now: Objects, planned: RepositoryPlan)
    requires |planned.actions| == 1 && planned.actions[0].desired.content.Some?
    requires Grown(git, was, now, planned)
    ensures Extends(was, now)
  {
    hide NewTree, NewCommit, Plannable;
  }

  lemma GrownStaysWithin(git: Plumbing, o: Objects, p: Plan, was: Objects, now: Objects, i: nat)
    requires i < |p.repositories| && Plannable(o, p.repositories[i])
    requires Within(git, o, p, was) && Grown(git, was, now, p.repositories[i])
    ensures Within(git, o, p, now)
  {
    hide NewTree, NewCommit, Plannable, KnownBlob, KnownTree, KnownCommit, Extends;
    var planned := p.repositories[i];
    SameBase(git, o, was, planned);
    GrownExtends(git, was, now, planned);
    ExtendsFurther(o, was, now);
    PlannedIsKnown(git, o, p, i);
    assert Consistent(git, now);
  }

  lemma PlannedIsKnown(git: Plumbing, o: Objects, p: Plan, i: nat)
    requires i < |p.repositories| && Plannable(o, p.repositories[i])
    ensures KnownBlob(o, p, p.repositories[i].actions[0].desired.content.value)
    ensures KnownTree(git, o, p, NewTree(git, o, p.repositories[i]))
    ensures KnownCommit(git, o, p, NewCommit(git, o, p.repositories[i]))
  {
    hide NewTree, NewCommit;
  }

  lemma WithinHasNoCollision(git: Plumbing, o: Objects, p: Plan, now: Objects, i: nat)
    requires i < |p.repositories| && Plannable(o, p.repositories[i])
    requires Within(git, o, p, now) && CollisionFree(git, o, p)
    ensures Plannable(now, p.repositories[i]) && NoCollision(git, now, p.repositories[i])
  {
    hide NewTree, NewCommit, Plannable, KnownBlob, KnownTree, KnownCommit, Extends;
    SameBase(git, o, now, p.repositories[i]);
    PlannedIsKnown(git, o, p, i);
  }

  /** The README at the base commit is what was observed, and that is not what is desired. */
  ghost predicate Differs(o: Objects, planned: RepositoryPlan, seen: Observation) {
    && |planned.actions| == 1 && planned.actions[0].desired.content.Some?
    && TrueOf(o, planned.baseOid, seen)
    && !(seen.present && Some(seen.content) == planned.actions[0].desired.content)
    && Size(planned.actions[0].desired.content.value) <= MAX_TEXT_BYTES
  }

  lemma StaysDifferent(was: Objects, now: Objects, planned: RepositoryPlan, seen: Observation)
    requires Extends(was, now) && Differs(was, planned, seen)
    ensures Differs(now, planned, seen)
  {
    hide Size;
    assert RootTree(now, planned.baseOid) == RootTree(was, planned.baseOid);
  }

  /** The observer's answer about a planned repository, when preflight has accepted one. */
  ghost function SeenOf(s: Source, spec: seq<Repo>, planned: RepositoryPlan): Option<Observation> {
    var configured := IndexBy(DurableId, spec);
    if planned.uid in configured then s.observe(configured[planned.uid]) else None
  }

  /** What the observer says is true of the reviewed base commits. */
  ghost predicate SeesTruly(s: Source, spec: seq<Repo>, p: Plan, o: Objects) {
    forall i :: 0 <= i < |p.repositories| && SeenOf(s, spec, p.repositories[i]).Some? ==>
      TrueOf(o, p.repositories[i].baseOid, SeenOf(s, spec, p.repositories[i]).value)
  }

  lemma ReviewedDiffers(s: Source, spec: seq<Repo>, p: Plan, o: Objects, i: nat)
    requires Holds(s, spec, p) && i < |p.repositories| && SeesTruly(s, spec, p, o)
    ensures SeenOf(s, spec, p.repositories[i]).Some?
    ensures Differs(o, p.repositories[i], SeenOf(s, spec, p.repositories[i]).value)
  {
    hide ValidRepository, Selects, IndexBy, Map, NoDuplicates, SameState, ValidObservation, Apart,
         Review.Render, Review.ReviewHunk;
    var planned := p.repositories[i];
    assert HoldsAt(s, IndexBy(DurableId, spec), planned);
    DesiredOf(s.sha, planned);
  }

  /** Ids are trustworthy for a plan: stored objects have their own, and no two objects concerned share one. */
  ghost predicate TrustedIds(git: Plumbing, o: Objects, p: Plan) {
    Consistent(git, o) && CollisionFree(git, o, p)
  }

  /**
   * One unreferenced commit for each planned repository, in plan order, or an error and none. With able plumbing and
   * trusted ids only the preflight can stop it.
   */
  method Prepare(s: Source, spec: seq<Repo>, plan: Plan, store: Store)
    returns (prepared: seq<PreparedCommit>, error: Option<ApplyError>)
    requires Honest(store.git)
    modifies store
    ensures Extends(old(store.objects), store.objects)
    ensures error.Some? ==> prepared == []
    ensures PlanVerdict(s, spec, plan) != Passed ==>
              error == Some(if PlanVerdict(s, spec, plan) == StalePlan then StaleError
                            else OtherError) && store.objects == old(store.objects)
    ensures PlanVerdict(s, spec, plan) == Passed ==> error != Some(StaleError)
    ensures error.None? ==>
              && Holds(s, spec, plan) && |prepared| == |plan.repositories|
              && forall i :: 0 <= i < |prepared| ==>
                   && ValidRepository(s.sha, plan.repositories[i])
                   && PreparedFor(prepared[i], plan.repositories[i])
                   && Made(store.git, store.objects, plan.repositories[i], prepared[i])
    ensures SeesTruly(s, spec, plan, old(store.objects)) && TrustedIds(store.git, old(store.objects), plan) ==>
              && (forall i :: 0 <= i < |prepared| ==> OnBase(store.objects, plan.repositories[i], prepared[i]))
              && (AbleForAll(store.git, old(store.objects), plan) && Holds(s, spec, plan) ==> error.None?)
    ensures WellFormedIds(store.git) ==> forall i :: 0 <= i < |prepared| ==> IdsAreOids(prepared[i])
  {
    hide WellFormedIds, IdsAreOids, Honest, Holds, Made, ValidRepository, PlanVerdict, PreparedFor, BlobMode, Extends,
         SeenOf, Differs, Able, OnBase, Within, Grown, NoCollision, TrustedIds, SeesTruly;
    ExtendsItself(store.objects);
    var verdict := PreflightPlan(s, spec, plan);
    if verdict != Passed {
      return [], Some(if verdict == StalePlan then StaleError else OtherError);
    }
    HoldsIsValid(s, spec, plan);
    prepared := [];
    ghost var o := store.objects;
    ghost var trusted := SeesTruly(s, spec, plan, o) && TrustedIds(store.git, o, plan);
    if trusted {
      TrustedIsWithin(store.git, o, plan);
    }
    for i := 0 to |plan.repositories|
      invariant Extends(o, store.objects)
      invariant |prepared| == i
      invariant forall k :: 0 <= k < i ==>
                  && ValidRepository(s.sha, plan.repositories[k])
                  && PreparedFor(prepared[k], plan.repositories[k])
                  && |plan.repositories[k].actions| == 1 && plan.repositories[k].actions[0].desired.content.Some?
                  && Made(store.git, store.objects, plan.repositories[k], prepared[k])
      invariant trusted ==> Within(store.git, o, plan, store.objects)
      invariant trusted ==> forall k :: 0 <= k < i ==> OnBase(store.objects, plan.repositories[k], prepared[k])
      invariant WellFormedIds(store.git) ==> forall k :: 0 <= k < i ==> IdsAreOids(prepared[k])
    {
      ghost var before := store.objects;
      DesiredOf(s.sha, plan.repositories[i]);
      ghost var seen := SeenOf(s, spec, plan.repositories[i]);
      if trusted {
        BeforePreparing(s, spec, plan, store.git, o, before, i);
      }
      if trusted && AbleForAll(store.git, o, plan) {
        StaysAble(store.git, o, before, plan.repositories[i]);
      }
      var candidate := PrepareOne(plan.repositories[i], store, seen);
      ExtendsFurther(o, before, store.objects);
      if candidate.None? {
        return [], Some(OtherError);
      }
      if trusted {
        GrownStaysWithin(store.git, o, plan, before, store.objects, i);
      }
      forall k | 0 <= k < i
        ensures Made(store.git, store.objects, plan.repositories[k], prepared[k])
        ensures trusted ==> OnBase(store.objects, plan.repositories[k], prepared[k])
      {
        StaysMade(store.git, before, store.objects, plan.repositories[k], prepared[k]);
      }
      prepared := prepared + [candidate.value];
    }
    return prepared, None;
  }

  lemma TrustedIsWithin(git: Plumbing, o: Objects, p: Plan)
    requires TrustedIds(git, o, p)
    ensures Within(git, o, p, o)
  {
    hide CollisionFree, NewTree, NewCommit;
  }

  lemma BeforePreparing(s: Source, spec: seq<Repo>, p: Plan, git: Plumbing, o: Objects, now: Objects, i: nat)
    requires Holds(s, spec, p) && i < |p.repositories| && SeesTruly(s, spec, p, o) && TrustedIds(git, o, p)
    requires Within(git, o, p, now)
    ensures SeenOf(s, spec, p.repositories[i]).Some?
    ensures Differs(now, p.repositories[i], SeenOf(s, spec, p.repositories[i]).value)
    ensures Plannable(o, p.repositories[i]) && Plannable(now, p.repositories[i])
    ensures NoCollision(git, now, p.repositories[i])
  {
    hide Holds, SeesTruly, SeenOf, CollisionFree, Size, NoCollision;
    ReviewedDiffers(s, spec, p, o, i);
    StaysDifferent(o, now, p.repositories[i], SeenOf(s, spec, p.repositories[i]).value);
    WithinHasNoCollision(git, o, p, now, i);
  }

  lemma HoldsIsValid(s: Source, spec: seq<Repo>, p: Plan)
    requires Holds(s, spec, p)
    ensures forall i :: 0 <= i < |p.repositories| ==> ValidRepository(s.sha, p.repositories[i])
  {
    hide ValidRepository, HoldsAt;
  }

  lemma DesiredOf(sha: Digest, r: RepositoryPlan)
    requires ValidRepository(sha, r)
    ensures |r.actions| == 1 && r.actions[0].desired.content.Some? && BlobMode(r.actions[0].desired.mode)
    ensures Size(r.actions[0].desired.content.value) <= MAX_TEXT_BYTES
  {
    hide PlanIdentifier, ValidTarget, ValidObserved, Review.ValidReviewDiff, Managed, ByteLength, PlanArtifact.IsOid;
  }

  lemma ReadmePathIsRoot()
    ensures RootPath(README_PATH)
  {
  }

  /** The commit of the new tree verifies when the README really differed and no id collides. */
  lemma NewCommitVerifies(git: Plumbing, was: Objects, now: Objects, planned: RepositoryPlan, seen: Observation,
                          clock: nat)
    requires Honest(git) && Able(git, was, planned) && Extends(was, now) && Differs(was, planned, seen)
    requires BlobMode(planned.actions[0].desired.mode) && Plannable(was, planned) && NoCollision(git, was, planned)
    requires now.blobs == Keep(was.blobs, git.blobId(planned.actions[0].desired.content.value),
                               planned.actions[0].desired.content.value)
    requires now.trees == Keep(was.trees, git.treeId(NewTree(git, was, planned)), NewTree(git, was, planned))
    requires now.commits == Keep(was.commits, git.commitId(NewCommit(git, was, planned), clock),
                                 NewCommit(git, was, planned))
    ensures Verifies(git, now, planned, git.commitId(NewCommit(git, was, planned), clock))
  {
    hide TrueDiff, Prints, Clean, Listing, TreeOf, Proper, BlobMode, Size, Verifies;
    StaysDifferent(was, now, planned, seen);
    AbleServes(git, was, planned);
    assert RootTree(now, planned.baseOid) == RootTree(was, planned.baseOid);
    BuiltCommitVerifies(git, now, planned, git.commitId(NewCommit(git, was, planned), clock), seen);
  }

  /**
   * Blob, tree, commit, then read back. With able plumbing, no collision and a README that really differs, this does
   * not fail.
   */
  method PrepareOne(planned: RepositoryPlan, store: Store, ghost seen: Option<Observation>)
    returns (c: Option<PreparedCommit>)
    requires Honest(store.git) && |planned.actions| == 1 && planned.actions[0].desired.content.Some?
    requires BlobMode(planned.actions[0].desired.mode)
    modifies store
    ensures Extends(old(store.objects), store.objects) && Grown(store.git, old(store.objects), store.objects, planned)
    ensures c.Some? ==> Made(store.git, store.objects, planned, c.value) && PreparedFor(c.value, planned)
    ensures Plannable(old(store.objects), planned) && NoCollision(store.git, old(store.objects), planned) ==>
              && (c.Some? ==> OnBase(store.objects, planned, c.value))
              && (Able(store.git, old(store.objects), planned) ==>
                    seen.Some? && Differs(old(store.objects), planned, seen.value) ==> c.Some?)
    ensures WellFormedIds(store.git) && c.Some? ==> IdsAreOids(c.value)
  {
    hide Honest, Able, Differs, PlanArtifact.IsOid, RootPath, BlobMode, Verifies, Size, Clean, Extends,
         NoCollision;
    ExtendsItself(store.objects);
    var action := planned.actions[0];
    ghost var before := store.objects;
    var made;
    made := MakeCandidate(planned, store);
    if made.None? {
      DifferentIsPlannable(before, planned, seen);
      return None;
    }
    var (treeOid, commitOid, clock) := made.value;
    if Plannable(before, planned) && NoCollision(store.git, before, planned) {
      CandidateIsRecorded(store.git, before, store.objects, planned, clock);
      if Able(store.git, before, planned) && seen.Some? && Differs(before, planned, seen.value) {
        NewCommitVerifies(store.git, before, store.objects, planned, seen.value, clock);
      }
    }
    var verified := VerifyPreparedCommit(store, planned, commitOid, action.desired.content.value);
    if !verified {
      return None;
    }
    return Some(PreparedCommit(planned.uid, planned.id, planned.baseOid, treeOid, commitOid));
  }

  lemma CandidateIsRecorded(git: Plumbing, was: Objects, now: Objects, planned: RepositoryPlan, clock: nat)
    requires Plannable(was, planned) && NoCollision(git, was, planned)
    requires now.commits == Keep(was.commits, git.commitId(NewCommit(git, was, planned), clock),
                                 NewCommit(git, was, planned))
    ensures git.commitId(NewCommit(git, was, planned), clock) in now.commits
    ensures now.commits[git.commitId(NewCommit(git, was, planned), clock)] == NewCommit(git, was, planned)
  {
    hide NewCommit, NewTree;
  }

  lemma DifferentIsPlannable(o: Objects, planned: RepositoryPlan, seen: Option<Observation>)
    ensures seen.Some? && Differs(o, planned, seen.value) ==> Plannable(o, planned)
  {
    hide Size;
  }

  /** The three objects of a change, or nothing when one of the calls fails. */
  method MakeCandidate(planned: RepositoryPlan, store: Store) returns (made: Option<(Oid, Oid, nat)>)
    requires Honest(store.git) && |planned.actions| == 1 && planned.actions[0].desired.content.Some?
    requires BlobMode(planned.actions[0].desired.mode)
    modifies store
    ensures Extends(old(store.objects), store.objects) && Grown(store.git, old(store.objects), store.objects, planned)
    ensures Able(store.git, old(store.objects), planned) && Plannable(old(store.objects), planned) ==> made.Some?
    ensures made.Some? ==>
              && Plannable(old(store.objects), planned)
              && var git, was, now, content := store.git, old(store.objects), store.objects,
                   planned.actions[0].desired.content.value;
                 && now.blobs == Keep(was.blobs, git.blobId(content), content)
                 && now.trees == Keep(was.trees, git.treeId(NewTree(git, was, planned)), NewTree(git, was, planned))
                 && now.commits == Keep(was.commits, git.commitId(NewCommit(git, was, planned), made.value.2),
                                        NewCommit(git, was, planned))
                 && made.value.0 == git.treeId(NewTree(git, was, planned))
                 && made.value.1 == git.commitId(NewCommit(git, was, planned), made.value.2)
  {
    hide Able, RootPath, BlobMode, Clean, Extends, Prints, TrueDiff, Listing;
    ExtendsItself(store.objects);
    var action := planned.actions[0];
    ghost var before := store.objects;
    if Able(store.git, before, planned) {
      AbleServes(store.git, before, planned);
    }
    var blobOid := store.WriteBlob(action.desired.content.value);
    ghost var stored := store.objects;
    if blobOid.None? {
      return None;
    }
    ReadmePathIsRoot();
    assert RootTree(stored, planned.baseOid) == RootTree(before, planned.baseOid);
    var treeOid := store.BuildTreeWithRootBlob(planned.baseOid, README_PATH, action.desired.mode, blobOid.value);
    ghost var built := store.objects;
    ExtendsFurther(before, stored, built);
    if treeOid.None? {
      return None;
    }
    ghost var clock := store.calls;
    var commitOid := store.CreateCommitObject(treeOid.value, planned.baseOid);
    ExtendsFurther(before, built, store.objects);
    if commitOid.None? {
      return None;
    }
    assert Plannable(before, planned) && treeOid.value == store.git.treeId(NewTree(store.git, before, planned));
    assert store.objects.commits ==
        Keep(before.commits, store.git.commitId(NewCommit(store.git, before, planned), clock),
             NewCommit(store.git, before, planned));
    return Some((treeOid.value, commitOid.value, store.calls - 1));
  }

  lemma AbleServes(git: Plumbing, o: Objects, planned: RepositoryPlan)
    requires Able(git, o, planned)
    ensures forall k :: !git.refuses(k)
    ensures Plannable(o, planned) ==>
              Serves(git, RootTree(o, planned.baseOid).value, NewTree(git, o, planned))
  {
  }

  /** The tree to be made stays the same while other objects are written. */
  lemma StaysAble(git: Plumbing, was: Objects, now: Objects, planned: RepositoryPlan)
    requires Extends(was, now) && Plannable(was, planned) && Able(git, was, planned)
    ensures Able(git, now, planned)
  {
    hide Serves;
    SameBase(git, was, now, planned);
  }
}
