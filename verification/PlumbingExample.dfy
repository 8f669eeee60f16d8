/** Content-addressed plumbing that does all that is asked of Git. */
module PlumbingExample {
  import opened Text
  import opened ManagedText
  import opened CommitGraph
  import PlanArtifact
  import opened GitTree
  import opened ManagedPlan
  import opened ManagedCommit

  // ---------------------------------------------------------------------
  // Printing, reading, comparing.
  // ---------------------------------------------------------------------

  /** A tree Git can hold: root names without slashes, and fields its listing can show. */
  predicate ProperTree(t: Tree) {
    forall name :: name in t ==> '/' !in name && Proper(Named(name, t[name]))
  }

  predicate Lists(t: Tree, entries: seq<Named>) {
    ProperListing(entries) && TreeOf(entries) == t
  }

  lemma {:induction false} NamesInTree(entries: seq<Named>)
    ensures forall n :: n in entries ==> n.name in TreeOf(entries)
  {
    if entries != [] {
      NamesInTree(entries[..|entries| - 1]);
    }
  }

  lemma {:induction false} EntriesExist(t: Tree)
    requires ProperTree(t)
    ensures exists entries :: Lists(t, entries)
    decreases |t|
  {
    hide Proper, ProperListing, TreeOf;
    if t == map[] {
      NoTree();
      NothingIsProper();
      assert Lists(t, []);
    } else {
      var name :| name in t;
      var rest := t - {name};
      EntriesExist(rest);
      var entries :| Lists(rest, entries);
      NamesInTree(entries);
      ProperTogether(entries, Named(name, t[name]));
      TreeOfMore(entries, Named(name, t[name]));
      assert rest[name := t[name]] == t;
      assert Lists(t, entries + [Named(name, t[name])]);
    }
  }

  ghost function EntriesOf(t: Tree): seq<Named>
    requires ProperTree(t)
  {
    EntriesExist(t);
    var entries :| Lists(t, entries);
    entries
  }

  ghost predicate Reads(input: string, entries: seq<Named>) {
    ProperListing(entries) && Listing(entries) == input
  }

  ghost function TreeOfListing(input: string): Option<Tree> {
    if exists entries :: Reads(input, entries) then
      var entries :| Reads(input, entries);
      Some(TreeOf(entries))
    else None
  }

  lemma ReadingIsTree(entries: seq<Named>)
    requires ProperListing(entries)
    ensures TreeOfListing(Listing(entries)) == Some(TreeOf(entries))
  {
    hide ProperListing, Listing, TreeOf;
    assert Reads(Listing(entries), entries);
    forall other | Reads(Listing(entries), other) ensures other == entries {
      ListingDetermines(other, entries);
    }
  }

  /** A changed path under a root name. */
  function PathUnder(a: Tree, b: Tree, name: string): string {
    if IsSubtree(At(a, name)) || IsSubtree(At(b, name)) then name + "/x" else name
  }

  lemma RootOfPath(a: Tree, b: Tree, name: string)
    requires '/' !in name
    ensures Root(PathUnder(a, b, name)) == name
  {
    assert ['/'] == "/" && name == name + "";
    IndexAnyAfter(name, "", "/");
    IndexAnyAfter(name, "/x", "/");
    assert IndexAny("/x", "/") == 0 && IndexAny("", "/") == -1;
    assert (name + "/x")[..|name|] == name;
  }

  lemma {:induction false} Enumerate(names: set<string>) returns (all: seq<string>)
    ensures forall name :: name in names <==> name in all
    ensures forall i, j :: 0 <= i < j < |all| ==> all[i] != all[j]
  {
    all := [];
    if name :| name in names {
      all := Enumerate(names - {name});
      all := all + [name];
    }
  }

  lemma PathsExist(a: Tree, b: Tree)
    requires ProperTree(a) && ProperTree(b)
    ensures exists paths :: TrueDiff(a, b, paths)
  {
    hide Root, Proper, PathUnder;
    var names := Enumerate(set name | name in a.Keys + b.Keys && At(a, name) != At(b, name));
    var paths := seq(|names|, i requires 0 <= i < |names| => PathUnder(a, b, names[i]));
    forall i | 0 <= i < |names| ensures Root(paths[i]) == names[i] && '/' !in names[i] {
      assert names[i] in names;
      RootOfPath(a, b, names[i]);
    }
    forall name | At(a, name) != At(b, name) ensures exists path :: path in paths && Root(path) == name {
      assert name in names;
      var i :| 0 <= i < |names| && names[i] == name;
      assert paths[i] in paths;
    }
    forall path | path in paths
      ensures At(a, Root(path)) != At(b, Root(path))
      ensures !IsSubtree(At(a, Root(path))) && !IsSubtree(At(b, Root(path))) ==> path == Root(path)
    {
      var i :| 0 <= i < |paths| && paths[i] == path;
      assert names[i] in names;
      PlainPath(a, b, names[i]);
    }
    assert TrueDiff(a, b, paths);
  }

  lemma PlainPath(a: Tree, b: Tree, name: string)
    ensures !IsSubtree(At(a, name)) && !IsSubtree(At(b, name)) ==> PathUnder(a, b, name) == name
  {
  }

  ghost function PathsOf(a: Tree, b: Tree): seq<string>
    requires ProperTree(a) && ProperTree(b)
  {
    PathsExist(a, b);
    var paths :| TrueDiff(a, b, paths);
    paths
  }

  // ---------------------------------------------------------------------
  // Ids.
  // ---------------------------------------------------------------------

  function FortyOf(c: char): (oid: Oid)
    ensures |oid| == 40 && forall i :: 0 <= i < 40 ==> oid[i] == c
  {
    seq(40, _ => c)
  }

  lemma FortyIsOid(c: char)
    requires 'a' <= c <= 'f'
    ensures PlanArtifact.IsOid(FortyOf(c))
  {
  }

  /** Plumbing with any ids at all. */
  ghost function WithIds(blobId: Content -> Oid, treeId: Tree -> Oid, commitId: (Commit, nat) -> Oid): Plumbing {
    Plumbing(
      blobId, treeId, commitId,
      (t: Tree) => if ProperTree(t) then Some(Listing(EntriesOf(t))) else None,
      (input: string) => TreeOfListing(input),
      (a: Tree, b: Tree) => if ProperTree(a) && ProperTree(b) then Some(PathsOf(a, b)) else None,
      (k: nat) => false)
  }

  /** A change that sets a README in a tree Git can hold. */
  predicate Changeable(o: Objects, planned: RepositoryPlan) {
    && Plannable(o, planned) && ProperTree(RootTree(o, planned.baseOid).value)
    && BlobMode(planned.actions[0].desired.mode)
  }

  /**
   * Whatever function of the object its ids are, content-addressed plumbing can be honest, and able to make any change
   * of any tree Git can hold.
   */
  lemma AnyIdsWillDo(blobId: Content -> Oid, treeId: Tree -> Oid, commitId: (Commit, nat) -> Oid)
    requires forall c :: Clean(blobId(c))
    ensures Honest(WithIds(blobId, treeId, commitId))
    ensures forall o, planned :: Changeable(o, planned) ==> Able(WithIds(blobId, treeId, commitId), o, planned)
  {
    hide ProperTree, TrueDiff, ProperListing, Listing, TreeOf, TreeOfListing, Clean, BlobMode, RootTree;
    var git := WithIds(blobId, treeId, commitId);
    forall entries | ProperListing(entries) ensures TreeOfListing(Listing(entries)) == Some(TreeOf(entries)) {
      ReadingIsTree(entries);
    }
    forall t | ProperTree(t) ensures Prints(t, Listing(EntriesOf(t))) {
      assert Lists(t, EntriesOf(t));
    }
    forall o, planned | Changeable(o, planned) ensures Able(git, o, planned) {
      NewTreeIsProper(git, o, planned);
    }
  }

  lemma NewTreeIsProper(git: Plumbing, o: Objects, planned: RepositoryPlan)
    requires Plannable(o, planned) && ProperTree(RootTree(o, planned.baseOid).value)
    requires BlobMode(planned.actions[0].desired.mode) && Clean(git.blobId(planned.actions[0].desired.content.value))
    ensures ProperTree(NewTree(git, o, planned))
  {
    ReadmePathIsRoot();
    RootPathIsProper(README_PATH, planned.actions[0].desired.mode,
                     git.blobId(planned.actions[0].desired.content.value));
  }

  lemma IdsAreWellFormed(git: Plumbing)
    requires forall t :: PlanArtifact.IsOid(git.treeId(t))
    requires forall c, clock :: PlanArtifact.IsOid(git.commitId(c, clock))
    ensures WellFormedIds(git)
  {
  }

  /** What was seen fits the tree: a README that is there is a file, one that is not is not. */
  predicate CouldBeSeen(base: Tree, seen: Observation) {
    if seen.present then README_PATH in base && base[README_PATH].kind == "blob" else README_PATH !in base
  }

  /** An id that is not `taken`. */
  function OtherId(taken: Oid): (oid: Oid)
    ensures oid != taken && Clean(oid)
  {
    if taken == "blob" then "bolb" else "blob"
  }

  /** The README that is there keeps its id. */
  function BlobIds(base: Tree, seen: Observation): Content -> Oid
    requires CouldBeSeen(base, seen)
  {
    (c: Content) => if !seen.present then "blob"
                    else if c == seen.content then base[README_PATH].oid else OtherId(base[README_PATH].oid)
  }

  /**
   * For a reviewed change that adds or replaces the README of any tree Git can hold there is a content-addressed
   * plumbing, and a database that holds the base commit, with everything the apply run is proved for.
   */
  lemma PlumbingExists(base: Tree, planned: RepositoryPlan, seen: Observation) returns (git: Plumbing, o: Objects)
    requires ProperTree(base) && CouldBeSeen(base, seen)
    requires |planned.actions| == 1 && planned.actions[0].desired.content.Some?
    requires BlobMode(planned.actions[0].desired.mode) && PlanArtifact.IsOid(planned.baseOid)
    ensures Honest(git) && WellFormedIds(git)
    ensures AbleForAll(git, o, Plan(PLAN_KIND, PLAN_VERSION, [planned]))
    ensures TrustedIds(git, o, Plan(PLAN_KIND, PLAN_VERSION, [planned]))
    ensures RootTree(o, planned.baseOid) == Some(base) && TrueOf(o, planned.baseOid, seen)
  {
    hide ProperTree, TrueDiff, PlanArtifact.IsOid, Honest, Able, WellFormedIds, BlobMode, TrustedIds, CouldBeSeen,
         Clean, BlobIds, WithIds;
    var oneOid, twoOid := FortyOf('a'), FortyOf('b');
    var first := Commit(oneOid, "");
    var treeId := (t: Tree) => if t == base then oneOid else twoOid;
    var commitId := (c: Commit, clock: nat) => if c == first then planned.baseOid
                                               else if planned.baseOid == oneOid then twoOid else oneOid;
    FortyIsOid('a');
    FortyIsOid('b');
    BlobIdsAreClean(base, seen);
    git := WithIds(BlobIds(base, seen), treeId, commitId);
    WithTheseIds(BlobIds(base, seen), treeId, commitId);
    AnyIdsWillDo(BlobIds(base, seen), treeId, commitId);
    IdsAreWellFormed(git);
    o := StoreOf(base, planned.baseOid, first, seen);
    assert Plannable(o, planned);
    assert oneOid[0] != twoOid[0];
    IdsAreTrusted(git, base, planned, seen, first);
    StoreIsTrue(base, planned.baseOid, first, seen);
  }

  /** The base commit, its tree, and the README it has. */
  function StoreOf(base: Tree, baseOid: Oid, first: Commit, seen: Observation): Objects
    requires CouldBeSeen(base, seen)
  {
    Objects(map[baseOid := first], map[first.tree := base],
            if seen.present then map[base[README_PATH].oid := seen.content] else map[])
  }

  lemma StoreIsTrue(base: Tree, baseOid: Oid, first: Commit, seen: Observation)
    requires CouldBeSeen(base, seen)
    ensures RootTree(StoreOf(base, baseOid, first, seen), baseOid) == Some(base)
    ensures TrueOf(StoreOf(base, baseOid, first, seen), baseOid, seen)
  {
  }

  lemma WithTheseIds(blobId: Content -> Oid, treeId: Tree -> Oid, commitId: (Commit, nat) -> Oid)
    ensures WithIds(blobId, treeId, commitId).blobId == blobId && WithIds(blobId, treeId, commitId).treeId == treeId
    ensures WithIds(blobId, treeId, commitId).commitId == commitId
  {
  }

  lemma BlobIdsAreClean(base: Tree, seen: Observation)
    requires ProperTree(base) && CouldBeSeen(base, seen)
    ensures forall c :: Clean(BlobIds(base, seen)(c))
  {
    hide Clean;
    WordIsClean();
    if seen.present {
      assert Proper(Named(README_PATH, base[README_PATH]));
    }
  }

  lemma WordIsClean()
    ensures Clean("blob")
  {
  }

  lemma IdsAreTrusted(git: Plumbing, base: Tree, planned: RepositoryPlan, seen: Observation, first: Commit)
    requires CouldBeSeen(base, seen) && git.blobId == BlobIds(base, seen)
    requires |planned.actions| == 1 && planned.actions[0].desired.content.Some?
    requires git.treeId(base) == first.tree && forall t :: t != base ==> git.treeId(t) != first.tree
    requires forall clock :: git.commitId(first, clock) == planned.baseOid
    requires forall c, clock :: c != first ==> git.commitId(c, clock) != planned.baseOid
    ensures TrustedIds(git, StoreOf(base, planned.baseOid, first, seen), Plan(PLAN_KIND, PLAN_VERSION, [planned]))
  {
    var p, o := Plan(PLAN_KIND, PLAN_VERSION, [planned]), StoreOf(base, planned.baseOid, first, seen);
    hide OtherId;
    assert Plannable(o, planned) && git.commitId(first, 0) == planned.baseOid;
    assert forall t :: KnownTree(git, o, p, t) ==> t == base || t == NewTree(git, o, planned);
    assert forall c :: KnownCommit(git, o, p, c) ==> c == first || c == NewCommit(git, o, planned);
    assert forall c :: KnownBlob(o, p, c) ==>
      (seen.present && c == seen.content) || c == planned.actions[0].desired.content.value;
  }
}
