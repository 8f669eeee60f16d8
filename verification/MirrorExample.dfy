/** Concrete situations: one the convergence theorems apply to, one in which evidence is false. */
module MirrorExample {
  import opened Text
  import opened Permutations
  import opened CommitGraph
  import opened MirrorStatus
  import opened PlanArtifact
  import opened MirrorPlan
  import opened MirrorPreflight
  import opened MirrorExecution
  import opened MirrorSafety
  import opened MirrorConvergence

  const EXAMPLE := Repo("r", "", Endpoint("gitlab", "o/r", None), [Endpoint("github", "o/m", None)], Policy(0, "", ""))

  lemma PlainWord(s: string)
    requires s != "" && !IsSpace(s[0]) && !IsSpace(s[|s| - 1])
    ensures TrimSpace(s) == s && !Blank(s) && Trimmed(s)
  {
    TrimmedStays(s);
  }

  lemma ShortPath(s: string, c: char)
    requires 'a' <= c <= 'z' && s == ['o', '/', c]
    ensures SafePathOf(s) == Some(s)
  {
    hide TrimSpace, Split, Blank, Trimmed;
    PlainWord(s);
    ShortSplit(s, c);
  }

  lemma ShortSplit(s: string, c: char)
    requires 'a' <= c <= 'z' && s == ['o', '/', c]
    ensures Split(s, '/') == ["o", [c]]
  {
    hide IndexAny;
    assert ['/'] == "/" && s == "o" + ("/" + [c]) && [c] == [c] + "";
    IndexAnyAfter("o", "/" + [c], "/");
    IndexAnyFirst("/" + [c], "/");
    IndexAnyAfter([c], "", "/");
    NoIndex("/");
    assert ("/" + [c])[0] in "/";
    assert IndexAny(s, ['/']) == 1 && IndexAny([c], ['/']) == -1;
    assert s[..1] == "o" && s[2..] == [c];
    assert Split([c], '/') == [[c]];
    assert Split(s, '/') == [s[..1]] + Split(s[2..], '/');
  }

  lemma NoIndex(chars: string)
    ensures IndexAny("", chars) == -1
  {
  }

  lemma ExampleIdentities()
    ensures RepositoryPath(EXAMPLE.canonical) == Some("o/r")
    ensures TargetId(EXAMPLE.mirrors[0]) == Some("github:o/m")
    ensures Normalize(EXAMPLE.policy).Some?
    ensures MirrorRemoteName(1, 0) == "mirror"
  {
    hide TrimSpace, SafePath;
    ShortPath("o/r", 'r');
    ShortPath("o/m", 'm');
    PlainWord("o/r");
    PlainWord("o/m");
    PlainWord("github");
    assert "github" + ":" + "o/m" == "github:o/m";
  }

  /** Two commits without a common history. */
  ghost predicate Unrelated(g: Graph) {
    g.parents.Keys == {"a", "b"} && forall c :: c in g.parents ==> g.parents[c] == {}
  }

  ghost function Answer(g: Graph): Fetched {
    Fetched("a", "a", RevListOutput(OnlyLeft(g, "b", "a"), OnlyLeft(g, "a", "b")))
  }

  lemma UnrelatedCommits(g: Graph)
    requires Unrelated(g)
    ensures Acyclic(g) && (forall oid :: oid in g.parents ==> PlainOid(oid))
    ensures Truthful(g, "b", Answer(g))
  {
    hide RevListOutput, OnlyLeft, Trimmed;
    assert Ranked(g, (c: Oid) => 0);
    PlainWord("a");
    PlainWord("b");
    assert |g.parents| == |g.parents.Keys| == 2;
    FewCommits(g, "a", "b");
    FewCommits(g, "b", "a");
  }

  lemma FewCommits(g: Graph, left: Oid, right: Oid)
    ensures OnlyLeft(g, left, right) <= |g.parents|
  {
    Fewer(Ancestors(g, left) - Ancestors(g, right), g.parents.Keys);
  }

  lemma {:induction false} Fewer(a: set<Oid>, b: set<Oid>)
    requires a <= b
    ensures |a| <= |b|
  {
    if x :| x in a {
      Fewer(a - {x}, b - {x});
    }
  }

  ghost function ExampleObserved(g: Graph): RepositoryResult {
    RepositoryResult("", "", "", [Observe("github:o/m", Answer(g))], "")
  }

  ghost function ExampleCache(): Cache {
    Cache(map["canonical" := "main", "mirror" := "main"],
          map[TrackingRef("canonical", "main") := "b", TrackingRef("mirror", "main") := "a"])
  }

  lemma ExampleIsObserved(g: Graph)
    requires Unrelated(g)
    ensures ObservesTruly(g, "b", EXAMPLE, ExampleObserved(g), [Answer(g)])
  {
    hide TrimSpace, RepositoryPath, RevListOutput, TargetId, Truthful, Trimmed, Blank, Normalize, Observe, Answer;
    var m := Observe("github:o/m", Answer(g));
    ExampleIdentities();
    UnrelatedCommits(g);
    PlainWord("github:o/m");
    assert Blank("") by { hide *; NothingIsBlank(); }
    ObservedIsRelationship(g, "b", "github:o/m", Answer(g));
    ExampleIndex(ExampleObserved(g), m);
  }

  lemma ExampleRefs()
    ensures Resolve(ExampleCache(), TrackingRef("canonical", "main")) == Some("b")
    ensures Resolve(ExampleCache(), TrackingRef("mirror", "main")) == Some("a")
    ensures forall ref :: ref in ExampleCache().refs ==> Trimmed(ExampleCache().refs[ref])
  {
    hide TrackingRef, Trimmed, MirrorRemoteName, TrimSpace, TargetId, RepositoryPath, Normalize, Blank;
    ExampleIdentities();
    SourceIsNoMirror(1, 0, "main", "main");
    OneLetterNames();
  }

  lemma OneLetterNames()
    ensures Trimmed("a") && Trimmed("b")
  {
    hide TrimSpace, Blank;
    PlainWord("a");
    PlainWord("b");
  }

  lemma ExampleHeads()
    ensures HeadBranch(ExampleCache(), "canonical") == Some("main")
    ensures HeadBranch(ExampleCache(), "mirror") == Some("main")
  {
    hide TrimSpace, TrackingRef;
    PlainWord("main");
  }

  ghost function ExampleWorld(): World {
    World(ExampleCache().refs, map[Branch("mirror", "main") := "a"])
  }

  lemma ExampleWorldHead()
    ensures Head(ExampleWorld(), Branch("mirror", "main")) == Some("a") && ExampleWorld().refs == ExampleCache().refs
  {
    hide ExampleCache;
  }

  lemma ExampleTarget(branch: string)
    ensures TargetBranch(EXAMPLE, ExampleCache(), branch, 0) == Some("main")
  {
    hide ExampleCache, HeadBranch, MirrorRemoteName;
    ExampleIdentities();
    ExampleHeads();
  }

  lemma AnswerShape(g: Graph)
    ensures Answer(g).Fetched? && Answer(g).head == "a"
  {
    hide RevListOutput, OnlyLeft;
  }

  lemma ExampleBranch()
    ensures TargetBranch(EXAMPLE, ExampleCache(), "main", 0).Some?
    ensures MirrorBranch(EXAMPLE, ExampleCache(), "main", 0) == Branch("mirror", "main")
  {
    hide ExampleCache, MirrorRemoteName, TargetBranch, RepositoryPath, TargetId, Normalize;
    ExampleIdentities();
    ExampleTarget("main");
  }

  lemma ExampleIsFresh(g: Graph)
    ensures Fresh(EXAMPLE, ExampleCache(), ExampleWorld(), "main", "b", [Answer(g)])
  {
    hide TrackingRef, MirrorBranch, Answer, ExampleCache, ExampleWorld, HeadBranch, TargetBranch, Resolve, Head;
    AnswerShape(g);
    ExampleRefs();
    ExampleHeads();
    ExampleBranch();
    ExampleWorldHead();
  }

  lemma ExampleIsPlanned(g: Graph)
    requires Unrelated(g)
    ensures BuildPlan(EXAMPLE, ExampleObserved(g), ExampleCache()).Some?
    ensures |BuildPlan(EXAMPLE, ExampleObserved(g), ExampleCache()).value.actions| == 1
  {
    hide TrackingRef, TargetId, Truthful, MirrorRemoteName, Trimmed, Blank, Normalize, Judge, Observes, IndexBy,
         ExampleObserved, ExampleCache, HeadBranch, TargetBranch,
         Resolve, RepositoryPath, RevListOutput, OnlyLeft, FastForward;
    var index, cache := ObservedIndex(ExampleObserved(g)), ExampleCache();
    ExampleIdentities();
    UnrelatedCommits(g);
    ExampleIsObserved(g);
    ExampleRefs();
    ExampleHeads();
    ExampleTarget("main");
    ExampleJudged(g);
    assert PlanMirror(EXAMPLE, index, cache, "main", 0).Act?;
    assert PlanMirrors(EXAMPLE, index, cache, "main", 0) == Some([]);
  }

  lemma ExampleJudged(g: Graph)
    requires Unrelated(g)
    ensures var d := Judge(EXAMPLE, ObservedIndex(ExampleObserved(g)), EXAMPLE.mirrors[0]); d.Some? && d.value.action
    ensures Observes(ExampleObserved(g), EXAMPLE)
  {
    hide TargetId, Truthful, Normalize, Judge, IndexBy, ExampleObserved, RepositoryPath, RevListOutput, OnlyLeft,
         FastForward, Observes;
    ExampleIdentities();
    UnrelatedCommits(g);
    ExampleIsObserved(g);
    JudgedByRelationship(g, EXAMPLE, ExampleObserved(g), "b", [Answer(g)], 0);
  }

  /** The theorems above are about something: here is a freshly fetched, diverged mirror with a plan of one action. */
  lemma SituationsExist(g: Graph)
    requires Unrelated(g)
    ensures Situation(g, EXAMPLE, ExampleObserved(g), ExampleCache(), ExampleWorld(), "main", "b", [Answer(g)])
    ensures |BuildPlan(EXAMPLE, ExampleObserved(g), ExampleCache()).value.actions| == 1
  {
    hide PlainOid, ObservesTruly, Fresh, BuildPlan, ExampleObserved, ExampleCache, ExampleWorld, Answer, Trimmed,
         TargetId, Acyclic;
    UnrelatedCommits(g);
    ExampleRefs();
    ExampleWorldHead();
    ExampleIsObserved(g);
    ExampleIsFresh(g);
    ExampleIsPlanned(g);
  }

  const ACTION := PlannedAction(
    PUSH_BRANCH, Remote("gitlab", "o/r", "canonical", "main"), Remote("github", "o/m", "mirror", "main"),
    "b", "a", false, "mirror is behind")

  const BINDINGS := Bindings("canonical", map[StableId(ACTION.target) := "mirror"])

  /**
   * A plain push of "b" over "a" passes preflight, a concurrent fetch then leaves "c" under the source ref, and the
   * record says that "b" was pushed although the mirror is at "c".
   */
  lemma EvidenceIsFalseHere()
    ensures AllBound(BINDINGS, [ACTION])
    ensures var reaches := (x: Oid, y: Oid) => x == "a" && (y == "b" || y == "c");
            var w := ReviewedWorld(BINDINGS, ACTION);
            var attempt := AttemptAt(reaches, BINDINGS, [ACTION], FetchDuring(BINDINGS, ACTION, "c"), 0, w, 0);
            && Passes(w.refs, BINDINGS, [ACTION])
            && ResultOf(0, ACTION, attempt).outcome == Applied && ResultOf(0, ACTION, attempt).afterOid == "b"
            && attempt.event.after == Some("c")
  {
    hide StableId, TrackingRef, TrimSpace, Blank, Passes, AttemptAt, ReviewedWorld, FetchDuring, MirrorRemoteName;
    PlainWord("canonical");
    PlainWord("mirror");
    PlainWord("main");
    PlainWord("a");
    PlainWord("b");
    ExampleIdentities();
    SourceIsNoMirror(1, 0, "main", "main");
    assert [ACTION][0] == ACTION;
    assert Runnable(BINDINGS, ACTION) && SeparateRefs(BINDINGS, [ACTION]);
    EvidenceCanBeFalse(BINDINGS, ACTION, "c");
  }

  lemma NothingIsBlank()
    ensures Blank("")
  {
  }

  lemma ExampleIndex(observed: RepositoryResult, m: MirrorResult)
    requires observed.mirrors == [m]
    ensures ObservedIndex(observed) == map[TargetOf(m) := m]
    ensures NoDuplicates(Map(TargetOf, observed.mirrors))
  {
    hide TrimSpace;
    assert observed.mirrors[..0] == [];
    assert IndexBy(TargetOf, observed.mirrors[..0]) == map[];
    assert ObservedIndex(observed) == IndexBy(TargetOf, observed.mirrors[..0])[TargetOf(m) := m];
  }
}
