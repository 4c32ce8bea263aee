/** The release script tagging.py: it commits new changelogs, tags the release commit, and recovers after
    being interrupted anywhere in between. */
module Tagging {
  import opened Common

  datatype Version = Version(major: nat, minor: nat, patch: nat)

  predicate Older(a: Version, b: Version) {
    || a.major < b.major
    || (a.major == b.major && (a.minor < b.minor || (a.minor == b.minor && a.patch < b.patch)))
  }

  /** The changelog files of one package: the released versions, newest first, the version of the next
      release, and whether there are notes for it. */
  datatype Changelog = Changelog(released: seq<Version>, next: Version, notes: bool) {
    ghost predicate Valid() {
      && (forall i, j :: 0 <= i < j < |released| ==> Older(released[j], released[i]))
      && (forall i :: 0 <= i < |released| ==> Older(released[i], next))
    }

    /** The files after a release: its version on top, and the next one a minor version up. */
    function Release(): Changelog {
      Changelog([next] + released, Version(next.major, next.minor + 1, 0), false)
    }
  }

  type Tree = map<string, Changelog>

  /** A commit on the main branch. Only release commits touch the release metadata file. */
  datatype Commit = Commit(tree: Tree, release: bool)

  datatype Tag = Tag(package: string, version: Version)

  ghost function Head(commits: seq<Commit>): Tree
    requires commits != []
  {
    commits[|commits| - 1].tree
  }

  /** The last commit that touched the release metadata file, or -1. */
  function LastRelease(commits: seq<Commit>): (c: int)
    ensures -1 <= c < |commits|
    ensures c >= 0 ==> commits[c].release
  {
    if commits == [] then -1
    else if commits[|commits| - 1].release then |commits| - 1
    else LastRelease(commits[..|commits| - 1])
  }

  /** How many releases there have been. */
  ghost function ReleaseCount(commits: seq<Commit>): nat {
    if commits == [] then 0
    else ReleaseCount(commits[..|commits| - 1]) + if commits[|commits| - 1].release then 1 else 0
  }

  /** Commit c is the release that brought out the version, or one that repeats it on unchanged changelogs. */
  ghost predicate Introduces(commits: seq<Commit>, c: int, tag: Tag) {
    && 0 <= c < |commits| && commits[c].release
    && tag.package in commits[c].tree
    && var released := commits[c].tree[tag.package].released;
    && released != [] && released[0] == tag.version
    && (c > 0 && tag.package in commits[c - 1].tree ==>
          || tag.version !in commits[c - 1].tree[tag.package].released
          || commits[c].tree == commits[c - 1].tree)
  }

  /** The latest version of a package has no tag. */
  predicate IsPending(tree: Tree, tags: map<Tag, nat>, package: string) {
    && package in tree && tree[package].released != []
    && Tag(package, tree[package].released[0]) !in tags
  }

  predicate NoPending(tree: Tree, tags: map<Tag, nat>) {
    forall p <- tree :: !IsPending(tree, tags, p)
  }

  ghost predicate ValidTree(tree: Tree) {
    forall p <- tree :: tree[p].Valid()
  }

  /** No older version is left without a tag. */
  ghost predicate OlderTagged(tree: Tree, tags: map<Tag, nat>) {
    forall p <- tree :: forall i :: 1 <= i < |tree[p].released| ==> Tag(p, tree[p].released[i]) in tags
  }

  /** A latest version without a tag came out with the last release commit. */
  ghost predicate PendingIsLast(base: nat, commits: seq<Commit>, tags: map<Tag, nat>)
    requires commits != []
  {
    forall p <- Head(commits) :: IsPending(Head(commits), tags, p) ==>
      && LastRelease(commits) >= base
      && Introduces(commits, LastRelease(commits), Tag(p, Head(commits)[p].released[0]))
  }

  /** Tags are on the commits that brought their versions out. */
  ghost predicate WellPlaced(base: nat, commits: seq<Commit>, tags: map<Tag, nat>) {
    forall t <- tags :: tags[t] < base || Introduces(commits, tags[t], t)
  }

  ghost predicate OnlyReleased(tree: Tree, tags: map<Tag, nat>) {
    forall t <- tags :: t.package in tree && t.version in tree[t.package].released
  }

  /** What holds of the repository in every reachable state. Commits before `base` were made before the
      script came into use, and tags on them may be anywhere. */
  ghost predicate Consistent(base: nat, commits: seq<Commit>, tags: map<Tag, nat>) {
    && commits != [] && base <= |commits|
    && ValidTree(Head(commits))
    && OlderTagged(Head(commits), tags)
    && PendingIsLast(base, commits, tags)
    && WellPlaced(base, commits, tags)
    && OnlyReleased(Head(commits), tags)
  }

  /** A repository where everything is tagged is fit to take the script into use. */
  lemma AdoptionIsConsistent(commits: seq<Commit>, tags: map<Tag, nat>)
    requires commits != [] && ValidTree(Head(commits)) && OnlyReleased(Head(commits), tags)
    requires forall p <- Head(commits) :: forall v <- Head(commits)[p].released :: Tag(p, v) in tags
    requires forall t <- tags :: tags[t] < |commits|
    ensures Consistent(|commits|, commits, tags) && NoPending(Head(commits), tags)
  {
  }

  lemma {:induction false} LastReleaseExtends(commits: seq<Commit>, c: Commit)
    ensures LastRelease(commits + [c]) == if c.release then |commits| else LastRelease(commits)
    ensures ReleaseCount(commits + [c]) == ReleaseCount(commits) + if c.release then 1 else 0
  {
    assert (commits + [c])[..|commits|] == commits;
  }

  lemma IntroducesExtends(commits: seq<Commit>, c: int, tag: Tag, more: Commit)
    requires Introduces(commits, c, tag)
    ensures Introduces(commits + [more], c, tag)
  {
  }

  /** Work on the branch between two runs: packages may come in, the next version may be moved up, notes
      may be written; what has been released stays. */
  ghost predicate Edits(tree: Tree, tree': Tree) {
    && (forall p <- tree :: p in tree' && tree'[p].released == tree[p].released)
    && (forall p <- tree' :: tree'[p].Valid() && (p !in tree ==> tree'[p].released == []))
  }

  lemma WellPlacedExtends(base: nat, commits: seq<Commit>, tags: map<Tag, nat>, more: Commit)
    requires WellPlaced(base, commits, tags)
    ensures WellPlaced(base, commits + [more], tags)
  {
  }

  lemma EditedTree(tree: Tree, tags: map<Tag, nat>, tree': Tree)
    requires OlderTagged(tree, tags) && OnlyReleased(tree, tags) && Edits(tree, tree')
    ensures ValidTree(tree') && OlderTagged(tree', tags) && OnlyReleased(tree', tags)
    ensures forall p :: IsPending(tree', tags, p) <==> IsPending(tree, tags, p)
  {
  }

  lemma OrdinaryCommitIsConsistent(base: nat, commits: seq<Commit>, tags: map<Tag, nat>, tree: Tree)
    requires Consistent(base, commits, tags) && Edits(Head(commits), tree)
    ensures Consistent(base, commits + [Commit(tree, false)], tags)
    ensures forall p :: IsPending(tree, tags, p) <==> IsPending(Head(commits), tags, p)
  {
    hide WellPlaced, Introduces, ValidTree, OlderTagged, OnlyReleased;
    EditedTree(Head(commits), tags, tree);
    LastReleaseExtends(commits, Commit(tree, false));
    WellPlacedExtends(base, commits, tags, Commit(tree, false));
    forall p <- tree | IsPending(tree, tags, p)
      ensures Introduces(commits + [Commit(tree, false)], LastRelease(commits), Tag(p, tree[p].released[0]))
    {
      IntroducesExtends(commits, LastRelease(commits), Tag(p, tree[p].released[0]), Commit(tree, false));
    }
  }

  /** The changelogs that a release of the given packages writes. */
  ghost predicate Releases(tree: Tree, changed: Tree) {
    forall p <- changed :: p in tree && tree[p].notes && changed[p] == tree[p].Release()
  }

  lemma ReleaseIsConsistent(base: nat, commits: seq<Commit>, tags: map<Tag, nat>, changed: Tree)
    requires Consistent(base, commits, tags) && NoPending(Head(commits), tags) && Releases(Head(commits), changed)
    ensures Consistent(base, commits + [Commit(Head(commits) + changed, true)], tags)
    ensures forall p :: IsPending(Head(commits) + changed, tags, p) <==> p in changed
  {
    hide WellPlaced;
    var release := Commit(Head(commits) + changed, true);
    ReleasedTree(Head(commits), tags, changed);
    LastReleaseExtends(commits, release);
    WellPlacedExtends(base, commits, tags, release);
    ReleaseIsLast(base, commits, tags, changed);
  }

  lemma ReleasedTree(tree: Tree, tags: map<Tag, nat>, changed: Tree)
    requires ValidTree(tree) && OlderTagged(tree, tags) && OnlyReleased(tree, tags)
    requires NoPending(tree, tags) && Releases(tree, changed)
    ensures ValidTree(tree + changed) && OlderTagged(tree + changed, tags) && OnlyReleased(tree + changed, tags)
    ensures forall p :: IsPending(tree + changed, tags, p) <==> p in changed
  {
    ReleasedIsValid(tree, changed);
    ReleasedIsUntagged(tree, tags, changed);
    ReleasedLeavesTagged(tree, tags, changed);
  }

  lemma ReleasedIsValid(tree: Tree, changed: Tree)
    requires ValidTree(tree) && Releases(tree, changed)
    ensures ValidTree(tree + changed)
  {
  }

  /** The new versions are newer than all that were tagged. */
  lemma ReleasedIsUntagged(tree: Tree, tags: map<Tag, nat>, changed: Tree)
    requires ValidTree(tree) && OnlyReleased(tree, tags) && NoPending(tree, tags) && Releases(tree, changed)
    ensures forall p :: IsPending(tree + changed, tags, p) <==> p in changed
  {
    forall p <- changed
      ensures Tag(p, tree[p].next) !in tags
    {
      assert tree[p].next !in tree[p].released;
    }
  }

  lemma ReleasedLeavesTagged(tree: Tree, tags: map<Tag, nat>, changed: Tree)
    requires OlderTagged(tree, tags) && OnlyReleased(tree, tags) && NoPending(tree, tags) && Releases(tree, changed)
    ensures OlderTagged(tree + changed, tags) && OnlyReleased(tree + changed, tags)
  {
    forall p <- changed, i | 1 <= i < |changed[p].released|
      ensures Tag(p, changed[p].released[i]) in tags
    {
      assert changed[p].released[i] == tree[p].released[i - 1];
      assert i == 1 ==> !IsPending(tree, tags, p);
    }
  }

  lemma ReleaseIsLast(base: nat, commits: seq<Commit>, tags: map<Tag, nat>, changed: Tree)
    requires commits != [] && base <= |commits| && ValidTree(Head(commits))
    requires Releases(Head(commits), changed)
    requires forall p :: IsPending(Head(commits) + changed, tags, p) <==> p in changed
    ensures PendingIsLast(base, commits + [Commit(Head(commits) + changed, true)], tags)
  {
    var release := Commit(Head(commits) + changed, true);
    LastReleaseExtends(commits, release);
  }

  /** Writing the changelogs of the last release once more keeps the invariant and what is pending. */
  lemma RepeatIsConsistent(base: nat, commits: seq<Commit>, tags: map<Tag, nat>)
    requires Consistent(base, commits, tags)
    ensures Consistent(base, commits + [Commit(Head(commits), true)], tags)
  {
    hide WellPlaced;
    LastReleaseExtends(commits, Commit(Head(commits), true));
    WellPlacedExtends(base, commits, tags, Commit(Head(commits), true));
  }

  lemma TagIsConsistent(base: nat, commits: seq<Commit>, tags: map<Tag, nat>, package: string)
    requires Consistent(base, commits, tags) && IsPending(Head(commits), tags, package)
    ensures LastRelease(commits) >= base
    ensures var tag := Tag(package, Head(commits)[package].released[0]);
            && Consistent(base, commits, tags[tag := LastRelease(commits)])
            && forall p :: IsPending(Head(commits), tags[tag := LastRelease(commits)], p)
                           <==> IsPending(Head(commits), tags, p) && p != package
  {
  }

  // ---------- The script ----------

  /** Only ordinary commits that leave the changelogs alone have been added. */
  ghost predicate Grown(commits: seq<Commit>, commits': seq<Commit>) {
    && commits != [] && commits <= commits'
    && Head(commits') == Head(commits)
    && LastRelease(commits') == LastRelease(commits) && ReleaseCount(commits') == ReleaseCount(commits)
  }

  function PendingPackages(tree: Tree, tags: map<Tag, nat>): set<string> {
    set p | p in tree && IsPending(tree, tags, p)
  }

  datatype Status = Fine | Raised | Crashed

  /** What happened in a run: how many attempts to prepare and push a release failed, whether the script was
      killed or another call failed, how many pushes took effect, how many of those were reported as failed,
      and whether a fetch brought such a push to the checkout. */
  datatype Report = Report(failures: nat, fatal: bool, pushes: nat, misreported: nat, noticed: bool) {
    function AfterAttempt(status: Status, landed: bool): Report {
      var pushed := if landed then 1 else 0;
      match status
      case Fine => this.(pushes := pushes + pushed)
      case Raised => this.(failures := failures + 1, pushes := pushes + pushed, misreported := misreported + pushed)
      case Crashed => this.(fatal := true, pushes := pushes + pushed, misreported := misreported + pushed)
    }

    function AfterFetch(fetched: bool): Report {
      this.(noticed := noticed || (fetched && misreported > 0))
    }

    function AfterCall(status: Status): Report {
      if status.Fine? then this else this.(fatal := true)
    }
  }

  const NOTHING_HAPPENED := Report(0, false, 0, 0, false)

  /** The remote repository. */
  class Repository {
    ghost const base: nat
    var commits: seq<Commit>
    var tags: map<Tag, nat>

    ghost predicate Valid()
      reads this
    {
      Consistent(base, commits, tags)
    }

    ghost function Pending(): set<string>
      requires commits != []
      reads this
    {
      PendingPackages(Head(commits), tags)
    }

    constructor (ghost base: nat, commits: seq<Commit>, tags: map<Tag, nat>)
      requires Consistent(base, commits, tags)
      ensures Valid() && this.base == base && this.commits == commits && this.tags == tags
    {
      this.base, this.commits, this.tags := base, commits, tags;
    }

    /** Anyone else may commit at any time, but does not touch the changelogs while the script runs. */
    method Others()
      requires Valid()
      modifies this`commits
      ensures Valid() && Grown(old(commits), commits) && Pending() == old(Pending())
    {
      var count :| count >= 0;
      for i := 0 to count
        invariant Valid() && Grown(old(commits), commits) && Pending() == old(Pending())
      {
        hide Consistent;
        AddOrdinary(base, old(commits), commits, tags);
        commits := commits + [Commit(commits[|commits| - 1].tree, false)];
      }
    }
  }

  lemma AddOrdinary(base: nat, commits0: seq<Commit>, commits: seq<Commit>, tags: map<Tag, nat>)
    requires Consistent(base, commits, tags) && Grown(commits0, commits)
    ensures var commits' := commits + [Commit(Head(commits), false)];
            Consistent(base, commits', tags) && Grown(commits0, commits')
  {
    OrdinaryCommitIsConsistent(base, commits, tags, Head(commits));
    LastReleaseExtends(commits, Commit(Head(commits), false));
  }

  /** The script's handle on the repository. Each call may fail, or the script may be killed in it, before
      or after it has taken effect. */
  class GitHubRepo {
    const repo: Repository
    var changedFiles: Tree
    var sha: nat
    ghost var report: Report

    constructor (repo: Repository)
      requires repo.commits != []
      ensures this.repo == repo && changedFiles == map[] && sha == |repo.commits| - 1
      ensures report == NOTHING_HAPPENED
    {
      this.repo, changedFiles, sha, report := repo, map[], |repo.commits| - 1, NOTHING_HAPPENED;
    }

    method AddFiles(package: string, changelog: Changelog) returns (status: Status)
      modifies this`changedFiles, this`report
      ensures changedFiles == if status.Fine? then old(changedFiles)[package := changelog] else old(changedFiles)
      ensures report == old(report).AfterAttempt(status, false)
    {
      status := *;
      report := report.AfterAttempt(status, false);
      if status.Fine? {
        changedFiles := changedFiles[package := changelog];
      }
    }

    /** Commits the changed files on top of the branch; `repeat` says that they are on the branch already. */
    method CommitAndPush(ghost repeat: bool) returns (status: Status, ghost landed: bool)
      requires repo.Valid()
      requires if repeat then Head(repo.commits) + changedFiles == Head(repo.commits)
               else repo.Pending() == {} && Releases(Head(repo.commits), changedFiles)
      modifies this`sha, this`report, repo`commits
      ensures report == old(report).AfterAttempt(status, landed)
      ensures repo.Valid()
      ensures repo.commits == if landed then old(repo.commits) + [Commit(Head(old(repo.commits)) + changedFiles, true)]
                              else old(repo.commits)
      ensures landed ==> repo.Pending() == if repeat then old(repo.Pending()) else changedFiles.Keys
      ensures status.Fine? ==> landed && sha == |old(repo.commits)|
    {
      assert repo.commits != [];
      hide Consistent;
      status := *;
      var reached: bool := *;
      landed := status.Fine? || reached;
      report := report.AfterAttempt(status, landed);
      if status.Fine? || reached {
        if repeat {
          RepeatIsConsistent(repo.base, repo.commits, repo.tags);
        } else {
          NoneArePending(Head(repo.commits), repo.tags);
          ReleaseIsConsistent(repo.base, repo.commits, repo.tags, changedFiles);
        }
        repo.commits := repo.commits + [Commit(repo.commits[|repo.commits| - 1].tree + changedFiles, true)];
      }
      if status.Fine? {
        sha := |repo.commits| - 1;
      }
    }

    method Reset(hash: Option<nat>) returns (status: Status)
      requires repo.commits != []
      modifies this
      ensures report == old(report).AfterCall(status)
      ensures status.Fine? ==> changedFiles == map[]
      ensures status.Fine? ==> sha == if hash.Some? then hash.value else |repo.commits| - 1
    {
      status := *;
      report := report.AfterCall(status);
      if status.Fine? {
        changedFiles := map[];
        sha := if hash.Some? then hash.value else |repo.commits| - 1;
      }
    }

    method CreateTag(tag: Tag) returns (status: Status)
      requires repo.Valid() && sha == LastRelease(repo.commits)
      requires IsPending(Head(repo.commits), repo.tags, tag.package)
      requires tag.version == Head(repo.commits)[tag.package].released[0]
      modifies this`report, repo`tags
      ensures report == old(report).AfterCall(status)
      ensures repo.Valid()
      ensures repo.tags == old(repo.tags) || repo.tags == old(repo.tags)[tag := sha]
      ensures status.Fine? ==> repo.tags == old(repo.tags)[tag := sha]
      ensures status.Fine? ==> repo.Pending() == old(repo.Pending()) - {tag.package}
    {
      hide Consistent;
      status := *;
      report := report.AfterCall(status);
      var reached: bool := *;
      if status.Fine? || reached {
        TagIsConsistent(repo.base, repo.commits, repo.tags, tag.package);
        repo.tags := repo.tags[tag := sha];
      }
    }
  }

  lemma NoneArePending(tree: Tree, tags: map<Tag, nat>)
    requires PendingPackages(tree, tags) == {}
    ensures NoPending(tree, tags)
  {
    forall p <- tree
      ensures !IsPending(tree, tags, p)
    {
      assert p !in PendingPackages(tree, tags);
    }
  }

  /** A sequence of tags for the latest versions of exactly the given packages, one each. */
  ghost predicate Lists(tree: Tree, tagInfos: seq<Tag>, packages: set<string>) {
    && (forall i :: 0 <= i < |tagInfos| ==>
          && tagInfos[i].package in packages && tagInfos[i].package in tree
          && tree[tagInfos[i].package].released != []
          && tagInfos[i].version == tree[tagInfos[i].package].released[0])
    && (forall p <- packages :: exists i :: 0 <= i < |tagInfos| && tagInfos[i].package == p)
    && (forall i, j :: 0 <= i < j < |tagInfos| ==> tagInfos[i].package != tagInfos[j].package)
  }

  lemma ListsAdd(tree: Tree, tagInfos: seq<Tag>, packages: set<string>, package: string)
    requires Lists(tree, tagInfos, packages) && package !in packages
    requires package in tree && tree[package].released != []
    ensures Lists(tree, tagInfos + [Tag(package, tree[package].released[0])], packages + {package})
  {
    var more := tagInfos + [Tag(package, tree[package].released[0])];
    forall p | p in packages + {package}
      ensures exists i :: 0 <= i < |more| && more[i].package == p
    {
      if p == package {
        assert more[|tagInfos|].package == p;
      } else {
        var i :| 0 <= i < |tagInfos| && tagInfos[i].package == p;
        assert more[i].package == p;
      }
    }
  }

  /** Packages of the tree, each at most once. */
  ghost predicate Selection(packages: seq<string>, tree: Tree) {
    && (forall p <- packages :: p in tree)
    && forall i, j :: 0 <= i < j < |packages| ==> packages[i] != packages[j]
  }

  /** The packages with a changelog, in some order. */
  method FindPackages(tree: Tree) returns (packages: seq<string>)
    ensures Selection(packages, tree) && forall p <- tree :: p in packages
  {
    packages := [];
    var left := tree.Keys;
    while left != {}
      invariant left <= tree.Keys
      invariant Selection(packages, tree)
      invariant forall p :: p in packages <==> p in tree.Keys - left
    {
      var p :| p in left;
      assert p !in packages;
      packages := packages + [p];
      left := left - {p};
    }
  }

  ghost function PendingAmong(tree: Tree, tags: map<Tag, nat>, packages: seq<string>): set<string> {
    set p | p in packages && IsPending(tree, tags, p)
  }

  lemma PendingAmongStep(tree: Tree, tags: map<Tag, nat>, packages: seq<string>, i: nat)
    requires i < |packages|
    ensures PendingAmong(tree, tags, packages[..i + 1])
            == PendingAmong(tree, tags, packages[..i])
               + if IsPending(tree, tags, packages[i]) then {packages[i]} else {}
  {
    hide IsPending;
    assert packages[..i + 1] == packages[..i] + [packages[i]];
  }

  lemma PendingAmongAll(tree: Tree, tags: map<Tag, nat>, packages: seq<string>)
    requires forall p <- tree :: p in packages
    ensures PendingAmong(tree, tags, packages[..0]) == {}
    ensures PendingAmong(tree, tags, packages[..|packages|]) == PendingPackages(tree, tags)
  {
    assert packages[..|packages|] == packages;
  }

  method FindPendingTags(tree: Tree, tags: map<Tag, nat>) returns (pending: seq<Tag>)
    ensures Lists(tree, pending, PendingPackages(tree, tags))
  {
    var packages := FindPackages(tree);
    pending := [];
    ListsStart(tree);
    PendingAmongAll(tree, tags, packages);
    for i := 0 to |packages|
      invariant Lists(tree, pending, PendingAmong(tree, tags, packages[..i]))
    {
      hide Lists;
      assert packages[i] !in packages[..i];
      PendingAmongStep(tree, tags, packages, i);
      if IsPending(tree, tags, packages[i]) {
        ListsAdd(tree, pending, PendingAmong(tree, tags, packages[..i]), packages[i]);
        pending := pending + [Tag(packages[i], tree[packages[i]].released[0])];
      }
    }
  }

  /** Tags are never moved or removed. */
  ghost predicate Keeps(tags: map<Tag, nat>, tags': map<Tag, nat>) {
    forall t <- tags :: t in tags' && tags'[t] == tags[t]
  }

  lemma ListsFirst(tree: Tree, tagInfos: seq<Tag>, i: nat, packages: set<string>)
    requires i < |tagInfos| && Lists(tree, tagInfos[i..], packages)
    ensures var tag := tagInfos[i];
            && tag.package in packages && tag.package in tree && tree[tag.package].released != []
            && tag.version == tree[tag.package].released[0]
            && Lists(tree, tagInfos[i + 1..], packages - {tag.package})
  {
    var list, rest := tagInfos[i..], tagInfos[i + 1..];
    assert list[0] == tagInfos[i] && list[1..] == rest;
    forall p | p in packages && p != tagInfos[i].package
      ensures exists j :: 0 <= j < |rest| && rest[j].package == p
    {
      var j :| 0 <= j < |list| && list[j].package == p;
      assert rest[j - 1].package == p;
    }
  }

  lemma ListedAreTagged(tree: Tree, tagInfos: seq<Tag>, packages: set<string>, tags: map<Tag, nat>, c: nat)
    requires Lists(tree, tagInfos, packages)
    requires forall t <- tagInfos :: t in tags && tags[t] == c
    ensures forall p <- packages :: TaggedAt(tags, p, tree, c)
  {
    forall p <- packages
      ensures TaggedAt(tags, p, tree, c)
    {
      var i :| 0 <= i < |tagInfos| && tagInfos[i].package == p;
      assert tagInfos[i] in tagInfos;
    }
  }

  /** The latest version of a package is tagged on the given commit. */
  ghost predicate TaggedAt(tags: map<Tag, nat>, package: string, tree: Tree, c: int) {
    && package in tree && tree[package].released != []
    && var tag := Tag(package, tree[package].released[0]);
    && tag in tags && tags[tag] == c
  }

  method TagNext(gh: GitHubRepo, tagInfos: seq<Tag>, i: nat) returns (status: Status)
    requires gh.repo.Valid() && gh.sha == LastRelease(gh.repo.commits) && i < |tagInfos|
    requires Lists(Head(gh.repo.commits), tagInfos[i..], gh.repo.Pending())
    modifies gh`report, gh.repo`commits, gh.repo`tags
    ensures gh.repo.Valid() && Grown(old(gh.repo.commits), gh.repo.commits) && Keeps(old(gh.repo.tags), gh.repo.tags)
    ensures gh.report == old(gh.report).AfterCall(status)
    ensures status.Fine? ==>
              && Lists(Head(gh.repo.commits), tagInfos[i + 1..], gh.repo.Pending())
              && tagInfos[i] in gh.repo.tags && gh.repo.tags[tagInfos[i]] == gh.sha
  {
    ListsFirst(Head(gh.repo.commits), tagInfos, i, gh.repo.Pending());
    hide Consistent, Lists;
    gh.repo.Others();
    status := gh.CreateTag(tagInfos[i]);
  }

  /** Tags the release that the handle stands on. */
  method PushTags(gh: GitHubRepo, tagInfos: seq<Tag>) returns (status: Status)
    requires gh.repo.Valid() && gh.sha == LastRelease(gh.repo.commits)
    requires Lists(Head(gh.repo.commits), tagInfos, gh.repo.Pending())
    modifies gh`report, gh.repo`commits, gh.repo`tags
    ensures gh.repo.Valid() && Grown(old(gh.repo.commits), gh.repo.commits) && Keeps(old(gh.repo.tags), gh.repo.tags)
    ensures gh.report == old(gh.report).AfterCall(status)
    ensures status.Fine? ==>
              && gh.repo.Pending() == {}
              && forall p <- old(gh.repo.Pending()) :: TaggedAt(gh.repo.tags, p, Head(gh.repo.commits), gh.sha)
  {
    ghost var tree, pending, commits := Head(gh.repo.commits), gh.repo.Pending(), gh.repo.commits;
    ReflexiveGrowth(commits);
    assert tagInfos[0..] == tagInfos;
    hide Consistent, Lists, TaggedAt;
    for i := 0 to |tagInfos|
      invariant gh.repo.Valid() && Grown(commits, gh.repo.commits)
      invariant Lists(tree, tagInfos[i..], gh.repo.Pending())
      invariant forall t <- tagInfos[..i] :: t in gh.repo.tags && gh.repo.tags[t] == gh.sha
      invariant Keeps(old(gh.repo.tags), gh.repo.tags) && gh.report == old(gh.report)
    {
      status := TagNext(gh, tagInfos, i);
      if !status.Fine? {
        return;
      }
    }
    assert tagInfos[..|tagInfos|] == tagInfos;
    ListsNothing(tree, tagInfos[|tagInfos|..], gh.repo.Pending());
    ListedAreTagged(tree, tagInfos, pending, gh.repo.tags, gh.sha);
    status := Fine;
  }

  /** Those of the given packages that have notes for a release. */
  ghost function ToRelease(tree: Tree, packages: seq<string>): (names: set<string>)
    ensures names <= tree.Keys
  {
    set p | p in packages && p in tree && tree[p].notes
  }

  ghost function Released(tree: Tree, packages: set<string>): Tree
    requires packages <= tree.Keys
  {
    map p | p in packages ::
      Changelog([tree[p].next] + tree[p].released, Version(tree[p].next.major, tree[p].next.minor + 1, 0), false)
  }

  /** The given packages have been released, n times over, and otherwise ordinary commits added. */
  ghost predicate ReleasedTimes(commits: seq<Commit>, commits': seq<Commit>, packages: set<string>, n: nat) {
    && commits != [] && commits <= commits' && packages <= Head(commits).Keys
    && Head(commits') == Head(commits) + Released(Head(commits), packages)
    && |commits| <= LastRelease(commits')
    && ReleaseCount(commits') == ReleaseCount(commits) + n
  }

  /** Nothing has been released since, and nothing is pending, or a release of the named packages has been
      pushed n times and just they are pending. */
  ghost predicate Progress(commits: seq<Commit>, commits': seq<Commit>, pending: set<string>, names: set<string>,
                           n: nat)
  {
    if n == 0 then pending == {} && Grown(commits, commits')
    else names != {} && pending == names && ReleasedTimes(commits, commits', names, n)
  }

  lemma ReleasesAndGrows(commits: seq<Commit>, commits': seq<Commit>, commits'': seq<Commit>, packages: set<string>,
                         n: nat)
    requires ReleasedTimes(commits, commits', packages, n) && Grown(commits', commits'')
    ensures ReleasedTimes(commits, commits'', packages, n)
  {
  }

  lemma ProgressGrows(commits: seq<Commit>, commits': seq<Commit>, commits'': seq<Commit>, pending: set<string>,
                      names: set<string>, n: nat)
    requires Progress(commits, commits', pending, names, n) && Grown(commits', commits'')
    ensures Progress(commits, commits'', pending, names, n)
  {
  }

  /** Pushing the release of the named packages, be it once more. */
  lemma ProgressReleases(commits: seq<Commit>, commits': seq<Commit>, pending: set<string>, names: set<string>, n: nat)
    requires Progress(commits, commits', pending, names, n) && commits' != []
    requires commits != [] && names != {} && names <= Head(commits).Keys
    ensures var changed := Released(Head(commits), names);
            var tree := Head(commits') + changed;
            && tree == Head(commits) + changed && changed.Keys == names
            && (if n == 0 then Head(commits') == Head(commits) else tree == Head(commits'))
            && Progress(commits, commits' + [Commit(tree, true)], names, names, n + 1)
            && LastRelease(commits' + [Commit(tree, true)]) == |commits'|
  {
    var changed := Released(Head(commits), names);
    assert changed.Keys == names;
    hide Released, LastRelease, ReleaseCount;
    WrittenTwice(Head(commits), changed);
    assert Head(commits') + changed == Head(commits) + changed;
    ReleasedOnceMore(commits, commits', names, n);
  }

  lemma ReleasedOnceMore(commits: seq<Commit>, commits': seq<Commit>, names: set<string>, n: nat)
    requires commits != [] && names <= Head(commits).Keys && commits <= commits'
    requires ReleaseCount(commits') == ReleaseCount(commits) + n
    ensures var release := Commit(Head(commits) + Released(Head(commits), names), true);
            && ReleasedTimes(commits, commits' + [release], names, n + 1)
            && LastRelease(commits' + [release]) == |commits'|
  {
    var release := Commit(Head(commits) + Released(Head(commits), names), true);
    LastReleaseExtends(commits', release);
    hide Released, LastRelease, ReleaseCount;
  }

  lemma WrittenTwice(tree: Tree, changed: Tree)
    ensures (tree + changed) + changed == tree + changed
  {
  }

  lemma ListsStart(tree: Tree)
    ensures Lists(tree, [], {})
  {
  }

  lemma ListsNothing(tree: Tree, tagInfos: seq<Tag>, packages: set<string>)
    requires Lists(tree, tagInfos, packages)
    ensures tagInfos == [] <==> packages == {}
  {
    if tagInfos != [] {
      assert tagInfos[0].package in packages;
    }
  }

  /** Prepares the changelogs of the packages with notes. */
  method ProcessPackages(gh: GitHubRepo, local: Tree, packages: seq<string>)
    returns (status: Status, tagInfos: seq<Tag>)
    requires gh.changedFiles == map[]
    requires Selection(packages, local)
    modifies gh`changedFiles, gh`report
    ensures gh.report == old(gh.report).AfterAttempt(status, false)
    ensures status.Fine? ==>
              var names := ToRelease(local, packages);
              gh.changedFiles == Released(local, names) && Lists(local + Released(local, names), tagInfos, names)
  {
    hide Lists, ToRelease, Released;
    ghost var tree := local + Released(local, ToRelease(local, packages));
    tagInfos := [];
    ListsStart(tree);
    ToReleaseStart(local, packages);
    for i := 0 to |packages|
      invariant gh.changedFiles == Released(local, ToRelease(local, packages[..i]))
      invariant Lists(tree, tagInfos, ToRelease(local, packages[..i])) && gh.report == old(gh.report)
    {
      var p := packages[i];
      ToReleaseStep(local, packages, i);
      if local[p].notes {
        status := gh.AddFiles(p, local[p].Release());
        if !status.Fine? {
          return;
        }
        ListsAdd(tree, tagInfos, ToRelease(local, packages[..i]), p);
        tagInfos := tagInfos + [Tag(p, local[p].next)];
      }
    }
    assert packages[..|packages|] == packages;
    status := Fine;
  }

  lemma ToReleaseStart(tree: Tree, packages: seq<string>)
    ensures ToRelease(tree, packages[..0]) == {} && Released(tree, ToRelease(tree, packages[..0])) == map[]
  {
    assert ToRelease(tree, packages[..0]) == {};
  }

  lemma ToReleaseStep(tree: Tree, packages: seq<string>, i: nat)
    requires i < |packages| && packages[i] in tree
    requires forall i, j :: 0 <= i < j < |packages| ==> packages[i] != packages[j]
    ensures var before, after, p := ToRelease(tree, packages[..i]), ToRelease(tree, packages[..i + 1]), packages[i];
            if tree[p].notes then
              && p !in before && after == before + {p}
              && Released(tree, after) == Released(tree, before)[p := tree[p].Release()]
              && p in tree + Released(tree, ToRelease(tree, packages))
              && (tree + Released(tree, ToRelease(tree, packages)))[p] == tree[p].Release()
            else after == before
  {
    var before, after, p := ToRelease(tree, packages[..i]), ToRelease(tree, packages[..i + 1]), packages[i];
    assert p !in packages[..i];
    if tree[p].notes {
      assert after == before + {p};
    } else {
      assert after == before;
    }
  }

  /** Pushes the prepared changelogs of the named packages as a release. */
  method PushChanges(gh: GitHubRepo, ghost commits0: seq<Commit>, ghost names: set<string>)
    returns (status: Status, ghost landed: bool)
    requires gh.repo.Valid() && gh.repo.commits != [] && commits0 != []
    requires Progress(commits0, gh.repo.commits, gh.repo.Pending(), names, gh.report.pushes)
    requires names != {} && names <= Head(commits0).Keys
    requires gh.changedFiles == Released(Head(commits0), names) && Releases(Head(commits0), gh.changedFiles)
    modifies gh, gh.repo`commits
    ensures gh.repo.Valid() && gh.repo.commits != [] && gh.report == old(gh.report).AfterAttempt(status, landed)
    ensures Progress(commits0, gh.repo.commits, gh.repo.Pending(), names, gh.report.pushes)
    ensures status.Fine? ==>
              && landed && gh.sha == LastRelease(gh.repo.commits)
              && Head(gh.repo.commits) == Head(commits0) + Released(Head(commits0), names)
  {
    hide Consistent, Releases, Released, Introduces, IsPending, ReleasedTimes;
    ghost var commits1 := gh.repo.commits;
    gh.repo.Others();
    ghost var commits, n := gh.repo.commits, gh.report.pushes;
    ProgressGrows(commits0, commits1, commits, gh.repo.Pending(), names, n);
    ProgressReleases(commits0, commits, gh.repo.Pending(), names, n);
    status, landed := gh.CommitAndPush(n > 0);
  }

  lemma PreparedReleases(tree: Tree, packages: seq<string>)
    ensures Releases(tree, Released(tree, ToRelease(tree, packages)))
  {
  }

  /** What a run has done to the repository by now. */
  ghost predicate Updated(commits: seq<Commit>, gh: GitHubRepo, packages: seq<string>)
    requires commits != []
    reads gh, gh.repo
  {
    && gh.repo.Valid() && gh.repo.commits != []
    && Progress(commits, gh.repo.commits, gh.repo.Pending(), ToRelease(Head(commits), packages), gh.report.pushes)
  }

  /** The checkout is what the run began with, or a release that a fetch has brought. */
  ghost predicate CheckedOut(commits: seq<Commit>, gh: GitHubRepo, local: Tree)
    requires commits != []
    reads gh, gh.repo
  {
    && gh.repo.commits != []
    && local == (if gh.report.noticed then Head(gh.repo.commits) else Head(commits))
    && (gh.report.noticed ==> gh.report.misreported > 0)
    && gh.report.misreported <= gh.report.pushes
  }

  /** Writes the changelogs of the packages with notes and pushes them; the list of their tags is what is
      to be tagged next. */
  method UpdateChangelogs(gh: GitHubRepo, local: Tree, packages: seq<string>, ghost commits0: seq<Commit>)
    returns (status: Status, tagInfos: seq<Tag>, ghost landed: bool)
    requires commits0 != [] && gh.changedFiles == map[]
    requires Updated(commits0, gh, packages) && CheckedOut(commits0, gh, local) && Selection(packages, local)
    modifies gh, gh.repo`commits
    ensures Updated(commits0, gh, packages) && gh.report == old(gh.report).AfterAttempt(status, landed)
    ensures status.Fine? ==>
              var names := ToRelease(Head(commits0), packages);
              if names == {} || gh.report.noticed then !landed && tagInfos == []
              else landed && tagInfos != [] && gh.sha == LastRelease(gh.repo.commits)
                   && Lists(Head(gh.repo.commits), tagInfos, names)
  {
    ghost var names := ToRelease(local, packages);
    landed := false;
    if gh.report.noticed {
      NotesAreGone(Head(commits0), packages);
    }
    PreparedReleases(local, packages);
    hide Consistent, Lists, Progress, Releases, Released, ToRelease;
    status, tagInfos := ProcessPackages(gh, local, packages);
    if status.Fine? {
      ListsNothing(local + Released(local, names), tagInfos, names);
      if tagInfos != [] {
        status, landed := PushChanges(gh, commits0, names);
      }
    }
  }

  lemma NothingYet(commits: seq<Commit>, pending: set<string>, packages: set<string>)
    requires commits != []
    ensures pending == {} ==> Progress(commits, commits, pending, packages, 0)
  {
    ReflexiveGrowth(commits);
  }

  lemma ReflexiveGrowth(commits: seq<Commit>)
    requires commits != []
    ensures Grown(commits, commits)
  {
  }

  const MAX_ATTEMPTS: nat := 5

  /** After a release there are no notes left for another one. */
  lemma NotesAreGone(tree: Tree, packages: seq<string>)
    ensures ToRelease(tree + Released(tree, ToRelease(tree, packages)), packages) == {}
  {
  }

  /** What a push that took effect but was reported as failed leads to: all versions of the release are still
      to be tagged, and another attempt finds nothing to release and so no tags to list. */
  lemma MisreportedPushLosesTags(base: nat, commits: seq<Commit>, tags: map<Tag, nat>, packages: seq<string>)
    requires Consistent(base, commits, tags) && NoPending(Head(commits), tags)
    ensures var names := ToRelease(Head(commits), packages);
            var tree := Head(commits) + Released(Head(commits), names);
            && Consistent(base, commits + [Commit(tree, true)], tags)
            && PendingPackages(tree, tags) == names
            && ToRelease(tree, packages) == {}
  {
    var changed := Released(Head(commits), ToRelease(Head(commits), packages));
    PreparedReleases(Head(commits), packages);
    ReleaseIsConsistent(base, commits, tags, changed);
    NotesAreGone(Head(commits), packages);
    assert changed.Keys == ToRelease(Head(commits), packages);
  }

  /** If the fetch between the attempts fails as well, which the script does not look at, the other attempt
      makes the same release again, and all of its versions still are to be tagged. */
  lemma StaleCheckoutReleasesAgain(base: nat, commits: seq<Commit>, tags: map<Tag, nat>, packages: seq<string>)
    requires Consistent(base, commits, tags) && NoPending(Head(commits), tags)
    ensures var changed := Released(Head(commits), ToRelease(Head(commits), packages));
            var first := commits + [Commit(Head(commits) + changed, true)];
            var second := first + [Commit(Head(first) + changed, true)];
            && Consistent(base, second, tags)
            && Head(second) == Head(first)
            && ReleaseCount(second) == ReleaseCount(commits) + 2
            && PendingPackages(Head(second), tags) == ToRelease(Head(commits), packages)
  {
    assert commits != [];
    hide Consistent, ReleaseCount, LastRelease, Released, ToRelease, PendingPackages, NoPending;
    var changed := Released(Head(commits), ToRelease(Head(commits), packages));
    var first := commits + [Commit(Head(commits) + changed, true)];
    MisreportedPushLosesTags(base, commits, tags, packages);
    WrittenTwice(Head(commits), changed);
    RepeatIsConsistent(base, first, tags);
    LastReleaseExtends(commits, Commit(Head(commits) + changed, true));
    LastReleaseExtends(first, Commit(Head(first) + changed, true));
  }

  /** What a completed update hands on: the tags of the release it has pushed. There are none if there was
      nothing to release, or if a push that was reported as failed has released it and a fetch has shown so. */
  ghost predicate HandsOn(gh: GitHubRepo, names: set<string>, tagInfos: seq<Tag>)
    requires gh.repo.commits != []
    reads gh, gh.repo
  {
    && (gh.report.noticed ==> names != {} && gh.report.misreported > 0)
    && gh.report.pushes == gh.report.misreported + (if names == {} || gh.report.noticed then 0 else 1)
    && if names == {} || gh.report.noticed then tagInfos == []
       else tagInfos != [] && gh.sha == LastRelease(gh.repo.commits) && Lists(Head(gh.repo.commits), tagInfos, names)
  }

  /** The cleanup after a failed attempt. The fetch may fail without the script taking notice; the checkout
      then goes back to what was fetched last. */
  method ResetRepository(gh: GitHubRepo, fetched: Tree, ghost commits0: seq<Commit>, ghost packages: seq<string>)
    returns (status: Status, fetched': Tree)
    requires commits0 != [] && Updated(commits0, gh, packages) && CheckedOut(commits0, gh, fetched)
    requires gh.report.pushes == gh.report.misreported
    modifies gh
    ensures gh.repo.commits != [] && (status.Fine? ==> gh.changedFiles == map[])
    ensures Updated(commits0, gh, packages) && CheckedOut(commits0, gh, fetched')
    ensures var noticed := gh.report.noticed;
            gh.report == old(gh.report).(noticed := noticed).AfterCall(status)
  {
    hide Consistent;
    var success: bool := *;
    fetched' := if success then gh.repo.commits[|gh.repo.commits| - 1].tree else fetched;
    gh.report := gh.report.AfterFetch(success);
    status := gh.Reset(None);
  }

  /** The run may go on to another attempt. */
  ghost predicate Ready(gh: GitHubRepo, attempts: nat)
    reads gh
  {
    && attempts < MAX_ATTEMPTS && gh.changedFiles == map[]
    && gh.report.failures == attempts && !gh.report.fatal && gh.report.pushes == gh.report.misreported
  }

  ghost predicate Failed(gh: GitHubRepo)
    reads gh
  {
    gh.report.fatal || gh.report.failures >= 5
  }

  /** One pass of the retry loop: an attempt and, if another one is to follow it, the cleanup in between. */
  method AttemptAndCleanUp(gh: GitHubRepo, local: Tree, packages: seq<string>, attempts: nat,
                           ghost commits0: seq<Commit>)
    returns (again: bool, status: Status, tagInfos: seq<Tag>, local': Tree)
    requires commits0 != [] && Ready(gh, attempts)
    requires Updated(commits0, gh, packages) && CheckedOut(commits0, gh, local) && Selection(packages, Head(commits0))
    modifies gh, gh.repo`commits
    ensures Updated(commits0, gh, packages) && gh.repo.commits != []
    ensures again ==> Ready(gh, attempts + 1) && CheckedOut(commits0, gh, local')
    ensures !again ==> (status.Fine? <==> !Failed(gh))
    ensures !again && status.Fine? ==> HandsOn(gh, ToRelease(Head(commits0), packages), tagInfos)
  {
    StillSelected(gh, commits0, packages, local);
    hide Consistent, Lists, ToRelease, Progress, Selection;
    ghost var landed;
    status, tagInfos, landed := UpdateChangelogs(gh, local, packages, commits0);
    local', again := local, status.Raised? && attempts + 1 < MAX_ATTEMPTS;
    if again {
      status, local' := ResetRepository(gh, local, commits0, packages);
      again := status.Fine?;
    }
  }

  lemma StillSelected(gh: GitHubRepo, commits0: seq<Commit>, packages: seq<string>, local: Tree)
    requires commits0 != [] && Updated(commits0, gh, packages) && CheckedOut(commits0, gh, local)
    requires Selection(packages, Head(commits0))
    ensures Selection(packages, local)
  {
  }

  /** Retries the update after a failure. */
  method RetryUpdate(gh: GitHubRepo, checkout: Tree, packages: seq<string>) returns (status: Status, tagInfos: seq<Tag>)
    requires gh.repo.Valid() && gh.changedFiles == map[] && checkout == Head(gh.repo.commits)
    requires Selection(packages, checkout)
    requires gh.repo.Pending() == {} && gh.report == NOTHING_HAPPENED
    modifies gh, gh.repo`commits
    ensures status.Fine? <==> !Failed(gh)
    ensures Updated(old(gh.repo.commits), gh, packages) && gh.repo.commits != []
    ensures status.Fine? ==> HandsOn(gh, ToRelease(checkout, packages), tagInfos)
  {
    ghost var commits0 := gh.repo.commits;
    assert commits0 != [];
    NothingYet(commits0, gh.repo.Pending(), ToRelease(checkout, packages));
    assert Updated(commits0, gh, packages);
    assert Ready(gh, 0) && CheckedOut(commits0, gh, checkout);
    hide Updated, HandsOn, Selection, Ready, Failed, CheckedOut;
    var local, attempts, again := checkout, 0, true;
    status, tagInfos := Fine, [];
    while again
      invariant gh.repo.commits != [] && Updated(commits0, gh, packages)
      invariant again ==> Ready(gh, attempts) && CheckedOut(commits0, gh, local)
      invariant !again ==> (status.Fine? <==> !Failed(gh))
      invariant !again && status.Fine? ==> HandsOn(gh, ToRelease(checkout, packages), tagInfos)
      invariant attempts <= MAX_ATTEMPTS
      decreases again, MAX_ATTEMPTS - attempts
    {
      NotTooOften(gh, attempts);
      again, status, tagInfos, local := AttemptAndCleanUp(gh, local, packages, attempts, commits0);
      attempts := attempts + 1;
    }
  }

  lemma NotTooOften(gh: GitHubRepo, attempts: nat)
    requires Ready(gh, attempts)
    ensures attempts < MAX_ATTEMPTS
  {
  }

  datatype Outcome = Completed | Refused | Interrupted

  /** The packages that a run without pending tags releases. */
  ghost function Chosen(tree: Tree, package: Option<string>): set<string> {
    set p | p in tree && tree[p].notes && (package.None? || p == package.value)
  }

  /** The named packages are released, as often as a push took effect, which is once plus the times one was
      reported as failed unless a fetch has shown that. In that case none of their latest versions is tagged,
      and otherwise all are, on the last release. */
  ghost predicate ReleaseDone(commits: seq<Commit>, commits': seq<Commit>, tags: map<Tag, nat>, pending: set<string>,
                              names: set<string>, report: Report)
  {
    && commits' != []
    && (if names == {} then Grown(commits, commits') else ReleasedTimes(commits, commits', names, report.pushes))
    && (report.noticed ==> names != {} && report.misreported > 0)
    && report.pushes == report.misreported + (if names == {} || report.noticed then 0 else 1)
    && if report.noticed then pending == names
       else pending == {} && forall p <- names :: TaggedAt(tags, p, Head(commits'), LastRelease(commits'))
  }

  /** A completed run makes exactly one release and tags it, unless a push was reported as failed. If that
      happened once and a fetch has shown it there is one release too, but without tags. */
  lemma CompletedRunCondition(commits: seq<Commit>, commits': seq<Commit>, tags: map<Tag, nat>, pending: set<string>,
                              names: set<string>, report: Report)
    requires ReleaseDone(commits, commits', tags, pending, names, report) && names != {}
    ensures ReleaseCount(commits') == ReleaseCount(commits) + 1
            <==> report.misreported == if report.noticed then 1 else 0
    ensures pending == {} <==> !report.noticed
    ensures ReleaseCount(commits') == ReleaseCount(commits) + 1 && pending == {} <==> report.misreported == 0
  {
  }

  /** One run of the script, which may end anywhere. It starts on a checkout of the branch. */
  method Process(repo: Repository, package: Option<string>) returns (outcome: Outcome, ghost report: Report)
    requires repo.Valid()
    modifies repo
    // Wherever the run ends, tags are where they belong and what is pending belongs to the last release.
    ensures repo.Valid()
    ensures Keeps(old(repo.tags), repo.tags)
    ensures outcome.Interrupted? <==> report.fatal || report.failures >= 5
    // With pending tags a run releases nothing, and if it completes all of them are on the last release.
    ensures old(repo.Pending()) != {} ==>
              && Grown(old(repo.commits), repo.commits)
              && (outcome.Refused? <==> package.Some?)
              && (package.Some? ==> repo.tags == old(repo.tags))
              && (outcome.Completed? ==>
                    && repo.Pending() == {}
                    && forall p <- old(repo.Pending()) ::
                         TaggedAt(repo.tags, p, Head(old(repo.commits)), LastRelease(old(repo.commits))))
    // Otherwise it releases the chosen packages or nothing, as often as a push took effect.
    ensures old(repo.Pending()) == {} ==>
              var names := Chosen(Head(old(repo.commits)), package);
              && !outcome.Refused?
              && (if report.pushes == 0 then Grown(old(repo.commits), repo.commits)
                  else ReleasedTimes(old(repo.commits), repo.commits, names, report.pushes))
              && (outcome.Completed? ==>
                    ReleaseDone(old(repo.commits), repo.commits, repo.tags, repo.Pending(), names, report))
  {
    report := NOTHING_HAPPENED;
    assert repo.commits != [];
    ReflexiveGrowth(repo.commits);
    hide Consistent, Lists, TaggedAt, ReleaseDone;
    var checkout := repo.commits[|repo.commits| - 1].tree;
    var gh := new GitHubRepo(repo);
    var pendingTags := FindPendingTags(checkout, repo.tags);
    ListsNothing(checkout, pendingTags, repo.Pending());
    var status;
    if pendingTags != [] {
      if package.Some? {
        return Refused, gh.report;
      }
      status := Recover(gh, checkout, pendingTags);
    } else {
      status := ReleaseAndTag(gh, checkout, package);
    }
    return if status.Fine? then Completed else Interrupted, gh.report;
  }

  /** The packages with a changelog, or just the given one. */
  method SelectPackages(tree: Tree, package: Option<string>) returns (packages: seq<string>)
    ensures Selection(packages, tree) && ToRelease(tree, packages) == Chosen(tree, package)
  {
    packages := FindPackages(tree);
    if package.Some? {
      packages := if package.value in packages then [package.value] else [];
    }
  }

  lemma KeepsAll(tags: map<Tag, nat>)
    ensures Keeps(tags, tags)
  {
  }

  lemma WhatIsDone(commits: seq<Commit>, commits': seq<Commit>, tags: map<Tag, nat>, pending: set<string>,
                   names: set<string>, report: Report)
    requires Progress(commits, commits', pending, names, report.pushes)
    ensures if report.pushes > 0 then ReleasedTimes(commits, commits', names, report.pushes) && pending == names != {}
            else Grown(commits, commits') && pending == {}
    ensures && (report.noticed ==> names != {} && report.misreported > 0)
            && report.pushes == report.misreported + (if names == {} || report.noticed then 0 else 1)
            && (names == {} || report.noticed)
            ==> ReleaseDone(commits, commits', tags, pending, names, report)
  {
  }

  lemma TaggedIsDone(commits: seq<Commit>, commits': seq<Commit>, commits'': seq<Commit>, tags: map<Tag, nat>,
                     names: set<string>, c: int, report: Report)
    requires ReleasedTimes(commits, commits', names, report.pushes) && Grown(commits', commits'') && names != {}
    requires report.pushes == report.misreported + 1 && !report.noticed
    requires c == LastRelease(commits') && forall p <- names :: TaggedAt(tags, p, Head(commits''), c)
    ensures ReleaseDone(commits, commits'', tags, {}, names, report)
  {
    ReleasesAndGrows(commits, commits', commits'', names, report.pushes);
  }

  /** Applies the tags of a release that has just been pushed. */
  method TagRelease(gh: GitHubRepo, tagInfos: seq<Tag>, ghost commits0: seq<Commit>, ghost names: set<string>)
    returns (status: Status)
    requires gh.repo.Valid() && gh.repo.commits != [] && gh.sha == LastRelease(gh.repo.commits)
    requires names != {} && Lists(Head(gh.repo.commits), tagInfos, names) && gh.repo.Pending() == names
    requires ReleasedTimes(commits0, gh.repo.commits, names, gh.report.pushes)
    requires gh.report.pushes == gh.report.misreported + 1 && !gh.report.noticed
    modifies gh`report, gh.repo`commits, gh.repo`tags
    ensures gh.repo.Valid() && Keeps(old(gh.repo.tags), gh.repo.tags)
    ensures gh.report == old(gh.report).AfterCall(status)
    ensures ReleasedTimes(commits0, gh.repo.commits, names, gh.report.pushes)
    ensures status.Fine? ==>
              ReleaseDone(commits0, gh.repo.commits, gh.repo.tags, gh.repo.Pending(), names, gh.report)
  {
    hide Consistent, Lists, TaggedAt, ReleasedTimes, Keeps, ReleaseDone;
    ghost var released := gh.repo.commits;
    status := PushTags(gh, tagInfos);
    ReleasesAndGrows(commits0, released, gh.repo.commits, names, gh.report.pushes);
    if status.Fine? {
      TaggedIsDone(commits0, released, gh.repo.commits, gh.repo.tags, names, gh.sha, gh.report);
    }
  }

  /** Releases the chosen packages and applies their tags. */
  method ReleaseAndTag(gh: GitHubRepo, checkout: Tree, package: Option<string>) returns (status: Status)
    requires gh.repo.Valid() && gh.changedFiles == map[] && checkout == Head(gh.repo.commits)
    requires gh.repo.Pending() == {} && gh.report == NOTHING_HAPPENED
    modifies gh, gh.repo`commits, gh.repo`tags
    ensures status.Fine? <==> !Failed(gh)
    ensures gh.repo.Valid() && Keeps(old(gh.repo.tags), gh.repo.tags)
    ensures var names := Chosen(checkout, package);
            && (if gh.report.pushes == 0 then Grown(old(gh.repo.commits), gh.repo.commits)
                else ReleasedTimes(old(gh.repo.commits), gh.repo.commits, names, gh.report.pushes))
            && (status.Fine? ==> ReleaseDone(old(gh.repo.commits), gh.repo.commits, gh.repo.tags, gh.repo.Pending(),
                                             names, gh.report))
  {
    assert gh.repo.commits != [];
    hide Consistent, Lists, TaggedAt, Progress, Chosen, ToRelease, Selection, ReleasedTimes, Keeps, Grown, ReleaseDone;
    ghost var commits, names := gh.repo.commits, Chosen(checkout, package);
    var packages := SelectPackages(checkout, package);
    var tagInfos;
    status, tagInfos := RetryUpdate(gh, checkout, packages);
    WhatIsDone(commits, gh.repo.commits, gh.repo.tags, gh.repo.Pending(), names, gh.report);
    KeepsAll(gh.repo.tags);
    if status.Fine? && tagInfos != [] {
      status := TagRelease(gh, tagInfos, commits, names);
    }
  }

  lemma PendingWereReleased(base: nat, commits: seq<Commit>, tags: map<Tag, nat>)
    requires Consistent(base, commits, tags) && PendingPackages(Head(commits), tags) != {}
    ensures LastRelease(commits) >= 0
  {
    var p :| p in PendingPackages(Head(commits), tags);
  }

  /** Goes back to the last release commit and applies the tags that are missing. */
  method Recover(gh: GitHubRepo, checkout: Tree, pendingTags: seq<Tag>) returns (status: Status)
    requires gh.repo.Valid() && checkout == Head(gh.repo.commits)
    requires pendingTags != [] && Lists(checkout, pendingTags, gh.repo.Pending())
    requires gh.report == NOTHING_HAPPENED
    modifies gh, gh.repo`commits, gh.repo`tags
    ensures status.Fine? <==> !Failed(gh)
    ensures gh.repo.Valid() && Grown(old(gh.repo.commits), gh.repo.commits)
    ensures Keeps(old(gh.repo.tags), gh.repo.tags)
    ensures status.Fine? ==>
              && gh.repo.Pending() == {}
              && forall p <- old(gh.repo.Pending()) ::
                   TaggedAt(gh.repo.tags, p, checkout, LastRelease(old(gh.repo.commits)))
  {
    assert gh.repo.commits != [];
    ReflexiveGrowth(gh.repo.commits);
    hide Consistent, Lists, TaggedAt;
    var lastRelease := LastRelease(gh.repo.commits);
    // The script raises an error if there is no release commit, but with tags pending there is one.
    ListsNothing(checkout, pendingTags, gh.repo.Pending());
    PendingWereReleased(gh.repo.base, gh.repo.commits, gh.repo.tags);
    status := gh.Reset(Some(lastRelease));
    if status.Fine? {
      status := PushTags(gh, pendingTags);
    }
  }
}
