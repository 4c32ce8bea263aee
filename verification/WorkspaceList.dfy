/** The breadth-first listing of databricks/sdk/mixins/workspace.py. */
module WorkspaceList {
  datatype ObjectType = DASHBOARD | DIRECTORY | FILE | LIBRARY | NOTEBOOK | REPO

  datatype ObjectInfo = ObjectInfo(path: string, objectType: ObjectType)

  /** A workspace object with, for a directory, what it contains. */
  datatype Node = Node(info: ObjectInfo, children: seq<Node>)

  /** What the workspace answers when asked for the contents of a path; other paths fail. */
  type Listing = map<string, seq<ObjectInfo>>

  function Infos(nodes: seq<Node>): (infos: seq<ObjectInfo>)
    ensures |infos| == |nodes| && forall i :: 0 <= i < |nodes| ==> infos[i] == nodes[i].info
  {
    seq(|nodes|, i requires 0 <= i < |nodes| => nodes[i].info)
  }

  function Inside(n: Node): seq<Node> {
    if n.info.objectType == DIRECTORY then n.children else []
  }

  function Contents(nodes: seq<Node>): seq<Node> {
    if nodes == [] then [] else Inside(nodes[0]) + Contents(nodes[1..])
  }

  function Directories(nodes: seq<Node>): seq<Node> {
    if nodes == [] then []
    else if nodes[0].info.objectType == DIRECTORY then [nodes[0]] + Directories(nodes[1..])
    else Directories(nodes[1..])
  }

  /** The objects that are not directories. */
  function Objects(nodes: seq<Node>): seq<ObjectInfo> {
    if nodes == [] then []
    else if nodes[0].info.objectType == DIRECTORY then Objects(nodes[1..])
    else [nodes[0].info] + Objects(nodes[1..])
  }

  function Paths(nodes: seq<Node>): (paths: seq<string>)
    ensures |paths| == |nodes| && forall i :: 0 <= i < |nodes| ==> paths[i] == nodes[i].info.path
  {
    seq(|nodes|, i requires 0 <= i < |nodes| => nodes[i].info.path)
  }

  /** The listing agrees with the forest wherever it answers. */
  ghost predicate Describes(listing: Listing, nodes: seq<Node>) {
    forall n <- nodes ::
      && (n.info.objectType == DIRECTORY && n.info.path in listing ==> listing[n.info.path] == Infos(n.children))
      && Describes(listing, n.children)
  }

  /** No directory of the forest, at any depth, fails to be listed. */
  ghost predicate Readable(listing: Listing, nodes: seq<Node>) {
    forall n <- nodes :: n.info.objectType == DIRECTORY ==> n.info.path in listing && Readable(listing, n.children)
  }

  // ---------- Sizes ----------

  ghost function Size(nodes: seq<Node>): nat {
    if nodes == [] then 0 else 1 + Size(nodes[0].children) + Size(nodes[1..])
  }

  lemma {:induction false} SizeOfSum(a: seq<Node>, b: seq<Node>)
    ensures Size(a + b) == Size(a) + Size(b)
  {
    if a == [] {
      assert a + b == b;
    } else {
      SizeOfSum(a[1..], b);
      assert (a + b)[1..] == a[1..] + b;
    }
  }

  lemma {:induction false} SizeOfDirectories(nodes: seq<Node>)
    ensures Size(Directories(nodes)) <= Size(nodes)
  {
    if nodes != [] {
      SizeOfDirectories(nodes[1..]);
      if nodes[0].info.objectType == DIRECTORY {
        assert Directories(nodes)[1..] == Directories(nodes[1..]);
      }
    }
  }

  lemma {:induction false} SizeOfContents(nodes: seq<Node>)
    ensures Size(Contents(nodes)) + |nodes| <= Size(nodes)
  {
    if nodes != [] {
      SizeOfContents(nodes[1..]);
      SizeOfSum(Inside(nodes[0]), Contents(nodes[1..]));
    }
  }

  // ---------- Level order ----------

  /** Everything below the nodes that is no directory, level by level. */
  ghost function Levels(nodes: seq<Node>): seq<ObjectInfo>
    decreases Size(nodes)
  {
    if nodes == [] then []
    else
      var below := Contents(nodes);
      SizeOfContents(nodes);
      SizeOfDirectories(below);
      Objects(below) + Levels(Directories(below))
  }

  /** What is d levels below the nodes. */
  ghost function AtDepth(nodes: seq<Node>, d: nat): seq<Node>
    decreases d
  {
    if d == 0 then nodes else AtDepth(Contents(nodes), d - 1)
  }

  /** The objects of the levels below the nodes, from the first to level d. */
  ghost function UpToDepth(nodes: seq<Node>, d: nat): seq<ObjectInfo> {
    if d == 0 then [] else UpToDepth(nodes, d - 1) + Objects(AtDepth(nodes, d))
  }

  lemma {:induction false} ContentsOfDirectories(nodes: seq<Node>)
    ensures Contents(Directories(nodes)) == Contents(nodes)
  {
    if nodes != [] {
      ContentsOfDirectories(nodes[1..]);
      if nodes[0].info.objectType == DIRECTORY {
        assert Directories(nodes)[1..] == Directories(nodes[1..]);
      }
    }
  }

  lemma {:induction false} DepthOfDirectories(nodes: seq<Node>, d: nat)
    ensures d > 0 ==> AtDepth(Directories(nodes), d) == AtDepth(nodes, d)
    ensures UpToDepth(Directories(nodes), d) == UpToDepth(nodes, d)
  {
    ContentsOfDirectories(nodes);
    if d > 0 {
      DepthOfDirectories(nodes, d - 1);
    }
  }

  lemma {:induction false} UpToDepthFromTop(nodes: seq<Node>, d: nat)
    ensures UpToDepth(nodes, d + 1) == Objects(Contents(nodes)) + UpToDepth(Contents(nodes), d)
  {
    if d > 0 {
      UpToDepthFromTop(nodes, d - 1);
    } else {
      assert AtDepth(nodes, 1) == AtDepth(Contents(nodes), 0);
    }
  }

  lemma {:induction false} NothingDeeper(d: nat)
    ensures UpToDepth([], d) == [] && AtDepth([], d) == []
  {
    if d > 0 {
      NothingDeeper(d - 1);
    }
  }

  /** The traversal is by depth: the objects one level down, then those two levels down, and so on; no
      level is deeper than there are nodes. */
  lemma {:induction false} LevelsAreByDepth(nodes: seq<Node>, d: nat)
    requires d >= Size(nodes)
    ensures Levels(nodes) == UpToDepth(nodes, d)
    decreases d
  {
    if nodes == [] {
      NothingDeeper(d);
    } else {
      var below := Contents(nodes);
      SizeOfContents(nodes);
      SizeOfDirectories(below);
      LevelsAreByDepth(Directories(below), d - 1);
      DepthOfDirectories(below, d - 1);
      UpToDepthFromTop(nodes, d - 1);
    }
  }

  // ---------- Each object once ----------

  /** The objects of a forest, depth first. */
  ghost function Everything(nodes: seq<Node>): seq<ObjectInfo> {
    if nodes == [] then [] else EverythingIn(nodes[0]) + Everything(nodes[1..])
  }

  ghost function EverythingIn(n: Node): seq<ObjectInfo> {
    if n.info.objectType == DIRECTORY then Everything(n.children) else [n.info]
  }

  lemma Associates<T>(a: seq<T>, b: seq<T>, c: seq<T>)
    ensures (a + b) + c == a + (b + c)
  {
  }

  lemma {:induction false} EverythingOfSum(a: seq<Node>, b: seq<Node>)
    ensures Everything(a + b) == Everything(a) + Everything(b)
  {
    if a == [] {
      assert a + b == b;
    } else {
      var first := EverythingIn(a[0]);
      assert Everything(a) == first + Everything(a[1..]);
      assert (a + b)[0] == a[0] && (a + b)[1..] == a[1..] + b;
      assert Everything(a + b) == first + Everything(a[1..] + b);
      hide Everything, EverythingIn;
      EverythingOfSum(a[1..], b);
      Associates(first, Everything(a[1..]), Everything(b));
    }
  }

  lemma {:induction false} EverythingByLevel(nodes: seq<Node>)
    ensures multiset(Everything(nodes)) == multiset(Objects(nodes)) + multiset(Everything(Contents(nodes)))
  {
    if nodes != [] {
      EverythingByLevel(nodes[1..]);
      EverythingOfSum(Inside(nodes[0]), Contents(nodes[1..]));
    }
  }

  lemma {:induction false} LevelsAreEverything(nodes: seq<Node>)
    ensures multiset(Levels(nodes)) == multiset(Everything(Contents(nodes)))
    decreases Size(nodes)
  {
    if nodes != [] {
      var below := Contents(nodes);
      SizeOfContents(nodes);
      SizeOfDirectories(below);
      LevelsAreEverything(Directories(below));
      ContentsOfDirectories(below);
      EverythingByLevel(below);
    }
  }

  lemma {:induction false} NoDirectoryIn(nodes: seq<Node>)
    ensures forall info <- Everything(nodes) :: info.objectType != DIRECTORY
  {
    if nodes != [] {
      NoDirectoryIn(nodes[0].children);
      NoDirectoryIn(nodes[1..]);
    }
  }

  /** The traversal yields every object that is no directory exactly as often as it is in the tree, and no
      directory. */
  lemma EachObjectOnce(root: Node)
    requires root.info.objectType == DIRECTORY
    ensures multiset(Levels([root])) == multiset(Everything([root]))
    ensures forall info <- Levels([root]) :: info.objectType != DIRECTORY
  {
    LevelsAreEverything([root]);
    assert Contents([root]) == root.children + [] == root.children;
    assert Everything([root]) == Everything(root.children) + [];
    NoDirectoryIn([root]);
    forall info <- Levels([root])
      ensures info.objectType != DIRECTORY
    {
      assert info in multiset(Levels([root]));
    }
  }

  // ---------- The traversal ----------

  lemma {:induction false} DirectoriesOfSum(a: seq<Node>, b: seq<Node>)
    ensures Directories(a + b) == Directories(a) + Directories(b)
  {
    if a == [] {
      assert a + b == b;
    } else {
      DirectoriesOfSum(a[1..], b);
      assert (a + b)[1..] == a[1..] + b;
    }
  }

  lemma {:induction false} ObjectsOfSum(a: seq<Node>, b: seq<Node>)
    ensures Objects(a + b) == Objects(a) + Objects(b)
  {
    if a == [] {
      assert a + b == b;
    } else {
      ObjectsOfSum(a[1..], b);
      assert (a + b)[1..] == a[1..] + b;
    }
  }

  /** One more object of a listing is either yielded or queued. */
  lemma OneMore(nodes: seq<Node>, i: nat)
    requires i < |nodes|
    ensures nodes[i].info.objectType == DIRECTORY ==>
              && Objects(nodes[..i + 1]) == Objects(nodes[..i])
              && Directories(nodes[..i + 1]) == Directories(nodes[..i]) + [nodes[i]]
    ensures nodes[i].info.objectType != DIRECTORY ==>
              && Objects(nodes[..i + 1]) == Objects(nodes[..i]) + [nodes[i].info]
              && Directories(nodes[..i + 1]) == Directories(nodes[..i])
  {
    assert nodes[..i + 1] == nodes[..i] + [nodes[i]];
    DirectoriesOfSum(nodes[..i], [nodes[i]]);
    ObjectsOfSum(nodes[..i], [nodes[i]]);
  }

  /** What is still to be yielded when the queue holds the rest of one level and, after it, what has been
      found of the next. */
  ghost function Pending(rest: seq<Node>, next: seq<Node>): seq<ObjectInfo> {
    Objects(Contents(rest)) + Levels(next + Directories(Contents(rest)))
  }

  lemma NextLevel(next: seq<Node>)
    ensures Pending([], next) == Levels(next) == Pending(next, [])
  {
    assert next + Directories(Contents([])) == next;
    assert [] + Directories(Contents(next)) == Directories(Contents(next));
    if next == [] {
      assert Contents(next) == [];
    }
  }

  /** Listing the head of the queue yields its objects and queues its directories. */
  lemma Dequeue(rest: seq<Node>, next: seq<Node>)
    requires rest != []
    ensures Pending(rest, next)
            == Objects(Inside(rest[0])) + Pending(rest[1..], next + Directories(Inside(rest[0])))
  {
    var below, others := Inside(rest[0]), Contents(rest[1..]);
    assert Contents(rest) == below + others;
    hide Levels, Objects, Directories, Contents;
    ObjectsOfSum(below, others);
    DirectoriesOfSum(below, others);
    Associates(next, Directories(below), Directories(others));
    Associates(Objects(below), Objects(others), Levels((next + Directories(below)) + Directories(others)));
  }

  lemma {:induction false} AreDirectories(nodes: seq<Node>)
    ensures forall n :: n in Directories(nodes) <==> n in nodes && n.info.objectType == DIRECTORY
  {
    if nodes != [] {
      AreDirectories(nodes[1..]);
      assert nodes == [nodes[0]] + nodes[1..];
    }
  }

  lemma DirectoriesAreListed(listing: Listing, nodes: seq<Node>)
    ensures Describes(listing, nodes) ==> Describes(listing, Directories(nodes))
    ensures Readable(listing, nodes) <==> Readable(listing, Directories(nodes))
    ensures AllDirectories(Directories(nodes))
  {
    AreDirectories(nodes);
  }

  ghost predicate AllDirectories(nodes: seq<Node>) {
    forall n <- nodes :: n.info.objectType == DIRECTORY
  }

  /** The nodes waiting in a queue of paths. */
  ghost predicate Queued(listing: Listing, queue: seq<string>, nodes: seq<Node>) {
    && queue == Paths(nodes)
    && AllDirectories(nodes)
    && Describes(listing, nodes)
  }

  lemma QueuedOfSum(listing: Listing, a: seq<Node>, b: seq<Node>)
    ensures Paths(a + b) == Paths(a) + Paths(b)
    ensures Queued(listing, Paths(a + b), a + b) <==> Queued(listing, Paths(a), a) && Queued(listing, Paths(b), b)
    ensures Readable(listing, a + b) <==> Readable(listing, a) && Readable(listing, b)
  {
    assert forall n :: n in a + b <==> n in a || n in b;
  }

  lemma QueuedOne(listing: Listing, n: Node)
    requires Queued(listing, Paths([n]), [n])
    ensures n.info.objectType == DIRECTORY
    ensures n.info.path in listing ==> listing[n.info.path] == Infos(n.children)
    ensures Describes(listing, n.children)
    ensures Readable(listing, [n]) <==> n.info.path in listing && Readable(listing, n.children)
  {
    assert n in [n];
  }

  lemma AfterDequeue(listing: Listing, queue: seq<string>, nodes: seq<Node>)
    requires Queued(listing, queue, nodes) && nodes != []
    ensures queue != [] && queue[0] == nodes[0].info.path && nodes[0].info.objectType == DIRECTORY
    ensures queue[0] in listing ==> listing[queue[0]] == Infos(nodes[0].children)
    ensures var below := Directories(nodes[0].children);
            && Queued(listing, queue[1..] + Paths(below), nodes[1..] + below)
            && (Readable(listing, nodes) <==> queue[0] in listing && Readable(listing, nodes[1..] + below))
            && Size(nodes[1..] + below) < Size(nodes)
  {
    var head, tail, below := nodes[0], nodes[1..], Directories(nodes[0].children);
    assert nodes == [head] + tail;
    QueuedOfSum(listing, [head], tail);
    QueuedOne(listing, head);
    DirectoriesAreListed(listing, head.children);
    QueuedOfSum(listing, tail, below);
    SizeOfSum(tail, below);
    SizeOfDirectories(head.children);
    assert queue[1..] == Paths(tail);
    hide Readable, Describes, AllDirectories, Directories, Paths;
  }

  /** One pass over the contents of a directory: what it yields, and the paths it queues. */
  method ListDirectory(contents: seq<ObjectInfo>, recursive: bool, ghost nodes: seq<Node>)
    returns (yielded: seq<ObjectInfo>, queued: seq<string>)
    requires contents == Infos(nodes)
    ensures recursive ==> yielded == Objects(nodes) && queued == Paths(Directories(nodes))
    ensures !recursive ==> yielded == contents && queued == []
  {
    yielded, queued := [], [];
    for i := 0 to |contents|
      invariant recursive ==> yielded == Objects(nodes[..i]) && queued == Paths(Directories(nodes[..i]))
      invariant !recursive ==> yielded == contents[..i] && queued == []
    {
      OneMore(nodes, i);
      if recursive && contents[i].objectType == DIRECTORY {
        queued := queued + [contents[i].path];
      } else {
        yielded := yielded + [contents[i]];
      }
    }
    assert nodes[..|contents|] == nodes;
  }

  lemma RootIsQueued(listing: Listing, root: Node)
    requires root.info.objectType == DIRECTORY && Describes(listing, [root])
    ensures Queued(listing, [root.info.path], [root])
    ensures root.info.path in listing ==> listing[root.info.path] == Infos(root.children)
  {
    assert root in [root];
  }

  lemma NothingLeft(listing: Listing)
    ensures Pending([], []) == [] && Readable(listing, []) && Queued(listing, [], []) && Size([]) == 0
  {
    NextLevel([]);
  }

  /** `root` is the directory at the path, with what is below it. */
  method List(listing: Listing, path: string, recursive: bool, ghost root: Node)
    returns (found: seq<ObjectInfo>, failed: bool)
    requires root.info == ObjectInfo(path, DIRECTORY) && Describes(listing, [root])
    ensures recursive ==>
              && (failed <==> !Readable(listing, [root]))
              && (if failed then found <= Levels([root]) else found == Levels([root]))
    ensures !recursive ==>
              && (failed <==> path !in listing)
              && found == if failed then [] else listing[path]
  {
    hide Readable, Describes, AllDirectories, Directories, Pending, Levels, Size, Contents, Objects, Infos;
    ghost var rest, next: seq<Node> := [root], [];
    var queue := [path];
    found := [];
    failed := false;
    NextLevel([root]);
    assert [root] + [] == [root];
    RootIsQueued(listing, root);
    while queue != []
      invariant Queued(listing, queue, rest + next)
      invariant recursive ==> found + Pending(rest, next) == Levels([root])
      invariant recursive ==> (Readable(listing, [root]) <==> Readable(listing, rest + next))
      invariant !recursive ==>
                  if path in listing && queue == [] then found == listing[path]
                  else found == [] && rest == [root] && next == []
      decreases Size(rest + next)
    {
      if rest == [] {
        NextLevel(next);
        assert [] + next == next + [];
        rest, next := next, [];
      }
      AfterDequeue(listing, queue, rest + next);
      Dequeue(rest, next);
      assert (rest + next)[0] == rest[0];
      assert (rest + next)[1..] + Directories(rest[0].children) == rest[1..] + (next + Directories(rest[0].children));
      var head := queue[0];
      queue := queue[1..];
      if head !in listing {
        return found, true;
      }
      ghost var node := rest[0];
      var yielded, queued := ListDirectory(listing[head], recursive, node.children);
      found := found + yielded;
      queue := queue + queued;
      if recursive {
        rest, next := rest[1..], next + Directories(node.children);
      } else {
        rest, next := [], [];
        NothingLeft(listing);
        assert rest + next == [];
      }
    }
    assert rest == [] && next == [];
    NothingLeft(listing);
  }
}
