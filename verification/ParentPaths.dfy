/** Creating the parents of a Zookeeper node, while others create nodes too. */
module ParentPaths {
  import opened GoStrings

  /** What Zookeeper answers; `Lost` stands for every error of the connection. */
  datatype Answer = Success | NoNode | NodeExists | InvalidPath | Lost

  /** A node is known by the names on the way from the root to it. */
  type Node = seq<string>

  const CLUSTER_MEMBER_PATH := "/members"
  const LOCK := "lock:"

  // ----- paths and nodes -----

  function NonEmpty(parts: seq<string>): (r: seq<string>)
    ensures |r| <= |parts|
  {
    if parts == [] then []
    else if parts[|parts| - 1] == "" then NonEmpty(parts[..|parts| - 1])
    else NonEmpty(parts[..|parts| - 1]) + [parts[|parts| - 1]]
  }

  function NodeOf(path: string): Node {
    NonEmpty(Split(path, '/'))
  }

  /** Zookeeper accepts a path that starts with a slash and has no empty name. */
  predicate WellFormed(path: string) {
    var parts := Split(path, '/');
    |parts| > 1 && parts[0] == "" && "" !in parts[1..]
  }

  function CleanPath(path: string): string {
    "/" + Trim(path, '/')
  }

  function RegistrationPath(prefix: string, member: string): string {
    CleanPath(prefix) + CleanPath(CLUSTER_MEMBER_PATH) + CleanPath(member)
  }

  lemma {:induction false} NonEmptyAppend(a: seq<string>, b: seq<string>)
    ensures NonEmpty(a + b) == NonEmpty(a) + NonEmpty(b)
  {
    if b == [] {
      assert a + b == a;
    } else {
      NonEmptyAppend(a, b[..|b| - 1]);
      assert (a + b)[..|a + b| - 1] == a + b[..|b| - 1];
    }
  }

  lemma {:induction false} NonEmptyIsAll(parts: seq<string>)
    requires "" !in parts
    ensures NonEmpty(parts) == parts
  {
    if parts != [] {
      NonEmptyIsAll(parts[..|parts| - 1]);
      assert parts == parts[..|parts| - 1] + [parts[|parts| - 1]];
    }
  }

  lemma {:induction false} PartsAreNames(s: string, sep: char)
    ensures forall p <- Split(s, sep) :: sep !in p
  {
    if s != [] {
      PartsAreNames(s[1..], sep);
    }
  }

  lemma OneNameMore(path: string, name: string)
    requires '/' !in name && name != ""
    ensures NodeOf(path + "/" + name) == NodeOf(path) + [name]
  {
    SplitAt(path, '/', name);
    SplitWithout(name, '/');
    NonEmptyAppend(Split(path, '/'), [name]);
    assert NonEmpty([name]) == [name] by { assert [name][..0] == []; }
  }

  /** The parent of a well-formed path is made of all its parts but the last. */
  lemma ParentOfWellFormed(path: string)
    requires WellFormed(path)
    ensures var parts := Split(path, '/');
            && NodeOf(path) == parts[1..] && NodeOf(path) != []
            && NonEmpty(parts[..|parts| - 1]) == NodeOf(path)[..|NodeOf(path)| - 1]
  {
    hide Split, NonEmpty;
    var parts := Split(path, '/');
    var rest := parts[1..];
    RootIsEmpty(rest);
    assert parts == [""] + rest;
    var parent := rest[..|rest| - 1];
    RootIsEmpty(parent);
    assert parts[..|parts| - 1] == [""] + parent;
  }

  lemma RootIsEmpty(rest: seq<string>)
    requires "" !in rest
    ensures NonEmpty([""] + rest) == rest
  {
    NonEmptyAppend([""], rest);
    NonEmptyIsAll(rest);
    assert [""][..0] == [];
  }

  lemma SplitClean(rest: string, path: string)
    ensures Split(rest + CleanPath(path), '/') == Split(rest, '/') + Split(Trim(path, '/'), '/')
  {
    SplitAt(rest, '/', Trim(path, '/'));
    assert rest + CleanPath(path) == rest + "/" + Trim(path, '/');
  }

  /** A member can register itself exactly if neither the trimmed prefix nor its trimmed name has an empty part; an
      empty prefix has one. */
  lemma RegistrationIsWellFormedIff(prefix: string, member: string)
    ensures WellFormed(RegistrationPath(prefix, member)) <==>
      "" !in Split(Trim(prefix, '/'), '/') && "" !in Split(Trim(member, '/'), '/')
    ensures Trim(prefix, '/') == "" ==> !WellFormed(RegistrationPath(prefix, member))
  {
    hide Split, Trim, NonEmpty;
    var p, m := Split(Trim(prefix, '/'), '/'), Split(Trim(member, '/'), '/');
    RegistrationParts(prefix, member);
    var parts := Split(RegistrationPath(prefix, member), '/');
    assert parts[1..] == p + ["members"] + m;
    if Trim(prefix, '/') == "" {
      SplitWithout("", '/');
      assert p == [""];
    }
  }

  lemma RegistrationParts(prefix: string, member: string)
    ensures Split(RegistrationPath(prefix, member), '/') ==
      [""] + Split(Trim(prefix, '/'), '/') + ["members"] + Split(Trim(member, '/'), '/')
  {
    assert Trim(CLUSTER_MEMBER_PATH, '/') == "members" by { assert CLUSTER_MEMBER_PATH[1..] == "members"; }
    hide Split, Trim;
    SplitWithout("", '/');
    SplitWithout("members", '/');
    SplitClean("", prefix);
    assert "" + CleanPath(prefix) == CleanPath(prefix);
    SplitClean(CleanPath(prefix), CLUSTER_MEMBER_PATH);
    SplitClean(CleanPath(prefix) + CleanPath(CLUSTER_MEMBER_PATH), member);
  }

  // ----- the tree -----

  /** With every node its parent is there. */
  predicate PrefixClosed(nodes: set<Node>) {
    && [] in nodes
    && forall n <- nodes :: n != [] ==> n[..|n| - 1] in nodes
  }

  lemma {:induction false} AncestorsAreThere(nodes: set<Node>, n: Node, k: nat)
    requires PrefixClosed(nodes) && n in nodes && k <= |n|
    ensures n[..k] in nodes
  {
    if k < |n| {
      AncestorsAreThere(nodes, n[..|n| - 1], k);
      assert n[..|n| - 1][..k] == n[..k];
    } else {
      assert n[..k] == n;
    }
  }

  /** The persistent nodes and the ephemeral ones, which have no children. */
  class Tree {
    var nodes: set<Node>
    var ephemerals: set<Node>
    /** How many answers were lost so far. */
    ghost var losses: nat

    constructor ()
      ensures PrefixClosed(nodes) && nodes == {[]} && ephemerals == {} && losses == 0
    {
      nodes, ephemerals, losses := {[]}, {}, 0;
    }

    /** Others may create persistent nodes, and create and remove ephemeral ones. */
    method Others()
      requires PrefixClosed(nodes)
      modifies this`nodes, this`ephemerals
      ensures PrefixClosed(nodes) && old(nodes) <= nodes
    {
      var more: set<Node> := *;
      var left: set<Node> := *;
      if PrefixClosed(nodes + more) {
        nodes := nodes + more;
      }
      ephemerals := left;
    }

    method Exists(path: string) returns (answer: Answer, exists_: bool)
      modifies this`losses
      ensures answer == Success || answer == Lost
      ensures losses == old(losses) + if answer == Lost then 1 else 0
      ensures answer == Success ==> exists_ == (NodeOf(path) in nodes)
    {
      var lost: bool := *;
      if lost { losses := losses + 1; }
      answer, exists_ := if lost then Lost else Success, NodeOf(path) in nodes;
    }

    /** A lost answer does not tell whether the node was created. */
    method Create(path: string) returns (answer: Answer)
      requires WellFormed(path) && PrefixClosed(nodes)
      modifies this`nodes, this`losses
      ensures losses == old(losses) + if answer == Lost then 1 else 0
      ensures PrefixClosed(nodes) && old(nodes) <= nodes <= old(nodes) + {NodeOf(path)}
      ensures answer == NoNode <==> answer != Lost && NodeOf(path)[..|NodeOf(path)| - 1] !in old(nodes)
      ensures answer == Success || answer == NodeExists ==> NodeOf(path) in nodes
      ensures answer != InvalidPath
    {
      ParentOfWellFormed(path);
      var node := NodeOf(path);
      var lost: bool, done: bool := *, *;
      if lost { losses := losses + 1; }
      if lost && !done {
        return Lost;
      }
      if node[..|node| - 1] !in nodes {
        return if lost then Lost else NoNode;
      }
      answer := if lost then Lost else if node in nodes then NodeExists else Success;
      nodes := nodes + {node};
    }

    method CreateEphemeral(path: string) returns (answer: Answer)
      requires PrefixClosed(nodes)
      modifies this`ephemerals, this`losses
      ensures losses == old(losses) + if answer == Lost then 1 else 0
      ensures answer == NodeExists ==> NodeOf(path) in nodes + ephemerals
      ensures answer == InvalidPath <==> !WellFormed(path)
      ensures answer == NoNode ==> WellFormed(path) && NodeOf(path)[..|NodeOf(path)| - 1] !in nodes
      ensures answer == Success ==>
        NodeOf(path) != [] && NodeOf(path)[..|NodeOf(path)| - 1] in nodes && NodeOf(path) in ephemerals
    {
      if !WellFormed(path) {
        return InvalidPath;
      }
      ParentOfWellFormed(path);
      var node := NodeOf(path);
      var lost: bool, done: bool := *, *;
      if lost { losses := losses + 1; }
      if lost && !done {
        return Lost;
      }
      if node[..|node| - 1] !in nodes {
        return if lost then Lost else NoNode;
      }
      answer := if lost then Lost else if node in nodes + ephemerals then NodeExists else Success;
      ephemerals := ephemerals + {node};
    }

    /** Creates what is missing on the way to the node made of the parts, others working on the tree meanwhile.  The
        way is there if it succeeds, and no parent is ever missing. */
    method CreatePath(parts: seq<string>) returns (answer: Answer)
      requires PrefixClosed(nodes) && forall p <- parts :: '/' !in p
      modifies this
      ensures PrefixClosed(nodes) && old(nodes) <= nodes
      ensures answer == (if losses == old(losses) then Success else Lost) && losses <= old(losses) + 1
      ensures answer == Success ==> forall k :: 0 <= k <= |NonEmpty(parts)| ==> NonEmpty(parts)[..k] in nodes
    {
      var pth := "";
      assert NodeOf(pth) == [] by { assert [""][..0] == []; }
      for i := 0 to |parts|
        invariant PrefixClosed(nodes) && old(nodes) <= nodes && losses == old(losses)
        invariant NodeOf(pth) == NonEmpty(parts[..i]) && NodeOf(pth) in nodes
        invariant pth == "" || WellFormed(pth)
      {
        assert parts[..i + 1][..i] == parts[..i];
        var p := parts[i];
        if p == "" {
          continue;
        }
        ghost var parent := NodeOf(pth);
        Extended(pth, p);
        pth := pth + "/" + p;
        Others();
        var exists_;
        answer, exists_ := Exists(pth);
        if answer != Success {
          return;
        }
        if exists_ {
          continue;
        }
        Others();
        assert NodeOf(pth)[..|NodeOf(pth)| - 1] == parent;
        answer := Create(pth);
        if answer != Success && answer != NodeExists {
          return;
        }
      }
      answer := Success;
      assert parts[..|parts|] == parts;
      forall k | 0 <= k <= |NonEmpty(parts)|
        ensures NonEmpty(parts)[..k] in nodes
      {
        AncestorsAreThere(nodes, NonEmpty(parts), k);
      }
    }

    method CreateParentPath(path: string) returns (answer: Answer)
      requires PrefixClosed(nodes)
      modifies this
      ensures PrefixClosed(nodes) && old(nodes) <= nodes
      ensures answer == (if losses == old(losses) then Success else Lost) && losses <= old(losses) + 1
      ensures answer == Success && WellFormed(path) ==> NodeOf(path)[..|NodeOf(path)| - 1] in nodes
    {
      var parts := Split(path, '/');
      PartsAreNames(path, '/');
      answer := CreatePath(parts[..|parts| - 1]);
      if WellFormed(path) {
        ParentOfWellFormed(path);
        assert NonEmpty(parts[..|parts| - 1])[..|NonEmpty(parts[..|parts| - 1])|] == NonEmpty(parts[..|parts| - 1]);
      }
    }

    /** The part of the lock's try that creates its node: `name` and `again` are what Zookeeper calls the protected node
        at the first and at the second attempt.  It never fails for want of a parent. */
    method CreateLockNode(id: string, name: string, again: string) returns (answer: Answer)
      requires PrefixClosed(nodes) && name != "" && '/' !in name && again != "" && '/' !in again
      modifies this
      ensures PrefixClosed(nodes) && old(nodes) <= nodes
      ensures answer == Lost <==> losses != old(losses)
      ensures answer != NoNode
      ensures answer == InvalidPath <==> !WellFormed(id + "/" + LOCK)
      ensures answer == Success ==> NodeOf(id) in nodes && exists n <- {name, again} :: NodeOf(id) + [n] in ephemerals
    {
      hide Split, NonEmpty, WellFormed, NodeOf;
      var prefix := id + "/" + LOCK;
      SameShape(id, name, LOCK);
      SameShape(id, again, LOCK);
      answer := CreateEphemeral(id + "/" + name);
      if answer == NoNode {
        answer := CreateParentPath(prefix);
        if answer != Success {
          return;
        }
        Others();
        answer := CreateEphemeral(id + "/" + again);
      }
    }

    /** Registration never fails for want of a parent: it fails if the path is malformed, the member is registered
        already, or the connection is lost. */
    method Register(prefix: string, member: string) returns (answer: Answer)
      requires PrefixClosed(nodes)
      modifies this
      ensures PrefixClosed(nodes) && old(nodes) <= nodes
      ensures answer == Lost <==> losses != old(losses)
      ensures answer != NoNode
      ensures answer == InvalidPath <==> !WellFormed(RegistrationPath(prefix, member))
      ensures answer == Success ==> NodeOf(RegistrationPath(prefix, member)) in ephemerals
      ensures answer == NodeExists ==> NodeOf(RegistrationPath(prefix, member)) in nodes + ephemerals
    {
      var registrationPath := RegistrationPath(prefix, member);
      answer := CreateEphemeral(registrationPath);
      if answer == NoNode {
        answer := CreateParentPath(registrationPath);
        if answer != Success {
          return;
        }
        Others();
        answer := CreateEphemeral(registrationPath);
      }
    }
  }

  /** Two children of one path are well-formed alike, and have the same parent. */
  lemma SameShape(id: string, name: string, other: string)
    requires name != "" && '/' !in name && other != "" && '/' !in other
    ensures WellFormed(id + "/" + name) <==> WellFormed(id + "/" + other)
    ensures NodeOf(id + "/" + name) == NodeOf(id) + [name] && NodeOf(id + "/" + other) == NodeOf(id) + [other]
  {
    hide Split;
    ShapeOfChild(id, name);
    ShapeOfChild(id, other);
    OneNameMore(id, name);
    OneNameMore(id, other);
  }

  lemma ShapeOfChild(id: string, name: string)
    requires name != "" && '/' !in name
    ensures WellFormed(id + "/" + name) <==> Split(id, '/')[0] == "" && "" !in Split(id, '/')[1..]
  {
    SplitAt(id, '/', name);
    SplitWithout(name, '/');
    var parts := Split(id, '/');
    hide Split;
    assert (parts + [name])[1..] == parts[1..] + [name];
  }

  lemma Extended(path: string, name: string)
    requires (path == "" || WellFormed(path)) && name != "" && '/' !in name
    ensures WellFormed(path + "/" + name) && NodeOf(path + "/" + name) == NodeOf(path) + [name]
  {
    OneNameMore(path, name);
    SplitAt(path, '/', name);
    SplitWithout(name, '/');
    var parts := Split(path, '/');
    assert (parts + [name])[1..] == parts[1..] + [name];
  }
}
