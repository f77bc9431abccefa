/** The suffix-matching label trie on heap nodes, and the set of label paths it stands for. */
module DomainTrie {
  import opened Options
  import opened DomainNames
  import opened Ordering

  /** A label path from the top-level domain down: the root, or one label below a path. */
  datatype Path = Root | Sub(parent: Path, part: string)

  /** The path spelled by the first `n` labels. */
  ghost function PathOf(labels: seq<string>, n: nat): Path
    requires n <= |labels|
  {
    if n == 0 then Root else Sub(PathOf(labels, n - 1), labels[n - 1])
  }

  ghost function FullPath(labels: seq<string>): Path { PathOf(labels, |labels|) }

  ghost function LabelsOf(p: Path): seq<string> {
    match p
    case Root => []
    case Sub(parent, part) => LabelsOf(parent) + [part]
  }

  /** Paths and label sequences correspond one to one. */
  lemma {:induction false} PathOfLabelsOf(p: Path)
    ensures FullPath(LabelsOf(p)) == p
  {
    if p.Sub? {
      var ls := LabelsOf(p.parent);
      PathOfLabelsOf(p.parent);
      PathOfPrefix(ls, LabelsOf(p), |ls|);
    }
  }

  lemma {:induction false} PathOfPrefix(a: seq<string>, b: seq<string>, n: nat)
    requires n <= |a| && n <= |b| && a[..n] == b[..n]
    ensures PathOf(a, n) == PathOf(b, n)
  {
    if n > 0 {
      assert a[..n - 1] == a[..n][..n - 1] && b[..n - 1] == b[..n][..n - 1];
      assert a[n - 1] == a[..n][n - 1] == b[..n][n - 1];
      PathOfPrefix(a, b, n - 1);
    }
  }

  lemma {:induction false} LabelsOfPathOf(labels: seq<string>, n: nat)
    requires n <= |labels|
    ensures LabelsOf(PathOf(labels, n)) == labels[..n]
  {
    if n > 0 {
      LabelsOfPathOf(labels, n - 1);
      assert labels[..n] == labels[..n - 1] + [labels[n - 1]];
    }
  }

  class Node {
    var children: map<string, Node>
    var terminal: bool
    /** Where in its trie the node hangs. */
    ghost const path: Path

    constructor (ghost path: Path)
      ensures this.path == path && children == map[] && !terminal
    {
      this.path := path;
      children, terminal := map[], false;
    }

    constructor Copy(terminal: bool, children: map<string, Node>, ghost path: Path)
      ensures this.path == path && this.children == children && this.terminal == terminal
    {
      this.path, this.children, this.terminal := path, children, terminal;
    }
  }

  type NodeMap = map<Path, Node>

  /** `nodes` lists every node of a tree under its path: the child maps are exactly the links between them. */
  ghost predicate Linked(nodes: NodeMap, repr: set<Node>)
    reads repr`children
  {
    && (forall p | p in nodes :: nodes[p] in repr && nodes[p].path == p)
    && (forall p, l {:trigger l in nodes[p].children} {:trigger nodes[p].children[l]}
          | p in nodes && l in nodes[p].children ::
          Sub(p, l) in nodes && nodes[p].children[l] == nodes[Sub(p, l)])
    && (forall p, l {:trigger Sub(p, l) in nodes} | Sub(p, l) in nodes :: p in nodes && l in nodes[p].children)
    && Root in nodes
  }

  /** The terminal nodes are exactly those of the stored paths. */
  ghost predicate Marked(nodes: NodeMap, repr: set<Node>, paths: set<Path>)
    reads repr`terminal
  {
    && (forall p | p in nodes && nodes[p] in repr :: nodes[p].terminal <==> p in paths)
    && (forall p | p in paths :: p in nodes)
  }

  /** The declarative meaning of a lookup: some stored path is a prefix of the name's labels. */
  ghost predicate Matches(paths: set<Path>, labels: seq<string>) {
    exists k | 0 <= k <= |labels| :: PathOf(labels, k) in paths
  }

  // ----- subtrees

  /** `q` is `p` or lies below it. */
  ghost predicate Under(p: Path, q: Path) {
    p == q || (q.Sub? && Under(p, q.parent))
  }

  ghost function Below(keys: set<Path>, p: Path): set<Path> {
    set q | q in keys && Under(p, q)
  }

  ghost function Depth(p: Path): nat { if p.Root? then 0 else 1 + Depth(p.parent) }

  lemma {:induction false} UnderDepth(p: Path, q: Path)
    requires Under(p, q)
    ensures Depth(p) <= Depth(q) && (Depth(p) == Depth(q) ==> p == q)
  {
    if p != q { UnderDepth(p, q.parent); }
  }

  lemma {:induction false} UnderChild(p: Path, l: string, q: Path)
    requires Under(Sub(p, l), q)
    ensures Under(p, q) && q != p
    decreases q
  {
    UnderDepth(Sub(p, l), q);
    if q == Sub(p, l) { assert Under(p, q.parent); } else { UnderChild(p, l, q.parent); }
  }

  /** Below `p` and not `p` means below a child of `p`. */
  lemma {:induction false} UnderSplit(p: Path, q: Path) returns (l: string)
    requires Under(p, q) && p != q
    ensures Under(Sub(p, l), q)
  {
    if q.parent == p { l := q.part; } else { l := UnderSplit(p, q.parent); }
  }

  lemma {:induction false} BranchesDisjoint(p: Path, l: string, m: string, q: Path)
    requires Under(Sub(p, l), q) && Under(Sub(p, m), q)
    ensures l == m
    decreases q
  {
    UnderDepth(Sub(p, l), q);
    UnderDepth(Sub(p, m), q);
    if q != Sub(p, l) && q != Sub(p, m) { BranchesDisjoint(p, l, m, q.parent); }
  }

  lemma {:induction false} AllUnderRoot(q: Path)
    ensures Under(Root, q)
  {
    if q.Sub? { AllUnderRoot(q.parent); }
  }

  /** The subtree of a child is strictly smaller. */
  lemma ChildSmaller(keys: set<Path>, p: Path, l: string)
    requires p in keys
    ensures Below(keys, Sub(p, l)) < Below(keys, p)
  {
    forall q | q in Below(keys, Sub(p, l)) ensures q in Below(keys, p) && q != p { UnderChild(p, l, q); }
    assert p in Below(keys, p);
  }

  lemma {:induction false} AncestorListed(nodes: NodeMap, repr: set<Node>, p: Path, q: Path)
    requires Linked(nodes, repr) && q in nodes && Under(p, q)
    ensures p in nodes
  {
    if p != q {
      assert Sub(q.parent, q.part) in nodes;
      AncestorListed(nodes, repr, p, q.parent);
    }
  }

  /** A listed path below `p` goes through one of the children `p` really has. */
  lemma ChildTowards(nodes: NodeMap, repr: set<Node>, p: Path, q: Path) returns (l: string)
    requires Linked(nodes, repr) && q in nodes && Under(p, q) && p != q
    ensures Under(Sub(p, l), q) && p in nodes && l in nodes[p].children
  {
    l := UnderSplit(p, q);
    AncestorListed(nodes, repr, Sub(p, l), q);
  }

  /** Prefixes of a listed path are listed. */
  lemma {:induction false} PrefixListed(nodes: NodeMap, repr: set<Node>, labels: seq<string>, i: nat, k: nat)
    requires Linked(nodes, repr) && i <= k <= |labels| && PathOf(labels, k) in nodes
    ensures PathOf(labels, i) in nodes
    decreases k
  {
    if i < k {
      assert Sub(PathOf(labels, k - 1), labels[k - 1]) in nodes;
      PrefixListed(nodes, repr, labels, i, k - 1);
    }
  }

  /** Past a missing child nothing is listed. */
  lemma Unreachable(nodes: NodeMap, repr: set<Node>, labels: seq<string>, i: nat)
    requires Linked(nodes, repr) && i < |labels|
    requires PathOf(labels, i) in nodes && labels[i] !in nodes[PathOf(labels, i)].children
    ensures forall k | i < k <= |labels| :: PathOf(labels, k) !in nodes
  {
    assert PathOf(labels, i + 1) == Sub(PathOf(labels, i), labels[i]);
    assert PathOf(labels, i + 1) !in nodes;
    forall k | i < k <= |labels| ensures PathOf(labels, k) !in nodes {
      if PathOf(labels, k) in nodes { PrefixListed(nodes, repr, labels, i + 1, k); }
    }
  }

  // ----- copying

  /** The node of `copy` under `q` is a twin of the one in `nodes`, with its links inside `copy`. */
  ghost predicate Twin(nodes: NodeMap, copy: NodeMap, copies: set<Node>, q: Path)
    requires q in copy && q in nodes
    reads nodes[q], copies
  {
    && copy[q] in copies && copy[q].path == q
    && copy[q].terminal == nodes[q].terminal
    && copy[q].children.Keys == nodes[q].children.Keys
    && forall l {:trigger copy[q].children[l]} | l in copy[q].children ::
         Sub(q, l) in copy && copy[q].children[l] == copy[Sub(q, l)]
  }

  ghost predicate Mirrors(nodes: NodeMap, repr: set<Node>, copy: NodeMap, copies: set<Node>)
    reads repr, copies
  {
    forall q | q in copy :: q in nodes && nodes[q] in repr && Twin(nodes, copy, copies, q)
  }

  /** Twins of disjoint parts are twins together. */
  lemma MirrorsUnion(nodes: NodeMap, repr: set<Node>, a: NodeMap, as': set<Node>, b: NodeMap, bs: set<Node>)
    requires Mirrors(nodes, repr, a, as') && Mirrors(nodes, repr, b, bs) && a.Keys !! b.Keys
    ensures Mirrors(nodes, repr, a + b, as' + bs)
  {
    forall q | q in a + b ensures q in nodes && nodes[q] in repr && Twin(nodes, a + b, as' + bs, q) {
      assert if q in b then Twin(nodes, b, bs, q) else Twin(nodes, a, as', q);
    }
  }

  lemma MirrorsPlus(nodes: NodeMap, repr: set<Node>, twins: NodeMap, copies: set<Node>, p: Path, c: Node)
    requires Mirrors(nodes, repr, twins, copies) && p in nodes && nodes[p] in repr && p !in twins
    requires c.path == p && c.terminal == nodes[p].terminal && c.children.Keys == nodes[p].children.Keys
    requires forall l {:trigger c.children[l]} | l in c.children ::
      Sub(p, l) in twins && c.children[l] == twins[Sub(p, l)]
    ensures Mirrors(nodes, repr, twins[p := c], copies + {c})
  {
    var copy := twins[p := c];
    forall q | q in copy ensures q in nodes && nodes[q] in repr && Twin(nodes, copy, copies + {c}, q) {
      if q != p { assert Twin(nodes, twins, copies, q); }
    }
  }

  /** None of these paths lies in the branch of `p` under one of these labels. */
  ghost predicate Avoids(keys: set<Path>, p: Path, ls: set<string>) {
    forall q, l | q in keys && l in ls :: !Under(Sub(p, l), q)
  }

  ghost predicate StrictlyBelow(keys: set<Path>, p: Path) {
    forall q | q in keys :: Under(p, q) && q != p
  }

  /** What a branch adds keeps away from the branches still to come. */
  lemma AvoidsMore(a: set<Path>, b: set<Path>, p: Path, l: string, ls: set<string>)
    requires l in ls && Avoids(a, p, ls) && StrictlyBelow(a, p)
    requires forall q | q in b :: Under(Sub(p, l), q)
    ensures a !! b && Avoids(a + b, p, ls - {l}) && StrictlyBelow(a + b, p)
  {
    forall q, m | q in b && m in ls - {l} ensures !Under(Sub(p, m), q) {
      if Under(Sub(p, m), q) { BranchesDisjoint(p, l, m, q); }
    }
    forall q | q in b ensures Under(p, q) && q != p { UnderChild(p, l, q); }
  }

  /** Clones the subtree at `n`. */
  method CloneNode(n: Node, ghost nodes: NodeMap, ghost repr: set<Node>, ghost p: Path)
    returns (c: Node, ghost copy: NodeMap, ghost copies: set<Node>)
    requires Linked(nodes, repr) && p in nodes && nodes[p] == n
    ensures p in copy && copy[p] == c && (forall q | q in copy :: Under(p, q))
    ensures Mirrors(nodes, repr, copy, copies) && fresh(copies)
    decreases Below(nodes.Keys, p)
  {
    var kids, twins, made := CloneChildren(n, nodes, repr, p);
    c := new Node.Copy(n.terminal, kids, p);
    MirrorsPlus(nodes, repr, twins, made, p, c);
    copy, copies := twins[p := c], made + {c};
  }

  method CloneChildren(n: Node, ghost nodes: NodeMap, ghost repr: set<Node>, ghost p: Path)
    returns (kids: map<string, Node>, ghost copy: NodeMap, ghost copies: set<Node>)
    requires Linked(nodes, repr) && p in nodes && nodes[p] == n
    ensures kids.Keys == n.children.Keys && StrictlyBelow(copy.Keys, p)
    ensures forall l {:trigger kids[l]} | l in kids :: Sub(p, l) in copy && kids[l] == copy[Sub(p, l)]
    ensures Mirrors(nodes, repr, copy, copies) && fresh(copies)
    decreases Below(nodes.Keys, p), 0
  {
    kids, copy, copies := map[], map[], {};
    var rest := n.children.Keys;
    while rest != {}
      invariant rest <= n.children.Keys && kids.Keys == n.children.Keys - rest
      invariant Avoids(copy.Keys, p, rest) && StrictlyBelow(copy.Keys, p)
      invariant forall l {:trigger kids[l]} | l in kids :: Sub(p, l) in copy && kids[l] == copy[Sub(p, l)]
      invariant Mirrors(nodes, repr, copy, copies) && fresh(copies)
    {
      var l :| l in rest;
      ChildSmaller(nodes.Keys, p, l);
      var child, twin, made := CloneNode(n.children[l], nodes, repr, Sub(p, l));
      AvoidsMore(copy.Keys, twin.Keys, p, l, rest);
      MirrorsUnion(nodes, repr, copy, copies, twin, made);
      rest := rest - {l};
      kids := kids[l := child];
      copy, copies := copy + twin, copies + made;
    }
  }

  /** A copy that holds the root holds every node, because twins have the same children. */
  lemma {:induction false} CopyIsComplete(nodes: NodeMap, repr: set<Node>, copy: NodeMap, copies: set<Node>, q: Path)
    requires Linked(nodes, repr) && Mirrors(nodes, repr, copy, copies) && Root in copy && q in nodes
    ensures q in copy
    decreases q
  {
    if q.Sub? {
      assert Sub(q.parent, q.part) in nodes;
      CopyIsComplete(nodes, repr, copy, copies, q.parent);
      assert Twin(nodes, copy, copies, q.parent);
      assert copy[q.parent].children[q.part] == copy[Sub(q.parent, q.part)];
    }
  }

  lemma CopyIsLinked(nodes: NodeMap, repr: set<Node>, copy: NodeMap, copies: set<Node>, paths: set<Path>)
    requires Linked(nodes, repr) && Marked(nodes, repr, paths) && Mirrors(nodes, repr, copy, copies) && Root in copy
    ensures Linked(copy, copies) && Marked(copy, copies, paths)
  {
    forall q | q in nodes ensures q in copy { CopyIsComplete(nodes, repr, copy, copies, q); }
    forall q | q in copy ensures q in nodes && Twin(nodes, copy, copies, q) {}
  }

  // ----- listing

  /** The domain name a path spells. */
  ghost function NameOf(p: Path): string { DomainFromLabels(LabelsOf(p)) }

  predicate Contains(s: string, sub: string) {
    sub <= s || (s != [] && Contains(s[1..], sub))
  }

  predicate OccursAt(s: string, sub: string, i: nat) {
    i + |sub| <= |s| && s[i..i + |sub|] == sub
  }

  lemma {:induction false} ContainsIffOccurs(s: string, sub: string)
    ensures Contains(s, sub) <==> exists i: nat :: OccursAt(s, sub, i)
  {
    if sub <= s {
      assert OccursAt(s, sub, 0);
    } else if s != [] {
      ContainsIffOccurs(s[1..], sub);
      if i: nat :| OccursAt(s[1..], sub, i) { assert OccursAt(s, sub, i + 1); }
      if i: nat :| OccursAt(s, sub, i) { assert OccursAt(s[1..], sub, i - 1); }
    }
  }

  predicate Kept(query: string, domain: string) { query == "" || Contains(domain, query) }

  ghost predicate Named(out: seq<string>, paths: seq<Path>) {
    |out| == |paths| && forall i | 0 <= i < |out| :: out[i] == NameOf(paths[i])
  }

  /** `q` lies in a branch of `p` that is still to be visited. */
  ghost predicate Ahead(p: Path, keys: seq<string>, i: nat, q: Path) {
    exists j | i <= j < |keys| :: Under(Sub(p, keys[j]), q)
  }

  /** Moving past branch `i` leaves the later ones ahead. */
  lemma AheadStep(p: Path, keys: seq<string>, i: nat, q: Path)
    requires i < |keys| && NoDuplicates(keys)
    ensures Ahead(p, keys, i, q) <==> Under(Sub(p, keys[i]), q) || Ahead(p, keys, i + 1, q)
    ensures Under(Sub(p, keys[i]), q) ==> !Ahead(p, keys, i + 1, q)
  {
    if Under(Sub(p, keys[i]), q) {
      forall j | i + 1 <= j < |keys| ensures !Under(Sub(p, keys[j]), q) {
        if Under(Sub(p, keys[j]), q) { BranchesDisjoint(p, keys[i], keys[j], q); }
      }
    }
  }

  /** Some stored path is `p` itself or `p` with some more of the labels. */
  ghost predicate MatchesFrom(paths: set<Path>, p: Path, labels: seq<string>)
    decreases |labels|
  {
    p in paths || (labels != [] && MatchesFrom(paths, Sub(p, labels[0]), labels[1..]))
  }

  /** Below a path that is not listed nothing is stored. */
  lemma {:induction false} NothingBelow(nodes: NodeMap, repr: set<Node>, paths: set<Path>, p: Path, labels: seq<string>)
    requires Linked(nodes, repr) && Marked(nodes, repr, paths) && p !in nodes
    ensures !MatchesFrom(paths, p, labels)
    decreases |labels|
  {
    assert p !in paths;
    if labels != [] {
      assert Sub(p, labels[0]) !in nodes;
      NothingBelow(nodes, repr, paths, Sub(p, labels[0]), labels[1..]);
    }
  }

  /** A stored prefix is found by following the labels one by one ... */
  lemma {:induction false} FoundFrom(paths: set<Path>, labels: seq<string>, i: nat, k: nat)
    requires i <= k <= |labels| && PathOf(labels, k) in paths
    ensures MatchesFrom(paths, PathOf(labels, i), labels[i..])
    decreases k - i
  {
    if i < k {
      FoundFrom(paths, labels, i + 1, k);
      assert labels[i..][0] == labels[i] && labels[i..][1..] == labels[i + 1..];
      assert PathOf(labels, i + 1) == Sub(PathOf(labels, i), labels[i]);
    }
  }

  /** ... and what is found that way is a stored prefix. */
  lemma {:induction false} FoundIsPrefix(paths: set<Path>, labels: seq<string>, i: nat) returns (k: nat)
    requires i <= |labels| && MatchesFrom(paths, PathOf(labels, i), labels[i..])
    ensures i <= k <= |labels| && PathOf(labels, k) in paths
    decreases |labels| - i
  {
    if PathOf(labels, i) in paths { return i; }
    assert labels[i..][0] == labels[i] && labels[i..][1..] == labels[i + 1..];
    assert PathOf(labels, i + 1) == Sub(PathOf(labels, i), labels[i]);
    k := FoundIsPrefix(paths, labels, i + 1);
  }

  lemma MatchesFromRoot(paths: set<Path>, labels: seq<string>)
    ensures MatchesFrom(paths, Root, labels) <==> Matches(paths, labels)
  {
    assert PathOf(labels, 0) == Root && labels[0..] == labels;
    if Matches(paths, labels) {
      var k :| 0 <= k <= |labels| && PathOf(labels, k) in paths;
      FoundFrom(paths, labels, 0, k);
    }
    if MatchesFrom(paths, Root, labels) {
      var k := FoundIsPrefix(paths, labels, 0);
      assert PathOf(labels, k) in paths;
    }
  }

  class Domains {
    const root: Node
    var size: nat
    /** The stored paths. */
    ghost var paths: set<Path>
    /** All nodes, also those of dead branches. */
    ghost var nodes: NodeMap
    ghost var repr: set<Node>

    ghost predicate Valid()
      reads this, repr
    {
      && Linked(nodes, repr)
      && Marked(nodes, repr, paths)
      && nodes[Root] == root
      && size == |paths|
    }

    constructor ()
      ensures Valid() && paths == {} && fresh(repr)
    {
      var n := new Node(Root);
      root, size, paths, nodes, repr := n, 0, {}, map[Root := n], {n};
    }

    constructor FromCopy(root: Node, size: nat, ghost paths: set<Path>, ghost nodes: NodeMap, ghost repr: set<Node>)
      requires Linked(nodes, repr) && Marked(nodes, repr, paths) && nodes[Root] == root && size == |paths|
      ensures Valid() && this.paths == paths && this.repr == repr
    {
      this.root, this.size, this.paths, this.nodes, this.repr := root, size, paths, nodes, repr;
    }

    /** Hangs a new node below `cur`. */
    method NewChild(cur: Node, part: string, ghost p: Path) returns (next: Node)
      requires Linked(nodes, repr) && Marked(nodes, repr, paths) && p in nodes && nodes[p] == cur
        && part !in cur.children
      modifies this`nodes, this`repr, cur`children
      ensures Linked(nodes, repr) && Marked(nodes, repr, paths)
      ensures fresh(next) && nodes == old(nodes)[Sub(p, part) := next] && repr == old(repr) + {next}
    {
      next := new Node(Sub(p, part));
      assert Sub(p, part) !in nodes;
      Hang(cur, part, next, p);
    }

    method Hang(cur: Node, part: string, next: Node, ghost p: Path)
      requires Linked(nodes, repr) && p in nodes && nodes[p] == cur && part !in cur.children
      requires next !in repr && next.path == Sub(p, part) && next.children == map[]
      modifies this`nodes, this`repr, cur`children
      ensures Linked(nodes, repr)
      ensures nodes == old(nodes)[Sub(p, part) := next] && repr == old(repr) + {next}
    {
      ghost var q := Sub(p, part);
      assert q !in nodes;
      cur.children := cur.children[part := next];
      nodes, repr := nodes[q := next], repr + {next};
      forall r, l | r in nodes && l in nodes[r].children
        ensures Sub(r, l) in nodes && nodes[r].children[l] == nodes[Sub(r, l)]
      {
        assert r != q && (nodes[r] == cur <==> r == p);
      }
      forall r, l | Sub(r, l) in nodes ensures r in nodes && l in nodes[r].children {
        assert Sub(r, l) != q ==> l in old(nodes[r].children);
      }
    }

    /** Follows or creates the child of `cur` for one label. */
    method Descend(cur: Node, part: string, ghost p: Path) returns (next: Node)
      requires Valid() && p in nodes && nodes[p] == cur
      modifies this`nodes, this`repr, cur`children
      ensures Valid()
      ensures Sub(p, part) in nodes && nodes[Sub(p, part)] == next
      ensures repr >= old(repr) && fresh(repr - old(repr))
    {
      if part in cur.children {
        next := cur.children[part];
      } else {
        next := NewChild(cur, part, p);
      }
    }

    /** Marks the node of a path that was not stored. */
    method Mark(cur: Node, ghost p: Path)
      requires Valid() && p in nodes && nodes[p] == cur && !cur.terminal
      modifies this`paths, this`size, cur`terminal
      ensures Valid() && paths == old(paths) + {p}
    {
      assert p !in paths;
      SetMark(cur, true, p);
      size, paths := size + 1, paths + {p};
    }

    method SetMark(cur: Node, terminal: bool, ghost p: Path)
      requires Linked(nodes, repr) && Marked(nodes, repr, paths) && p in nodes && nodes[p] == cur
      modifies cur`terminal
      ensures Linked(nodes, repr) && Marked(nodes, repr, if terminal then paths + {p} else paths - {p})
    {
      assert forall r | r in nodes && r != p :: nodes[r] != cur;
      cur.terminal := terminal;
    }

    /** Unmarks the node of a stored path. */
    method Unmark(cur: Node, ghost p: Path)
      requires Valid() && p in nodes && nodes[p] == cur && cur.terminal
      modifies this`paths, this`size, cur`terminal
      ensures Valid() && paths == old(paths) - {p}
    {
      assert p in paths;
      SetMark(cur, false, p);
      size, paths := size - 1, paths - {p};
    }

    /** Walks down, creating what is missing. */
    method Grow(labels: seq<string>) returns (cur: Node)
      requires Valid()
      modifies this`nodes, this`repr, repr`children
      ensures Valid() && FullPath(labels) in nodes && nodes[FullPath(labels)] == cur
      ensures repr >= old(repr) && fresh(repr - old(repr))
    {
      cur := root;
      for i := 0 to |labels|
        invariant Valid() && PathOf(labels, i) in nodes && nodes[PathOf(labels, i)] == cur
        invariant repr >= old(repr) && fresh(repr - old(repr))
      {
        cur := Descend(cur, labels[i], PathOf(labels, i));
      }
    }

    /** Inserts a path; tells whether it was new. */
    method AddPath(labels: seq<string>) returns (added: bool)
      requires Valid()
      modifies this`paths, this`nodes, this`repr, this`size, repr
      ensures Valid() && paths == old(paths) + {FullPath(labels)}
      ensures added <==> FullPath(labels) !in old(paths)
      ensures repr >= old(repr) && fresh(repr - old(repr))
    {
      var cur := Grow(labels);
      added := !cur.terminal;
      if added { Mark(cur, FullPath(labels)); }
    }

    method MatchPath(labels: seq<string>) returns (found: bool)
      requires Valid()
      ensures found <==> Matches(paths, labels)
    {
      var cur := root;
      ghost var p := Root;
      MatchesFromRoot(paths, labels);
      assert labels[0..] == labels;
      for i := 0 to |labels|
        invariant p in nodes && nodes[p] == cur
        invariant Matches(paths, labels) <==> MatchesFrom(paths, p, labels[i..])
      {
        if cur.terminal { return true; }
        assert labels[i..][0] == labels[i] && labels[i..][1..] == labels[i + 1..];
        if labels[i] !in cur.children {
          NothingBelow(nodes, repr, paths, Sub(p, labels[i]), labels[i + 1..]);
          return false;
        }
        cur := cur.children[labels[i]];
        p := Sub(p, labels[i]);
      }
      found := cur.terminal;
    }

    /** Removes a path; dead branches stay behind. */
    method DeletePath(labels: seq<string>) returns (deleted: bool)
      requires Valid()
      modifies this`paths, this`size, repr`terminal
      ensures Valid() && paths == old(paths) - {FullPath(labels)}
      ensures deleted <==> FullPath(labels) in old(paths)
    {
      var cur := root;
      for i := 0 to |labels|
        invariant PathOf(labels, i) in nodes && nodes[PathOf(labels, i)] == cur
      {
        if labels[i] !in cur.children {
          Unreachable(nodes, repr, labels, i);
          return false;
        }
        cur := cur.children[labels[i]];
      }
      deleted := cur.terminal;
      if deleted { Unmark(cur, FullPath(labels)); }
    }

    /** An independent copy. */
    method Clone() returns (d: Domains)
      requires Valid()
      ensures fresh(d) && d.Valid() && fresh(d.repr) && d.paths == paths
    {
      var r, copy, copies := CloneNode(root, nodes, repr, Root);
      CopyIsLinked(nodes, repr, copy, copies, paths);
      d := new Domains.FromCopy(r, size, paths, copy, copies);
    }

    ghost predicate Wanted(p: Path, query: string, q: Path)
      reads this`paths
    {
      q in paths && Under(p, q) && Kept(query, NameOf(q))
    }

    /** `qs` extends `prior` by wanted paths of the subtree at `p`, each once. */
    ghost predicate Collected(p: Path, query: string, prior: seq<Path>, qs: seq<Path>)
      reads this`paths
    {
      && prior <= qs && NoDuplicates(qs)
      && forall j | |prior| <= j < |qs| :: Wanted(p, query, qs[j])
    }

    /** A visit of the subtree at `p` collects all that is wanted there, unless it reaches the limit. */
    ghost predicate Visited(p: Path, query: string, limit: nat, prior: seq<Path>, qs: seq<Path>)
      reads this`paths
    {
      && Collected(p, query, prior, qs)
      && (|qs| <= limit || qs == prior)
      && (|qs| < limit ==> forall q | Wanted(p, query, q) :: q in qs)
    }

    /** Between two children: what is wanted is collected or ahead, and nothing ahead is collected. */
    ghost predicate Progress(p: Path, query: string, keys: seq<string>, i: nat, prior: seq<Path>, qs: seq<Path>)
      reads this`paths
    {
      && Collected(p, query, prior, qs)
      && (forall q | q in qs :: !Ahead(p, keys, i, q))
      && (forall q | Wanted(p, query, q) :: q in qs || Ahead(p, keys, i, q))
    }

    lemma ProgressStart(p: Path, query: string, keys: seq<string>, prior: seq<Path>, qs: seq<Path>)
      requires Valid() && p in nodes && forall k :: k in keys <==> k in nodes[p].children
      requires Collected(p, query, prior, qs) && (qs == prior || qs == prior + [p])
      requires (forall q | q in prior :: !Under(p, q)) && (Wanted(p, query, p) ==> p in qs)
      ensures Progress(p, query, keys, 0, prior, qs)
    {
      forall q | q in qs ensures !Ahead(p, keys, 0, q) {
        forall j | 0 <= j < |keys| ensures !Under(Sub(p, keys[j]), q) {
          if Under(Sub(p, keys[j]), q) { UnderChild(p, keys[j], q); }
        }
      }
      forall q | Wanted(p, query, q) && q != p ensures Ahead(p, keys, 0, q) {
        var l := ChildTowards(nodes, repr, p, q);
        var j :| 0 <= j < |keys| && keys[j] == l;
      }
    }

    lemma ProgressStep(p: Path, query: string, limit: nat, keys: seq<string>, i: nat, prior: seq<Path>,
                       before: seq<Path>, qs: seq<Path>)
      requires i < |keys| && NoDuplicates(keys)
      requires Progress(p, query, keys, i, prior, before)
      requires Visited(Sub(p, keys[i]), query, limit, before, qs)
      ensures Collected(p, query, prior, qs)
      ensures |qs| < limit ==> Progress(p, query, keys, i + 1, prior, qs)
    {
      var c := Sub(p, keys[i]);
      forall j | |prior| <= j < |qs| ensures Wanted(p, query, qs[j]) {
        if j >= |before| { UnderChild(p, keys[i], qs[j]); } else { assert qs[j] == before[j]; }
      }
      forall q ensures Ahead(p, keys, i, q) <==> Under(c, q) || Ahead(p, keys, i + 1, q)
               ensures Under(c, q) ==> !Ahead(p, keys, i + 1, q)
      {
        AheadStep(p, keys, i, q);
      }
      forall q | q in qs ensures !Ahead(p, keys, i + 1, q) {
        var j :| 0 <= j < |qs| && qs[j] == q;
        if j < |before| { assert before[j] == q && q in before; } else { assert Wanted(c, query, qs[j]); }
      }
      if |qs| < limit {
        forall q | Wanted(p, query, q) && !Ahead(p, keys, i + 1, q) ensures q in qs {
          if q in before {
            var j :| 0 <= j < |before| && before[j] == q;
            assert qs[j] == q;
          } else {
            assert Wanted(c, query, q);
          }
        }
      }
    }

    method EntriesBelow(n: Node, labels: seq<string>, query: string, limit: nat, out: seq<string>,
                        ghost p: Path, ghost prior: seq<Path>)
      returns (r: seq<string>, ghost qs: seq<Path>)
      requires Valid() && p in nodes && nodes[p] == n && labels == LabelsOf(p)
      requires Named(out, prior) && NoDuplicates(prior) && forall q | q in prior :: !Under(p, q)
      ensures Named(r, qs) && Visited(p, query, limit, prior, qs)
      decreases Below(nodes.Keys, p), 1
    {
      r, qs := out, prior;
      if |r| >= limit { return; }
      if n.terminal {
        var domain := DomainFromLabels(labels);
        if Kept(query, domain) {
          assert p !in prior;
          r, qs := r + [domain], qs + [p];
          if |r| >= limit { return; }
        }
      }
      var keys := SortedKeys(n.children.Keys);
      ProgressStart(p, query, keys, prior, qs);
      r, qs := EntriesOfChildren(n, keys, labels, query, limit, r, p, prior, qs);
    }

    method EntriesOfChildren(n: Node, keys: seq<string>, labels: seq<string>, query: string, limit: nat,
                             out: seq<string>,
                             ghost p: Path, ghost prior: seq<Path>, ghost start: seq<Path>)
      returns (r: seq<string>, ghost qs: seq<Path>)
      requires Valid() && p in nodes && nodes[p] == n && labels == LabelsOf(p)
      requires NoDuplicates(keys) && forall k :: k in keys <==> k in n.children
      requires Named(out, start) && |start| < limit
      requires Progress(p, query, keys, 0, prior, start)
      ensures Named(r, qs) && Visited(p, query, limit, prior, qs)
      decreases Below(nodes.Keys, p), 0
    {
      r, qs := out, start;
      var i := 0;
      while i < |keys|
        invariant 0 <= i <= |keys|
        invariant Named(r, qs) && |qs| < limit && Progress(p, query, keys, i, prior, qs)
      {
        var k := keys[i];
        ghost var before := qs;
        ChildSmaller(nodes.Keys, p, k);
        forall q | q in qs ensures !Under(Sub(p, k), q) { AheadStep(p, keys, i, q); }
        r, qs := EntriesBelow(n.children[k], labels + [k], query, limit, r, Sub(p, k), qs);
        ProgressStep(p, query, limit, keys, i, prior, before, qs);
        if |r| >= limit { return; }
        i := i + 1;
      }
    }

    // ----- the operations on domain strings

    method AddLabels(labels: Option<seq<string>>) returns (added: bool)
      requires Valid()
      modifies this`paths, this`nodes, this`repr, this`size, repr
      ensures Valid() && paths == Added(old(paths), labels)
      ensures added <==> labels.Some? && FullPath(labels.value) !in old(paths)
      ensures repr >= old(repr) && fresh(repr - old(repr))
    {
      if labels.None? { return false; }
      added := AddPath(labels.value);
    }

    method DeleteLabels(labels: Option<seq<string>>) returns (deleted: bool)
      requires Valid()
      modifies this`paths, this`size, repr`terminal
      ensures Valid() && paths == Deleted(old(paths), labels)
      ensures deleted <==> labels.Some? && FullPath(labels.value) in old(paths)
    {
      if labels.None? { return false; }
      deleted := DeletePath(labels.value);
    }

    method Add(lib: Library, domain: string) returns (added: bool)
      requires Valid()
      modifies this`paths, this`nodes, this`repr, this`size, repr
      ensures Valid() && paths == Added(old(paths), LabelsFor(lib, domain))
      ensures added <==> paths != old(paths)
      ensures repr >= old(repr) && fresh(repr - old(repr))
    {
      var labels := ComputeLabels(lib, domain);
      added := AddLabels(labels);
      ChangedIffNew(old(paths), labels);
    }

    method Delete(lib: Library, domain: string) returns (deleted: bool)
      requires Valid()
      modifies this`paths, this`size, repr`terminal
      ensures Valid() && paths == Deleted(old(paths), LabelsFor(lib, domain))
      ensures deleted <==> paths != old(paths)
    {
      var labels := ComputeLabels(lib, domain);
      deleted := DeleteLabels(labels);
      ChangedIffNew(old(paths), labels);
    }

    method Match(lib: Library, domain: string) returns (found: bool)
      requires Valid()
      ensures found <==> Matching(lib, paths, domain)
    {
      var labels := ComputeLabels(lib, domain);
      if labels.None? { return false; }
      found := MatchPath(labels.value);
    }

    method Len() returns (n: nat)
      requires Valid()
      ensures n == |paths|
    {
      n := size;
    }

    /** Lists stored names containing `query`: each once, and all of them unless the limit is reached. */
    method Entries(lib: Library, query: string, limit: int) returns (out: seq<string>)
      requires Valid() && WellNamed(paths)
      ensures NoDuplicates(out)
      ensures forall d | d in out :: exists p | p in paths :: d == NameOf(p) && Kept(Query(lib, query), d)
      ensures |out| <= Limit(limit)
      ensures |out| < Limit(limit) ==> forall p | p in paths && Kept(Query(lib, query), NameOf(p)) :: NameOf(p) in out
      ensures Exhausts(out, Wanting(paths, Query(lib, query)), Limit(limit))
    {
      var q := ToLower(lib, TrimSpace(lib, TrimDot(query)));
      var max := if limit <= 0 || limit > 1000 then 1000 else limit;
      ghost var qs;
      out, qs := EntriesBelow(root, [], q, max, [], Root, []);
      EntriesMeaning(q, max, out, qs);
      ListingIsExact(Wanting(paths, q), out, max);
    }

    lemma EntriesMeaning(query: string, max: nat, out: seq<string>, qs: seq<Path>)
      requires WellNamed(paths) && Named(out, qs) && Visited(Root, query, max, [], qs)
      ensures NoDuplicates(out)
      ensures forall d | d in out :: exists p | p in paths :: d == NameOf(p) && Kept(query, d)
      ensures |out| < max ==> forall p | p in paths && Kept(query, NameOf(p)) :: NameOf(p) in out
    {
      assert forall i | 0 <= i < |qs| :: Wanted(Root, query, qs[i]);
      NamesDistinct(paths, out, qs);
      if |out| < max {
        forall p | p in paths && Kept(query, NameOf(p)) ensures NameOf(p) in out {
          AllUnderRoot(p);
          assert Wanted(Root, query, p);
          var i :| 0 <= i < |qs| && qs[i] == p;
        }
      }
    }
  }

  function Query(lib: Library, query: string): string { ToLower(lib, TrimSpace(lib, TrimDot(query))) }

  function Limit(limit: int): int { if limit <= 0 || limit > 1000 then 1000 else limit }

  /** What a lookup of a domain string means on a set of paths; a string that does not normalise matches nothing. */
  ghost predicate Matching(lib: Library, paths: set<Path>, domain: string) {
    LabelsFor(lib, domain).Some? && Matches(paths, LabelsFor(lib, domain).value)
  }

  /** What adding a string with these labels does to a set of paths; one without labels adds nothing. */
  ghost function Added(paths: set<Path>, labels: Option<seq<string>>): set<Path> {
    match labels
    case None => paths
    case Some(ls) => paths + {FullPath(ls)}
  }

  ghost function Deleted(paths: set<Path>, labels: Option<seq<string>>): set<Path> {
    match labels
    case None => paths
    case Some(ls) => paths - {FullPath(ls)}
  }

  /** Adding changes the set exactly when the path is new, deleting exactly when it is stored. */
  lemma ChangedIffNew(paths: set<Path>, labels: Option<seq<string>>)
    ensures Added(paths, labels) != paths <==> labels.Some? && FullPath(labels.value) !in paths
    ensures Deleted(paths, labels) != paths <==> labels.Some? && FullPath(labels.value) in paths
  {
    if labels.Some? {
      var p := FullPath(labels.value);
      if p in paths { assert paths + {p} == paths; } else { assert paths - {p} == paths; }
    }
  }

  /** Every stored path spells a proper name; domain strings only ever add such paths. */
  ghost predicate WellNamed(paths: set<Path>) {
    forall p | p in paths :: p.Sub? && ValidLabels(LabelsOf(p))
  }

  lemma AddedWellNamed(lib: Library, paths: set<Path>, domain: string)
    requires WellNamed(paths)
    ensures WellNamed(Added(paths, LabelsFor(lib, domain))) && WellNamed(Deleted(paths, LabelsFor(lib, domain)))
  {
    var labels := LabelsFor(lib, domain);
    if labels.Some? {
      LabelsRoundTrip(lib, domain);
      FullPathWellNamed(labels.value);
    }
  }

  /** The names of the first `k` labels: the last parts of the whole name. */
  lemma NameOfFirst(parts: seq<string>, k: nat)
    requires 0 < k <= |parts|
    ensures NameOf(PathOf(Reversed(parts), k)) == Join(parts[|parts| - k..])
  {
    LabelsOfPathOf(Reversed(parts), k);
    assert Reversed(Reversed(parts)[..k]) == parts[|parts| - k..];
  }

  lemma PathOfTail(parts: seq<string>, head: seq<string>, p: Path)
    requires parts == head + Reversed(LabelsOf(p))
    ensures PathOf(Reversed(parts), |LabelsOf(p)|) == p && |LabelsOf(p)| <= |parts|
  {
    var labels, k := Reversed(parts), |LabelsOf(p)|;
    assert labels[..k] == LabelsOf(p);
    PathOfPrefix(labels, LabelsOf(p), k);
    PathOfLabelsOf(p);
  }

  lemma SuffixMatches(paths: set<Path>, name: string, p: Path)
    requires WellNamed(paths) && p in paths && (name == NameOf(p) || EndsWith(name, "." + NameOf(p)))
    ensures Matches(paths, Reversed(Split(name)))
  {
    var labels, tail := LabelsOf(p), "." + NameOf(p);
    assert labels != [] by { assert p.Sub?; }
    SplitOfLabels(labels);
    if name == NameOf(p) {
      PathOfTail(Split(name), [], p);
    } else {
      var head := name[..|name| - |tail|];
      assert name == head + "." + NameOf(p);
      SplitAtDot(head, NameOf(p));
      PathOfTail(Split(name), Split(head), p);
    }
  }

  lemma MatchIsOfSuffix(paths: set<Path>, name: string)
    requires WellNamed(paths) && Matches(paths, Reversed(Split(name)))
    ensures exists p | p in paths :: name == NameOf(p) || EndsWith(name, "." + NameOf(p))
  {
    var parts := Split(name);
    var k :| 0 <= k <= |parts| && PathOf(Reversed(parts), k) in paths;
    var p := PathOf(Reversed(parts), k);
    assert p.Sub?;
    NameOfFirst(parts, k);
    JoinOfLast(parts, |parts| - k);
    JoinSplit(name);
  }

  /** A name is covered exactly when, normalised, it is a stored name or ends with a dot and a stored name. */
  lemma MatchingIsSuffix(lib: Library, paths: set<Path>, domain: string)
    requires WellNamed(paths)
    ensures Matching(lib, paths, domain) <==>
      && NormalizeDomainPattern(lib, domain).Some?
      && var name := TrimWildcard(NormalizeDomainPattern(lib, domain).value);
         exists p | p in paths :: name == NameOf(p) || EndsWith(name, "." + NameOf(p))
  {
    if NormalizeDomainPattern(lib, domain).Some? {
      var name := TrimWildcard(NormalizeDomainPattern(lib, domain).value);
      if Matching(lib, paths, domain) { MatchIsOfSuffix(paths, name); }
      if p :| p in paths && (name == NameOf(p) || EndsWith(name, "." + NameOf(p))) { SuffixMatches(paths, name, p); }
    }
  }

  /** Every stored path spells a name that normalisation leaves as it is. */
  ghost predicate Normalised(lib: Library, paths: set<Path>) {
    forall p | p in paths :: SpellsNormal(lib, p)
  }

  ghost predicate SpellsNormal(lib: Library, p: Path) {
    p.Sub? && NormalizeDomainPattern(lib, NameOf(p)) == Some(NameOf(p))
  }

  /** Domain strings only ever add such paths. */
  lemma AddedNormalised(lib: Library, paths: set<Path>, domain: string)
    requires Normalised(lib, paths)
    ensures Normalised(lib, Added(paths, LabelsFor(lib, domain)))
    ensures Normalised(lib, Deleted(paths, LabelsFor(lib, domain)))
  {
    if LabelsFor(lib, domain).Some? { PathSpellsNormal(lib, domain); }
  }

  lemma PathSpellsNormal(lib: Library, domain: string)
    requires LabelsFor(lib, domain).Some?
    ensures SpellsNormal(lib, FullPath(LabelsFor(lib, domain).value))
  {
    var labels, name := LabelsFor(lib, domain).value, TrimWildcard(NormalizeDomainPattern(lib, domain).value);
    NormalizedIsCanonical(lib, domain);
    CanonicalIsFixed(lib, name);
    LabelsRoundTrip(lib, domain);
    FullPathSpells(labels);
    assert NameOf(FullPath(labels)) == name;
  }

  lemma FullPathSpells(labels: seq<string>)
    requires labels != []
    ensures FullPath(labels).Sub? && NameOf(FullPath(labels)) == DomainFromLabels(labels)
  {
    LabelsOfPathOf(labels, |labels|);
    assert labels[..|labels|] == labels;
  }

  lemma FullPathWellNamed(labels: seq<string>)
    requires labels != [] && ValidLabels(labels)
    ensures WellNamed({FullPath(labels)})
  {
    LabelsOfPathOf(labels, |labels|);
    assert labels[..|labels|] == labels;
  }

  /** Stored paths have different names. */
  lemma NamesDistinct(paths: set<Path>, out: seq<string>, qs: seq<Path>)
    requires WellNamed(paths) && Named(out, qs) && NoDuplicates(qs) && forall i | 0 <= i < |qs| :: qs[i] in paths
    ensures NoDuplicates(out)
  {
    forall i, j | 0 <= i < j < |out| ensures out[i] != out[j] {
      if out[i] == out[j] {
        DomainFromLabelsInjective(LabelsOf(qs[i]), LabelsOf(qs[j]));
        PathOfLabelsOf(qs[i]);
        PathOfLabelsOf(qs[j]);
      }
    }
  }

  /** The stored paths whose names contain the query. */
  ghost function Wanting(paths: set<Path>, query: string): set<Path> {
    set p | p in paths && Kept(query, NameOf(p))
  }

  /** All the wanted names when they fit, exactly `max` of them otherwise. */
  ghost predicate Exhausts(out: seq<string>, wanted: set<Path>, max: nat) {
    && |out| == (if |wanted| <= max then |wanted| else max)
    && (|wanted| <= max ==> forall p | p in wanted :: NameOf(p) in out)
  }

  ghost function NamesOf(paths: set<Path>): set<string> {
    set p | p in paths :: NameOf(p)
  }

  lemma {:induction false} AsManyNames(paths: set<Path>)
    requires WellNamed(paths)
    ensures |NamesOf(paths)| == |paths|
  {
    if paths == {} {
      assert NamesOf(paths) == {};
    } else {
      var p :| p in paths;
      var rest := paths - {p};
      AsManyNames(rest);
      forall q | q in rest ensures NameOf(q) != NameOf(p) {
        if NameOf(q) == NameOf(p) { SameNameSamePath(p, q); }
      }
      assert NamesOf(paths) == NamesOf(rest) + {NameOf(p)};
    }
  }

  lemma SameNameSamePath(p: Path, q: Path)
    requires WellNamed({p, q}) && NameOf(p) == NameOf(q)
    ensures p == q
  {
    DomainFromLabelsInjective(LabelsOf(p), LabelsOf(q));
    PathOfLabelsOf(p);
    PathOfLabelsOf(q);
  }

  lemma {:induction false} DistinctCount(s: seq<string>)
    requires NoDuplicates(s)
    ensures |set x | x in s| == |s|
  {
    if s != [] {
      DistinctCount(s[1..]);
      assert (set x | x in s) == (set x | x in s[1..]) + {s[0]};
    }
  }

  lemma EqualBySize<T>(a: set<T>, b: set<T>)
    requires a <= b && |a| == |b|
    ensures a == b
  {
    if a != b {
      var x :| x in b && x !in a;
      SubsetSize(a + {x}, b);
    }
  }

  /** Distinct names of wanted paths, complete unless there are `max` of them. */
  lemma ListingIsExact(wanted: set<Path>, out: seq<string>, max: nat)
    requires WellNamed(wanted) && NoDuplicates(out) && |out| <= max
    requires forall d | d in out :: d in NamesOf(wanted)
    requires |out| < max ==> forall p | p in wanted :: NameOf(p) in out
    ensures Exhausts(out, wanted, max)
  {
    var listed, names := (set x | x in out), NamesOf(wanted);
    DistinctCount(out);
    AsManyNames(wanted);
    SubsetSize(listed, names);
    if |out| < max { assert listed == names; } else if |names| <= max { EqualBySize(listed, names); }
    if |wanted| <= max {
      forall p | p in wanted ensures NameOf(p) in out { assert NameOf(p) in names; }
    }
  }

  // ----- any number of tries

  /** Operations on numbered tries; `labels` is what the domain string given to them normalises to. */
  datatype Op =
    | NewOp
    | CloneOp(i: nat)
    | AddOp(i: nat, labels: Option<seq<string>>)
    | DeleteOp(i: nat, labels: Option<seq<string>>)

  /** What an operation does to plain sets; one on a trie that does not exist does nothing. */
  ghost function Applied(sets: seq<set<Path>>, op: Op): seq<set<Path>> {
    match op
    case NewOp => sets + [{}]
    case CloneOp(i) => if i < |sets| then sets + [sets[i]] else sets
    case AddOp(i, labels) => if i < |sets| then sets[i := Added(sets[i], labels)] else sets
    case DeleteOp(i, labels) => if i < |sets| then sets[i := Deleted(sets[i], labels)] else sets
  }

  ghost function Replayed(ops: seq<Op>): seq<set<Path>> {
    if ops == [] then [] else Applied(Replayed(ops[..|ops| - 1]), ops[|ops| - 1])
  }

  /** Tries that share no node, all of them within `all`. */
  ghost predicate Separate(tries: seq<Domains>, all: set<Node>)
    reads tries
  {
    && (forall i | 0 <= i < |tries| :: tries[i].repr <= all)
    && (forall i, j | 0 <= i < |tries| && 0 <= j < |tries| && i != j ::
          tries[i] != tries[j] && tries[i].repr !! tries[j].repr)
  }

  ghost predicate Represent(tries: seq<Domains>, sets: seq<set<Path>>, all: set<Node>)
    reads tries, all
  {
    && |tries| == |sets| && Separate(tries, all)
    && forall i | 0 <= i < |tries| :: tries[i].Valid() && tries[i].paths == sets[i]
  }

  /** A new trie that shares nothing with the others joins them. */
  lemma Joined(tries: seq<Domains>, sets: seq<set<Path>>, all: set<Node>, d: Domains)
    requires Represent(tries, sets, all)
    requires d.Valid() && d !in tries && d.repr !! all
    ensures Represent(tries + [d], sets + [d.paths], all + d.repr)
  {
    var after := tries + [d];
    assert after[|tries|] == d && forall i | 0 <= i < |tries| :: after[i] == tries[i];
  }

  /** What the tries other than `i` stand for. */
  ghost predicate OthersStand(tries: seq<Domains>, sets: seq<set<Path>>, i: nat, others: set<object>)
    requires |tries| == |sets| && i < |tries|
    reads others
  {
    forall j | 0 <= j < |tries| && j != i ::
      tries[j] in others && tries[j].repr <= others && tries[j].Valid() && tries[j].paths == sets[j]
  }

  /** Everything the tries other than `i` are made of. */
  lemma OthersOf(tries: seq<Domains>, sets: seq<set<Path>>, i: nat, all: set<Node>) returns (others: set<object>)
    requires Represent(tries, sets, all) && i < |tries|
    ensures OthersStand(tries, sets, i, others)
    ensures tries[i] !in others && tries[i].repr !! others
  {
    var rest: set<object> := set j | 0 <= j < |tries| && j != i :: tries[j];
    var nodes: set<object> := all - tries[i].repr;
    others := rest + nodes;
  }

  lemma Regrouped(tries: seq<Domains>, sets: seq<set<Path>>, i: nat, all: set<Node>, others: set<object>,
                  paths: set<Path>)
    requires |tries| == |sets| && i < |tries| && Separate(tries, all)
    requires OthersStand(tries, sets, i, others) && tries[i].Valid() && tries[i].paths == paths
    ensures Represent(tries, sets[i := paths], all)
  {
  }

  /** An update of one trie leaves every other one as it was. */
  method AddTo(tries: seq<Domains>, i: nat, labels: Option<seq<string>>, ghost sets: seq<set<Path>>,
               ghost all: set<Node>)
    returns (ghost all': set<Node>)
    requires Represent(tries, sets, all) && i < |tries|
    modifies tries[i], tries[i].repr
    ensures all' >= all && fresh(all' - all)
    ensures Represent(tries, sets[i := Added(sets[i], labels)], all')
  {
    ghost var others := OthersOf(tries, sets, i, all);
    var _ := tries[i].AddLabels(labels);
    all' := all + tries[i].repr;
    Regrouped(tries, sets, i, all', others, Added(sets[i], labels));
  }

  method DeleteFrom(tries: seq<Domains>, i: nat, labels: Option<seq<string>>, ghost sets: seq<set<Path>>,
                    ghost all: set<Node>)
    requires Represent(tries, sets, all) && i < |tries|
    modifies tries[i], tries[i].repr
    ensures Represent(tries, sets[i := Deleted(sets[i], labels)], all)
  {
    ghost var others := OthersOf(tries, sets, i, all);
    var _ := tries[i].DeleteLabels(labels);
    Regrouped(tries, sets, i, all, others, Deleted(sets[i], labels));
  }

  /** One operation on one of many tries. */
  method ReplayOne(op: Op, tries: seq<Domains>, ghost sets: seq<set<Path>>, ghost all: set<Node>)
    returns (after: seq<Domains>, ghost all': set<Node>)
    requires Represent(tries, sets, all)
    modifies tries, all
    ensures Represent(after, Applied(sets, op), all')
    ensures tries <= after && (forall i | |tries| <= i < |after| :: fresh(after[i])) && fresh(all' - all)
  {
    after, all' := tries, all;
    match op {
      case NewOp =>
        var d := new Domains();
        Joined(tries, sets, all, d);
        after, all' := tries + [d], all + d.repr;
      case CloneOp(i) =>
        if i < |tries| {
          var d := tries[i].Clone();
          Joined(tries, sets, all, d);
          after, all' := tries + [d], all + d.repr;
        }
      case AddOp(i, labels) =>
        if i < |tries| { all' := AddTo(tries, i, labels, sets, all); }
      case DeleteOp(i, labels) =>
        if i < |tries| { DeleteFrom(tries, i, labels, sets, all); }
    }
  }

  /** After any operations on any number of tries each one still stands for its own set. */
  method Replay(ops: seq<Op>) returns (tries: seq<Domains>, ghost all: set<Node>)
    ensures Represent(tries, Replayed(ops), all)
    ensures (forall i | 0 <= i < |tries| :: fresh(tries[i])) && fresh(all)
  {
    if ops == [] { return [], {}; }
    var before, nodes := Replay(ops[..|ops| - 1]);
    tries, all := ReplayOne(ops[|ops| - 1], before, Replayed(ops[..|ops| - 1]), nodes);
  }
}
