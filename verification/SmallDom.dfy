/** A small document tree on the heap: nodes with links to parent and siblings, changed in place.
    Doc is the value of all links at one moment; the laws of the tree are stated about it. */
module SmallDom {
  import opened Wrappers

  datatype Kind = Element | Text | Fragment | Document

  datatype Attribute = Attribute(name: string, value: string)

  /** The links of one node. The child list, the place in the parent's list and the depth are ghost
      fields of the node: they are what the links stand for. */
  datatype Row = Row(parent: Node?, next: Node?, prev: Node?, first: Node?, last: Node?,
                     kids: seq<Node>, index: nat, depth: nat)

  type Doc = map<Node, Row>

  /** The node at a position of a list of children, null outside the list. */
  ghost function At(s: seq<Node>, i: int): Node? {
    if 0 <= i < |s| then s[i] else null
  }

  // ---------- the law of the links ----------

  /** The links of n to its children, and theirs to it, spell out its child list. */
  ghost predicate Parented(d: Doc, n: Node)
    requires n in d
  {
    && d[n].first == At(d[n].kids, 0) && d[n].last == At(d[n].kids, |d[n].kids| - 1)
    && forall i :: 0 <= i < |d[n].kids| ==> Child(d, n, i)
  }

  ghost predicate Child(d: Doc, n: Node, i: nat)
    requires n in d && i < |d[n].kids|
  {
    var c := d[n].kids[i];
    c in d && d[c].parent == n && d[c].index == i
  }

  /** n stands where it says it does, between the siblings it names, and deeper than its parent. */
  ghost predicate Placed(d: Doc, n: Node)
    requires n in d
  {
    var r := d[n];
    if r.parent == null then r.prev == null && r.next == null
    else r.parent in d && n.kind != Fragment && d[r.parent].depth < r.depth && Between(r, n, d[r.parent].kids)
  }

  /** The row of n names n's place in a list of siblings, and its neighbours there. */
  ghost predicate Between(r: Row, n: Node, siblings: seq<Node>) {
    At(siblings, r.index) == n && r.prev == At(siblings, r.index - 1) && r.next == At(siblings, r.index + 1)
  }

  ghost predicate Good(d: Doc, n: Node)
    requires n in d
  {
    Parented(d, n) && Placed(d, n)
  }

  ghost predicate Sound(d: Doc) {
    forall n {:trigger Good(d, n)} :: n in d ==> Good(d, n)
  }

  // ---------- removing ----------

  /** The links after child number k of p has left. */
  ghost function Removed(d: Doc, p: Node, node: Node, k: nat): Doc
    requires p in d && node in d && k < |d[p].kids|
  {
    map n | n in d :: RemovedRow(d, p, node, k, n)
  }

  ghost function Cut(s: seq<Node>, k: nat): (r: seq<Node>)
    requires k < |s|
    ensures |r| == |s| - 1
  {
    s[..k] + s[k + 1..]
  }

  ghost function RemovedRow(d: Doc, p: Node, node: Node, k: nat, n: Node): Row
    requires p in d && node in d && k < |d[p].kids| && n in d
  {
    var was := d[p].kids;
    var kids := if n == p then Cut(was, k) else d[n].kids;
    Row(if n == node then null else d[n].parent,
        if n == node then null else if n == At(was, k - 1) then At(was, k + 1) else d[n].next,
        if n == node then null else if n == At(was, k + 1) then At(was, k - 1) else d[n].prev,
        if n == p then At(kids, 0) else d[n].first,
        if n == p then At(kids, |kids| - 1) else d[n].last,
        kids,
        if n != node && d[n].parent == p && d[n].index > k then d[n].index - 1 else d[n].index,
        d[n].depth)
  }

  /** node is child k of p, with the children around it where its links say; taking it out moves the ends. */
  ghost predicate BetweenNeighbours(d: Doc, p: Node, node: Node, k: nat)
    requires p in d && node in d && k < |d[p].kids|
  {
    var before: Node?, after: Node? := At(d[p].kids, k as int - 1), At(d[p].kids, k + 1);
    var rest := Cut(d[p].kids, k);
    && d[node].prev == before && d[node].next == after
    && before != node && after != node && (before == null || before != after)
    && (before == null || before in d) && (after == null || after in d)
    && At(rest, 0) == (if before == null then after else d[p].first)
    && At(rest, |rest| - 1) == (if after == null then before else d[p].last)
  }

  lemma Neighbours(d: Doc, p: Node, node: Node, k: nat)
    requires Sound(d) && node in d && d[node].parent == p && k == d[node].index
    ensures p in d && k < |d[p].kids| && At(d[p].kids, k) == node && BetweenNeighbours(d, p, node, k)
  {
    assert Good(d, node) && Good(d, p) && Child(d, p, k);
    assert k > 0 ==> Child(d, p, k - 1);
    assert k + 1 < |d[p].kids| ==> Child(d, p, k + 1);
  }

  lemma RemovedParented(d: Doc, p: Node, node: Node, k: nat, n: Node)
    requires Sound(d) && p in d && node in d && n in d && At(d[p].kids, k) == node
    ensures Parented(Removed(d, p, node, k), n)
  {
    var e := Removed(d, p, node, k);
    assert Good(d, n) && Good(d, p);
    assert Child(d, p, k);
    forall i | 0 <= i < |e[n].kids| ensures Child(e, n, i) {
      var j := if n == p && i >= k then i + 1 else i;
      assert Child(d, n, j) && d[n].kids[j] == e[n].kids[i];
    }
  }

  /** A sibling left behind closes ranks. */
  lemma RemovedSibling(d: Doc, p: Node, node: Node, k: nat, n: Node)
    requires p in d && node in d && n in d && At(d[p].kids, k) == node
    requires n != node && d[n].parent == p && Between(d[n], n, d[p].kids) && d[n].index != k
    requires forall i :: 0 <= i < |d[p].kids| ==> Child(d, p, i)
    ensures Between(RemovedRow(d, p, node, k, n), n, Cut(d[p].kids, k))
  {
    var was, r := d[p].kids, RemovedRow(d, p, node, k, n);
    var i: int := d[n].index;
    assert k > 0 ==> Child(d, p, k - 1);
    assert k + 1 < |was| ==> Child(d, p, k + 1);
    assert r.index == if i > k then i - 1 else i;
    assert forall j: int :: At(Cut(was, k), j) == At(was, if j < k then j else j + 1);
  }

  lemma RemovedPlaced(d: Doc, p: Node, node: Node, k: nat, n: Node)
    requires Sound(d) && p in d && node in d && n in d && At(d[p].kids, k) == node
    ensures Placed(Removed(d, p, node, k), n)
  {
    assert Good(d, n) && Good(d, p);
    assert Child(d, p, k);
    if n == node {
    } else if d[n].parent == p {
      RemovedSibling(d, p, node, k, n);
    } else {
      assert k > 0 ==> Child(d, p, k - 1);
      assert k + 1 < |d[p].kids| ==> Child(d, p, k + 1);
      var r := RemovedRow(d, p, node, k, n);
      assert r.prev == d[n].prev && r.next == d[n].next && r.index == d[n].index;
    }
  }

  lemma RemovedSound(d: Doc, p: Node, node: Node, k: nat)
    requires Sound(d) && p in d && node in d && At(d[p].kids, k) == node
    ensures Sound(Removed(d, p, node, k))
  {
    var e := Removed(d, p, node, k);
    forall n | n in e ensures Good(e, n) {
      RemovedParented(d, p, node, k, n);
      RemovedPlaced(d, p, node, k, n);
    }
  }

  // ---------- appending ----------

  /** A set that holds the parent of each of its nodes: for node outside, p inside, p is not below node. */
  ghost predicate UpClosed(d: Doc, A: set<Node>) {
    forall n :: n in A ==> n in d && (d[n].parent == null || d[n].parent in A)
  }

  /** n and the nodes above it. */
  ghost function Ancestors(d: Doc, n: Node): set<Node>
    requires Sound(d) && n in d
    decreases d[n].depth
  {
    assert Good(d, n);
    {n} + if d[n].parent == null then {} else Ancestors(d, d[n].parent)
  }

  lemma {:induction false} AncestorsClosed(d: Doc, n: Node)
    requires Sound(d) && n in d
    ensures UpClosed(d, Ancestors(d, n)) && n in Ancestors(d, n)
    decreases d[n].depth
  {
    assert Good(d, n);
    if d[n].parent != null { AncestorsClosed(d, d[n].parent); }
  }

  /** The links after node, which has no parent, became the last child of p; all that is not in A sinks. */
  ghost function Appended(d: Doc, p: Node, node: Node, A: set<Node>): Doc
    requires p in d && node in d
  {
    map n | n in d :: AppendedRow(d, p, node, A, n)
  }

  ghost function AppendedRow(d: Doc, p: Node, node: Node, A: set<Node>, n: Node): Row
    requires p in d && node in d && n in d
  {
    Row(if n == node then p else d[n].parent,
        if n == d[p].last then node else d[n].next,
        if n == node then d[p].last else d[n].prev,
        if n == p && d[p].first == null then node else d[n].first,
        if n == p then node else d[n].last,
        if n == p then d[n].kids + [node] else d[n].kids,
        if n == node then |d[p].kids| else d[n].index,
        if n in A then d[n].depth else d[n].depth + d[p].depth + 1)
  }

  /** A move that keeps the document a forest: node is free, and p is not below it. */
  ghost predicate CanAppend(d: Doc, p: Node, node: Node, A: set<Node>) {
    && Sound(d) && node in d && d[node].parent == null && node.kind != Fragment
    && UpClosed(d, A) && p in A && node !in A
  }

  lemma LastChild(d: Doc, p: Node, node: Node, A: set<Node>)
    requires CanAppend(d, p, node, A)
    ensures p in d && p in A && node in d && p != node && (d[p].first == null <==> d[p].last == null)
    ensures (d[p].last == null || d[p].last in d) && d[p].last != node && d[node].prev == null
  {
    assert Good(d, p) && Good(d, node);
    if d[p].kids != [] { assert Child(d, p, |d[p].kids| - 1); }
  }

  lemma AppendedParented(d: Doc, p: Node, node: Node, A: set<Node>, n: Node)
    requires CanAppend(d, p, node, A) && n in d
    ensures Parented(Appended(d, p, node, A), n)
  {
    var e := Appended(d, p, node, A);
    assert Good(d, n) && Good(d, p);
    forall i | 0 <= i < |e[n].kids| ensures Child(e, n, i) {
      if i < |d[n].kids| { assert Child(d, n, i); }
    }
  }

  lemma AppendedPlaced(d: Doc, p: Node, node: Node, A: set<Node>, n: Node)
    requires CanAppend(d, p, node, A) && n in d
    ensures Placed(Appended(d, p, node, A), n)
  {
    assert Good(d, n) && Good(d, p);
    var was, r := d[p].kids, AppendedRow(d, p, node, A, n);
    assert was != [] ==> Child(d, p, |was| - 1);
    if n == node {
      assert Between(r, n, was + [node]);
    } else if d[n].parent == p {
      AppendedSibling(d, p, node, A, n);
    } else if d[n].parent != null {
      assert Between(r, n, d[d[n].parent].kids);
    }
  }

  lemma AppendedSibling(d: Doc, p: Node, node: Node, A: set<Node>, n: Node)
    requires p in d && node in d && n in d && n != node && d[n].parent == p && Between(d[n], n, d[p].kids)
    requires d[p].last == At(d[p].kids, |d[p].kids| - 1)
    requires forall i :: 0 <= i < |d[p].kids| ==> Child(d, p, i)
    ensures Between(AppendedRow(d, p, node, A, n), n, d[p].kids + [node])
  {
    var was := d[p].kids;
    assert Child(d, p, |was| - 1);
    assert forall j: int :: At(was + [node], j) == if j == |was| then node else At(was, j);
  }

  lemma AppendedSound(d: Doc, p: Node, node: Node, A: set<Node>)
    requires CanAppend(d, p, node, A)
    ensures Sound(Appended(d, p, node, A)) && UpClosed(Appended(d, p, node, A), A)
  {
    var e := Appended(d, p, node, A);
    forall n | n in e ensures Good(e, n) {
      AppendedParented(d, p, node, A, n);
      AppendedPlaced(d, p, node, A, n);
    }
  }

  // ---------- moving, and what it conserves ----------

  /** The links after node was taken out of its parent, if it had one. */
  ghost function Freed(d: Doc, node: Node): Doc
    requires Sound(d) && node in d
  {
    if d[node].parent == null then d
    else
      Neighbours(d, d[node].parent, node, d[node].index);
      Removed(d, d[node].parent, node, d[node].index)
  }

  /** The links after node left the place it had and became the last child of p. */
  ghost function Moved(d: Doc, p: Node, node: Node, A: set<Node>): Doc
    requires Sound(d) && p in d && node in d
  {
    Appended(Freed(d, node), p, node, A)
  }

  /** s without x. */
  ghost function Without(s: seq<Node>, x: Node): seq<Node> {
    if s == [] then []
    else if s[0] == x then Without(s[1..], x)
    else [s[0]] + Without(s[1..], x)
  }

  lemma {:induction false} WithoutNone(s: seq<Node>, x: Node)
    requires x !in s
    ensures Without(s, x) == s
  {
    if s != [] { WithoutNone(s[1..], x); }
  }

  lemma {:induction false} WithoutAt(s: seq<Node>, x: Node, k: nat)
    requires k < |s| && s[k] == x && forall i :: 0 <= i < |s| && i != k ==> s[i] != x
    ensures Without(s, x) == Cut(s, k)
    decreases k
  {
    if k == 0 {
      WithoutNone(s[1..], x);
      assert Cut(s, 0) == s[1..];
    } else {
      WithoutAt(s[1..], x, k - 1);
      assert Cut(s, k) == [s[0]] + Cut(s[1..], k - 1);
    }
  }

  /** A node occurs in no child list but its parent's, and there once. */
  lemma OnePlace(d: Doc, n: Node, i: nat, m: Node, j: nat)
    requires Sound(d) && n in d && m in d && i < |d[n].kids| && j < |d[m].kids| && d[n].kids[i] == d[m].kids[j]
    ensures n == m && i == j
  {
    assert Good(d, n) && Good(d, m) && Child(d, n, i) && Child(d, m, j);
  }

  /** Freeing a node takes it, and nothing else, out of all child lists. */
  lemma FreedKids(d: Doc, node: Node, n: Node)
    requires Sound(d) && node in d && n in d
    ensures Sound(Freed(d, node)) && n in Freed(d, node) && node in Freed(d, node)
    ensures Freed(d, node)[node].parent == null
    ensures Freed(d, node)[n].kids == Without(d[n].kids, node)
    ensures n != node ==> Freed(d, node)[n].parent == d[n].parent
  {
    var p, k := d[node].parent, d[node].index;
    assert Good(d, n);
    if p != null {
      Neighbours(d, p, node, k);
      RemovedSound(d, p, node, k);
    }
    if n == p {
      forall i | 0 <= i < |d[n].kids| && i != k ensures d[n].kids[i] != node { assert Child(d, n, i); }
      WithoutAt(d[n].kids, node, k);
    } else {
      forall i | 0 <= i < |d[n].kids| ensures d[n].kids[i] != node { assert Child(d, n, i); }
      WithoutNone(d[n].kids, node);
    }
  }

  /** Moving a node keeps the document a forest, and changes nobody else's parent or order. */
  lemma MovedKids(d: Doc, p: Node, node: Node, A: set<Node>)
    requires Sound(d) && node in d && node.kind != Fragment && UpClosed(d, A) && p in A && node !in A
    ensures Sound(Moved(d, p, node, A)) && UpClosed(Moved(d, p, node, A), A)
    ensures forall n :: n in d ==>
      n in Moved(d, p, node, A) && Moved(d, p, node, A)[n].kids ==
        Without(d[n].kids, node) + if n == p then [node] else []
    ensures forall n :: n in d ==>
      n in Moved(d, p, node, A) && Moved(d, p, node, A)[n].parent == if n == node then p else d[n].parent
  {
    var e := Freed(d, node);
    forall n | n in d
      ensures Sound(e) && n in e && e[node].parent == null && e[n].kids == Without(d[n].kids, node)
      ensures n != node ==> e[n].parent == d[n].parent
    {
      FreedKids(d, node, n);
    }
    assert Sound(e) by { FreedKids(d, node, p); }
    AppendedSound(e, p, node, A);
  }

  // ---------- inserting before a child ----------

  /** The links after node, which has no parent, was put before child number k of p. In the middle of a list
      the code leaves the back link of node as it is. */
  ghost function Inserted(d: Doc, p: Node, node: Node, k: nat, A: set<Node>): Doc
    requires p in d && node in d && k < |d[p].kids|
  {
    map n | n in d :: InsertedRow(d, p, node, k, A, n)
  }

  ghost function InsertedRow(d: Doc, p: Node, node: Node, k: nat, A: set<Node>, n: Node): Row
    requires p in d && node in d && n in d && k < |d[p].kids|
  {
    var was := d[p].kids;
    Row(if n == node then p else d[n].parent,
        if n == node then was[k] else if n == At(was, k - 1) then node else d[n].next,
        if n == was[k] then node else d[n].prev,
        if n == p && k == 0 then node else d[n].first,
        d[n].last,
        if n == p then was[..k] + [node] + was[k..] else d[n].kids,
        if n == node then k else if d[n].parent == p && d[n].index >= k then d[n].index + 1 else d[n].index,
        if n in A then d[n].depth else d[n].depth + d[p].depth + 1)
  }

  /** The pointers of two documents agree, whatever they are taken to mean. */
  ghost predicate SameLinks(d: Doc, e: Doc) {
    && d.Keys == e.Keys
    && forall n :: n in d ==>
         && d[n].parent == e[n].parent && d[n].next == e[n].next && d[n].prev == e[n].prev
         && d[n].first == e[n].first && d[n].last == e[n].last
  }

  lemma InsertedParented(d: Doc, p: Node, node: Node, A: set<Node>, n: Node)
    requires CanAppend(d, p, node, A) && n in d && d[p].kids != []
    ensures Parented(Inserted(d, p, node, 0, A), n)
  {
    var e := Inserted(d, p, node, 0, A);
    assert Good(d, n) && Good(d, p);
    forall i | 0 <= i < |e[n].kids| ensures Child(e, n, i) {
      if n == p {
        if i > 0 { assert Child(d, p, i - 1); }
      } else {
        assert Child(d, n, i);
      }
    }
  }

  lemma InsertedPlaced(d: Doc, p: Node, node: Node, A: set<Node>, n: Node)
    requires CanAppend(d, p, node, A) && n in d && d[p].kids != []
    ensures Placed(Inserted(d, p, node, 0, A), n)
  {
    assert Good(d, n) && Good(d, p) && Good(d, node);
    var was, r := d[p].kids, InsertedRow(d, p, node, 0, A, n);
    assert Child(d, p, 0);
    assert was[..0] + [node] + was[0..] == [node] + was;
    assert forall j: int :: At([node] + was, j) == if j == 0 then node else At(was, j - 1);
    if n != node && d[n].parent != null && d[n].parent != p {
      assert Between(r, n, d[d[n].parent].kids);
    }
  }

  /** Inserting before the first child keeps the links in order; inserting anywhere else breaks them: no
      reading of the pointers as child lists is left. */
  lemma InsertBeforeExact(d: Doc, p: Node, node: Node, k: nat, A: set<Node>)
    requires CanAppend(d, p, node, A) && k < |d[p].kids|
    ensures (exists e :: SameLinks(Inserted(d, p, node, k, A), e) && Sound(e)) <==> k == 0
  {
    var i := Inserted(d, p, node, k, A);
    if k == 0 {
      forall n | n in i ensures Good(i, n) {
        InsertedParented(d, p, node, A, n);
        InsertedPlaced(d, p, node, A, n);
      }
      assert SameLinks(i, i) && Sound(i);
    } else {
      forall e | SameLinks(i, e) ensures !Sound(e) { InsertedBroken(d, p, node, k, A, e); }
    }
  }

  /** Inserting before the first child makes the node the first, and leaves the other lists and parents alone. */
  lemma InsertedFirst(d: Doc, p: Node, node: Node, A: set<Node>)
    requires CanAppend(d, p, node, A) && p in d && d[p].kids != []
    ensures var e := Inserted(d, p, node, 0, A);
      && Sound(e) && p in e && e[p].kids == [node] + d[p].kids
      && (forall n :: n in d && n != p ==> n in e && e[n].kids == d[n].kids)
      && (forall n :: n in d ==> n in e && e[n].parent == if n == node then p else d[n].parent)
  {
    var e := Inserted(d, p, node, 0, A);
    forall n | n in e ensures Good(e, n) {
      InsertedParented(d, p, node, A, n);
      InsertedPlaced(d, p, node, A, n);
    }
    assert d[p].kids[..0] + [node] + d[p].kids[0..] == [node] + d[p].kids;
  }

  lemma InsertedBroken(d: Doc, p: Node, node: Node, k: nat, A: set<Node>, e: Doc)
    requires CanAppend(d, p, node, A) && 0 < k < |d[p].kids| && SameLinks(Inserted(d, p, node, k, A), e)
    ensures p in e && node in e && (!Good(e, p) || !Good(e, node))
  {
    assert Good(d, node) && Good(d, p) && Child(d, p, 0) && Child(d, p, k);
  }

  lemma FreeNode(d: Doc, p: Node, other: Node, node: Node, k: nat, A: set<Node>)
    requires CanAppend(d, p, node, A) && other in d && d[other].parent == p && k == d[other].index
    ensures p in d && k < |d[p].kids| && d[p].kids[k] == other && node != other && node != p && d[node].prev == null
    ensures node in d && p in A
    ensures k > 0 ==> d[p].kids[k - 1] in d && d[other].prev == d[p].kids[k - 1] && d[p].kids[k - 1] != node
    ensures k > 0 ==> d[p].kids[k - 1] != other
    ensures k == 0 ==> d[other].prev == null
  {
    Neighbours(d, p, other, k);
    assert Good(d, node) && Good(d, other) && Good(d, p) && Child(d, p, k);
    if k > 0 { assert Child(d, p, k - 1); }
  }

  /** The links after node left its place and went in front of other, or to the end when other is no child. */
  ghost function PutBefore(d: Doc, p: Node, node: Node, other: Node?, A: set<Node>): Doc
    requires Sound(d) && p in d && node in d && (other == null || other in d)
  {
    var e := Freed(d, node);
    FreedKeys(d, node);
    if other == null || e[other].parent != p || e[other].index >= |e[p].kids| then Appended(e, p, node, A)
    else Inserted(e, p, node, e[other].index, A)
  }

  lemma FreedReady(d: Doc, p: Node, node: Node, A: set<Node>)
    requires Sound(d) && node in d && node.kind != Fragment && UpClosed(d, A) && p in A && node !in A
    ensures CanAppend(Freed(d, node), p, node, A) && Freed(d, node).Keys == d.Keys
  {
    hide Sound, Freed, Without;
    FreedKeys(d, node);
    FreedKids(d, node, node);
    forall n | n in d && n != node ensures Freed(d, node)[n].parent == d[n].parent { FreedKids(d, node, n); }
  }

  // ---------- splicing ----------

  /** From d to e, the first i children of f have moved, in order, to the end of p's; nothing else changed place. */
  ghost predicate Spliced(d: Doc, e: Doc, p: Node, f: Node, i: nat)
    requires f in d && i <= |d[f].kids|
  {
    && d.Keys == e.Keys && p in d && p != f
    && e[f].kids == d[f].kids[i..] && e[p].kids == d[p].kids + d[f].kids[..i]
    && (forall n :: n in d && n != f && n != p ==> e[n].kids == d[n].kids)
    && (forall n :: n in d ==> e[n].parent == if n in d[f].kids[..i] then p else d[n].parent)
  }

  lemma Elsewhere(d: Doc, c: Node, n: Node)
    requires Sound(d) && c in d && n in d && d[c].parent != n
    ensures Without(d[n].kids, c) == d[n].kids
  {
    forall j | 0 <= j < |d[n].kids| ensures d[n].kids[j] != c { assert Good(d, n) && Child(d, n, j); }
    WithoutNone(d[n].kids, c);
  }

  lemma FirstChild(d: Doc, n: Node)
    requires Sound(d) && n in d
    ensures d[n].first == null <==> d[n].kids == []
    ensures d[n].kids != [] ==>
      && d[n].first == d[n].kids[0] && d[n].kids[0] in d && d[n].kids[0].kind != Fragment
      && d[d[n].kids[0]].parent == n && Without(d[n].kids, d[n].kids[0]) == d[n].kids[1..]
  {
    assert Good(d, n);
    if d[n].kids != [] {
      assert Child(d, n, 0) && Good(d, d[n].kids[0]);
      forall j | 0 < j < |d[n].kids| ensures d[n].kids[j] != d[n].kids[0] { assert Child(d, n, j); }
      WithoutAt(d[n].kids, d[n].kids[0], 0);
    }
  }

  /** Moving the first child of f to p shortens f's list, lengthens p's, and leaves the others alone. */
  lemma FirstMoved(e: Doc, p: Node, f: Node, c: Node, A: set<Node>)
    requires Sound(e) && f in e && UpClosed(e, A) && p in A && f !in A && e[f].kids != [] && c == e[f].kids[0]
    ensures c in e && c.kind != Fragment && c !in A && Sound(Moved(e, p, c, A)) && UpClosed(Moved(e, p, c, A), A)
    ensures var m := Moved(e, p, c, A);
      && m.Keys == e.Keys && m[f].kids == e[f].kids[1..] && m[p].kids == e[p].kids + [c]
      && (forall n :: n in e && n != f && n != p ==> m[n].kids == e[n].kids)
      && (forall n :: n in e ==> m[n].parent == if n == c then p else e[n].parent)
  {
    hide Sound, Moved, Without;
    FirstChild(e, f);
    MovedKids(e, p, c, A);
    assert Moved(e, p, c, A).Keys == e.Keys by { MovedKeys(e, p, c, A); }
    forall n | n in e && n != f ensures Without(e[n].kids, c) == e[n].kids {
      Elsewhere(e, c, n);
    }
  }

  lemma MovedKeys(d: Doc, p: Node, node: Node, A: set<Node>)
    requires Sound(d) && p in d && node in d
    ensures Moved(d, p, node, A).Keys == d.Keys
  {
  }

  lemma SplicedNone(d: Doc, p: Node, f: Node, A: set<Node>)
    requires f in d && UpClosed(d, A) && p in A && f !in A
    ensures Spliced(d, d, p, f, 0)
  {
  }

  lemma SplicedAll(d: Doc, e: Doc, p: Node, f: Node, i: nat)
    requires f in d && i <= |d[f].kids| && Spliced(d, e, p, f, i) && Sound(e) && e[f].first == null
    ensures i == |d[f].kids|
  {
    assert Good(e, f);
  }

  lemma SplicedStep(d: Doc, e: Doc, p: Node, f: Node, i: nat, A: set<Node>)
    requires f in d && i <= |d[f].kids| && Spliced(d, e, p, f, i)
    requires Sound(e) && UpClosed(e, A) && p in A && f !in A && e[f].first != null
    ensures var c := e[f].first;
      && c in e && c.kind != Fragment && c !in A && Sound(Moved(e, p, c, A)) && UpClosed(Moved(e, p, c, A), A)
      && i < |d[f].kids| && Spliced(d, Moved(e, p, c, A), p, f, i + 1)
  {
    hide Moved, Sound;
    FirstChild(e, f);
    FirstMoved(e, p, f, d[f].kids[i], A);
    assert d[f].kids[..i + 1] == d[f].kids[..i] + [d[f].kids[i]];
  }

  // ---------- clearing ----------

  /** From d to e, the first i children of p have been set free; nothing else changed place. */
  ghost predicate Shed(d: Doc, e: Doc, p: Node, i: nat)
    requires p in d && i <= |d[p].kids|
  {
    && d.Keys == e.Keys && e[p].kids == d[p].kids[i..]
    && (forall n :: n in d && n != p ==> e[n].kids == d[n].kids)
    && (forall n :: n in d ==> e[n].parent == if n in d[p].kids[..i] then null else d[n].parent)
  }

  /** Taking the first child away shortens the list, and leaves the others alone. */
  lemma FirstFreed(e: Doc, p: Node, c: Node)
    requires Sound(e) && p in e && e[p].kids != [] && c == e[p].kids[0]
    ensures c in e && e[c].parent == p && Sound(Freed(e, c)) && Shed(e, Freed(e, c), p, 1)
  {
    hide Sound, Freed, Without;
    FirstChild(e, p);
    assert Freed(e, c).Keys == e.Keys by { FreedKeys(e, c); }
    forall n | n in e
      ensures Sound(Freed(e, c)) && n in Freed(e, c) && Freed(e, c)[c].parent == null
      ensures Freed(e, c)[n].kids == if n == p then e[n].kids[1..] else e[n].kids
      ensures n != c ==> Freed(e, c)[n].parent == e[n].parent
    {
      FreedKids(e, c, n);
      if n != p { Elsewhere(e, c, n); }
    }
  }

  lemma FreedKeys(d: Doc, node: Node)
    requires Sound(d) && node in d
    ensures Freed(d, node).Keys == d.Keys
  {
  }

  lemma ShedNone(d: Doc, p: Node)
    requires p in d
    ensures Shed(d, d, p, 0)
  {
  }

  lemma ShedAll(d: Doc, e: Doc, p: Node, i: nat)
    requires p in d && i <= |d[p].kids| && Shed(d, e, p, i) && Sound(e) && e[p].first == null
    ensures i == |d[p].kids| && e[p].kids == []
    ensures forall n :: n in d && n != p ==> n in e && e[n].kids == d[n].kids
    ensures forall n :: n in d ==> n in e && e[n].parent == if n in d[p].kids then null else d[n].parent
  {
    assert Good(e, p);
    assert d[p].kids[..i] == d[p].kids;
  }

  lemma FreedIsRemoved(d: Doc, p: Node, c: Node)
    requires Sound(d) && c in d && d[c].parent == p
    ensures p in d && d[c].index < |d[p].kids| && Freed(d, c) == Removed(d, p, c, d[c].index)
  {
    Neighbours(d, p, c, d[c].index);
  }

  lemma NextChild(d: Doc, n: Node, i: nat)
    requires Sound(d) && n in d && i < |d[n].kids|
    ensures d[n].kids[i] in d && d[n].kids[i].kind != Fragment && d[d[n].kids[i]].next == At(d[n].kids, i + 1)
  {
    assert Good(d, n) && Child(d, n, i) && Good(d, d[n].kids[i]);
  }

  lemma ShedStep(d: Doc, e: Doc, p: Node, i: nat)
    requires p in d && i <= |d[p].kids| && Shed(d, e, p, i) && Sound(e) && e[p].first != null
    ensures var c := e[p].first;
      && c in e && e[c].parent == p && i < |d[p].kids| && Sound(Freed(e, c)) && Shed(d, Freed(e, c), p, i + 1)
  {
    hide Freed, Sound;
    FirstChild(e, p);
    FirstFreed(e, p, d[p].kids[i]);
    assert d[p].kids[..i + 1] == d[p].kids[..i] + [d[p].kids[i]];
  }

  // ---------- attributes ----------

  /** What a log of attribute assignments means: the last value given to each name. */
  ghost function Meaning(log: seq<Attribute>): map<string, string> {
    if log == [] then map[]
    else Meaning(log[..|log| - 1])[log[|log| - 1].name := log[|log| - 1].value]
  }

  lemma {:induction false} MeaningLast(log: seq<Attribute>, k: nat, name: string)
    requires k <= |log| && forall i :: k <= i < |log| ==> log[i].name != name
    ensures name in Meaning(log) <==> name in Meaning(log[..k])
    ensures name in Meaning(log) ==> Meaning(log)[name] == Meaning(log[..k])[name]
  {
    if k == |log| {
      assert log[..k] == log;
    } else {
      MeaningLast(log[..|log| - 1], k, name);
      assert log[..|log| - 1][..k] == log[..k];
    }
  }

  // ---------- trees ----------

  /** What a node and all below it look like. */
  datatype Tree = Tree(kind: Kind, tag: string, data: Option<string>, attributes: seq<Attribute>, children: seq<Tree>)

  function UpperChar(c: char): char {
    if 'a' <= c <= 'z' then (c as int - 32) as char else c
  }

  function Upper(s: string): (r: string)
    ensures |r| == |s| && forall i :: 0 <= i < |s| ==> r[i] == UpperChar(s[i])
  {
    seq(|s|, i requires 0 <= i < |s| => UpperChar(s[i]))
  }

  predicate Known(tag: string) {
    tag in ["DIV", "INPUT", "P", "SPAN", "H1", "H2", "TEMPLATE", "HTML", "HEAD", "BODY", "BASE"]
  }

  /** The elements that can be made: a tag of any case out of a list. */
  lemma TagsExact(tag: string)
    ensures Known(tag) <==>
      tag in {"DIV", "INPUT", "P", "SPAN", "H1", "H2", "TEMPLATE", "HTML", "HEAD", "BODY", "BASE"}
    ensures forall i :: 0 <= i < |tag| ==>
      Upper(tag)[i] as int == if 97 <= tag[i] as int <= 122 then tag[i] as int - 32 else tag[i] as int
  {}

  /** Cloning needs a constructor for every element it meets, and a document has none to clone itself. */
  ghost predicate Clonable(t: Tree, deep: bool) {
    && t.kind != Document
    && (t.kind == Element ==> Known(Upper(t.tag)))
    && (deep ==> forall c :: c in t.children ==> Clonable(c, true))
  }

  /** What a clone looks like: only texts keep their data, only elements their tag and attributes. */
  ghost function Copied(t: Tree, deep: bool): Tree {
    Tree(t.kind, if t.kind == Element then Upper(t.tag) else "", if t.kind == Text then t.data else None,
         if t.kind == Element then t.attributes else [], if deep then CopiedAll(t.children) else [])
  }

  ghost function CopiedAll(ts: seq<Tree>): (r: seq<Tree>)
    ensures |r| == |ts| && forall i :: 0 <= i < |ts| ==> r[i] == Copied(ts[i], true)
  {
    if ts == [] then [] else [Copied(ts[0], true)] + CopiedAll(ts[1..])
  }

  /** A tree in which every node holds only what its kind is cloned with. */
  ghost predicate Plain(t: Tree) {
    && (if t.kind == Element then Upper(t.tag) == t.tag else t.tag == "" && t.attributes == [])
    && (t.kind != Text ==> t.data == None)
    && forall c :: c in t.children ==> Plain(c)
  }

  /** A deep clone looks like its source exactly when the source is plain. */
  lemma {:induction false} CloneExact(t: Tree)
    ensures Copied(t, true) == t <==> Plain(t)
  {
    var r := CopiedAll(t.children);
    assert r == t.children <==> forall i :: 0 <= i < |r| ==> r[i] == t.children[i];
    forall i | 0 <= i < |t.children| ensures Copied(t.children[i], true) == t.children[i] <==> Plain(t.children[i]) {
      CloneExact(t.children[i]);
    }
  }

  /** A shallow clone looks like its source without the children exactly when the source by itself is plain. */
  lemma ShallowExact(t: Tree)
    ensures Copied(t, false) == t.(children := []) <==>
      && (if t.kind == Element then Upper(t.tag) == t.tag else t.tag == "" && t.attributes == [])
      && (t.kind != Text ==> t.data == None)
  {}

  /** A clone of a clone looks like the clone. */
  lemma {:induction false} CopiedPlain(t: Tree)
    ensures Plain(Copied(t, true))
  {
    forall i | 0 <= i < |t.children| ensures Plain(Copied(t.children[i], true)) { CopiedPlain(t.children[i]); }
  }

  /** t is what n looks like, all its nodes being in S. */
  ghost predicate Shape(n: Node, t: Tree, S: set<Node>)
    reads S`kids, S`data, S`attributes
    decreases t
  {
    && n in S && n.kind == t.kind && n.tag == t.tag && n.data == t.data && n.attributes == t.attributes
    && |n.kids| == |t.children|
    && forall i :: 0 <= i < |n.kids| ==> Shape(n.kids[i], t.children[i], S)
  }

  lemma {:induction false} ShapeUnique(n: Node, t: Tree, u: Tree, S: set<Node>)
    requires Shape(n, t, S) && Shape(n, u, S)
    ensures t == u
  {
    forall i | 0 <= i < |n.kids| ensures t.children[i] == u.children[i] {
      ShapeUnique(n.kids[i], t.children[i], u.children[i], S);
    }
    assert t.children == u.children;
  }

  lemma {:induction false} ShapeGrows(n: Node, t: Tree, S: set<Node>, more: set<Node>)
    requires Shape(n, t, S) && S <= more
    ensures Shape(n, t, more)
    decreases t
  {
    forall i | 0 <= i < |n.kids| ensures Shape(n.kids[i], t.children[i], more) {
      ShapeGrows(n.kids[i], t.children[i], S, more);
    }
  }

  ghost function Deeper(n: Node, S: set<Node>): set<Node>
    reads n, S
  {
    set m | m in S && m.depth > n.depth
  }

  /** Every node of a forest looks like some tree: nothing is below itself. */
  lemma {:induction false} ShapeExists(n: Node, S: set<Node>) returns (t: Tree)
    requires Sound(Snapshot(S)) && n in S
    ensures Shape(n, t, S)
    decreases Deeper(n, S)
  {
    var d := Snapshot(S);
    assert Good(d, n);
    var ts: seq<Tree> := [];
    while |ts| < |n.kids|
      invariant |ts| <= |n.kids| && forall i :: 0 <= i < |ts| ==> Shape(n.kids[i], ts[i], S)
    {
      var c := n.kids[|ts|];
      assert Child(d, n, |ts|) && Good(d, c);
      assert c in Deeper(n, S) && c !in Deeper(c, S) && Deeper(c, S) <= Deeper(n, S);
      var u := ShapeExists(c, S);
      ts := ts + [u];
    }
    t := Tree(n.kind, n.tag, n.data, n.attributes, ts);
  }

  // ---------- the heap ----------

  class Node {
    const kind: Kind
    const tag: string
    var data: Option<string>
    var attributes: seq<Attribute>
    var parentNode: Node?
    var nextSibling: Node?
    var previousSibling: Node?
    var firstChild: Node?
    var lastChild: Node?
    ghost var kids: seq<Node>
    ghost var index: nat
    ghost var depth: nat

    constructor (kind: Kind, tag: string, data: Option<string>)
      ensures this.kind == kind && this.tag == tag && this.data == data && attributes == []
      ensures Links() == Row(null, null, null, null, null, [], 0, 0)
    {
      this.kind, this.tag, this.data, attributes := kind, tag, data, [];
      parentNode, nextSibling, previousSibling, firstChild, lastChild := null, null, null, null, null;
      kids, index, depth := [], 0, 0;
    }

    ghost function Links(): Row
      reads this
    {
      Row(parentNode, nextSibling, previousSibling, firstChild, lastChild, kids, index, depth)
    }

    /** The pointer surgery of a removal: node leaves the sibling list between before and after. */
    method Unhook(node: Node, ghost before: Node?, ghost after: Node?, ghost S: set<Node>)
      requires this in S && node in S && node.previousSibling == before && node.nextSibling == after
      requires before != node && after != node && (before == null || before != after)
      requires (before == null || before in S) && (after == null || after in S)
      modifies this`firstChild, this`lastChild, S`parentNode, S`nextSibling, S`previousSibling
      ensures firstChild == (if before == null then after else old(firstChild))
      ensures lastChild == (if after == null then before else old(lastChild))
      ensures forall n :: n in S ==> n.parentNode == if n == node then null else old(n.parentNode)
      ensures forall n :: n in S ==>
        n.nextSibling == if n == node then null else if n == before then after else old(n.nextSibling)
      ensures forall n :: n in S ==>
        n.previousSibling == if n == node then null else if n == after then before else old(n.previousSibling)
    {
      if node.previousSibling == null && node.nextSibling == null {
        firstChild := null;
        lastChild := null;
      } else if node.previousSibling == null {
        firstChild := node.nextSibling;
        node.nextSibling.previousSibling := null;
      } else if node.nextSibling == null {
        lastChild := node.previousSibling;
        node.previousSibling.nextSibling := null;
      } else {
        node.previousSibling.nextSibling := node.nextSibling;
        node.nextSibling.previousSibling := node.previousSibling;
      }
      node.parentNode := null;
      node.previousSibling := null;
      node.nextSibling := null;
    }

    /** The child list after child number k left: later children move down by one. */
    ghost method Renumber(k: nat, S: set<Node>)
      requires k < |kids|
      modifies this`kids, S`index
      ensures kids == Cut(old(kids), k)
      ensures forall n :: n in S ==>
        n.index == if n.parentNode == this && old(n.index) > k then old(n.index) - 1 else old(n.index)
    {
      forall n | n in S && n.parentNode == this && n.index > k {
        n.index := n.index - 1;
      }
      kids := Cut(kids, k);
    }

    /** Takes a child out of this node; fails when the node is not a child of it. */
    method RemoveChild(node: Node, ghost S: set<Node>) returns (ok: bool)
      requires Sound(Snapshot(S)) && this in S && node in S
      modifies this`kids, this`firstChild, this`lastChild, S`parentNode, S`nextSibling, S`previousSibling, S`index
      ensures ok == (old(node.parentNode) == this)
      ensures ok ==> old(At(kids, node.index)) == node && old(node.index < |kids|)
      ensures ok ==> Snapshot(S) == Removed(old(Snapshot(S)), this, node, old(node.index))
      ensures !ok ==> Snapshot(S) == old(Snapshot(S))
      ensures Sound(Snapshot(S))
    {
      hide Sound, At, Removed;
      if node.parentNode != this { return false; }
      ok := true;
      ghost var d, k := Snapshot(S), node.index;
      Neighbours(d, this, node, k);
      RemovedSound(d, this, node, k);
      Unlink(node, d, k, S);
    }

    method Unlink(node: Node, ghost d: Doc, ghost k: nat, ghost S: set<Node>)
      requires d == Snapshot(S) && this in S && node in S && d[node].parent == this && k < |kids|
      requires BetweenNeighbours(d, this, node, k)
      modifies this`kids, this`firstChild, this`lastChild, S`parentNode, S`nextSibling, S`previousSibling, S`index
      ensures Snapshot(S) == Removed(d, this, node, k)
    {
      hide At, Cut;
      ghost var before: Node?, after: Node? := At(kids, k as int - 1), At(kids, k + 1);
      Unhook(node, before, after, S);
      Renumber(k, S);
      forall n | n in S ensures n.Links() == RemovedRow(d, this, node, k, n) {
        assert d[n].first == old(n.firstChild);
      }
      SnapshotIs(S, Removed(d, this, node, k));
    }

    /** The pointer part of an append: node becomes the last child. */
    method Hook(node: Node, ghost S: set<Node>)
      requires this in S && node in S && node != this && (firstChild == null <==> lastChild == null)
      requires (lastChild == null || lastChild in S) && lastChild != node && node.previousSibling == null
      modifies this`firstChild, this`lastChild, S`parentNode, S`nextSibling, S`previousSibling
      ensures firstChild == (if old(firstChild) == null then node else old(firstChild)) && lastChild == node
      ensures forall n :: n in S ==> n.parentNode == if n == node then this else old(n.parentNode)
      ensures forall n :: n in S ==> n.nextSibling == if n == old(lastChild) then node else old(n.nextSibling)
      ensures forall n :: n in S ==> n.previousSibling == if n == node then old(lastChild) else old(n.previousSibling)
    {
      node.parentNode := this;
      if firstChild == null {
        firstChild := node;
        lastChild := node;
      } else {
        lastChild.nextSibling := node;
        node.previousSibling := lastChild;
        lastChild := node;
      }
    }

    /** The ghost part: the list grows, and all that is not above moves below this node. */
    ghost method Sink(node: Node, A: set<Node>, S: set<Node>)
      requires this in S && node in S && this in A
      modifies this`kids, S`index, S`depth
      ensures kids == old(kids) + [node]
      ensures forall n :: n in S ==> n.index == if n == node then |old(kids)| else old(n.index)
      ensures forall n :: n in S ==> n.depth == if n in A then old(n.depth) else old(n.depth) + old(depth) + 1
    {
      node.index := |kids|;
      kids := kids + [node];
      forall n | n in S && n !in A {
        n.depth := n.depth + depth + 1;
      }
    }

    method Link(node: Node, ghost A: set<Node>, ghost S: set<Node>)
      requires CanAppend(Snapshot(S), this, node, A)
      modifies S`firstChild, S`lastChild, S`parentNode, S`nextSibling, S`previousSibling, S`kids, S`index, S`depth
      ensures Snapshot(S) == Appended(old(Snapshot(S)), this, node, A)
    {
      ghost var d := Snapshot(S);
      LastChild(d, this, node, A);
      hide CanAppend;
      Hook(node, S);
      Sink(node, A, S);
      forall n | n in S ensures n.Links() == AppendedRow(d, this, node, A, n) {
        assert d[n].first == old(n.firstChild);
      }
      SnapshotIs(S, Appended(d, this, node, A));
    }

    /** Moves a node that is not a fragment to the end of this node's children. */
    method AppendNode(node: Node, ghost A: set<Node>, ghost S: set<Node>)
      requires Sound(Snapshot(S)) && node in S && node.kind != Fragment
      requires UpClosed(Snapshot(S), A) && this in A && node !in A
      modifies S`firstChild, S`lastChild, S`parentNode, S`nextSibling, S`previousSibling, S`kids, S`index, S`depth
      ensures Snapshot(S) == Moved(old(Snapshot(S)), this, node, A)
    {
      ghost var d := Snapshot(S);
      if node.parentNode != null {
        Neighbours(d, node.parentNode, node, node.index);
        var ok := node.parentNode.RemoveChild(node, S);
      }
      FreedKids(d, node, node);
      Link(node, A, S);
    }

    /** The pointer part of an insertion in front of a child. */
    method HookBefore(node: Node, other: Node, ghost before: Node?, ghost S: set<Node>)
      requires this in S && node in S && other in S && node != other && node != this && node.previousSibling == null
      requires other.previousSibling == before && before != node && before != other && (before == null || before in S)
      modifies this`firstChild, S`parentNode, S`nextSibling, S`previousSibling
      ensures firstChild == if before == null then node else old(firstChild)
      ensures forall n :: n in S ==> n.parentNode == if n == node then this else old(n.parentNode)
      ensures forall n :: n in S ==>
        n.nextSibling == if n == node then other else if n == before then node else old(n.nextSibling)
      ensures forall n :: n in S ==> n.previousSibling == if n == other then node else old(n.previousSibling)
    {
      if other.previousSibling == null {
        other.previousSibling := node;
        node.previousSibling := null;
        node.nextSibling := other;
        firstChild := node;
      } else {
        other.previousSibling.nextSibling := node;
        node.previousSibling := node.previousSibling;
        node.nextSibling := other;
        other.previousSibling := node;
      }
      node.parentNode := this;
    }

    /** Puts a free node in front of this node's child other. */
    method LinkBefore(node: Node, other: Node, ghost A: set<Node>, ghost S: set<Node>)
      requires CanAppend(Snapshot(S), this, node, A) && other in S && other.parentNode == this
      modifies this`firstChild, this`kids, S`parentNode, S`nextSibling, S`previousSibling, S`index, S`depth
      ensures old(other.index < |kids|)
      ensures Snapshot(S) == Inserted(old(Snapshot(S)), this, node, old(other.index), A)
    {
      ghost var d, k := Snapshot(S), other.index;
      FreeNode(d, this, other, node, k, A);
      hide CanAppend;
      ghost var before: Node? := At(kids, k as int - 1);
      HookBefore(node, other, before, S);
      MakeRoom(node, k, A, S);
      forall n | n in S ensures n.Links() == InsertedRow(d, this, node, k, A, n) {
        assert d[n].first == old(n.firstChild);
      }
      SnapshotIs(S, Inserted(d, this, node, k, A));
    }

    /** insertBefore on a node that is not a fragment: the node leaves its place, and goes in front of other if
        that is then a child of this node, to the end if it is not. */
    method InsertBefore(node: Node, other: Node?, ghost A: set<Node>, ghost S: set<Node>)
      requires Sound(Snapshot(S)) && node in S && (other == null || other in S) && node.kind != Fragment
      requires UpClosed(Snapshot(S), A) && this in A && node !in A
      modifies S`firstChild, S`lastChild, S`parentNode, S`nextSibling, S`previousSibling, S`kids, S`index, S`depth
      ensures Snapshot(S) == PutBefore(old(Snapshot(S)), this, node, other, A)
    {
      ghost var d := Snapshot(S);
      hide Sound, Appended, Inserted;
      FreedReady(d, this, node, A);
      if node.parentNode != null {
        Neighbours(d, node.parentNode, node, node.index);
        var ok := node.parentNode.RemoveChild(node, S);
      }
      assert Snapshot(S) == Freed(d, node);
      if other == null || other.parentNode != this {
        Link(node, A, S);
      } else {
        LinkBefore(node, other, A, S);
      }
    }

    ghost method MakeRoom(node: Node, k: nat, A: set<Node>, S: set<Node>)
      requires this in S && node in S && this in A && k < |kids|
      modifies this`kids, S`index, S`depth
      ensures kids == old(kids)[..k] + [node] + old(kids)[k..]
      ensures forall n :: n in S && n != node ==>
        n.index == if n.parentNode == this && old(n.index) >= k then old(n.index) + 1 else old(n.index)
      ensures node.index == k
      ensures forall n :: n in S ==> n.depth == if n in A then old(n.depth) else old(n.depth) + old(depth) + 1
    {
      forall n | n in S && n.parentNode == this && n.index >= k {
        n.index := n.index + 1;
      }
      node.index := k;
      kids := kids[..k] + [node] + kids[k..];
      forall n | n in S && n !in A {
        n.depth := n.depth + depth + 1;
      }
    }

    /** The children of a fragment move over one at a time, in order; the fragment ends empty. */
    method Splice(node: Node, ghost A: set<Node>, ghost S: set<Node>)
      requires Sound(Snapshot(S)) && node in S && UpClosed(Snapshot(S), A) && this in A && node !in A
      modifies S`firstChild, S`lastChild, S`parentNode, S`nextSibling, S`previousSibling, S`kids, S`index, S`depth
      ensures Sound(Snapshot(S)) && UpClosed(Snapshot(S), A)
      ensures Spliced(old(Snapshot(S)), Snapshot(S), this, node, |old(node.kids)|)
    {
      hide Sound, Spliced, UpClosed;
      ghost var d, i := Snapshot(S), 0;
      SplicedNone(d, this, node, A);
      while node.firstChild != null
        invariant Sound(Snapshot(S)) && UpClosed(Snapshot(S), A)
        invariant i <= |d[node].kids| && Spliced(d, Snapshot(S), this, node, i)
        decreases |d[node].kids| - i
      {
        assert Snapshot(S)[node].first == node.firstChild;
        SplicedStep(d, Snapshot(S), this, node, i, A);
        AppendNode(node.firstChild, A, S);
        i := i + 1;
      }
      SplicedAll(d, Snapshot(S), this, node, i);
    }

    /** Appends a node, or all the children of a fragment. The node must not be this node or above it. */
    method AppendChild(node: Node, ghost S: set<Node>)
      requires Sound(Snapshot(S)) && this in S && node in S && node !in Ancestors(Snapshot(S), this)
      modifies S`firstChild, S`lastChild, S`parentNode, S`nextSibling, S`previousSibling, S`kids, S`index, S`depth
      ensures Sound(Snapshot(S))
      ensures node.kind != Fragment ==> forall n :: n in S ==>
        n.kids == Without(old(n.kids), node) + if n == this then [node] else []
      ensures node.kind != Fragment ==> forall n :: n in S ==>
        n.parentNode == if n == node then this else old(n.parentNode)
      ensures node.kind == Fragment ==>
        && node.kids == [] && kids == old(kids) + old(node.kids)
        && (forall n :: n in S && n != node && n != this ==> n.kids == old(n.kids))
        && (forall n :: n in S ==> n.parentNode == if n in old(node.kids) then this else old(n.parentNode))
    {
      hide Sound, Without;
      ghost var d := Snapshot(S);
      ghost var A := Ancestors(d, this);
      AncestorsClosed(d, this);
      if node.kind == Fragment {
        Splice(node, A, S);
        assert forall n :: n in S ==> Snapshot(S)[n].kids == n.kids && Snapshot(S)[n].parent == n.parentNode;
        assert d[node].kids[..|d[node].kids|] == d[node].kids;
      } else {
        MovedKids(d, this, node, A);
        AppendNode(node, A, S);
        assert forall n :: n in S ==> Snapshot(S)[n].kids == n.kids && Snapshot(S)[n].parent == n.parentNode;
      }
    }

    /** Assigning innerHTML: every child is removed, whatever is assigned. */
    method ClearInner(ghost S: set<Node>)
      requires Sound(Snapshot(S)) && this in S
      modifies this`kids, this`firstChild, this`lastChild, S`parentNode, S`nextSibling, S`previousSibling, S`index
      ensures Sound(Snapshot(S)) && kids == [] && firstChild == null
      ensures forall n :: n in S && n != this ==> n.kids == old(n.kids)
      ensures forall n :: n in S ==> n.parentNode == if n in old(kids) then null else old(n.parentNode)
    {
      hide Sound, Shed, Freed;
      ghost var d, i := Snapshot(S), 0;
      assert Shed(d, d, this, 0) by { ShedNone(d, this); }
      while firstChild != null
        invariant Sound(Snapshot(S)) && i <= |d[this].kids| && Shed(d, Snapshot(S), this, i)
        decreases |d[this].kids| - i
      {
        ShedStep(d, Snapshot(S), this, i);
        ghost var e := Snapshot(S);
        assert e[this].first == firstChild && e[firstChild].parent == firstChild.parentNode;
        FreedIsRemoved(e, this, firstChild);
        var ok := RemoveChild(firstChild, S);
        i := i + 1;
      }
      ShedAll(d, Snapshot(S), this, i);
      assert forall n :: n in S ==> Snapshot(S)[n].kids == n.kids && Snapshot(S)[n].parent == n.parentNode;
    }

    /** Walks the sibling links from the first child. */
    method ChildNodes(ghost S: set<Node>) returns (nodes: seq<Node>)
      requires Sound(Snapshot(S)) && this in S
      ensures nodes == kids
    {
      ghost var d := Snapshot(S);
      nodes := [];
      var child := firstChild;
      FirstChild(d, this);
      while child != null
        invariant |nodes| <= |kids| && nodes == kids[..|nodes|] && child == At(kids, |nodes|)
        decreases |kids| - |nodes|
      {
        NextChild(d, this, |nodes|);
        nodes := nodes + [child];
        child := child.nextSibling;
      }
    }

    method SetAttribute(name: string, value: string)
      modifies this`attributes
      ensures Meaning(attributes) == old(Meaning(attributes))[name := value]
      ensures attributes == old(attributes) + [Attribute(name, value)]
    {
      attributes := attributes + [Attribute(name, value)];
      assert attributes[..|attributes| - 1] == old(attributes);
    }

    /** Scans the log from its end. */
    method GetAttribute(name: string) returns (value: Option<string>)
      ensures value == if name in Meaning(attributes) then Some(Meaning(attributes)[name]) else None
    {
      var count := |attributes|;
      while count > 0
        invariant 0 <= count <= |attributes| && forall i :: count <= i < |attributes| ==> attributes[i].name != name
      {
        MeaningLast(attributes, count, name);
        count := count - 1;
        if attributes[count].name == name {
          assert attributes[..count + 1][..count] == attributes[..count];
          return Some(attributes[count].value);
        }
      }
      MeaningLast(attributes, 0, name);
      return None;
    }

    method HasAttribute(name: string) returns (has: bool)
      ensures has == (name in Meaning(attributes))
    {
      var count := |attributes|;
      while count > 0
        invariant 0 <= count <= |attributes| && forall i :: count <= i < |attributes| ==> attributes[i].name != name
      {
        MeaningLast(attributes, count, name);
        count := count - 1;
        if attributes[count].name == name { return true; }
      }
      MeaningLast(attributes, 0, name);
      return false;
    }

    /** A fresh node with the same content and no links; null when there is no constructor for it. */
    method CloneSelf() returns (clone: Node?)
      ensures clone == null <==> kind == Document || (kind == Element && !Known(Upper(tag)))
      ensures clone != null ==>
        && fresh(clone) && clone.Links() == Row(null, null, null, null, null, [], 0, 0)
        && clone.kind == kind && clone.tag == (if kind == Element then Upper(tag) else "")
        && clone.data == (if kind == Text then data else None)
        && clone.attributes == (if kind == Element then attributes else [])
    {
      match kind
      case Text => clone := new Node(Text, "", data);
      case Fragment => clone := new Node(Fragment, "", None);
      case Document => clone := null;
      case Element =>
        clone := CreateElement(tag);
        if clone != null {
          var i := 0;
          while i < |attributes|
            invariant i <= |attributes| && clone.attributes == attributes[..i]
            invariant clone.Links() == Row(null, null, null, null, null, [], 0, 0) && clone.data == None
          {
            clone.attributes := clone.attributes + [attributes[i]];
            i := i + 1;
          }
        }
    }

    /** Clones this node, and with deep all below it, into a fresh forest F; null when some element met
        has no constructor. t is what this node looks like. */
    method CloneNode(deep: bool, ghost t: Tree, ghost S: set<Node>) returns (clone: Node?, ghost F: set<Node>)
      requires Sound(Snapshot(S)) && Shape(this, t, S)
      ensures fresh(F) && (clone == null <==> !Clonable(t, deep))
      ensures clone != null ==>
        clone.kind == kind && clone.parentNode == null && Sound(Snapshot(F)) && Shape(clone, Copied(t, deep), F)
      decreases t, 1
    {
      hide Sound, Shape;
      ShapeTop(this, t, S);
      clone := CloneSelf();
      F := {};
      if clone == null { return; }
      AloneSound(clone);
      if deep {
        GrowingNone(clone, t);
        var ok: bool;
        ok, F := CloneChildren(clone, t, S);
        if !ok { return null, {}; }
        GrownShape(clone, t, F);
      } else {
        F := {clone};
        ShapeAlone(clone, Copied(t, false));
      }
    }

    /** The loop of a deep clone: every child is cloned and appended; stops at the first that fails. */
    method CloneChildren(clone: Node, ghost t: Tree, ghost S: set<Node>) returns (ok: bool, ghost F: set<Node>)
      requires Sound(Snapshot(S)) && Shape(this, t, S)
      requires clone !in S && Sound(Snapshot({clone})) && Growing(clone, t, 0, {clone})
      modifies clone`firstChild, clone`lastChild, clone`parentNode, clone`nextSibling
      modifies clone`previousSibling, clone`kids, clone`index, clone`depth
      ensures clone in F && fresh(F - {clone})
      ensures ok <==> forall c :: c in t.children ==> Clonable(c, true)
      ensures ok ==> Sound(Snapshot(F)) && Growing(clone, t, |t.children|, F)
      decreases t, 0
    {
      hide Sound, Shape, Growing, Clonable, Copied;
      ghost var d, i := Snapshot(S), 0;
      ShapeTop(this, t, S);
      FirstChild(d, this);
      F := {clone};
      var child := firstChild;
      while child != null
        invariant i <= |kids| && child == At(kids, i) && clone in F && fresh(F - {clone})
        invariant Sound(Snapshot(F)) && Growing(clone, t, i, F) && Snapshot(S) == d && Shape(this, t, S)
        invariant forall j :: 0 <= j < i ==> Clonable(t.children[j], true)
        decreases |kids| - i
      {
        NextChild(d, this, i);
        ShapeChild(this, t, S, i);
        ok, F := child.CloneOnto(clone, t, i, F, S);
        if !ok { return; }
        i := i + 1;
        child := child.nextSibling;
      }
      ok := true;
    }

    /** Clones this node, child i of what is being cloned, and appends the clone. */
    method CloneOnto(clone: Node, ghost t: Tree, ghost i: nat, ghost F: set<Node>, ghost S: set<Node>)
      returns (ok: bool, ghost G: set<Node>)
      requires Sound(Snapshot(S)) && i < |t.children| && Shape(this, t.children[i], S) && kind != Fragment
      requires Sound(Snapshot(F)) && Growing(clone, t, i, F) && F !! S
      modifies F`firstChild, F`lastChild, F`parentNode, F`nextSibling, F`previousSibling, F`kids, F`index, F`depth
      ensures F <= G && fresh(G - F) && (ok <==> Clonable(t.children[i], true))
      ensures ok ==> Sound(Snapshot(G)) && Growing(clone, t, i + 1, G)
      decreases t.children[i], 2
    {
      hide Sound, Shape, Growing, Clonable, Copied;
      var c, H := CloneNode(true, t.children[i], S);
      if c == null { return false, F; }
      clone.Adopt(c, t, i, F, H);
      return true, F + H;
    }

    /** Appends c, the root of its own fresh forest H, as child i of a clone that is being built in F. */
    method Adopt(c: Node, ghost t: Tree, ghost i: nat, ghost F: set<Node>, ghost H: set<Node>)
      requires Sound(Snapshot(F)) && Sound(Snapshot(H)) && F !! H && i < |t.children| && Growing(this, t, i, F)
      requires c.kind != Fragment && c.parentNode == null && Shape(c, Copied(t.children[i], true), H)
      modifies (F + H)`firstChild, (F + H)`lastChild, (F + H)`parentNode, (F + H)`nextSibling
      modifies (F + H)`previousSibling, (F + H)`kids, (F + H)`index, (F + H)`depth
      ensures Sound(Snapshot(F + H)) && Growing(this, t, i + 1, F + H)
    {
      hide Sound, Without, Copied, Snapshot, Ancestors;
      ghost var G := F - {this};
      RootsMeet(this, c, F, H);
      GrowingWider(this, t, i, F, H);
      ShapeGrows(c, Copied(t.children[i], true), H, G + H);
      label before:
      AppendChild(c, F + H);
      assert forall n :: n in G + H ==> n.kids == old@before(n.kids);
      assert F + H - {this} == G + H;
      assert kids == old(kids) + [c];
      forall j | 0 <= j <= i ensures Shape(kids[j], Copied(t.children[j], true), G + H) {
        assert old@before(Shape(if j == i then c else kids[j], Copied(t.children[j], true), G + H));
      }
    }
  }

  /** Two roots of separate forests: either may be appended to the other. */
  lemma RootsMeet(p: Node, c: Node, F: set<Node>, H: set<Node>)
    requires Sound(Snapshot(F)) && Sound(Snapshot(H)) && F !! H
    requires p in F && c in H && p.parentNode == null && c.parentNode == null
    ensures Sound(Snapshot(F + H)) && c !in Ancestors(Snapshot(F + H), p)
    ensures forall n :: n in F + H ==> Without(n.kids, c) == n.kids
  {
    UnionSound(F, H);
    var d := Snapshot(F + H);
    RootAlone(d, p);
    forall n | n in F + H ensures Without(n.kids, c) == n.kids { Elsewhere(d, c, n); }
  }

  lemma GrowingWider(n: Node, t: Tree, i: nat, F: set<Node>, H: set<Node>)
    requires Growing(n, t, i, F) && n !in H
    ensures forall j :: 0 <= j < i ==> Shape(n.kids[j], Copied(t.children[j], true), F - {n} + H)
  {
    forall j | 0 <= j < i ensures Shape(n.kids[j], Copied(t.children[j], true), F - {n} + H) {
      ShapeGrows(n.kids[j], Copied(t.children[j], true), F - {n}, F - {n} + H);
    }
  }

  lemma ShapeTop(n: Node, t: Tree, S: set<Node>)
    requires Shape(n, t, S)
    ensures n in S && n.kind == t.kind && n.tag == t.tag && n.data == t.data && n.attributes == t.attributes
    ensures |n.kids| == |t.children|
  {
  }

  lemma ShapeChild(n: Node, t: Tree, S: set<Node>, i: nat)
    requires Shape(n, t, S) && i < |t.children|
    ensures i < |n.kids| && Shape(n.kids[i], t.children[i], S)
  {
  }

  lemma ShapeAlone(n: Node, t: Tree)
    requires n.kind == t.kind && n.tag == t.tag && n.data == t.data && n.attributes == t.attributes
    requires n.kids == [] && t.children == []
    ensures Shape(n, t, {n})
  {
  }

  lemma GrowingNone(n: Node, t: Tree)
    requires n.kids == [] && n.parentNode == null
    ensures Growing(n, t, 0, {n})
  {
  }

  /** n has as children the clones of the first i children of t, in F and away from n itself. */
  ghost predicate Growing(n: Node, t: Tree, i: nat, F: set<Node>)
    reads F`kids, F`data, F`attributes, F`parentNode
  {
    && n in F && n.parentNode == null && |n.kids| == i <= |t.children|
    && forall j :: 0 <= j < i ==> Shape(n.kids[j], Copied(t.children[j], true), F - {n})
  }

  lemma GrownShape(n: Node, t: Tree, F: set<Node>)
    requires Growing(n, t, |t.children|, F)
    requires n.kind == t.kind && n.tag == (if t.kind == Element then Upper(t.tag) else "")
    requires n.data == (if t.kind == Text then t.data else None)
    requires n.attributes == (if t.kind == Element then t.attributes else [])
    ensures Shape(n, Copied(t, true), F)
  {
    var r := Copied(t, true);
    forall j | 0 <= j < |n.kids| ensures Shape(n.kids[j], r.children[j], F) {
      ShapeGrows(n.kids[j], r.children[j], F - {n}, F);
    }
  }

  lemma AloneSound(n: Node)
    requires n.Links() == Row(null, null, null, null, null, [], 0, 0)
    ensures Sound(Snapshot({n}))
  {
  }

  lemma RootAlone(d: Doc, n: Node)
    requires Sound(d) && n in d && d[n].parent == null
    ensures Ancestors(d, n) == {n}
  {
  }

  /** Two separate forests make one. */
  lemma UnionSound(F: set<Node>, H: set<Node>)
    requires Sound(Snapshot(F)) && Sound(Snapshot(H)) && F !! H
    ensures Sound(Snapshot(F + H))
  {
    var d, f, h := Snapshot(F + H), Snapshot(F), Snapshot(H);
    forall n | n in d ensures Good(d, n) {
      var e := if n in F then f else h;
      assert Good(e, n);
      forall i | 0 <= i < |d[n].kids| ensures Child(d, n, i) { assert Child(e, n, i); }
    }
  }

  /** Elements have upper case tags, from a fixed list; null stands for the error on any other. */
  method CreateElement(tagName: string) returns (node: Node?)
    ensures node == null <==> !Known(Upper(tagName))
    ensures node != null ==>
      && fresh(node) && node.Links() == Row(null, null, null, null, null, [], 0, 0)
      && node.kind == Element && node.tag == Upper(tagName) && node.data == None && node.attributes == []
  {
    if !Known(Upper(tagName)) { return null; }
    node := new Node(Element, Upper(tagName), None);
  }

  /** Inserting c before the second of two children: c knows its next sibling and not its previous one. */
  lemma MiddlePut(d: Doc, p: Node, a: Node, b: Node, c: Node, A: set<Node>)
    requires Sound(d) && {p, a, b, c} <= d.Keys && d[p].kids == [a, b] && d[c].parent == null && c.kind != Fragment
    requires UpClosed(d, A) && p in A && c !in A
    ensures var e := PutBefore(d, p, c, b, A);
      && e.Keys == d.Keys && e[p].first == a && e[p].last == b && e[a].next == c
      && e[c].next == b && e[b].prev == c && e[c].prev == null && e[c].parent == p
  {
    assert Good(d, p) && Child(d, p, 0) && Child(d, p, 1) && Good(d, a) && Good(d, b) && Good(d, c);
    assert PutBefore(d, p, c, b, A) == Inserted(d, p, c, 1, A);
  }

  lemma MiddleNow(S: set<Node>, p: Node, a: Node, b: Node, c: Node)
    requires Sound(Snapshot(S)) && {p, a, b, c} <= S && p.kids == [a, b] && p != c && c.kind != Fragment
    requires p.parentNode == null && c.parentNode == null
    ensures UpClosed(Snapshot(S), {p})
    ensures var e := PutBefore(Snapshot(S), p, c, b, {p});
      && e.Keys == S && e[p].first == a && e[p].last == b && e[a].next == c
      && e[c].next == b && e[b].prev == c && e[c].prev == null && e[c].parent == p
  {
    hide Sound, PutBefore;
    MiddlePut(Snapshot(S), p, a, b, c, {p});
  }

  /** Such a node is in no order of children, whatever else the links are. */
  lemma Astray(d: Doc, p: Node, n: Node)
    requires p in d && n in d && d[n].parent == p && d[n].prev == null && d[p].first != n
    ensures !Sound(d)
  {
    assert !Good(d, n) || !Good(d, p);
  }

  /** Two children, appended one after the other. */
  method TwoChildren(p: Node, a: Node, b: Node, ghost S: set<Node>)
    requires {p, a, b} <= S && p != a && p != b && a != b && a.kind == Text && b.kind == Text
    requires forall n :: n in S ==> n.Links() == Row(null, null, null, null, null, [], 0, 0)
    modifies S`firstChild, S`lastChild, S`parentNode, S`nextSibling, S`previousSibling, S`kids, S`index, S`depth
    ensures Sound(Snapshot(S)) && p.kids == [a, b] && p.parentNode == null
    ensures forall n :: n in S && n != a && n != b ==> n.parentNode == null
  {
    EmptySound(S);
    hide Sound, Without;
    RootAlone(Snapshot(S), p);
    p.AppendChild(a, S);
    assert p.kids == [a] by { WithoutNone([], a); }
    RootAlone(Snapshot(S), p);
    label before:
    p.AppendChild(b, S);
    assert p.kids == old@before(p.kids) + [b] by { WithoutNone([a], b); }
  }

  lemma EmptySound(S: set<Node>)
    requires forall n :: n in S ==> n.Links() == Row(null, null, null, null, null, [], 0, 0)
    ensures Sound(Snapshot(S))
  {
    var d := Snapshot(S);
    forall n | n in d ensures Good(d, n) {}
  }

  /** A document, built with the operations of this file, that inserting a node in the middle of a list breaks. */
  method InsertInMiddle() returns (p: Node, a: Node, b: Node, c: Node)
    ensures fresh({p, a, b, c}) && p.firstChild == a && p.lastChild == b
    ensures a.nextSibling == c && c.nextSibling == b && b.previousSibling == c
    ensures c.parentNode == p && c.previousSibling == null
    ensures !Sound(Snapshot({p, a, b, c}))
  {
    p := new Node(Fragment, "", None);
    a := new Node(Text, "", Some("a"));
    b := new Node(Text, "", Some("b"));
    c := new Node(Text, "", Some("c"));
    ghost var S := {p, a, b, c};
    hide Sound, PutBefore, At;
    TwoChildren(p, a, b, S);
    MiddleNow(S, p, a, b, c);
    p.InsertBefore(c, b, {p}, S);
    assert forall n :: n in S ==> Snapshot(S)[n] == n.Links();
    Astray(Snapshot(S), p, c);
  }

  /** Text that was given to an element is not in its clone. */
  method TextContentLost() returns (source: Node, clone: Node)
    ensures fresh(source) && fresh(clone) && source.kind == Element && clone.kind == Element
    ensures source.tag == clone.tag && source.data == Some("x") && clone.data == None
  {
    assert Upper("p") == "P";
    source := CreateElement("p");
    source.data := Some("x");
    ghost var t := Tree(Element, "P", Some("x"), [], []);
    assert Upper("P") == "P" && Clonable(t, true);
    ghost var F;
    clone, F := source.CloneNode(true, t, {source});
    ShapeTop(clone, Copied(t, true), F);
  }

  lemma SnapshotIs(S: set<Node>, d: Doc)
    requires d.Keys == S && forall n :: n in S ==> n.Links() == d[n]
    ensures Snapshot(S) == d
  {
  }

  /** All the links of the nodes of S, now. */
  ghost function Snapshot(S: set<Node>): Doc
    reads S
  {
    map n | n in S :: n.Links()
  }
}
