/** The disk index: a doubly linked list of files, kept in the order of their time stamps. */
module IndexList {

  // ---------- Time stamps in order ----------

  predicate Sorted(times: seq<int>) {
    forall i, j :: 0 <= i < j < |times| ==> times[i] <= times[j]
  }

  /** Where insert_node puts a time: before the first later one. */
  function Position(times: seq<int>, t: int): (k: nat)
    ensures k <= |times| && (k < |times| ==> t < times[k])
    ensures forall i :: 0 <= i < k ==> times[i] <= t
  {
    if times == [] || t < times[0] then 0 else 1 + Position(times[1..], t)
  }

  function InsertAt<T>(s: seq<T>, k: nat, x: T): seq<T>
    requires k <= |s|
  {
    s[..k] + [x] + s[k..]
  }

  lemma InsertedAt(s: seq<int>, k: nat, x: int, i: nat)
    requires k <= |s| && i < |s|
    ensures InsertAt(s, k, x)[k] == x && InsertAt(s, k, x)[if i < k then i else i + 1] == s[i]
  {
  }

  lemma InsertElements<T>(s: seq<T>, k: nat, x: T)
    requires k <= |s|
    ensures x in InsertAt(s, k, x)
    ensures forall i :: 0 <= i < |InsertAt(s, k, x)| ==> InsertAt(s, k, x)[i] in s || InsertAt(s, k, x)[i] == x
  {
  }

  lemma InsertedOnce<T>(s: seq<T>, k: nat, x: T)
    requires k <= |s|
    ensures multiset(InsertAt(s, k, x)) == multiset(s) + multiset{x}
  {
    var a, b := s[..k], s[k..];
    assert s == a + b;
    assert multiset(a + [x] + b) == multiset(a) + multiset{x} + multiset(b);
  }

  lemma InsertedAlone<T>(x: T)
    ensures InsertAt([], 0, x) == [] + [x]
  {
  }

  lemma SortedInsert(times: seq<int>, k: nat, t: int)
    requires Sorted(times) && k <= |times| && (k < |times| ==> t <= times[k]) && (k > 0 ==> times[k - 1] <= t)
    ensures Sorted(InsertAt(times, k, t))
  {
  }

  lemma SortedWithout(times: seq<int>, k: nat, t: int)
    requires k <= |times| && Sorted(InsertAt(times, k, t))
    ensures Sorted(times)
  {
    var after := InsertAt(times, k, t);
    forall i, j | 0 <= i < j < |times|
      ensures times[i] <= times[j]
    {
      InsertedAt(times, k, t, i);
      InsertedAt(times, k, t, j);
    }
  }

  /** In a sorted list the new time comes behind all equal ones, and the list stays sorted; an unsorted list
      does not become sorted. */
  lemma InsertKeepsSorted(times: seq<int>, t: int)
    ensures Sorted(InsertAt(times, Position(times, t), t)) <==> Sorted(times)
    ensures Sorted(times) ==> forall i :: 0 <= i < |times| ==> (times[i] <= t <==> i < Position(times, t))
  {
    if Sorted(times) {
      SortedInsert(times, Position(times, t), t);
    } else if Sorted(InsertAt(times, Position(times, t), t)) {
      SortedWithout(times, Position(times, t), t);
    }
  }

  function Distance(a: int, b: int): nat {
    if a >= b then a - b else b - a
  }

  /** No time is nearer to t than the one at k. */
  predicate Minimal(times: seq<int>, t: int, k: nat)
    requires k < |times|
  {
    forall j :: 0 <= j < |times| ==> Distance(times[k], t) <= Distance(times[j], t)
  }

  /** What find_nearest_by_time picks: the second entry if none is nearer, otherwise the first of the nearest. */
  predicate Nearest(times: seq<int>, t: int, k: nat)
    requires k < |times|
  {
    && Minimal(times, t, k)
    && (|times| > 1 && Minimal(times, t, 1) ==> k == 1)
    && (|times| == 1 || !Minimal(times, t, 1) ==> forall j :: 0 <= j < k ==> !Minimal(times, t, j))
  }

  lemma NearestIsUnique(times: seq<int>, t: int, k: nat, l: nat)
    requires k < |times| && l < |times| && Nearest(times, t, k) && Nearest(times, t, l)
    ensures k == l
  {
  }

  /** Of two entries that are equally near the later one is taken at the start of a list, else the earlier one. */
  lemma TiesAsCoded(a: int, b: int, c: int)
    requires 0 < a < b < c
    ensures Nearest([0, 2 * a], a, 1) && !Nearest([0, 2 * a], a, 0)
    ensures Nearest([0, a, b, 2 * c - b], c, 2) && !Nearest([0, a, b, 2 * c - b], c, 3)
  {
    var s, t := [0, 2 * a], [0, a, b, 2 * c - b];
    assert Distance(s[0], a) == Distance(s[1], a) == a;
    assert Distance(t[0], c) == c && Distance(t[1], c) == c - a && Distance(t[2], c) == Distance(t[3], c) == c - b;
  }

  /** The entry searched for is between the nearest one and its neighbour, unless the neighbour has the same time. */
  lemma NearestBrackets(times: seq<int>, t: int, k: nat)
    requires k < |times| && Sorted(times) && Minimal(times, t, k)
    ensures t > times[k] && k + 1 < |times| ==> (t < times[k + 1] <==> times[k] != times[k + 1])
    ensures t <= times[k] && k > 0 ==> (times[k - 1] < t <==> times[k - 1] != times[k])
  {
  }

  // ---------- The list ----------

  ghost predicate Distinct<T>(s: seq<T>) {
    forall i, j :: 0 <= i < j < |s| ==> s[i] != s[j]
  }

  lemma DistinctInserted<T>(s: seq<T>, k: nat, x: T)
    requires Distinct(s) && k <= |s| && x !in s
    ensures Distinct(InsertAt(s, k, x))
  {
  }

  class DiskIndex {
    var next: DiskIndex?
    var prev: DiskIndex?
    var rawtime: int
    var usec: nat
    var port: nat
    var fSize: nat
    var fOffset: nat

    /** create_node: all zero. */
    constructor ()
      ensures next == null && prev == null && rawtime == 0 && usec == 0 && port == 0 && fSize == 0 && fOffset == 0
    {
      next, prev, rawtime, usec, port, fSize, fOffset := null, null, 0, 0, 0, 0, 0;
    }
  }

  class DiskIdir {
    var head: DiskIndex?
    var tail: DiskIndex?
    var size: nat
    /** The nodes from head to tail, for the specification. */
    ghost var nodes: seq<DiskIndex>
    ghost var Repr: set<DiskIndex>

    /** Node i is linked to its neighbours in the sequence. */
    ghost predicate Linked(i: nat)
      requires i < |nodes|
      reads `nodes, nodes
    {
      && nodes[i].prev == (if i == 0 then null else nodes[i - 1])
      && nodes[i].next == (if i + 1 == |nodes| then null else nodes[i + 1])
    }

    ghost predicate Valid()
      reads this, nodes
    {
      size == |nodes| && Chained()
    }

    ghost predicate Chained()
      reads `head, `tail, `nodes, `Repr, nodes
    {
      && (forall i :: 0 <= i < |nodes| ==> nodes[i] in Repr)
      && head == (if nodes == [] then null else nodes[0])
      && tail == (if nodes == [] then null else nodes[|nodes| - 1])
      && Distinct(nodes)
      && forall i :: 0 <= i < |nodes| ==> Linked(i)
    }

    ghost function Times(): (t: seq<int>)
      reads this, nodes
      ensures |t| == |nodes| && forall i :: 0 <= i < |t| ==> t[i] == nodes[i].rawtime
    {
      seq(|nodes|, i requires 0 <= i < |nodes| reads this, nodes => nodes[i].rawtime)
    }

    /** The times of a list with a new node, when the old ones had the times `times`. */
    lemma TimesWith(was: seq<DiskIndex>, times: seq<int>, k: nat, indx: DiskIndex)
      requires k <= |was| == |times| && nodes == InsertAt(was, k, indx)
      requires forall i :: 0 <= i < |times| ==> times[i] == was[i].rawtime
      ensures Times() == InsertAt(times, k, indx.rawtime)
    {
    }

    constructor ()
      ensures Valid() && nodes == [] && Repr == {}
    {
      head, tail, size, nodes, Repr := null, null, 0, [], {};
    }

    method AddNode(index: DiskIndex) returns (r: nat)
      requires Valid() && index !in nodes && index.next == null && index.prev == null
      modifies this, Repr`next, index`prev
      ensures Valid() && nodes == old(nodes) + [index] && r == size && Repr == old(Repr) + {index}
    {
      if head == null && tail == null {
        head := index;
        tail := index;
        size := 1;
      } else {
        index.prev := tail;
        tail.next := index;
        tail := index;
        size := size + 1;
      }
      nodes, Repr := nodes + [index], Repr + {index};
      forall i | 0 <= i < |nodes|
        ensures Linked(i)
      {
        assert i < |nodes| - 1 ==> old(Linked(i));
      }
      return size;
    }

    /** The links of a node between two neighbours. */
    method LinkBetween(before: DiskIndex, after: DiskIndex, newIndx: DiskIndex, ghost k: nat)
      requires Valid() && newIndx !in nodes && k + 1 < |nodes| && nodes[k] == before && nodes[k + 1] == after
      modifies this`nodes, this`Repr, Repr`next, Repr`prev, newIndx`next, newIndx`prev
      ensures Chained() && nodes == InsertAt(old(nodes), k + 1, newIndx) && Repr == old(Repr) + {newIndx}
    {
      newIndx.next := after;
      newIndx.prev := before;
      before.next := newIndx;
      after.prev := newIndx;
      DistinctInserted(nodes, k + 1, newIndx);
      nodes, Repr := InsertAt(nodes, k + 1, newIndx), Repr + {newIndx};
      forall i | 0 <= i < |nodes|
        ensures Linked(i)
      {
        assert i <= k ==> old(Linked(i));
        assert i > k + 1 ==> old(Linked(i - 1));
      }
    }

    method LinkFirst(newIndx: DiskIndex)
      requires Valid() && newIndx !in nodes && nodes != []
      modifies this`head, this`nodes, this`Repr, Repr`prev, newIndx`next, newIndx`prev
      ensures Chained() && nodes == InsertAt(old(nodes), 0, newIndx) && Repr == old(Repr) + {newIndx}
    {
      newIndx.next := head;
      newIndx.prev := null;
      head.prev := newIndx;
      head := newIndx;
      DistinctInserted(nodes, 0, newIndx);
      nodes, Repr := InsertAt(nodes, 0, newIndx), Repr + {newIndx};
      forall i | 0 <= i < |nodes|
        ensures Linked(i)
      {
        assert i > 0 ==> old(Linked(i - 1));
      }
    }

    method LinkLast(newIndx: DiskIndex)
      requires Valid() && newIndx !in nodes && nodes != []
      modifies this`tail, this`nodes, this`Repr, Repr`next, newIndx`next, newIndx`prev
      ensures Chained() && nodes == InsertAt(old(nodes), |old(nodes)|, newIndx) && Repr == old(Repr) + {newIndx}
    {
      newIndx.next := null;
      newIndx.prev := tail;
      tail.next := newIndx;
      tail := newIndx;
      DistinctInserted(nodes, |nodes|, newIndx);
      nodes, Repr := InsertAt(nodes, |nodes|, newIndx), Repr + {newIndx};
      forall i | 0 <= i < |nodes|
        ensures Linked(i)
      {
        assert i < |nodes| - 1 ==> old(Linked(i));
      }
    }

    method InsertPrev(parent: DiskIndex, newIndx: DiskIndex, ghost k: nat) returns (r: nat)
      requires Valid() && newIndx !in nodes && k < |nodes| && nodes[k] == parent
      modifies this, Repr`next, Repr`prev, newIndx`next, newIndx`prev
      ensures Valid() && nodes == InsertAt(old(nodes), k, newIndx) && r == size && Repr == old(Repr) + {newIndx}
    {
      assert Linked(k);
      if parent.prev != null {
        LinkBetween(parent.prev, parent, newIndx, k - 1);
      } else {
        LinkFirst(newIndx);
      }
      size := size + 1;
      return size;
    }

    method InsertNext(parent: DiskIndex, newIndx: DiskIndex, ghost k: nat) returns (r: nat)
      requires Valid() && newIndx !in nodes && k < |nodes| && nodes[k] == parent
      modifies this, Repr`next, Repr`prev, newIndx`next, newIndx`prev
      ensures Valid() && nodes == InsertAt(old(nodes), k + 1, newIndx) && r == size && Repr == old(Repr) + {newIndx}
    {
      assert Linked(k);
      if parent.next != null {
        LinkBetween(parent, parent.next, newIndx, k);
      } else {
        LinkLast(newIndx);
      }
      size := size + 1;
      return size;
    }

    /** A new node goes before the first later one, and so behind all others of the same time. */
    method InsertNode(indx: DiskIndex) returns (r: nat)
      requires Valid() && indx !in nodes && indx.next == null && indx.prev == null
      modifies this, Repr`next, Repr`prev, indx`next, indx`prev
      ensures Valid() && r == size && Repr == old(Repr) + {indx}
      ensures nodes == InsertAt(old(nodes), Position(old(Times()), indx.rawtime), indx)
      ensures Times() == InsertAt(old(Times()), Position(old(Times()), indx.rawtime), indx.rawtime)
      ensures Sorted(Times()) <==> Sorted(old(Times()))
    {
      ghost var times, was := Times(), nodes;
      InsertKeepsSorted(times, indx.rawtime);
      hide Sorted, Position, InsertAt, Linked, Times, Distinct;
      ghost var k;
      r, k := InsertInOrder(indx);
      PositionIs(times, indx.rawtime, k);
      TimesWith(was, times, k, indx);
    }

    /** Before the first later node. */
    method InsertInOrder(indx: DiskIndex) returns (r: nat, ghost k: nat)
      requires Valid() && indx !in nodes && indx.next == null && indx.prev == null
      modifies this, Repr`next, Repr`prev, indx`next, indx`prev
      ensures Valid() && r == size && Repr == old(Repr) + {indx}
      ensures k <= |old(nodes)| && nodes == InsertAt(old(nodes), k, indx)
      ensures forall i :: 0 <= i < k ==> old(nodes)[i].rawtime <= indx.rawtime
      ensures k < |old(nodes)| ==> indx.rawtime < old(nodes)[k].rawtime
    {
      hide InsertAt, Linked, Distinct;
      if head == null {
        InsertedAlone(indx);
        k := 0;
        r := AddNode(indx);
      } else {
        var node;
        node, k := Later(indx.rawtime);
        r := InsertBefore(node, indx, k);
      }
    }

    /** Before `node`, or at the end of the list. */
    method InsertBefore(node: DiskIndex?, indx: DiskIndex, ghost k: nat) returns (r: nat)
      requires Valid() && indx !in nodes && nodes != [] && k <= |nodes|
      requires node == if k < |nodes| then nodes[k] else null
      modifies this, Repr`next, Repr`prev, indx`next, indx`prev
      ensures Valid() && nodes == InsertAt(old(nodes), k, indx) && r == size && Repr == old(Repr) + {indx}
    {
      hide InsertAt, Linked, Distinct;
      if node != null {
        r := InsertPrev(node, indx, k);
      } else {
        r := InsertNext(tail, indx, k - 1);
      }
    }

    /** The loop of insert_node: the first later node. */
    method Later(rawtime: int) returns (node: DiskIndex?, ghost k: nat)
      requires Valid()
      ensures Valid() && k <= |nodes| && node == (if k < |nodes| then nodes[k] else null)
      ensures node != null ==> node in nodes && rawtime < node.rawtime
      ensures node == null ==> forall n :: n in nodes ==> n.rawtime <= rawtime
      ensures forall i :: 0 <= i < k ==> nodes[i].rawtime <= rawtime
    {
      node, k := head, 0;
      while node != null
        invariant k <= |nodes| && node == (if k < |nodes| then nodes[k] else null)
        invariant forall i :: 0 <= i < k ==> nodes[i].rawtime <= rawtime
        decreases |nodes| - k
      {
        if rawtime < node.rawtime {
          break;
        }
        assert Linked(k);
        node := node.next;
        k := k + 1;
      }
    }

    method FindByOffset(offset: nat) returns (index: DiskIndex?)
      requires Valid()
      ensures index != null ==> exists k :: 0 <= k < |nodes| && index == nodes[k] && nodes[k].fOffset == offset
                                            && forall i :: 0 <= i < k ==> nodes[i].fOffset != offset
      ensures index == null ==> forall i :: 0 <= i < |nodes| ==> nodes[i].fOffset != offset
    {
      index := head;
      ghost var k := 0;
      while index != null
        invariant k <= |nodes| && index == (if k < |nodes| then nodes[k] else null)
        invariant forall i :: 0 <= i < k ==> nodes[i].fOffset != offset
        decreases |nodes| - k
      {
        if index.fOffset == offset {
          break;
        }
        assert Linked(k);
        index := index.next;
        k := k + 1;
      }
    }

    /** The node of the nearest time stamp; of several, the second of the list or else the first of them. */
    method FindNearestByTime(time: int) returns (ptr: DiskIndex?, ghost k: nat)
      requires Valid()
      ensures ptr == null <==> nodes == []
      ensures ptr != null ==> k < |nodes| && ptr == nodes[k] && Nearest(Times(), time, k)
    {
      ptr, k := null, 0;
      if size == 0 {
        return;
      }
      var index := head;
      assert Linked(0);
      if index.next != null {
        ptr := index.next;
        k := 1;
      } else {
        return index, 0;
      }
      ghost var j := 0;
      while index != null
        invariant j <= |nodes| && index == (if j < |nodes| then nodes[j] else null)
        invariant k < |nodes| && ptr == nodes[k] && |nodes| > 1
        invariant forall i :: 0 <= i < j ==> Distance(ptr.rawtime, time) <= Distance(nodes[i].rawtime, time)
        invariant k == 1 || Distance(ptr.rawtime, time) < Distance(nodes[1].rawtime, time)
        invariant k == 1 || forall i :: 0 <= i < k ==> Distance(ptr.rawtime, time) < Distance(nodes[i].rawtime, time)
        decreases |nodes| - j
      {
        if Distance(index.rawtime, time) < Distance(ptr.rawtime, time) {
          ptr := index;
          k := j;
        }
        assert Linked(j);
        index := index.next;
        j := j + 1;
      }
      assert forall i :: 0 <= i < |nodes| ==> Times()[i] == nodes[i].rawtime;
    }

    /** The loop of remove_node. */
    method Locate(node: DiskIndex, ghost k: nat) returns (ind: DiskIndex?)
      requires Valid() && k < |nodes| && nodes[k] == node
      ensures ind == node
    {
      ind := head;
      ghost var i := 0;
      while ind != null && ind != node
        invariant i <= k && ind == nodes[i]
        decreases k - i
      {
        assert Linked(i);
        ind := ind.next;
        i := i + 1;
      }
    }

    method DetachFirst()
      requires Valid() && |nodes| >= 2
      modifies this`head, this`nodes, this`Repr, Repr`prev
      ensures Chained() && nodes == old(nodes)[..0] + old(nodes)[1..] && Repr == old(Repr) - {old(nodes)[0]}
    {
      assert Linked(0);
      head := head.next;
      head.prev := null;
      nodes, Repr := nodes[..0] + nodes[1..], Repr - {nodes[0]};
      forall i | 0 <= i < |nodes|
        ensures Linked(i)
      {
        assert old(Linked(i + 1));
      }
    }

    method DetachLast()
      requires Valid() && |nodes| >= 2
      modifies this`tail, this`nodes, this`Repr, Repr`next
      ensures Chained() && Repr == old(Repr) - {old(nodes)[|old(nodes)| - 1]}
      ensures nodes == old(nodes)[..|old(nodes)| - 1] + old(nodes)[|old(nodes)|..]
    {
      assert Linked(|nodes| - 1);
      tail := tail.prev;
      tail.next := null;
      nodes, Repr := nodes[..|nodes| - 1] + nodes[|nodes|..], Repr - {nodes[|nodes| - 1]};
      forall i | 0 <= i < |nodes|
        ensures Linked(i)
      {
        assert old(Linked(i));
      }
    }

    method DetachInner(ind: DiskIndex, ghost k: nat)
      requires Valid() && 0 < k < |nodes| - 1 && nodes[k] == ind
      modifies this`nodes, this`Repr, Repr`next, Repr`prev
      ensures Chained() && nodes == old(nodes)[..k] + old(nodes)[k + 1..] && Repr == old(Repr) - {ind}
    {
      assert Linked(k);
      ind.prev.next := ind.next;
      ind.next.prev := ind.prev;
      nodes, Repr := nodes[..k] + nodes[k + 1..], Repr - {ind};
      forall i | 0 <= i < |nodes|
        ensures Linked(i)
      {
        assert i < k ==> old(Linked(i));
        assert i >= k ==> old(Linked(i + 1));
      }
    }

    /** Removes a node of the list; removing the only one ends in the write through a null pointer. */
    method RemoveNode(node: DiskIndex?, ghost k: nat) returns (r: int, fault: bool)
      requires Valid() && (node != null ==> k < |nodes| && nodes[k] == node)
      modifies this, Repr`next, Repr`prev
      ensures (fault <==> node != null && |old(nodes)| == 1) && (!fault ==> Valid())
      ensures node == null || fault ==> r == -1 && nodes == old(nodes)
      ensures node != null && !fault ==>
        r == size && nodes == old(nodes)[..k] + old(nodes)[k + 1..] && Repr == old(Repr) - {node}
    {
      fault := false;
      if node == null {
        return -1, fault;
      }
      assert Linked(k);
      if node == head {
        if node.next == null {
          return -1, true;
        }
        DetachFirst();
      } else if node == tail {
        DetachLast();
      } else {
        var ind := Locate(node, k);
        DetachInner(ind, k);
      }
      size := size - 1;
      return size, fault;
    }
  }

  lemma PositionIs(times: seq<int>, t: int, k: nat)
    requires k <= |times| && (k < |times| ==> t < times[k]) && forall i :: 0 <= i < k ==> times[i] <= t
    ensures Position(times, t) == k
  {
  }
}
