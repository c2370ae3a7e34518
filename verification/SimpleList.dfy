// The bounded linked list that carries samples through the legacy HAL.

module BoundedQueue {

  /** The last n elements of s, or all of s when it is shorter: what "drop the oldest" leaves. */
  function LastN<T>(s: seq<T>, n: nat): seq<T>
  {
    if |s| <= n then s else s[|s| - n..]
  }

  /** One element added to the rear. As in the list, the oldest is dropped only when the length is
      exactly the limit. */
  function Added<T>(s: seq<T>, x: T, limit: nat): seq<T>
    requires 1 <= limit
  {
    (if |s| == limit then s[1..] else s) + [x]
  }

  /** A second queue spliced to the rear. Nothing happens, not even a truncation, when it is empty. */
  function Mounted<T>(s: seq<T>, t: seq<T>, limit: nat): seq<T>
  {
    if t == [] then s else LastN(s + t, limit)
  }

  /** The end of the sequence, as long as it is and at most n. */
  lemma LastNIsSuffix<T>(s: seq<T>, n: nat)
    ensures var r := LastN(s, n);
      |r| == (if |s| < n then |s| else n) && s == s[..|s| - |r|] + r
  {
  }

  /** Splicing an empty queue changes nothing, even beyond the limit. Otherwise what stays is the end of both
      queues in their order, as long as they are and at most the limit. */
  lemma MountedIsSuffix<T>(s: seq<T>, t: seq<T>, limit: nat)
    ensures var r, all := Mounted(s, t, limit), s + t;
      && (t == [] ==> r == s)
      && (t != [] ==> |r| == (if |all| < limit then |all| else limit) && all == all[..|all| - |r|] + r)
  {
  }

  /** Adding keeps the last elements up to the limit exactly when the queue was within the limit. */
  lemma AddedIsLastN<T>(s: seq<T>, x: T, limit: nat)
    requires 1 <= limit
    ensures |s| <= limit <==> Added(s, x, limit) == LastN(s + [x], limit)
    ensures |s| <= limit <==> |Added(s, x, limit)| <= limit
  {
  }

  lemma LastNDropsHead<T>(s: seq<T>, n: nat)
    requires n < |s|
    ensures LastN(s[1..], n) == LastN(s, n)
  {
  }

  lemma LastNTwice<T>(s: seq<T>, t: seq<T>, n: nat)
    ensures LastN(LastN(s, n) + t, n) == LastN(s + t, n)
  {
  }

  /** A run of additions ends with the last elements of everything that was ever added. */
  function AddAll<T>(s: seq<T>, xs: seq<T>, limit: nat): seq<T>
    requires 1 <= limit
    decreases |xs|
  {
    if xs == [] then s else AddAll(Added(s, xs[0], limit), xs[1..], limit)
  }

  lemma {:induction false} AddAllIsLastN<T>(s: seq<T>, xs: seq<T>, limit: nat)
    requires 1 <= limit && |s| <= limit
    ensures AddAll(s, xs, limit) == LastN(s + xs, limit)
    decreases |xs|
  {
    if xs == [] {
      assert s + xs == s;
    } else {
      AddAllIsLastN(Added(s, xs[0], limit), xs[1..], limit);
      assert Added(s, xs[0], limit) == LastN(s + [xs[0]], limit);
      LastNTwice(s + [xs[0]], xs[1..], limit);
      assert s + [xs[0]] + xs[1..] == s + xs;
    }
  }
}

module SimpleList {
  import opened BoundedQueue
  import opened Sequences
  import opened Wrappers

  type Uint32 = x: int | 0 <= x < 0x1_0000_0000

  const UINT32_MAX := 0xFFFF_FFFF
  const DEFAULT_LIST_LEN: Uint32 := 128

  class ListNode<T> {
    var next: ListNode?<T>
    var pData: T

    constructor (pData: T)
      ensures this.pData == pData && next == null
    {
      this.pData, next := pData, null;
    }
  }

  /** Each node points to the following one and the last one to nothing, which makes them distinct. */
  ghost predicate Chain<T>(nodes: seq<ListNode<T>>)
    reads nodes
  {
    && (forall i :: 0 <= i < |nodes| - 1 ==> nodes[i].next == nodes[i + 1])
    && (nodes != [] ==> nodes[|nodes| - 1].next == null)
  }

  /** A chain that carries the given data, node by node. */
  ghost predicate Carries<T>(nodes: seq<ListNode<T>>, data: seq<T>)
    reads nodes
  {
    && Chain(nodes)
    && |data| == |nodes| && (forall i :: 0 <= i < |nodes| ==> nodes[i].pData == data[i])
  }

  /** Linking the last node of one chain to the first of another makes them one chain. */
  method Join<T>(last: ListNode<T>, first: ListNode<T>,
                 ghost a: seq<ListNode<T>>, ghost b: seq<ListNode<T>>, ghost x: seq<T>, ghost y: seq<T>)
    requires Carries(a, x) && Carries(b, y)
    requires a != [] && last == a[|a| - 1]
    requires b != [] && first == b[0]
    requires forall n :: n in a ==> n !in b
    modifies last`next
    ensures Carries(a + b, x + y)
  {
    assert last in a && last !in b;
    last.next := first;
    var c := a + b;
    forall i | 0 <= i < |c| - 1 ensures c[i].next == c[i + 1] {
      if i >= |a| {
        assert c[i] == b[i - |a|] && c[i + 1] == b[i - |a| + 1];
      }
    }
    assert c[|c| - 1] == b[|b| - 1];
  }

  class BoschSimpleList<T(0)> {
    var head: ListNode?<T>
    var tail: ListNode?<T>
    var listLen: Uint32
    var uplimit: Uint32
    ghost var spine: seq<ListNode<T>>
    ghost var contents: seq<T>

    /** The nodes form a chain of the recorded length. The tail pointer means something only while the
        list is not empty; an empty list may leave it pointing at a node that was freed. */
    ghost predicate Linked()
      reads this, spine
    {
      && 1 <= uplimit
      && listLen == |spine|
      && (if spine == [] then head == null else head == spine[0] && tail == spine[|spine| - 1])
      && Carries(spine, contents)
    }

    /** The only node that linking to the rear changes. */
    ghost function Rear(): (r: set<ListNode<T>>)
      reads this
      ensures forall n :: n in r ==> n in spine
    {
      if spine == [] then {} else {spine[|spine| - 1]}
    }

    /** The invariant every list in the HAL has: it never exceeds its limit. */
    ghost predicate Bounded()
      reads this, spine
    {
      Linked() && listLen <= uplimit
    }

    constructor ()
      ensures Bounded() && contents == [] && spine == [] && uplimit == 128
    {
      head, tail, listLen, spine, contents := null, null, 0, [], [];
      uplimit := DEFAULT_LIST_LEN;
    }

    /** A limit of zero becomes one. The list itself is not shortened. */
    method SetUplimit(limit: Uint32)
      requires Linked()
      modifies `uplimit
      ensures Linked() && uplimit == if limit == 0 then 1 else limit
    {
      uplimit := if limit == 0 then 1 else limit;
    }

    /** Returns -1 and changes nothing when no node can be allocated, -2 when the oldest element had to
        go, and 0 otherwise. */
    method AddRear(pdata: T, outOfMemory: bool) returns (ret: int)
      requires Linked()
      requires listLen < UINT32_MAX || listLen == uplimit
      modifies this, Rear()
      ensures Linked() && uplimit == old(uplimit)
      ensures contents == if outOfMemory then old(contents) else Added(old(contents), pdata, uplimit)
      ensures ret == if outOfMemory then -1 else if old(listLen) == uplimit then -2 else 0
      ensures forall n :: n in spine ==> n in old(spine) || fresh(n)
    {
      if outOfMemory {
        return -1;
      }
      var nod := new ListNode(pdata);
      ret := 0;
      if listLen == uplimit {
        ret := -2;
        var del := GetHeaddata();
      }
      LinkRear(nod, nod, 1, [nod], [pdata]);
    }

    /** Records a chain of nodes as the whole list. */
    method TakeOver(first: ListNode<T>, last: ListNode<T>, count: Uint32,
                    ghost nodes: seq<ListNode<T>>, ghost data: seq<T>)
      requires 1 <= uplimit && Carries(nodes, data)
      requires count == |nodes| > 0 && first == nodes[0] && last == nodes[count - 1]
      modifies `head, `tail, `listLen, `spine, `contents
      ensures Linked() && uplimit == old(uplimit) && spine == nodes && contents == data
    {
      tail, head, listLen := last, first, count;
      spine, contents := nodes, data;
    }

    /** Links a chain of nodes to the rear, or makes it the whole list when the list is empty. */
    method LinkRear(first: ListNode<T>, last: ListNode<T>, count: Uint32,
                    ghost nodes: seq<ListNode<T>>, ghost data: seq<T>)
      requires Linked() && Carries(nodes, data)
      requires count == |nodes| > 0 && first == nodes[0] && last == nodes[count - 1]
      requires listLen + count <= UINT32_MAX
      requires forall n :: n in spine ==> n !in nodes
      modifies `head, `tail, `listLen, `spine, `contents, Rear()
      ensures Linked() && uplimit == old(uplimit)
      ensures spine == old(spine) + nodes && contents == old(contents) + data
    {
      if head == null {
        Left(nodes);
        Left(data);
        TakeOver(first, last, count, nodes, data);
      } else {
        Ends(spine, nodes);
        Join(tail, first, spine, nodes, contents, data);
        TakeOver(head, last, listLen + count, spine + nodes, contents + data);
      }
    }

    /** Removes and returns the oldest element, if there is one. The tail pointer is not touched. */
    method GetHeaddata() returns (pdata: Option<T>)
      requires Linked()
      modifies `head, `listLen, `spine, `contents
      ensures Linked() && uplimit == old(uplimit)
      ensures old(contents) == [] ==> pdata == None && spine == [] && contents == []
      ensures old(contents) != [] ==>
        pdata == Some(old(contents)[0]) && spine == old(spine)[1..] && contents == old(contents)[1..]
      ensures tail == old(tail)
    {
      if listLen == 0 {
        return None;
      }
      pdata := Some(head.pData);
      head := head.next;
      listLen, spine, contents := listLen - 1, spine[1..], contents[1..];
      assert spine != [] ==> head == spine[0];
    }

    /** Splices the other list to the rear in constant time, then drops the oldest elements beyond the
        limit. Splicing a list onto itself is not defined. */
    method MountRear(listForMnt: BoschSimpleList?<T>) returns (ret: int)
      requires Linked()
      requires listForMnt != null ==>
        && listForMnt != this && listForMnt.Linked()
        && (forall n :: n in spine ==> n !in listForMnt.spine)
        && listLen + listForMnt.listLen <= UINT32_MAX
      modifies this, listForMnt, Rear()
      ensures Linked() && uplimit == old(uplimit)
      ensures listForMnt == null ==> contents == old(contents) && spine == old(spine) && ret == 0
      ensures listForMnt != null ==>
        && listForMnt.Linked() && listForMnt.spine == [] && listForMnt.contents == []
        && listForMnt.uplimit == old(listForMnt.uplimit)
        && contents == Mounted(old(contents), old(listForMnt.contents), uplimit)
        && ret == (if old(listForMnt.listLen) > 0 && old(listLen + listForMnt.listLen) > uplimit then -1 else 0)
        && forall n :: n in spine ==> n in old(spine) || n in old(listForMnt.spine)
    {
      ret := 0;
      if listForMnt == null || listForMnt.listLen == 0 {
        return 0;
      }
      Splice(listForMnt);
      ret := Truncate();
    }

    /** Drops the oldest elements beyond the limit and reports whether there were any. */
    method Truncate() returns (ret: int)
      requires Linked()
      modifies `head, `listLen, `spine, `contents
      ensures Bounded() && uplimit == old(uplimit)
      ensures spine == LastN(old(spine), uplimit)
      ensures contents == LastN(old(contents), uplimit)
      ensures ret == if old(listLen) > uplimit then -1 else 0
    {
      ret := 0;
      ghost var n := |spine|;
      while listLen > uplimit
        invariant Linked() && uplimit == old(uplimit)
        invariant LastN(spine, uplimit) == LastN(old(spine), uplimit)
        invariant LastN(contents, uplimit) == LastN(old(contents), uplimit)
        invariant |spine| <= n && ret == if |spine| < n then -1 else 0
      {
        ret := -1;
        LastNDropsHead(spine, uplimit);
        LastNDropsHead(contents, uplimit);
        var pdata := GetHeaddata();
      }
    }

    /** The constant-time part of mounting: all nodes of a non-empty list change hands. */
    method Splice(listForMnt: BoschSimpleList<T>)
      requires Linked() && listForMnt != this && listForMnt.Linked() && listForMnt.listLen > 0
      requires forall n :: n in spine ==> n !in listForMnt.spine
      requires listLen + listForMnt.listLen <= UINT32_MAX
      modifies `head, `tail, `listLen, `spine, `contents, listForMnt, Rear()
      ensures Linked() && uplimit == old(uplimit)
      ensures spine == old(spine) + old(listForMnt.spine)
      ensures contents == old(contents) + old(listForMnt.contents)
      ensures listForMnt.Linked() && listForMnt.spine == [] && listForMnt.uplimit == old(listForMnt.uplimit)
    {
      LinkRear(listForMnt.head, listForMnt.tail, listForMnt.listLen, listForMnt.spine, listForMnt.contents);
      listForMnt.head, listForMnt.tail, listForMnt.listLen := null, null, 0;
      listForMnt.spine, listForMnt.contents := [], [];
    }

    method Clean()
      requires Linked()
      modifies `head, `listLen, `spine, `contents
      ensures Linked() && contents == [] && spine == [] && uplimit == old(uplimit)
    {
      while listLen != 0
        invariant Linked() && uplimit == old(uplimit)
      {
        var pdata := GetHeaddata();
      }
    }
  }
}
