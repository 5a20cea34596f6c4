/**
 The circular doubly linked lists of adb: the list of pending events, the two lists of local sockets
 and the disconnect list of a transport all link their records through a head of their own, by the
 same assignments. What they hold is the sequence of ids that IdLists works on.
 */
module LinkedLists {
  import opened IdLists

  /** A record with its links; off every list both are null. */
  class Link {
    const id: nat
    var next: Link?
    var prev: Link?

    constructor (id: nat)
      ensures this.id == id && next == null && prev == null
    {
      this.id, next, prev := id, null, null;
    }
  }

  /** The circle: the head, the records in order, the head again. */
  ghost function Ring(head: Link, q: seq<Link>): seq<Link>
  {
    [head] + q + [head]
  }

  /** Neighbours point at each other. */
  ghost predicate Joint(a: Link, b: Link)
    reads a, b
  {
    a.next == b && b.prev == a
  }

  ghost predicate Chained(ring: seq<Link>)
    reads ring
  {
    forall i :: 0 <= i < |ring| - 1 ==> Joint(ring[i], ring[i + 1])
  }

  /** What the list holds, as the other modules see it. */
  ghost function Ids(q: seq<Link>): seq<nat>
  {
    if q == [] then [] else [q[0].id] + Ids(q[1..])
  }

  ghost predicate Distinct(q: seq<Link>)
  {
    forall i, j :: 0 <= i < j < |q| ==> q[i].id != q[j].id
  }

  lemma {:induction false} IdsSnoc(q: seq<Link>, n: Link)
    ensures Ids(q + [n]) == Ids(q) + [n.id]
  {
    if q == [] {
      assert q + [n] == [n] && [n][1..] == [];
    } else {
      assert (q + [n])[1..] == q[1..] + [n];
      IdsSnoc(q[1..], n);
    }
  }

  lemma {:induction false} IdsAway(q: seq<Link>, id: nat)
    requires forall i :: 0 <= i < |q| ==> q[i].id != id
    ensures Without(Ids(q), id) == Ids(q)
  {
    if q != [] {
      IdsAway(q[1..], id);
    }
  }

  lemma {:induction false} IdsWithout(q: seq<Link>, i: nat)
    requires Distinct(q) && i < |q|
    ensures Ids(q[..i] + q[i + 1..]) == Without(Ids(q), q[i].id)
  {
    if i == 0 {
      assert q[..0] + q[1..] == q[1..];
      IdsAway(q[1..], q[0].id);
    } else {
      IdsWithout(q[1..], i - 1);
      var rest := q[..i] + q[i + 1..];
      assert rest[0] == q[0] && rest[1..] == q[1..][..i - 1] + q[1..][i..];
    }
  }

  lemma RingWithout(head: Link, q: seq<Link>, i: nat)
    requires Distinct(q) && i < |q|
    ensures var rest := q[..i] + q[i + 1..];
            var ring, now := Ring(head, q), Ring(head, rest);
            && Distinct(rest) && (forall n :: n in rest ==> n in q)
            && |now| == |ring| - 1 && (forall k :: 0 <= k <= i ==> now[k] == ring[k])
            && (forall k :: i < k < |now| ==> now[k] == ring[k + 1])
  {
  }

  class List {
    const head: Link
    ghost var q: seq<Link>

    ghost predicate Valid()
      reads this, head, q
    {
      && head !in q
      && Distinct(q)
      && Chained(Ring(head, q))
    }

    /** A head that is linked to itself. */
    constructor ()
      ensures Valid() && q == [] && fresh(head)
    {
      var h := new Link(0);
      head, q := h, [];
      new;
      head.next := head;
      head.prev := head;
    }

    /** The neighbours of a place of the circle. */
    lemma Around(i: nat)
      requires Valid() && i < |q|
      ensures var a, b := Ring(head, q)[i], Ring(head, q)[i + 2];
              && q[i].prev == a && q[i].next == b && a.next == q[i] && b.prev == q[i]
              && (i == 0 <==> a == head) && (i > 0 ==> a == q[i - 1])
              && (i == |q| - 1 <==> b == head) && (i < |q| - 1 ==> b == q[i + 1])
    {
      var ring := Ring(head, q);
      assert ring[i + 1] == q[i];
      assert Joint(ring[i], ring[i + 1]) && Joint(ring[i + 1], ring[i + 2]);
    }

    /** fdevent_plist_enqueue, insert_local_socket and add_transport_disconnect. */
    method Enqueue(n: Link)
      requires Valid() && n != head && forall i :: 0 <= i < |q| ==> q[i].id != n.id
      modifies this`q, head, n, q
      ensures Valid() && q == old(q) + [n] && Ids(q) == Ids(old(q)) + [n.id]
    {
      IdsSnoc(q, n);
      ghost var ring := Ring(head, q);
      assert Joint(ring[|q|], ring[|q| + 1]);
      n.next := head;
      n.prev := head.prev;
      n.prev.next := n;
      head.prev := n;
      q := q + [n];
      forall i | 0 <= i < |Ring(head, q)| - 1 ensures Joint(Ring(head, q)[i], Ring(head, q)[i + 1]) {
        if i < |ring| - 2 {
          assert Ring(head, q)[i] == ring[i] && Ring(head, q)[i + 1] == ring[i + 1];
          assert old(Joint(ring[i], ring[i + 1]));
        }
      }
    }

    /** fdevent_plist_remove and remove_transport_disconnect: the record may be anywhere. */
    method Remove(n: Link, ghost i: nat)
      requires Valid() && i < |q| && q[i] == n
      modifies this`q, head, q
      ensures Valid() && n.next == null && n.prev == null
      ensures q == old(q)[..i] + old(q)[i + 1..] && Ids(q) == Without(Ids(old(q)), n.id)
    {
      IdsWithout(q, i);
      Around(i);
      ghost var ring := Ring(head, q);
      n.prev.next := n.next;
      n.next.prev := n.prev;
      n.next := null;
      n.prev := null;
      q := q[..i] + q[i + 1..];
      RingWithout(head, old(q), i);
      ghost var now := Ring(head, q);
      forall k | 0 <= k < |now| - 1 ensures Joint(now[k], now[k + 1]) {
        if k < i {
          assert old(Joint(ring[k], ring[k + 1]));
        } else if k > i {
          assert old(Joint(ring[k + 1], ring[k + 2]));
        }
      }
    }

    /** remove_socket, which may be asked twice: a record that is on no list is left alone. */
    method RemoveSocket(n: Link)
      requires Valid() && n != head && (n in q || (n.next == null && n.prev == null))
      modifies this`q, head, q
      ensures Valid() && n.next == null && n.prev == null
      ensures Ids(q) == if n in old(q) then Without(Ids(old(q)), n.id) else Ids(old(q))
    {
      if n in q {
        ghost var i :| 0 <= i < |q| && q[i] == n;
        Around(i);
      }
      if n.prev != null && n.next != null {
        ghost var i :| 0 <= i < |q| && q[i] == n;
        Remove(n, i);
      }
    }

    /** fdevent_plist_dequeue: null for an empty list. */
    method Dequeue() returns (n: Link?)
      requires Valid()
      modifies this`q, head, q
      ensures Valid() && (n == null <==> old(q) == [])
      ensures n == null ==> q == []
      ensures n != null ==> n == old(q)[0] && q == old(q)[1..] && n.next == null && n.prev == null
    {
      ghost var ring := Ring(head, q);
      assert Joint(ring[0], ring[1]);
      if head.next == head {
        return null;
      }
      n := head.next;
      Remove(n, 0);
    }

    /** run_transport_disconnects: the next record is noted before the callback of the current one,
        which takes itself off the list. Each is visited once, in order, and none is left. */
    method RunDisconnects() returns (visited: seq<Link>)
      requires Valid()
      modifies this`q, head, q
      ensures Valid() && q == [] && visited == old(q)
    {
      visited := [];
      ghost var all := q;
      var dis := First();
      while dis != head
        invariant |visited| <= |all| && visited == all[..|visited|] && q == all[|visited|..]
        invariant Valid() && dis == Ring(head, q)[1]
        decreases |q|
      {
        Suffix(all, |visited|);
        visited := visited + [dis];
        dis := Disconnect(dis);
      }
    }

    method First() returns (n: Link)
      requires Valid()
      ensures n == Ring(head, q)[1]
    {
      assert Joint(Ring(head, q)[0], Ring(head, q)[1]);
      n := head.next;
    }

    /** One turn of the walk. */
    method Disconnect(dis: Link) returns (next: Link)
      requires Valid() && q != [] && dis == q[0]
      modifies this`q, head, q
      ensures Valid() && q == old(q)[1..] && next == Ring(head, q)[1]
    {
      Around(0);
      next := dis.next;
      Remove(dis, 0);
    }
  }

  lemma Suffix(all: seq<Link>, n: nat)
    requires n < |all|
    ensures all[n..] != [] && all[n] == all[n..][0] && all[n..][1..] == all[n + 1..] && all[..n] + [all[n]] == all[..n + 1]
    ensures forall x :: x in all[n..] ==> x in all
  {
  }
}
