/**
 The order in which lock requests are served: higher priority first and, within one
 priority, earlier arrival first. Two queues that are each kept in this order are read
 together as one queue by `Merge`.
 */
module PriorityOrder {
  /** A pending request: its arrival number and its priority. */
  datatype Request = Request(serial: nat, priority: int)

  predicate Before(a: Request, b: Request) {
    a.priority > b.priority || (a.priority == b.priority && a.serial < b.serial)
  }

  ghost predicate Sorted(q: seq<Request>) {
    forall i, j :: 0 <= i < j < |q| ==> Before(q[i], q[j])
  }

  /** On equal priority everything in `a` arrived before everything in `b`. */
  ghost predicate TiesFavour(a: seq<Request>, b: seq<Request>) {
    forall x, y :: x in a && y in b && x.priority == y.priority ==> x.serial < y.serial
  }

  /** Stable insertion: in front of the first request of strictly lower priority. */
  function Insert(q: seq<Request>, r: Request): seq<Request> {
    if q == [] then [r]
    else if q[0].priority < r.priority then [r] + q
    else [q[0]] + Insert(q[1..], r)
  }

  function Remove(q: seq<Request>, serial: nat): seq<Request> {
    if q == [] then []
    else if q[0].serial == serial then Remove(q[1..], serial)
    else [q[0]] + Remove(q[1..], serial)
  }

  /** Both queues read as one, the first queue winning ties. */
  function Merge(a: seq<Request>, b: seq<Request>): seq<Request> {
    if a == [] then b
    else if b == [] then a
    else if a[0].priority >= b[0].priority then [a[0]] + Merge(a[1..], b)
    else [b[0]] + Merge(a, b[1..])
  }

  lemma SortedCons(head: Request, tail: seq<Request>)
    requires Sorted(tail)
    requires forall x :: x in tail ==> Before(head, x)
    ensures Sorted([head] + tail)
  {
  }

  /** A queue in service order is determined by its members. */
  lemma {:induction false} SortedUnique(p: seq<Request>, q: seq<Request>)
    requires Sorted(p) && Sorted(q)
    requires forall r :: r in p <==> r in q
    ensures p == q
  {
    assert p != [] ==> p[0] in p;
    assert q != [] ==> q[0] in q;
    if p != [] {
      assert p[0] == q[0];
      forall r ensures r in p[1..] <==> r in q[1..] {
        assert r in p <==> r == p[0] || r in p[1..];
        assert r in q <==> r == q[0] || r in q[1..];
      }
      SortedUnique(p[1..], q[1..]);
    }
  }

  lemma {:induction false} InsertMembers(q: seq<Request>, r: Request)
    ensures forall x :: x in Insert(q, r) <==> x == r || x in q
  {
    if q != [] && q[0].priority >= r.priority {
      InsertMembers(q[1..], r);
      assert q == [q[0]] + q[1..];
    }
  }

  lemma {:induction false} InsertSorted(q: seq<Request>, r: Request)
    requires Sorted(q)
    requires forall x :: x in q && x.priority == r.priority ==> x.serial < r.serial
    ensures Sorted(Insert(q, r))
  {
    if q != [] && q[0].priority >= r.priority {
      InsertSorted(q[1..], r);
      InsertMembers(q[1..], r);
      assert forall x :: x in q[1..] ==> Before(q[0], x);
    }
  }

  /** Splicing at the first index of lower priority is the stable insertion. */
  lemma {:induction false} InsertAt(q: seq<Request>, r: Request, p: nat)
    requires p <= |q|
    requires forall i :: 0 <= i < p ==> q[i].priority >= r.priority
    requires p < |q| ==> q[p].priority < r.priority
    ensures Insert(q, r) == q[..p] + [r] + q[p..]
  {
    if p == 0 {
      assert q[..0] + [r] + q[0..] == [r] + q;
    } else {
      InsertAt(q[1..], r, p - 1);
      assert q[..p] + [r] + q[p..] == [q[0]] + (q[1..][..p - 1] + [r] + q[1..][p - 1..]);
    }
  }

  lemma {:induction false} RemoveMembers(q: seq<Request>, serial: nat)
    ensures forall x :: x in Remove(q, serial) <==> x in q && x.serial != serial
  {
    if q != [] {
      RemoveMembers(q[1..], serial);
      assert q == [q[0]] + q[1..];
    }
  }

  lemma {:induction false} RemoveSorted(q: seq<Request>, serial: nat)
    requires Sorted(q)
    ensures Sorted(Remove(q, serial))
  {
    if q != [] {
      RemoveSorted(q[1..], serial);
      RemoveMembers(q[1..], serial);
      assert forall x :: x in q[1..] ==> Before(q[0], x);
    }
  }

  lemma {:induction false} RemoveAbsent(q: seq<Request>, serial: nat)
    requires forall x :: x in q ==> x.serial != serial
    ensures Remove(q, serial) == q
  {
    if q != [] { RemoveAbsent(q[1..], serial); }
  }

  /** Taking out the only position with its arrival number is removal by that number. */
  lemma {:induction false} RemoveOnly(q: seq<Request>, p: nat)
    requires p < |q|
    requires forall i :: 0 <= i < |q| && i != p ==> q[i].serial != q[p].serial
    ensures Remove(q, q[p].serial) == q[..p] + q[p + 1..]
  {
    if p == 0 {
      RemoveAbsent(q[1..], q[0].serial);
    } else {
      assert q[p] == q[1..][p - 1];
      RemoveOnly(q[1..], p - 1);
      assert q[..p] + q[p + 1..] == [q[0]] + (q[1..][..p - 1] + q[1..][p..]);
    }
  }

  lemma {:induction false} MergeMembers(a: seq<Request>, b: seq<Request>)
    ensures forall r :: r in Merge(a, b) <==> r in a || r in b
  {
    if a != [] && b != [] {
      if a[0].priority >= b[0].priority {
        MergeMembers(a[1..], b);
        assert a == [a[0]] + a[1..];
      } else {
        MergeMembers(a, b[1..]);
        assert b == [b[0]] + b[1..];
      }
    }
  }

  lemma {:induction false} MergeLength(a: seq<Request>, b: seq<Request>)
    ensures |Merge(a, b)| == |a| + |b|
  {
    if a != [] && b != [] {
      if a[0].priority >= b[0].priority { MergeLength(a[1..], b); } else { MergeLength(a, b[1..]); }
    }
  }

  lemma {:induction false} MergeSorted(a: seq<Request>, b: seq<Request>)
    requires Sorted(a) && Sorted(b) && TiesFavour(a, b)
    ensures Sorted(Merge(a, b))
  {
    if a != [] && b != [] {
      var x, y := a[0], b[0];
      assert x in a && y in b;
      if x.priority >= y.priority {
        MergeSorted(a[1..], b);
        MergeMembers(a[1..], b);
        HeadFirst(a);
        HeadFirst(b);
        SortedCons(x, Merge(a[1..], b));
      } else {
        MergeSorted(a, b[1..]);
        MergeMembers(a, b[1..]);
        HeadFirst(a);
        HeadFirst(b);
        SortedCons(y, Merge(a, b[1..]));
      }
    }
  }

  lemma HeadFirst(q: seq<Request>)
    requires Sorted(q) && q != []
    ensures forall r :: r in q[1..] ==> Before(q[0], r)
    ensures forall r :: r in q ==> r == q[0] || Before(q[0], r)
  {
  }

  /** A newcomer without an id joins the second queue: one stable insertion in the whole. */
  lemma MergeInsertSecond(a: seq<Request>, b: seq<Request>, r: Request)
    requires Sorted(a) && Sorted(b) && TiesFavour(a, b)
    requires forall x :: x in a || x in b ==> x.serial < r.serial
    ensures Sorted(Insert(b, r)) && TiesFavour(a, Insert(b, r))
    ensures Merge(a, Insert(b, r)) == Insert(Merge(a, b), r)
  {
    InsertSorted(b, r);
    InsertMembers(b, r);
    MergeSorted(a, b);
    MergeMembers(a, b);
    MergeSorted(a, Insert(b, r));
    MergeMembers(a, Insert(b, r));
    InsertSorted(Merge(a, b), r);
    InsertMembers(Merge(a, b), r);
    SortedUnique(Merge(a, Insert(b, r)), Insert(Merge(a, b), r));
  }

  /** A newcomer that is given an id while the second queue is empty. */
  lemma MergeInsertFirst(a: seq<Request>, r: Request)
    requires Sorted(a)
    requires forall x :: x in a ==> x.serial < r.serial
    ensures Sorted(Insert(a, r)) && TiesFavour(Insert(a, r), [])
    ensures Merge(Insert(a, r), []) == Insert(Merge(a, []), r)
  {
    InsertSorted(a, r);
  }

  /** Moving the head of the second queue into the first leaves the whole unchanged. */
  lemma MergePromote(a: seq<Request>, b: seq<Request>)
    requires Sorted(a) && Sorted(b) && TiesFavour(a, b) && b != []
    ensures Sorted(Insert(a, b[0])) && Sorted(b[1..]) && TiesFavour(Insert(a, b[0]), b[1..])
    ensures Merge(Insert(a, b[0]), b[1..]) == Merge(a, b)
  {
    assert b[0] in b;
    InsertSorted(a, b[0]);
    InsertMembers(a, b[0]);
    assert forall y :: y in b[1..] ==> Before(b[0], y) && y in b;
    MergeSorted(a, b);
    MergeMembers(a, b);
    MergeSorted(Insert(a, b[0]), b[1..]);
    MergeMembers(Insert(a, b[0]), b[1..]);
    assert b == [b[0]] + b[1..];
    SortedUnique(Merge(Insert(a, b[0]), b[1..]), Merge(a, b));
  }

  lemma MergeRemove(a: seq<Request>, b: seq<Request>, serial: nat)
    requires Sorted(a) && Sorted(b) && TiesFavour(a, b)
    ensures Sorted(Remove(a, serial)) && Sorted(Remove(b, serial))
    ensures TiesFavour(Remove(a, serial), Remove(b, serial))
    ensures Merge(Remove(a, serial), Remove(b, serial)) == Remove(Merge(a, b), serial)
  {
    RemoveSorted(a, serial);
    RemoveSorted(b, serial);
    RemoveMembers(a, serial);
    RemoveMembers(b, serial);
    MergeSorted(a, b);
    MergeMembers(a, b);
    MergeSorted(Remove(a, serial), Remove(b, serial));
    MergeMembers(Remove(a, serial), Remove(b, serial));
    RemoveSorted(Merge(a, b), serial);
    RemoveMembers(Merge(a, b), serial);
    SortedUnique(Merge(Remove(a, serial), Remove(b, serial)), Remove(Merge(a, b), serial));
  }
}
