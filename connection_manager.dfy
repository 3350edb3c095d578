/**
 * The connection registry: the lists of connected students and teachers,
 * and the broadcast of a status message to every teacher, which prunes the
 * teachers whose send fails.
 *
 * A socket is a connection handle; the outcome of each send is an input
 * (one boolean per teacher tried) rather than a network operation.
 */
module ConnectionRegistry {

  /** A connection handle; two handles are equal exactly when they denote the same connection. */
  type Socket = nat

  /** Python's `list.remove` when the element is present: drop the first occurrence of `x`; otherwise no change. */
  function RemoveFirst(s: seq<Socket>, x: Socket): (r: seq<Socket>)
    ensures x !in s ==> r == s
    ensures x in s ==> multiset(r) + multiset{x} == multiset(s)
    decreases |s|
  {
    if s == [] then []
    else if s[0] == x then
      assert s == [x] + s[1..];
      s[1..]
    else
      assert s == [s[0]] + s[1..];
      [s[0]] + RemoveFirst(s[1..], x)
  }

  /** Removing `x` skips a prefix that does not hold it. */
  lemma {:induction false} RemoveFirstAfter(a: seq<Socket>, b: seq<Socket>, x: Socket)
    requires x !in a
    ensures RemoveFirst(a + b, x) == a + RemoveFirst(b, x)
    decreases |a|
  {
    if a != [] {
      var ab := a + b;
      assert ab[0] == a[0] && a[0] != x;
      assert ab[1..] == a[1..] + b;
      RemoveFirstAfter(a[1..], b, x);
      calc {
        RemoveFirst(ab, x);
        [a[0]] + RemoveFirst(a[1..] + b, x);
        [a[0]] + (a[1..] + RemoveFirst(b, x));
        { assert a == [a[0]] + a[1..]; }
        a + RemoveFirst(b, x);
      }
    } else {
      assert a + b == b;
    }
  }

  /** The first position holding `x`, given some position that holds it. */
  lemma {:induction false} FirstIndex(s: seq<Socket>, x: Socket, k: nat) returns (i: nat)
    requires k < |s| && s[k] == x
    ensures i <= k && s[i] == x && x !in s[..i]
    decreases k
  {
    if x in s[..k] {
      var j :| 0 <= j < k && s[..k][j] == x;
      i := FirstIndex(s, x, j);
    } else {
      i := k;
    }
  }

  /** The first occurrence is the one removed: `s` splits around it. */
  lemma RemoveFirstSplits(s: seq<Socket>, x: Socket)
    requires x in s
    ensures exists i :: 0 <= i < |s| && s[i] == x && x !in s[..i] && RemoveFirst(s, x) == s[..i] + s[i + 1..]
  {
    var k :| 0 <= k < |s| && s[k] == x;
    var i := FirstIndex(s, x, k);
    assert s == s[..i] + ([x] + s[i + 1..]);
    RemoveFirstAfter(s[..i], [x] + s[i + 1..], x);
    assert RemoveFirst([x] + s[i + 1..], x) == s[i + 1..];
  }

  /** A socket registered and then disconnected leaves the list as it was. */
  lemma ConnectThenDisconnect(s: seq<Socket>, x: Socket)
    requires x !in s
    ensures RemoveFirst(s + [x], x) == s
  {
    RemoveFirstAfter(s, [x], x);
    assert RemoveFirst([x], x) == [];
  }

  /** Among the first `n` teachers tried, those whose send failed, in order. */
  function Failed(tried: seq<Socket>, sendOk: seq<bool>, n: nat): seq<Socket>
    requires |sendOk| == |tried| && n <= |tried|
  {
    if n == 0 then []
    else if sendOk[n - 1] then Failed(tried, sendOk, n - 1)
    else Failed(tried, sendOk, n - 1) + [tried[n - 1]]
  }

  /** Among the first `n` teachers tried, those that received the message, in order. */
  function Delivered(tried: seq<Socket>, sendOk: seq<bool>, n: nat): seq<Socket>
    requires |sendOk| == |tried| && n <= |tried|
  {
    if n == 0 then []
    else if sendOk[n - 1] then Delivered(tried, sendOk, n - 1) + [tried[n - 1]]
    else Delivered(tried, sendOk, n - 1)
  }

  /** `s` after removing (the first occurrence of) each of `xs`, in order. */
  function RemoveEach(s: seq<Socket>, xs: seq<Socket>): seq<Socket>
    decreases |xs|
  {
    if xs == [] then s else RemoveFirst(RemoveEach(s, xs[..|xs| - 1]), xs[|xs| - 1])
  }

  lemma RemoveEachSnoc(s: seq<Socket>, xs: seq<Socket>, x: Socket)
    ensures RemoveEach(s, xs + [x]) == RemoveFirst(RemoveEach(s, xs), x)
  {
    assert (xs + [x])[..|xs|] == xs;
  }

  /** The teacher list a broadcast leaves behind: every failed send removes its teacher once. */
  function Pruned(teachers: seq<Socket>, sendOk: seq<bool>): seq<Socket>
    requires |sendOk| == |teachers|
  {
    RemoveEach(teachers, Failed(teachers, sendOk, |teachers|))
  }

  /** The teachers tried so far split into those that failed and those delivered to. */
  lemma {:induction false} TriedSplit(copy: seq<Socket>, sendOk: seq<bool>, i: nat)
    requires |sendOk| == |copy| && i <= |copy|
    ensures multiset(copy[..i]) == multiset(Failed(copy, sendOk, i)) + multiset(Delivered(copy, sendOk, i))
    decreases i
  {
    if i > 0 {
      TriedSplit(copy, sendOk, i - 1);
      assert copy[..i] == copy[..i - 1] + [copy[i - 1]];
    }
  }

  /** Counting occurrences: a socket at position `i` outnumbers its removals among the first `i`. */
  lemma CountArgument(copy: seq<Socket>, i: nat, rest: seq<Socket>, f: seq<Socket>, d: seq<Socket>)
    requires i < |copy|
    requires multiset(rest) + multiset(f) == multiset(copy)
    requires multiset(copy[..i]) == multiset(f) + multiset(d)
    ensures copy[i] in rest
  {
    var x, pre, post := copy[i], copy[..i], copy[i + 1..];
    assert copy == pre + [x] + post;
    assert multiset(copy) == multiset(pre) + multiset{x} + multiset(post);
    assert multiset(copy)[x] == multiset(pre)[x] + 1 + multiset(post)[x];
    assert multiset(pre)[x] == multiset(f)[x] + multiset(d)[x];
    assert multiset(copy)[x] == multiset(rest)[x] + multiset(f)[x];
    assert x in multiset(rest);
  }

  /**
   * If every failed teacher so far has been removed once, the failed teacher
   * tried next is still registered, so `remove` never finds it missing.
   */
  lemma StillRegistered(copy: seq<Socket>, sendOk: seq<bool>, i: nat)
    requires |sendOk| == |copy| && i < |copy|
    requires multiset(RemoveEach(copy, Failed(copy, sendOk, i))) + multiset(Failed(copy, sendOk, i)) == multiset(copy)
    ensures copy[i] in RemoveEach(copy, Failed(copy, sendOk, i))
  {
    TriedSplit(copy, sendOk, i);
    CountArgument(copy, i, RemoveEach(copy, Failed(copy, sendOk, i)), Failed(copy, sendOk, i), Delivered(copy, sendOk, i));
  }

  /** Removing one more present socket keeps the count balanced. */
  lemma RemoveStep(copy: seq<Socket>, rest: seq<Socket>, f: seq<Socket>, x: Socket)
    requires multiset(rest) + multiset(f) == multiset(copy)
    requires x in rest
    ensures multiset(RemoveFirst(rest, x)) + multiset(f + [x]) == multiset(copy)
  {
    assert multiset(f + [x]) == multiset(f) + multiset{x};
  }

  /** The balance survives one more failed send. */
  lemma FailedSendStep(copy: seq<Socket>, sendOk: seq<bool>, j: nat)
    requires |sendOk| == |copy| && j < |copy| && !sendOk[j]
    requires multiset(RemoveEach(copy, Failed(copy, sendOk, j))) + multiset(Failed(copy, sendOk, j)) == multiset(copy)
    ensures multiset(RemoveEach(copy, Failed(copy, sendOk, j + 1))) + multiset(Failed(copy, sendOk, j + 1)) == multiset(copy)
  {
    var x, f0 := copy[j], Failed(copy, sendOk, j);
    var f1 := f0 + [x];
    assert Failed(copy, sendOk, j + 1) == f1;
    StillRegistered(copy, sendOk, j);
    var r0 := RemoveEach(copy, f0);
    RemoveEachSnoc(copy, f0, x);
    assert RemoveEach(copy, f1) == RemoveFirst(r0, x);
    RemoveStep(copy, r0, f0, x);
  }

  /** Halfway through a broadcast, every failed teacher tried so far has been removed exactly once. */
  lemma {:induction false} RemovedOnce(copy: seq<Socket>, sendOk: seq<bool>, i: nat)
    requires |sendOk| == |copy| && i <= |copy|
    ensures multiset(RemoveEach(copy, Failed(copy, sendOk, i))) + multiset(Failed(copy, sendOk, i)) == multiset(copy)
    decreases i
  {
    if i > 0 {
      RemovedOnce(copy, sendOk, i - 1);
      if !sendOk[i - 1] {
        FailedSendStep(copy, sendOk, i - 1);
      } else {
        assert Failed(copy, sendOk, i) == Failed(copy, sendOk, i - 1);
      }
    }
  }

  /**
   * A broadcast keeps exactly the teachers it delivered to: counted with
   * multiplicity, the remaining list and the delivered list hold the same
   * sockets.
   */
  lemma PrunedKeepsDelivered(teachers: seq<Socket>, sendOk: seq<bool>)
    requires |sendOk| == |teachers|
    ensures multiset(Pruned(teachers, sendOk)) == multiset(Delivered(teachers, sendOk, |teachers|))
  {
    var n := |teachers|;
    RemovedOnce(teachers, sendOk, n);
    TriedSplit(teachers, sendOk, n);
    assert teachers[..n] == teachers;
    var p, f, d := multiset(Pruned(teachers, sendOk)), multiset(Failed(teachers, sendOk, n)), multiset(Delivered(teachers, sendOk, n));
    assert p + f == f + d;
    forall y ensures p[y] == d[y] {
      assert (p + f)[y] == (f + d)[y];
    }
  }

  ghost predicate Distinct(s: seq<Socket>)
  {
    forall i, j :: 0 <= i < j < |s| ==> s[i] != s[j]
  }

  /** A delivered socket sits at a position whose send succeeded. */
  lemma {:induction false} DeliveredPositions(tried: seq<Socket>, sendOk: seq<bool>, n: nat, x: Socket)
    requires |sendOk| == |tried| && n <= |tried|
    requires x in Delivered(tried, sendOk, n)
    ensures exists i :: 0 <= i < n && tried[i] == x && sendOk[i]
    decreases n
  {
    if x in Delivered(tried, sendOk, n - 1) {
      DeliveredPositions(tried, sendOk, n - 1, x);
    } else {
      assert tried[n - 1] == x && sendOk[n - 1];
    }
  }

  /** Over distinct teachers, the teacher tried next has not been delivered to yet. */
  lemma NotYetDelivered(teachers: seq<Socket>, sendOk: seq<bool>, j: nat)
    requires |sendOk| == |teachers| && j < |teachers| && Distinct(teachers)
    ensures teachers[j] !in Delivered(teachers, sendOk, j)
  {
    if teachers[j] in Delivered(teachers, sendOk, j) {
      DeliveredPositions(teachers, sendOk, j, teachers[j]);
    }
  }

  /** Removing `x` from a list whose prefix `d` does not hold it drops the `x` right after `d`. */
  lemma SkipPrefix(d: seq<Socket>, x: Socket, rest: seq<Socket>)
    requires x !in d
    ensures RemoveFirst(d + ([x] + rest), x) == d + rest
  {
    RemoveFirstAfter(d, [x] + rest, x);
    assert RemoveFirst([x] + rest, x) == rest;
  }

  /** One failed send over distinct teachers keeps the shape "delivered prefix, then the untried rest". */
  lemma FailedPrefixStep(teachers: seq<Socket>, sendOk: seq<bool>, j: nat)
    requires |sendOk| == |teachers| && j < |teachers| && Distinct(teachers) && !sendOk[j]
    requires RemoveEach(teachers, Failed(teachers, sendOk, j)) == Delivered(teachers, sendOk, j) + teachers[j..]
    ensures RemoveEach(teachers, Failed(teachers, sendOk, j + 1)) == Delivered(teachers, sendOk, j + 1) + teachers[j + 1..]
  {
    var x, rest := teachers[j], teachers[j + 1..];
    var d, f := Delivered(teachers, sendOk, j), Failed(teachers, sendOk, j);
    assert teachers[j..] == [x] + rest;
    assert Failed(teachers, sendOk, j + 1) == f + [x];
    assert Delivered(teachers, sendOk, j + 1) == d;
    RemoveEachSnoc(teachers, f, x);
    NotYetDelivered(teachers, sendOk, j);
    SkipPrefix(d, x, rest);
  }

  /** One successful send keeps the same shape. */
  lemma DeliveredPrefixStep(teachers: seq<Socket>, sendOk: seq<bool>, j: nat)
    requires |sendOk| == |teachers| && j < |teachers| && sendOk[j]
    requires RemoveEach(teachers, Failed(teachers, sendOk, j)) == Delivered(teachers, sendOk, j) + teachers[j..]
    ensures RemoveEach(teachers, Failed(teachers, sendOk, j + 1)) == Delivered(teachers, sendOk, j + 1) + teachers[j + 1..]
  {
    var x, rest := teachers[j], teachers[j + 1..];
    var d := Delivered(teachers, sendOk, j);
    assert teachers[j..] == [x] + rest;
    assert Failed(teachers, sendOk, j + 1) == Failed(teachers, sendOk, j);
    assert Delivered(teachers, sendOk, j + 1) == d + [x];
    assert d + [x] + rest == d + ([x] + rest);
  }

  /** Halfway through a broadcast over distinct teachers: delivered prefix, then the untried rest. */
  lemma {:induction false} PrunedPrefix(teachers: seq<Socket>, sendOk: seq<bool>, k: nat)
    requires |sendOk| == |teachers| && k <= |teachers| && Distinct(teachers)
    ensures RemoveEach(teachers, Failed(teachers, sendOk, k)) == Delivered(teachers, sendOk, k) + teachers[k..]
    decreases k
  {
    if k > 0 {
      PrunedPrefix(teachers, sendOk, k - 1);
      if sendOk[k - 1] {
        DeliveredPrefixStep(teachers, sendOk, k - 1);
      } else {
        FailedPrefixStep(teachers, sendOk, k - 1);
      }
    } else {
      assert teachers[0..] == teachers;
    }
  }

  /** With no teacher registered twice, a broadcast leaves exactly the delivered teachers, in registration order. */
  lemma PrunedWhenDistinct(teachers: seq<Socket>, sendOk: seq<bool>)
    requires |sendOk| == |teachers| && Distinct(teachers)
    ensures Pruned(teachers, sendOk) == Delivered(teachers, sendOk, |teachers|)
    ensures forall i :: 0 <= i < |teachers| && !sendOk[i] ==> teachers[i] !in Pruned(teachers, sendOk)
  {
    var n := |teachers|;
    PrunedPrefix(teachers, sendOk, n);
    assert teachers[n..] == [];
    forall i | 0 <= i < n && !sendOk[i]
      ensures teachers[i] !in Pruned(teachers, sendOk)
    {
      if teachers[i] in Pruned(teachers, sendOk) {
        DeliveredPositions(teachers, sendOk, n, teachers[i]);
      }
    }
  }

  /** Three teachers, the second of which fails: the first and third receive the message and stay; the second is gone. */
  lemma SecondOfThreeFails()
    ensures Delivered([1, 2, 3], [true, false, true], 3) == [1, 3]
    ensures Pruned([1, 2, 3], [true, false, true]) == [1, 3]
    ensures 2 !in Pruned([1, 2, 3], [true, false, true])
  {
    PrunedWhenDistinct([1, 2, 3], [true, false, true]);
  }

  /** The registry object: both lists are updated in place. */
  class ConnectionManager {
    var students: seq<Socket>
    var teachers: seq<Socket>

    constructor ()
      ensures students == [] && teachers == []
    {
      students := [];
      teachers := [];
    }

    method ConnectStudent(ws: Socket)
      modifies this
      ensures students == old(students) + [ws] && teachers == old(teachers)
    {
      students := students + [ws];
    }

    method ConnectTeacher(ws: Socket)
      modifies this
      ensures teachers == old(teachers) + [ws] && students == old(students)
    {
      teachers := teachers + [ws];
    }

    /** Removes the first occurrence of `ws` from whichever lists hold it; a no-op when neither does. */
    method Disconnect(ws: Socket)
      modifies this
      ensures students == RemoveFirst(old(students), ws) && teachers == RemoveFirst(old(teachers), ws)
      ensures ws in old(students) ==> multiset(students) + multiset{ws} == multiset(old(students))
      ensures ws in old(teachers) ==> multiset(teachers) + multiset{ws} == multiset(old(teachers))
      ensures ws !in old(students) && ws !in old(teachers) ==> students == old(students) && teachers == old(teachers)
    {
      if ws in students {
        students := RemoveFirst(students, ws);
      }
      if ws in teachers {
        teachers := RemoveFirst(teachers, ws);
      }
    }

    /**
     * Tries every teacher registered at entry, in order, over a copy of the
     * list; `sendOk[i]` is the outcome of the send to the i-th. A failed send
     * removes that teacher; the rest of the state is untouched.
     */
    method BroadcastToTeachers(sendOk: seq<bool>) returns (delivered: seq<Socket>)
      requires |sendOk| == |teachers|
      modifies this
      ensures students == old(students)
      ensures delivered == Delivered(old(teachers), sendOk, |sendOk|)
      ensures teachers == Pruned(old(teachers), sendOk)
      ensures multiset(teachers) == multiset(delivered)
    {
      var copy := teachers;
      delivered := [];
      for i := 0 to |copy|
        invariant students == old(students)
        invariant teachers == RemoveEach(copy, Failed(copy, sendOk, i))
        invariant delivered == Delivered(copy, sendOk, i)
      {
        if sendOk[i] {
          delivered := delivered + [copy[i]];
        } else {
          RemovedOnce(copy, sendOk, i);
          StillRegistered(copy, sendOk, i);
          // `remove` finds the failed teacher: it is never missing here.
          assert copy[i] in teachers;
          RemoveEachSnoc(copy, Failed(copy, sendOk, i), copy[i]);
          teachers := RemoveFirst(teachers, copy[i]);
        }
      }
      PrunedKeepsDelivered(copy, sendOk);
    }
  }
}
