/** What releasing a key, and all the keys of an ESI, does to the tables of the Planificador. */
module Release {
  import opened Locks
  import opened Lists

  /** The ready and blocked queues, the lock table and the waiter list. */
  datatype Tables = Tables(ready: seq<int>, blocked: seq<int>, locks: seq<Lock>, waiters: seq<Waiter>)

  // the conditions that lists are filtered by and removed from with

  function NotIn(gone: seq<int>): int -> bool {
    x => x !in gone
  }

  function Is(e: int): int -> bool {
    x => x == e
  }

  function LockNotIn(ks: seq<Key>): Lock -> bool {
    (l: Lock) => l.key !in ks
  }

  function LockOn(k: Key): Lock -> bool {
    (l: Lock) => l.key == k
  }

  function LockOf(e: int): Lock -> bool {
    (l: Lock) => l.esi == e
  }

  function LockNotOf(e: int): Lock -> bool {
    (l: Lock) => l.esi != e
  }

  function WaiterNotIn(gone: seq<int>): Waiter -> bool {
    (w: Waiter) => w.esi !in gone
  }

  function WaiterOf(e: int): Waiter -> bool {
    (w: Waiter) => w.esi == e
  }

  function WaiterOn(k: Key): Waiter -> bool {
    (w: Waiter) => w.key == k
  }

  predicate NoRepeats(q: seq<int>) {
    forall i, j :: 0 <= i < j < |q| ==> q[i] != q[j]
  }

  /** The first ESI waiting for a key, in order of arrival; none or one. */
  function FirstWaiter(waiters: seq<Waiter>, k: Key): (e: seq<int>)
    ensures |e| <= 1
  {
    var i := FirstIndex(waiters, WaiterOn(k));
    if i < 0 then [] else [waiters[i].esi]
  }

  function DropWaiter(waiters: seq<Waiter>, e: int): seq<Waiter> {
    RemoveFirst(waiters, WaiterOf(e))
  }

  function DropLock(locks: seq<Lock>, k: Key): seq<Lock> {
    RemoveFirst(locks, LockOn(k))
  }

  function TakeOut(q: seq<int>, e: int): seq<int> {
    RemoveFirst(q, Is(e))
  }

  /** `update_blocked_esi_queue`: the first waiter of the key becomes ready; the lock goes
      away after a STORE, and also when nobody waited. */
  function Unlock(t: Tables, k: Key, wasStore: bool): Tables {
    var e := FirstWaiter(t.waiters, k);
    if e == [] then t.(locks := DropLock(t.locks, k))
    else Tables(t.ready + e, TakeOut(t.blocked, e[0]),
                if wasStore then DropLock(t.locks, k) else t.locks, DropWaiter(t.waiters, e[0]))
  }

  /** The keys an ESI owns, in the order of the lock table. */
  function OwnedKeys(locks: seq<Lock>, e: int): seq<Key> {
    Map(Keep(locks, LockOf(e)), (l: Lock) => l.key)
  }

  function UnlockAll(t: Tables, ks: seq<Key>): Tables {
    if ks == [] then t else Unlock(UnlockAll(t, ks[..|ks| - 1]), ks[|ks| - 1], true)
  }

  /** The tables after `release_resources`. */
  function Released(t: Tables, e: int): Tables {
    var u := UnlockAll(t, OwnedKeys(t.locks, e));
    u.(waiters := DropWaiter(u.waiters, e), locks := RemoveFirst(u.locks, LockOf(e)))
  }

  /** For each key, its first waiter in order of arrival, if it has one. */
  function Woken(waiters: seq<Waiter>, ks: seq<Key>): seq<int> {
    if ks == [] then [] else Woken(waiters, ks[..|ks| - 1]) + FirstWaiter(waiters, ks[|ks| - 1])
  }

  /** Lock keys, waiters and blocked ESIs do not repeat. */
  ghost predicate Unique(t: Tables) {
    UniqueLocks(t.locks) && UniqueWaiters(t.waiters) && NoRepeats(t.blocked)
  }

  /** The tables when the first waiters of some keys have been woken and the keys released. */
  function Without(t: Tables, ks: seq<Key>, gone: seq<int>): Tables {
    Tables(t.ready + gone, Keep(t.blocked, NotIn(gone)), Keep(t.locks, LockNotIn(ks)),
           Keep(t.waiters, WaiterNotIn(gone)))
  }

  ghost predicate DistinctKeys(ks: seq<Key>) {
    forall i, j :: 0 <= i < j < |ks| ==> ks[i] != ks[j]
  }

  lemma FirstWaiterIn(waiters: seq<Waiter>, k: Key)
    ensures FirstWaiter(waiters, k) != [] ==> Waiter(FirstWaiter(waiters, k)[0], k) in waiters
    ensures FirstWaiter(waiters, k) == [] ==> forall w :: w in waiters ==> w.key != k
  {
    var i := FirstIndex(waiters, WaiterOn(k));
    if i >= 0 {
      assert waiters[i] in waiters && waiters[i] == Waiter(waiters[i].esi, k);
    }
  }

  /** The first request for a key in list order: no request for the key stands before it. */
  lemma FirstWaiterIs(waiters: seq<Waiter>, k: Key)
    ensures FirstWaiter(waiters, k) == [] <==> forall i :: 0 <= i < |waiters| ==> waiters[i].key != k
    ensures FirstWaiter(waiters, k) != [] ==>
              exists i :: 0 <= i < |waiters| && waiters[i] == Waiter(FirstWaiter(waiters, k)[0], k)
                          && forall j :: 0 <= j < i ==> waiters[j].key != k
  {
    var i := FirstIndex(waiters, WaiterOn(k));
    assert forall j :: 0 <= j < (if i < 0 then |waiters| else i) ==> !WaiterOn(k)(waiters[j]);
    if i >= 0 {
      assert waiters[i] == Waiter(FirstWaiter(waiters, k)[0], k);
    }
  }

  lemma {:induction false} WokenWait(waiters: seq<Waiter>, ks: seq<Key>, e: int)
    requires e in Woken(waiters, ks)
    ensures exists k :: k in ks && Waiter(e, k) in waiters
  {
    var front, k := ks[..|ks| - 1], ks[|ks| - 1];
    if e in Woken(waiters, front) {
      WokenWait(waiters, front, e);
      var j :| j in front && Waiter(e, j) in waiters;
      assert j in ks;
    } else {
      FirstWaiterIn(waiters, k);
      assert k in ks && Waiter(e, k) in waiters;
    }
  }

  lemma OneRequest(waiters: seq<Waiter>, v: Waiter, w: Waiter)
    requires UniqueWaiters(waiters) && v in waiters && w in waiters && v.esi == w.esi
    ensures v == w
  {
    var i :| 0 <= i < |waiters| && waiters[i] == v;
    var j :| 0 <= j < |waiters| && waiters[j] == w;
  }

  /** Waking the waiters of other keys does not change who is first for this one. */
  lemma {:induction false} FirstWaiterKept(waiters: seq<Waiter>, k: Key, p: Waiter -> bool)
    requires forall w :: w in waiters && w.key == k ==> p(w)
    ensures FirstWaiter(Keep(waiters, p), k) == FirstWaiter(waiters, k)
  {
    if waiters != [] {
      var front, w := waiters[..|waiters| - 1], waiters[|waiters| - 1];
      assert waiters == front + [w];
      FirstWaiterKept(front, k, p);
      FirstWaiterAppend(front, w, k);
      FirstWaiterAppend(Keep(front, p), w, k);
    }
  }

  lemma FirstWaiterAppend(front: seq<Waiter>, w: Waiter, k: Key)
    ensures FirstWaiter(front + [w], k) ==
            if FirstWaiter(front, k) != [] then FirstWaiter(front, k) else if w.key == k then [w.esi] else []
  {
    assert (front + [w])[..|front|] == front;
  }

  lemma {:induction false} UnlockAllIs(t: Tables, ks: seq<Key>)
    requires Unique(t) && DistinctKeys(ks)
    ensures UnlockAll(t, ks) == Without(t, ks, Woken(t.waiters, ks))
  {
    if ks == [] {
      KeepAll(t.blocked, NotIn([]));
      KeepAll(t.locks, LockNotIn([]));
      KeepAll(t.waiters, WaiterNotIn([]));
    } else {
      var front, k := ks[..|ks| - 1], ks[|ks| - 1];
      UnlockAllIs(t, front);
      UnlockOneMore(t, front, k, Woken(t.waiters, front));
      assert ks == front + [k];
    }
  }

  lemma UnlockOneMore(t: Tables, front: seq<Key>, k: Key, gone: seq<int>)
    requires Unique(t) && k !in front && gone == Woken(t.waiters, front)
    ensures Unlock(Without(t, front, gone), k, true) == Without(t, front + [k], gone + FirstWaiter(t.waiters, k))
  {
    hide UniqueLocks;
    hide Keep;
    var u := Without(t, front, gone);
    OthersWait(t, front, k, gone);
    FirstWaiterKept(t.waiters, k, WaiterNotIn(gone));
    LocksStep(t.locks, front, k);
    var e := FirstWaiter(t.waiters, k);
    if e != [] {
      BlockedStep(t.blocked, gone, e[0]);
      WaitersStep(t.waiters, gone, e[0]);
      assert gone + e == gone + [e[0]];
      assert u.ready + e == t.ready + (gone + e);
    } else {
      assert gone + e == gone;
    }
  }

  /** Nobody who waits for another key has been woken. */
  lemma OthersWait(t: Tables, front: seq<Key>, k: Key, gone: seq<int>)
    requires Unique(t) && k !in front && gone == Woken(t.waiters, front)
    ensures forall w :: w in t.waiters && w.key == k ==> w.esi !in gone
  {
    forall w | w in t.waiters && w.key == k
      ensures w.esi !in gone
    {
      if w.esi in gone {
        WokenWait(t.waiters, front, w.esi);
        var j :| j in front && Waiter(w.esi, j) in t.waiters;
        OneRequest(t.waiters, w, Waiter(w.esi, j));
      }
    }
  }

  lemma LocksStep(locks: seq<Lock>, front: seq<Key>, k: Key)
    requires UniqueLocks(locks)
    ensures DropLock(Keep(locks, LockNotIn(front)), k) == Keep(locks, LockNotIn(front + [k]))
  {
    RemoveFromKept(locks, LockNotIn(front), LockOn(k), LockNotIn(front + [k]));
  }

  lemma BlockedStep(q: seq<int>, gone: seq<int>, e: int)
    requires NoRepeats(q)
    ensures TakeOut(Keep(q, NotIn(gone)), e) == Keep(q, NotIn(gone + [e]))
  {
    RemoveFromKept(q, NotIn(gone), Is(e), NotIn(gone + [e]));
  }

  lemma WaitersStep(waiters: seq<Waiter>, gone: seq<int>, e: int)
    requires UniqueWaiters(waiters)
    ensures DropWaiter(Keep(waiters, WaiterNotIn(gone)), e) == Keep(waiters, WaiterNotIn(gone + [e]))
  {
    RemoveFromKept(waiters, WaiterNotIn(gone), WaiterOf(e), WaiterNotIn(gone + [e]));
  }

  /** `release_resources` exactly: no lock and no waiter entry of the ESI is left; for each
      key it held, the first waiter in order of arrival - and nobody else - becomes ready,
      in the order of the lock table; every other lock, waiter and place in a queue stays. */
  lemma ReleaseExact(t: Tables, e: int)
    requires Unique(t)
    requires forall l, w :: l in t.locks && w in t.waiters && l.esi == e && w.esi == e ==> l.key != w.key
    ensures var woken := Woken(t.waiters, OwnedKeys(t.locks, e));
            && e !in woken
            && Released(t, e) == Tables(
                 t.ready + woken,
                 Keep(t.blocked, NotIn(woken)),
                 Keep(t.locks, LockNotOf(e)),
                 Keep(t.waiters, WaiterNotIn(woken + [e])))
  {
    var ks := OwnedKeys(t.locks, e);
    var woken := Woken(t.waiters, ks);
    OwnedDistinct(t.locks, e);
    UnlockAllIs(t, ks);
    OwnerNotWoken(t, e);
    WaitersStep(t.waiters, woken, e);
    LocksLeft(t.locks, e);
  }

  /** Nobody waits for a key of its own, so the owner is not among the ones it wakes. */
  lemma OwnerNotWoken(t: Tables, e: int)
    requires forall l, w :: l in t.locks && w in t.waiters && l.esi == e && w.esi == e ==> l.key != w.key
    ensures e !in Woken(t.waiters, OwnedKeys(t.locks, e))
  {
    var ks := OwnedKeys(t.locks, e);
    forall x | x in Woken(t.waiters, ks)
      ensures x != e
    {
      WokenWait(t.waiters, ks, x);
      var k :| k in ks && Waiter(x, k) in t.waiters;
      OwnedIs(t.locks, e, k);
      assert Lock(k, e) in t.locks;
    }
  }

  /** The locks on other keys are the locks of others, and none of them is the ESI's. */
  lemma LocksLeft(locks: seq<Lock>, e: int)
    requires UniqueLocks(locks)
    ensures Keep(locks, LockNotIn(OwnedKeys(locks, e))) == Keep(locks, LockNotOf(e))
    ensures RemoveFirst(Keep(locks, LockNotOf(e)), LockOf(e)) == Keep(locks, LockNotOf(e))
  {
    var ks := OwnedKeys(locks, e);
    forall l | l in locks
      ensures l.key !in ks <==> l.esi != e
    {
      OwnedIs(locks, e, l.key);
      OneOwner(locks, l, Lock(l.key, e));
    }
    KeepAgree(locks, LockNotIn(ks), LockNotOf(e));
    var r := Keep(locks, LockNotOf(e));
    assert forall i :: 0 <= i < |r| ==> r[i] in r;
  }

  lemma OneOwner(locks: seq<Lock>, l: Lock, m: Lock)
    requires UniqueLocks(locks) && l in locks && l.key == m.key
    ensures m in locks ==> m == l
  {
    if m in locks {
      var i :| 0 <= i < |locks| && locks[i] == l;
      var j :| 0 <= j < |locks| && locks[j] == m;
    }
  }

  lemma OwnedIs(locks: seq<Lock>, e: int, k: Key)
    ensures k in OwnedKeys(locks, e) <==> Lock(k, e) in locks
  {
    var mine := Keep(locks, LockOf(e));
    if Lock(k, e) in locks {
      var i :| 0 <= i < |mine| && mine[i] == Lock(k, e);
      assert OwnedKeys(locks, e)[i] == k;
    }
    if k in OwnedKeys(locks, e) {
      var i :| 0 <= i < |mine| && OwnedKeys(locks, e)[i] == k;
      assert mine[i] in mine && mine[i] == Lock(k, e);
    }
  }

  lemma OwnedDistinct(locks: seq<Lock>, e: int)
    requires UniqueLocks(locks)
    ensures DistinctKeys(OwnedKeys(locks, e))
  {
    var mine := Keep(locks, LockOf(e));
    forall i, j | 0 <= i < j < |mine|
      ensures mine[i].key != mine[j].key
    {
      KeepAtMostOne(locks, LockOf(e), LockOn(mine[i].key));
    }
  }
}
