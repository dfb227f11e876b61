/** The two tables of the Planificador that say who owns a key and who waits for one. */
module Locks {
  type Key = string

  /** `key_blocker`; the owner -1 is the system itself. */
  datatype Lock = Lock(key: Key, esi: int)

  /** `esi_sexpecting_key`. */
  datatype Waiter = Waiter(esi: int, key: Key)

  const SYSTEM: int := -1
  const NOBODY: int := -1

  predicate IsLocked(locks: seq<Lock>, k: Key) {
    exists j :: 0 <= j < |locks| && locks[j].key == k
  }

  /** `key_is_blocked_by_executing_esi`, for any ESI. */
  predicate Owns(locks: seq<Lock>, e: int, k: Key) {
    exists j :: 0 <= j < |locks| && locks[j] == Lock(k, e)
  }

  predicate Holds(locks: seq<Lock>, e: int) {
    exists j :: 0 <= j < |locks| && locks[j].esi == e
  }

  predicate Waits(waiters: seq<Waiter>, e: int) {
    exists j :: 0 <= j < |waiters| && waiters[j].esi == e
  }

  ghost predicate UniqueLocks(locks: seq<Lock>) {
    forall i, j :: 0 <= i < j < |locks| ==> locks[i].key != locks[j].key
  }

  ghost predicate UniqueWaiters(waiters: seq<Waiter>) {
    forall i, j :: 0 <= i < j < |waiters| ==> waiters[i].esi != waiters[j].esi
  }

  /** The first waiter entry of an ESI, -1 for none. */
  function RequestIndex(waiters: seq<Waiter>, e: int): (i: int)
    ensures -1 <= i < |waiters| && (i >= 0 ==> waiters[i].esi == e)
    ensures forall j :: 0 <= j < (if i < 0 then |waiters| else i) ==> waiters[j].esi != e
  {
    if waiters == [] then -1
    else
      var last := |waiters| - 1;
      var i := RequestIndex(waiters[..last], e);
      if i >= 0 then i else if waiters[last].esi == e then last else -1
  }

  /** The first lock of a key, -1 for none. */
  function LockIndex(locks: seq<Lock>, k: Key): (i: int)
    ensures -1 <= i < |locks| && (i >= 0 ==> locks[i].key == k)
    ensures forall j :: 0 <= j < (if i < 0 then |locks| else i) ==> locks[j].key != k
  {
    if locks == [] then -1
    else
      var last := |locks| - 1;
      var i := LockIndex(locks[..last], k);
      if i >= 0 then i else if locks[last].key == k then last else -1
  }
}
