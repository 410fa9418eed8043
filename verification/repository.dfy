/** The per-user view of one shared persisted collection (`loadData` and
    `saveToStorage` in `src/hooks/useHealthData.ts`). A persisted collection is the
    list stored under one key, or `None` when the key is absent; `owner` reads a
    record's `userId`. */
module Repository {
  import opened Base
  import opened HealthTypes

  /** The stored list, or the empty list when the key is absent. */
  function Contents<T>(stored: Option<seq<T>>): seq<T>
  {
    match stored
    case None => []
    case Some(all) => all
  }

  /** `loadData`: the stored records that belong to `u`, in stored order. */
  function Load<T(==,!new)>(stored: Option<seq<T>>, owner: T -> UserId, u: UserId): (r: seq<T>)
    ensures stored.None? ==> r == []
    ensures |r| <= |Contents(stored)|
  {
    Keep(Contents(stored), owner, u, true)
  }

  /** `saveToStorage`: the list written back when user `u`'s slice becomes `items`:
      every other user's stored record, then `items`. */
  function SaveMerge<T(==,!new)>(stored: Option<seq<T>>, owner: T -> UserId, u: UserId, items: seq<T>): (r: seq<T>)
    ensures |r| >= |items|
    ensures r[|r| - |items|..] == items
  {
    Keep(Contents(stored), owner, u, false) + items
  }

  /** A record is loaded for `u` exactly when it is stored and belongs to `u`. */
  lemma LoadMembers<T(!new)>(stored: Option<seq<T>>, owner: T -> UserId, u: UserId)
    ensures forall x :: x in Load(stored, owner, u) <==> x in Contents(stored) && owner(x) == u
  {
    KeepMembers(Contents(stored), owner, u, true);
  }

  /** A record survives a save exactly when it is another user's stored record or one of `items`. */
  lemma SaveMergeMembers<T(!new)>(stored: Option<seq<T>>, owner: T -> UserId, u: UserId, items: seq<T>)
    ensures forall x :: x in SaveMerge(stored, owner, u, items) <==>
      (x in Contents(stored) && owner(x) != u) || x in items
  {
    KeepMembers(Contents(stored), owner, u, false);
  }

  /** Every record of `items` belongs to `u`. */
  predicate OwnedBy<T(==,!new)>(items: seq<T>, owner: T -> UserId, u: UserId)
  {
    forall x :: x in items ==> owner(x) == u
  }

  /** Appending a record of `u` to a list owned by `u` keeps it owned by `u`. */
  lemma AppendOwned<T(!new)>(items: seq<T>, x: T, owner: T -> UserId, u: UserId)
    requires OwnedBy(items, owner, u) && owner(x) == u
    ensures OwnedBy(items + [x], owner, u)
  {
    assert forall y :: y in items + [x] ==> y in items || y == x;
  }

  /** Whatever is loaded for `u` belongs to `u`. */
  lemma LoadOwned<T(!new)>(stored: Option<seq<T>>, owner: T -> UserId, u: UserId)
    ensures OwnedBy(Load(stored, owner, u), owner, u)
  {
    LoadMembers(stored, owner, u);
  }

  /** Reading back what was just saved for `u` yields exactly `items`. */
  lemma LoadAfterSaveMerge<T(!new)>(stored: Option<seq<T>>, owner: T -> UserId, u: UserId, items: seq<T>)
    requires OwnedBy(items, owner, u)
    ensures Load(Some(SaveMerge(stored, owner, u, items)), owner, u) == items
  {
    var others := Keep(Contents(stored), owner, u, false);
    KeepMembers(Contents(stored), owner, u, false);
    KeepAppend(others, items, owner, u, true);
    KeepEmpty(others, owner, u, true);
    KeepIdentity(items, owner, u, true);
  }

  /** Saving `u`'s slice does not change what any other user loads. */
  lemma SaveMergeIsolation<T(!new)>(stored: Option<seq<T>>, owner: T -> UserId, u: UserId, items: seq<T>, v: UserId)
    requires OwnedBy(items, owner, u)
    requires v != u
    ensures Load(Some(SaveMerge(stored, owner, u, items)), owner, v) == Load(stored, owner, v)
  {
    var others := Keep(Contents(stored), owner, u, false);
    KeepAppend(others, items, owner, v, true);
    KeepEmpty(items, owner, v, true);
    KeepOtherKey(Contents(stored), owner, u, v);
  }

  /** The records of users other than `u` survive a save as one block, in their
      original relative order: none is added, dropped or changed. */
  lemma SaveMergeKeepsOthers<T(!new)>(stored: Option<seq<T>>, owner: T -> UserId, u: UserId, items: seq<T>)
    requires OwnedBy(items, owner, u)
    ensures Keep(SaveMerge(stored, owner, u, items), owner, u, false) == Keep(Contents(stored), owner, u, false)
  {
    var others := Keep(Contents(stored), owner, u, false);
    KeepMembers(Contents(stored), owner, u, false);
    KeepAppend(others, items, owner, u, false);
    KeepIdentity(others, owner, u, false);
    KeepEmpty(items, owner, u, false);
  }

  /** Saving a slice that is already what `u` loads, over a list already in merged
      form, changes nothing: a second save is idempotent. */
  lemma SaveMergeIdempotent<T(!new)>(stored: Option<seq<T>>, owner: T -> UserId, u: UserId, items: seq<T>)
    requires OwnedBy(items, owner, u)
    ensures SaveMerge(Some(SaveMerge(stored, owner, u, items)), owner, u, items) == SaveMerge(stored, owner, u, items)
  {
    SaveMergeKeepsOthers(stored, owner, u, items);
  }
}
