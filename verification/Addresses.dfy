/**
 A user's address book: the first address becomes the default, setting another moves the
 flag, and deleting the default hands it to the newest address left.
 */
module Addresses {
  import opened Common

  datatype Address = Address(userId: int, detail: string, isDefault: bool, createdAt: int, deleted: bool)

  type Table = map<nat, Address>

  predicate IsActive(t: Table, user: int, id: nat) {
    id in t && t[id].userId == user && !t[id].deleted
  }

  predicate IsDefaultOf(t: Table, user: int, id: nat) {
    IsActive(t, user, id) && t[id].isDefault
  }

  /** A user with an active address has exactly one default, and it is active. */
  ghost predicate OneDefault(t: Table, user: int) {
    && (forall id :: IsActive(t, user, id) ==> exists d :: IsDefaultOf(t, user, d))
    && (forall d, e :: IsDefaultOf(t, user, d) && IsDefaultOf(t, user, e) ==> d == e)
  }

  ghost predicate Inv(t: Table) {
    && (forall user :: OneDefault(t, user))
    && (forall id :: id in t && t[id].deleted ==> !t[id].isDefault)
  }

  // ---- the transactions on values ---------------------------------------------

  function Active(t: Table, user: int): set<nat> {
    set id | id in t && t[id].userId == user && !t[id].deleted
  }

  function AfterCreate(t: Table, user: int, id: nat, detail: string, now: int): Table {
    t[id := Address(user, detail, Active(t, user) == {}, now, false)]
  }

  /** All flags of the user's active addresses are cleared, then one is set. */
  function Promote(t: Table, user: int, target: nat): Table {
    map id | id in t :: if IsActive(t, user, id) then t[id].(isDefault := id == target) else t[id]
  }

  function MarkDeleted(t: Table, id: nat): Table
    requires id in t
  {
    t[id := t[id].(deleted := true, isDefault := false)]
  }

  /** Latest creation time, then highest id. */
  predicate IsNewest(t: Table, user: int, id: nat) {
    IsActive(t, user, id) &&
    forall other :: other in Active(t, user) ==>
      t[other].createdAt < t[id].createdAt || (t[other].createdAt == t[id].createdAt && other <= id)
  }

  ghost predicate AfterDelete(t: Table, user: int, id: nat, t': Table)
    requires IsActive(t, user, id)
  {
    var rest := MarkDeleted(t, id);
    if t[id].isDefault && Active(rest, user) != {}
    then exists n :: IsNewest(rest, user, n) && t' == Promote(rest, user, n)
    else t' == rest
  }

  // ---- what they keep ------------------------------------------------------------

  /** Nothing of any other user changes. */
  ghost predicate OthersKept(t: Table, t': Table, user: int) {
    forall id :: id in t && t[id].userId != user ==> id in t' && t'[id] == t[id]
  }

  lemma OthersKeepTheirDefault(t: Table, t': Table, user: int, other: int)
    requires OneDefault(t, other) && other != user && OthersKept(t, t', user)
    requires forall id :: id in t' && t'[id].userId != user ==> id in t && t[id].userId != user
    ensures OneDefault(t', other)
  {
    forall id | IsActive(t', other, id) ensures exists d :: IsDefaultOf(t', other, d) {
      assert IsActive(t, other, id);
      var d :| IsDefaultOf(t, other, d);
      assert IsDefaultOf(t', other, d);
    }
    forall d, e | IsDefaultOf(t', other, d) && IsDefaultOf(t', other, e) ensures d == e {
      assert IsDefaultOf(t, other, d) && IsDefaultOf(t, other, e);
    }
  }

  lemma CreateKeepsInv(t: Table, user: int, id: nat, detail: string, now: int)
    requires Inv(t) && id !in t
    ensures Inv(AfterCreate(t, user, id, detail, now))
    ensures OthersKept(t, AfterCreate(t, user, id, detail, now), user)
  {
    var t' := AfterCreate(t, user, id, detail, now);
    forall other ensures OneDefault(t', other) {
      assert OneDefault(t, other);
      if other != user {
        OthersKeepTheirDefault(t, t', user, other);
      } else {
        assert forall a :: a in Active(t, user) <==> IsActive(t, user, a);
        if a :| IsActive(t, user, a) {
          var d :| IsDefaultOf(t, user, d);
          assert a in Active(t, user);
          assert IsDefaultOf(t', user, d);
          assert forall e :: IsDefaultOf(t', user, e) ==> IsDefaultOf(t, user, e);
        } else {
          assert Active(t, user) == {};
          assert IsDefaultOf(t', user, id);
          assert forall e :: IsDefaultOf(t', user, e) && e != id ==> IsActive(t, user, e);
        }
      }
    }
  }

  lemma PromoteGivesInv(t: Table, user: int, target: nat)
    requires IsActive(t, user, target)
    requires forall other :: other != user ==> OneDefault(t, other)
    requires forall id :: id in t && t[id].deleted ==> !t[id].isDefault
    ensures Inv(Promote(t, user, target)) && IsDefaultOf(Promote(t, user, target), user, target)
    ensures OthersKept(t, Promote(t, user, target), user)
  {
    var t' := Promote(t, user, target);
    assert IsDefaultOf(t', user, target);
    forall other ensures OneDefault(t', other) {
      if other != user { OthersKeepTheirDefault(t, t', user, other); }
    }
  }

  lemma DeleteKeepsInv(t: Table, user: int, id: nat, t': Table)
    requires Inv(t) && IsActive(t, user, id) && AfterDelete(t, user, id, t')
    ensures Inv(t') && OthersKept(t, t', user) && !IsActive(t', user, id)
  {
    var rest := MarkDeleted(t, id);
    forall other | other != user ensures OneDefault(rest, other) {
      assert OneDefault(t, other);
      OthersKeepTheirDefault(t, rest, user, other);
    }
    assert OneDefault(t, user);
    if t[id].isDefault {
      if Active(rest, user) != {} {
        var n :| IsNewest(rest, user, n) && t' == Promote(rest, user, n);
        PromoteGivesInv(rest, user, n);
      } else {
        forall a ensures !IsActive(t', user, a) {
          assert a in Active(rest, user) <==> IsActive(rest, user, a);
        }
      }
    } else {
      forall a | IsActive(t', user, a) ensures exists d :: IsDefaultOf(t', user, d) {
        assert IsActive(t, user, a);
        var d :| IsDefaultOf(t, user, d);
        assert IsDefaultOf(t', user, d);
      }
      forall d, e | IsDefaultOf(t', user, d) && IsDefaultOf(t', user, e) ensures d == e {
        assert IsDefaultOf(t, user, d) && IsDefaultOf(t, user, e);
      }
    }
  }

  // ---- the repository --------------------------------------------------------------

  /** Nothing of an address changes but its default flag. */
  predicate SameButFlag(before: Address, after: Address) {
    && after.userId == before.userId && after.detail == before.detail
    && after.createdAt == before.createdAt && after.deleted == before.deleted
  }

  class UserAddresses {
    var rows: Table
    var nextId: nat

    /** The default-address invariant holds for every user, and the next id is unused. */
    ghost predicate Valid()
      reads this
    {
      Inv(rows) && forall id :: id in rows ==> id < nextId
    }

    constructor ()
      ensures Valid() && rows == map[]
    {
      rows, nextId := map[], 1;
    }

    method Create(user: int, detail: string, now: int) returns (id: nat)
      requires Valid()
      modifies this
      ensures Valid() && id !in old(rows) && rows == AfterCreate(old(rows), user, id, detail, now)
      ensures rows[id] == Address(user, detail, rows[id].isDefault, now, false)
      ensures rows[id].isDefault <==>
        forall a :: a in old(rows) && old(rows)[a].userId == user ==> old(rows)[a].deleted
      ensures forall a :: a in old(rows) ==> a in rows && rows[a] == old(rows)[a]
      ensures OthersKept(old(rows), rows, user)
    {
      id := nextId;
      CreateKeepsInv(rows, user, id, detail, now);
      assert forall a :: a in Active(rows, user) <==> a in rows && rows[a].userId == user && !rows[a].deleted;
      assert |Active(rows, user)| == 0 ==> Active(rows, user) == {};
      rows := rows[id := Address(user, detail, |Active(rows, user)| == 0, now, false)];
      nextId := nextId + 1;
    }

    /** Only the descriptive fields change; `found` is false for the not-found reply. */
    method Update(id: nat, user: int, detail: string) returns (found: bool)
      requires Valid()
      modifies this
      ensures Valid() && (found <==> IsActive(old(rows), user, id))
      ensures rows == if found then old(rows)[id := old(rows)[id].(detail := detail)] else old(rows)
    {
      found := IsActive(rows, user, id);
      if found {
        ghost var before := rows;
        rows := rows[id := rows[id].(detail := detail)];
        forall u ensures OneDefault(rows, u) {
          assert OneDefault(before, u);
          forall a | IsActive(rows, u, a) ensures exists d :: IsDefaultOf(rows, u, d) {
            assert IsActive(before, u, a);
            var d :| IsDefaultOf(before, u, d);
            assert IsDefaultOf(rows, u, d);
          }
          forall d, e | IsDefaultOf(rows, u, d) && IsDefaultOf(rows, u, e) ensures d == e {
            assert IsDefaultOf(before, u, d) && IsDefaultOf(before, u, e);
          }
        }
      }
    }

    method SetDefault(id: nat, user: int) returns (found: bool)
      requires Valid()
      modifies this
      ensures Valid() && (found <==> IsActive(old(rows), user, id))
      ensures rows == if found then Promote(old(rows), user, id) else old(rows)
      ensures found ==> IsDefaultOf(rows, user, id) && OthersKept(old(rows), rows, user)
      ensures rows.Keys == old(rows).Keys && forall a :: a in rows ==> SameButFlag(old(rows)[a], rows[a])
    {
      found := IsActive(rows, user, id);
      if found {
        PromoteGivesInv(rows, user, id);
        rows := Promote(rows, user, id);
      }
    }

    method FindNewest(user: int) returns (newest: Option<nat>)
      ensures newest.None? <==> Active(rows, user) == {}
      ensures newest.Some? ==> IsNewest(rows, user, newest.value)
      ensures newest.Some? ==> forall a :: a in rows && rows[a].userId == user && !rows[a].deleted ==>
        rows[a].createdAt < rows[newest.value].createdAt
        || (rows[a].createdAt == rows[newest.value].createdAt && a <= newest.value)
    {
      var all := Active(rows, user);
      if all == {} { return None; }
      var best :| best in all;
      var todo := all - {best};
      while exists id :: id in todo
        invariant best in all && todo <= all
        invariant forall other :: other in all && other !in todo ==>
          rows[other].createdAt < rows[best].createdAt
          || (rows[other].createdAt == rows[best].createdAt && other <= best)
        decreases todo
      {
        var id :| id in todo;
        if rows[best].createdAt < rows[id].createdAt || (rows[best].createdAt == rows[id].createdAt && best < id) {
          best := id;
        }
        todo := todo - {id};
      }
      return Some(best);
    }

    method SoftDelete(id: nat, user: int) returns (found: bool)
      requires Valid()
      modifies this
      ensures Valid() && (found <==> IsActive(old(rows), user, id))
      ensures found ==> AfterDelete(old(rows), user, id, rows)
      ensures found ==> OthersKept(old(rows), rows, user) && !IsActive(rows, user, id)
      ensures !found ==> rows == old(rows)
      ensures rows.Keys == old(rows).Keys
      ensures forall a :: a in rows && a != id ==> SameButFlag(old(rows)[a], rows[a])
      ensures found ==> rows[id] == old(rows)[id].(isDefault := false, deleted := true)
    {
      found := IsActive(rows, user, id);
      if !found { return; }
      ghost var before := rows;
      var wasDefault := rows[id].isDefault;
      rows := rows[id := rows[id].(deleted := true, isDefault := false)];
      if wasDefault {
        var newest := FindNewest(user);
        if newest.Some? {
          rows := Promote(rows, user, newest.value);
        }
      }
      assert AfterDelete(before, user, id, rows);
      DeleteKeepsInv(before, user, id, rows);
    }
  }
}
