/**
 * The Elections table of models/elections.js: rows `{ name, start, end, userId }`
 * keyed by an auto-incremented id, with its static finders and instance updates.
 */
module Elections {
  import opened Wrappers

  datatype Election = Election(name: string, start: bool, end: bool, userId: nat)

  /** Neither started nor ended: the state `createElection` gives every new row. */
  predicate Draft(e: Election) {
    !e.start && !e.end
  }

  /** The rows `findAll({ where: { userId } })` selects (models/elections.js:29-35). */
  function OwnedBy(rows: map<nat, Election>, userId: nat): (r: map<nat, Election>)
    ensures forall id :: id in r <==> id in rows && rows[id].userId == userId
    ensures forall id :: id in r ==> r[id] == rows[id]
  {
    map id | id in rows && rows[id].userId == userId :: rows[id]
  }

  /** The row `destroy({ where: { id, userId } })` deletes, when there is one. */
  predicate Matches(rows: map<nat, Election>, id: nat, userId: nat) {
    id in rows && rows[id].userId == userId
  }

  /** The table after `destroy({ where: { id, userId } })` (models/elections.js:45-52). */
  function Destroyed(rows: map<nat, Election>, id: nat, userId: nat): map<nat, Election> {
    if Matches(rows, id, userId) then rows - {id} else rows
  }

  /** Only the row with that id and that owner goes; every other row stays as it was. */
  lemma DestroyedExactly(rows: map<nat, Election>, id: nat, userId: nat)
    ensures Matches(rows, id, userId) ==> id !in Destroyed(rows, id, userId)
    ensures !Matches(rows, id, userId) ==> Destroyed(rows, id, userId) == rows
    ensures forall k :: k != id ==> (k in Destroyed(rows, id, userId) <==> k in rows)
    ensures forall k :: k in Destroyed(rows, id, userId) ==> Destroyed(rows, id, userId)[k] == rows[k]
  {
  }

  /** Removing one owner's row leaves every other owner's elections as they were. */
  lemma DestroyedKeepsOtherOwners(rows: map<nat, Election>, id: nat, userId: nat, other: nat)
    requires other != userId
    ensures OwnedBy(Destroyed(rows, id, userId), other) == OwnedBy(rows, other)
  {
  }

  /** The owner's own list loses exactly the removed row. */
  lemma DestroyedShrinksOwnList(rows: map<nat, Election>, id: nat, userId: nat)
    ensures OwnedBy(Destroyed(rows, id, userId), userId) == OwnedBy(rows, userId) - {id}
  {
  }

  /** A new row joins its owner's list and no one else's. */
  lemma InsertedJoinsOwnerOnly(rows: map<nat, Election>, id: nat, e: Election, who: nat)
    requires id !in rows
    ensures OwnedBy(rows[id := e], who) == if e.userId == who then OwnedBy(rows, who)[id := e] else OwnedBy(rows, who)
  {
  }

  /** Lists of distinct owners never share a row. */
  lemma OwnersListsDisjoint(rows: map<nat, Election>, a: nat, b: nat)
    requires a != b
    ensures OwnedBy(rows, a).Keys !! OwnedBy(rows, b).Keys
  {
  }

  class ElectionTable {
    var rows: map<nat, Election>
    var nextId: nat

    /** Every id handed out so far is below the next one. */
    ghost predicate Valid()
      reads this
    {
      forall id :: id in rows ==> id < nextId
    }

    constructor ()
      ensures Valid() && rows == map[]
    {
      rows, nextId := map[], 1;
    }

    /** `createElection(name, userId)`: a fresh row in the draft state (models/elections.js:21-28). */
    method CreateElection(name: string, userId: nat) returns (id: nat)
      requires Valid()
      modifies this
      ensures Valid()
      ensures id == old(nextId) && id !in old(rows)
      ensures rows == old(rows)[id := Election(name, false, false, userId)]
      ensures Draft(rows[id]) && rows[id].name == name && rows[id].userId == userId
    {
      id := nextId;
      rows := rows[id := Election(name, false, false, userId)];
      nextId := nextId + 1;
    }

    /** `created(userId)` */
    function Created(userId: nat): map<nat, Election>
      reads this
    {
      OwnedBy(rows, userId)
    }

    /** `findByPk(id)`: the row, or null. */
    function FindByPk(id: nat): (r: Option<Election>)
      reads this
      ensures r.Some? <==> id in rows
      ensures r.Some? ==> r.value == rows[id]
    {
      if id in rows then Some(rows[id]) else None
    }

    /** `updateName(name)` on the instance of row `id`: that field of that row only. */
    method UpdateName(id: nat, name: string)
      requires Valid() && id in rows
      modifies this
      ensures Valid() && nextId == old(nextId)
      ensures rows == old(rows)[id := old(rows)[id].(name := name)]
    {
      rows := rows[id := rows[id].(name := name)];
    }

    /** `updateStart(start)` */
    method UpdateStart(id: nat, start: bool)
      requires Valid() && id in rows
      modifies this
      ensures Valid() && nextId == old(nextId)
      ensures rows == old(rows)[id := old(rows)[id].(start := start)]
    {
      rows := rows[id := rows[id].(start := start)];
    }

    /** `updateEnd(end)` does not look at `start`: a draft can be marked ended without ever having started. */
    method UpdateEnd(id: nat, end: bool)
      requires Valid() && id in rows
      modifies this
      ensures Valid() && nextId == old(nextId)
      ensures rows == old(rows)[id := old(rows)[id].(end := end)]
      ensures rows[id].end == end && rows[id].start == old(rows)[id].start
    {
      rows := rows[id := rows[id].(end := end)];
    }

    /** `remove(id, userId)`: resolves to the number of rows destroyed. */
    method Remove(id: nat, userId: nat) returns (count: nat)
      requires Valid()
      modifies this
      ensures Valid() && nextId == old(nextId)
      ensures rows == Destroyed(old(rows), id, userId)
      ensures count == if Matches(old(rows), id, userId) then 1 else 0
    {
      if id in rows && rows[id].userId == userId {
        rows := rows - {id};
        count := 1;
      } else {
        count := 0;
      }
    }
  }
}
