/** A group's governance record, and who is an admin in it. */
module Groups {
  import opened Options

  type Id = string

  datatype Role = Admin | Ordinary

  datatype Member = Member(peerId: Id, role: Role, name: string, at: int)

  datatype Delegation = Delegation(delegate: Id, at: int)

  type Rows = map<Id, map<Id, real>>

  datatype Group = Group(
    creator: Id,
    members: map<Id, Member>,
    delegations: map<Id, Delegation>,
    topics: Option<map<string, map<Id, Delegation>>>,
    ratings: Option<Rows>,
    censures: Option<Rows>)

  /** Admin by construction or by role. */
  predicate IsAdmin(g: Group, id: Id) {
    id == g.creator || (id in g.members && g.members[id].role == Admin)
  }

  /** The entry of a rating or censure table, 0 when there is none. */
  function Cell(rows: Option<Rows>, row: Id, col: Id): real {
    if rows.Some? && row in rows.value && col in rows.value[row] then rows.value[row][col] else 0.0
  }

  /** An enumeration of the members, as `Object.keys` may deliver them. */
  ghost predicate Enumerates(ids: seq<Id>, s: set<Id>) {
    (forall id :: id in ids <==> id in s) && forall i, j :: 0 <= i < j < |ids| ==> ids[i] != ids[j]
  }
}
