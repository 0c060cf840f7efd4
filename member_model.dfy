/** The Member schema (server/models/Member.js). */
module MemberModel {
  import opened Common

  /** A stored member of one of a user's thrift groups. */
  datatype Member = Member(id: nat, userId: nat, name: Option<string>, phone: Option<string>, address: Option<string>)

  /** What `validate()` accepts: a name that is not empty once trimmed;
      phone and address are optional. */
  predicate ValidMember(m: Member) {
    PresentText(m.name)
  }

  /** The document `Member.create` builds: the name setter trims. */
  function NewMember(id: nat, userId: nat, name: Option<string>, phone: Option<string>, address: Option<string>): (m: Member)
    ensures m.id == id && m.userId == userId && m.phone == phone && m.address == address
    ensures m.name.Some? <==> name.Some?
    ensures name.Some? ==> m.name.value == Trim(name.value)
    ensures ValidMember(m) <==> name.Some? && !AllSpace(name.value)
  {
    Member(id, userId, if name.None? then None else Some(Trim(name.value)), phone, address)
  }

  /** `findById(id)`: the first member with this id. */
  function FindMember(ms: seq<Member>, id: nat): (r: Option<Member>)
    ensures r.Some? ==> r.value in ms && r.value.id == id
    ensures r.None? <==> forall k :: 0 <= k < |ms| ==> ms[k].id != id
  {
    match FindFirst(ms, (m: Member) => m.id == id)
    case None => None
    case Some(k) => Some(ms[k])
  }
}
