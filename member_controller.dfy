/** The member handlers (server/controllers/memberController.js): add a
    member to the caller's groups and list the caller's members. */
module MemberController {
  import opened Common
  import opened ErrorHandler
  import opened MemberModel
  import opened ActivityModel
  import opened Store

  /** The fields createMember reads from the body. */
  datatype MemberRequest = MemberRequest(name: Option<string>, phone: Option<string>, address: Option<string>)

  const NameMissingMessage: string := "Please include a member name"
  /** The rethrown message when the schema rejects the member (the name was
      only white space); the database's own wording follows the prefix. */
  const RejectedMessage: string := "Server error: Member validation failed"

  function AddedAction(name: string): (s: string)
    ensures s != ""
  {
    "New member added: " + name
  }

  /** createMember: 400 when the name is falsy; 500 when it is only white
      space (the trimmed name fails `required`); otherwise the member is
      stored with the caller as owner, the trimmed name and the given phone
      and address, one activity naming the member is logged for the caller,
      and the reply is 201. A failure leaves the store unchanged. */
  method CreateMember(db: Db, caller: nat, req: MemberRequest, clock: Clock) returns (res: Outcome<Member>)
    requires db.Valid() && IsUser(db.users, caller)
    modifies db
    ensures db.Valid()
    ensures db.users == old(db.users) && db.thrifts == old(db.thrifts) && db.contributions == old(db.contributions)
    ensures !PresentText(req.name) ==> res == Err(400, NameMissingMessage) && unchanged(db)
    ensures PresentText(req.name) && AllSpace(req.name.value) ==> res == Err(500, RejectedMessage) && unchanged(db)
    ensures res.Ok? <==> PresentText(req.name) && !AllSpace(req.name.value)
    ensures res.Ok? ==>
              var m := Member(old(db.nextId), caller, Some(Trim(req.name.value)), req.phone, req.address);
              && res == Ok(201, m)
              && db.members == old(db.members) + [m]
              && db.activities == old(db.activities) +
                   [NewActivity(old(db.nextId) + 1, caller, AddedAction(Trim(req.name.value)), clock, MemberIcon)]
  {
    if !PresentText(req.name) {
      return Thrown(400, NameMissingMessage);
    }
    var m := NewMember(db.nextId, caller, req.name, req.phone, req.address);
    if !ValidMember(m) {
      return Thrown(500, RejectedMessage);
    }
    var a := NewActivity(db.nextId + 1, caller, AddedAction(m.name.value), clock, MemberIcon);
    db.InsertMember(m);
    db.InsertActivity(a);
    res := Ok(201, m);
  }

  function MemberOwnedBy(owner: nat): Member -> bool {
    (m: Member) => m.userId == owner
  }

  /** getMembers: every member owned by the caller and no other, in
      insertion order, all in one unpaginated reply. */
  function GetMembers(ms: seq<Member>, caller: nat): (r: Outcome<seq<Member>>)
    ensures r.Ok? && r.status == 200
    ensures forall k :: 0 <= k < |r.value| ==> r.value[k] in ms && r.value[k].userId == caller
    ensures forall k :: 0 <= k < |ms| && ms[k].userId == caller ==> ms[k] in r.value
  {
    Ok(200, Filter(ms, MemberOwnedBy(caller)))
  }

  /** A member the caller has just added is the last one getMembers lists,
      after all those listed before. */
  lemma {:induction false} AddedMemberListedLast(ms: seq<Member>, m: Member)
    ensures GetMembers(ms + [m], m.userId).value == GetMembers(ms, m.userId).value + [m]
  {
    FilterSnoc(ms, m, MemberOwnedBy(m.userId));
  }

  /** Members of other users are invisible: adding one does not change the
      caller's listing. */
  lemma {:induction false} OthersMembersNotListed(ms: seq<Member>, m: Member, caller: nat)
    requires m.userId != caller
    ensures GetMembers(ms + [m], caller) == GetMembers(ms, caller)
  {
    FilterSnoc(ms, m, MemberOwnedBy(caller));
    assert !MemberOwnedBy(caller)(m);
    assert Filter(ms, MemberOwnedBy(caller)) + [] == Filter(ms, MemberOwnedBy(caller));
  }
}
