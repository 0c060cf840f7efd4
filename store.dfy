/** The document database the handlers talk to, as one in-memory object:
    one sequence per collection, kept in insertion (creation) order, and
    the source of fresh document ids. */
module Store {
  import opened Common
  import opened UserModel
  import opened MemberModel
  import opened ThriftModel
  import opened ContributionModel
  import opened ActivityModel

  /** Some user account has this id. */
  predicate IsUser(users: seq<User>, id: nat) {
    exists k :: 0 <= k < |users| && users[k].id == id
  }

  predicate UsersOk(users: seq<User>, nextId: nat) {
    && (forall k :: 0 <= k < |users| ==> users[k].id < nextId)
    && (forall i, j :: 0 <= i < j < |users| ==> users[i].id != users[j].id)
    && (forall i, j :: 0 <= i < j < |users| ==> users[i].email != users[j].email)
  }

  predicate MembersOk(members: seq<Member>, users: seq<User>, nextId: nat) {
    && (forall k :: 0 <= k < |members| ==> members[k].id < nextId)
    && (forall k :: 0 <= k < |members| ==> ValidMember(members[k]) && IsUser(users, members[k].userId))
    && (forall i, j :: 0 <= i < j < |members| ==> members[i].id != members[j].id)
  }

  predicate ThriftsOk(thrifts: seq<Thrift>, users: seq<User>, nextId: nat) {
    && (forall k :: 0 <= k < |thrifts| ==> thrifts[k].id < nextId)
    && (forall k :: 0 <= k < |thrifts| ==>
          ValidThrift(thrifts[k]) && Normalised(thrifts[k]) && IsUser(users, thrifts[k].userId))
    && (forall i, j :: 0 <= i < j < |thrifts| ==> thrifts[i].id != thrifts[j].id)
  }

  predicate ContributionsOk(contributions: seq<Contribution>, users: seq<User>, nextId: nat) {
    && (forall k :: 0 <= k < |contributions| ==> contributions[k].id < nextId)
    && (forall k :: 0 <= k < |contributions| ==>
          ValidContribution(contributions[k]) && IsUser(users, contributions[k].userId))
    && RefsUnique(contributions)
  }

  predicate ActivitiesOk(activities: seq<Activity>, users: seq<User>, nextId: nat) {
    && (forall k :: 0 <= k < |activities| ==> activities[k].id < nextId)
    && (forall k :: 0 <= k < |activities| ==> ValidActivity(activities[k]) && IsUser(users, activities[k].userId))
  }

  class Db {
    var users: seq<User>
    var members: seq<Member>
    var thrifts: seq<Thrift>
    var contributions: seq<Contribution>
    var activities: seq<Activity>
    /** Larger than every id handed out so far. */
    var nextId: nat

    /** Every stored document passed its schema's validators, is owned by an
        existing user and has an id of its own; emails and transaction
        references are unique. */
    ghost predicate Valid()
      reads this
    {
      && UsersOk(users, nextId)
      && MembersOk(members, users, nextId)
      && ThriftsOk(thrifts, users, nextId)
      && ContributionsOk(contributions, users, nextId)
      && ActivitiesOk(activities, users, nextId)
    }

    constructor ()
      ensures Valid()
      ensures users == [] && members == [] && thrifts == [] && contributions == [] && activities == []
    {
      users, members, thrifts, contributions, activities := [], [], [], [], [];
      nextId := 0;
    }

    /** Stores a new user whose email is not yet taken. */
    method InsertUser(u: User)
      requires Valid() && u.id == nextId
      requires forall k :: 0 <= k < |users| ==> users[k].email != u.email
      modifies this
      ensures Valid() && nextId == old(nextId) + 1
      ensures users == old(users) + [u]
      ensures members == old(members) && thrifts == old(thrifts)
      ensures contributions == old(contributions) && activities == old(activities)
    {
      GrowKeepsValid(users, users + [u], members, thrifts, contributions, activities, nextId, nextId + 1);
      users, nextId := users + [u], nextId + 1;
    }

    /** Stores a new member that passed validation. */
    method InsertMember(m: Member)
      requires Valid() && m.id == nextId && ValidMember(m) && IsUser(users, m.userId)
      modifies this
      ensures Valid() && nextId == old(nextId) + 1
      ensures members == old(members) + [m]
      ensures users == old(users) && thrifts == old(thrifts)
      ensures contributions == old(contributions) && activities == old(activities)
    {
      GrowKeepsValid(users, users, members, thrifts, contributions, activities, nextId, nextId + 1);
      members, nextId := members + [m], nextId + 1;
    }

    /** Stores a new thrift that passed validation. */
    method InsertThrift(t: Thrift)
      requires Valid() && t.id == nextId && ValidThrift(t) && Normalised(t) && IsUser(users, t.userId)
      modifies this
      ensures Valid() && nextId == old(nextId) + 1
      ensures thrifts == old(thrifts) + [t]
      ensures users == old(users) && members == old(members)
      ensures contributions == old(contributions) && activities == old(activities)
    {
      GrowKeepsValid(users, users, members, thrifts, contributions, activities, nextId, nextId + 1);
      AppendThriftOk(thrifts, users, nextId, t);
      thrifts, nextId := thrifts + [t], nextId + 1;
    }

    /** Writes back a thrift document that passed validation; `save()`. */
    method ReplaceThrift(i: nat, t: Thrift)
      requires Valid() && i < |thrifts| && t.id == thrifts[i].id
      requires ValidThrift(t) && Normalised(t) && IsUser(users, t.userId)
      modifies this
      ensures Valid() && nextId == old(nextId)
      ensures thrifts == old(thrifts)[i := t]
      ensures users == old(users) && members == old(members)
      ensures contributions == old(contributions) && activities == old(activities)
    {
      ghost var before := thrifts;
      thrifts := thrifts[i := t];
      assert forall k :: 0 <= k < |thrifts| && k != i ==> thrifts[k] == before[k];
    }

    /** Stores a new contribution that passed validation and whose reference
        the unique index accepts. */
    method InsertContribution(c: Contribution)
      requires Valid() && c.id == nextId && ValidContribution(c) && IsUser(users, c.userId)
      requires !RefTaken(contributions, c.transactionRef)
      modifies this
      ensures Valid() && nextId == old(nextId) + 1
      ensures contributions == old(contributions) + [c]
      ensures users == old(users) && members == old(members)
      ensures thrifts == old(thrifts) && activities == old(activities)
    {
      InsertKeepsRefsUnique(contributions, c);
      GrowKeepsValid(users, users, members, thrifts, contributions, activities, nextId, nextId + 1);
      contributions, nextId := contributions + [c], nextId + 1;
    }

    /** Logs a new activity that passed validation. */
    method InsertActivity(a: Activity)
      requires Valid() && a.id == nextId && ValidActivity(a) && IsUser(users, a.userId)
      modifies this
      ensures Valid() && nextId == old(nextId) + 1
      ensures activities == old(activities) + [a]
      ensures users == old(users) && members == old(members)
      ensures thrifts == old(thrifts) && contributions == old(contributions)
    {
      GrowKeepsValid(users, users, members, thrifts, contributions, activities, nextId, nextId + 1);
      activities, nextId := activities + [a], nextId + 1;
    }
  }

  /** Growing the id counter or the user list never breaks an invariant
      that held before. */
  lemma {:induction false} GrowKeepsValid(
    users: seq<User>, users': seq<User>, members: seq<Member>, thrifts: seq<Thrift>,
    contributions: seq<Contribution>, activities: seq<Activity>, nextId: nat, nextId': nat)
    requires nextId <= nextId' && users <= users'
    requires MembersOk(members, users, nextId) && ThriftsOk(thrifts, users, nextId)
    requires ContributionsOk(contributions, users, nextId) && ActivitiesOk(activities, users, nextId)
    ensures MembersOk(members, users', nextId') && ThriftsOk(thrifts, users', nextId')
    ensures ContributionsOk(contributions, users', nextId') && ActivitiesOk(activities, users', nextId')
  {
    forall id | IsUser(users, id) ensures IsUser(users', id) {
      var k :| 0 <= k < |users| && users[k].id == id;
      assert users'[k] == users[k];
    }
  }

  /** A new thrift with a fresh id keeps the thrift collection consistent. */
  lemma {:induction false} AppendThriftOk(thrifts: seq<Thrift>, users: seq<User>, nextId: nat, t: Thrift)
    requires ThriftsOk(thrifts, users, nextId)
    requires t.id == nextId && ValidThrift(t) && Normalised(t) && IsUser(users, t.userId)
    ensures ThriftsOk(thrifts + [t], users, nextId + 1)
  {
    var all := thrifts + [t];
    forall k | 0 <= k < |all|
      ensures all[k].id < nextId + 1
      ensures ValidThrift(all[k]) && Normalised(all[k]) && IsUser(users, all[k].userId)
    {
      if k < |thrifts| { assert all[k] == thrifts[k]; }
    }
    forall i, j | 0 <= i < j < |all| ensures all[i].id != all[j].id {
      assert all[i] == thrifts[i];
    }
  }
}
