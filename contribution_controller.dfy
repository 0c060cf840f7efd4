/** The contribution handlers (server/controllers/contributionController.js):
    record a payment into a thrift and list the payments into the caller's
    thrifts a page at a time. `caller` is the id of an authenticated user. */
module ContributionController {
  import opened Common
  import opened ErrorHandler
  import opened Query
  import opened MemberModel
  import opened ThriftModel
  import opened ContributionModel
  import opened ActivityModel
  import opened Store

  /** The fields createContribution reads from the body (a `status` in the
      body is ignored). */
  datatype ContributionRequest = ContributionRequest(
    memberId: Option<nat>,
    amount: Option<int>,
    date: Option<string>,
    thriftId: Option<nat>)

  const MissingFieldsMessage: string :=
    "Please include member, amount, date, and associated thrift for the contribution."
  /** Every failure after the guard is rethrown as "Server error: " followed
      by the database's message, whose wording is not modelled. */
  const ServerErrorPrefix: string := "Server error: "
  const RejectedMessage: string := ServerErrorPrefix + "Contribution validation failed"
  const DuplicateRefMessage: string := ServerErrorPrefix + "duplicate key transactionRef"
  const UnknownMemberName: string := "Unknown Member"
  const DefaultContributionLimit: nat := 20

  // ---------------------------------------------------------------------------
  // createContribution

  /** createContribution's guard: one of the four fields is falsy. */
  predicate MissingField(r: ContributionRequest) {
    r.memberId.None? || !PresentNumber(r.amount) || !PresentText(r.date) || r.thriftId.None?
  }

  /** `Math.floor(Math.random() * 1000)` for a draw `random` in [0, 1). */
  function RandomSuffix(random: real): (n: nat)
    requires 0.0 <= random < 1.0
    ensures n < 1000
    ensures n as real <= random * 1000.0 < n as real + 1.0
  {
    (random * 1000.0).Floor
  }

  predicate AllDigits(s: string) {
    forall k :: 0 <= k < |s| ==> '0' <= s[k] <= '9'
  }

  /** `TRN-${Date.now()}-${suffix}`. */
  function TransactionRef(millis: nat, suffix: nat): string {
    "TRN-" + NatToString(millis) + "-" + NatToString(suffix)
  }

  /** A reference is the prefix and then two runs of decimal digits joined by
      a dash. */
  lemma TransactionRefShape(millis: nat, suffix: nat)
    ensures var r := TransactionRef(millis, suffix);
      && |r| >= 7 && r[..4] == "TRN-"
      && exists i :: 5 <= i < |r| - 1 && r[i] == '-' && AllDigits(r[4..i]) && AllDigits(r[i + 1..])
  {
    var a, b := NatToString(millis), NatToString(suffix);
    var r := "TRN-" + a + "-" + b;
    assert r[4..4 + |a|] == a && r[4 + |a| + 1..] == b;
  }

  lemma DashAfter(x: string, y: string)
    ensures (x + "-" + y)[|x|] == '-'
  {
  }

  lemma CharBeforeDash(u: string, v: string, i: nat)
    requires i < |u|
    ensures (u + "-" + v)[i] == u[i]
  {
  }

  /** A dash after a run of digits marks where the digits end. */
  lemma {:induction false} SplitAtDash(x: string, y: string, u: string, v: string)
    requires AllDigits(x) && AllDigits(u)
    requires x + "-" + y == u + "-" + v
    ensures x == u && y == v
  {
    if |x| < |u| {
      CharBeforeDash(u, v, |x|);
      DashAfter(x, y);
      assert false;
    } else if |u| < |x| {
      CharBeforeDash(x, y, |u|);
      DashAfter(u, v);
      assert false;
    } else {
      var s := x + "-" + y;
      assert x == s[..|x|] == u;
      assert y == s[|x| + 1..] == v;
    }
  }

  /** Two references are equal only when both the millisecond and the random
      suffix agree. */
  lemma {:induction false} TransactionRefInjective(m1: nat, n1: nat, m2: nat, n2: nat)
    requires TransactionRef(m1, n1) == TransactionRef(m2, n2)
    ensures m1 == m2 && n1 == n2
  {
    var a, b, c, d := NatToString(m1), NatToString(n1), NatToString(m2), NatToString(n2);
    assert "TRN-" + a + "-" + b == "TRN-" + (a + "-" + b);
    assert "TRN-" + c + "-" + d == "TRN-" + (c + "-" + d);
    assert a + "-" + b == TransactionRef(m1, n1)[4..] == c + "-" + d;
    SplitAtDash(a, b, c, d);
    NatToStringInjective(m1, m2);
    NatToStringInjective(n1, n2);
  }

  /** The document `Contribution.create` builds from a request that passed
      the guard: owned by the caller, status "Pending", and a reference made
      of the clock and the random suffix. */
  function CreatedContribution(id: nat, caller: nat, r: ContributionRequest, millis: nat, suffix: nat)
    : (c: Contribution)
    requires !MissingField(r)
    ensures c.id == id && c.userId == caller
    ensures c.memberId == r.memberId && c.thrift == r.thriftId && c.amount == r.amount && c.date == r.date
    ensures c.status == Some("Pending") && c.transactionRef == Some(TransactionRef(millis, suffix))
    ensures ValidContribution(c) <==> r.amount.value >= 0
  {
    Contribution(id, caller, r.memberId, r.thriftId, r.amount, r.date, Some("Pending"),
                 Some(TransactionRef(millis, suffix)))
  }

  /** The name the activity mentions: that of the member with this id, owned
      by anyone, or "Unknown Member" when there is none. */
  function MemberNameFor(ms: seq<Member>, id: nat): (name: string)
    ensures FindMember(ms, id).None? ==> name == UnknownMemberName
    ensures FindMember(ms, id).Some? && FindMember(ms, id).value.name.Some? ==>
              name == FindMember(ms, id).value.name.value
  {
    match FindMember(ms, id)
    case None => UnknownMemberName
    case Some(m) => if m.name.Some? then m.name.value else "undefined"
  }

  /** The activity text: the naira sign, the amount in decimal digits (read
      back as the amount itself) and then the words naming the member. */
  function ContributionAction(amount: nat, memberName: string): (s: string)
    ensures s != [] && s[0] == '\U{20A6}'
    ensures var tail := " contribution received from " + memberName;
      && |s| >= |tail| + 2 && s[|s| - |tail|..] == tail
      && AllDigits(s[1..|s| - |tail|]) && ParseDigits(s[1..|s| - |tail|]) == amount
  {
    var tail := " contribution received from " + memberName;
    var digits := NatToString(amount);
    var s := "\U{20A6}" + digits + tail;
    ParseNatToString(amount);
    assert s[1..|s| - |tail|] == digits && s[|s| - |tail|..] == tail;
    s
  }

  /** createContribution: 400 when a field is falsy; otherwise the document
      is stored exactly when the schema accepts it (amount not negative) and
      its reference is not taken. Whether the member and the thrift exist or
      belong to the caller is never checked. Any failure after the guard is
      answered with 500 and leaves the store unchanged. On success one
      activity naming the member is logged and the reply is 201. */
  method CreateContribution(db: Db, caller: nat, req: ContributionRequest, clock: Clock, random: real)
    returns (res: Outcome<Contribution>)
    requires db.Valid() && IsUser(db.users, caller)
    requires 0.0 <= random < 1.0
    modifies db
    ensures db.Valid()
    ensures db.users == old(db.users) && db.members == old(db.members) && db.thrifts == old(db.thrifts)
    ensures MissingField(req) ==> res == Err(400, MissingFieldsMessage) && unchanged(db)
    ensures !MissingField(req) ==>
              var c := CreatedContribution(old(db.nextId), caller, req, clock.millis, RandomSuffix(random));
              && (res.Ok? <==> req.amount.value >= 0 && !RefTaken(old(db.contributions), c.transactionRef))
              && (res.Err? ==> res.status == 500 && ServerErrorPrefix <= res.message && unchanged(db))
              && (res.Ok? ==>
                    && res == Ok(201, c)
                    && db.contributions == old(db.contributions) + [c]
                    && db.activities == old(db.activities) +
                         [NewActivity(old(db.nextId) + 1, caller,
                                      ContributionAction(req.amount.value, MemberNameFor(old(db.members), req.memberId.value)),
                                      clock, ContributionIcon)])
  {
    if MissingField(req) {
      return Thrown(400, MissingFieldsMessage);
    }
    var c := CreatedContribution(db.nextId, caller, req, clock.millis, RandomSuffix(random));
    if !ValidContribution(c) {
      return Thrown(500, RejectedMessage);
    }
    if RefTaken(db.contributions, c.transactionRef) {
      return Thrown(500, DuplicateRefMessage);
    }
    var memberName := MemberNameFor(db.members, req.memberId.value);
    var a := NewActivity(db.nextId + 1, caller, ContributionAction(req.amount.value, memberName), clock,
                         ContributionIcon);
    db.InsertContribution(c);
    db.InsertActivity(a);
    res := Ok(201, c);
  }

  // ---------------------------------------------------------------------------
  // getContributions

  /** The ids of the caller's thrifts: `Thrift.find({ userId }).select('_id')`. */
  function CallerThriftIds(ts: seq<Thrift>, caller: nat): (ids: set<nat>)
    ensures forall id :: id in ids <==> exists k :: 0 <= k < |ts| && ts[k].id == id && ts[k].userId == caller
  {
    set k | 0 <= k < |ts| && ts[k].userId == caller :: ts[k].id
  }

  function OnThrifts(ids: set<nat>): Contribution -> bool {
    (c: Contribution) => c.thrift.Some? && c.thrift.value in ids
  }

  /** `{ thrift: { $in: thriftIds } }`: the contributions into one of the
      caller's thrifts, whoever recorded them, oldest first. */
  function ScopedContributions(ts: seq<Thrift>, cs: seq<Contribution>, caller: nat): (r: seq<Contribution>)
    ensures forall k :: 0 <= k < |r| ==> r[k] in cs && r[k].thrift.Some? && r[k].thrift.value in CallerThriftIds(ts, caller)
    ensures forall k :: 0 <= k < |cs| && cs[k].thrift.Some? && cs[k].thrift.value in CallerThriftIds(ts, caller) ==>
              cs[k] in r
  {
    Filter(cs, OnThrifts(CallerThriftIds(ts, caller)))
  }

  /** A listed contribution with its references populated by name; a
      reference to a document that does not exist populates as null. */
  datatype Listed = Listed(contribution: Contribution, memberName: Option<string>, thriftName: Option<string>)

  function Populate(ms: seq<Member>, ts: seq<Thrift>, c: Contribution): (l: Listed)
    ensures l.contribution == c
    ensures c.memberId.Some? && FindMember(ms, c.memberId.value).Some? ==>
              l.memberName == FindMember(ms, c.memberId.value).value.name
    ensures c.memberId.None? || FindMember(ms, c.memberId.value).None? ==> l.memberName.None?
    ensures c.thrift.Some? && FindThrift(ts, c.thrift.value).Some? ==>
              l.thriftName == ts[FindThrift(ts, c.thrift.value).value].name
  {
    var member := if c.memberId.None? then None else FindMember(ms, c.memberId.value);
    var thrift := if c.thrift.None? then None else FindThrift(ts, c.thrift.value);
    Listed(c,
           if member.None? then None else member.value.name,
           if thrift.None? then None else ts[thrift.value].name)
  }

  function PopulateAll(ms: seq<Member>, ts: seq<Thrift>, cs: seq<Contribution>): (r: seq<Listed>)
    ensures |r| == |cs| && forall k :: 0 <= k < |cs| ==> r[k] == Populate(ms, ts, cs[k])
  {
    seq(|cs|, k requires 0 <= k < |cs| => Populate(ms, ts, cs[k]))
  }

  /** getContributions: page (default 1) and limit (default 20) of the
      contributions into the caller's thrifts, newest first, each populated
      with its member's and thrift's names. totalContributions counts all of
      them; a negative skip is answered with 500. */
  function GetContributions(ms: seq<Member>, ts: seq<Thrift>, cs: seq<Contribution>, caller: nat,
                            page: Option<int>, limit: Option<int>): (r: Outcome<PageOf<Listed>>)
    ensures var p, l := PageParam(page, 1), PageParam(limit, DefaultContributionLimit);
      && (r.Err? <==> (p - 1) * l < 0)
      && (r.Err? ==> r == Err(500, "Server error fetching contributions"))
      && (r.Ok? ==>
            && r.status == 200 && r.value.currentPage == p
            && r.value.items == Window(PopulateAll(ms, ts, Reverse(ScopedContributions(ts, cs, caller))), (p - 1) * l, Abs(l))
            && |r.value.items| <= Abs(l)
            && (forall k :: 0 <= k < |r.value.items| ==>
                  var c := r.value.items[k].contribution;
                  && r.value.items[k] == Populate(ms, ts, c)
                  && c in cs && c.thrift.Some?
                  && exists j :: 0 <= j < |ts| && ts[j].id == c.thrift.value && ts[j].userId == caller)
            && r.value.total == |ScopedContributions(ts, cs, caller)|
            && r.value.totalPages == CeilDiv(r.value.total, l))
  {
    var ordered := Reverse(ScopedContributions(ts, cs, caller));
    assert forall k :: 0 <= k < |ordered| ==> ordered[k] in ScopedContributions(ts, cs, caller);
    Paginate(PopulateAll(ms, ts, ordered), page, limit, DefaultContributionLimit,
             "Server error fetching contributions")
  }

  /** The listing is scoped by thrift, not by who recorded the payment: a
      contribution recorded by anyone into one of the caller's thrifts is
      counted in the caller's total, and one recorded by the caller into
      someone else's thrift is not. */
  lemma {:induction false} ScopedByThriftNotRecorder(ts: seq<Thrift>, cs: seq<Contribution>, caller: nat, k: nat)
    requires k < |cs| && cs[k].thrift.Some?
    ensures cs[k] in ScopedContributions(ts, cs, caller) <==>
              exists j :: 0 <= j < |ts| && ts[j].id == cs[k].thrift.value && ts[j].userId == caller
  {
    var r := ScopedContributions(ts, cs, caller);
    if cs[k] in r {
      var i :| 0 <= i < |r| && r[i] == cs[k];
      assert r[i].thrift.value in CallerThriftIds(ts, caller);
    }
  }
}
