/** The dashboard handlers (server/controllers/dashboardController.js): three
    summary figures for the caller, the caller's five newest activities, and
    an unfiltered debug listing. All of them only read the store and reply
    200. */
module DashboardController {
  import opened Common
  import opened MemberModel
  import opened ThriftModel
  import opened ContributionModel
  import opened ActivityModel
  import opened ThriftController
  import opened ContributionController
  import opened MemberController

  // ---------------------------------------------------------------------------
  // getDashboardStats

  /** One tile of the stats reply. The figure is kept as a number; its
      `toLocaleString` rendering (and the naira sign of the amount) is not
      modelled. */
  datatype Stat = Stat(title: string, value: int, icon: string, bgColor: string, growth: string, trend: string)

  /** `Member.countDocuments({ userId })`. */
  function TotalMembers(ms: seq<Member>, caller: nat): (n: nat)
    ensures n == |GetMembers(ms, caller).value|
  {
    |Filter(ms, MemberOwnedBy(caller))|
  }

  /** What `$sum: "$amount"` adds for one document: a missing amount adds
      nothing. */
  function AmountOf(c: Contribution): int {
    if c.amount.Some? then c.amount.value else 0
  }

  function SumAmounts(cs: seq<Contribution>): (total: int)
    ensures (forall k :: 0 <= k < |cs| ==> AmountOf(cs[k]) >= 0) ==> total >= 0
  {
    if cs == [] then 0 else SumAmounts(cs[..|cs| - 1]) + AmountOf(cs[|cs| - 1])
  }

  function RecordedBy(caller: nat): Contribution -> bool {
    (c: Contribution) => c.userId == caller
  }

  /** The aggregate `$match: { userId }` then `$group` with `$sum`: the sum of
      the amounts of the contributions the caller recorded, or 0 when the
      group is empty (the aggregate then returns no row). The scope is who
      recorded the payment, not which thrift it went into. */
  function TotalContributionAmount(cs: seq<Contribution>, caller: nat): (total: int)
    ensures Filter(cs, RecordedBy(caller)) == [] ==> total == 0
    ensures (forall k :: 0 <= k < |cs| ==> ValidContribution(cs[k])) ==> total >= 0
  {
    var matched := Filter(cs, RecordedBy(caller));
    assert forall k :: 0 <= k < |matched| ==> matched[k] in cs;
    SumAmounts(matched)
  }

  /** Adding up is done one contribution at a time. */
  lemma {:induction false} SumSnoc(cs: seq<Contribution>, c: Contribution)
    ensures SumAmounts(cs + [c]) == SumAmounts(cs) + AmountOf(c)
  {
    assert (cs + [c])[..|cs|] == cs;
  }

  /** A new contribution raises the caller's total by its amount when the
      caller recorded it, and leaves it alone otherwise. */
  lemma {:induction false} TotalAfterContribution(cs: seq<Contribution>, c: Contribution, caller: nat)
    ensures TotalContributionAmount(cs + [c], caller) ==
              TotalContributionAmount(cs, caller) + (if c.userId == caller then AmountOf(c) else 0)
  {
    FilterSnoc(cs, c, RecordedBy(caller));
    if c.userId == caller {
      assert RecordedBy(caller)(c);
      SumSnoc(Filter(cs, RecordedBy(caller)), c);
    } else {
      assert !RecordedBy(caller)(c);
      assert Filter(cs, RecordedBy(caller)) + [] == Filter(cs, RecordedBy(caller));
    }
  }

  function ActiveOf(caller: nat): Thrift -> bool {
    (t: Thrift) => t.userId == caller && t.status == Some("active")
  }

  function IsActive(t: Thrift): bool {
    t.status == Some("active")
  }

  /** `Thrift.countDocuments({ userId, status: "active" })`: how many of the
      caller's thrifts have status "active". */
  function ActiveThrifts(ts: seq<Thrift>, caller: nat): (n: nat)
    ensures n == |Filter(OwnedThrifts(ts, caller), IsActive)|
    ensures n <= |OwnedThrifts(ts, caller)|
  {
    ActiveCountBound(ts, caller);
    ActiveAmongOwned(ts, caller);
    |Filter(ts, ActiveOf(caller))|
  }

  /** Matching owner and status at once selects the same thrifts, in the same
      order, as taking the caller's thrifts and then the active ones. */
  lemma {:induction false} ActiveAmongOwned(ts: seq<Thrift>, caller: nat)
    ensures Filter(ts, ActiveOf(caller)) == Filter(OwnedThrifts(ts, caller), IsActive)
  {
    if ts != [] {
      ActiveAmongOwned(ts[1..], caller);
      var rest := Filter(ts[1..], OwnedBy(caller));
      if OwnedBy(caller)(ts[0]) {
        assert OwnedThrifts(ts, caller) == [ts[0]] + rest;
        assert ([ts[0]] + rest)[1..] == rest;
      } else {
        assert OwnedThrifts(ts, caller) == rest;
      }
    }
  }

  /** Active thrifts are a sub-collection of the caller's thrifts. */
  lemma {:induction false} ActiveCountBound(ts: seq<Thrift>, caller: nat)
    ensures |Filter(ts, ActiveOf(caller))| <= |Filter(ts, OwnedBy(caller))|
  {
    if ts != [] {
      ActiveCountBound(ts[1..], caller);
    }
  }

  /** A thrift created without an explicit status starts "pending", so it
      does not count as active. */
  lemma {:induction false} CreatedThriftNotActive(ts: seq<Thrift>, id: nat, caller: nat, r: ThriftRequest)
    requires r.status.None?
    ensures ActiveThrifts(ts + [CreatedThrift(id, caller, r)], caller) == ActiveThrifts(ts, caller)
  {
    FilterSnoc(ts, CreatedThrift(id, caller, r), ActiveOf(caller));
  }

  /** getDashboardStats: exactly three tiles, in the order Total Members,
      Total Contributions, Active Thrifts, with fixed icons, colours and
      growth labels. */
  function DashboardStats(ms: seq<Member>, cs: seq<Contribution>, ts: seq<Thrift>, caller: nat): (r: seq<Stat>)
    ensures |r| == 3
    ensures r[0].title == "Total Members" && r[0].value == |GetMembers(ms, caller).value|
    ensures r[1].title == "Total Contributions" && r[1].value == TotalContributionAmount(cs, caller)
    ensures r[2].title == "Active Thrifts" && r[2].value == |Filter(OwnedThrifts(ts, caller), IsActive)|
    ensures 0 <= r[2].value <= |OwnedThrifts(ts, caller)|
    ensures forall k :: 0 <= k < 3 ==> r[k].trend == "up"
  {
    [ Stat("Total Members", TotalMembers(ms, caller), "Users", "#6610f2", "+15%", "up"),
      Stat("Total Contributions", TotalContributionAmount(cs, caller), "DollarSign", "#20c997", "+8%", "up"),
      Stat("Active Thrifts", ActiveThrifts(ts, caller), "PieChart", "#fd7e14", "+5%", "up") ]
  }

  /** The listing and the dashboard scope contributions differently: a
      payment another user records into one of the caller's thrifts appears
      in the caller's contribution listing but leaves the caller's dashboard
      total unchanged. */
  lemma {:induction false} OtherRecorderListedNotTotalled(ts: seq<Thrift>, cs: seq<Contribution>, c: Contribution,
                                                         caller: nat)
    requires c.userId != caller && c.thrift.Some?
    requires exists j :: 0 <= j < |ts| && ts[j].id == c.thrift.value && ts[j].userId == caller
    ensures c in ScopedContributions(ts, cs + [c], caller)
    ensures TotalContributionAmount(cs + [c], caller) == TotalContributionAmount(cs, caller)
  {
    var all := cs + [c];
    assert all[|cs|] == c;
    ScopedByThriftNotRecorder(ts, all, caller, |cs|);
    TotalAfterContribution(cs, c, caller);
  }

  // ---------------------------------------------------------------------------
  // getDashboardActivities

  /** One entry of the activity feed. */
  datatype FeedItem = FeedItem(action: string, time: string, icon: string)

  function ActivityOwnedBy(owner: nat): Activity -> bool {
    (a: Activity) => a.userId == owner
  }

  /** The caller's activities, newest first. */
  function NewestActivities(log: seq<Activity>, caller: nat): (r: seq<Activity>)
    ensures forall k :: 0 <= k < |r| ==> r[k] in log && r[k].userId == caller
    ensures forall k :: 0 <= k < |log| && log[k].userId == caller ==> log[k] in r
  {
    var owned := Filter(log, ActivityOwnedBy(caller));
    var r := Reverse(owned);
    assert forall k :: 0 <= k < |r| ==> r[k] in owned;
    assert forall k :: 0 <= k < |owned| ==> owned[k] == r[|owned| - 1 - k];
    r
  }

  /** `time || createdAt.toLocaleString()`: the stored label, or the
      creation time rendered by `render` when the label is empty. */
  function FeedItemOf(a: Activity, render: nat -> string): (f: FeedItem)
    ensures f.action == a.action && f.icon == a.icon
    ensures a.time != "" ==> f.time == a.time
    ensures a.time == "" ==> f.time == render(a.createdAt)
  {
    FeedItem(a.action, if a.time != "" then a.time else render(a.createdAt), a.icon)
  }

  /** getDashboardActivities: the caller's five newest activities (fewer
      when there are fewer), newest first, each with its action and icon. */
  function DashboardActivities(log: seq<Activity>, caller: nat, render: nat -> string): (r: seq<FeedItem>)
    ensures |r| == Min(5, |NewestActivities(log, caller)|)
    ensures forall k :: 0 <= k < |r| ==> r[k] == FeedItemOf(NewestActivities(log, caller)[k], render)
  {
    var newest := NewestActivities(log, caller);
    var top := Window(newest, 0, 5);
    seq(|top|, k requires 0 <= k < |top| => FeedItemOf(top[k], render))
  }

  /** Logging an activity puts it in front of the owner's newest-first
      list and leaves everybody else's list alone. */
  lemma {:induction false} NewestSnoc(log: seq<Activity>, a: Activity, caller: nat)
    ensures NewestActivities(log + [a], caller) ==
              (if a.userId == caller then [a] else []) + NewestActivities(log, caller)
  {
    FilterSnoc(log, a, ActivityOwnedBy(caller));
    var owned := Filter(log, ActivityOwnedBy(caller));
    if a.userId == caller {
      assert ActivityOwnedBy(caller)(a);
      ReverseSnoc(owned, a);
    } else {
      assert !ActivityOwnedBy(caller)(a);
    }
  }

  /** An activity just logged for the caller heads the feed, and the items
      after it are the feed as it was, shifted down by one. */
  lemma {:induction false} LoggedActivityHeadsFeed(log: seq<Activity>, a: Activity, render: nat -> string)
    ensures var before, after := DashboardActivities(log, a.userId, render), DashboardActivities(log + [a], a.userId, render);
      && after != [] && after[0] == FeedItemOf(a, render)
      && forall k :: 1 <= k < |after| ==> k - 1 < |before| && after[k] == before[k - 1]
  {
    NewestSnoc(log, a, a.userId);
  }

  /** Stored activities always have a time label, so the fallback to the
      creation time is never taken for them. */
  lemma {:induction false} FeedUsesStoredTime(log: seq<Activity>, caller: nat, render: nat -> string)
    requires forall k :: 0 <= k < |log| ==> ValidActivity(log[k])
    ensures var r := DashboardActivities(log, caller, render);
      forall k :: 0 <= k < |r| ==> r[k].time == NewestActivities(log, caller)[k].time
  {
    var n := NewestActivities(log, caller);
    forall k | 0 <= k < |n| ensures n[k].time != "" {
      assert n[k] in log;
    }
  }

  // ---------------------------------------------------------------------------
  // getAllActivitiesDebug

  /** getAllActivitiesDebug: the first ten activities in stored order,
      whoever owns them. */
  function AllActivitiesDebug(log: seq<Activity>): (r: seq<Activity>)
    ensures |r| == Min(10, |log|)
    ensures r == log[..|r|]
  {
    log[..Min(10, |log|)]
  }
}
