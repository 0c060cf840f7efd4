/** The Contribution schema (server/models/Contribution.js). */
module ContributionModel {
  import opened Common

  const ContributionStatuses: seq<string> := ["Pending", "Paid", "Overdue", "Refunded"]

  /** A stored contribution; `thrift` references the thrift it pays into. */
  datatype Contribution = Contribution(
    id: nat,
    userId: nat,
    memberId: Option<nat>,
    thrift: Option<nat>,
    amount: Option<int>,
    date: Option<string>,
    status: Option<string>,
    transactionRef: Option<string>)

  /** What `validate()` accepts: memberId, thrift and amount are required,
      amount is at least 0, and status is one of the four statuses. */
  predicate ValidContribution(c: Contribution) {
    && c.memberId.Some?
    && c.thrift.Some?
    && c.amount.Some? && c.amount.value >= 0
    && (c.status.Some? ==> c.status.value in ContributionStatuses)
  }

  /** The unique index on transactionRef: no two stored contributions share
      a value (documents without one count as sharing null). */
  predicate RefsUnique(cs: seq<Contribution>) {
    forall i, j :: 0 <= i < |cs| && 0 <= j < |cs| && i != j ==> cs[i].transactionRef != cs[j].transactionRef
  }

  /** Whether some stored contribution already holds `ref`. */
  predicate RefTaken(cs: seq<Contribution>, ref: Option<string>) {
    exists k :: 0 <= k < |cs| && cs[k].transactionRef == ref
  }

  /** The schema defaults: date is the current time and status "Pending"
      when not given. */
  function ContributionDefaults(c: Contribution, now: string): (r: Contribution)
    ensures r.date == (if c.date.None? then Some(now) else c.date)
    ensures r.status == (if c.status.None? then Some("Pending") else c.status)
    ensures r.(date := c.date, status := c.status) == c
  {
    c.(date := if c.date.None? then Some(now) else c.date,
       status := if c.status.None? then Some("Pending") else c.status)
  }

  /** Inserting a contribution whose reference is not yet taken keeps the
      index unique. */
  lemma {:induction false} InsertKeepsRefsUnique(cs: seq<Contribution>, c: Contribution)
    requires RefsUnique(cs) && !RefTaken(cs, c.transactionRef)
    ensures RefsUnique(cs + [c])
  {
    var all := cs + [c];
    forall i, j | 0 <= i < |all| && 0 <= j < |all| && i != j
      ensures all[i].transactionRef != all[j].transactionRef
    {
      if i == |cs| {
        assert all[j] == cs[j];
      } else if j == |cs| {
        assert all[i] == cs[i];
      } else {
        assert all[i] == cs[i] && all[j] == cs[j];
      }
    }
  }
}
