/** The Thrift schema (server/models/Thrift.js) as a document datatype, its
    validators, its setters (trim, date casting) and its defaults. */
module ThriftModel {
  import opened Common

  const Frequencies: seq<string> := ["daily", "weekly", "monthly", "bi-weekly", "yearly"]
  const ThriftStatuses: seq<string> := ["active", "completed", "cancelled", "pending"]

  /** A stored thrift. Every schema path is optional in a document; the
      validators below say which must be present. */
  datatype Thrift = Thrift(
    id: nat,
    userId: nat,
    name: Option<string>,
    startDate: Option<string>,
    endDate: Option<string>,
    amountPerCycle: Option<int>,
    frequency: Option<string>,
    status: Option<string>,
    maxMembers: Option<int>,
    description: Option<string>,
    isPublic: Option<bool>)

  /** What `validate()` accepts: name, startDate, amountPerCycle and
      frequency are required; amountPerCycle is at least 0; frequency and
      status are enumerations; maxMembers, when set, is at least 2. */
  predicate ValidThrift(t: Thrift) {
    && PresentText(t.name)
    && t.startDate.Some?
    && t.amountPerCycle.Some? && t.amountPerCycle.value >= 0
    && t.frequency.Some? && t.frequency.value in Frequencies
    && (t.status.Some? ==> t.status.value in ThriftStatuses)
    && (t.maxMembers.Some? ==> t.maxMembers.value >= 2)
  }

  /** The setters have run: name and description are trimmed and no date
      is the empty string. */
  predicate Normalised(t: Thrift) {
    && (t.name.Some? ==> IsTrimmed(t.name.value))
    && (t.description.Some? ==> IsTrimmed(t.description.value))
    && (t.startDate.Some? ==> t.startDate.value != "")
    && (t.endDate.Some? ==> t.endDate.value != "")
  }

  /** The `trim: true` setter. */
  function TrimField(o: Option<string>): (r: Option<string>)
    ensures r.Some? <==> o.Some?
    ensures r.Some? ==> IsTrimmed(r.value) && r.value == Trim(o.value)
  {
    if o.None? then None else Some(Trim(o.value))
  }

  /** Casting to Date: the empty string becomes null (absent). */
  function DateField(o: Option<string>): (r: Option<string>)
    ensures r.Some? ==> r.value != "" && r == o
    ensures o.Some? && o.value != "" ==> r == o
  {
    if o == Some("") then None else o
  }

  /** A document holding the given values after the setters have run. */
  function SetFields(id: nat, userId: nat, name: Option<string>, startDate: Option<string>,
                     endDate: Option<string>, amountPerCycle: Option<int>, frequency: Option<string>,
                     status: Option<string>, maxMembers: Option<int>, description: Option<string>,
                     isPublic: Option<bool>): (t: Thrift)
    ensures Normalised(t)
    ensures t.id == id && t.userId == userId
    ensures t.amountPerCycle == amountPerCycle && t.frequency == frequency && t.status == status
    ensures t.maxMembers == maxMembers && t.isPublic == isPublic
  {
    Thrift(id, userId, TrimField(name), DateField(startDate), DateField(endDate), amountPerCycle,
           frequency, status, maxMembers, TrimField(description), isPublic)
  }

  /** The schema defaults applied when a document is created: status
      "pending" and isPublic true when not given. */
  function ThriftDefaults(t: Thrift): (r: Thrift)
    ensures r.status == (if t.status.None? then Some("pending") else t.status)
    ensures r.isPublic == (if t.isPublic.None? then Some(true) else t.isPublic)
    ensures r.(status := t.status, isPublic := t.isPublic) == t
  {
    t.(status := if t.status.None? then Some("pending") else t.status,
       isPublic := if t.isPublic.None? then Some(true) else t.isPublic)
  }

  /** The documents as `find` hands them back: the schema defaults are filled
      in when a stored document is loaded, so a document saved without a
      status or an isPublic flag reads back as "pending" and public. */
  function Loaded(ts: seq<Thrift>): (r: seq<Thrift>)
    ensures |r| == |ts|
    ensures forall k :: 0 <= k < |r| ==> r[k] == ThriftDefaults(ts[k])
    ensures forall k :: 0 <= k < |r| ==> r[k].status.Some? && r[k].isPublic.Some?
  {
    seq(|ts|, k requires 0 <= k < |ts| => ThriftDefaults(ts[k]))
  }

  /** A stored document, loaded, is among the loaded documents. */
  lemma LoadedMember(ts: seq<Thrift>, t: Thrift)
    requires t in ts
    ensures ThriftDefaults(t) in Loaded(ts)
  {
    var j :| 0 <= j < |ts| && ts[j] == t;
    assert Loaded(ts)[j] == ThriftDefaults(t);
  }

  /** Defaults never make a document invalid, and the default status is one
      of the allowed ones. */
  lemma DefaultsKeepValidity(t: Thrift)
    ensures ValidThrift(ThriftDefaults(t)) <==> ValidThrift(t)
    ensures Normalised(ThriftDefaults(t)) <==> Normalised(t)
  {
  }

  /** `findById(id)`: the position of the first thrift with this id. */
  function FindThrift(ts: seq<Thrift>, id: nat): (r: Option<nat>)
    ensures r.Some? ==> r.value < |ts| && ts[r.value].id == id
    ensures r.Some? ==> forall k :: 0 <= k < r.value ==> ts[k].id != id
    ensures r.None? <==> forall k :: 0 <= k < |ts| ==> ts[k].id != id
  {
    FindFirst(ts, (t: Thrift) => t.id == id)
  }
}
