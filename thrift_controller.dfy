/** The thrift handlers (server/controllers/thriftController.js): create a
    plan, list the caller's plans a page at a time, and update a plan the
    caller owns. Every handler runs after the authentication middleware, so
    `caller` is the id of an existing user. */
module ThriftController {
  import opened Common
  import opened ErrorHandler
  import opened Query
  import opened ThriftModel
  import opened ActivityModel
  import opened Store

  /** The fields a create or update request may carry in its body. */
  datatype ThriftRequest = ThriftRequest(
    name: Option<string>,
    startDate: Option<string>,
    endDate: Option<string>,
    amountPerCycle: Option<int>,
    frequency: Option<string>,
    status: Option<string>,
    maxMembers: Option<int>,
    description: Option<string>,
    isPublic: Option<bool>)

  const CreateFieldsMessage: string := "Please fill all required thrift fields"
  const UpdateFieldsMessage: string :=
    "Please fill all required fields: name, startDate, amountPerCycle, frequency"
  const NotFoundMessage: string := "Thrift not found"
  const ForbiddenMessage: string := "Not authorized to update this thrift"
  /** The message of the error `save()` throws when validation fails (its
      exact wording, which lists the failing paths, is not modelled). */
  const SaveRejectedMessage: string := "Thrift validation failed"
  const DefaultThriftLimit: nat := 25

  // ---------------------------------------------------------------------------
  // createThrift

  /** createThrift's guard: one of the five fields it requires is falsy. */
  predicate MissingCreateField(r: ThriftRequest) {
    !PresentText(r.name) || !PresentText(r.startDate) || !PresentNumber(r.amountPerCycle) ||
    !PresentText(r.frequency) || !PresentNumber(r.maxMembers)
  }

  /** The document `Thrift.create` builds from a request: stamped with the
      caller's id, description and isPublic not taken from the request, and
      the schema defaults filled in. */
  function CreatedThrift(id: nat, userId: nat, r: ThriftRequest): (t: Thrift)
    ensures t.id == id && t.userId == userId && Normalised(t)
    ensures t.name == TrimField(r.name) && t.startDate == DateField(r.startDate) && t.endDate == DateField(r.endDate)
    ensures t.amountPerCycle == r.amountPerCycle && t.frequency == r.frequency && t.maxMembers == r.maxMembers
    ensures t.status == (if r.status.None? then Some("pending") else r.status)
    ensures t.description.None? && t.isPublic == Some(true)
  {
    ThriftDefaults(SetFields(id, userId, r.name, r.startDate, r.endDate, r.amountPerCycle, r.frequency,
                             r.status, r.maxMembers, None, None))
  }

  /** The activity text logged on creation: the thrift's name, quoted,
      after a fixed lead-in, so the name can be read back from it. */
  function CreatedAction(name: string): (s: string)
    ensures var lead := "New thrift plan created: \"";
      |s| == |lead| + |name| + 1 && s[..|lead|] == lead && s[|lead|..|s| - 1] == name && s[|s| - 1] == '"'
  {
    "New thrift plan created: \"" + name + "\""
  }

  /** The activity text logged on update, read back the same way. */
  function UpdatedAction(name: string): (s: string)
    ensures var lead := "Thrift Updated: \"";
      |s| == |lead| + |name| + 1 && s[..|lead|] == lead && s[|lead|..|s| - 1] == name && s[|s| - 1] == '"'
  {
    "Thrift Updated: \"" + name + "\""
  }

  /** createThrift: 400 when a required field is falsy, 500 when the schema
      rejects the document; otherwise the thrift is stored with the caller as
      owner, one activity owned by the caller is logged, and the reply is 201
      with the stored thrift. Nothing else in the store changes. */
  method CreateThrift(db: Db, caller: nat, req: ThriftRequest, clock: Clock) returns (res: Outcome<Thrift>)
    requires db.Valid() && IsUser(db.users, caller)
    modifies db
    ensures db.Valid()
    ensures db.users == old(db.users) && db.members == old(db.members)
    ensures db.contributions == old(db.contributions)
    ensures MissingCreateField(req) ==> res == Err(400, CreateFieldsMessage) && unchanged(db)
    ensures !MissingCreateField(req) && !ValidThrift(CreatedThrift(old(db.nextId), caller, req)) ==>
              res == Err(500, "Server error") && unchanged(db)
    ensures res.Ok? <==> !MissingCreateField(req) && ValidThrift(CreatedThrift(old(db.nextId), caller, req))
    ensures res.Ok? ==>
              var t := CreatedThrift(old(db.nextId), caller, req);
              && res == Ok(201, t)
              && db.thrifts == old(db.thrifts) + [t]
              && db.activities == old(db.activities) +
                   [NewActivity(old(db.nextId) + 1, caller, CreatedAction(t.name.value), clock, ThriftIcon)]
  {
    if MissingCreateField(req) {
      return Err(400, CreateFieldsMessage);
    }
    var t := CreatedThrift(db.nextId, caller, req);
    if !ValidThrift(t) {
      return Err(500, "Server error");
    }
    var a := NewActivity(db.nextId + 1, caller, CreatedAction(t.name.value), clock, ThriftIcon);
    db.InsertThrift(t);
    db.InsertActivity(a);
    res := Ok(201, t);
  }

  // ---------------------------------------------------------------------------
  // getThrifts

  function OwnedBy(owner: nat): Thrift -> bool {
    (t: Thrift) => t.userId == owner
  }

  /** `Thrift.find({ userId })`, oldest first. */
  function OwnedThrifts(ts: seq<Thrift>, owner: nat): (r: seq<Thrift>)
    ensures forall k :: 0 <= k < |r| ==> r[k] in ts && r[k].userId == owner
    ensures forall k :: 0 <= k < |ts| && ts[k].userId == owner ==> ts[k] in r
  {
    Filter(ts, OwnedBy(owner))
  }

  /** getThrifts: page (default 1) and limit (default 25) of the caller's
      thrifts, newest first, as loaded (schema defaults filled in); every
      listed thrift is a stored one of the caller's, loaded, the page holds at
      most |limit| of them, totalThrifts counts only
      the caller's thrifts and totalPages is ceil(totalThrifts / limit). A
      negative skip is refused by the database and answered with 500. */
  function GetThrifts(ts: seq<Thrift>, caller: nat, page: Option<int>, limit: Option<int>)
    : (r: Outcome<PageOf<Thrift>>)
    ensures var p, l := PageParam(page, 1), PageParam(limit, DefaultThriftLimit);
      && (r.Err? <==> (p - 1) * l < 0)
      && (r.Err? ==> r == Err(500, "Server error fetching thrifts"))
      && (r.Ok? ==>
            && r.status == 200 && r.value.currentPage == p
            && r.value.items == Window(Loaded(Reverse(OwnedThrifts(ts, caller))), (p - 1) * l, Abs(l))
            && (forall k :: 0 <= k < |r.value.items| ==>
                  r.value.items[k] in Loaded(ts) && r.value.items[k].userId == caller &&
                  r.value.items[k].status.Some? && r.value.items[k].isPublic.Some?)
            && |r.value.items| <= Abs(l)
            && r.value.total == |OwnedThrifts(ts, caller)|
            && r.value.totalPages == CeilDiv(r.value.total, l))
  {
    var owned := OwnedThrifts(ts, caller);
    var ordered := Loaded(Reverse(owned));
    assert forall k :: 0 <= k < |ordered| ==> ordered[k] in Loaded(ts) by {
      forall k | 0 <= k < |ordered| ensures ordered[k] in Loaded(ts) {
        assert Reverse(owned)[k] in owned;
        LoadedMember(ts, Reverse(owned)[k]);
      }
    }
    Paginate(ordered, page, limit, DefaultThriftLimit, "Server error fetching thrifts")
  }

  /** A thrift the caller has just stored heads the first page of their
      listing (with the default page and limit), as loaded, and the total
      grows by one; a thrift stored with its status and isPublic set, as
      every created one is, is listed unchanged. */
  lemma {:induction false} CreatedThriftListedFirst(ts: seq<Thrift>, t: Thrift)
    ensures var r := GetThrifts(ts + [t], t.userId, None, None);
      && r.Ok? && r.value.items != [] && r.value.items[0] == ThriftDefaults(t)
      && (t.status.Some? && t.isPublic.Some? ==> r.value.items[0] == t)
      && r.value.total == |OwnedThrifts(ts, t.userId)| + 1
  {
    FilterSnoc(ts, t, OwnedBy(t.userId));
    var ordered := Reverse(OwnedThrifts(ts + [t], t.userId));
    assert ordered[0] == t;
  }

  // ---------------------------------------------------------------------------
  // updateThrift

  /** updateThrift's guard: one of the four fields it requires is falsy. */
  predicate MissingUpdateField(r: ThriftRequest) {
    !PresentText(r.name) || !PresentText(r.startDate) || !PresentNumber(r.amountPerCycle) || !PresentText(r.frequency)
  }

  /** The document after updateThrift has assigned all nine mutable fields
      from the request: an absent optional field becomes absent (no default
      is applied on save; `Loaded` fills status and isPublic back in when the
      document is next read), and only id and owner survive from the old
      document. */
  function Overwritten(t: Thrift, r: ThriftRequest): (u: Thrift)
    ensures u.id == t.id && u.userId == t.userId && Normalised(u)
    ensures u == CreatedThrift(t.id, t.userId, r).(status := r.status, description := TrimField(r.description),
                                                    isPublic := r.isPublic)
  {
    SetFields(t.id, t.userId, r.name, r.startDate, r.endDate, r.amountPerCycle, r.frequency, r.status,
              r.maxMembers, r.description, r.isPublic)
  }

  /** The update keeps nothing of the old document but its id and owner. */
  lemma OverwriteForgetsOldFields(t1: Thrift, t2: Thrift, r: ThriftRequest)
    requires t1.id == t2.id && t1.userId == t2.userId
    ensures Overwritten(t1, r) == Overwritten(t2, r)
  {
  }

  /** updateThrift: the checks run in the order not found (404), not the
      owner (403), required field missing (400), schema rejects the save
      (500, a thrown error with the default status); each failure leaves the
      store unchanged. On success the stored thrift is replaced by the
      overwritten document, one activity for the caller is logged and the
      reply is 200 with the saved thrift. */
  method UpdateThrift(db: Db, caller: nat, id: nat, req: ThriftRequest, clock: Clock) returns (res: Outcome<Thrift>)
    requires db.Valid() && IsUser(db.users, caller)
    modifies db
    ensures db.Valid()
    ensures db.users == old(db.users) && db.members == old(db.members)
    ensures db.contributions == old(db.contributions)
    ensures FindThrift(old(db.thrifts), id).None? ==> res == Err(404, NotFoundMessage) && unchanged(db)
    ensures FindThrift(old(db.thrifts), id).Some? ==>
              var i := FindThrift(old(db.thrifts), id).value;
              var t := old(db.thrifts)[i];
              var u := Overwritten(t, req);
              && (t.userId != caller ==> res == Err(403, ForbiddenMessage) && unchanged(db))
              && (t.userId == caller && MissingUpdateField(req) ==> res == Err(400, UpdateFieldsMessage) && unchanged(db))
              && (t.userId == caller && !MissingUpdateField(req) && !ValidThrift(u) ==>
                    res == Err(500, SaveRejectedMessage) && unchanged(db))
              && (t.userId == caller && !MissingUpdateField(req) && ValidThrift(u) ==>
                    && res == Ok(200, u)
                    && db.thrifts == old(db.thrifts)[i := u]
                    && db.activities == old(db.activities) +
                         [NewActivity(old(db.nextId), caller, UpdatedAction(u.name.value), clock, ThriftIcon)])
  {
    var found := FindThrift(db.thrifts, id);
    if found.None? {
      return Thrown(404, NotFoundMessage);
    }
    var i := found.value;
    var thrift := db.thrifts[i];
    if thrift.userId != caller {
      return Thrown(403, ForbiddenMessage);
    }
    if MissingUpdateField(req) {
      return Thrown(400, UpdateFieldsMessage);
    }
    // The nine assignments to the fetched document, each through its setter.
    thrift := thrift.(name := TrimField(req.name));
    thrift := thrift.(startDate := DateField(req.startDate));
    thrift := thrift.(endDate := DateField(req.endDate));
    thrift := thrift.(amountPerCycle := req.amountPerCycle);
    thrift := thrift.(frequency := req.frequency);
    thrift := thrift.(status := req.status);
    thrift := thrift.(maxMembers := req.maxMembers);
    thrift := thrift.(description := TrimField(req.description));
    thrift := thrift.(isPublic := req.isPublic);
    assert thrift == Overwritten(old(db.thrifts)[i], req);
    // save(): validation runs first; a failure is thrown with status 200 unset.
    if !ValidThrift(thrift) {
      return Thrown(200, SaveRejectedMessage);
    }
    var a := NewActivity(db.nextId, caller, UpdatedAction(thrift.name.value), clock, ThriftIcon);
    db.ReplaceThrift(i, thrift);
    db.InsertActivity(a);
    res := Ok(200, thrift);
  }
}
