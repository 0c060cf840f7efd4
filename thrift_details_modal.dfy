/** The thrift details dialog (client/src/components/ThriftDetailsModal.jsx):
    the edit form filled from a stored thrift, the checks run before the
    update is sent, the body sent, and the dialog's edit/cancel/submit state. */
module ThriftDetailsModal {
  import opened Common
  import opened ThriftModel
  import opened ThriftController

  /** The edit form. Text fields hold strings; an emptied amount or maximum
      field is None. Dates are held in the stored form. */
  datatype FormData = FormData(
    name: string,
    startDate: string,
    endDate: string,
    amountPerCycle: Option<int>,
    frequency: string,
    status: string,
    maxMembers: Option<int>,
    description: string,
    isPublic: bool)

  /** `x || dflt` on an optional string. */
  function TextOr(o: Option<string>, dflt: string): (s: string)
    ensures PresentText(o) ==> s == o.value
    ensures !PresentText(o) ==> s == dflt
  {
    if PresentText(o) then o.value else dflt
  }

  /** The form as it is filled from a thrift: a falsy status becomes
      "pending", a falsy amount 0, a falsy maximum the empty field, and
      isPublic is true unless the thrift holds a boolean. */
  function InitFormData(t: Thrift): (f: FormData)
    ensures !PresentText(t.status) ==> f.status == "pending"
    ensures PresentText(t.status) ==> f.status == t.status.value
    ensures !PresentNumber(t.amountPerCycle) ==> f.amountPerCycle == Some(0)
    ensures PresentNumber(t.amountPerCycle) ==> f.amountPerCycle == t.amountPerCycle
    ensures !PresentNumber(t.maxMembers) ==> f.maxMembers.None?
    ensures PresentNumber(t.maxMembers) ==> f.maxMembers == t.maxMembers
    ensures f.isPublic <==> t.isPublic != Some(false)
    ensures PresentText(t.name) ==> f.name == t.name.value
    ensures !PresentText(t.name) ==> f.name == ""
  {
    FormData(
      TextOr(t.name, ""),
      TextOr(t.startDate, ""),
      TextOr(t.endDate, ""),
      Some(if PresentNumber(t.amountPerCycle) then t.amountPerCycle.value else 0),
      TextOr(t.frequency, ""),
      TextOr(t.status, "pending"),
      if PresentNumber(t.maxMembers) then t.maxMembers else None,
      TextOr(t.description, ""),
      if t.isPublic.Some? then t.isPublic.value else true)
  }

  const RequiredFieldsMessage: string :=
    "Please fill all required fields: Thrift Name, Start Date, Amount per Cycle, Frequency."
  const AmountMessage: string := "Amount per Cycle must be a positive number."
  const MaxMembersMessage: string := "Maximum members must be at least 2."

  /** The first check: name, start date, amount and frequency are truthy. */
  predicate RequiredFilled(f: FormData) {
    f.name != "" && f.startDate != "" && PresentNumber(f.amountPerCycle) && f.frequency != ""
  }

  /** handleSubmit's checks, in their order: required fields, then a
      positive amount, then a filled maximum of at least 2. The result is
      the message of the first check that fails, or None when all pass. */
  function SubmitError(f: FormData): (e: Option<string>)
    ensures e.None? <==>
              RequiredFilled(f) && f.amountPerCycle.value > 0 && (f.maxMembers.Some? ==> f.maxMembers.value >= 2)
    ensures !RequiredFilled(f) ==> e == Some(RequiredFieldsMessage)
    ensures RequiredFilled(f) && f.amountPerCycle.value <= 0 ==> e == Some(AmountMessage)
    ensures RequiredFilled(f) && f.amountPerCycle.value > 0 && f.maxMembers.Some? && f.maxMembers.value < 2 ==>
              e == Some(MaxMembersMessage)
  {
    if !RequiredFilled(f) then Some(RequiredFieldsMessage)
    else if f.amountPerCycle.value <= 0 then Some(AmountMessage)
    else if f.maxMembers.Some? && f.maxMembers.value < 2 then Some(MaxMembersMessage)
    else None
  }

  /** dataToSend: every field of the form, with an empty maximum left out of
      the body. */
  function DataToSend(f: FormData): (r: ThriftRequest)
    ensures r.name == Some(f.name) && r.startDate == Some(f.startDate) && r.endDate == Some(f.endDate)
    ensures r.amountPerCycle == f.amountPerCycle && r.frequency == Some(f.frequency) && r.status == Some(f.status)
    ensures r.maxMembers == f.maxMembers
    ensures r.description == Some(f.description) && r.isPublic == Some(f.isPublic)
  {
    ThriftRequest(Some(f.name), Some(f.startDate), Some(f.endDate), f.amountPerCycle, Some(f.frequency),
                  Some(f.status), f.maxMembers, Some(f.description), Some(f.isPublic))
  }

  /** A form the dialog sends never meets the server's missing-field 400. */
  lemma {:induction false} CheckedFormPassesUpdateGuard(f: FormData)
    requires SubmitError(f).None?
    ensures !MissingUpdateField(DataToSend(f))
  {
  }

  /** A form the dialog sends is saved by the server when its name is not
      only white space and its frequency and status are values the schema
      allows: the overwritten document is valid. */
  lemma {:induction false} CheckedFormSaves(t: Thrift, f: FormData)
    requires SubmitError(f).None?
    requires !AllSpace(f.name) && f.frequency in Frequencies && f.status in ThriftStatuses
    ensures ValidThrift(Overwritten(t, DataToSend(f)))
  {
    var u := Overwritten(t, DataToSend(f));
    assert u.name == Some(Trim(f.name));
    assert u.startDate == Some(f.startDate);
  }

  /** Opening a valid stored thrift and saving it without edits passes the
      checks and writes the same document back, provided the thrift has a
      status, an isPublic flag and a description of its own and a positive
      amount (otherwise the form fills in "pending", true or "", or the
      amount check refuses 0). */
  lemma {:induction false} UneditedSaveKeepsThrift(t: Thrift)
    requires ValidThrift(t) && Normalised(t)
    requires t.status.Some? && t.isPublic.Some? && t.description.Some? && t.amountPerCycle.value > 0
    ensures SubmitError(InitFormData(t)).None?
    ensures Overwritten(t, DataToSend(InitFormData(t))) == t
  {
    UneditedFormPasses(t);
    UneditedFieldsKept(t);
  }

  /** The unedited form passes all three checks. */
  lemma {:induction false} UneditedFormPasses(t: Thrift)
    requires ValidThrift(t) && Normalised(t)
    requires t.amountPerCycle.value > 0
    ensures SubmitError(InitFormData(t)).None?
  {
    assert t.frequency.value != "";
  }

  /** Saving the unedited form writes every field back as it was. */
  lemma {:induction false} UneditedFieldsKept(t: Thrift)
    requires ValidThrift(t) && Normalised(t)
    requires t.status.Some? && t.isPublic.Some? && t.description.Some?
    ensures Overwritten(t, DataToSend(InitFormData(t))) == t
  {
    var u := Overwritten(t, DataToSend(InitFormData(t)));
    KeptTexts(t);
    KeptSettings(t);
    KeptFlags(t);
    assert u.id == t.id && u.userId == t.userId;
  }

  /** The trimmed texts and the dates survive the round trip through the
      form. */
  lemma {:induction false} KeptTexts(t: Thrift)
    requires ValidThrift(t) && Normalised(t)
    requires t.description.Some?
    ensures var u := Overwritten(t, DataToSend(InitFormData(t)));
      u.name == t.name && u.description == t.description && u.startDate == t.startDate && u.endDate == t.endDate
  {
    TrimmedFixed(t.name.value);
    TrimmedFixed(t.description.value);
  }

  /** The amount, frequency and maximum survive the round trip through the
      form. */
  lemma {:induction false} KeptSettings(t: Thrift)
    requires ValidThrift(t)
    ensures var u := Overwritten(t, DataToSend(InitFormData(t)));
      u.amountPerCycle == t.amountPerCycle && u.frequency == t.frequency && u.maxMembers == t.maxMembers
  {
    var f := InitFormData(t);
    assert f.frequency == t.frequency.value;
  }

  /** A status and a visibility of the thrift's own survive the round trip
      through the form. */
  lemma {:induction false} KeptFlags(t: Thrift)
    requires ValidThrift(t)
    requires t.status.Some? && t.isPublic.Some?
    ensures var u := Overwritten(t, DataToSend(InitFormData(t)));
      u.status == t.status && u.isPublic == t.isPublic
  {
    var f := InitFormData(t);
    var r := DataToSend(f);
    var u := Overwritten(t, r);
    assert u.status == r.status && u.isPublic == r.isPublic;
    assert r.status == Some(f.status) && r.isPublic == Some(f.isPublic);
    assert PresentText(t.status) by {
      assert t.status.value in ThriftStatuses;
    }
  }

  /** The dialog's state for one selected thrift. */
  class ThriftDetailsState {
    const thrift: Thrift
    var isEditing: bool
    var formData: FormData
    var error: Option<string>

    /** Opening the dialog fills the form from the thrift, in view mode. */
    constructor (t: Thrift)
      ensures thrift == t && !isEditing && formData == InitFormData(t) && error.None?
    {
      thrift := t;
      isEditing := false;
      formData := InitFormData(t);
      error := None;
    }

    /** The "Edit Thrift" button: only switches to edit mode. */
    method StartEditing()
      modifies this
      ensures isEditing && formData == old(formData) && error == old(error)
    {
      isEditing := true;
    }

    /** Cancel: back to view mode, no error, and the form as it was filled
      when the dialog opened. */
    method Cancel()
      modifies this
      ensures !isEditing && error.None? && formData == InitFormData(thrift)
    {
      isEditing := false;
      error := None;
      formData := InitFormData(thrift);
    }

    /** handleSubmit: a form failing a check is not sent and shows the
      check's message; otherwise the body is sent, and the dialog returns to
      view mode when the server accepts it, or shows the server's message
      (`rejection`) and stays in edit mode. The form is never changed. */
    method HandleSubmit(rejection: Option<string>) returns (sent: Option<ThriftRequest>)
      modifies this
      ensures formData == old(formData)
      ensures SubmitError(old(formData)).Some? ==>
                sent.None? && error == SubmitError(old(formData)) && isEditing == old(isEditing)
      ensures SubmitError(old(formData)).None? ==>
                && sent == Some(DataToSend(old(formData)))
                && !MissingUpdateField(sent.value)
                && error == rejection
                && (rejection.None? ==> !isEditing)
                && (rejection.Some? ==> isEditing == old(isEditing))
    {
      error := None;
      var failed := SubmitError(formData);
      if failed.Some? {
        error := failed;
        return None;
      }
      CheckedFormPassesUpdateGuard(formData);
      sent := Some(DataToSend(formData));
      if rejection.None? {
        isEditing := false;
      } else {
        error := rejection;
      }
    }
  }
}
