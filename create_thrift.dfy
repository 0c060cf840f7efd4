/** The create-thrift dialog (client/src/components/CreateThrift.jsx): the
    form's fields and their reset values, and the body it posts. */
module CreateThrift {
  import opened Common
  import opened ThriftModel
  import opened ThriftController

  /** The values the frequency select offers. */
  const FrequencyOptions: seq<string> := ["Daily", "Weekly", "Bi-Weekly", "Monthly"]
  const DefaultFrequency: string := "Weekly"

  /** The form's fields. An empty or unparsable number field is None. */
  datatype CreateForm = CreateForm(
    thriftName: string,
    contributionAmount: Option<int>,
    frequency: string,
    startDate: string,
    endDate: string,
    maxMembers: Option<int>,
    description: string,
    isPublic: bool)

  /** resetFormAndMessages: every text field empty, frequency "Weekly", the
      thrift public. */
  function ResetForm(): (f: CreateForm)
    ensures f.thriftName == "" && f.contributionAmount.None? && f.frequency == DefaultFrequency
    ensures f.startDate == "" && f.endDate == "" && f.maxMembers.None? && f.description == "" && f.isPublic
  {
    CreateForm("", None, DefaultFrequency, "", "", None, "", true)
  }

  /** thriftData: the frequency lower-cased, an empty end date, maximum or
      description left out of the body, no status, isPublic as it is. */
  function BuildThriftData(f: CreateForm): (r: ThriftRequest)
    ensures r.name == Some(f.thriftName) && r.startDate == Some(f.startDate)
    ensures r.amountPerCycle == f.contributionAmount && r.maxMembers == f.maxMembers
    ensures r.frequency == Some(Lower(f.frequency))
    ensures r.endDate.None? <==> f.endDate == ""
    ensures r.endDate.Some? ==> r.endDate.value == f.endDate
    ensures r.description.None? <==> f.description == ""
    ensures r.description.Some? ==> r.description.value == f.description
    ensures r.status.None? && r.isPublic == Some(f.isPublic)
  {
    ThriftRequest(
      Some(f.thriftName),
      Some(f.startDate),
      if f.endDate == "" then None else Some(f.endDate),
      f.contributionAmount,
      Some(Lower(f.frequency)),
      None,
      f.maxMembers,
      if f.description == "" then None else Some(f.description),
      Some(f.isPublic))
  }

  /** Lower-casing one option of the frequency select, character by
      character. */
  lemma {:induction false} LowerOption(option: string, lowered: string)
    requires |option| == |lowered|
    requires forall k :: 0 <= k < |option| ==> LowerChar(option[k]) == lowered[k]
    ensures Lower(option) == lowered
  {
  }

  /** Each option of the frequency select, lower-cased, is a frequency the
      schema allows. */
  lemma {:induction false} OptionsAreFrequencies(option: string)
    requires option in FrequencyOptions
    ensures Lower(option) in Frequencies
  {
    if option == "Daily" {
      LowerOption(option, "daily");
    } else if option == "Weekly" {
      LowerOption(option, "weekly");
    } else if option == "Bi-Weekly" {
      LowerOption(option, "bi-weekly");
    } else {
      LowerOption(option, "monthly");
    }
  }

  /** Leaving the maximum blank, which the form's help text calls
      "unlimited", is refused by the server with 400. */
  lemma {:induction false} BlankMaximumRefused(f: CreateForm)
    requires f.maxMembers.None?
    ensures MissingCreateField(BuildThriftData(f))
  {
  }

  /** A form with a name that is not only white space, a start date, a
      positive amount, one of the offered frequencies and a maximum of at
      least 2 passes the server's guard and creates a valid thrift; the
      thrift keeps neither the description nor the visibility the form
      chose. */
  lemma {:induction false} FilledFormCreatesThrift(f: CreateForm, id: nat, caller: nat)
    requires !AllSpace(f.thriftName) && f.startDate != ""
    requires f.contributionAmount.Some? && f.contributionAmount.value > 0
    requires f.frequency in FrequencyOptions
    requires f.maxMembers.Some? && f.maxMembers.value >= 2
    ensures !MissingCreateField(BuildThriftData(f))
    ensures var t := CreatedThrift(id, caller, BuildThriftData(f));
      ValidThrift(t) && t.description.None? && t.isPublic == Some(true)
  {
    var r := BuildThriftData(f);
    OptionsAreFrequencies(f.frequency);
    FilledFormPassesGuard(f);
    var t := CreatedThrift(id, caller, r);
    assert PresentText(t.name) by {
      assert t.name == Some(Trim(f.thriftName));
    }
    assert t.startDate == Some(f.startDate);
    assert t.status == Some("pending");
  }

  /** The guard part of FilledFormCreatesThrift. */
  lemma {:induction false} FilledFormPassesGuard(f: CreateForm)
    requires f.thriftName != "" && f.startDate != ""
    requires f.contributionAmount.Some? && f.contributionAmount.value > 0
    requires Lower(f.frequency) in Frequencies
    requires f.maxMembers.Some? && f.maxMembers.value >= 2
    ensures !MissingCreateField(BuildThriftData(f))
  {
    assert Lower(f.frequency) != "";
  }

  /** The dialog's form state. */
  class CreateThriftState {
    var form: CreateForm
    var loading: bool

    constructor ()
      ensures form == ResetForm() && !loading
    {
      form := ResetForm();
      loading := false;
    }

    /** resetFormAndMessages, also run whenever the dialog is hidden. */
    method ResetFormAndMessages()
      modifies this
      ensures form == ResetForm() && !loading
    {
      form := ResetForm();
      loading := false;
    }

    /** handleSubmit: the body built from the form is posted; when the
      server accepts it the parent is told (`notified`) and the form is
      reset, otherwise the form is kept. Either way loading ends. */
    method HandleSubmit(accepted: bool) returns (sent: ThriftRequest, notified: bool)
      modifies this
      ensures sent == BuildThriftData(old(form)) && !loading
      ensures notified == accepted
      ensures accepted ==> form == ResetForm()
      ensures !accepted ==> form == old(form)
    {
      loading := true;
      sent := BuildThriftData(form);
      loading := false;
      notified := accepted;
      if accepted {
        ResetFormAndMessages();
      }
    }
  }
}
