/** The job-creation form's state: the nine-field draft, the loading flag, the
    confirmation modal and the error message. */
module CreateJobComponent {
  import opened Results
  import opened Posting
  import opened TransportErrors

  /** The job-type buttons, in the order they are shown. */
  const SelectableTypes: seq<string> := ["Full-time", "Part-time", "Contract", "Internship"]

  /** The buttons offer exactly the four members of the table's `job_type`
      column, so a type picked with them is never refused by the column. */
  lemma SelectableTypesMatchColumn(t: string)
    ensures t in SelectableTypes <==> t in JobTypes
  {
  }

  class CreateJobForm {
    var formData: JobFields
    var loading: bool
    var showModal: bool
    var error: Option<string>

    /** The form as first shown: all nine fields empty, idle, no modal, no error. */
    constructor ()
      ensures formData == EmptyFields && !loading && !showModal && error == None
    {
      formData := EmptyFields;
      loading := false;
      showModal := false;
      error := None;
    }

    /** `handleChange`: the input named `name` now holds `value`; the other eight
        fields are untouched. */
    method HandleChange(name: FieldName, value: string)
      modifies this`formData
      ensures Get(formData, name) == value
      ensures forall m :: m != name ==> Get(formData, m) == Get(old(formData), m)
      ensures value == Get(old(formData), name) ==> formData == old(formData)
    {
      WithFieldSame(formData, name);
      formData := WithField(formData, name, value);
    }

    /** `handleJobTypeSelect`: only the job type changes. */
    method HandleJobTypeSelect(jobType: string)
      modifies this`formData
      ensures Get(formData, JobType) == jobType
      ensures forall m :: m != JobType ==> Get(formData, m) == Get(old(formData), m)
    {
      formData := formData.(jobType := jobType);
    }

    /** The synchronous start of `handleSubmit`: busy, no error, and the draft as it
        stands is what gets posted. */
    method BeginSubmit() returns (payload: JobFields)
      modifies this`loading, this`error
      ensures loading && error == None && payload == formData
    {
      loading := true;
      error := None;
      payload := formData;
    }

    /** The rest of `handleSubmit` once the post has settled. On success the modal
        opens and the draft is reset to the empty record; on failure only the error
        message is set. `loading` is cleared either way. */
    method FinishSubmit(reply: Reply<()>)
      modifies this`loading, this`error, this`showModal, this`formData
      ensures !loading
      ensures reply.Delivered? ==> showModal && formData == EmptyFields && error == old(error)
      ensures reply.Failed? ==>
        error == Some(SubmitErrorMessage(reply.error)) && formData == old(formData) && showModal == old(showModal)
    {
      if reply.Delivered? {
        showModal := true;
        formData := EmptyFields;
      } else {
        error := Some(SubmitErrorMessage(reply.error));
      }
      loading := false;
    }

    /** `handleSubmit` as one step: it posts the current draft and ends idle, with
        either the modal open and an empty draft and no error, or the draft and
        modal as they were and exactly one error message. */
    method HandleSubmit(reply: Reply<()>) returns (payload: JobFields)
      modifies this`loading, this`error, this`showModal, this`formData
      ensures payload == old(formData) && !loading
      ensures reply.Delivered? ==> showModal && formData == EmptyFields && error == None
      ensures reply.Failed? ==>
        error == Some(SubmitErrorMessage(reply.error)) && formData == old(formData) && showModal == old(showModal)
    {
      payload := BeginSubmit();
      FinishSubmit(reply);
    }

    /** `closeModal`: the modal closes; nothing else in the form changes. */
    method CloseModal()
      modifies this`showModal
      ensures !showModal
    {
      showModal := false;
    }
  }
}
