/** How the two screens turn a failed HTTP call into the one message they show.
    The HTTP client's error object is reduced to the three things the screens
    look at: its `code`, the server's response if one arrived, and whether a
    request went out at all. */
module TransportErrors {
  import opened Text
  import opened Results

  /** A response the server did send: status, status text and the `error` member
      of its JSON body, if it had one. */
  datatype HttpResponse = HttpResponse(status: nat, statusText: string, bodyError: Option<string>)

  /** A failed call as the HTTP client reports it. */
  datatype TransportError = TransportError(code: string, response: Option<HttpResponse>, requestSent: bool)

  /** The settled outcome of one awaited call: what it delivered, or how it failed. */
  datatype Reply<T> = Delivered(value: T) | Failed(error: TransportError)

  /** The four buckets, in the order they are tested. */
  datatype ErrorClass = Timeout | ServerError | Unreachable | Unexpected

  const TimeoutCode := "ECONNABORTED"
  // The screens write each message below as one literal; the longer ones are
  // split in two here only so that the verifier can look inside them.
  const TimeoutText := "Request timeout. " + "Please check your internet connection."
  const UnreachableText := "Cannot connect to server. " + "Please check if the backend is running."
  const ServerPrefix := "Server error: "
  /** The list screen's last-resort text. */
  const FetchUnexpectedText := "An unexpected error occurred."
  /** The creation form's last-resort text. */
  const SubmitUnexpectedText := "An unexpected error occurred" + " while creating the job."

  /** The bucket a failure falls in: a timeout code first, then a response, then
      a request that got no answer, and otherwise the unexpected bucket. */
  function Classify(e: TransportError): ErrorClass
  {
    if e.code == TimeoutCode then Timeout
    else if e.response.Some? then ServerError
    else if e.requestSent then Unreachable
    else Unexpected
  }

  /** "Server error: <status> - <detail>". */
  function ServerText(status: nat, detail: string): string
  {
    ServerPrefix + Decimal(status) + " - " + detail
  }

  /** The list screen's message (`fetchJobs`): the detail is the status text. */
  function FetchErrorMessage(e: TransportError): string
  {
    if e.code == TimeoutCode then TimeoutText
    else if e.response.Some? then ServerText(e.response.value.status, e.response.value.statusText)
    else if e.requestSent then UnreachableText
    else FetchUnexpectedText
  }

  /** `response.data?.error || response.statusText`: a non-empty body error wins. */
  function SubmitDetail(r: HttpResponse): string
  {
    if r.bodyError.Some? && r.bodyError.value != "" then r.bodyError.value else r.statusText
  }

  /** The creation form's message (`handleSubmit`). */
  function SubmitErrorMessage(e: TransportError): string
  {
    if e.code == TimeoutCode then TimeoutText
    else if e.response.Some? then ServerText(e.response.value.status, SubmitDetail(e.response.value))
    else if e.requestSent then UnreachableText
    else SubmitUnexpectedText
  }

  predicate HasServerPrefix(msg: string)
  {
    |ServerPrefix| <= |msg| && msg[..|ServerPrefix|] == ServerPrefix
  }

  /** Reads the bucket back from a shown message. */
  function ClassOfMessage(msg: string): ErrorClass
  {
    if HasServerPrefix(msg) then ServerError
    else if msg == TimeoutText then Timeout
    else if msg == UnreachableText then Unreachable
    else Unexpected
  }

  lemma FixedTextsDistinct()
    ensures !HasServerPrefix(TimeoutText) && !HasServerPrefix(UnreachableText)
    ensures !HasServerPrefix(FetchUnexpectedText) && !HasServerPrefix(SubmitUnexpectedText)
    ensures TimeoutText != UnreachableText
    ensures FetchUnexpectedText != TimeoutText && FetchUnexpectedText != UnreachableText
    ensures SubmitUnexpectedText != TimeoutText && SubmitUnexpectedText != UnreachableText
  {
    assert TimeoutText[0] == 'R' && UnreachableText[0] == 'C' && ServerPrefix[0] == 'S';
    assert FetchUnexpectedText[0] == 'A' && SubmitUnexpectedText[0] == 'A';
  }

  lemma ServerTextHasPrefix(status: nat, detail: string)
    ensures HasServerPrefix(ServerText(status, detail))
  {
    var m := ServerText(status, detail);
    assert m[..|ServerPrefix|] == ServerPrefix;
  }

  /** Each screen sets exactly one message, and the message tells which bucket
      the failure fell in: the classifiers' precedence is visible to the user. */
  lemma MessagesIdentifyClass(e: TransportError)
    ensures ClassOfMessage(FetchErrorMessage(e)) == Classify(e)
    ensures ClassOfMessage(SubmitErrorMessage(e)) == Classify(e)
  {
    FixedTextsDistinct();
    if e.response.Some? {
      ServerTextHasPrefix(e.response.value.status, e.response.value.statusText);
      ServerTextHasPrefix(e.response.value.status, SubmitDetail(e.response.value));
    }
  }

  /** The two screens' classifiers differ only in the server-error detail (the form
      prefers the body's `error`) and in the unexpected-error text. */
  lemma ClassifiersAgree(e: TransportError)
    ensures Classify(e) in {Timeout, Unreachable} ==> FetchErrorMessage(e) == SubmitErrorMessage(e)
    ensures Classify(e) == ServerError && (e.response.value.bodyError.None? || e.response.value.bodyError.value == "")
      ==> FetchErrorMessage(e) == SubmitErrorMessage(e)
    ensures Classify(e) == ServerError && e.response.value.bodyError.Some? && e.response.value.bodyError.value != ""
      ==> && SubmitErrorMessage(e) == ServerText(e.response.value.status, e.response.value.bodyError.value)
          && FetchErrorMessage(e) == ServerText(e.response.value.status, e.response.value.statusText)
    ensures Classify(e) == Unexpected ==> FetchErrorMessage(e) == FetchUnexpectedText && SubmitErrorMessage(e) == SubmitUnexpectedText
  {
  }
}
