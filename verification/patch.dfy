/** set_labels: the merge-patch body sent to `patch_node`, and what the function
    does with the answer. In a JSON merge patch a `null` value deletes the label
    on the node, so a `(key, None)` tuple asks for that label's removal. */
module Patch {
  import opened Outcomes

  /** The JSON values a patch body is made of. */
  datatype Json = Null | Text(text: string) | Object(fields: map<string, Json>)

  function ValueJson(v: Option<string>): Json
  {
    match v
    case None => Null
    case Some(s) => Text(s)
  }

  /** The body `{"metadata": {"labels": labels}}`. */
  function PatchBody(labels: Labels): (body: Json)
    ensures body.Object? && body.fields.Keys == {"metadata"}
    ensures body.fields["metadata"].Object? && body.fields["metadata"].fields.Keys == {"labels"}
    ensures body.fields["metadata"].fields["labels"].Object?
    ensures body.fields["metadata"].fields["labels"].fields.Keys == labels.Keys
    ensures forall k :: k in labels ==>
      (body.fields["metadata"].fields["labels"].fields[k] == Null <==> labels[k] == None)
  {
    Object(map["metadata" := Object(map["labels" := Object(map k | k in labels :: ValueJson(labels[k]))])])
  }

  /** The labels a body of the shape `{"metadata": {"labels": {...}}}`, with no
      other keys and only string or null label values, asks for; `None` for any
      other body. */
  function LabelsOf(body: Json): Option<Labels>
  {
    if body.Object? && body.fields.Keys == {"metadata"} then
      var metadata := body.fields["metadata"];
      if metadata.Object? && metadata.fields.Keys == {"labels"} then
        var inner := metadata.fields["labels"];
        if inner.Object? && forall k :: k in inner.fields ==> inner.fields[k].Null? || inner.fields[k].Text? then
          Some(map k | k in inner.fields :: if inner.fields[k].Null? then None else Some(inner.fields[k].text))
        else None
      else None
    else None
  }

  /** The body carries exactly the labels it was built from, `None` values included. */
  lemma PatchBodyRoundTrip(labels: Labels)
    ensures LabelsOf(PatchBody(labels)) == Some(labels)
  {
    var inner := PatchBody(labels).fields["metadata"].fields["labels"].fields;
    assert forall k :: k in inner ==> inner[k] == ValueJson(labels[k]);
    var back := map k | k in inner :: if inner[k].Null? then None else Some(inner[k].text);
    assert back == labels;
  }

  /** Different label dicts give different patch bodies. */
  lemma PatchBodyInjective(a: Labels, b: Labels)
    requires PatchBody(a) == PatchBody(b)
    ensures a == b
  {
    PatchBodyRoundTrip(a);
    PatchBodyRoundTrip(b);
  }

  /** The error body of an `ApiException`, as `json.loads(e.body)['message']` sees it. */
  datatype ErrorBody = WithMessage(message: string) | WithoutMessage | NotJson

  /** How `patch_node` answers. */
  datatype PatchResponse = Accepted | Rejected(body: ErrorBody)

  /** The exception set_labels raises, or `None` when it returns normally. A
      rejection is re-raised as the `ApiException` once its message is logged;
      when the body has no `message`, the `KeyError` of that lookup is raised
      instead, and a body that is not JSON raises `JSONDecodeError`. */
  function SetLabelsRaises(response: PatchResponse): (r: Option<PyError>)
    ensures r.None? <==> response.Accepted?
    ensures r == Some(ApiException) <==> response.Rejected? && response.body.WithMessage?
    ensures r == Some(KeyError) <==> response == Rejected(WithoutMessage)
    ensures r == Some(JSONDecodeError) <==> response == Rejected(NotJson)
  {
    match response
    case Accepted => None
    case Rejected(WithMessage(_)) => Some(ApiException)
    case Rejected(WithoutMessage) => Some(KeyError)
    case Rejected(NotJson) => Some(JSONDecodeError)
  }
}
