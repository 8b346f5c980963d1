/**
 * The product creation form: its fields, the change handler, the request body
 * built on submit (tags split on commas and trimmed), the projection of the
 * server's field errors to one message per field, and the submit outcomes.
 */
module ProductForm {
  import opened Wrappers
  import opened JsText

  /** The form's state: field name to the text typed into it. */
  type FormValues = map<string, string>

  /** The thirteen fields of the form. */
  const FieldNames: set<string> := {
    "title", "description", "category", "price", "discountPercentage", "rating", "stock",
    "tags", "brand", "sku", "weight", "minimumOrderQuantity", "thumbnail"
  }

  /** The form as first shown: every field present and empty. */
  function InitialFormValues(): (values: FormValues)
    ensures values.Keys == FieldNames
    ensures forall f :: f in values ==> values[f] == ""
  {
    map f | f in FieldNames :: ""
  }

  /** The initial form holds thirteen distinct fields. */
  lemma InitialFieldCount()
    ensures |InitialFormValues()| == |FieldNames| == 13
  {
    var values := InitialFormValues();
    assert |values| == |values.Keys|;
    FieldNameCount();
  }

  /** The thirteen field names are pairwise distinct. */
  lemma FieldNameCount()
    ensures |FieldNames| == 13
  {
  }


  /** `setFormValue`: `{...formValues, [name]: value}`. Only the named field changes. */
  function SetFormValue(values: FormValues, name: string, value: string): (r: FormValues)
    ensures r.Keys == values.Keys + {name}
    ensures r[name] == value
    ensures forall f :: f in values && f != name ==> r[f] == values[f]
  {
    values[name := value]
  }

  /** A change event: the input's `name` and its new `value`. */
  datatype Edit = Edit(name: string, value: string)

  /** The form after a series of change events, applied in order. */
  function ApplyEdits(values: FormValues, edits: seq<Edit>): FormValues
    decreases |edits|
  {
    if edits == [] then values
    else ApplyEdits(SetFormValue(values, edits[0].name, edits[0].value), edits[1..])
  }

  /** The value of the last edit to field `f`, or `initial` when no edit names it. */
  function LatestValue(edits: seq<Edit>, f: string, initial: string): string
    decreases |edits|
  {
    if edits == [] then initial
    else if edits[|edits| - 1].name == f then edits[|edits| - 1].value
    else LatestValue(edits[..|edits| - 1], f, initial)
  }

  /** Taking the first edit into the initial value does not change the latest value. */
  lemma {:induction false} LatestValueFirst(edits: seq<Edit>, f: string, initial: string)
    requires edits != []
    ensures LatestValue(edits, f, initial)
         == LatestValue(edits[1..], f, if edits[0].name == f then edits[0].value else initial)
    decreases |edits|
  {
    if |edits| > 1 {
      var front := edits[..|edits| - 1];
      LatestValueFirst(front, f, initial);
      assert front[1..] == edits[1..][..|edits| - 2];
    }
  }

  /**
   * Editing only the form's own fields keeps exactly those fields, and each
   * holds the value of its last edit, or its value before the edits.
   */
  lemma {:induction false} ApplyEditsValues(values: FormValues, edits: seq<Edit>)
    requires forall k :: 0 <= k < |edits| ==> edits[k].name in values
    ensures ApplyEdits(values, edits).Keys == values.Keys
    ensures forall f :: f in values ==> ApplyEdits(values, edits)[f] == LatestValue(edits, f, values[f])
    decreases |edits|
  {
    if edits != [] {
      var next := SetFormValue(values, edits[0].name, edits[0].value);
      ApplyEditsValues(next, edits[1..]);
      forall f | f in values
        ensures ApplyEdits(values, edits)[f] == LatestValue(edits, f, values[f])
      {
        LatestValueFirst(edits, f, values[f]);
      }
    }
  }

  /** `formValues.tags.split(",").map((value) => value.trim())`. */
  function SplitTags(text: string): (tags: seq<string>)
    ensures |tags| == multiset(text)[','] + 1
    ensures forall k :: 0 <= k < |tags| ==>
      tags[k] != [] ==> !IsWhiteSpace(tags[k][0]) && !IsWhiteSpace(tags[k][|tags[k]| - 1])
  {
    var pieces := Split(text, ',');
    seq(|pieces|, k requires 0 <= k < |pieces| => Trim(pieces[k]))
  }

  /** No tag holds a comma, and each tag is the trimmed text between two commas. */
  lemma TagsArePieces(text: string)
    ensures var tags, pieces := SplitTags(text), Split(text, ',');
      forall k :: 0 <= k < |tags| ==> tags[k] == Trim(pieces[k]) && ',' !in tags[k]
  {
    var tags, pieces := SplitTags(text), Split(text, ',');
    forall k | 0 <= k < |tags|
      ensures ',' !in tags[k]
    {
      if ',' in tags[k] {
        TrimChars(pieces[k], ',');
      }
    }
  }

  /** An empty tag field is sent as one empty tag. */
  lemma EmptyTags()
    ensures SplitTags("") == [""]
  {
  }

  /** Tags that are already trimmed and comma-free come back unchanged from their comma-joined text. */
  lemma TagsOfJoined(tags: seq<string>)
    requires |tags| > 0
    requires forall k :: 0 <= k < |tags| ==> ',' !in tags[k]
    requires forall k :: 0 <= k < |tags| ==>
      tags[k] != [] ==> !IsWhiteSpace(tags[k][0]) && !IsWhiteSpace(tags[k][|tags[k]| - 1])
    ensures SplitTags(Join(tags, ',')) == tags
  {
    SplitJoin(tags, ',');
    forall k | 0 <= k < |tags|
      ensures SplitTags(Join(tags, ','))[k] == tags[k]
    {
      TrimKeepsTrimmed(tags[k]);
    }
  }

  /** A JSON value of the request body: a string, or the list of tags. */
  datatype JsonValue = JString(s: string) | JStrings(items: seq<string>)

  /** The request body: `{...formValues, tags: [...]}`. */
  type Payload = map<string, JsonValue>

  /** The body `handleSubmit` posts; the form's `tags` field must be there for `split` to apply. */
  function BuildPayload(values: FormValues): (body: Payload)
    requires "tags" in values
    ensures body.Keys == values.Keys
    ensures forall f :: f in values && f != "tags" ==> body[f] == JString(values[f])
    ensures body["tags"] == JStrings(SplitTags(values["tags"]))
  {
    map f | f in values :: if f == "tags" then JStrings(SplitTags(values[f])) else JString(values[f])
  }

  /** The server's validation errors: field name to its list of messages. */
  type FieldErrors = map<string, seq<string>>

  /**
   * The `forEach` over `Object.entries(res.errors)`: each field keeps the first
   * of its messages; a field with an empty list gets `undefined`.
   */
  method ProjectErrors(errors: FieldErrors) returns (newErrors: map<string, Option<string>>)
    ensures newErrors.Keys == errors.Keys
    ensures forall f :: f in errors && |errors[f]| > 0 ==> newErrors[f] == Some(errors[f][0])
    ensures forall f :: f in errors && |errors[f]| == 0 ==> newErrors[f] == None
  {
    newErrors := map[];
    var remaining := errors.Keys;
    while remaining != {}
      invariant remaining <= errors.Keys
      invariant newErrors.Keys == errors.Keys - remaining
      invariant forall f :: f in newErrors && |errors[f]| > 0 ==> newErrors[f] == Some(errors[f][0])
      invariant forall f :: f in newErrors && |errors[f]| == 0 ==> newErrors[f] == None
      decreases remaining
    {
      var f :| f in remaining;
      var messages := errors[f];
      newErrors := newErrors[f := if |messages| > 0 then Some(messages[0]) else None];
      remaining := remaining - {f};
    }
  }

  /** The JSON body of a response: it may carry field errors. */
  datatype ResponseBody = ResponseBody(errors: Option<FieldErrors>)

  /**
   * How a submission ends: the request fails, or a response arrives with its
   * `ok` flag and its body (`None` when the body is not JSON).
   */
  datatype SubmitResponse = NetworkError | Http(ok: bool, body: Option<ResponseBody>)

  /** The message shown when a submission fails. */
  const FailureMessage := "❌ Thêm sản phẩm thất bại"

  /** Where a submission that got an ok response leads. */
  const ProductsRoute := "/Products"

  /** A submission ends in the failure message when no ok, well-formed response arrives. */
  predicate Fails(response: SubmitResponse) {
    response.NetworkError? || !response.ok || response.body.None?
  }

  /** One mounted product form. */
  class Form {
    var formValues: FormValues
    var isLoading: bool
    var message: string
    var errors: map<string, Option<string>>
    /** The bodies posted so far, in order. */
    var sent: seq<Payload>
    /** The route `navigate` was last called with, if it was. */
    var navigatedTo: Option<string>

    /** Every field of the form is in its state. */
    ghost predicate Valid()
      reads this
    {
      FieldNames <= formValues.Keys
    }

    constructor ()
      ensures Valid()
      ensures formValues == InitialFormValues() && !isLoading && message == ""
      ensures errors == map[] && sent == [] && navigatedTo == None
    {
      formValues := InitialFormValues();
      isLoading := false;
      message := "";
      errors := map[];
      sent := [];
      navigatedTo := None;
    }

    /** An input's change event. */
    method OnChange(name: string, value: string)
      requires Valid()
      modifies this
      ensures Valid()
      ensures formValues == SetFormValue(old(formValues), name, value)
      ensures isLoading == old(isLoading) && message == old(message) && errors == old(errors)
      ensures sent == old(sent) && navigatedTo == old(navigatedTo)
    {
      formValues := SetFormValue(formValues, name, value);
    }

    /** `handleSubmit`: the loading screen goes up and the body is posted. */
    method HandleSubmit()
      requires Valid()
      modifies this
      ensures Valid() && isLoading
      ensures sent == old(sent) + [BuildPayload(formValues)]
      ensures formValues == old(formValues) && message == old(message) && errors == old(errors)
      ensures navigatedTo == old(navigatedTo)
    {
      isLoading := true;
      sent := sent + [BuildPayload(formValues)];
    }

    /**
     * The submission settles. A failure shows the failure message and stays on
     * the form; an ok response records any field errors and always navigates
     * to the product list. The loading screen comes down either way.
     */
    method Settle(response: SubmitResponse)
      requires Valid() && isLoading
      modifies this
      ensures Valid() && !isLoading
      ensures formValues == old(formValues) && sent == old(sent)
      ensures Fails(response) ==>
        message == FailureMessage && navigatedTo == old(navigatedTo) && errors == old(errors)
      ensures !Fails(response) ==>
        && navigatedTo == Some(ProductsRoute) && message == old(message)
        && (response.body.value.errors.None? ==> errors == old(errors))
        && (response.body.value.errors.Some? ==>
              var fieldErrors := response.body.value.errors.value;
              && errors.Keys == fieldErrors.Keys
              && (forall f :: f in fieldErrors && |fieldErrors[f]| > 0 ==> errors[f] == Some(fieldErrors[f][0]))
              && (forall f :: f in fieldErrors && |fieldErrors[f]| == 0 ==> errors[f] == None))
    {
      if Fails(response) {
        message := FailureMessage;
      } else {
        var body := response.body.value;
        if body.errors.Some? {
          var newErrors := ProjectErrors(body.errors.value);
          errors := newErrors;
        }
        navigatedTo := Some(ProductsRoute);
      }
      isLoading := false;
    }
  }
}
