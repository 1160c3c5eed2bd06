/** The local inference settings form (src/components/LocalSettingsModal.jsx):
    two text fields, checked on submit and handed to the `onSave` callback in
    trimmed form. */
module SettingsForm {
  import opened Wrappers
  import opened Text

  const DEFAULT_ENDPOINT := "http://localhost:11434/api/generate"
  const DEFAULT_MODEL_NAME := "llama3"
  const URL_ERROR := "Please enter a valid HTTP URL."
  const MODEL_ERROR := "Please enter a model name."
  const URL_SCHEME_PREFIX := "http"

  /** The `{endpoint, modelName}` object given to `onSave`. */
  datatype Settings = Settings(endpoint: string, modelName: string)

  /** Lines 5-6: `initial || fallback`; an absent or empty initial value is
      falsy. */
  function InitialValue(initial: Option<string>, fallback: string): (r: string)
    ensures initial.Some? && initial.value != [] ==> r == initial.value
    ensures initial.None? || initial.value == [] ==> r == fallback
  {
    if initial.Some? && initial.value != [] then initial.value else fallback
  }

  /** Lines 11-24: the endpoint is checked first, then the model; both are
      trimmed, and a form that passes yields the trimmed values. */
  function Validate(endpoint: string, model: string): (r: Result<Settings, string>)
    ensures r.Success? <==> StartsWith(Trim(endpoint), URL_SCHEME_PREFIX) && Trim(model) != []
    ensures r.Success? ==> r.value == Settings(Trim(endpoint), Trim(model))
    ensures r.Failure? && !StartsWith(Trim(endpoint), URL_SCHEME_PREFIX) ==> r.error == URL_ERROR
    ensures r.Failure? && StartsWith(Trim(endpoint), URL_SCHEME_PREFIX) ==> r.error == MODEL_ERROR
  {
    var e := Trim(endpoint);
    var m := Trim(model);
    if e == [] || !StartsWith(e, URL_SCHEME_PREFIX) then Failure(URL_ERROR)
    else if m == [] then Failure(MODEL_ERROR)
    else Success(Settings(e, m))
  }

  /** An empty endpoint is reported as a bad URL whatever the model says:
      the URL error wins when both fields are wrong. */
  lemma EndpointCheckedFirst(endpoint: string, model: string)
    requires AllSpace(endpoint)
    ensures Validate(endpoint, model) == Failure(URL_ERROR)
  {
  }

  /** Saved settings pass the form again unchanged: validation is
      idempotent. */
  lemma SavedSettingsRevalidate(endpoint: string, model: string)
    requires Validate(endpoint, model).Success?
    ensures var saved := Validate(endpoint, model).value;
            Validate(saved.endpoint, saved.modelName) == Success(saved)
  {
    TrimIdempotent(endpoint);
    TrimIdempotent(model);
  }

  /** Values with visible first and last characters pass as they stand. */
  lemma TrimmedValuesAccepted(endpoint: string, model: string)
    requires StartsWith(endpoint, URL_SCHEME_PREFIX) && !IsSpace(endpoint[|endpoint| - 1])
    requires model != [] && !IsSpace(model[0]) && !IsSpace(model[|model| - 1])
    ensures Validate(endpoint, model) == Success(Settings(endpoint, model))
  {
    assert !IsSpace(endpoint[0]) by { assert endpoint[0] == endpoint[..4][0]; }
    assert TrimStart(endpoint) == endpoint;
    assert TrimStart(model) == model;
  }

  /** The defaults the form opens with are accepted as they stand. */
  lemma DefaultsAccepted()
    ensures Validate(DEFAULT_ENDPOINT, DEFAULT_MODEL_NAME)
            == Success(Settings(DEFAULT_ENDPOINT, DEFAULT_MODEL_NAME))
  {
    var e, m := DEFAULT_ENDPOINT, DEFAULT_MODEL_NAME;
    assert e[..4] == URL_SCHEME_PREFIX;
    TrimmedValuesAccepted(e, m);
  }

  /** White space around the values does not matter. */
  lemma PaddingIgnored(endpoint: string, model: string, pad: string)
    requires AllSpace(pad)
    ensures Validate(endpoint + pad, model + pad) == Validate(endpoint, model)
  {
    TrimIgnoresTrailingSpace(endpoint, pad);
    TrimIgnoresTrailingSpace(model, pad);
  }

  /** The `LocalSettingsModal` component's state; `saved` lists the calls
      made to `onSave`, oldest first. */
  class SettingsModal {
    var endpoint: string
    var model: string
    var error: string
    var saved: seq<Settings>

    /** Lines 4-7. */
    constructor (initialEndpoint: Option<string>, initialModel: Option<string>)
      ensures endpoint == InitialValue(initialEndpoint, DEFAULT_ENDPOINT)
      ensures model == InitialValue(initialModel, DEFAULT_MODEL_NAME)
      ensures error == [] && saved == []
    {
      endpoint := InitialValue(initialEndpoint, DEFAULT_ENDPOINT);
      model := InitialValue(initialModel, DEFAULT_MODEL_NAME);
      error := [];
      saved := [];
    }

    /** Line 46. */
    method EditEndpoint(value: string)
      modifies this
      ensures endpoint == value && model == old(model) && error == old(error) && saved == old(saved)
    {
      endpoint := value;
    }

    /** Line 55. */
    method EditModel(value: string)
      modifies this
      ensures model == value && endpoint == old(endpoint) && error == old(error) && saved == old(saved)
    {
      model := value;
    }

    /** Lines 9-25: a refused form shows its error and saves nothing; an
        accepted one clears the error and is saved once, trimmed. The
        fields keep what was typed. */
    method Submit()
      modifies this
      ensures endpoint == old(endpoint) && model == old(model)
      ensures match Validate(old(endpoint), old(model))
              case Failure(message) => error == message && saved == old(saved)
              case Success(settings) => error == [] && saved == old(saved) + [settings]
    {
      var e := Trim(endpoint);
      var m := Trim(model);
      if e == [] || !StartsWith(e, URL_SCHEME_PREFIX) {
        error := URL_ERROR;
        return;
      }
      if m == [] {
        error := MODEL_ERROR;
        return;
      }
      error := [];
      saved := saved + [Settings(e, m)];
    }
  }
}
