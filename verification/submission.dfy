/**
 * API calls seen from a form: the request either succeeds or fails, and a
 * failure may carry the server's `response.data.detail`. Every form turns a
 * failure into a banner text with a fixed fallback.
 */
module Submission {
  import opened Wrappers
  import opened JsValues

  /** The outcome of a create or update request; `detail` is `Null` when the response carries none. */
  datatype Outcome = Succeeded | Failed(detail: Value)

  /** `error.response?.data?.detail || fallback` */
  function ErrorText(detail: Value, fallback: string): (r: Value)
    ensures Truthy(detail) ==> r == detail
    ensures !Truthy(detail) ==> r == Str(fallback)
    ensures fallback != "" ==> Truthy(r)
  {
    Or(detail, Str(fallback))
  }

  /** Create or update, as chosen by the presence of the record's id in edit mode. */
  datatype Request = Create(payload: Record) | Update(id: Value, payload: Record)

  /** `initialData ? update(initialData.<x>_id, data) : create(data)` */
  function ChooseRequest(editing: Option<Record>, idKey: string, payload: Record): (r: Request)
    ensures r.payload == payload
    ensures r.Update? <==> editing.Some?
    ensures editing.Some? ==> r.id == Get(editing.value, idKey)
  {
    match editing
    case Some(initial) => Update(Get(initial, idKey), payload)
    case None => Create(payload)
  }

  /** The verb a form uses in its fallback messages: "update" in edit mode, else "create". */
  function Verb(editing: bool): string {
    if editing then "update" else "create"
  }
}
