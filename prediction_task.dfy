/** The prediction task: it keeps the `prediction` field of what the prediction service returned
    when that field is a string, and resolves with the empty string otherwise. */
module PredictionTask {
  import opened Json

  /** The value `getPrediction` resolves with, given the data the service returned. */
  function GetPrediction(data: Json): (r: string)
    ensures r != "" ==> data.JObj? && "prediction" in data.fields && data.fields["prediction"] == JStr(r)
  {
    if data.JObj? && "prediction" in data.fields && data.fields["prediction"].JStr? then
      data.fields["prediction"].s
    else ""
  }

  /** A string `prediction` is passed through unchanged. */
  lemma PredictionKept(data: Json, p: string)
    requires data.JObj? && "prediction" in data.fields && data.fields["prediction"] == JStr(p)
    ensures GetPrediction(data) == p
  {
  }

  /** A missing `prediction` key, a `prediction` that is not a string, or data that is not an
      object, all give the empty string. */
  lemma PredictionDropped(data: Json)
    requires !(data.JObj? && "prediction" in data.fields && data.fields["prediction"].JStr?)
    ensures GetPrediction(data) == ""
  {
  }

  /** The placeholder the service returns when its fetch fails, `{message: ...}`, projects to "". */
  lemma ServiceFailureGivesEmpty(message: string)
    ensures GetPrediction(JObj(map["message" := JStr(message)])) == ""
  {
  }
}
