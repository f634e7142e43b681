/** The JSON records of the normal and incorrect datasets. */
module Dataset {
  import opened Wrappers

  /**
   * One question-answering record. `question`, `answer` and `aliases` are the
   * three fields the incorrect-data generator writes; `id` and `errorFlags`
   * (the JSON keys "id" and "_error_flags") are read by the experiment runner
   * and may be absent.
   */
  datatype Item = Item(
    question: string,
    answer: string,
    aliases: seq<string>,
    id: Option<int>,
    errorFlags: Option<map<string, seq<string>>>)
}
