/** The records that travel between the upstream search, the dashboard's endpoint and the page. */
module AdverseEvents {
  import opened Wrappers

  /**
   * One adverse-event report. Only the fields the dashboard reads are kept;
   * the other fields of the upstream record are passed along untouched and
   * play no part here. A flag that is absent, or that holds a value which is
   * not a string, is `None`: neither can equal the string "1".
   */
  datatype Event = Event(
    receivedate: string,
    seriousnessdeath: Option<string>,
    seriousnesshospitalization: Option<string>)

  /** The JSON object the page reads from the endpoint: a `results` list on success, an `error` text on failure. */
  datatype Body = Body(results: Option<seq<Event>>, error: Option<string>)
}
