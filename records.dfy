/** The records that flow between the scraper, the extractor, the consolidator and the analyzer. */
module Records {
  import opened Wrappers

  /** Microseconds in a day; a time of day is below this. */
  const MicrosPerDay: int := 86_400_000_000

  type TimeOfDay = m: int | 0 <= m < MicrosPerDay

  /** A naive `datetime`: a day number and the microsecond of that day. */
  datatype Timestamp = Timestamp(day: int, micros: TimeOfDay)

  /** Python's `a <= b` on datetimes. */
  predicate AtOrBefore(a: Timestamp, b: Timestamp) {
    a.day < b.day || (a.day == b.day && a.micros <= b.micros)
  }

  /** A review as the scraper hands it on: `content`, `score`, `at` and, when present, `reviewId`. */
  datatype Review = Review(content: string, score: int, at: Timestamp, reviewId: Option<string>)

  /**
   * One review's extraction result: `review_id`, its `topics` in order, and the optional
   * `content` and `reasoning` entries of the result dictionary.
   */
  datatype Extraction = Extraction(
    reviewId: string,
    topics: seq<string>,
    content: Option<string>,
    reasoning: Option<string>)

  /** Every topic of every record, in order, with repetitions. */
  function AllTopics(records: seq<Extraction>): seq<string> {
    if records == [] then []
    else AllTopics(records[..|records| - 1]) + records[|records| - 1].topics
  }

  /** A topic occurs in the flattened list exactly when it occurs in some record's topics. */
  lemma {:induction false} InAllTopics(records: seq<Extraction>, t: string)
    ensures t in AllTopics(records) <==> exists i :: 0 <= i < |records| && t in records[i].topics
  {
    if records != [] {
      var init := records[..|records| - 1];
      InAllTopics(init, t);
      if exists i :: 0 <= i < |records| && t in records[i].topics {
        var i :| 0 <= i < |records| && t in records[i].topics;
        if i < |records| - 1 {
          assert init[i] == records[i];
        }
      }
    }
  }
}
