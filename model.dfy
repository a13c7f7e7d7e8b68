/**
 * The records the pipeline passes between its stages: decoded JSON values,
 * final jobs, raw crawl results and subscriptions.
 */
module Model {
  import opened Wrappers

  /** A decoded JSON value, as `encoding/json` produces it for an `any`. */
  datatype Json =
    | JNull
    | JBool(b: bool)
    | JNum(n: real)
    | JStr(s: string)
    | JArr(items: seq<Json>)
    | JObj(fields: map<string, Json>)

  /** A JSON object column (`datatypes.JSONMap`); a nil map reads as the empty map. */
  type JsonMap = map<string, Json>

  /** Timestamps are whole seconds since the Unix epoch, in UTC. */
  type Time = int

  /** Go's zero `time.Time`, 0001-01-01T00:00:00Z. */
  const ZeroTime: Time := -62135596800

  const SecondsPerDay: int := 86400

  /** A final, classified job (the `jobs` table). `normalizedTags` is `None` where Go holds a nil map. */
  datatype Job = Job(
    id: string,
    title: string,
    summary: string,
    publishedAt: Time,
    source: string,
    url: string,
    tags: JsonMap,
    rawAttributes: JsonMap,
    normalizedTags: Option<JsonMap>,
    skillTags: JsonMap,
    employmentType: string,
    salaryRange: string,
    roleCategory: string,
    languageRequirement: string,
    score: int,
    verdict: string)

  /** A job as the crawler returns it: only the crawl fields are set. */
  function CrawledJob(id: string, title: string, summary: string, publishedAt: Time, source: string,
                      url: string, tags: JsonMap, rawAttributes: JsonMap): Job
  {
    Job(id, title, summary, publishedAt, source, url, tags, rawAttributes, None, map[], "", "", "", "", 0, "")
  }

  const StatusPending: string := "pending"
  const StatusProcessed: string := "processed"
  const StatusRejected: string := "rejected"

  /**
   * A raw crawl result (the `raw_jobs` table). `id` is the auto-increment row id, so a larger id
   * means a later insert; `llmResponse` is `None` while the column is NULL.
   */
  datatype RawJob = RawJob(
    id: nat,
    source: string,
    externalId: string,
    title: string,
    summary: string,
    content: string,
    url: string,
    tags: JsonMap,
    rawPayload: JsonMap,
    publishedAt: Time,
    status: string,
    reason: string,
    llmResponse: Option<JsonMap>)

  /** A subscriber's preferences. */
  datatype Subscription = Subscription(email: string, channel: string, tags: JsonMap)
}
