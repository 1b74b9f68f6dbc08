/**
 * Requests and responses of the `/api/trim` routes, with multer's upload
 * and `JSON.parse` reduced to the cases the handlers tell apart.
 */
module Http {
  import opened Wrappers
  import opened Fs
  import opened Engine

  /** A `start`/`end` property: a JSON string, or anything else (number, object, absent). */
  datatype TimeField = Text(s: string) | NotText

  /** One element of the parsed segment array: `null`, or a value whose `start`/`end` are read. */
  datatype Entry = Null | Obj(start: TimeField, end: TimeField)

  /** What `JSON.parse(req.body.segments)` returned. Numbers, booleans and objects are `Other`. */
  datatype Json = JNull | JArray(items: seq<Entry>) | JString(s: string) | Other

  /** The `segments` body field: absent or empty (falsy), not valid JSON, or parsed. */
  datatype SegmentsField = Missing | Unparseable | Parsed(value: Json)

  /** multer's `req.file`: the temporary path and `path.extname(originalname)`. */
  datatype Upload = Upload(path: Path, ext: string)

  datatype JobRequest = JobRequest(file: Option<Upload>, segments: SegmentsField)

  datatype Response =
      /** `res.status(status).json({ error })` */
    | ErrorJson(status: nat, error: string)
      /** status 200, `Content-Type: video/mp4`, inline disposition, body streamed from `path` */
    | VideoStream(path: Path)
      /** status 200, `res.json({ videoUrl })` */
    | VideoUrl(url: string)
      /** the async handler rejected before sending anything */
    | Unanswered

  /** What a handler run produces: the response, the engine calls made in order, and the filesystem afterwards. */
  datatype Outcome = Outcome(response: Response, calls: seq<Invocation>, fs: FsState)

  /** The response and the engine calls of the work inside a handler's `try` block. */
  datatype Reply = Reply(response: Response, calls: seq<Invocation>)
}
