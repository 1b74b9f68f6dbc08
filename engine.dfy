/**
 * The external media engine (fluent-ffmpeg driving ffmpeg) as an oracle:
 * each `.run()` is one `Invocation`, and the engine answers with the
 * `end` event (`Done`, after which the output file exists) or the `error`
 * event (`Failed`, carrying `err.message`).
 */
module Engine {
  import opened Wrappers
  import opened Js
  import opened Fs

  /** The `setStartTime` argument: seconds, or a request field passed through unparsed. */
  datatype StartArg = AtSeconds(sec: int) | RawField(field: Option<string>)

  datatype Invocation =
      /** `ffmpeg(input).setStartTime(start).setDuration(duration).output(output)`, with `-c copy` when `streamCopy`. */
    | Extract(input: Path, start: StartArg, duration: Num, output: Path, streamCopy: bool)
      /** `ffmpeg().input(list).inputOptions(-f concat -safe 0)...output(output)`; `manifest` is the list file's text. */
    | Concat(list: Path, manifest: string, output: Path)
  {
    function Output(): Path
    {
      match this
      case Extract(_, _, _, output, _) => output
      case Concat(_, _, output) => output
    }
  }

  datatype EngineResult = Done | Failed(message: string)

  /** ffmpeg can create its output at `p`: `p` is not a directory and every ancestor of `p` is one. */
  predicate Writable(s: FsState, p: Path)
  {
    p !in s.dirs && Ancestors(p) <= s.dirs
  }

  /** The `err.message` stand-in for a run whose output file cannot be opened. */
  const UnwritableOutput: string := "Error opening output file"

  /**
   * The engine's answer to `call` on the filesystem `s`: the oracle's answer
   * when the output can be written, and an `error` event when it cannot.
   */
  function Answer(s: FsState, engine: Invocation -> EngineResult, call: Invocation): (r: EngineResult)
    ensures r.Done? ==> Writable(s, call.Output())
  {
    if Writable(s, call.Output()) then engine(call) else Failed(UnwritableOutput)
  }

  /**
   * One awaited `.run()`: the engine answers, and after `end` its output
   * file exists; a run whose output cannot be written ends in `error`.
   */
  method RunEngine(fs: FileSystem, engine: Invocation -> EngineResult, call: Invocation) returns (result: EngineResult)
    modifies fs
    ensures result == Answer(old(fs.State()), engine, call)
    ensures Writable(old(fs.State()), call.Output()) ==> result == engine(call)
    ensures fs.State() == if result.Done? then WriteFile(old(fs.State()), call.Output()) else old(fs.State())
  {
    var writable := call.Output() !in fs.dirs && Ancestors(call.Output()) <= fs.dirs;
    if writable {
      result := engine(call);
    } else {
      result := Failed(UnwritableOutput);
    }
    if result.Done? {
      fs.WriteFileSync(call.Output());
    }
  }
}
