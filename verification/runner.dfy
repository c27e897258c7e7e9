/** run_kubectl: how the outcome of one kubectl process becomes the uniform
    result every tool reads (k8s_tools.py:13-39).

    Launching the process, waiting for it under the timeout and decoding its
    byte streams happen outside the model; what comes back is a
    ProcessOutcome. JSON decoding is the parameter `parse`. */
module Runner {
  import opened Wrappers
  import opened JsonModel
  import Text

  /** What one kubectl launch came to. Exited carries the exit code and the
      decoded output streams. Raised stands for every exception the runner
      catches: kubectl missing or not executable, the timeout expiring, or the
      stream the runner reads (stdout after exit code 0, stderr otherwise)
      not decoding; message is str() of it. */
  datatype ProcessOutcome =
    | Exited(code: int, stdout: string, stderr: string)
    | Raised(message: string)

  /** The runner's reply: {"success": True, "data": ...} or
      {"success": False, "error": ...}. A text fallback is a JString, as
      it is a str in the program. */
  datatype CommandResult =
    | Success(data: Json)
    | Failure(error: string)

  /** What a tool hands back: the text shown to the caller and the kubectl
      argument vectors it ran, in order. */
  datatype Reply = Reply(text: string, issued: seq<seq<string>>)

  /** What `json.loads` does with the trimmed output: returns a value,
      raises JSONDecodeError (the text fallback), or raises anything else
      (RecursionError on deep nesting, ValueError on an over-long integer),
      which the runner's outer handler turns into a failure. */
  datatype ParseOutcome =
    | Parsed(value: Json)
    | NotJson
    | ParseRaised(message: string)

  /** Maps one process outcome to a CommandResult. Exit code 0 is success,
      carrying the decoded JSON of the trimmed output when it decodes and the
      trimmed output itself when it is not JSON; any other exit is failure
      carrying the trimmed error stream; a caught exception, from the process
      or from the decoder, is failure carrying its message. */
  function RunKubectl(outcome: ProcessOutcome, parse: string -> ParseOutcome): (r: CommandResult)
    ensures r.Success? ==> outcome.Exited? && outcome.code == 0
    ensures outcome.Exited? && outcome.code == 0 ==>
              exists out ::
                && Text.IsTrimOf(outcome.stdout, out)
                && (parse(out).Parsed? ==> r == Success(parse(out).value))
                && (parse(out).NotJson? ==> r == Success(JString(out)))
                && (parse(out).ParseRaised? ==> r == Failure(parse(out).message))
    ensures outcome.Exited? && outcome.code != 0 ==> r.Failure? && Text.IsTrimOf(outcome.stderr, r.error)
    ensures outcome.Raised? ==> r == Failure(outcome.message)
  {
    match outcome
    case Raised(message) => Failure(message)
    case Exited(code, stdout, stderr) =>
      if code == 0 then
        var out := Text.Strip(stdout);
        Text.StripIsTheTrim(stdout, out);
        match parse(out)
        case Parsed(j) => Success(j)
        case NotJson => Success(JString(out))
        case ParseRaised(message) => Failure(message)
      else
        Text.StripIsTheTrim(stderr, Text.Strip(stderr));
        Failure(Text.Strip(stderr))
  }

  /** A zero exit succeeds exactly when the decoder does not raise anything
      but JSONDecodeError. */
  lemma ZeroExitSucceedsIff(stdout: string, stderr: string, parse: string -> ParseOutcome)
    ensures RunKubectl(Exited(0, stdout, stderr), parse).Success?
            <==> !parse(Text.Strip(stdout)).ParseRaised?
  {
  }

  /** When the trimmed output is not JSON, the data is that text unchanged:
      no whitespace left at either end and nothing else altered. */
  lemma TextFallbackIsTrimmedOutput(code: int, stdout: string, stderr: string, parse: string -> ParseOutcome)
    requires code == 0
    requires parse(Text.Strip(stdout)).NotJson?
    ensures RunKubectl(Exited(code, stdout, stderr), parse) == Success(JString(Text.Strip(stdout)))
    ensures Text.IsTrimOf(stdout, RunKubectl(Exited(code, stdout, stderr), parse).data.s)
  {
    Text.StripIsTheTrim(stdout, Text.Strip(stdout));
  }

  /** The dictionary the program returns for a result: "success" always,
      then exactly one of "data" and "error", chosen by "success". */
  function ToDict(r: CommandResult): (d: Json)
    ensures d.JObject? && Get(d, "success") == Some(JBool(r.Success?))
    ensures r.Success? ==> d.fields.Keys == {"success", "data"}
    ensures r.Failure? ==> d.fields.Keys == {"success", "error"}
  {
    match r
    case Success(data) => JObject(map["success" := JBool(true), "data" := data])
    case Failure(error) => JObject(map["success" := JBool(false), "error" := JString(error)])
  }

  /** Reads a result back the way the tools do: `result["success"]` picks
      which of `result["data"]` and `result["error"]` is looked at. */
  function FromDict(d: Json): Option<CommandResult> {
    if Get(d, "success") == Some(JBool(true)) && Has(d, "data") then Some(Success(d.fields["data"]))
    else if Get(d, "success") == Some(JBool(false)) && Has(d, "error") && d.fields["error"].JString? then
      Some(Failure(d.fields["error"].s))
    else None
  }

  /** Every result survives the trip through its dictionary form. */
  lemma DictRoundTrip(r: CommandResult)
    ensures FromDict(ToDict(r)) == Some(r)
  {
  }
}
