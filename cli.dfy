/** The tool's start-up: the first argument is the interval, the rest is the command
    that the repeat loop runs. */
module Cli {
  import opened Results
  import opened NumberCoercion
  import opened Durations

  /** What the repeat loop is started with: the interval in milliseconds and the
      command line it runs each time. */
  datatype Invocation = Invocation(interval: Num, command: seq<string>)

  /** Checks the argument count, takes the first argument off as the time token and
      parses it; the remaining arguments, unchanged, are the command. */
  method Start(argv: seq<string>) returns (r: Result<Invocation>)
    ensures r.Err? && r.error.NoCommand? <==> |argv| < 2
    ensures |argv| >= 2 ==> (r.Ok? <==> ParseTime(argv[0]).Ok?)
    ensures |argv| >= 2 && r.Err? ==> r.error == ParseTime(argv[0]).error
    ensures r.Ok? ==>
      && r.value.interval == ParseTime(argv[0]).value
      && r.value.command == argv[1..]
      && |r.value.command| >= 1
  {
    var args := argv;
    if |args| < 2 {
      return Err(NoCommand);
    }
    // `shift` with its fallback for an empty list, which the count check rules out
    var first := if |args| > 0 then args[0] else "";
    args := args[1..];
    var time := ParseTime(first);
    if time.Err? {
      return Err(time.error);
    }
    // converting each remaining argument with `String` leaves it as it is
    var command := args;
    return Ok(Invocation(time.value, command));
  }
}
