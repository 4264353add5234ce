/** Outcomes of the tool's start-up: the three errors it reports and their messages. */
module Results {

  datatype Option<T> = None | Some(value: T)

  /** The errors thrown before the repeat loop starts. */
  datatype Error =
    | NoCommand                    // fewer than two arguments
    | CouldNotParse(time: string)  // the time token has no amount followed by a unit
    | UnknownUnit(unit: string)    // the unit, as written, is not a known spelling

  datatype Result<T> = Ok(value: T) | Err(error: Error)

  /** The text of the thrown `Error`. */
  function Message(e: Error): (m: string)
    ensures e.CouldNotParse? ==>
      |m| >= 28 && m[26] == '"' && m[27..|m| - 1] == e.time && m[|m| - 1] == '"'
    ensures e.UnknownUnit? ==>
      |m| >= 15 && m[13] == '"' && m[14..|m| - 1] == e.unit && m[|m| - 1] == '"'
    ensures |m| > 0 && m[0] == (if e.NoCommand? then 'N' else if e.CouldNotParse? then 'C' else 'U')
  {
    match e
    case NoCommand => "No command was provided"
    case CouldNotParse(time) => "Couldn't parse given time \"" + time + "\""
    case UnknownUnit(unit) => "Unknown unit \"" + unit + "\""
  }

  /** The message tells which error occurred and carries its subject verbatim. */
  lemma MessageDeterminesError(e1: Error, e2: Error)
    requires Message(e1) == Message(e2)
    ensures e1 == e2
  {
    var m := Message(e1);
    assert m[0] == Message(e2)[0];
    match e1
    case NoCommand =>
    case CouldNotParse(t1) =>
      var t2 := e2.time;
      assert m == "Couldn't parse given time \"" + t1 + "\"";
      assert t1 == m[27..|m| - 1];
      assert Message(e2) == "Couldn't parse given time \"" + t2 + "\"";
      assert t2 == m[27..|m| - 1];
    case UnknownUnit(u1) =>
      var u2 := e2.unit;
      assert m == "Unknown unit \"" + u1 + "\"";
      assert u1 == m[14..|m| - 1];
      assert Message(e2) == "Unknown unit \"" + u2 + "\"";
      assert u2 == m[14..|m| - 1];
  }
}
