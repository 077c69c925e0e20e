/** The command-line flag context the resolvers read from and write back
    into (`cli.Context` of urfave/cli): a store of flag values in which a
    write to a flag may be refused. */
module FlagContext {
  import opened Wrappers
  import opened GoStrings
  import opened Errors

  /** The outcome of a step over the store: an error or none, and the flag
      values after the step. */
  datatype Step = Step(err: Option<Error>, values: map<string, Str>)

  /** `ctx.String(flag)`: the flag's value, the empty string when it has
      none. */
  function Lookup(values: map<string, Str>, flag: string): Str
  {
    if flag in values then values[flag] else []
  }

  /** `ctx.Set(flag, value)`: stores the value when the flag accepts writes,
      and otherwise fails and leaves every value as it was. */
  function Assign(values: map<string, Str>, writable: set<string>, flag: string, value: Str): (r: Step)
    ensures r.err.None? <==> flag in writable
    ensures r.err.Some? ==> r.err == Some(WriteRejected(flag)) && r.values == values
    ensures r.err.None? ==> Lookup(r.values, flag) == value
    ensures forall other :: other != flag ==> Lookup(r.values, other) == Lookup(values, other)
  {
    if flag in writable then Step(None, values[flag := value])
    else Step(Some(WriteRejected(flag)), values)
  }

  class Context {
    /** The current value of every flag that has one. */
    var values: map<string, Str>
    /** The flags a write to which succeeds. */
    const writable: set<string>

    constructor (values: map<string, Str>, writable: set<string>)
      ensures this.values == values && this.writable == writable
    {
      this.values := values;
      this.writable := writable;
    }

    /** `ctx.String(flag)`: the flag's value, the empty string when it has
        none. */
    function String(flag: string): (r: Str)
      reads this
      ensures flag in values ==> r == values[flag]
      ensures flag !in values ==> r == []
    {
      Lookup(values, flag)
    }

    /** `ctx.Set(flag, value)`. */
    method Set(flag: string, value: Str) returns (err: Option<Error>)
      modifies this
      ensures Step(err, values) == Assign(old(values), writable, flag, value)
    {
      if flag in writable {
        values := values[flag := value];
        err := None;
      } else {
        err := Some(WriteRejected(flag));
      }
    }
  }
}
