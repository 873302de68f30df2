/** The `--loglevel` flag value of the audit scanner (internal/log/level.go):
    a pflag.Value that only accepts zerolog's level names. */
module LogLevel {
  import opened Wrappers

  /** zerolog's level names, in zerolog's order; "warn" is zerolog's spelling. */
  function SupportedValues(): (r: seq<string>)
    ensures |r| == 6
    ensures forall i, j :: 0 <= i < j < |r| ==> r[i] != r[j]
    ensures "info" in r && "" !in r
  {
    ["trace", "debug", "info", "warn", "error", "fatal"]
  }

  /** The error returned by Set: it lists the supported values only. */
  datatype LevelError = Unsupported(supported: seq<string>)

  /** The stored value after `Set(level)` on a flag that held `current`. */
  function Assigned(current: string, level: string): string
  {
    if level in SupportedValues() then level else current
  }

  /** Setting the same value twice leaves the flag as setting it once. */
  lemma AssignedIdempotent(current: string, level: string)
    ensures Assigned(Assigned(current, level), level) == Assigned(current, level)
  {
  }

  class Level {
    var value: string

    /** The flag holds either nothing or a supported name. */
    ghost predicate Valid()
      reads this
    {
      value == "" || value in SupportedValues()
    }

    constructor ()
      ensures value == "" && Valid()
    {
      value := "";
    }

    /** The flag's text: "info" while unset, otherwise the stored name. */
    function String(): (s: string)
      reads this
      ensures value == "" ==> s == "info"
      ensures value != "" ==> s == value
      ensures Valid() ==> s in SupportedValues()
    {
      if value == "" then "info" else value
    }

    /** Stores `level` when it is a supported name; otherwise reports an error
        and keeps the previous value. */
    method Set(level: string) returns (err: Option<LevelError>)
      modifies this
      ensures err.None? <==> level in SupportedValues()
      ensures err.Some? ==> err.value == Unsupported(SupportedValues())
      ensures value == Assigned(old(value), level)
      ensures old(Valid()) ==> Valid()
      ensures err.None? ==> String() == level
    {
      var supported := SupportedValues();
      var included := false;
      for i := 0 to |supported|
        invariant included <==> level in supported[..i]
        invariant value == if included then level else old(value)
      {
        if level == supported[i] {
          value := level;
          included := true;
        }
      }
      assert supported[..|supported|] == supported;
      if !included {
        return Some(Unsupported(supported));
      }
      return None;
    }
  }
}
