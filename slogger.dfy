/** The level handling of the JSON slog handler (internal/log/slogger.go):
    the name-to-level switch of NewSlogger and the ReplaceAttr hook that writes
    levels back as names and renames the message key. */
module Slogger {
  import opened Wrappers
  import LogLevel

  // Custom slog levels; the four middle ones are log/slog's own constants.
  const LevelTrace: int := -8
  const LevelDebug: int := -4
  const LevelInfo: int := 0
  const LevelWarn: int := 4
  const LevelError: int := 8
  const LevelFatal: int := 9

  const LevelTraceString: string := "trace"
  const LevelDebugString: string := "debug"
  const LevelInfoString: string := "info"
  const LevelWarnString: string := "warning"
  const LevelErrorString: string := "error"
  const LevelFatalString: string := "fatal"

  /** The six levels, lowest first, and their names at the same positions. */
  const Levels: seq<int> := [LevelTrace, LevelDebug, LevelInfo, LevelWarn, LevelError, LevelFatal]
  const LevelNames: seq<string> :=
    [LevelTraceString, LevelDebugString, LevelInfoString, LevelWarnString, LevelErrorString, LevelFatalString]

  // slog's built-in attribute keys.
  const LevelKey: string := "level"
  const MessageKey: string := "msg"

  lemma LevelsStrictlyIncreasing()
    ensures |Levels| == |LevelNames| == 6
    ensures forall i, j :: 0 <= i < j < |Levels| ==> Levels[i] < Levels[j]
  {
  }

  /** Position of a name in the order trace < debug < info < warning < error < fatal;
      any other string is placed past the end. */
  function Rank(name: string): (k: nat)
    ensures k <= |LevelNames|
    ensures k < |LevelNames| <==> name in LevelNames
    ensures k < |LevelNames| ==> LevelNames[k] == name
  {
    if name == LevelTraceString then 0
    else if name == LevelDebugString then 1
    else if name == LevelInfoString then 2
    else if name == LevelWarnString then 3
    else if name == LevelErrorString then 4
    else if name == LevelFatalString then 5
    else 6
  }

  /** `k` is the highest named level at or below `level` (trace for anything lower). */
  ghost predicate Brackets(level: int, k: nat)
  {
    && k < |Levels|
    && (k == 0 || Levels[k] <= level)
    && (k + 1 == |Levels| || level < Levels[k + 1])
  }

  /** The ReplaceAttr threshold switch: a level written back as a name. */
  function LevelName(level: int): (name: string)
    ensures name in LevelNames
    ensures Brackets(level, Rank(name))
  {
    if level < LevelDebug then LevelTraceString
    else if level < LevelInfo then LevelDebugString
    else if level < LevelWarn then LevelInfoString
    else if level < LevelError then LevelWarnString
    else if level < LevelFatal then LevelErrorString
    else LevelFatalString
  }

  /** The NewSlogger switch from a configured name to a level; None stands for
      the panic on any other name. */
  function ParseLevel(name: string): (r: Option<int>)
    ensures r.Some? <==> name in LevelNames
    ensures r.Some? ==> r.value == Levels[Rank(name)]
    ensures r.Some? ==> LevelName(r.value) == name
  {
    if name == LevelTraceString then Some(LevelTrace)
    else if name == LevelDebugString then Some(LevelDebug)
    else if name == LevelInfoString then Some(LevelInfo)
    else if name == LevelWarnString then Some(LevelWarn)
    else if name == LevelErrorString then Some(LevelError)
    else if name == LevelFatalString then Some(LevelFatal)
    else None
  }

  /** Only one position brackets a given level. */
  lemma BracketsUnique(level: int, k: nat, m: nat)
    requires Brackets(level, k) && Brackets(level, m)
    ensures k == m
  {
    LevelsStrictlyIncreasing();
  }

  /** A higher level never gets a lower-ranked name. */
  lemma LevelNameMonotone(a: int, b: int)
    requires a <= b
    ensures Rank(LevelName(a)) <= Rank(LevelName(b))
  {
    LevelsStrictlyIncreasing();
  }

  /** The name of a level at or above trace denotes the greatest of the six
      levels that does not exceed it. */
  lemma LevelNameIsFloor(level: int)
    requires LevelTrace <= level
    ensures ParseLevel(LevelName(level)).Some?
    ensures ParseLevel(LevelName(level)).value <= level
    ensures forall k :: 0 <= k < |Levels| && Levels[k] <= level ==> Levels[k] <= ParseLevel(LevelName(level)).value
  {
    LevelsStrictlyIncreasing();
  }

  /** Each of the six levels comes back unchanged from its name. */
  lemma LevelNameRoundTrip(k: nat)
    requires k < |Levels|
    ensures LevelName(Levels[k]) == LevelNames[k]
    ensures ParseLevel(LevelName(Levels[k])) == Some(Levels[k])
  {
    var n := Rank(LevelName(Levels[k]));
    LevelsStrictlyIncreasing();
    assert Brackets(Levels[k], k);
    BracketsUnique(Levels[k], k, n);
  }

  lemma LevelNameExamples(level: int)
    ensures LevelName(-5) == LevelTraceString
    ensures LevelName(5) == LevelWarnString
    ensures level >= LevelFatal ==> LevelName(level) == LevelFatalString
  {
  }

  /** slog attribute values: a Level, a string, or any other kind (kept as an int). */
  datatype Value = LevelValue(level: int) | StringValue(str: string) | IntValue(n: int)

  datatype Attr = Attr(key: string, value: Value)

  /** The level carried by a value; a failed type assertion yields the zero Level. */
  function LevelOf(v: Value): int
  {
    if v.LevelValue? then v.level else LevelInfo
  }

  /** The ReplaceAttr hook (its group argument is ignored by the source). */
  function ReplaceAttr(a: Attr): (r: Attr)
    ensures r.key == if a.key == MessageKey then "message" else a.key
    ensures a.key != LevelKey ==> r.value == a.value
    ensures a.key == LevelKey ==> r.value == StringValue(LevelName(LevelOf(a.value)))
    ensures a.key == LevelKey ==> r.value.StringValue? && r.value.str in LevelNames
    ensures a.key != LevelKey && a.key != MessageKey ==> r == a
  {
    var value := if a.key == LevelKey then StringValue(LevelName(LevelOf(a.value))) else a.value;
    var key := if a.key == MessageKey then "message" else a.key;
    Attr(key, value)
  }

  /** The built-in level attribute of a record at one of the six levels is
      rewritten to that level's name, which parses back to the level. */
  lemma ReplaceAttrLevelRoundTrip(k: nat)
    requires k < |Levels|
    ensures ReplaceAttr(Attr(LevelKey, LevelValue(Levels[k]))) == Attr(LevelKey, StringValue(LevelNames[k]))
    ensures ParseLevel(ReplaceAttr(Attr(LevelKey, LevelValue(Levels[k]))).value.str) == Some(Levels[k])
  {
    LevelNameRoundTrip(k);
  }

  /** An attribute under the level key whose value is not a Level (for example a
      user attribute "level"="debug") is rewritten to "info". */
  lemma ReplaceAttrNonLevelValue(a: Attr)
    requires a.key == LevelKey && !a.value.LevelValue?
    ensures ReplaceAttr(a) == Attr(LevelKey, StringValue(LevelInfoString))
  {
  }

  /** The flag (zerolog names) and the slog handler agree on five names, but
      the flag accepts "warn", which NewSlogger rejects, and rejects "warning",
      which NewSlogger accepts. */
  lemma FlagAndHandlerNames()
    ensures forall name :: name in LogLevel.SupportedValues() && name != "warn" ==> ParseLevel(name).Some?
    ensures "warn" in LogLevel.SupportedValues() && ParseLevel("warn").None?
    ensures LevelWarnString !in LogLevel.SupportedValues() && ParseLevel(LevelWarnString) == Some(LevelWarn)
  {
  }
}
