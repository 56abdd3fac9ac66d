/** The query maps the `OpenSprinklerClient` methods hand to the transport.
    Each builder takes the password and the method's typed parameter object
    and returns the map; the request itself, the endpoint path and the
    decoding of the reply are outside this module. */
module Client {
  import opened Wrappers
  import opened Query
  import opened Json

  // ----- read-only calls and calls with fixed parameters -----

  /** `{ pw }`: the whole query of getControllerVariables, getOptions,
      getStationNamesAndAttributes, getSpecialStationData, getStationStatus,
      getPrograms and getAllAggregated. */
  function PasswordOnlyQuery(pw: string): (q: QueryMap)
    ensures q.Keys == {"pw"} && q["pw"] == Str(pw)
  {
    map["pw" := Str(pw)]
  }

  /** setPassword: current password, new and confirmation hashes. */
  function SetPasswordQuery(pw: string, npw: string, cpw: string): (q: QueryMap)
    ensures q.Keys == {"pw", "npw", "cpw"}
    ensures q["pw"] == Str(pw) && q["npw"] == Str(npw) && q["cpw"] == Str(cpw)
  {
    map["pw" := Str(pw), "npw" := Str(npw), "cpw" := Str(cpw)]
  }

  /** manualStartProgram: program index and use-weather bit. */
  function ManualStartProgramQuery(pw: string, pid: int, uwt: Bit): (q: QueryMap)
    ensures q.Keys == {"pw", "pid", "uwt"}
    ensures q["pw"] == Str(pw) && q["pid"] == Num(pid) && q["uwt"] == Num(uwt)
  {
    map["pw" := Str(pw), "pid" := Num(pid), "uwt" := Num(uwt)]
  }

  /** deleteProgram and moveProgramUp: a program index. */
  function ProgramIndexQuery(pw: string, pid: int): (q: QueryMap)
    ensures q.Keys == {"pw", "pid"}
    ensures q["pw"] == Str(pw) && q["pid"] == Num(pid)
  {
    map["pw" := Str(pw), "pid" := Num(pid)]
  }

  /** The `day` argument of deleteLogData: `number | "all"`. */
  datatype LogDay = Day(epochDay: int) | AllDays

  function DeleteLogDataQuery(pw: string, day: LogDay): (q: QueryMap)
    ensures q.Keys == {"pw", "day"} && q["pw"] == Str(pw)
    ensures q["day"] == (match day case Day(d) => Num(d) case AllDays => Str("all"))
  {
    map["pw" := Str(pw), "day" := match day case Day(d) => Num(d) case AllDays => Str("all")]
  }

  /** changeJavascriptUrl: the new script path. */
  function ChangeJavascriptUrlQuery(pw: string, jsp: string): (q: QueryMap)
    ensures q.Keys == {"pw", "jsp"}
    ensures q["pw"] == Str(pw) && q["jsp"] == Str(jsp)
  {
    map["pw" := Str(pw), "jsp" := Str(jsp)]
  }

  // ----- setControllerVariables -----

  datatype ControllerVariablesParams = ControllerVariablesParams(
    rsn: Option<bool>,
    rbt: Option<bool>,
    en: Option<bool>,
    rd: Option<int>,
    re: Option<int>,
    ap: Option<bool>,
    update: Option<bool>)

  /** The four flags sent only when true. */
  const ControllerFlags: set<string> := {"rsn", "rbt", "ap", "update"}

  /** setControllerVariables. `en` is always sent, as 1 when true and 0 when
      false or absent; the other fields are covered by the lemmas below. */
  function SetControllerVariablesQuery(pw: string, p: ControllerVariablesParams): (q: QueryMap)
    ensures "pw" in q && q["pw"] == Str(pw)
    ensures "en" in q && q["en"] == Num(if p.en == Some(true) then 1 else 0)
  {
    var q := map["pw" := Str(pw)];
    var q := PutIf(q, p.rsn == Some(true), "rsn", Num(1));
    var q := PutIf(q, p.rbt == Some(true), "rbt", Num(1));
    var q := q["en" := Num(if p.en == Some(true) then 1 else 0)];
    var q := PutIf(q, p.rd.Some?, "rd", Num(p.rd.GetOr(0)));
    var q := PutIf(q, p.re.Some?, "re", Num(p.re.GetOr(0)));
    var q := PutIf(q, p.ap == Some(true), "ap", Num(1));
    var q := PutIf(q, p.update == Some(true), "update", Num(1));
    q
  }

  /** Only the documented parameters are ever sent. */
  lemma ControllerVariablesKeys(pw: string, p: ControllerVariablesParams)
    ensures SetControllerVariablesQuery(pw, p).Keys <= {"pw", "en", "rd", "re"} + ControllerFlags
  {
  }

  /** `rsn` and `rbt` are sent, as 1, exactly when true: false and absent
      are sent alike, as nothing. */
  lemma RestartFlagsSentWhenTrue(pw: string, p: ControllerVariablesParams)
    ensures var q := SetControllerVariablesQuery(pw, p);
      && ("rsn" in q <==> p.rsn == Some(true))
      && ("rsn" in q ==> q["rsn"] == Num(1))
      && ("rbt" in q <==> p.rbt == Some(true))
      && ("rbt" in q ==> q["rbt"] == Num(1))
  {
  }

  /** Likewise `ap` and `update`. */
  lemma UpdateFlagsSentWhenTrue(pw: string, p: ControllerVariablesParams)
    ensures var q := SetControllerVariablesQuery(pw, p);
      && ("ap" in q <==> p.ap == Some(true))
      && ("ap" in q ==> q["ap"] == Num(1))
      && ("update" in q <==> p.update == Some(true))
      && ("update" in q ==> q["update"] == Num(1))
  {
  }

  /** `rd` and `re` are sent exactly when supplied, with the value unchanged
      (0 included). */
  lemma ControllerNumbersPassedThrough(pw: string, p: ControllerVariablesParams)
    ensures var q := SetControllerVariablesQuery(pw, p);
      && ("rd" in q <==> p.rd.Some?)
      && ("rd" in q ==> q["rd"] == Num(p.rd.value))
      && ("re" in q <==> p.re.Some?)
      && ("re" in q ==> q["re"] == Num(p.re.value))
  {
  }

  // ----- cmanualStationRun -----

  datatype ManualStationRunParams = ManualStationRunParams(
    sid: int,
    en: Bit,
    t: Option<int>,
    ssta: Option<Bit>)

  /** cmanualStationRun. `pw`, `sid` and `en` are always sent; the timer `t`
      only when opening (en = 1), the shift flag `ssta` only when closing
      (en = 0); each only if supplied. */
  function ManualStationRunQuery(pw: string, p: ManualStationRunParams): (q: QueryMap)
    ensures q.Keys <= {"pw", "sid", "en", "t", "ssta"}
    ensures "pw" in q && q["pw"] == Str(pw)
    ensures "sid" in q && q["sid"] == Num(p.sid)
    ensures "en" in q && q["en"] == Num(p.en)
    ensures "t" in q <==> p.en == 1 && p.t.Some?
    ensures "t" in q ==> q["t"] == Num(p.t.value)
    ensures "ssta" in q <==> p.en == 0 && p.ssta.Some?
    ensures "ssta" in q ==> q["ssta"] == Num(p.ssta.value)
    ensures !("t" in q && "ssta" in q)
  {
    var q := map["pw" := Str(pw), "sid" := Num(p.sid), "en" := Num(p.en)];
    var q := PutIf(q, p.en == 1 && p.t.Some?, "t", Num(p.t.GetOr(0)));
    var q := PutIf(q, p.en == 0 && p.ssta.Some?, "ssta", Num(p.ssta.GetOr(0)));
    q
  }

  // ----- changeProgram -----

  /** Four program start times. */
  type StartTimes = s: seq<int> | |s| == 4 witness [0, 0, 0, 0]

  /** The program tuple `v`: flag, days0, days1, start times, durations. */
  datatype ProgramValue = ProgramValue(
    flag: int,
    days0: int,
    days1: int,
    starts: StartTimes,
    durations: seq<int>)

  function ProgramJson(v: ProgramValue): JsonValue
  {
    JArray([JNum(v.flag), JNum(v.days0), JNum(v.days1), IntArray(v.starts), IntArray(v.durations)])
  }

  /** `JSON.stringify(v)`. */
  function EncodeProgram(v: ProgramValue): (s: string)
    ensures |s| > 1 && s[0] == '[' && s[|s| - 1] == ']'
  {
    Stringify(ProgramJson(v))
  }

  /** Reads a program tuple back from its JSON text. */
  function DecodeProgram(s: string): Option<ProgramValue>
  {
    match Parse(s)
    case Some(j) => ProgramOfJson(j)
    case None => None
  }

  /** The program tuple a JSON value spells, if it has that shape. */
  function ProgramOfJson(j: JsonValue): (r: Option<ProgramValue>)
    ensures r.Some? ==> ProgramJson(r.value) == j
  {
    if j.JArray? && |j.items| == 5 && j.items[0].JNum? && j.items[1].JNum? && j.items[2].JNum? then
      match (AsIntArray(j.items[3]), AsIntArray(j.items[4]))
      case (Some(starts), Some(durations)) =>
        if |starts| == 4 then
          var v := ProgramValue(j.items[0].n, j.items[1].n, j.items[2].n, starts, durations);
          assert ProgramJson(v).items == j.items;
          Some(v)
        else None
      case _ => None
    else None
  }

  /** The program tuple survives `JSON.stringify` and parsing back. */
  lemma ProgramRoundTrip(v: ProgramValue)
    ensures DecodeProgram(EncodeProgram(v)) == Some(v)
  {
    ParseStringify(ProgramJson(v));
    IntArrayRoundTrip(v.starts);
    IntArrayRoundTrip(v.durations);
  }

  datatype ChangeProgramParams = ChangeProgramParams(
    pid: int,
    en: Option<Bit>,
    uwt: Option<Bit>,
    name: Option<string>,
    v: Option<ProgramValue>,
    from: Option<int>,
    to: Option<int>)

  /** The keys that carry program content, sent only when neither `en` nor
      `uwt` is supplied. */
  const ProgramContentKeys: set<string> := {"name", "v", "from", "to"}

  /** changeProgram, a strict three-way priority: with `en` only `en` is
      sent; otherwise with `uwt` only `uwt`; otherwise whichever of `name`,
      `v` (as JSON text), `from`, `to` are supplied. `pw` and `pid` always. */
  function ChangeProgramQuery(pw: string, p: ChangeProgramParams): (q: QueryMap)
    ensures "pw" in q && q["pw"] == Str(pw)
    ensures "pid" in q && q["pid"] == Num(p.pid)
    ensures p.en.Some? ==> q.Keys == {"pw", "pid", "en"} && q["en"] == Num(p.en.value)
    ensures p.en.None? && p.uwt.Some? ==> q.Keys == {"pw", "pid", "uwt"} && q["uwt"] == Num(p.uwt.value)
  {
    var q := map["pw" := Str(pw), "pid" := Num(p.pid)];
    if p.en.Some? then q["en" := Num(p.en.value)]
    else if p.uwt.Some? then q["uwt" := Num(p.uwt.value)]
    else
      var q := PutIf(q, p.name.Some?, "name", Str(p.name.GetOr("")));
      var q := PutIf(q, p.v.Some?, "v", Str(if p.v.Some? then EncodeProgram(p.v.value) else ""));
      var q := PutIf(q, p.from.Some?, "from", Num(p.from.GetOr(0)));
      var q := PutIf(q, p.to.Some?, "to", Num(p.to.GetOr(0)));
      q
  }

  /** Without `en` and `uwt`, each content field is sent exactly when
      supplied, the program tuple as its JSON text. */
  lemma ChangeProgramContent(pw: string, p: ChangeProgramParams)
    requires p.en.None? && p.uwt.None?
    ensures var q := ChangeProgramQuery(pw, p);
      && q.Keys <= {"pw", "pid"} + ProgramContentKeys
      && ("name" in q <==> p.name.Some?)
      && ("name" in q ==> q["name"] == Str(p.name.value))
      && ("v" in q <==> p.v.Some?)
      && ("v" in q ==> q["v"] == Str(EncodeProgram(p.v.value)))
      && ("from" in q <==> p.from.Some?)
      && ("from" in q ==> q["from"] == Num(p.from.value))
      && ("to" in q <==> p.to.Some?)
      && ("to" in q ==> q["to"] == Num(p.to.value))
  {
  }

  // ----- startRunOnceProgram -----

  datatype RunOnceParams = RunOnceParams(
    t: seq<int>,
    cnt: Option<int>,
    interval: Option<int>,  // the parameter `int`
    uwt: Option<Bit>)

  /** `JSON.stringify(t)` for the per-station durations. */
  function EncodeDurations(t: seq<int>): (s: string)
    ensures |s| > 1 && s[0] == '[' && s[|s| - 1] == ']'
  {
    Stringify(IntArray(t))
  }

  function DecodeDurations(s: string): Option<seq<int>>
  {
    match Parse(s)
    case Some(j) => AsIntArray(j)
    case None => None
  }

  lemma DurationsRoundTrip(t: seq<int>)
    ensures DecodeDurations(EncodeDurations(t)) == Some(t)
  {
    ParseStringify(IntArray(t));
    IntArrayRoundTrip(t);
  }

  /** startRunOnceProgram: `t` is always sent as JSON text; `cnt`, `int`,
      `uwt` each independently when supplied. */
  function StartRunOnceProgramQuery(pw: string, p: RunOnceParams): (q: QueryMap)
    ensures q.Keys <= {"pw", "t", "cnt", "int", "uwt"}
    ensures "pw" in q && q["pw"] == Str(pw)
    ensures "t" in q && q["t"] == Str(EncodeDurations(p.t))
    ensures "cnt" in q <==> p.cnt.Some?
    ensures "cnt" in q ==> q["cnt"] == Num(p.cnt.value)
    ensures "int" in q <==> p.interval.Some?
    ensures "int" in q ==> q["int"] == Num(p.interval.value)
    ensures "uwt" in q <==> p.uwt.Some?
    ensures "uwt" in q ==> q["uwt"] == Num(p.uwt.value)
  {
    var q := map["pw" := Str(pw), "t" := Str(EncodeDurations(p.t))];
    var q := PutIf(q, p.cnt.Some?, "cnt", Num(p.cnt.GetOr(0)));
    var q := PutIf(q, p.interval.Some?, "int", Num(p.interval.GetOr(0)));
    var q := PutIf(q, p.uwt.Some?, "uwt", Num(p.uwt.GetOr(0)));
    q
  }

  // ----- getLogData -----

  datatype LogDataParams = LogDataParams(
    start: Option<int>,
    end: Option<int>,
    hist: Option<int>,
    logType: Option<string>)  // the parameter `type`

  /** getLogData: every supplied filter is passed through; `start`/`end`
      and `hist` are not checked for exclusivity. */
  function GetLogDataQuery(pw: string, p: LogDataParams): (q: QueryMap)
    ensures q.Keys <= {"pw", "start", "end", "hist", "type"}
    ensures "pw" in q && q["pw"] == Str(pw)
    ensures "start" in q <==> p.start.Some?
    ensures "start" in q ==> q["start"] == Num(p.start.value)
    ensures "end" in q <==> p.end.Some?
    ensures "end" in q ==> q["end"] == Num(p.end.value)
    ensures "hist" in q <==> p.hist.Some?
    ensures "hist" in q ==> q["hist"] == Num(p.hist.value)
    ensures "type" in q <==> p.logType.Some?
    ensures "type" in q ==> q["type"] == Str(p.logType.value)
  {
    var q := map["pw" := Str(pw)];
    var q := PutIf(q, p.start.Some?, "start", Num(p.start.GetOr(0)));
    var q := PutIf(q, p.end.Some?, "end", Num(p.end.GetOr(0)));
    var q := PutIf(q, p.hist.Some?, "hist", Num(p.hist.GetOr(0)));
    var q := PutIf(q, p.logType.Some?, "type", Str(p.logType.GetOr("")));
    q
  }

  // ----- pauseQueue -----

  datatype PauseQueueParams = PauseQueueParams(dur: Option<int>, repl: Option<int>)

  /** pauseQueue: `repl` wins over `dur`; at most one of them is sent. */
  function PauseQueueQuery(pw: string, p: PauseQueueParams): (q: QueryMap)
    ensures q.Keys <= {"pw", "dur", "repl"}
    ensures "pw" in q && q["pw"] == Str(pw)
    ensures "repl" in q <==> p.repl.Some?
    ensures "repl" in q ==> q["repl"] == Num(p.repl.value)
    ensures "dur" in q <==> p.repl.None? && p.dur.Some?
    ensures "dur" in q ==> q["dur"] == Num(p.dur.value)
    ensures !("dur" in q && "repl" in q)
  {
    var q := map["pw" := Str(pw)];
    if p.repl.Some? then q["repl" := Num(p.repl.value)]
    else PutIf(q, p.dur.Some?, "dur", Num(p.dur.GetOr(0)))
  }
}
