/** The device's side of each call: reading the typed parameters back out of
    a query map. For every builder, reading its query gives back the
    parameters in a canonical form (the form in which everything the builder
    drops or merges has been dropped or merged already), and building from
    the canonical form sends the same query. Together these say exactly
    which parameter objects a builder tells apart. */
module ReadBack {
  import opened Wrappers
  import opened Query
  import opened Client

  /** The password every call carries. */
  function ReadPassword(q: QueryMap): Option<string>
  {
    ReadStr(q, "pw")
  }

  // ----- setControllerVariables -----

  /** What setControllerVariables tells the device: each flag only as set or
      not set, `en` always, as true or false. */
  function CanonicalControllerVariables(p: ControllerVariablesParams): (c: ControllerVariablesParams)
    ensures c.en.Some?
    ensures c.rsn != Some(false) && c.rbt != Some(false) && c.ap != Some(false) && c.update != Some(false)
  {
    ControllerVariablesParams(
      if p.rsn == Some(true) then Some(true) else None,
      if p.rbt == Some(true) then Some(true) else None,
      Some(p.en == Some(true)),
      p.rd,
      p.re,
      if p.ap == Some(true) then Some(true) else None,
      if p.update == Some(true) then Some(true) else None)
  }

  function ReadControllerVariables(q: QueryMap): Option<(string, ControllerVariablesParams)>
  {
    match (ReadPassword(q), ReadBit(q, "en"))
    case (Some(pw), Some(en)) =>
      Some((pw, ControllerVariablesParams(
        ReadFlag(q, "rsn"), ReadFlag(q, "rbt"), Some(en == 1),
        ReadNum(q, "rd"), ReadNum(q, "re"), ReadFlag(q, "ap"), ReadFlag(q, "update"))))
    case _ => None
  }

  /** The device reads back the password and the canonical parameters. */
  lemma ControllerVariablesReadBack(pw: string, p: ControllerVariablesParams)
    ensures ReadControllerVariables(SetControllerVariablesQuery(pw, p)) == Some((pw, CanonicalControllerVariables(p)))
  {
    RestartFlagsSentWhenTrue(pw, p);
    UpdateFlagsSentWhenTrue(pw, p);
    ControllerNumbersPassedThrough(pw, p);
  }

  /** Canonicalising first changes nothing on the wire. */
  lemma ControllerVariablesCanonicalSendsSame(pw: string, p: ControllerVariablesParams)
    ensures SetControllerVariablesQuery(pw, CanonicalControllerVariables(p)) == SetControllerVariablesQuery(pw, p)
  {
    var c := CanonicalControllerVariables(p);
    assert (c.rsn == Some(true)) == (p.rsn == Some(true));
    assert (c.rbt == Some(true)) == (p.rbt == Some(true));
    assert (c.en == Some(true)) == (p.en == Some(true));
    assert (c.ap == Some(true)) == (p.ap == Some(true));
    assert (c.update == Some(true)) == (p.update == Some(true));
  }

  /** Two calls send the same query exactly when they agree on the password
      and on the canonical parameters. */
  lemma SameControllerVariablesQuery(pw1: string, p1: ControllerVariablesParams, pw2: string, p2: ControllerVariablesParams)
    ensures SetControllerVariablesQuery(pw1, p1) == SetControllerVariablesQuery(pw2, p2)
            <==> pw1 == pw2 && CanonicalControllerVariables(p1) == CanonicalControllerVariables(p2)
  {
    ControllerVariablesReadBack(pw1, p1);
    ControllerVariablesReadBack(pw2, p2);
    ControllerVariablesCanonicalSendsSame(pw1, p1);
    ControllerVariablesCanonicalSendsSame(pw2, p2);
  }

  // ----- cmanualStationRun -----

  /** What cmanualStationRun tells the device: the timer only when opening,
      the shift flag only when closing. */
  function CanonicalManualStationRun(p: ManualStationRunParams): (c: ManualStationRunParams)
    ensures c.sid == p.sid && c.en == p.en
    ensures c.t.Some? ==> c.en == 1
    ensures c.ssta.Some? ==> c.en == 0
  {
    ManualStationRunParams(p.sid, p.en, if p.en == 1 then p.t else None, if p.en == 0 then p.ssta else None)
  }

  function ReadManualStationRun(q: QueryMap): Option<(string, ManualStationRunParams)>
  {
    match (ReadPassword(q), ReadNum(q, "sid"), ReadBit(q, "en"))
    case (Some(pw), Some(sid), Some(en)) =>
      Some((pw, ManualStationRunParams(sid, en, ReadNum(q, "t"), ReadBit(q, "ssta"))))
    case _ => None
  }

  lemma ManualStationRunReadBack(pw: string, p: ManualStationRunParams)
    ensures ReadManualStationRun(ManualStationRunQuery(pw, p)) == Some((pw, CanonicalManualStationRun(p)))
  {
  }

  lemma ManualStationRunCanonicalSendsSame(pw: string, p: ManualStationRunParams)
    ensures ManualStationRunQuery(pw, CanonicalManualStationRun(p)) == ManualStationRunQuery(pw, p)
  {
  }

  lemma SameManualStationRunQuery(pw1: string, p1: ManualStationRunParams, pw2: string, p2: ManualStationRunParams)
    ensures ManualStationRunQuery(pw1, p1) == ManualStationRunQuery(pw2, p2)
            <==> pw1 == pw2 && CanonicalManualStationRun(p1) == CanonicalManualStationRun(p2)
  {
    ManualStationRunReadBack(pw1, p1);
    ManualStationRunReadBack(pw2, p2);
    ManualStationRunCanonicalSendsSame(pw1, p1);
    ManualStationRunCanonicalSendsSame(pw2, p2);
  }

  // ----- changeProgram -----

  /** What changeProgram tells the device: `en` alone, else `uwt` alone,
      else the content fields. */
  function CanonicalChangeProgram(p: ChangeProgramParams): (c: ChangeProgramParams)
    ensures c.pid == p.pid
    ensures c.en.Some? ==> c.uwt.None?
    ensures c.en.Some? || c.uwt.Some? ==>
              c.name.None? && c.v.None? && c.from.None? && c.to.None?
  {
    if p.en.Some? then ChangeProgramParams(p.pid, p.en, None, None, None, None, None)
    else if p.uwt.Some? then ChangeProgramParams(p.pid, None, p.uwt, None, None, None, None)
    else p
  }

  function ReadChangeProgram(q: QueryMap): Option<(string, ChangeProgramParams)>
  {
    match (ReadPassword(q), ReadNum(q, "pid"))
    case (Some(pw), Some(pid)) =>
      var v := match ReadStr(q, "v") case Some(text) => DecodeProgram(text) case None => None;
      Some((pw, ChangeProgramParams(pid, ReadBit(q, "en"), ReadBit(q, "uwt"), ReadStr(q, "name"), v,
                                    ReadNum(q, "from"), ReadNum(q, "to"))))
    case _ => None
  }

  lemma ChangeProgramReadBack(pw: string, p: ChangeProgramParams)
    ensures ReadChangeProgram(ChangeProgramQuery(pw, p)) == Some((pw, CanonicalChangeProgram(p)))
  {
    if p.en.None? && p.uwt.None? {
      ChangeProgramContentReadBack(pw, p);
    }
  }

  lemma ChangeProgramContentReadBack(pw: string, p: ChangeProgramParams)
    requires p.en.None? && p.uwt.None?
    ensures ReadChangeProgram(ChangeProgramQuery(pw, p)) == Some((pw, p))
  {
    var q := ChangeProgramQuery(pw, p);
    ChangeProgramContent(pw, p);
    assert ReadBit(q, "en").None? && ReadBit(q, "uwt").None?;
    var v := match ReadStr(q, "v") case Some(text) => DecodeProgram(text) case None => None;
    assert v == p.v by {
      if p.v.Some? {
        ProgramRoundTrip(p.v.value);
      }
    }
  }

  lemma ChangeProgramCanonicalSendsSame(pw: string, p: ChangeProgramParams)
    ensures ChangeProgramQuery(pw, CanonicalChangeProgram(p)) == ChangeProgramQuery(pw, p)
  {
  }

  lemma SameChangeProgramQuery(pw1: string, p1: ChangeProgramParams, pw2: string, p2: ChangeProgramParams)
    ensures ChangeProgramQuery(pw1, p1) == ChangeProgramQuery(pw2, p2)
            <==> pw1 == pw2 && CanonicalChangeProgram(p1) == CanonicalChangeProgram(p2)
  {
    ChangeProgramReadBack(pw1, p1);
    ChangeProgramReadBack(pw2, p2);
    ChangeProgramCanonicalSendsSame(pw1, p1);
    ChangeProgramCanonicalSendsSame(pw2, p2);
  }

  // ----- startRunOnceProgram -----

  function ReadRunOnce(q: QueryMap): Option<(string, RunOnceParams)>
  {
    match (ReadPassword(q), ReadStr(q, "t"))
    case (Some(pw), Some(text)) =>
      (match DecodeDurations(text)
       case Some(t) => Some((pw, RunOnceParams(t, ReadNum(q, "cnt"), ReadNum(q, "int"), ReadBit(q, "uwt"))))
       case None => None)
    case _ => None
  }

  /** Nothing is lost: the device reads back every field as given. */
  lemma RunOnceReadBack(pw: string, p: RunOnceParams)
    ensures ReadRunOnce(StartRunOnceProgramQuery(pw, p)) == Some((pw, p))
  {
    DurationsRoundTrip(p.t);
  }

  /** Hence distinct calls send distinct queries. */
  lemma SameRunOnceQuery(pw1: string, p1: RunOnceParams, pw2: string, p2: RunOnceParams)
    ensures StartRunOnceProgramQuery(pw1, p1) == StartRunOnceProgramQuery(pw2, p2) <==> pw1 == pw2 && p1 == p2
  {
    RunOnceReadBack(pw1, p1);
    RunOnceReadBack(pw2, p2);
  }

  // ----- getLogData -----

  function ReadLogData(q: QueryMap): Option<(string, LogDataParams)>
  {
    match ReadPassword(q)
    case Some(pw) =>
      Some((pw, LogDataParams(ReadNum(q, "start"), ReadNum(q, "end"), ReadNum(q, "hist"), ReadStr(q, "type"))))
    case None => None
  }

  lemma LogDataReadBack(pw: string, p: LogDataParams)
    ensures ReadLogData(GetLogDataQuery(pw, p)) == Some((pw, p))
  {
  }

  lemma SameLogDataQuery(pw1: string, p1: LogDataParams, pw2: string, p2: LogDataParams)
    ensures GetLogDataQuery(pw1, p1) == GetLogDataQuery(pw2, p2) <==> pw1 == pw2 && p1 == p2
  {
    LogDataReadBack(pw1, p1);
    LogDataReadBack(pw2, p2);
  }

  // ----- pauseQueue -----

  /** What pauseQueue tells the device: `dur` is dropped when `repl` is
      given. */
  function CanonicalPauseQueue(p: PauseQueueParams): (c: PauseQueueParams)
    ensures c.repl == p.repl
    ensures c.repl.Some? ==> c.dur.None?
    ensures c.repl.None? ==> c.dur == p.dur
  {
    if p.repl.Some? then PauseQueueParams(None, p.repl) else p
  }

  function ReadPauseQueue(q: QueryMap): Option<(string, PauseQueueParams)>
  {
    match ReadPassword(q)
    case Some(pw) => Some((pw, PauseQueueParams(ReadNum(q, "dur"), ReadNum(q, "repl"))))
    case None => None
  }

  lemma PauseQueueReadBack(pw: string, p: PauseQueueParams)
    ensures ReadPauseQueue(PauseQueueQuery(pw, p)) == Some((pw, CanonicalPauseQueue(p)))
  {
  }

  lemma SamePauseQueueQuery(pw1: string, p1: PauseQueueParams, pw2: string, p2: PauseQueueParams)
    ensures PauseQueueQuery(pw1, p1) == PauseQueueQuery(pw2, p2)
            <==> pw1 == pw2 && CanonicalPauseQueue(p1) == CanonicalPauseQueue(p2)
  {
    PauseQueueReadBack(pw1, p1);
    PauseQueueReadBack(pw2, p2);
    assert PauseQueueQuery(pw1, CanonicalPauseQueue(p1)) == PauseQueueQuery(pw1, p1);
    assert PauseQueueQuery(pw2, CanonicalPauseQueue(p2)) == PauseQueueQuery(pw2, p2);
  }

  // ----- the fixed queries -----

  /** The `day` argument of deleteLogData as the device reads it. */
  function ReadLogDay(q: QueryMap): Option<LogDay>
  {
    if "day" !in q then None
    else match q["day"]
      case Num(d) => Some(Day(d))
      case Str(s) => if s == "all" then Some(AllDays) else None
  }

  /** Every argument of the fixed-shape calls is read back unchanged. */
  lemma FixedQueriesReadBack(pw: string, npw: string, cpw: string, pid: int, uwt: Bit, day: LogDay, jsp: string)
    ensures ReadPassword(PasswordOnlyQuery(pw)) == Some(pw)
    ensures var q := SetPasswordQuery(pw, npw, cpw);
              (ReadPassword(q), ReadStr(q, "npw"), ReadStr(q, "cpw")) == (Some(pw), Some(npw), Some(cpw))
    ensures var q := ManualStartProgramQuery(pw, pid, uwt);
              (ReadPassword(q), ReadNum(q, "pid"), ReadBit(q, "uwt")) == (Some(pw), Some(pid), Some(uwt))
    ensures var q := ProgramIndexQuery(pw, pid);
              (ReadPassword(q), ReadNum(q, "pid")) == (Some(pw), Some(pid))
    ensures var q := DeleteLogDataQuery(pw, day);
              (ReadPassword(q), ReadLogDay(q)) == (Some(pw), Some(day))
    ensures var q := ChangeJavascriptUrlQuery(pw, jsp);
              (ReadPassword(q), ReadStr(q, "jsp")) == (Some(pw), Some(jsp))
  {
  }

  /** The fixed-shape calls send every argument unchanged, so two of their
      queries agree exactly when the arguments do. */
  lemma SamePasswordOnlyQuery(pw1: string, pw2: string)
    ensures PasswordOnlyQuery(pw1) == PasswordOnlyQuery(pw2) <==> pw1 == pw2
  {
    FixedQueriesReadBack(pw1, "", "", 0, 0, AllDays, "");
    FixedQueriesReadBack(pw2, "", "", 0, 0, AllDays, "");
  }

  lemma SameSetPasswordQuery(pw1: string, npw1: string, cpw1: string, pw2: string, npw2: string, cpw2: string)
    ensures SetPasswordQuery(pw1, npw1, cpw1) == SetPasswordQuery(pw2, npw2, cpw2)
            <==> (pw1, npw1, cpw1) == (pw2, npw2, cpw2)
  {
    FixedQueriesReadBack(pw1, npw1, cpw1, 0, 0, AllDays, "");
    FixedQueriesReadBack(pw2, npw2, cpw2, 0, 0, AllDays, "");
  }

  lemma SameManualStartProgramQuery(pw1: string, pid1: int, uwt1: Bit, pw2: string, pid2: int, uwt2: Bit)
    ensures ManualStartProgramQuery(pw1, pid1, uwt1) == ManualStartProgramQuery(pw2, pid2, uwt2)
            <==> (pw1, pid1, uwt1) == (pw2, pid2, uwt2)
  {
    FixedQueriesReadBack(pw1, "", "", pid1, uwt1, AllDays, "");
    FixedQueriesReadBack(pw2, "", "", pid2, uwt2, AllDays, "");
  }

  lemma SameProgramIndexQuery(pw1: string, pid1: int, pw2: string, pid2: int)
    ensures ProgramIndexQuery(pw1, pid1) == ProgramIndexQuery(pw2, pid2) <==> (pw1, pid1) == (pw2, pid2)
  {
    FixedQueriesReadBack(pw1, "", "", pid1, 0, AllDays, "");
    FixedQueriesReadBack(pw2, "", "", pid2, 0, AllDays, "");
  }

  lemma SameDeleteLogDataQuery(pw1: string, day1: LogDay, pw2: string, day2: LogDay)
    ensures DeleteLogDataQuery(pw1, day1) == DeleteLogDataQuery(pw2, day2) <==> (pw1, day1) == (pw2, day2)
  {
    FixedQueriesReadBack(pw1, "", "", 0, 0, day1, "");
    FixedQueriesReadBack(pw2, "", "", 0, 0, day2, "");
  }

  lemma SameChangeJavascriptUrlQuery(pw1: string, jsp1: string, pw2: string, jsp2: string)
    ensures ChangeJavascriptUrlQuery(pw1, jsp1) == ChangeJavascriptUrlQuery(pw2, jsp2) <==> (pw1, jsp1) == (pw2, jsp2)
  {
    FixedQueriesReadBack(pw1, "", "", 0, 0, AllDays, jsp1);
    FixedQueriesReadBack(pw2, "", "", 0, 0, AllDays, jsp2);
  }
}
