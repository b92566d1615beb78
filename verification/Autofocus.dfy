/** Autofocus runs: the flag that a run is active, and the notifications sent for the focus
    states the backend reports. */
module Autofocus {
  import opened Options

  const NO_ERROR := 0

  /** cam_af_state_t; the value comes from metadata as any 32-bit number. */
  const AF_INACTIVE := 0
  const AF_PASSIVE_SCAN := 1
  const AF_PASSIVE_FOCUSED := 2
  const AF_ACTIVE_SCAN := 3
  const AF_FOCUSED_LOCKED := 4
  const AF_NOT_FOCUSED_LOCKED := 5
  const AF_PASSIVE_UNFOCUSED := 6

  /** The focus mode of the parameters; all modes without an autofocus run are Other. */
  datatype Mode = Auto | Macro | ContinuousVideo | ContinuousPicture | Other

  /** A focus report: its state and whether the backend's own mode is INFINITY. */
  datatype Report = Report(state: nat, infinity: bool)

  datatype Note = Focus(success: bool) | FocusMove(moving: bool)

  /** The flag, and all notifications handed to sendEvtNotify so far. */
  datatype AF = AF(active: bool, sent: seq<Note>)

  predicate Continuous(mode: Mode) { mode.ContinuousVideo? || mode.ContinuousPicture? }

  predicate Single(mode: Mode) { mode.Auto? || mode.Macro? }

  predicate Locked(r: Report) { r.state == AF_FOCUSED_LOCKED || r.state == AF_NOT_FOCUSED_LOCKED }

  predicate Passive(r: Report) {
    r.state == AF_PASSIVE_SCAN || r.state == AF_PASSIVE_FOCUSED || r.state == AF_PASSIVE_UNFOCUSED
  }

  /** The backend went to INFINITY on its own, as for a landscape scene. */
  predicate WentToInfinity(r: Report) { r.infinity && r.state == AF_INACTIVE }

  // ---------- On values ----------

  /** autoFocus; rc is what the backend, or the notification sent instead, returned. */
  function Start(s: AF, mode: Mode, rc: int): AF {
    if mode.Other? then AF(s.active && rc == NO_ERROR, s.sent + [Focus(true)])
    else s.(active := rc == NO_ERROR)
  }

  /** cancelAutoFocus */
  function Cancel(s: AF, mode: Mode): AF {
    if mode.Other? then s else s.(active := false)
  }

  /** The notifications for one report. */
  function Notes(active: bool, mode: Mode, r: Report): seq<Note> {
    if Single(mode) then
      if !active then []
      else if WentToInfinity(r) then [Focus(true)]
      else if Passive(r) || r.state == AF_ACTIVE_SCAN || r.state == AF_INACTIVE then []
      else [Focus(r.state == AF_FOCUSED_LOCKED)]
    else if Continuous(mode) then
      if WentToInfinity(r) then [Focus(false)]
      else if Passive(r) && active then []
      else
        (if r.state == AF_PASSIVE_FOCUSED || r.state == AF_PASSIVE_UNFOCUSED || Locked(r)
         then [Focus(r.state == AF_PASSIVE_FOCUSED || r.state == AF_FOCUSED_LOCKED)] else [])
        + [FocusMove(r.state == AF_PASSIVE_SCAN)]
    else []
  }

  /** processAutoFocusEvent */
  function Process(s: AF, secondary: bool, mode: Mode, r: Report): AF {
    if secondary then s else
      AF(s.active && !Locked(r) && !(WentToInfinity(r) && !mode.Other?), s.sent + Notes(s.active, mode, r))
  }

  // ---------- In place ----------

  class FocusControl {
    var mActiveAF: bool
    /** Every notification handed to sendEvtNotify. */
    var sent: seq<Note>

    constructor ()
      ensures View() == AF(false, [])
    {
      mActiveAF, sent := false, [];
    }

    function View(): AF
      reads this
    {
      AF(mActiveAF, sent)
    }

    /** autoFocus; "doRc" and "notifyRc" are what do_auto_focus and sendEvtNotify returned. */
    method AutoFocus(focusMode: Mode, doRc: int, notifyRc: int) returns (rc: int)
      modifies this
      ensures rc == if focusMode.Other? then notifyRc else doRc
      ensures View() == Start(old(View()), focusMode, rc)
    {
      match focusMode {
        case Auto | Macro | ContinuousVideo | ContinuousPicture =>
          mActiveAF := true;
          rc := doRc;
        case Other =>
          sent := sent + [Focus(true)];
          rc := notifyRc;
      }
      if rc != NO_ERROR {
        mActiveAF := false;
      }
    }

    /** cancelAutoFocus */
    method CancelAutoFocus(focusMode: Mode, cancelRc: int) returns (rc: int)
      modifies this
      ensures rc == if focusMode.Other? then NO_ERROR else cancelRc
      ensures View() == Cancel(old(View()), focusMode)
    {
      rc := NO_ERROR;
      match focusMode {
        case Auto | Macro | ContinuousVideo | ContinuousPicture =>
          mActiveAF := false;
          rc := cancelRc;
        case Other =>
      }
    }

    /** stopPreview also ends a run. */
    method StopPreview()
      modifies this
      ensures View() == old(View()).(active := false)
    {
      mActiveAF := false;
    }

    /** processAutoFocusEvent; focus distances and the flush of old snapshot frames left out. */
    method ProcessAutoFocusEvent(secondary: bool, focusMode: Mode, data: Report)
      modifies this
      ensures View() == Process(old(View()), secondary, focusMode, data)
    {
      if secondary {
        return;
      }
      match focusMode {
        case Auto | Macro => SingleEvent(data);
        case ContinuousVideo | ContinuousPicture => ContinuousEvent(data);
        case Other =>
      }
      if data.state == AF_FOCUSED_LOCKED || data.state == AF_NOT_FOCUSED_LOCKED {
        mActiveAF := false;
      }
    }

    /** The branch for AUTO and MACRO. */
    method SingleEvent(data: Report)
      modifies this
      ensures View() == AF(old(mActiveAF) && !WentToInfinity(data), old(sent) + Notes(old(mActiveAF), Auto, data))
    {
      if !mActiveAF {
        return;
      }
      if data.infinity && data.state == AF_INACTIVE {
        sent := sent + [Focus(true)];
        mActiveAF := false;
        return;
      }
      if data.state == AF_PASSIVE_SCAN || data.state == AF_PASSIVE_FOCUSED || data.state == AF_PASSIVE_UNFOCUSED {
        return;
      }
      if data.state == AF_ACTIVE_SCAN || data.state == AF_INACTIVE {
        return;
      }
      sent := sent + [Focus(data.state == AF_FOCUSED_LOCKED)];
    }

    /** The branch for the continuous modes. */
    method ContinuousEvent(data: Report)
      modifies this
      ensures View() == AF(old(mActiveAF) && !WentToInfinity(data),
                           old(sent) + Notes(old(mActiveAF), ContinuousVideo, data))
    {
      if data.infinity && data.state == AF_INACTIVE {
        sent := sent + [Focus(false)];
        mActiveAF := false;
        return;
      }
      if (data.state == AF_PASSIVE_FOCUSED || data.state == AF_PASSIVE_UNFOCUSED || data.state == AF_PASSIVE_SCAN)
         && mActiveAF {
        return;
      }
      if data.state == AF_PASSIVE_FOCUSED || data.state == AF_PASSIVE_UNFOCUSED
         || data.state == AF_FOCUSED_LOCKED || data.state == AF_NOT_FOCUSED_LOCKED {
        sent := sent + [Focus(data.state == AF_PASSIVE_FOCUSED || data.state == AF_FOCUSED_LOCKED)];
      }
      sent := sent + [FocusMove(data.state == AF_PASSIVE_SCAN)];
    }
  }

  // ---------- Runs ----------

  datatype Event =
    | AutoFocus(mode: Mode, rc: int)
    | CancelAutoFocus(mode: Mode)
    | StopPreview
    | Reported(secondary: bool, mode: Mode, report: Report)

  function Next(s: AF, e: Event): AF {
    match e
    case AutoFocus(mode, rc) => Start(s, mode, rc)
    case CancelAutoFocus(mode) => Cancel(s, mode)
    case StopPreview => s.(active := false)
    case Reported(secondary, mode, r) => Process(s, secondary, mode, r)
  }

  function Run(s: AF, es: seq<Event>): AF
    decreases |es|
  {
    if es == [] then s else Run(Next(s, es[0]), es[1..])
  }

  function Focuses(sent: seq<Note>): nat {
    if sent == [] then 0 else Focuses(sent[..|sent| - 1]) + if sent[|sent| - 1].Focus? then 1 else 0
  }

  function Calls(es: seq<Event>): nat {
    if es == [] then 0 else (if es[0].AutoFocus? then 1 else 0) + Calls(es[1..])
  }

  lemma {:induction false} FocusesAppend(a: seq<Note>, b: seq<Note>)
    ensures Focuses(a + b) == Focuses(a) + Focuses(b)
  {
    if b == [] {
      assert a + b == a;
    } else {
      var c := a + b;
      assert c[..|c| - 1] == a + b[..|b| - 1];
      FocusesAppend(a, b[..|b| - 1]);
    }
  }

  /** A report the continuous modes do not see, with one of the seven states. */
  predicate Known(e: Event) {
    e.Reported? ==> !Continuous(e.mode) && e.report.state <= AF_PASSIVE_UNFOCUSED
  }

  predicate AllKnown(es: seq<Event>) {
    forall i :: 0 <= i < |es| ==> Known(es[i])
  }

  function One(b: bool): nat { if b then 1 else 0 }

  /** One step pays for its notifications with a call or with the active run. */
  predicate Pays(s: AF, e: Event) {
    Focuses(Next(s, e).sent) + One(Next(s, e).active) <= Focuses(s.sent) + One(s.active) + One(e.AutoFocus?)
  }

  lemma {:induction false} OneNote(n: Note)
    ensures Focuses([n]) == One(n.Focus?)
  {
    assert [n][..0] == [];
  }

  /** How many focus notifications a report causes. */
  lemma ReportCost(active: bool, mode: Mode, r: Report)
    ensures Focuses(Notes(active, mode, r)) ==
            One(|| (Single(mode) && active && (WentToInfinity(r) || Locked(r) || r.state > AF_PASSIVE_UNFOCUSED))
                || (Continuous(mode) && (WentToInfinity(r) || Locked(r)))
                || (Continuous(mode) && !active && Passive(r) && r.state != AF_PASSIVE_SCAN))
  {
    hide Focuses;
    assert Focuses([]) == 0 by { NoNotes(); }
    OneNote(Focus(true));
    OneNote(Focus(false));
    OneNote(FocusMove(true));
    OneNote(FocusMove(false));
    FocusesAppend([Focus(true)], [FocusMove(false)]);
    FocusesAppend([Focus(false)], [FocusMove(false)]);
    assert [] + [FocusMove(true)] == [FocusMove(true)] && [] + [FocusMove(false)] == [FocusMove(false)];
  }

  lemma NoNotes()
    ensures Focuses([]) == 0
  {
  }

  /** A step fails to pay exactly in two cases: a report in a continuous mode that notifies with
      no run active, and in AUTO or MACRO a state outside the enumeration, which ends no run. */
  lemma PaysExactly(s: AF, e: Event)
    ensures !Pays(s, e) <==>
            e.Reported? && !e.secondary
            && ((Single(e.mode) && s.active && e.report.state > AF_PASSIVE_UNFOCUSED)
                || (Continuous(e.mode) && !s.active
                    && (WentToInfinity(e.report) || Locked(e.report)
                        || (Passive(e.report) && e.report.state != AF_PASSIVE_SCAN))))
  {
    hide Focuses, Notes;
    FocusesAppend(s.sent, [Focus(true)]);
    OneNote(Focus(true));
    if e.Reported? {
      FocusesAppend(s.sent, Notes(s.active, e.mode, e.report));
      ReportCost(s.active, e.mode, e.report);
    }
  }

  /** Outside the continuous modes there are never more focus notifications than calls of
      autoFocus, one fewer while a run is active. */
  lemma {:induction false} AtMostOnePerCall(s: AF, es: seq<Event>)
    requires AllKnown(es)
    ensures Focuses(Run(s, es).sent) + (if Run(s, es).active then 1 else 0) <=
            Focuses(s.sent) + (if s.active then 1 else 0) + Calls(es)
    decreases |es|
  {
    if es != [] {
      PaysExactly(s, es[0]);
      AtMostOnePerCall(Next(s, es[0]), es[1..]);
    }
  }

  /** A report that a continuous mode answers with no run active: always with something, ... */
  predicate Answered(e: Event) {
    e.Reported? && !e.secondary && Continuous(e.mode)
  }

  /** ... and in these states with a focus notification. */
  predicate AnsweredFocus(e: Event) {
    Answered(e) && (WentToInfinity(e.report) || Locked(e.report)
                    || (Passive(e.report) && e.report.state != AF_PASSIVE_SCAN))
  }

  predicate NoneAnswered(es: seq<Event>) {
    forall i :: 0 <= i < |es| ==> !Answered(es[i])
  }

  predicate NoneAnsweredFocus(es: seq<Event>) {
    forall i :: 0 <= i < |es| ==> !AnsweredFocus(es[i])
  }

  /** One event that is no call, with no run active. */
  lemma InactiveStep(s: AF, e: Event)
    requires !s.active && !e.AutoFocus?
    ensures !Next(s, e).active
    ensures if Answered(e) then |Next(s, e).sent| > |s.sent| else Next(s, e) == s
    ensures Focuses(Next(s, e).sent) == Focuses(s.sent) + One(AnsweredFocus(e))
  {
    hide Focuses;
    if e.Reported? {
      FocusesAppend(s.sent, Notes(s.active, e.mode, e.report));
      ReportCost(s.active, e.mode, e.report);
    }
  }

  /** Notifications are never taken back. */
  lemma {:induction false} SentGrows(s: AF, es: seq<Event>)
    ensures |Run(s, es).sent| >= |s.sent|
    decreases |es|
  {
    if es != [] {
      SentGrows(Next(s, es[0]), es[1..]);
    }
  }

  /** Once no run is active, and before the next call, exactly the reports in a continuous mode
      are answered: nothing at all is sent if and only if there is none, and no focus
      notification if and only if none of them is in a state that notifies. */
  lemma {:induction false} QuietWhenInactive(s: AF, es: seq<Event>)
    requires !s.active && Calls(es) == 0
    ensures !Run(s, es).active
    ensures Run(s, es).sent == s.sent <==> NoneAnswered(es)
    ensures Focuses(Run(s, es).sent) >= Focuses(s.sent)
    ensures Focuses(Run(s, es).sent) == Focuses(s.sent) <==> NoneAnsweredFocus(es)
    decreases |es|
  {
    hide Focuses, Next, Answered, AnsweredFocus;
    if es != [] {
      InactiveStep(s, es[0]);
      QuietWhenInactive(Next(s, es[0]), es[1..]);
      SentGrows(Next(s, es[0]), es[1..]);
      assert es == [es[0]] + es[1..];
    }
  }

  /** What follows a cancellation before the next call, for any events. In a mode that has runs
      the cancellation ends the run, and then silence is exactly the absence of reports in a
      continuous mode: there a cancelled run no longer holds back the PASSIVE_* reports. In the
      other modes the cancellation does nothing at all. */
  lemma CancelSilences(s: AF, mode: Mode, es: seq<Event>)
    requires Calls(es) == 0
    ensures var r := Run(s, [CancelAutoFocus(mode)] + es);
            if mode.Other? then r == Run(s, es)
            else
              && (r.sent == s.sent <==> NoneAnswered(es))
              && (Focuses(r.sent) == Focuses(s.sent) <==> NoneAnsweredFocus(es))
  {
    var all := [CancelAutoFocus(mode)] + es;
    assert all[1..] == es;
    if !mode.Other? {
      QuietWhenInactive(Next(s, all[0]), es);
    }
  }

  /** So with a run active the modes in which a cancellation silences every sequence without
      reports in a continuous mode are exactly those that have runs. */
  lemma CancelSilencesModes(s: AF, mode: Mode)
    requires s.active
    ensures (forall es :: NoneAnswered(es) && Calls(es) == 0 ==> Run(s, [CancelAutoFocus(mode)] + es).sent == s.sent)
            <==> !mode.Other?
  {
    hide NoneAnswered;
    if mode.Other? {
      var locked := [Reported(false, Auto, Report(AF_FOCUSED_LOCKED, false))];
      assert NoneAnswered(locked) && Calls(locked) == 0 by { LockedReport(locked[0]); }
      CancelSilences(s, mode, locked);
      assert Run(s, locked) == Next(s, locked[0]) by { assert locked[1..] == []; }
      assert |Run(s, [CancelAutoFocus(mode)] + locked).sent| == |s.sent| + 1;
    } else {
      forall es | NoneAnswered(es) && Calls(es) == 0
        ensures Run(s, [CancelAutoFocus(mode)] + es).sent == s.sent
      {
        CancelSilences(s, mode, es);
      }
    }
  }

  lemma LockedReport(e: Event)
    requires e.Reported? && Single(e.mode)
    ensures NoneAnswered([e]) && Calls([e]) == 0
  {
    assert [e][1..] == [];
  }

  // ---------- What one run reports ----------

  predicate Ends(r: Report) { WentToInfinity(r) || Locked(r) }

  /** The first report that ends an active run, None if there is none. */
  function FirstEnd(rs: seq<Report>): Option<Report> {
    if rs == [] then None else if Ends(rs[0]) then Some(rs[0]) else FirstEnd(rs[1..])
  }

  function Reports(mode: Mode, rs: seq<Report>): (es: seq<Event>)
    ensures |es| == |rs| && forall i :: 0 <= i < |rs| ==> es[i] == Reported(false, mode, rs[i])
  {
    if rs == [] then [] else [Reported(false, mode, rs[0])] + Reports(mode, rs[1..])
  }

  /** Reports before the first end whose state is outside the enumeration. */
  function Strays(rs: seq<Report>): nat {
    if rs == [] || Ends(rs[0]) then 0
    else (if rs[0].state > AF_PASSIVE_UNFOCUSED then 1 else 0) + Strays(rs[1..])
  }

  function Failures(n: nat): seq<Note> { seq(n, _ => Focus(false)) }

  /** A run in AUTO or MACRO, for any reports: one failure notification for each report before the
      first end whose state is outside the enumeration, then one notification for the first
      report that ends the run, success for FOCUSED_LOCKED and for a switch to INFINITY, and
      nothing more; without such a report the run stays active. */
  lemma {:induction false} RunReportsFirstEnd(s: AF, mode: Mode, rs: seq<Report>)
    requires s.active && Single(mode)
    ensures Run(s, Reports(mode, rs)) ==
            match FirstEnd(rs)
            case None => AF(true, s.sent + Failures(Strays(rs)))
            case Some(r) => AF(false, s.sent + Failures(Strays(rs)) + [Focus(r.state != AF_NOT_FOCUSED_LOCKED)])
    decreases |rs|
  {
    if rs == [] {
      assert s.sent + Failures(0) == s.sent;
    } else {
      var es := Reports(mode, rs);
      assert es[1..] == Reports(mode, rs[1..]);
      if Ends(rs[0]) {
        assert NoneAnswered(es[1..]);
        ReportsNoCalls(mode, rs[1..]);
        QuietWhenInactive(Next(s, es[0]), es[1..]);
        assert s.sent + Failures(0) == s.sent;
      } else if rs[0].state > AF_PASSIVE_UNFOCUSED {
        RunReportsFirstEnd(Next(s, es[0]), mode, rs[1..]);
        var n := Strays(rs[1..]);
        assert s.sent + [Focus(false)] + Failures(n) == s.sent + Failures(n + 1);
      } else {
        assert Next(s, es[0]) == s;
        RunReportsFirstEnd(s, mode, rs[1..]);
      }
    }
  }

  /** With states of the enumeration only: exactly one notification, or none while the run goes on. */
  lemma KnownRunReportsOnce(s: AF, mode: Mode, rs: seq<Report>)
    requires s.active && Single(mode) && forall i :: 0 <= i < |rs| ==> rs[i].state <= AF_PASSIVE_UNFOCUSED
    ensures Run(s, Reports(mode, rs)) ==
            match FirstEnd(rs)
            case None => s
            case Some(r) => AF(false, s.sent + [Focus(r.state != AF_NOT_FOCUSED_LOCKED)])
  {
    RunReportsFirstEnd(s, mode, rs);
    NoStrays(rs);
    assert s.sent + Failures(0) == s.sent;
  }

  lemma {:induction false} NoStrays(rs: seq<Report>)
    requires forall i :: 0 <= i < |rs| ==> rs[i].state <= AF_PASSIVE_UNFOCUSED
    ensures Strays(rs) == 0
  {
    if rs != [] {
      NoStrays(rs[1..]);
    }
  }

  lemma {:induction false} ReportsNoCalls(mode: Mode, rs: seq<Report>)
    ensures Calls(Reports(mode, rs)) == 0
  {
    if rs != [] {
      assert Reports(mode, rs)[1..] == Reports(mode, rs[1..]);
      ReportsNoCalls(mode, rs[1..]);
    }
  }

  // ---------- What a call and a continuous report send ----------

  /** A call of autoFocus and the reports after it, in AUTO or MACRO. A call in a mode that has
      runs sends nothing itself; if it succeeds, whatever run was active before, the reports are
      those of one run, else they send nothing. A call in another mode sends a success at once;
      if that could not be sent, no run is active any more. */
  lemma CallThenReports(s: AF, mode: Mode, rc: int, later: Mode, rs: seq<Report>)
    requires Single(later)
    ensures var r := Run(s, [AutoFocus(mode, rc)] + Reports(later, rs));
            var sent := if mode == Other then s.sent + [Focus(true)] else s.sent;
            && (rc != 0 ==> r == AF(false, sent))
            && (rc == 0 && (mode != Other || s.active) ==>
                  r == match FirstEnd(rs)
                       case None => AF(true, sent + Failures(Strays(rs)))
                       case Some(e) => AF(false, sent + Failures(Strays(rs)) + [Focus(e.state != 5)]))
            && (rc == 0 && mode == Other && !s.active ==> r == AF(false, sent))
  {
    var es := [AutoFocus(mode, rc)] + Reports(later, rs);
    assert es[1..] == Reports(later, rs);
    var t := Next(s, es[0]);
    if t.active {
      RunReportsFirstEnd(t, later, rs);
    } else {
      ReportsNoCalls(later, rs);
      assert NoneAnswered(Reports(later, rs));
      QuietWhenInactive(t, Reports(later, rs));
    }
  }

  /** The notifications in a continuous mode, state by state (numbers as in the enumeration), the
      same in both modes: with no run active PASSIVE_FOCUSED and FOCUSED_LOCKED are successes and
      the other ends failures, each followed by the end of the movement; PASSIVE_SCAN is its
      beginning. With a run active only the PASSIVE_* states are held back. */
  lemma ContinuousNotes(active: bool, mode: Mode, r: Report)
    requires mode == ContinuousVideo || mode == ContinuousPicture
    ensures r.infinity && r.state == 0 ==> Notes(active, mode, r) == [Focus(false)]
    ensures !r.infinity || r.state != 0 ==>
              Notes(active, mode, r) ==
              if r.state == 1 then (if active then [] else [FocusMove(true)])
              else if r.state == 2 then (if active then [] else [Focus(true), FocusMove(false)])
              else if r.state == 4 then [Focus(true), FocusMove(false)]
              else if r.state == 5 then [Focus(false), FocusMove(false)]
              else if r.state == 6 then (if active then [] else [Focus(false), FocusMove(false)])
              else [FocusMove(false)]
  {
    assert [] + [FocusMove(true)] == [FocusMove(true)] && [] + [FocusMove(false)] == [FocusMove(false)];
  }

  /** What any report does in a continuous mode: its notifications are sent, and the run ends with
      a locked state or a switch to INFINITY; a secondary camera sends nothing. */
  lemma ContinuousReport(s: AF, mode: Mode, r: Report)
    requires mode == ContinuousVideo || mode == ContinuousPicture
    ensures Next(s, Reported(false, mode, r)) ==
            AF(s.active && r.state != 4 && r.state != 5 && !(r.infinity && r.state == 0),
               s.sent + Notes(s.active, mode, r))
    ensures Next(s, Reported(true, mode, r)) == s
  {
  }

  /** In the modes without runs a report sends nothing; a locked state still ends a run begun
      before, a switch to INFINITY does not. */
  lemma OtherReport(s: AF, r: Report)
    ensures Next(s, Reported(false, Other, r)) == AF(s.active && r.state != 4 && r.state != 5, s.sent)
    ensures Next(s, Reported(true, Other, r)) == s
  {
    assert s.sent + [] == s.sent;
  }
}
