/**
 * The in-memory session store (src/services/sessionService.js): one session
 * per phone number, created, updated field by field, and cleared.
 */
module SessionStore {
  import opened Wrappers
  import opened Calendar
  import opened Catalog
  import opened SessionRecordModel

  /** The session object the store keeps. `selectedTimeRange` is not set by
      createSession; it appears once an update supplies it. */
  datatype Session = Session(
    phoneNumber: string,
    userName: string,
    step: Step,
    selectedService: Option<Service>,
    selectedDate: Option<Date>,
    selectedTime: Option<string>,
    selectedTimeRange: Option<string>,
    createdAt: nat)

  /** The `updates` object of updateSession: Some for each field it carries. */
  datatype SessionUpdate = SessionUpdate(
    step: Option<Step>,
    selectedService: Option<Service>,
    selectedDate: Option<Date>,
    selectedTimeRange: Option<string>)

  /** The session createSession stores: step `initial`, nothing selected. */
  function NewSession(phoneNumber: string, userName: string, nowMs: nat): (s: Session)
    ensures s.phoneNumber == phoneNumber && s.userName == userName && s.createdAt == nowMs
    ensures s.step == Initial
    ensures s.selectedService.None? && s.selectedDate.None? && s.selectedTime.None?
    ensures s.selectedTimeRange.None?
  {
    Session(phoneNumber, userName, Initial, None, None, None, None, nowMs)
  }

  /** { ...session, ...updates } */
  function ApplyUpdate(s: Session, u: SessionUpdate): (r: Session)
    ensures r.step == (if u.step.Some? then u.step.value else s.step)
    ensures r.selectedService == (if u.selectedService.Some? then u.selectedService else s.selectedService)
    ensures r.selectedDate == (if u.selectedDate.Some? then u.selectedDate else s.selectedDate)
    ensures r.selectedTimeRange == (if u.selectedTimeRange.Some? then u.selectedTimeRange else s.selectedTimeRange)
    ensures r.phoneNumber == s.phoneNumber && r.userName == s.userName
    ensures r.selectedTime == s.selectedTime && r.createdAt == s.createdAt
  {
    var r := s.(step := OrElse(u.step, s.step));
    var r := if u.selectedService.Some? then r.(selectedService := u.selectedService) else r;
    var r := if u.selectedDate.Some? then r.(selectedDate := u.selectedDate) else r;
    if u.selectedTimeRange.Some? then r.(selectedTimeRange := u.selectedTimeRange) else r
  }

  /** An update with no fields changes nothing. */
  lemma EmptyUpdateIsIdentity(s: Session)
    ensures ApplyUpdate(s, SessionUpdate(None, None, None, None)) == s
  {
  }

  // The store's map after each operation.

  function Created(sessions: map<string, Session>, phoneNumber: string, userName: string, nowMs: nat): map<string, Session>
  {
    sessions[phoneNumber := NewSession(phoneNumber, userName, nowMs)]
  }

  function Updated(sessions: map<string, Session>, phoneNumber: string, u: SessionUpdate): Result<map<string, Session>, string>
  {
    if phoneNumber in sessions then Ok(sessions[phoneNumber := ApplyUpdate(sessions[phoneNumber], u)])
    else Err("Session not found")
  }

  function Cleared(sessions: map<string, Session>, phoneNumber: string): map<string, Session>
  {
    sessions - {phoneNumber}
  }

  /** createSession replaces any session of that phone with a fresh one and
      leaves every other phone's entry alone. */
  lemma CreatedSpec(sessions: map<string, Session>, p: string, name: string, nowMs: nat, q: string)
    ensures var m := Created(sessions, p, name, nowMs);
      && p in m && m[p] == NewSession(p, name, nowMs)
      && m.Keys == sessions.Keys + {p}
      && (q != p ==> (q in m <==> q in sessions) && (q in sessions ==> m[q] == sessions[q]))
  {
  }

  /** updateSession fails on an absent phone and otherwise rewrites only that
      phone's entry. */
  lemma UpdatedSpec(sessions: map<string, Session>, p: string, u: SessionUpdate, q: string)
    ensures Updated(sessions, p, u).Err? <==> p !in sessions
    ensures Updated(sessions, p, u).Ok? ==>
      var m := Updated(sessions, p, u).value;
      && m.Keys == sessions.Keys
      && m[p] == ApplyUpdate(sessions[p], u)
      && (q != p && q in sessions ==> m[q] == sessions[q])
  {
  }

  /** After clearSession(p) there is no session for p, the others are kept,
      and clearing twice is the same as clearing once. */
  lemma ClearedSpec(sessions: map<string, Session>, p: string, q: string)
    ensures p !in Cleared(sessions, p)
    ensures q != p ==> (q in Cleared(sessions, p) <==> q in sessions)
    ensures q != p && q in sessions ==> Cleared(sessions, p)[q] == sessions[q]
    ensures Cleared(Cleared(sessions, p), p) == Cleared(sessions, p)
  {
  }

  class SessionService {
    var sessions: map<string, Session>

    constructor()
      ensures sessions == map[]
    {
      sessions := map[];
    }

    /** getSession: the session stored for the phone, or null. */
    function GetSession(phoneNumber: string): (r: Option<Session>)
      reads this
      ensures r.None? <==> phoneNumber !in sessions
      ensures r.Some? ==> r.value == sessions[phoneNumber]
    {
      if phoneNumber in sessions then Some(sessions[phoneNumber]) else None
    }

    method CreateSession(phoneNumber: string, userName: string, nowMs: nat) returns (s: Session)
      modifies this
      ensures s == NewSession(phoneNumber, userName, nowMs)
      ensures sessions == Created(old(sessions), phoneNumber, userName, nowMs)
    {
      s := Session(phoneNumber, userName, Initial, None, None, None, None, nowMs);
      sessions := sessions[phoneNumber := s];
    }

    /** updateSession: throws "Session not found" (an Err here) when the phone
        has no session; otherwise stores and returns the merged session. */
    method UpdateSession(phoneNumber: string, updates: SessionUpdate) returns (r: Result<Session, string>)
      modifies this
      ensures Updated(old(sessions), phoneNumber, updates).Err? ==>
        r == Err("Session not found") && sessions == old(sessions)
      ensures Updated(old(sessions), phoneNumber, updates).Ok? ==>
        sessions == Updated(old(sessions), phoneNumber, updates).value &&
        r == Ok(sessions[phoneNumber])
    {
      var session := GetSession(phoneNumber);
      if session.None? {
        return Err("Session not found");
      }
      var updated := ApplyUpdate(session.value, updates);
      sessions := sessions[phoneNumber := updated];
      r := Ok(updated);
    }

    method ClearSession(phoneNumber: string)
      modifies this
      ensures sessions == Cleared(old(sessions), phoneNumber)
    {
      sessions := sessions - {phoneNumber};
    }
  }
}
