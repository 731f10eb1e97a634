/** The arrival/departure state machine of `handle_incoming_location_update`
    as a function on values, and the `respond_location` query over the
    history log. The class in module Bot applies `Update` to its fields. */
module Location {
  import opened Types
  import Elapsed

  /** The user every location event is recorded for. */
  const User := "Enfors"

  /** `self.location`, `self.arrived` and the rows of LOCATION_HISTORY, oldest first. */
  datatype LocState = LocState(location: Option<Value>, arrived: bool, history: seq<Record>)

  /** One LOCATION_UPDATE payload with the clock reading at which it is handled. */
  datatype LocationEvent = LocationEvent(location: Value, arrived: bool, time: int)

  /** An event is accepted unless it is a departure from somewhere other than
      the place the user is currently recorded as having arrived at. */
  predicate Accepts(s: LocState, location: Value, arrived: bool) {
    !(!arrived && s.arrived && s.location != Some(location))
  }

  /** `self.arrived` holds only right after an accepted arrival: the last
      history row is then the arrival at `self.location`. */
  predicate Consistent(s: LocState) {
    s.arrived ==>
      s.location.Some? && |s.history| > 0
      && s.history[|s.history| - 1] == Record(User, s.location.value, Arrived, s.history[|s.history| - 1].time)
  }

  /** The state after one location update. */
  function Update(s: LocState, location: Value, arrived: bool, now: int): (r: LocState)
    ensures |r.history| == |s.history| + (if Accepts(s, location, arrived) then 1 else 0)
    ensures r.history[..|s.history|] == s.history
    ensures Accepts(s, location, arrived) ==>
      r.history[|s.history|] == Record(User, location, if arrived then Arrived else Left, now)
      && r.arrived == arrived
      && r.location == (if arrived then Some(location) else s.location)
    ensures !Accepts(s, location, arrived) ==> r == s
    ensures Consistent(s) ==> Consistent(r)
  {
    if arrived then
      LocState(Some(location), true, s.history + [Record(User, location, Arrived, now)])
    else if !s.arrived || Some(location) == s.location then
      LocState(s.location, false, s.history + [Record(User, location, Left, now)])
    else
      s
  }

  /** The state after a sequence of updates, handled in order. */
  function Run(s: LocState, events: seq<LocationEvent>): LocState
    decreases |events|
  {
    if events == [] then s
    else Run(Update(s, events[0].location, events[0].arrived, events[0].time), events[1..])
  }

  /** The history is append-only: earlier rows never change, and each update
      adds at most one row. */
  lemma {:induction false} RunAppendsOnly(s: LocState, events: seq<LocationEvent>)
    ensures |s.history| <= |Run(s, events).history| <= |s.history| + |events|
    ensures Run(s, events).history[..|s.history|] == s.history
    decreases |events|
  {
    if events != [] {
      var e := events[0];
      var s' := Update(s, e.location, e.arrived, e.time);
      RunAppendsOnly(s', events[1..]);
      var h := Run(s, events).history;
      assert h[..|s.history|] == h[..|s'.history|][..|s.history|];
    }
  }

  /** `Consistent` holds after any sequence of updates from a state where it holds. */
  lemma {:induction false} RunKeepsConsistent(s: LocState, events: seq<LocationEvent>)
    requires Consistent(s)
    ensures Consistent(Run(s, events))
    decreases |events|
  {
    if events != [] {
      RunKeepsConsistent(Update(s, events[0].location, events[0].arrived, events[0].time), events[1..]);
    }
  }

  /** The state at start-up: no location, not arrived, over what the table already holds. */
  function Initial(persisted: seq<Record>): (r: LocState)
    ensures Consistent(r) && r.location == None && !r.arrived && r.history == persisted
  {
    LocState(None, false, persisted)
  }

  /** Arriving at Home and then leaving Home logs two rows and ends not arrived. */
  lemma ArriveThenLeaveExample(t1: int, t2: int)
    ensures var r := Run(Initial([]), [LocationEvent(Str("Home"), true, t1), LocationEvent(Str("Home"), false, t2)]);
      r == LocState(Some(Str("Home")), false,
                    [Record(User, Str("Home"), Arrived, t1), Record(User, Str("Home"), Left, t2)])
  {
    var e1, e2 := LocationEvent(Str("Home"), true, t1), LocationEvent(Str("Home"), false, t2);
    var s1 := Update(Initial([]), Str("Home"), true, t1);
    assert s1 == LocState(Some(Str("Home")), true, [Record(User, Str("Home"), Arrived, t1)]);
    assert [e1, e2][1..] == [e2] && [e2][1..] == [];
    assert Run(Initial([]), [e1, e2]) == Run(s1, [e2]);
    assert Run(s1, [e2]) == Run(Update(s1, Str("Home"), false, t2), []);
  }

  /** A late departure from Work after arriving at Home is dropped. */
  lemma StaleDepartureExample(t1: int, t2: int)
    ensures var r := Run(Initial([]), [LocationEvent(Str("Home"), true, t1), LocationEvent(Str("Work"), false, t2)]);
      r == LocState(Some(Str("Home")), true, [Record(User, Str("Home"), Arrived, t1)])
  {
    var e1, e2 := LocationEvent(Str("Home"), true, t1), LocationEvent(Str("Work"), false, t2);
    var s1 := Update(Initial([]), Str("Home"), true, t1);
    assert s1 == LocState(Some(Str("Home")), true, [Record(User, Str("Home"), Arrived, t1)]);
    assert [e1, e2][1..] == [e2] && [e2][1..] == [];
    assert Run(Initial([]), [e1, e2]) == Run(s1, [e2]);
    assert Run(s1, [e2]) == Run(Update(s1, Str("Work"), false, t2), []);
    assert !Accepts(s1, Str("Work"), false);
  }

  /** `"%s"` of a location read back from LOCATION_HISTORY: sqlite3 stores
      a bool as the INTEGER 1 or 0, and a str as TEXT. */
  function StoredText(v: Value): string {
    match v
    case Str(s) => s
    case Flag(b) => if b then "1" else "0"
  }

  /** `respond_location`: describes the newest history row and how long ago it was. */
  function RespondLocation(history: seq<Record>, now: int): (r: Result<string>)
    ensures r.Err? <==> history == []
    ensures r.Err? ==> r.error == EmptyHistory
  {
    if history == [] then Err(EmptyHistory)
    else
      var row := history[|history| - 1];
      var ago := Elapsed.DiffString(row.time, now);
      if row.event == Arrived then
        Ok(row.user + " " + EventName(row.event) + " at " + StoredText(row.location) + " " + ago + ".")
      else
        Ok(row.user + " " + EventName(row.event) + " " + StoredText(row.location) + " " + ago + ".")
  }

  /** While arrived, the location report names the current location as an arrival. */
  lemma ReportWhileArrived(s: LocState, now: int)
    requires Consistent(s) && s.arrived
    ensures RespondLocation(s.history, now)
      == Ok(User + " arrived at " + StoredText(s.location.value) + " "
            + Elapsed.DiffString(s.history[|s.history| - 1].time, now) + ".")
  {
    assert User + " " + EventName(Arrived) + " at " == User + " arrived at ";
  }

  /** A location sent as the bool True is stored as 1 and reported as 1. */
  lemma BoolLocationExample(t: int)
    ensures RespondLocation(Update(Initial([]), Flag(true), true, t).history, t)
      == Ok("Enfors arrived at 1 just now.")
  {
    var h := Update(Initial([]), Flag(true), true, t).history;
    assert h == [Record(User, Flag(true), Arrived, t)];
    assert Elapsed.DiffString(t, t) == "just now";
    assert StoredText(Flag(true)) == "1";
    assert User + " " + EventName(Arrived) + " at " + "1" + " " + "just now" + "."
      == "Enfors arrived at 1 just now.";
  }

  /** After an accepted departure, the report says the user left that place. */
  lemma ReportAfterDeparture(s: LocState, location: Value, now: int, later: int)
    requires Accepts(s, location, false)
    ensures RespondLocation(Update(s, location, false, now).history, later)
      == Ok(User + " left " + StoredText(location) + " " + Elapsed.DiffString(now, later) + ".")
  {
    var h := Update(s, location, false, now).history;
    assert h[|h| - 1] == Record(User, location, Left, now);
    assert User + " " + EventName(Left) + " " == User + " left ";
  }
}
