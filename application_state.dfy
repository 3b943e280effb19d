/** Utils/ApplicationStateExtension.cs: throttled reads and writes of the web
    application's shared key/value state. Next to every value `name` the
    helpers keep the time of its last write under `name + "LastSync"`, and a
    write only happens when that time is missing or at least
    `syncCheckMinutes` old. Time is a parameter, in whole minutes; the lock
    around each helper is left out. */
module ApplicationStates {
  import opened Wrappers

  /** What the state holds under a key: a last-write time, an object, or an
      explicit null. A missing key reads as null too. */
  datatype Entry<T> = Stamp(time: int) | Stored(value: T) | Null

  function SyncKey(objectName: string): string {
    objectName + "LastSync"
  }

  lemma SyncKeyDiffers(objectName: string)
    ensures SyncKey(objectName) != objectName
  {
    assert |SyncKey(objectName)| == |objectName| + 8;
  }

  /** The throttle test: is a write due? The stored time is cast to
      `DateTime`, so a last-sync entry holding anything else throws. */
  function WriteDue<T>(state: map<string, Entry<T>>, objectName: string, syncCheckMinutes: int, now: int)
    : (r: Result<bool>)
    ensures r.Throws? <==>
      SyncKey(objectName) in state && !state[SyncKey(objectName)].Stamp? && !state[SyncKey(objectName)].Null?
    ensures r.Throws? ==> r.error == InvalidCast
    ensures r.Ok? ==> (r.value <==>
      || SyncKey(objectName) !in state
      || state[SyncKey(objectName)].Null?
      || now - state[SyncKey(objectName)].time >= syncCheckMinutes)
  {
    var key := SyncKey(objectName);
    if key !in state || state[key].Null? then Ok(true)
    else if !state[key].Stamp? then Throws(InvalidCast)
    else Ok(now - state[key].time >= syncCheckMinutes)
  }

  /** The state `SetApplicationState` leaves: when a write is due, the time
      now and the value; otherwise the state as it was. */
  function AfterSet<T>(
    state: map<string, Entry<T>>, objectName: string, objectValue: Entry<T>, syncCheckMinutes: int, now: int)
    : (r: Result<map<string, Entry<T>>>)
    ensures r.Throws? <==> WriteDue(state, objectName, syncCheckMinutes, now).Throws?
  {
    var due :- WriteDue(state, objectName, syncCheckMinutes, now);
    if due then Ok(state[SyncKey(objectName) := Stamp(now)][objectName := objectValue]) else Ok(state)
  }

  /** The state `GetSetApplicationState` leaves: when a write is due, the time
      now, and the value only when one was given. */
  function AfterGetSet<T>(
    state: map<string, Entry<T>>, objectName: string, objectValue: Option<T>, syncCheckMinutes: int, now: int)
    : (r: Result<map<string, Entry<T>>>)
    ensures r.Throws? <==> WriteDue(state, objectName, syncCheckMinutes, now).Throws?
  {
    var due :- WriteDue(state, objectName, syncCheckMinutes, now);
    if !due then Ok(state)
    else if objectValue.None? then Ok(state[SyncKey(objectName) := Stamp(now)])
    else Ok(state[SyncKey(objectName) := Stamp(now)][objectName := Stored(objectValue.value)])
  }

  /** Reading `(T)appState[name]`: null or missing reads as `default(T)`
      (`None`), an object of type `T` as itself, and a time as a failed
      cast. */
  function Read<T>(state: map<string, Entry<T>>, objectName: string): (r: Result<Option<T>>)
    ensures objectName !in state ==> r == Ok(None)
    ensures objectName in state ==> match state[objectName]
      case Stored(v) => r == Ok(Some(v))
      case Null => r == Ok(None)
      case Stamp(_) => r == Throws(InvalidCast)
  {
    if objectName !in state || state[objectName].Null? then Ok(None)
    else if state[objectName].Stamp? then Throws(InvalidCast)
    else Ok(Some(state[objectName].value))
  }

  /** A write touches the value and its last-sync time and nothing else. */
  lemma AfterSetTouchesTwoKeys<T>(
    state: map<string, Entry<T>>, objectName: string, objectValue: Entry<T>, syncCheckMinutes: int, now: int)
    requires AfterSet(state, objectName, objectValue, syncCheckMinutes, now).Ok?
    ensures var after := AfterSet(state, objectName, objectValue, syncCheckMinutes, now).value;
      forall k :: k != objectName && k != SyncKey(objectName) ==>
        (k in after <==> k in state) && (k in state ==> after[k] == state[k])
  {
  }

  /** `SetApplicationState` writes exactly when the write is due: then the
      value and the time now are stored; otherwise nothing changes. */
  lemma {:induction false} AfterSetWritesWhenDue<T>(
    state: map<string, Entry<T>>, objectName: string, objectValue: Entry<T>, syncCheckMinutes: int, now: int)
    requires WriteDue(state, objectName, syncCheckMinutes, now).Ok?
    ensures var after := AfterSet(state, objectName, objectValue, syncCheckMinutes, now).value;
      if WriteDue(state, objectName, syncCheckMinutes, now).value then
        after[objectName] == objectValue && after[SyncKey(objectName)] == Stamp(now)
      else after == state
  {
    SyncKeyDiffers(objectName);
  }

  /** `GetSetApplicationState` refreshes the time whenever a write is due,
      replaces the value only when one is given, and touches no other key. */
  lemma {:induction false} AfterGetSetRefreshes<T>(
    state: map<string, Entry<T>>, objectName: string, objectValue: Option<T>, syncCheckMinutes: int, now: int)
    requires WriteDue(state, objectName, syncCheckMinutes, now).Ok?
    ensures var after := AfterGetSet(state, objectName, objectValue, syncCheckMinutes, now).value;
      && (WriteDue(state, objectName, syncCheckMinutes, now).value ==> after[SyncKey(objectName)] == Stamp(now))
      && (WriteDue(state, objectName, syncCheckMinutes, now).value && objectValue.Some? ==>
            after[objectName] == Stored(objectValue.value))
      && (!WriteDue(state, objectName, syncCheckMinutes, now).value || objectValue.None? ==>
            (objectName in after <==> objectName in state)
            && (objectName in state ==> after[objectName] == state[objectName]))
      && forall k :: k != objectName && k != SyncKey(objectName) ==>
           (k in after <==> k in state) && (k in state ==> after[k] == state[k])
  {
    SyncKeyDiffers(objectName);
  }

  /** A due `GetSetApplicationState` with a value reads that value back. */
  lemma GetSetReadsBack<T>(
    state: map<string, Entry<T>>, objectName: string, value: T, syncCheckMinutes: int, now: int)
    requires WriteDue(state, objectName, syncCheckMinutes, now) == Ok(true)
    ensures Read(AfterGetSet(state, objectName, Some(value), syncCheckMinutes, now).value, objectName) == Ok(Some(value))
  {
  }

  /** `HttpContext.Current.Application`. */
  class ApplicationState<T> {
    var state: map<string, Entry<T>>

    constructor()
      ensures state == map[]
    {
      state := map[];
    }

    /** `SetApplicationState`. */
    method SetApplicationState(objectName: string, objectValue: Entry<T>, syncCheckMinutes: int, now: int)
      returns (o: Outcome)
      modifies this
      ensures var after := AfterSet(old(state), objectName, objectValue, syncCheckMinutes, now);
        && (after.Throws? ==> o == Fail(after.error) && state == old(state))
        && (after.Ok? ==> o == Pass && state == after.value)
    {
      var due := WriteDue(state, objectName, syncCheckMinutes, now);
      if due.Throws? {
        return Fail(due.error);
      }
      if due.value {
        state := state[SyncKey(objectName) := Stamp(now)];
        state := state[objectName := objectValue];
      }
      return Pass;
    }

    /** `GetSetApplicationState<T>`: the throttled write, then the read. */
    method GetSetApplicationState(objectName: string, objectValue: Option<T>, syncCheckMinutes: int, now: int)
      returns (r: Result<Option<T>>)
      modifies this
      ensures var after := AfterGetSet(old(state), objectName, objectValue, syncCheckMinutes, now);
        && (after.Throws? ==> r == Throws(after.error) && state == old(state))
        && (after.Ok? ==> state == after.value && r == Read(after.value, objectName))
    {
      var due := WriteDue(state, objectName, syncCheckMinutes, now);
      if due.Throws? {
        return Throws(due.error);
      }
      if due.value {
        state := state[SyncKey(objectName) := Stamp(now)];
        if objectValue.Some? {
          state := state[objectName := Stored(objectValue.value)];
        }
      }
      r := Read(state, objectName);
    }

    /** `GetApplicationState<T>`: a read that leaves the state as it is. */
    function GetApplicationState(objectName: string): (r: Result<Option<T>>)
      reads this
      ensures r == Read(state, objectName)
    {
      Read(state, objectName)
    }
  }
}
