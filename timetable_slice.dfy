/** The timetable slice of the application store: the loaded timetable
    document and the status of the request that fetches it. */
module TimetableSlice {
  import opened Common

  /** The timetable document; only its title is looked at, the rest is
      carried as opaque data. */
  datatype Timetable = Timetable(title: Option<string>, data: map<string, string>)

  datatype Loading = Idle | Pending

  datatype State = State(timetable: Timetable, loading: Loading, error: Option<string>, loaded: bool)

  /** The actions the slice reduces: its own `updateTimetable` and the three
      outcomes of the `getTimetable` request. */
  datatype Action =
    | UpdateTimetable(payload: Timetable)
    | GetPending
    | GetFulfilled(payload: Timetable)
    | GetRejected

  const ErrorMessage: string := "Error"

  /** No title, idle, no error, not loaded. */
  const Initial := State(Timetable(None, map[]), Idle, None, false)

  /** The slice reducer. `pending` marks a request as under way and changes
      nothing else (a second one while it is under way changes nothing at
      all); a completion is only taken while a request is pending. */
  function Reduce(s: State, a: Action): (r: State)
    ensures s.loaded ==> r.loaded
    ensures s.error.Some? ==> r.error.Some?
    ensures a.GetPending? ==> r.loading.Pending?
    ensures a.GetPending? ==> r == s.(loading := Pending)
    ensures a.GetFulfilled? || a.GetRejected? ==> r.loading.Idle?
    ensures a.UpdateTimetable? ==> r == s.(timetable := a.payload)
    ensures r.timetable != s.timetable ==> a.UpdateTimetable? || (a.GetFulfilled? && s.loading.Pending?)
  {
    match a
    case UpdateTimetable(payload) => s.(timetable := payload)
    case GetPending => if s.loading.Idle? then s.(loading := Pending) else s
    case GetFulfilled(payload) =>
      if s.loading.Pending? then s.(timetable := payload, loading := Idle, loaded := true) else s
    case GetRejected =>
      if s.loading.Pending? then s.(loading := Idle, error := Some(ErrorMessage)) else s
  }

  /** The state after a sequence of actions. */
  function Run(s: State, actions: seq<Action>): State
    decreases |actions|
  {
    if |actions| == 0 then s else Run(Reduce(s, actions[0]), actions[1..])
  }

  /** Once loaded, the slice stays loaded. */
  lemma {:induction false} LoadedStays(s: State, actions: seq<Action>)
    requires s.loaded
    ensures Run(s, actions).loaded
    decreases |actions|
  {
    if |actions| > 0 {
      LoadedStays(Reduce(s, actions[0]), actions[1..]);
    }
  }

  /** An error, once reported, is never cleared. */
  lemma {:induction false} ErrorStays(s: State, actions: seq<Action>)
    requires s.error.Some?
    ensures Run(s, actions).error.Some?
    decreases |actions|
  {
    if |actions| > 0 {
      ErrorStays(Reduce(s, actions[0]), actions[1..]);
    }
  }

  /** The slice becomes loaded only through a response accepted while a
      request was pending. */
  lemma {:induction false} LoadedOnlyByFulfilled(s: State, actions: seq<Action>)
    requires !s.loaded && Run(s, actions).loaded
    ensures exists i :: 0 <= i < |actions| && actions[i].GetFulfilled?
    decreases |actions|
  {
    if |actions| > 0 && !actions[0].GetFulfilled? {
      var next := Reduce(s, actions[0]);
      LoadedOnlyByFulfilled(next, actions[1..]);
      var i :| 0 <= i < |actions[1..]| && actions[1..][i].GetFulfilled?;
      assert actions[i + 1].GetFulfilled?;
    }
  }

  /** A completion that arrives while nothing is pending is ignored. */
  lemma StaleCompletionIgnored(s: State, a: Action)
    requires s.loading.Idle? && (a.GetFulfilled? || a.GetRejected?)
    ensures Reduce(s, a) == s
  {
  }

  /** One request cycle from idle: the payload becomes the timetable and the
      slice is loaded, idle and keeps its error status. */
  lemma {:induction false} RequestCycle(s: State, payload: Timetable)
    requires s.loading.Idle?
    ensures Run(s, [GetPending, GetFulfilled(payload)]) == s.(timetable := payload, loaded := true)
  {
    var actions := [GetPending, GetFulfilled(payload)];
    var asked := Reduce(s, GetPending);
    assert actions[1..] == [GetFulfilled(payload)];
    assert Run(s, actions) == Run(asked, [GetFulfilled(payload)]);
    assert Run(asked, [GetFulfilled(payload)]) == Reduce(asked, GetFulfilled(payload));
  }

  /** A failed request from idle leaves the timetable and the loaded flag
      alone and records the error. */
  lemma {:induction false} FailedCycle(s: State)
    requires s.loading.Idle?
    ensures Run(s, [GetPending, GetRejected]) == s.(error := Some(ErrorMessage))
  {
    assert Run(s, [GetPending, GetRejected]) == Run(Reduce(Reduce(s, GetPending), GetRejected), []);
  }

  /** The slice as the store holds it, changed in place by the reducers. */
  class Slice {
    var timetable: Timetable
    var loading: Loading
    var error: Option<string>
    var loaded: bool

    function Current(): State
      reads this
    {
      State(timetable, loading, error, loaded)
    }

    constructor ()
      ensures Current() == Initial
    {
      timetable := Timetable(None, map[]);
      loading := Idle;
      error := None;
      loaded := false;
    }

    method UpdateTimetable(payload: Timetable)
      modifies this
      ensures Current() == Reduce(old(Current()), Action.UpdateTimetable(payload))
    {
      timetable := payload;
    }

    method Pending()
      modifies this
      ensures Current() == Reduce(old(Current()), GetPending)
    {
      if loading.Idle? {
        loading := Loading.Pending;
      }
    }

    method Fulfilled(payload: Timetable)
      modifies this
      ensures Current() == Reduce(old(Current()), GetFulfilled(payload))
    {
      if loading.Pending? {
        timetable := payload;
        loading := Idle;
        loaded := true;
      }
    }

    method Rejected()
      modifies this
      ensures Current() == Reduce(old(Current()), GetRejected)
    {
      if loading.Pending? {
        loading := Idle;
        error := Some(ErrorMessage);
      }
    }
  }
}
