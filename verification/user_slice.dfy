/** The `user` Redux slice (src/store/userSlice.ts): the signed-in user's
    profile and the loading flags of the `fetchUserProfile` thunk. The
    thunk body (storage and network) is not modelled; only its three
    lifecycle actions are. */
module UserSlice {
  import opened Wrappers

  datatype User = User(id: string, email: string, firstName: string, lastName: string, createdAt: string)

  datatype UserState = UserState(data: Option<User>, loading: bool, error: Option<string>)

  /** The slice's `initialState`. */
  const Initial: UserState := UserState(None, false, None)

  /** No profile, not loading, no error. */
  lemma InitialIsEmpty()
    ensures Initial.data.None? && !Initial.loading && Initial.error.None?
  {
  }

  /** The actions the slice reacts to. */
  datatype Event =
    | Pending
    | Fulfilled(payload: User)
    | Rejected(message: string)
    | ClearUserData

  /** `fetchUserProfile.pending`. */
  function OnPending(s: UserState): (r: UserState)
    ensures r.loading && r.error.None? && r.data == s.data
  {
    s.(loading := true, error := None)
  }

  /** `fetchUserProfile.fulfilled`: the error is deliberately left as it was. */
  function OnFulfilled(s: UserState, payload: User): (r: UserState)
    ensures !r.loading && r.data == Some(payload) && r.error == s.error
  {
    s.(loading := false, data := Some(payload))
  }

  /** `fetchUserProfile.rejected`: the profile is kept. */
  function OnRejected(s: UserState, message: string): (r: UserState)
    ensures !r.loading && r.error == Some(message) && r.data == s.data
  {
    s.(loading := false, error := Some(message))
  }

  /** The reducer `clearUserData`: the loading flag is not touched. */
  function OnClearUserData(s: UserState): (r: UserState)
    ensures r.data.None? && r.error.None? && r.loading == s.loading
  {
    s.(data := None, error := None)
  }

  function Reduce(s: UserState, e: Event): UserState {
    match e
    case Pending => OnPending(s)
    case Fulfilled(u) => OnFulfilled(s, u)
    case Rejected(m) => OnRejected(s, m)
    case ClearUserData => OnClearUserData(s)
  }

  function Run(s: UserState, events: seq<Event>): UserState
    decreases |events|
  {
    if events == [] then s else Run(Reduce(s, events[0]), events[1..])
  }

  /** The last thunk lifecycle event in `events`, skipping `clearUserData`. */
  function LastLifecycle(events: seq<Event>): Option<Event>
    decreases |events|
  {
    if events == [] then None
    else if events[|events| - 1].ClearUserData? then LastLifecycle(events[..|events| - 1])
    else Some(events[|events| - 1])
  }

  lemma RunSnoc(s: UserState, events: seq<Event>, e: Event)
    ensures Run(s, events + [e]) == Reduce(Run(s, events), e)
    decreases |events|
  {
    if events != [] {
      assert (events + [e])[1..] == events[1..] + [e];
      RunSnoc(Reduce(s, events[0]), events[1..], e);
    }
  }

  /** From the initial state, the profile is loading exactly when the last
      lifecycle event was `pending`. */
  lemma {:induction false} LoadingIffLastPending(events: seq<Event>)
    ensures Run(Initial, events).loading <==> LastLifecycle(events) == Some(Pending)
    decreases |events|
  {
    if events != [] {
      var init := events[..|events| - 1];
      var e := events[|events| - 1];
      assert events == init + [e];
      RunSnoc(Initial, init, e);
      LoadingIffLastPending(init);
    }
  }

  /** From the initial state, a present error is the message of some
      rejection in the history: no other event puts one there. */
  lemma {:induction false} ErrorComesFromRejection(events: seq<Event>)
    ensures Run(Initial, events).error.Some? ==>
              exists i :: 0 <= i < |events| && events[i] == Rejected(Run(Initial, events).error.value)
    decreases |events|
  {
    if events != [] {
      var init := events[..|events| - 1];
      var e := events[|events| - 1];
      assert events == init + [e];
      RunSnoc(Initial, init, e);
      ErrorComesFromRejection(init);
      var r := Run(Initial, events);
      if r.error.Some? && !e.Rejected? {
        var i :| 0 <= i < |init| && init[i] == Rejected(Run(Initial, init).error.value);
        assert events[i] == init[i];
      } else if r.error.Some? {
        assert events[|events| - 1] == Rejected(r.error.value);
      }
    }
  }
}
