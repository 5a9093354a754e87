/** The session store behind `useAuth` (src/lib/AuthContext.js): the signed-in user,
    the cached profile row and the loading flag. Each backend answer is a parameter,
    and each handler runs to completion before the next one starts. */
module Session {
  import opened Outcomes

  datatype User = User(id: string, email: string)

  /** A `profiles` row; a column may be null. */
  datatype Profile = Profile(id: string, fullName: Option<string>, playHand: Option<string>, tennisLevel: Option<string>)

  datatype SessionState = SessionState(user: Option<User>, profile: Option<Profile>, loading: bool)

  function Initial(): (st: SessionState)
    ensures st.user.None? && st.profile.None? && st.loading
  {
    SessionState(None, None, true)
  }

  /** The answer of `profiles.select('*').eq('id', userId).single()`: `Ok(None)` is an
      answer without an error that still carries no row. */
  type ProfileReply = Reply<Option<Profile>>

  /** `fetchProfile`: with an empty id nothing is asked; the cached profile is replaced
      only by a row that came back without an error, and otherwise kept. */
  function FetchProfile(profile: Option<Profile>, userId: string, reply: ProfileReply): (r: Option<Profile>)
    ensures userId == "" ==> r == profile
    ensures userId != "" && reply.Ok? && reply.data.Some? ==> r == reply.data
    ensures !(reply.Ok? && reply.data.Some?) ==> r == profile
  {
    if userId == "" then profile
    else match reply
      case Ok(Some(p)) => Some(p)
      case _ => profile
  }

  /** `loadSession`: the user comes from the stored session; the profile is fetched only
      when there is one; `loading` ends false. */
  function LoadSession(st: SessionState, session: Option<User>, reply: ProfileReply): (r: SessionState)
    ensures r.user == session && !r.loading
    ensures session.None? ==> r.profile == st.profile
    ensures session.Some? && session.value.id != "" && reply.Ok? && reply.data.Some? ==> r.profile == reply.data
    ensures session.Some? && !(reply.Ok? && reply.data.Some?) ==> r.profile == st.profile
    ensures r.profile == st.profile || (reply.Ok? && r.profile == reply.data)
  {
    match session
    case None => SessionState(None, st.profile, false)
    case Some(u) => SessionState(session, FetchProfile(st.profile, u.id, reply), false)
  }

  /** The `onAuthStateChange` handler: a session without a user clears user and profile;
      with a user the profile is fetched again, and a failed fetch keeps the previous
      profile. `loading` ends false either way. */
  function OnAuthStateChange(st: SessionState, session: Option<User>, reply: ProfileReply): (r: SessionState)
    ensures r.user == session && !r.loading
    ensures session.None? ==> r.profile.None?
    ensures session.Some? && session.value.id != "" && reply.Ok? && reply.data.Some? ==> r.profile == reply.data
    ensures session.Some? && !(reply.Ok? && reply.data.Some?) ==> r.profile == st.profile
  {
    match session
    case None => SessionState(None, None, false)
    case Some(u) => SessionState(session, FetchProfile(st.profile, u.id, reply), false)
  }

  /** How `signIn` and `signUp` end: the promise resolves, or rejects with the backend's error. */
  datatype AuthOutcome = Resolved | Raised(message: string)

  /** `signIn`: raises exactly the error the password sign-in reported. */
  function SignIn(reply: Reply<()>): (r: AuthOutcome)
    ensures r.Raised? <==> reply.Err?
    ensures reply.Err? ==> r.message == reply.message
  {
    match reply
    case Ok(_) => Resolved
    case Err(e) => Raised(e)
  }

  /** `signUp`: raises exactly the error the registration reported. */
  function SignUp(reply: Reply<()>): (r: AuthOutcome)
    ensures r.Raised? <==> reply.Err?
    ensures reply.Err? ==> r.message == reply.message
  {
    match reply
    case Ok(_) => Resolved
    case Err(e) => Raised(e)
  }

  /** How `supabase.auth.signOut()` ended: with an answer, which may carry an error object,
      or with a rejected promise. */
  datatype SignOutAnswer = Answered(error: Option<string>) | Rejected(message: string)

  /** `signOut` awaits the call without reading its answer and without catching: an error
      object in the answer is ignored, a rejection propagates to the caller. The state is
      cleared by the auth event that follows. */
  function SignOut(answer: SignOutAnswer): (r: AuthOutcome)
    ensures r.Raised? <==> answer.Rejected?
    ensures answer.Rejected? ==> r.message == answer.message
  {
    match answer
    case Answered(_) => Resolved
    case Rejected(e) => Raised(e)
  }

  /** One `onAuthStateChange` callback: the session it carries and the answer of its profile fetch. */
  datatype AuthEvent = AuthEvent(session: Option<User>, reply: ProfileReply)

  function Run(st: SessionState, events: seq<AuthEvent>): SessionState
    decreases |events|
  {
    if |events| == 0 then st
    else Run(OnAuthStateChange(st, events[0].session, events[0].reply), events[1..])
  }

  /** The provider's life: `loadSession` on mount, then the auth events in order. */
  function Boot(session: Option<User>, reply: ProfileReply, events: seq<AuthEvent>): SessionState {
    Run(LoadSession(Initial(), session, reply), events)
  }

  /** Once the session has loaded, `loading` never comes back. */
  lemma {:induction false} RunNotLoading(st: SessionState, events: seq<AuthEvent>)
    requires !st.loading
    ensures !Run(st, events).loading
    decreases |events|
  {
    if |events| > 0 {
      RunNotLoading(OnAuthStateChange(st, events[0].session, events[0].reply), events[1..]);
    }
  }

  lemma BootNotLoading(session: Option<User>, reply: ProfileReply, events: seq<AuthEvent>)
    ensures !Boot(session, reply, events).loading
  {
    RunNotLoading(LoadSession(Initial(), session, reply), events);
  }

  /** No profile stays cached without a signed-in user. */
  predicate NoOrphanProfile(st: SessionState) {
    st.user.None? ==> st.profile.None?
  }

  lemma {:induction false} RunKeepsNoOrphanProfile(st: SessionState, events: seq<AuthEvent>)
    requires NoOrphanProfile(st)
    ensures NoOrphanProfile(Run(st, events))
    decreases |events|
  {
    if |events| > 0 {
      RunKeepsNoOrphanProfile(OnAuthStateChange(st, events[0].session, events[0].reply), events[1..]);
    }
  }

  lemma BootNoOrphanProfile(session: Option<User>, reply: ProfileReply, events: seq<AuthEvent>)
    ensures NoOrphanProfile(Boot(session, reply, events))
  {
    RunKeepsNoOrphanProfile(LoadSession(Initial(), session, reply), events);
  }

  /** The cached profile, when there is one, is the signed-in user's own row. */
  predicate ProfileOwned(st: SessionState) {
    st.profile.Some? ==> st.user.Some? && st.profile.value.id == st.user.value.id
  }

  /** The backend answers a profile query for a user with that user's row. */
  predicate Honest(session: Option<User>, reply: ProfileReply) {
    session.Some? && reply.Ok? && reply.data.Some? ==> reply.data.value.id == session.value.id
  }

  /** As written, a failed profile fetch after a change of user keeps the previous user's
      profile: user "a" signs in, then an event for user "b" arrives whose fetch fails. */
  lemma StaleProfileAfterFailedFetch()
    ensures var a := User("a", "a@example.com");
            var b := User("b", "b@example.com");
            var pa := Profile("a", Some("Ana"), None, None);
            var st := Boot(Some(a), Ok(Some(pa)), [AuthEvent(Some(b), Err("network error"))]);
            && Honest(Some(a), Ok(Some(pa)))
            && st.user == Some(b) && st.profile == Some(pa)
            && !ProfileOwned(st)
  {
    var a := User("a", "a@example.com");
    var b := User("b", "b@example.com");
    var pa := Profile("a", Some("Ana"), None, None);
    var booted := LoadSession(Initial(), Some(a), Ok(Some(pa)));
    assert booted.profile == Some(pa);
    var after := OnAuthStateChange(booted, Some(b), Err("network error"));
    assert Run(booted, [AuthEvent(Some(b), Err("network error"))]) == Run(after, []);
  }

  /** The fetch as the profile form needs it: a profile that cannot be loaded leaves the
      profile empty rather than keeping an older user's row, which the edit form would
      otherwise fill in and save under the new user's id. */
  function FetchProfileIntended(userId: string, reply: ProfileReply): (r: Option<Profile>)
    ensures r.Some? <==> userId != "" && reply.Ok? && reply.data.Some?
    ensures r.Some? ==> r == reply.data
  {
    if userId == "" then None
    else match reply
      case Ok(Some(p)) => Some(p)
      case _ => None
  }

  /** The auth-event handler with the intended fetch. */
  function OnAuthStateChangeIntended(st: SessionState, session: Option<User>, reply: ProfileReply): (r: SessionState)
    ensures r.user == session && !r.loading
    ensures Honest(session, reply) ==> ProfileOwned(r)
  {
    match session
    case None => SessionState(None, None, false)
    case Some(u) => SessionState(session, FetchProfileIntended(u.id, reply), false)
  }

  function RunIntended(st: SessionState, events: seq<AuthEvent>): SessionState
    decreases |events|
  {
    if |events| == 0 then st
    else RunIntended(OnAuthStateChangeIntended(st, events[0].session, events[0].reply), events[1..])
  }

  /** With the intended handler and an honest backend, the cached profile always belongs
      to the signed-in user, whatever sequence of events arrives. */
  lemma {:induction false} RunIntendedProfileOwned(st: SessionState, events: seq<AuthEvent>)
    requires ProfileOwned(st)
    requires forall i :: 0 <= i < |events| ==> Honest(events[i].session, events[i].reply)
    ensures ProfileOwned(RunIntended(st, events))
    decreases |events|
  {
    if |events| > 0 {
      assert Honest(events[0].session, events[0].reply);
      RunIntendedProfileOwned(OnAuthStateChangeIntended(st, events[0].session, events[0].reply), events[1..]);
    }
  }

  lemma BootIntendedProfileOwned(session: Option<User>, reply: ProfileReply, events: seq<AuthEvent>)
    requires Honest(session, reply)
    requires forall i :: 0 <= i < |events| ==> Honest(events[i].session, events[i].reply)
    ensures ProfileOwned(RunIntended(LoadSession(Initial(), session, reply), events))
  {
    RunIntendedProfileOwned(LoadSession(Initial(), session, reply), events);
  }
}
