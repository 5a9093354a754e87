/** The host's game management screen (src/screens/main/ManageGameScreen.js):
    loading the game, editing its fields and removing players. */
module ManageGame {
  import opened Outcomes
  import opened Seqs

  /** A `game_participants` row joined with the player's profile name. */
  datatype Participant = Participant(id: string, userId: string, fullName: Option<string>)

  /** The columns of the `games` row the screen edits. */
  datatype GameRow = GameRow(title: string, location: string, date: string)

  datatype ManageState = ManageState(
    title: string, location: string, date: string,
    participants: seq<Participant>,
    loading: bool, saving: bool)

  function Initial(): (st: ManageState)
    ensures st.loading && !st.saving
    ensures st.title == st.location == st.date == "" && st.participants == []
  {
    ManageState("", "", "", [], true, false)
  }

  /** The result of a handler and whether it navigated back (`navigation.goBack`). */
  datatype Step = Step(state: ManageState, leaves: bool)

  /** `fetchGameDetails`: the game row is loaded first, then its participants; the second
      query is made only if the first succeeded. Any error navigates back; `loading`
      is cleared on every path. */
  function FetchGameDetails(st: ManageState, game: Reply<GameRow>, parts: Reply<seq<Participant>>): (r: Step)
    ensures !r.state.loading && r.state.saving == st.saving
    ensures r.leaves <==> game.Err? || parts.Err?
    ensures game.Err? ==> r.state == st.(loading := false)
    ensures game.Ok? ==> r.state.title == game.data.title && r.state.location == game.data.location
                         && r.state.date == game.data.date
    ensures game.Ok? && parts.Ok? ==> r.state.participants == parts.data
    ensures parts.Err? ==> r.state.participants == st.participants
  {
    match game
    case Err(_) => Step(st.(loading := false), true)
    case Ok(g) =>
      var withGame := st.(title := g.title, location := g.location, date := g.date);
      match parts
      case Err(_) => Step(withGame.(loading := false), true)
      case Ok(ps) => Step(withGame.(participants := ps, loading := false), false)
  }

  /** The patch `handleUpdate` sends for the game. */
  datatype GamePatch = GamePatch(title: string, location: string, date: string)

  /** What `handleUpdate` did: the state after it, the update it sent (if any),
      and whether it navigated back. */
  datatype UpdateOutcome = UpdateOutcome(state: ManageState, request: Option<GamePatch>, leaves: bool)

  /** A JavaScript string is truthy exactly when it is not empty. */
  predicate Truthy(s: string) {
    s != ""
  }

  /** `handleUpdate`: an empty title, location or date is rejected before any backend call
      (white space counts as filled); otherwise the current fields are sent, `saving`
      ends false on both the success and the error path, and only success navigates back. */
  function Update(st: ManageState, reply: Reply<()>): (r: UpdateOutcome)
    ensures r.request.None? <==> st.title == "" || st.location == "" || st.date == ""
    ensures r.request.None? ==> r.state == st && !r.leaves
    ensures r.request.Some? ==>
      && r.request.value == GamePatch(st.title, st.location, st.date)
      && r.state == st.(saving := false)
      && (r.leaves <==> reply.Ok?)
  {
    if !Truthy(st.title) || !Truthy(st.location) || !Truthy(st.date) then
      UpdateOutcome(st, None, false)
    else
      UpdateOutcome(st.(saving := false), Some(GamePatch(st.title, st.location, st.date)), reply.Ok?)
  }

  /** The confirmed branch of `handleKickPlayer`: after a successful delete every row of
      that user leaves the local list, the others stay in order; a failed delete changes nothing. */
  function Kick(st: ManageState, userId: string, reply: Reply<()>): (r: ManageState)
    ensures reply.Err? ==> r == st
    ensures r == st.(participants := r.participants)
    ensures reply.Ok? ==> forall p :: p in r.participants <==> p in st.participants && p.userId != userId
    ensures reply.Ok? ==> forall p {:trigger multiset(r.participants)[p]} ::
      multiset(r.participants)[p] == if p.userId != userId then multiset(st.participants)[p] else 0
    ensures IsSubsequence(r.participants, st.participants)
  {
    match reply
    case Err(_) =>
      SubsequenceOfItself(st.participants);
      st
    case Ok(_) =>
      st.(participants := Filter(st.participants, (p: Participant) => p.userId != userId))
  }

  /** The number shown in the players heading. */
  function PlayerCount(st: ManageState): nat {
    |st.participants|
  }

  /** Kicking the same user a second time leaves the same list. */
  lemma KickIdempotent(st: ManageState, userId: string, reply: Reply<()>)
    ensures Kick(Kick(st, userId, Ok(())), userId, reply) == Kick(st, userId, Ok(()))
  {
    FilterIdempotent(st.participants, (p: Participant) => p.userId != userId);
  }

  /** A successful kick lowers the player count exactly when the user had a row. */
  lemma KickCount(st: ManageState, userId: string)
    ensures PlayerCount(Kick(st, userId, Ok(()))) <= PlayerCount(st)
    ensures PlayerCount(Kick(st, userId, Ok(()))) < PlayerCount(st)
            <==> exists i :: 0 <= i < |st.participants| && st.participants[i].userId == userId
  {
    FilterLength(st.participants, (p: Participant) => p.userId != userId);
  }

  /** Opening the screen and saving the loaded fields unchanged sends back exactly the row
      that was loaded, provided none of its fields is empty. */
  lemma FetchThenUpdate(g: GameRow, parts: Reply<seq<Participant>>, reply: Reply<()>)
    ensures var loaded := FetchGameDetails(Initial(), Ok(g), parts).state;
      && (Update(loaded, reply).request.Some? <==> g.title != "" && g.location != "" && g.date != "")
      && (Update(loaded, reply).request.Some? ==> Update(loaded, reply).request.value == GamePatch(g.title, g.location, g.date))
  {
  }

  /** What the user does on the loaded screen: edit the three fields, save, or confirm a kick. */
  datatype ManageEvent =
    | TitleTyped(text: string) | LocationTyped(text: string) | DateTyped(text: string)
    | Saved(reply: Reply<()>)
    | Kicked(userId: string, reply: Reply<()>)

  function Apply(st: ManageState, e: ManageEvent): ManageState {
    match e
    case TitleTyped(text) => st.(title := text)
    case LocationTyped(text) => st.(location := text)
    case DateTyped(text) => st.(date := text)
    case Saved(reply) => Update(st, reply).state
    case Kicked(userId, reply) => Kick(st, userId, reply)
  }

  function Run(st: ManageState, events: seq<ManageEvent>): ManageState
    decreases |events|
  {
    if |events| == 0 then st else Run(Apply(st, events[0]), events[1..])
  }

  /** Between handlers the screen is neither loading nor saving, and the player list only
      ever loses rows: it stays a subsequence of the list it started from. */
  lemma {:induction false} RunKeepsList(st: ManageState, events: seq<ManageEvent>)
    requires !st.loading && !st.saving
    ensures !Run(st, events).loading && !Run(st, events).saving
    ensures IsSubsequence(Run(st, events).participants, st.participants)
    decreases |events|
  {
    if |events| == 0 {
      SubsequenceOfItself(st.participants);
    } else {
      var next := Apply(st, events[0]);
      if !events[0].Kicked? {
        assert next.participants == st.participants;
        SubsequenceOfItself(st.participants);
      }
      RunKeepsList(next, events[1..]);
      SubsequenceTransitive(Run(next, events[1..]).participants, next.participants, st.participants);
    }
  }

  /** The screen's life: `fetchGameDetails` on mount, then the user's events. Once loaded,
      loading and saving stay false, every player shown was in the loaded list in the
      same order, and after a failed load no player is shown at all. */
  lemma ScreenAfterLoad(game: Reply<GameRow>, parts: Reply<seq<Participant>>, events: seq<ManageEvent>)
    ensures var st := Run(FetchGameDetails(Initial(), game, parts).state, events);
      && !st.loading && !st.saving
      && (game.Ok? && parts.Ok? ==> IsSubsequence(st.participants, parts.data))
      && (game.Err? || parts.Err? ==> st.participants == [])
  {
    var loaded := FetchGameDetails(Initial(), game, parts).state;
    RunKeepsList(loaded, events);
    if game.Err? || parts.Err? {
      assert loaded.participants == [];
    }
  }
}
