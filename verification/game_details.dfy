/** The game details screen (src/screens/main/GameDetailsScreen.js): the join button's
    status machine, the players' first names and the route-parameter defaults.
    The 1.5 s timer is an event of its own. */
module GameDetails {
  import opened Outcomes
  import opened Text

  datatype JoinStatus = Idle | Requesting | Confirmed

  /** The status, and whether a confirmation timer has been started and not yet fired. */
  datatype JoinState = JoinState(status: JoinStatus, timerPending: bool)

  function Initial(): (st: JoinState)
    ensures st.status == Idle && !st.timerPending
  {
    JoinState(Idle, false)
  }

  /** The join button is enabled only while the status is idle. */
  predicate JoinEnabled(st: JoinState) {
    st.status == Idle
  }

  /** A tap on the join button: when enabled, `handleJoin` sets "requesting" and starts
      the timer; a disabled button ignores the tap. */
  function Tap(st: JoinState): (r: JoinState)
    ensures JoinEnabled(st) ==> r.status == Requesting && r.timerPending
    ensures !JoinEnabled(st) ==> r == st
  {
    if JoinEnabled(st) then JoinState(Requesting, true) else st
  }

  /** The timer's callback sets "confirmed", whatever the status is. */
  function TimerFires(st: JoinState): (r: JoinState)
    ensures st.timerPending ==> r.status == Confirmed && !r.timerPending
    ensures !st.timerPending ==> r == st
  {
    if st.timerPending then JoinState(Confirmed, false) else st
  }

  datatype JoinEvent = Tapped | TimerFired

  function Apply(st: JoinState, e: JoinEvent): JoinState {
    match e
    case Tapped => Tap(st)
    case TimerFired => TimerFires(st)
  }

  function Run(st: JoinState, events: seq<JoinEvent>): JoinState
    decreases |events|
  {
    if |events| == 0 then st else Run(Apply(st, events[0]), events[1..])
  }

  /** How many taps actually ran `handleJoin`. */
  function JoinCalls(st: JoinState, events: seq<JoinEvent>): nat
    decreases |events|
  {
    if |events| == 0 then 0
    else (if events[0].Tapped? && JoinEnabled(st) then 1 else 0) + JoinCalls(Apply(st, events[0]), events[1..])
  }

  /** A timer is pending exactly while the request is shown. */
  predicate Consistent(st: JoinState) {
    st.timerPending <==> st.status == Requesting
  }

  function Rank(s: JoinStatus): nat {
    match s
    case Idle => 0
    case Requesting => 1
    case Confirmed => 2
  }

  /** From a consistent state, events only move the status forward and keep it consistent. */
  lemma {:induction false} RunProgresses(st: JoinState, events: seq<JoinEvent>)
    requires Consistent(st)
    ensures Consistent(Run(st, events))
    ensures Rank(Run(st, events).status) >= Rank(st.status)
    decreases |events|
  {
    if |events| > 0 {
      RunProgresses(Apply(st, events[0]), events[1..]);
    }
  }

  /** "confirmed" is final: no event leads anywhere else. */
  lemma ConfirmedIsTerminal(st: JoinState, events: seq<JoinEvent>)
    requires st == JoinState(Confirmed, false)
    ensures Run(st, events).status == Confirmed
  {
    RunProgresses(st, events);
  }

  /** The join handler runs at most once, whatever is tapped. */
  lemma {:induction false} JoinCalledAtMostOnce(st: JoinState, events: seq<JoinEvent>)
    requires Consistent(st)
    ensures JoinCalls(st, events) <= (if JoinEnabled(st) then 1 else 0)
    decreases |events|
  {
    if |events| > 0 {
      var next := Apply(st, events[0]);
      JoinCalledAtMostOnce(next, events[1..]);
      if events[0].Tapped? && JoinEnabled(st) {
        assert !JoinEnabled(next);
      }
    }
  }

  /** From the initial state: one join at most, and once confirmed, no timer is left. */
  lemma ReachableJoin(events: seq<JoinEvent>)
    ensures JoinCalls(Initial(), events) <= 1
    ensures Consistent(Run(Initial(), events))
  {
    JoinCalledAtMostOnce(Initial(), events);
    RunProgresses(Initial(), events);
  }

  /** The texts the button renders: each of the three conditional branches contributes
      its text when its status test holds. */
  function ButtonTexts(s: JoinStatus): (r: seq<string>)
    ensures |r| == 1
    ensures r[0] == "Pedir para Participar" <==> s == Idle
    ensures r[0] == "Enviando pedido..." <==> s == Requesting
    ensures r[0] == "Você está no jogo!" <==> s == Confirmed
  {
    (if s == Idle then ["Pedir para Participar"] else [])
    + (if s == Requesting then ["Enviando pedido..."] else [])
    + (if s == Confirmed then ["Você está no jogo!"] else [])
  }

  /** The name under each player circle. */
  datatype Player = Player(id: nat, name: string, role: string, hasImage: bool)

  const Players: seq<Player> := [
    Player(1, "Rafael (Host)", "Host", true),
    Player(2, "Ana Souza", "Confirmado", true),
    Player(3, "Vaga Livre", "Disponível", false),
    Player(4, "Vaga Livre", "Disponível", false)
  ]

  /** The names the player circles show. */
  const FirstNames: seq<string> := ["Rafael", "Ana", "Vaga", "Vaga"]

  /** Each player circle shows the first word of the player's name. */
  lemma PlayerFirstName(i: nat)
    requires i < |Players|
    ensures FirstWord(Players[i].name) == FirstNames[i]
  {
    if i == 0 {
      FirstWordSplit("Rafael", "(Host)", Players[0].name);
    } else if i == 1 {
      FirstWordSplit("Ana", "Souza", Players[1].name);
    } else {
      FirstWordSplit("Vaga", "Livre", Players[i].name);
    }
  }

  lemma FirstWordSplit(w: string, rest: string, name: string)
    requires ' ' !in w && name == w + " " + rest
    ensures FirstWord(name) == w
  {
    FirstWordOfPrefix(w, rest);
  }

  /** A word with no space, followed by a space, is the first word. */
  lemma FirstWordOfPrefix(w: string, rest: string)
    requires ' ' !in w
    ensures FirstWord(w + " " + rest) == w
  {
    var s := w + " " + rest;
    assert s[..|w|] == w && s[|w|] == ' ';
    assert FirstWord(s) == s[..|FirstWord(s)|];
  }

  /** The parameters the screen may be opened with; a missing key is `None`. */
  datatype RouteParams = RouteParams(title: Option<string>, date: Option<string>)

  /** `const { title = ..., date = ... } = route.params || {}`: a missing key (or missing
      params) takes the default; a present value, even "", is shown as given. */
  function Header(params: Option<RouteParams>): (r: (string, string))
    ensures (params.None? || params.value.title.None?) ==> r.0 == "Parque Ibirapuera"
    ensures (params.None? || params.value.date.None?) ==> r.1 == "Amanhã, 08:00"
    ensures params.Some? && params.value.title.Some? ==> r.0 == params.value.title.value
    ensures params.Some? && params.value.date.Some? ==> r.1 == params.value.date.value
  {
    var p := if params.Some? then params.value else RouteParams(None, None);
    (if p.title.Some? then p.title.value else "Parque Ibirapuera",
     if p.date.Some? then p.date.value else "Amanhã, 08:00")
  }
}
