/** The profile editing form (src/screens/main/EditProfileScreen.js): initialised from the
    cached profile, two closed choice sets, and the save guard. */
module EditProfile {
  import opened Outcomes
  import opened Text
  import Session

  datatype Hand = Destro | Canhoto

  /** The value the hand buttons store. */
  function HandId(h: Hand): string {
    match h
    case Destro => "destro"
    case Canhoto => "canhoto"
  }

  datatype Level = Iniciante | Intermediario | Avancado | Profissional

  /** The entries of `LEVELS`, in screen order. */
  const Levels: seq<Level> := [Iniciante, Intermediario, Avancado, Profissional]

  /** The `id` of a `LEVELS` entry: the value the level buttons store. */
  function LevelId(l: Level): string {
    match l
    case Iniciante => "iniciante"
    case Intermediario => "intermediario"
    case Avancado => "avancado"
    case Profissional => "profissional"
  }

  const LevelIds: seq<string> := ["iniciante", "intermediario", "avancado", "profissional"]

  datatype ProfileForm = ProfileForm(fullName: string, hand: string, tennisLevel: string, loading: bool)

  function Initial(): (f: ProfileForm)
    ensures f.fullName == f.hand == f.tennisLevel == "" && !f.loading
  {
    ProfileForm("", "", "", false)
  }

  /** `value || ''` for a column that may be null. */
  function OrEmpty(v: Option<string>): (r: string)
    ensures v.None? ==> r == ""
    ensures v.Some? ==> r == v.value
  {
    match v
    case None => ""
    case Some(s) => s
  }

  /** The effect run when the cached profile changes: a present profile overwrites the three
      fields, with "" for a null column; an absent one leaves the form as it is. */
  function OnProfile(form: ProfileForm, profile: Option<Session.Profile>): (r: ProfileForm)
    ensures profile.None? ==> r == form
    ensures profile.Some? ==>
      && r.fullName == OrEmpty(profile.value.fullName)
      && r.hand == OrEmpty(profile.value.playHand)
      && r.tennisLevel == OrEmpty(profile.value.tennisLevel)
      && r.loading == form.loading
  {
    match profile
    case None => form
    case Some(p) => form.(fullName := OrEmpty(p.fullName), hand := OrEmpty(p.playHand),
                          tennisLevel := OrEmpty(p.tennisLevel))
  }

  /** A tap on one of the two hand buttons. */
  function SetHand(form: ProfileForm, h: Hand): (r: ProfileForm)
    ensures r.hand == "destro" || r.hand == "canhoto"
    ensures (r.hand == "destro") == (h == Destro)
    ensures r == form.(hand := r.hand)
  {
    form.(hand := HandId(h))
  }

  /** A tap on one of the four level buttons. */
  function SetLevel(form: ProfileForm, l: Level): (r: ProfileForm)
    ensures r.tennisLevel in LevelIds
    ensures forall i :: 0 <= i < |Levels| && Levels[i] == l ==> r.tennisLevel == LevelIds[i]
    ensures r == form.(tennisLevel := r.tennisLevel)
  {
    form.(tennisLevel := LevelId(l))
  }

  /** Each level button stores its own id: the ids of `LEVELS` are the four distinct
      values of `LevelIds`, in order. */
  lemma LevelIdsMatchLevels()
    ensures |LevelIds| == |Levels|
    ensures forall i :: 0 <= i < |Levels| ==> LevelId(Levels[i]) == LevelIds[i]
    ensures forall l, m :: LevelId(l) == LevelId(m) ==> l == m
  {
  }

  /** The row update `handleSave` sends (the `updated_at` clock value is left out). */
  datatype ProfileUpdate = ProfileUpdate(userId: string, fullName: string, playHand: string, tennisLevel: string)

  /** What `handleSave` did: the form after it, the update it sent (if any), and whether
      it navigated back. */
  datatype SaveOutcome = SaveOutcome(form: ProfileForm, request: Option<ProfileUpdate>, leaves: bool)

  /** `handleSave`: a name that trims to nothing is rejected with no backend call and the
      form untouched. Otherwise the untrimmed name is sent with the current hand and level
      for the signed-in user (with no user, reading its id throws before the call); `loading`
      ends false on every such path and only a successful update navigates back. */
  function Save(form: ProfileForm, user: Option<Session.User>, reply: Reply<()>): (r: SaveOutcome)
    ensures IsBlank(form.fullName) ==> r == SaveOutcome(form, None, false)
    ensures !IsBlank(form.fullName) ==> r.form == form.(loading := false)
    ensures !IsBlank(form.fullName) && user.Some? ==>
      && r.request == Some(ProfileUpdate(user.value.id, form.fullName, form.hand, form.tennisLevel))
      && (r.leaves <==> reply.Ok?)
    ensures user.None? ==> r.request.None? && !r.leaves
  {
    if Trim(form.fullName) == "" then SaveOutcome(form, None, false)
    else match user
      case None => SaveOutcome(form.(loading := false), None, false)
      case Some(u) =>
        SaveOutcome(form.(loading := false),
                    Some(ProfileUpdate(u.id, form.fullName, form.hand, form.tennisLevel)),
                    reply.Ok?)
  }

  /** Saving the form right after the profile filled it sends the profile's own values back
      for the signed-in user, with null columns as ""; a profile whose name is blank, or
      missing, cannot be saved as it is. */
  lemma SaveLoadedProfile(form: ProfileForm, p: Session.Profile, u: Session.User, reply: Reply<()>)
    ensures var sent := Save(OnProfile(form, Some(p)), Some(u), reply).request;
      && (sent.Some? <==> !IsBlank(OrEmpty(p.fullName)))
      && (sent.Some? ==> sent.value == ProfileUpdate(u.id, OrEmpty(p.fullName), OrEmpty(p.playHand), OrEmpty(p.tennisLevel)))
  {
  }

  /** The form as the screen changes it: typing the name, the two setters and the profile effect. */
  datatype FormEvent = NameTyped(text: string) | HandTapped(h: Hand) | LevelTapped(l: Level)
                     | ProfileLoaded(profile: Option<Session.Profile>)

  function Apply(form: ProfileForm, e: FormEvent): ProfileForm {
    match e
    case NameTyped(text) => form.(fullName := text)
    case HandTapped(h) => SetHand(form, h)
    case LevelTapped(l) => SetLevel(form, l)
    case ProfileLoaded(p) => OnProfile(form, p)
  }

  function Run(form: ProfileForm, events: seq<FormEvent>): ProfileForm
    decreases |events|
  {
    if |events| == 0 then form else Run(Apply(form, events[0]), events[1..])
  }

  /** Without a profile ever loaded, the form's hand and level only hold values the buttons
      store (or stay empty), and `loading` stays false. */
  lemma {:induction false} RunWithoutProfile(form: ProfileForm, events: seq<FormEvent>)
    requires form.hand in {"", "destro", "canhoto"}
    requires form.tennisLevel == "" || form.tennisLevel in LevelIds
    requires !form.loading
    requires forall i :: 0 <= i < |events| ==> !events[i].ProfileLoaded? || events[i].profile.None?
    ensures var r := Run(form, events);
      && r.hand in {"", "destro", "canhoto"}
      && (r.tennisLevel == "" || r.tennisLevel in LevelIds)
      && !r.loading
    decreases |events|
  {
    if |events| > 0 {
      assert !events[0].ProfileLoaded? || events[0].profile.None?;
      RunWithoutProfile(Apply(form, events[0]), events[1..]);
    }
  }
}
