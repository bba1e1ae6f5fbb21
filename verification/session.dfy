/** The three-screen flow of the dashboard (splash, persona choice, report)
    as a transition function over the per-session state. One script run of
    `main` takes the stored state and at most one button click, and leaves
    the state the next run starts from. */
module Session {
  import opened Wrappers

  /** The display mode the user picked; it changes what is shown, never what
      is computed. */
  datatype Persona = Scientist | Student | Public

  datatype Stage = Splash | PersonaChoice | App

  /** The session state: the stage (absent before the first run) and the
      persona (absent until one is chosen). */
  datatype State = State(stage: Option<Stage>, persona: Option<Persona>)

  /** The screen a run of `main` draws. */
  datatype Screen = SplashScreen | PersonaScreen | ReportScreen(persona: Persona)

  /** The button pressed during a run, if any. */
  datatype Click = NoClick | ChooseIdentity | UsePersona(choice: Persona) | ChangeIdentity

  /** A brand-new session. */
  const Fresh: State := State(None, None)

  /** Every state a run leaves behind: the stage is set, and the report stage
      always has a persona to show. */
  predicate Consistent(s: State) {
    s.stage.Some? && (s.stage == Some(App) ==> s.persona.Some?)
  }

  /** What `main` does before drawing: a missing stage becomes the splash
      stage, and the report stage without a persona is sent back to the
      persona choice (the rerun then draws that screen). */
  function Settle(s: State): (t: State)
    ensures Consistent(t)
    ensures t.persona == s.persona
    ensures Consistent(s) ==> t == s
    ensures s.stage == None ==> t.stage == Some(Splash)
    ensures s.stage == Some(App) && s.persona == None ==> t.stage == Some(PersonaChoice)
  {
    match s.stage
    case None => s.(stage := Some(Splash))
    case Some(App) => if s.persona == None then s.(stage := Some(PersonaChoice)) else s
    case Some(_) => s
  }

  /** The screen drawn for a stored state: a fresh session sees the splash, a
      report stage without a persona sees the persona choice, and the report
      for persona p is drawn exactly when the stage is the report stage and p
      is the stored persona. */
  function ScreenOf(s: State): (screen: Screen)
    ensures s.stage == None ==> screen == SplashScreen
    ensures s.stage == Some(Splash) ==> screen == SplashScreen
    ensures s.stage == Some(PersonaChoice) ==> screen == PersonaScreen
    ensures s.stage == Some(App) && s.persona == None ==> screen == PersonaScreen
    ensures forall p :: screen == ReportScreen(p) <==> s.stage == Some(App) && s.persona == Some(p)
  {
    var t := Settle(s);
    match t.stage
    case Some(Splash) => SplashScreen
    case Some(PersonaChoice) => PersonaScreen
    case Some(App) => ReportScreen(t.persona.value)
  }

  /** One run of `main` with one click. A click only acts on the screen that
      shows its button: the splash button moves to the persona choice; a
      persona button stores that persona and moves to the report; "Change
      identity" moves back to the persona choice and keeps the persona.
      The click is applied to the settled state in the same step, so a click
      on a button the previous run had not yet drawn (the splash button of a
      fresh session, a persona button right after the redirect) is accepted
      too. This admits more click sequences than a browser can produce, so
      what holds for every sequence here holds for the real ones. */
  function Step(s: State, click: Click): (t: State)
    ensures Consistent(t)
    ensures s.persona.Some? ==> t.persona.Some?
    ensures t.persona != s.persona ==> click.UsePersona? && t.persona == Some(click.choice)
    ensures ScreenOf(s) == SplashScreen && click == ChooseIdentity ==> t.stage == Some(PersonaChoice)
    ensures ScreenOf(s) == PersonaScreen && click.UsePersona? ==> t == State(Some(App), Some(click.choice))
    ensures ScreenOf(s).ReportScreen? && click == ChangeIdentity ==> t == State(Some(PersonaChoice), s.persona)
    ensures click == NoClick ==> t == Settle(s)
    ensures click == ChooseIdentity && ScreenOf(s) != SplashScreen ==> t == Settle(s)
    ensures click.UsePersona? && ScreenOf(s) != PersonaScreen ==> t == Settle(s)
    ensures click == ChangeIdentity && !ScreenOf(s).ReportScreen? ==> t == Settle(s)
  {
    var u := Settle(s);
    match (ScreenOf(u), click)
    case (SplashScreen, ChooseIdentity) => u.(stage := Some(PersonaChoice))
    case (PersonaScreen, UsePersona(p)) => State(Some(App), Some(p))
    case (ReportScreen(_), ChangeIdentity) => u.(stage := Some(PersonaChoice))
    case _ => u
  }

  /** The state after a sequence of runs, one click each. */
  function Run(s: State, clicks: seq<Click>): State
    decreases |clicks|
  {
    if clicks == [] then s else Step(Run(s, clicks[..|clicks| - 1]), clicks[|clicks| - 1])
  }

  /** Whatever the user clicks, a session never reaches a state in which the
      report stage has no persona (a fresh session leaves its unset stage
      behind on the first run), and once a persona is chosen it stays. */
  lemma {:induction false} RunStaysConsistent(s: State, clicks: seq<Click>)
    ensures Consistent(s) || clicks != [] ==> Consistent(Run(s, clicks))
    ensures s.persona.Some? ==> Run(s, clicks).persona.Some?
    decreases |clicks|
  {
    if clicks != [] {
      RunStaysConsistent(s, clicks[..|clicks| - 1]);
    }
  }

  /** The report for persona p can only be reached from a fresh session by
      pressing that persona's button at some point. */
  lemma {:induction false} ReportNeedsPersonaChoice(clicks: seq<Click>, p: Persona)
    requires ScreenOf(Run(Fresh, clicks)) == ReportScreen(p)
    ensures UsePersona(p) in clicks
  {
    PersonaComesFromClick(clicks);
  }

  lemma {:induction false} PersonaComesFromClick(clicks: seq<Click>)
    ensures Run(Fresh, clicks).persona.Some? ==> UsePersona(Run(Fresh, clicks).persona.value) in clicks
    decreases |clicks|
  {
    if clicks != [] {
      var init := clicks[..|clicks| - 1];
      PersonaComesFromClick(init);
      var before := Run(Fresh, init);
      var after := Run(Fresh, clicks);
      if after.persona.Some? {
        if after.persona == before.persona {
          assert UsePersona(after.persona.value) in init;
          assert init <= clicks;
        } else {
          assert clicks[|clicks| - 1] == UsePersona(after.persona.value);
        }
      }
    }
  }

  /** A fresh session starts on the splash screen, and its button leads to the
      persona choice. */
  lemma FreshStartsAtSplash()
    ensures ScreenOf(Fresh) == SplashScreen
    ensures ScreenOf(Step(Fresh, ChooseIdentity)) == PersonaScreen
  {
  }
}
