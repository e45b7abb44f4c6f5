/** The game session: target colour, option list, score and status message,
    the round initialiser that replaces them and the selection handler that
    scores a guess. A correct guess schedules a restart that cannot be
    cancelled; the model counts the restarts still to fire. */
module Game {
  import opened Colors
  import opened Round

  /** The status messages, character for character as the component's source
      file holds them: the UTF-8 bytes of each emoji appear there decoded a
      second time, as Windows-1252 text. */
  const CorrectMessage: string := "Correct! ðŸŽ‰"
  const WrongMessage: string := "Wrong! Try again ðŸ˜¢"

  /** The four state fields of the component, and the restarts scheduled by
      correct guesses that have not fired yet. */
  datatype Snapshot = Snapshot(
    target: Color,
    options: seq<Color>,
    score: nat,
    status: string,
    pendingRestarts: nat)

  /** The random values one run of the round initialiser consumes: the target's
      channels, the stream of further draws, and the order the shuffle
      produces. */
  datatype Draws = Draws(first: Rgb, rest: seq<Rgb>, perm: seq<nat>)

  /** The draws fill a round: six distinct colours, and a reordering of six. */
  predicate Sufficient(d: Draws)
  {
    EnoughColors(d.first, d.rest) && IsPermutation(d.perm, OptionCount)
  }

  /** What the player or the timer does. */
  datatype Event =
    | Select(color: Color)       // an option button is clicked
    | NewGame(draws: Draws)      // the "New Game" button is clicked
    | TimerFires(draws: Draws)   // a restart scheduled by a correct guess runs

  /** The state before the component mounts. */
  function Initial(): Snapshot
  {
    Snapshot("", [], 0, "", 0)
  }

  predicate RoundReady(s: Snapshot)
  {
    WellFormedRound(s.target, s.options)
  }

  /** The round initialiser: a fresh target and options, status cleared. */
  function Restarted(s: Snapshot, d: Draws): (t: Snapshot)
    requires Sufficient(d)
    ensures RoundReady(t)
    ensures t.score == s.score && t.status == "" && t.pendingRestarts == s.pendingRestarts
  {
    s.(target := FormatRgb(d.first), options := NewOptions(d.first, d.rest, d.perm), status := "")
  }

  /** The selection handler: a hit scores exactly one point and schedules one
      restart; a miss changes nothing but the status. The round itself is
      never touched. */
  function Selected(s: Snapshot, color: Color): (t: Snapshot)
    ensures t.target == s.target && t.options == s.options
    ensures t.score == s.score + 1 <==> color == s.target
    ensures color != s.target <==> t.score == s.score
    ensures t.status == (if color == s.target then CorrectMessage else WrongMessage)
    ensures t.pendingRestarts - s.pendingRestarts == t.score - s.score
  {
    if color == s.target then
      s.(score := s.score + 1, status := CorrectMessage, pendingRestarts := s.pendingRestarts + 1)
    else
      s.(status := WrongMessage)
  }

  predicate Admissible(s: Snapshot, e: Event)
  {
    match e
    case Select(_) => true
    case NewGame(d) => Sufficient(d)
    case TimerFires(d) => Sufficient(d) && s.pendingRestarts > 0
  }

  function Step(s: Snapshot, e: Event): Snapshot
    requires Admissible(s, e)
  {
    match e
    case Select(c) => Selected(s, c)
    case NewGame(d) => Restarted(s, d)
    case TimerFires(d) => Restarted(s.(pendingRestarts := s.pendingRestarts - 1), d)
  }

  predicate AdmissibleRun(s: Snapshot, events: seq<Event>)
    decreases |events|
  {
    events == [] || (Admissible(s, events[0]) && AdmissibleRun(Step(s, events[0]), events[1..]))
  }

  function Run(s: Snapshot, events: seq<Event>): Snapshot
    requires AdmissibleRun(s, events)
    decreases |events|
  {
    if events == [] then s else Run(Step(s, events[0]), events[1..])
  }

  /** How many option clicks a run holds. */
  function Selections(events: seq<Event>): nat
  {
    if events == [] then 0
    else (if events[0].Select? then 1 else 0) + Selections(events[1..])
  }

  // ---------------------------------------------------------------------------
  // Properties of a session

  /** Once a round is on the board, every later state has six distinct
      options holding the target exactly once. */
  lemma {:induction false} RunKeepsRound(s: Snapshot, events: seq<Event>)
    requires RoundReady(s) && AdmissibleRun(s, events)
    ensures RoundReady(Run(s, events))
    decreases |events|
  {
    if events != [] {
      RunKeepsRound(Step(s, events[0]), events[1..]);
    }
  }

  /** After the mount restart, every state of the session is a well-formed
      round. */
  lemma SessionRounds(d: Draws, events: seq<Event>)
    requires Sufficient(d) && AdmissibleRun(Restarted(Initial(), d), events)
    ensures RoundReady(Run(Restarted(Initial(), d), events))
  {
    RunKeepsRound(Restarted(Initial(), d), events);
  }

  /** The score never goes down, and it goes up by at most one per option
      click: restarts never change it. */
  lemma {:induction false} RunScore(s: Snapshot, events: seq<Event>)
    requires AdmissibleRun(s, events)
    ensures s.score <= Run(s, events).score <= s.score + Selections(events)
    decreases |events|
  {
    if events != [] {
      RunScore(Step(s, events[0]), events[1..]);
    }
  }

  /** A second restart leaves no trace of the first: the double restart that
      a pending timer causes after a manual restart is harmless. */
  lemma RestartOverwrites(s: Snapshot, d1: Draws, d2: Draws)
    requires Sufficient(d1) && Sufficient(d2)
    ensures Restarted(Restarted(s, d1), d2) == Restarted(s, d2)
  {
  }

  // ---------------------------------------------------------------------------
  // The component

  class ColorGame {
    var targetColor: Color
    var colorOptions: seq<Color>
    var score: nat
    var gameStatus: string
    var pendingRestarts: nat

    function State(): Snapshot
      reads this
    {
      Snapshot(targetColor, colorOptions, score, gameStatus, pendingRestarts)
    }

    /** The initial values of the four state hooks. */
    constructor ()
      ensures State() == Initial()
    {
      targetColor := "";
      colorOptions := [];
      score := 0;
      gameStatus := "";
      pendingRestarts := 0;
    }

    /** startNewGame: draw the target, grow six distinct options from further
        draws, reorder them, and clear the status. */
    method StartNewGame(d: Draws)
      requires Sufficient(d)
      modifies this
      ensures State() == Restarted(old(State()), d)
      ensures WellFormedRound(targetColor, colorOptions) && targetColor == FormatRgb(d.first)
      ensures score == old(score) && gameStatus == "" && pendingRestarts == old(pendingRestarts)
    {
      var correctColor := FormatRgb(d.first);
      var options := BuildOptions(correctColor, d.rest);
      RoundFromDraws(d.first, d.rest);
      var shuffledOptions := Shuffle(options, d.perm);
      targetColor := correctColor;
      colorOptions := shuffledOptions;
      gameStatus := "";
    }

    /** handleColorClick: a click on the target scores one point, shows the
        success message and schedules a restart; any other click shows the
        failure message and changes nothing else. */
    method HandleColorClick(selectedColor: Color)
      modifies this
      ensures State() == Selected(old(State()), selectedColor)
      ensures selectedColor == old(targetColor) ==>
        score == old(score) + 1 && gameStatus == CorrectMessage &&
        pendingRestarts == old(pendingRestarts) + 1
      ensures selectedColor != old(targetColor) ==>
        score == old(score) && gameStatus == WrongMessage &&
        pendingRestarts == old(pendingRestarts)
      ensures targetColor == old(targetColor) && colorOptions == old(colorOptions)
    {
      if selectedColor == targetColor {
        score := score + 1;
        gameStatus := CorrectMessage;
        pendingRestarts := pendingRestarts + 1;
      } else {
        gameStatus := WrongMessage;
      }
    }

    /** A restart scheduled by a correct guess fires. */
    method FireScheduledRestart(d: Draws)
      requires Sufficient(d) && pendingRestarts > 0
      modifies this
      ensures State() == Step(old(State()), TimerFires(d))
      ensures WellFormedRound(targetColor, colorOptions)
      ensures score == old(score) && pendingRestarts == old(pendingRestarts) - 1
    {
      pendingRestarts := pendingRestarts - 1;
      StartNewGame(d);
    }
  }
}
