/**
 * A sequence as the client shows it (`EmailSequence`), the status badge label
 * and which action buttons a sequence card offers for each status. Together
 * with the page's handlers the buttons make up the status state machine.
 */
module SequenceCard {
  import opened Text

  /** The three sequence statuses; `Name` is the string the client stores. */
  datatype SequenceStatus = Active | Paused | Stopped {
    function Name(): string {
      match this
      case Active => "active"
      case Paused => "paused"
      case Stopped => "stopped"
    }
  }

  datatype EmailSequence = EmailSequence(id: string, name: string, emailCount: int,
                                         status: SequenceStatus, leadsInSequence: int)

  /** The badge label (`statusConfig[status].label`): the status name with its
      first letter capitalised. */
  function Label(s: SequenceStatus): (text: string)
    ensures |text| == |s.Name()| && text[0] == UpperChar(s.Name()[0])
    ensures text[1..] == s.Name()[1..]
  {
    match s
    case Active => "Active"
    case Paused => "Paused"
    case Stopped => "Stopped"
  }

  /** The card's buttons. Resume calls the start handler. */
  datatype ActionButton = StartButton | PauseButton | ResumeButton | StopButton

  /** Which of `onStart`, `onPause` and `onStop` the card was given. */
  datatype Handlers = Handlers(onStart: bool, onPause: bool, onStop: bool)

  /** The handlers the sequences page passes to every card. */
  const AllHandlers := Handlers(true, true, true)

  /** The buttons rendered for a status, each guarded by its status test and by
      the presence of the handler it calls. */
  function Buttons(s: SequenceStatus, h: Handlers): (bs: set<ActionButton>)
    ensures StartButton in bs <==> s == Stopped && h.onStart
    ensures PauseButton in bs <==> s == Active && h.onPause
    ensures ResumeButton in bs <==> s == Paused && h.onStart
    ensures StopButton in bs <==> s != Stopped && h.onStop
  {
    (if s == Stopped && h.onStart then {StartButton} else {})
    + (if s == Active && h.onPause then {PauseButton} else {})
    + (if s == Paused && h.onStart then {ResumeButton} else {})
    + (if s != Stopped && h.onStop then {StopButton} else {})
  }

  /** The status the page's handler sets when a button is pressed
      (`handleStart`, `handlePause`, `handleStop`). */
  function Target(b: ActionButton): SequenceStatus {
    match b
    case StartButton => Active
    case ResumeButton => Active
    case PauseButton => Paused
    case StopButton => Stopped
  }

  /** The statuses reachable from `s` with one button press on the page. */
  function Successors(s: SequenceStatus): (next: set<SequenceStatus>)
    ensures s !in next
  {
    set b | b in Buttons(s, AllHandlers) :: Target(b)
  }

  /** The page's state machine: exactly these five transitions, and none that
      leaves a sequence where it was. */
  lemma Transitions()
    ensures Successors(Active) == {Paused, Stopped}
    ensures Successors(Paused) == {Active, Stopped}
    ensures Successors(Stopped) == {Active}
  {
    assert Target(PauseButton) in Successors(Active) && Target(StopButton) in Successors(Active);
    assert Target(ResumeButton) in Successors(Paused) && Target(StopButton) in Successors(Paused);
    assert Target(StartButton) in Successors(Stopped);
  }
}
