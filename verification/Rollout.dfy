/** The rollout automaton: promote, roll back, promote again (scripts/docs_search_delivery.py). */
module Rollout {
  import opened Wrappers

  datatype Phase = Uploaded | Promoted | RolledBack | Repromoted
  datatype Action = Promote | Rollback | Repromote

  datatype Step = Step(action: Action, version: string, percentage: int)

  datatype State = State(current: string, previous: string, phase: Phase, history: seq<Step>)

  predicate HexChar(c: char) { '0' <= c <= '9' || 'a' <= c <= 'f' }

  predicate IsUuid(s: string) {
    && |s| == 36
    && forall i | 0 <= i < 36 :: if i == 8 || i == 13 || i == 18 || i == 23 then s[i] == '-' else HexChar(s[i])
  }

  /** `new_rollout_state`. */
  function NewState(current: string, previous: string): Option<State> {
    if IsUuid(current) && IsUuid(previous) && current != previous
    then Some(State(current, previous, Uploaded, [])) else None
  }

  function ExpectedHistory(s: State): seq<Step> {
    var promote := Step(Promote, s.current, 100);
    var rollback := Step(Rollback, s.previous, 100);
    match s.phase
    case Uploaded => []
    case Promoted => [promote]
    case RolledBack => [promote, rollback]
    case Repromoted => [promote, rollback, Step(Repromote, s.current, 100)]
  }

  /** `_validate_rollout_state`. */
  predicate Valid(s: State) {
    IsUuid(s.current) && IsUuid(s.previous) && s.current != s.previous && s.history == ExpectedHistory(s)
  }

  datatype Transition = Transition(phase: Phase, version: string)

  function TransitionOf(s: State, action: Action): Option<Transition> {
    match (s.phase, action)
    case (Uploaded, Promote) => Some(Transition(Promoted, s.current))
    case (Promoted, Rollback) => Some(Transition(RolledBack, s.previous))
    case (RolledBack, Repromote) => Some(Transition(Repromoted, s.current))
    case _ => None
  }

  /** `next_rollout_action`: the next state, or nothing for the error. */
  function Next(s: State, action: Action): Option<State> {
    if !Valid(s) then None
    else
      match TransitionOf(s, action)
      case None => None
      case Some(t) => Some(s.(phase := t.phase, history := s.history + [Step(action, t.version, 100)]))
  }

  /** A version is five groups of hexadecimal digits. */
  lemma UuidMeans(s: string)
    ensures IsUuid(s) <==>
      && |s| == 36 && s[8] == s[13] == s[18] == s[23] == '-'
      && (forall i | 0 <= i < 36 :: s[i] == '-' || s[i] in "0123456789abcdef")
      && (forall i | 0 <= i < 36 && s[i] == '-' :: i in {8, 13, 18, 23})
  {
    assert forall c: char :: c in "0123456789abcdef" <==> HexChar(c);
  }

  /** The one history there is, as far as it has come. */
  function Course(s: State): seq<Step> {
    [Step(Promote, s.current, 100), Step(Rollback, s.previous, 100), Step(Repromote, s.current, 100)]
  }

  /** A state is valid exactly when it has come some way along that course, and says how far. */
  lemma ValidMeans(s: State)
    ensures Valid(s) <==>
      && IsUuid(s.current) && IsUuid(s.previous) && s.current != s.previous
      && s.history <= Course(s)
      && s.phase == [Uploaded, Promoted, RolledBack, Repromoted][|s.history|]
  {
    hide IsUuid;
  }

  /** An action is accepted exactly when it is the next one on the course of a valid state. */
  lemma NextMeans(s: State, action: Action)
    ensures Next(s, action).Some?
      <==> Valid(s) && |s.history| < 3 && action == [Promote, Rollback, Repromote][|s.history|]
  {
    hide IsUuid;
  }

  /** The states that some run of actions leads to; an action that is refused changes nothing. */
  function Run(s: State, actions: seq<Action>): State {
    if actions == [] then s
    else
      var before := Run(s, actions[..|actions| - 1]);
      match Next(before, actions[|actions| - 1])
      case None => before
      case Some(after) => after
  }

  ghost predicate Reachable(s: State) {
    exists actions :: NewState(s.current, s.previous).Some? && Run(NewState(s.current, s.previous).value, actions) == s
  }

  lemma NextStaysValid(s: State, action: Action)
    ensures Next(s, action).Some? ==>
      var after := Next(s, action).value;
      && Valid(after) && after.current == s.current && after.previous == s.previous
      && after.history == s.history + [Step(action, if action.Rollback? then s.previous else s.current, 100)]
  {
    hide IsUuid;
  }

  lemma {:induction false} RunsStayValid(s: State, actions: seq<Action>)
    requires Valid(s)
    ensures Valid(Run(s, actions)) && Run(s, actions).current == s.current && Run(s, actions).previous == s.previous
  {
    hide Valid, Next;
    if actions != [] {
      RunsStayValid(s, actions[..|actions| - 1]);
      NextStaysValid(Run(s, actions[..|actions| - 1]), actions[|actions| - 1]);
    }
  }

  function Script(phase: Phase): seq<Action> {
    match phase
    case Uploaded => []
    case Promoted => [Promote]
    case RolledBack => [Promote, Rollback]
    case Repromoted => [Promote, Rollback, Repromote]
  }

  lemma OneMoreAction(s: State, before: seq<Action>, action: Action)
    ensures Run(s, before + [action]) ==
      match Next(Run(s, before), action)
      case None => Run(s, before)
      case Some(after) => after
  {
    hide Next;
    assert (before + [action])[..|before|] == before;
  }

  /** The valid state of these two versions in a phase. */
  function Standing(s: State, phase: Phase): State {
    State(s.current, s.previous, phase, ExpectedHistory(s.(phase := phase)))
  }

  lemma Advances(s: State, phase: Phase, action: Action)
    requires Valid(s)
    ensures match TransitionOf(Standing(s, phase), action)
      case None => true
      case Some(t) => Next(Standing(s, phase), action) == Some(Standing(s, t.phase))
  {
    hide IsUuid;
    NextStaysValid(Standing(s, phase), action);
  }

  lemma Stands(s: State)
    requires Valid(s)
    ensures Standing(s, Uploaded) == State(s.current, s.previous, Uploaded, []) && Standing(s, s.phase) == s
    ensures Run(Standing(s, Uploaded), []) == Standing(s, Uploaded)
  {
    hide IsUuid;
  }

  lemma ScriptLeadsThere(s: State)
    requires Valid(s)
    ensures Run(State(s.current, s.previous, Uploaded, []), Script(s.phase)) == s
  {
    hide IsUuid, Run, Next, ExpectedHistory, Valid;
    var start := Standing(s, Uploaded);
    Stands(s);
    OneMoreAction(start, [], Promote);
    Advances(s, Uploaded, Promote);
    assert [] + [Promote] == [Promote];
    OneMoreAction(start, [Promote], Rollback);
    Advances(s, Promoted, Rollback);
    assert [Promote] + [Rollback] == [Promote, Rollback];
    OneMoreAction(start, [Promote, Rollback], Repromote);
    Advances(s, RolledBack, Repromote);
    assert [Promote, Rollback] + [Repromote] == [Promote, Rollback, Repromote];
  }

  /** The states that validation accepts are exactly those that rollouts reach. */
  lemma ValidIsReachable(s: State)
    ensures Valid(s) <==> Reachable(s)
  {
    hide IsUuid, Run;
    if Valid(s) {
      ScriptLeadsThere(s);
      assert Run(NewState(s.current, s.previous).value, Script(s.phase)) == s;
    }
    if Reachable(s) {
      var actions :| NewState(s.current, s.previous).Some? && Run(NewState(s.current, s.previous).value, actions) == s;
      RunsStayValid(NewState(s.current, s.previous).value, actions);
    }
  }
}
