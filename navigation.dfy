/** The widget's navigation state: whether the panel is open, the current view and the
    back-history stack, with one pure function per event handler. */
module Navigation {

  /** `View`: the welcome screen, one topic, or one sub-topic of a topic. */
  datatype View = Welcome | Query(key: string) | Sub(key: string, sub: string)

  datatype NavState = NavState(isOpen: bool, view: View, history: seq<View>)

  /** The state when the component mounts: closed, on the welcome view, nothing to go back to. */
  const Init := NavState(false, Welcome, [])

  /** `toggleBot`: flips the panel; opening it starts over on the welcome view. */
  function ToggleBot(s: NavState): (r: NavState)
    ensures r.isOpen == !s.isOpen
    ensures r.isOpen ==> r.view == Welcome && r.history == []
    ensures !r.isOpen ==> r.view == s.view && r.history == s.history
  {
    var open := !s.isOpen;
    if open then NavState(open, Welcome, []) else s.(isOpen := open)
  }

  /** `goBack`: pops the most recent view off the history and shows it; with an empty
      history nothing happens. */
  function GoBack(s: NavState): (r: NavState)
    ensures r.isOpen == s.isOpen
    ensures s.history == [] ==> r == s
    ensures s.history != [] ==> r.history + [r.view] == s.history
  {
    if |s.history| > 0 then
      var last := s.history[|s.history| - 1];
      s.(view := last, history := s.history[..|s.history| - 1])
    else s
  }

  /** `goHome`: back to the welcome view with an empty history, from any state. */
  function GoHome(s: NavState): (r: NavState)
    ensures r.view == Welcome && r.history == [] && r.isOpen == s.isOpen
  {
    s.(view := Welcome, history := [])
  }

  /** `handleQueryClick`: remembers the current view and shows topic `key`. */
  function HandleQueryClick(s: NavState, key: string): (r: NavState)
    ensures r.history == s.history + [s.view]
    ensures r.view == Query(key) && r.isOpen == s.isOpen
  {
    s.(view := Query(key), history := s.history + [s.view])
  }

  /** `handleSubQueryClick`: remembers the current view and shows sub-topic `sub` of `key`. */
  function HandleSubQueryClick(s: NavState, key: string, sub: string): (r: NavState)
    ensures r.history == s.history + [s.view]
    ensures r.view == Sub(key, sub) && r.isOpen == s.isOpen
  {
    s.(view := Sub(key, sub), history := s.history + [s.view])
  }

  /** The user actions, one per handler. */
  datatype Event = Toggle | Back | Home | QueryClick(key: string) | SubQueryClick(key: string, sub: string)

  function Step(s: NavState, e: Event): NavState {
    match e
    case Toggle => ToggleBot(s)
    case Back => GoBack(s)
    case Home => GoHome(s)
    case QueryClick(k) => HandleQueryClick(s, k)
    case SubQueryClick(k, sub) => HandleSubQueryClick(s, k, sub)
  }

  /** The state after handling `events` in order. */
  function Run(s: NavState, events: seq<Event>): NavState
    decreases |events|
  {
    if events == [] then s else Run(Step(s, events[0]), events[1..])
  }

  /** What holds in every reachable state: the history, when there is one, starts at the
      welcome view, and the welcome view is shown whenever the history is empty. */
  predicate Inv(s: NavState) {
    (s.history == [] ==> s.view == Welcome) && (s.history != [] ==> s.history[0] == Welcome)
  }

  lemma StepKeepsInv(s: NavState, e: Event)
    requires Inv(s)
    ensures Inv(Step(s, e))
  {
    match e
    case Back =>
      if s.history != [] {
        var r := GoBack(s);
        if r.history != [] {
          assert r.history[0] == (r.history + [r.view])[0];
        } else {
          assert [r.view] == s.history;
        }
      }
    case QueryClick(_) =>
      assert (s.history + [s.view])[0] == if s.history == [] then s.view else s.history[0];
    case SubQueryClick(_, _) =>
      assert (s.history + [s.view])[0] == if s.history == [] then s.view else s.history[0];
    case _ =>
  }

  lemma {:induction false} RunKeepsInv(s: NavState, events: seq<Event>)
    requires Inv(s)
    ensures Inv(Run(s, events))
    decreases |events|
  {
    if events != [] {
      StepKeepsInv(s, events[0]);
      RunKeepsInv(Step(s, events[0]), events[1..]);
    }
  }

  /** Every state reachable from the initial one satisfies the invariant. */
  lemma ReachableInv(events: seq<Event>)
    ensures Inv(Run(Init, events))
  {
    RunKeepsInv(Init, events);
  }

  /** Pressing back until the history is empty. */
  function BackAll(s: NavState): (r: NavState)
    ensures r.history == [] && r.isOpen == s.isOpen
    decreases |s.history|
  {
    if s.history == [] then s else BackAll(GoBack(s))
  }

  /** Going back until the history runs out ends on the welcome view. */
  lemma {:induction false} BackAllEndsOnWelcome(s: NavState)
    requires Inv(s)
    ensures BackAll(s).view == Welcome
    decreases |s.history|
  {
    if s.history != [] {
      StepKeepsInv(s, Back);
      BackAllEndsOnWelcome(GoBack(s));
    }
  }

  /** From any reachable state, going back until the history runs out ends on the welcome view. */
  lemma ReachableBacksToWelcome(events: seq<Event>)
    ensures BackAll(Run(Init, events)).view == Welcome
  {
    ReachableInv(events);
    BackAllEndsOnWelcome(Run(Init, events));
  }

  /** Back undoes a topic click. */
  lemma BackUndoesQueryClick(s: NavState, key: string)
    ensures GoBack(HandleQueryClick(s, key)) == s
  {
    assert (s.history + [s.view])[..|s.history|] == s.history;
  }

  /** Back undoes a sub-topic click. */
  lemma BackUndoesSubQueryClick(s: NavState, key: string, sub: string)
    ensures GoBack(HandleSubQueryClick(s, key, sub)) == s
  {
    assert (s.history + [s.view])[..|s.history|] == s.history;
  }

  /** Closing and reopening the panel gives the state of a first-ever open. */
  lemma CloseThenOpen(s: NavState)
    requires s.isOpen
    ensures ToggleBot(ToggleBot(s)) == ToggleBot(Init)
    ensures ToggleBot(Init) == NavState(true, Welcome, [])
  {
  }

  /** Home is idempotent and forgets everything that came before it. */
  lemma HomeForgetsPast(s: NavState, t: NavState)
    requires s.isOpen == t.isOpen
    ensures GoHome(s) == GoHome(t) == GoHome(GoHome(s))
  {
  }
}
