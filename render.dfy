/** `renderView`: what the panel body shows for the loaded content and the current view,
    as an abstract body (messages and button keys) rather than markup; and which handlers
    the rendered controls offer to the user. */
module Render {
  import opened Faq
  import opened Navigation

  /** The panel body. `Throws` stands for the TypeError raised when a view names a topic
      key the content does not hold. */
  datatype Body =
    | Loading
    | WelcomeBody(message: string, topics: seq<string>)
    | TopicBody(title: string, message: string, subtopics: Option<seq<string>>)
    | SubBody(title: string, answer: Option<string>)
    | Throws

  /** `queries[key].sub?.[sub]`, for a topic that exists. */
  function SubMessage(t: Topic, sub: string): Option<string> {
    if t.sub.Some? && sub in t.sub.value.entries then Some(t.sub.value.entries[sub]) else None
  }

  function RenderView(faq: Option<FAQData>, view: View): (r: Body)
    ensures r.Loading? <==> faq.None?
    ensures r.Throws? <==> faq.Some? && !view.Welcome? && view.key !in faq.value.queries.entries
  {
    match faq
    case None => Loading
    case Some(data) =>
      match view
      case Welcome => WelcomeBody(data.welcome, data.queries.order)
      case Query(key) =>
        if key !in data.queries.entries then Throws
        else
          var q := data.queries.entries[key];
          TopicBody(key, q.message, if q.sub.Some? then Some(q.sub.value.order) else None)
      case Sub(key, sub) =>
        if key !in data.queries.entries then Throws
        else SubBody(sub, SubMessage(data.queries.entries[key], sub))
  }

  /** The view names content that exists: its topic, and for a sub-topic view also the sub-key. */
  predicate Resolves(d: FAQData, v: View) {
    match v
    case Welcome => true
    case Query(key) => key in d.queries.entries
    case Sub(key, sub) =>
      key in d.queries.entries && SubMessage(d.queries.entries[key], sub).Some?
  }

  /** A view that resolves renders its content: the welcome message with one button per
      topic key; a topic's key and message with one button per sub-key when it has
      sub-topics and none otherwise; a sub-topic's key with its own answer. */
  lemma ResolvedRendersContent(d: FAQData, v: View)
    requires Resolves(d, v)
    ensures var r := RenderView(Some(d), v);
      && !r.Throws?
      && (v.Welcome? ==> r == WelcomeBody(d.welcome, d.queries.order))
      && (v.Query? ==>
            var t := d.queries.entries[v.key];
            && r.TopicBody? && r.title == v.key && r.message == t.message
            && r.subtopics == (if t.sub.Some? then Some(t.sub.value.order) else None))
      && (v.Sub? ==>
            var t := d.queries.entries[v.key];
            && r.SubBody? && r.title == v.sub
            && t.sub.Some? && v.sub in t.sub.value.entries
            && r.answer == Some(t.sub.value.entries[v.sub]))
  {
  }

  /** The events the panel offers in state `s`: the floating toggle always; back, close and
      home while open; a topic button per key on the welcome body; a sub-topic button per
      sub-key on a topic body. */
  predicate Offered(faq: Option<FAQData>, s: NavState, e: Event): (b: bool)
    ensures b && !e.Toggle? ==> s.isOpen
    ensures b && e.QueryClick? ==> faq.Some? && s.view == Welcome && e.key in faq.value.queries.order
    ensures b && e.SubQueryClick? ==> faq.Some? && s.view == Query(e.key)
  {
    match e
    case Toggle => true
    case Back => s.isOpen
    case Home => s.isOpen
    case QueryClick(key) =>
      var b := RenderView(faq, s.view);
      s.isOpen && b.WelcomeBody? && key in b.topics
    case SubQueryClick(key, sub) =>
      var b := RenderView(faq, s.view);
      s.isOpen && b.TopicBody? && b.subtopics.Some? && key == b.title && sub in b.subtopics.value
  }

  /** Every event of `events` is offered when it happens. */
  predicate OfferedRun(faq: Option<FAQData>, s: NavState, events: seq<Event>)
    decreases |events|
  {
    events == [] || (Offered(faq, s, events[0]) && OfferedRun(faq, Step(s, events[0]), events[1..]))
  }

  /** The views one passes through to reach `v` by clicking: the breadcrumb trail. */
  function Trail(v: View): (r: seq<View>)
    ensures v !in r
    ensures r != [] ==> r[0] == Welcome
    ensures |r| <= 2
  {
    match v
    case Welcome => []
    case Query(_) => [Welcome]
    case Sub(key, _) => [Welcome, Query(key)]
  }

  /** An offered event keeps the history equal to the trail of the current view. */
  lemma OfferedStepKeepsTrail(faq: Option<FAQData>, s: NavState, e: Event)
    requires s.history == Trail(s.view)
    requires Offered(faq, s, e)
    ensures Step(s, e).history == Trail(Step(s, e).view)
  {
    match e
    case Back =>
      if s.view.Sub? {
        assert [Welcome, Query(s.view.key)][..1] == [Welcome];
      }
    case _ =>
  }

  /** Clicking only what the panel offers, the history is always the trail of the current
      view: it never holds the current view, and at most two presses of back reach welcome. */
  lemma {:induction false} OfferedRunKeepsTrail(faq: Option<FAQData>, s: NavState, events: seq<Event>)
    requires s.history == Trail(s.view)
    requires OfferedRun(faq, s, events)
    ensures Run(s, events).history == Trail(Run(s, events).view)
    decreases |events|
  {
    if events != [] {
      OfferedStepKeepsTrail(faq, s, events[0]);
      OfferedRunKeepsTrail(faq, Step(s, events[0]), events[1..]);
    }
  }

  /** The current view and every view on the history resolve. */
  predicate AllResolve(d: FAQData, s: NavState) {
    Resolves(d, s.view) && forall v :: v in s.history ==> Resolves(d, v)
  }

  /** An offered event leads only to views that resolve. */
  lemma OfferedStepResolves(d: FAQData, s: NavState, e: Event)
    requires WellFormed(d)
    requires AllResolve(d, s)
    requires Offered(Some(d), s, e)
    ensures AllResolve(d, Step(s, e))
  {
    match e
    case Back =>
      if s.history != [] {
        var r := GoBack(s);
        assert r.view in s.history;
        forall v | v in r.history
          ensures Resolves(d, v)
        {
          assert v in r.history + [r.view];
        }
      }
    case QueryClick(key) =>
      assert key in d.queries.order;
    case SubQueryClick(key, sub) =>
      assert s.view == Query(key);
      assert Decoded(d.queries.entries[key]);
    case _ =>
  }

  lemma {:induction false} OfferedRunResolves(d: FAQData, s: NavState, events: seq<Event>)
    requires WellFormed(d)
    requires AllResolve(d, s)
    requires OfferedRun(Some(d), s, events)
    ensures AllResolve(d, Run(s, events))
    decreases |events|
  {
    if events != [] {
      OfferedStepResolves(d, s, events[0]);
      OfferedRunResolves(d, Step(s, events[0]), events[1..]);
    }
  }

  /** With well-formed content loaded, a user who clicks only what the panel offers never
      reaches a view whose rendering throws or shows an empty message, and the history is
      always the trail of the current view. */
  lemma OfferedNavigationIsConsistent(d: FAQData, events: seq<Event>)
    requires WellFormed(d)
    requires OfferedRun(Some(d), Init, events)
    ensures var s := Run(Init, events);
      && s.history == Trail(s.view)
      && (forall v :: v in s.history ==> Resolves(d, v))
      && !RenderView(Some(d), s.view).Throws?
      && (s.view.Sub? ==> RenderView(Some(d), s.view).answer.Some?)
  {
    OfferedRunKeepsTrail(Some(d), Init, events);
    OfferedRunResolves(d, Init, events);
    ResolvedRendersContent(d, Run(Init, events).view);
  }

  /** Until the content is published the body is the loading placeholder, whatever the view. */
  lemma LoadingUntilPublished(view: View)
    ensures RenderView(None, view) == Loading
  {
  }
}
