/** The `Chatbot` component: its four pieces of state and its event handlers, each handler
    one atomic update of the fields that reads their current values. */
module Widget {
  import opened Faq
  import opened Navigation
  import Content
  import Render

  class Chatbot {
    var isOpen: bool
    var faqData: Option<FAQData>
    var view: View
    var history: seq<View>

    /** The navigation part of the state, as the pure model sees it. */
    function State(): NavState
      reads this
    {
      NavState(isOpen, view, history)
    }

    ghost predicate Valid()
      reads this
    {
      Inv(State())
    }

    /** The initial state: closed, no content yet, welcome view, empty history. */
    constructor ()
      ensures Valid() && State() == Init && faqData == None
    {
      isOpen := false;
      faqData := None;
      view := Welcome;
      history := [];
    }

    /** The mount effect: runs `fetchWelcome` against the given network outcomes and
        publishes the content only when every request succeeded; otherwise `faqData` keeps
        its value. */
    method LoadContent(welcome: Option<Content.WelcomeReply>, replies: seq<Option<Topic>>)
      requires Valid()
      modifies this
      ensures Valid() && State() == old(State())
      ensures welcome.Some? && Content.AllAnswered(|welcome.value.queries|, replies) ==>
                && faqData.Some?
                && faqData.value.welcome == welcome.value.message
                && Content.Assembled(welcome.value.queries, replies, faqData.value.queries)
      ensures !(welcome.Some? && Content.AllAnswered(|welcome.value.queries|, replies)) ==>
                faqData == old(faqData)
    {
      var loaded := Content.FetchWelcome(welcome, replies);
      if loaded.Some? {
        faqData := loaded;
      }
    }

    /** `toggleBot`: flips the panel; opening it resets the view and the history. */
    method ToggleBot()
      requires Valid()
      modifies this
      ensures Valid() && faqData == old(faqData)
      ensures isOpen == !old(isOpen)
      ensures isOpen ==> view == Welcome && history == []
      ensures !isOpen ==> view == old(view) && history == old(history)
      ensures State() == Step(old(State()), Toggle)
    {
      StepKeepsInv(State(), Toggle);
      var open := !isOpen;
      isOpen := open;
      if open {
        view := Welcome;
        history := [];
      }
    }

    /** `goBack`: shows the last view of the history and drops it; with an empty history
        nothing changes. */
    method GoBack()
      requires Valid()
      modifies this
      ensures Valid() && faqData == old(faqData) && isOpen == old(isOpen)
      ensures old(history) == [] ==> view == old(view) && history == []
      ensures old(history) != [] ==>
                && view == old(history)[|old(history)| - 1]
                && history == old(history)[..|old(history)| - 1]
      ensures State() == Step(old(State()), Back)
    {
      StepKeepsInv(State(), Back);
      if |history| > 0 {
        var prev := history;
        var last := prev[|prev| - 1];
        prev := prev[..|prev| - 1];
        history := prev;
        view := last;
      }
    }

    /** `goHome`: welcome view, empty history, whatever the state was. */
    method GoHome()
      requires Valid()
      modifies this
      ensures Valid() && faqData == old(faqData) && isOpen == old(isOpen)
      ensures view == Welcome && history == []
      ensures State() == Step(old(State()), Home)
    {
      view := Welcome;
      history := [];
    }

    /** `handleQueryClick`: pushes the current view and shows topic `key`. The key is not
        checked against the content. */
    method HandleQueryClick(key: string)
      requires Valid()
      modifies this
      ensures Valid() && faqData == old(faqData) && isOpen == old(isOpen)
      ensures history == old(history) + [old(view)]
      ensures view == Query(key)
      ensures State() == Step(old(State()), QueryClick(key))
    {
      StepKeepsInv(State(), QueryClick(key));
      history := history + [view];
      view := Query(key);
    }

    /** `handleSubQueryClick`: pushes the current view and shows sub-topic `sub` of `key`.
        Neither key is checked against the content. */
    method HandleSubQueryClick(key: string, sub: string)
      requires Valid()
      modifies this
      ensures Valid() && faqData == old(faqData) && isOpen == old(isOpen)
      ensures history == old(history) + [old(view)]
      ensures view == Sub(key, sub)
      ensures State() == Step(old(State()), SubQueryClick(key, sub))
    {
      StepKeepsInv(State(), SubQueryClick(key, sub));
      history := history + [view];
      view := Sub(key, sub);
    }
  }

  /** The content of one session: the welcome request returns "Hi!" with the keys
      "About Us" and "Products", and both topic requests succeed. */
  const SessionKeys: seq<string> := ["About Us", "Products"]
  const AboutUs := Topic("We export...", Some(Dict(["Mission"], map["Mission" := "Quality first."])))
  const SessionReplies: seq<Option<Topic>> := [Some(AboutUs), Some(Topic("Our products...", None))]

  /** The object published for that content lists both keys in order. */
  lemma SessionAssembled(queries: Dict<Topic>)
    requires Content.Assembled(SessionKeys, SessionReplies, queries)
    ensures queries.order == SessionKeys
    ensures "About Us" in queries.entries && queries.entries["About Us"] == AboutUs
  {
    assert Distinct(SessionKeys) by { assert SessionKeys[0][0] != SessionKeys[1][0]; }
    Content.AssembledDistinct(SessionKeys, SessionReplies, queries);
    assert SessionKeys[0] == "About Us";
  }

  /** What the panel shows for that content on the "Mission" sub-topic and on welcome. */
  lemma SessionRenders(d: FAQData)
    requires d.welcome == "Hi!" && Content.Assembled(SessionKeys, SessionReplies, d.queries)
    ensures Render.RenderView(Some(d), Sub("About Us", "Mission")) == Render.SubBody("Mission", Some("Quality first."))
    ensures Render.RenderView(Some(d), Welcome) == Render.WelcomeBody("Hi!", ["About Us", "Products"])
  {
    SessionAssembled(d.queries);
    var mission := AboutUs.sub.value;
    assert "Mission" in mission.entries && mission.entries["Mission"] == "Quality first.";
    assert Render.SubMessage(d.queries.entries["About Us"], "Mission") == Some("Quality first.");
  }

  /** The session: with that content loaded, the user opens the panel, picks "About Us",
      then its sub-topic "Mission", and presses back twice. The sub-topic's answer is shown,
      and the session ends on the welcome view with the loaded topic list unchanged. */
  method AboutUsSession() returns (onMission: Render.Body, atEnd: Render.Body, final: NavState)
    ensures onMission == Render.SubBody("Mission", Some("Quality first."))
    ensures atEnd == Render.WelcomeBody("Hi!", ["About Us", "Products"])
    ensures final == NavState(true, Welcome, [])
  {
    var bot := new Chatbot();
    bot.LoadContent(Some(Content.WelcomeReply("Hi!", SessionKeys)), SessionReplies);
    ghost var d := bot.faqData.value;
    SessionRenders(d);

    bot.ToggleBot();
    bot.HandleQueryClick("About Us");
    bot.HandleSubQueryClick("About Us", "Mission");
    assert bot.faqData == Some(d);
    onMission := Render.RenderView(bot.faqData, bot.view);
    bot.GoBack();
    bot.GoBack();
    assert bot.faqData == Some(d) && bot.view == Welcome;
    atEnd := Render.RenderView(bot.faqData, bot.view);
    final := bot.State();
  }
}
