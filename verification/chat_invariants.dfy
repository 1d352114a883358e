/** Invariants of the navigation state and the laws that relate its transitions. */
module ChatInvariants {
  import opened Wrappers
  import opened Topics
  import opened Chat

  /** The relations between the navigation fields that every reachable state keeps. */
  predicate Inv(s: ChatState) {
    && (s.atFirstLevel <==> s.selectedTopic.None?)
    && (s.atFirstLevel ==> s.topicHistory == [])
    && (s.selectedTopic.None? ==> !s.depthReached)
    && (s.selectedTopic.Some? ==> s.topics == Suggestions(s.selectedTopic.value))
    && (s.selectedTopic.Some? ==> (s.depthReached <==> s.topics == []))
  }

  /** The selections leading from the root list to the current one. */
  function Chain(s: ChatState): seq<Topic> {
    match s.selectedTopic
    case None => []
    case Some(t) => s.topicHistory + [t]
  }

  /** `chain` walks down the tree: it starts in `root` and each entry is a
      suggestion of the one before. */
  predicate IsPath(root: seq<Topic>, chain: seq<Topic>) {
    && (|chain| > 0 ==> chain[0] in root)
    && forall i :: 0 < i < |chain| ==> chain[i] in Suggestions(chain[i - 1])
  }

  /** The state sits somewhere in the tree whose top level is `root`. */
  predicate OnPath(root: seq<Topic>, s: ChatState) {
    && Inv(s)
    && IsPath(root, Chain(s))
    && (s.selectedTopic.None? ==> s.topics == root)
  }

  // ---------------------------------------------------------------- the invariant

  lemma InitialState()
    ensures Inv(Initial())
    ensures OnPath([], Initial())
    ensures !ShowBackButton(Initial())
  {
  }

  lemma InvDepthReachedMeansEmpty(s: ChatState)
    requires Inv(s)
    ensures s.depthReached ==> s.topics == []
    ensures s.atFirstLevel ==> s.topicHistory == []
  {
  }

  /** The history is empty exactly when the state is at the root or one level below it. */
  lemma HistoryEmptyIffShallow(s: ChatState)
    requires Inv(s)
    ensures s.topicHistory == [] <==> |Chain(s)| <= 1
  {
  }

  /** Resetting a state that offers `root` puts it at the root of that tree,
      consistent and without a back button; resetting again changes nothing. */
  lemma ResetStateLandsAtRoot(root: seq<Topic>, s: ChatState)
    requires s.topics == root
    ensures OnPath(root, ResetState(s))
    ensures !ShowBackButton(ResetState(s))
    ensures ResetState(ResetState(s)) == ResetState(s)
  {
  }

  lemma SelectTopicKeepsInv(s: ChatState, t: Topic)
    requires Inv(s)
    ensures Inv(SelectTopic(s, t))
  {
  }

  lemma GoBackKeepsInv(s: ChatState)
    requires Inv(s)
    ensures Inv(GoBack(s).state)
  {
  }

  lemma ApplyKeepsInv(s: ChatState, e: Event)
    requires Inv(s)
    ensures Inv(Apply(s, e).state)
  {
    match e
    case Select(t) => SelectTopicKeepsInv(s, t);
    case Back => GoBackKeepsInv(s);
    case _ =>
  }

  /** Every sequence of events from a consistent state leaves it consistent. */
  lemma {:induction false} RunKeepsInv(s: ChatState, events: seq<Event>)
    requires Inv(s)
    ensures Inv(Run(s, events))
    decreases |events|
  {
    if |events| > 0 {
      ApplyKeepsInv(s, events[0]);
      RunKeepsInv(Apply(s, events[0]).state, events[1..]);
    }
  }

  lemma ReachableStatesAreConsistent(events: seq<Event>)
    ensures Inv(Run(Initial(), events))
  {
    InitialState();
    RunKeepsInv(Initial(), events);
  }

  // ---------------------------------------------------------------- the back button

  /** In a consistent state the back button shows exactly when a selection is
      made and it still offers something to pick. */
  lemma ShowBackButtonMeaning(s: ChatState)
    requires Inv(s)
    ensures ShowBackButton(s) <==> s.selectedTopic.Some? && s.topics != []
  {
  }

  lemma NoBackButtonAtLeaf(s: ChatState, t: Topic)
    requires IsLeaf(t)
    ensures !ShowBackButton(SelectTopic(s, t))
  {
  }

  lemma BackButtonAfterFirstSelection(s: ChatState, t: Topic)
    requires Inv(s) && s.atFirstLevel && !IsLeaf(t)
    ensures ShowBackButton(SelectTopic(s, t))
    ensures SelectTopic(s, t).topicHistory == []
  {
  }

  // ---------------------------------------------------------------- round trips

  /** Selecting a topic and going back restores the whole state when a topic
      was already selected. */
  lemma SelectThenBack(s: ChatState, t: Topic)
    requires Inv(s) && s.selectedTopic.Some?
    ensures GoBack(SelectTopic(s, t)) == Step(s, None)
  {
    var mid := SelectTopic(s, t);
    assert mid.topicHistory[..|mid.topicHistory| - 1] == s.topicHistory;
  }

  /** From the root there is nothing to pop: going back after the first selection
      reloads the topics, and once the same list arrives the state is as before. */
  lemma SelectFromRootThenBack(root: seq<Topic>, s: ChatState, t: Topic)
    requires OnPath(root, s) && s.atFirstLevel
    ensures GoBack(SelectTopic(s, t)) == Step(SelectTopic(s, t), Some(FetchTopics))
    ensures OnTopicsLoaded(GoBack(SelectTopic(s, t)).state, root) == Step(s, None)
  {
  }

  /** Going back never returns to the first level, whatever the history held:
      the state-level form of the test expectation that a second back from one
      level deep leaves `atFirstLevel` false (chat.component.spec.ts:165-171). */
  lemma GoBackNeverReachesFirstLevel(s: ChatState)
    requires !s.atFirstLevel
    ensures !GoBack(s).state.atFirstLevel
  {
  }

  // ---------------------------------------------------------------- the path invariant

  lemma {:induction false} PrefixOfPath(root: seq<Topic>, chain: seq<Topic>, n: nat)
    requires IsPath(root, chain) && n <= |chain|
    ensures IsPath(root, chain[..n])
  {
    if n > 0 {
      assert chain[..n][0] == chain[0];
    }
    forall i | 0 < i < n
      ensures chain[..n][i] in Suggestions(chain[..n][i - 1])
    {
      assert chain[..n][i] == chain[i] && chain[..n][i - 1] == chain[i - 1];
    }
  }

  lemma {:induction false} ExtendPath(root: seq<Topic>, chain: seq<Topic>, t: Topic)
    requires IsPath(root, chain)
    requires |chain| == 0 ==> t in root
    requires |chain| > 0 ==> t in Suggestions(chain[|chain| - 1])
    ensures IsPath(root, chain + [t])
  {
    var ext := chain + [t];
    if |chain| > 0 {
      assert ext[0] == chain[0];
    }
    forall i | 0 < i < |ext|
      ensures ext[i] in Suggestions(ext[i - 1])
    {
      if i < |chain| {
        assert ext[i] == chain[i] && ext[i - 1] == chain[i - 1];
      }
    }
  }

  /** Choosing one of the offered topics moves one level down the tree. */
  lemma {:induction false} SelectOfferedKeepsPath(root: seq<Topic>, s: ChatState, t: Topic)
    requires OnPath(root, s) && t in s.topics
    ensures OnPath(root, SelectTopic(s, t))
    ensures Chain(SelectTopic(s, t)) == Chain(s) + [t]
  {
    var r := SelectTopic(s, t);
    SelectTopicKeepsInv(s, t);
    match s.selectedTopic
    case None =>
      assert Chain(s) == [];
      ExtendPath(root, Chain(s), t);
    case Some(u) =>
      assert Chain(s)[|Chain(s)| - 1] == u;
      ExtendPath(root, Chain(s), t);
  }

  /** Going back moves one level up the tree, or leaves the state for a reload. */
  lemma {:induction false} GoBackKeepsPath(root: seq<Topic>, s: ChatState)
    requires OnPath(root, s)
    ensures OnPath(root, GoBack(s).state)
    ensures |s.topicHistory| > 0 ==> Chain(GoBack(s).state) == Chain(s)[..|Chain(s)| - 1]
  {
    GoBackKeepsInv(s);
    if |s.topicHistory| > 0 {
      var r := GoBack(s).state;
      var h := s.topicHistory;
      assert Chain(r) == h;
      assert Chain(s) == h + [s.selectedTopic.value];
      assert Chain(s)[..|h|] == h;
      PrefixOfPath(root, Chain(s), |h|);
    }
  }

  /** The top-level list last delivered, starting from `root`. */
  function RootAfter(root: seq<Topic>, events: seq<Event>): seq<Topic>
    decreases |events|
  {
    if |events| == 0 then root
    else RootAfter(if events[0].TopicsLoaded? then events[0].response else root, events[1..])
  }

  /** Every selection in `events` picks a topic offered at that moment. */
  predicate OffersEverySelection(s: ChatState, events: seq<Event>)
    decreases |events|
  {
    |events| > 0 ==>
      && (events[0].Select? ==> events[0].topic in s.topics)
      && OffersEverySelection(Apply(s, events[0]).state, events[1..])
  }

  lemma {:induction false} ApplyKeepsPath(root: seq<Topic>, s: ChatState, e: Event)
    requires OnPath(root, s)
    requires e.Select? ==> e.topic in s.topics
    ensures OnPath(if e.TopicsLoaded? then e.response else root, Apply(s, e).state)
  {
    match e
    case Select(t) => SelectOfferedKeepsPath(root, s, t);
    case Back => GoBackKeepsPath(root, s);
    case _ =>
  }

  /** When the user only ever picks offered topics, the selections always form a
      path down the most recently loaded tree. */
  lemma {:induction false} RunKeepsPath(root: seq<Topic>, s: ChatState, events: seq<Event>)
    requires OnPath(root, s) && OffersEverySelection(s, events)
    ensures OnPath(RootAfter(root, events), Run(s, events))
    decreases |events|
  {
    if |events| > 0 {
      var e := events[0];
      var root' := if e.TopicsLoaded? then e.response else root;
      ApplyKeepsPath(root, s, e);
      RunKeepsPath(root', Apply(s, e).state, events[1..]);
    }
  }
}
