/** The component's documented example runs, on the sample tree of football
    leagues and book categories. */
module ChatScenarios {
  import opened Wrappers
  import opened Topics
  import opened Chat
  import Decimal

  function Leaf(name: string): Topic {
    Topic(name, None)
  }

  function Node(name: string, children: seq<Topic>): Topic {
    Topic(name, Some(children))
  }

  function PremierLeague(): Topic {
    Node("Premier League", [Leaf("Liverpool"), Leaf("Man. UTD"), Leaf("Man. City")])
  }

  function Football(): Topic {
    Node("Football", [PremierLeague(), Node("Serie A", [Leaf("Milan"), Leaf("Inter"), Leaf("Juventus")])])
  }

  function Books(): Topic {
    Node("Books", [
      Node("Investment", [Leaf("The Intelligent Investor - Benjamin Graham"),
                          Leaf("Rich Dad, Poor Dad - Robert Kiyosaki")]),
      Node("Children", [Leaf("Momo - Michael Ende"), Leaf("BFG - Roald Dahl")])])
  }

  function SampleTree(): seq<Topic> {
    [Football(), Books()]
  }

  /** A representative arrives, its picture path is derived, and the tree that
      the follow-up fetch delivers becomes the offered list. */
  lemma FetchRepresentativeThenTopics()
    ensures var s1 := GetRepresentative(Initial());
            && s1.request == Some(FetchRepresentative)
            && var s2 := OnRepresentativeLoaded(s1.state, Representative(NumId(1), "Alice", true));
               && s2.state.representativeName == Some("Alice")
               && s2.state.representativeImage == Some("assets/profile-pictures/1.jpeg")
               && s2.request == Some(FetchTopics)
               && OnTopicsLoaded(s2.state, SampleTree()).state.topics == SampleTree()
  {
    assert Decimal.DigitChar(1) == '1';
    assert ImagePath(NumId(1)) == "assets/profile-pictures/1.jpeg";
  }

  /** A second response whose id is null keeps the first representative's
      picture; one without an id points at "undefined.jpeg". */
  lemma ResponseWithoutUsableId()
    ensures var alice := OnRepresentativeLoaded(Initial(), Representative(NumId(1), "Alice", true)).state;
            && OnRepresentativeLoaded(alice, Representative(NullId, "Bob", true)).state.representativeImage
               == Some("assets/profile-pictures/1.jpeg")
            && OnRepresentativeLoaded(alice, Representative(UndefinedId, "Bob", true)).state.representativeImage
               == Some("assets/profile-pictures/undefined.jpeg")
  {
    assert Decimal.DigitChar(1) == '1';
    assert ImagePath(NumId(1)) == "assets/profile-pictures/1.jpeg";
    assert ImagePath(UndefinedId) == "assets/profile-pictures/undefined.jpeg";
  }

  /** A failed representative fetch leaves every field at its initial value. */
  lemma RepresentativeFetchFails()
    ensures OnRepresentativeFailed(Initial(), TransportError(500, "Internal Server Error")).state == Initial()
  {
  }

  /** Football, then Premier League, then back twice: the first back returns to
      Football, the second finds no history and only asks for a reload. */
  lemma SelectAndGoBackTwice()
    ensures var s0 := Initial().(topics := SampleTree());
            var s1 := SelectTopic(s0, Football());
            var s2 := SelectTopic(s1, PremierLeague());
            var b1 := GoBack(s2);
            var b2 := GoBack(b1.state);
            && s1.selectedTopic == Some(Football()) && s1.topics == Suggestions(Football()) && !s1.depthReached
            && s2.selectedTopic == Some(PremierLeague()) && s2.topics == Suggestions(PremierLeague()) && !s2.depthReached
            && b1.state.selectedTopic == Some(Football()) && b1.state.topics == Suggestions(Football())
            && !b1.state.depthReached
            && b2.request == Some(FetchTopics)
            && b2.state.selectedTopic == Some(Football()) && b2.state.topics == Suggestions(Football())
            && !b2.state.atFirstLevel
  {
  }

  /** Down to a leaf and one step back. */
  lemma LeafThenBack()
    ensures var s0 := Initial().(topics := SampleTree());
            var s3 := SelectTopic(SelectTopic(SelectTopic(s0, Football()), PremierLeague()), Leaf("Liverpool"));
            var b := GoBack(s3).state;
            && s3.topics == [] && s3.depthReached && !ShowBackButton(s3)
            && b.selectedTopic == Some(PremierLeague()) && b.topics == Suggestions(PremierLeague())
            && !b.depthReached
  {
  }

  /** Start again clears the name at once and keeps it cleared after the reload. */
  lemma StartAgainAfterLoad()
    ensures var loaded := OnTopicsLoaded(OnRepresentativeLoaded(Initial(), Representative(NumId(1), "Alice", true)).state,
                                         SampleTree()).state;
            var restarted := StartAgain(loaded);
            var reloaded := OnTopicsLoaded(restarted.state, SampleTree()).state;
            && loaded.representativeName == Some("Alice") && |loaded.topics| > 0
            && restarted.request == Some(FetchTopics)
            && reloaded.representativeName.None? && |reloaded.topics| > 0
  {
  }

  /** The back button appears after the first selection and not before. */
  lemma BackButtonVisibility()
    ensures !ShowBackButton(Initial())
    ensures ShowBackButton(SelectTopic(Initial().(topics := SampleTree()), Football()))
  {
  }
}
