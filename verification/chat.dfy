/** The chat component's navigation state machine. Every operation is a pure
    transition on ChatState; an operation that starts an HTTP fetch returns the
    state together with the request it issues, and the fetch's outcome is
    applied later by a separate result transition. */
module Chat {
  import opened Wrappers
  import opened Topics
  import Decimal

  /** What `response.id` can hold. The field is declared `number | null` and
      starts as null; the service's response type declares no `id` at all, so a
      response without one stores undefined. */
  datatype IdValue = NullId | UndefinedId | NumId(n: int)

  /** The representative record the backend returns; `isAvailable` is never read. */
  datatype Representative = Representative(id: IdValue, name: string, isAvailable: bool)

  /** A failed fetch: status code and text, only ever logged. */
  datatype TransportError = TransportError(status: int, statusText: string)

  /** The fetches the component can start. */
  datatype Request = FetchRepresentative | FetchTopics

  datatype ChatState = ChatState(
    representativeName: Option<string>,
    representativeImage: Option<string>,
    representativeId: IdValue,
    topics: seq<Topic>,            // the list currently offered
    selectedTopic: Option<Topic>,
    depthReached: bool,
    topicHistory: seq<Topic>,      // earlier selections, most recent last
    atFirstLevel: bool
  )

  /** A transition's outcome: the new state and the fetch it starts, if any. */
  datatype Step = Step(state: ChatState, request: Option<Request>)

  /** The field initialisers of the component. */
  function Initial(): (s: ChatState)
    ensures s.representativeName.None? && s.representativeImage.None? && s.representativeId.NullId?
    ensures s.topics == [] && s.selectedTopic.None? && s.topicHistory == []
    ensures !s.depthReached && s.atFirstLevel
  {
    ChatState(None, None, NullId, [], None, false, [], true)
  }

  /** True when only the three representative fields may differ. */
  predicate SameNavigation(s: ChatState, t: ChatState) {
    && s.topics == t.topics
    && s.selectedTopic == t.selectedTopic
    && s.depthReached == t.depthReached
    && s.topicHistory == t.topicHistory
    && s.atFirstLevel == t.atFirstLevel
  }

  /** True when only the navigation fields may differ. */
  predicate SameRepresentative(s: ChatState, t: ChatState) {
    && s.representativeName == t.representativeName
    && s.representativeImage == t.representativeImage
    && s.representativeId == t.representativeId
  }

  // ---------------------------------------------------------------- representative

  const ImagePrefix: string := "assets/profile-pictures/"
  const ImageSuffix: string := ".jpeg"

  /** `${id}`: how a template literal spells each kind of id value. */
  function IdText(id: IdValue): (t: string)
    ensures id.NumId? ==> |t| >= 1 && (t[0] == '-' || Decimal.IsDigit(t[0]))
  {
    match id
    case NullId => "null"
    case UndefinedId => "undefined"
    case NumId(n) => Decimal.IntToDecimal(n)
  }

  /** Reads an id back from its spelling; None for any other text. */
  function ParseIdText(t: string): Option<IdValue> {
    if t == "null" then Some(NullId)
    else if t == "undefined" then Some(UndefinedId)
    else match Decimal.ParseInt(t)
      case Some(n) => Some(NumId(n))
      case None => None
  }

  /** The profile picture path the template literal builds from an id value. */
  function ImagePath(id: IdValue): (p: string)
    ensures |p| > |ImagePrefix| + |ImageSuffix|
    ensures p[..|ImagePrefix|] == ImagePrefix
    ensures p[|p| - |ImageSuffix|..] == ImageSuffix
    ensures ImageId(p) == Some(id)
  {
    ImageRoundTrip(id);
    ImagePrefix + IdText(id) + ImageSuffix
  }

  /** The id a profile picture path was built from, if it is such a path. */
  function ImageId(p: string): Option<IdValue> {
    if |p| >= |ImagePrefix| + |ImageSuffix|
       && p[..|ImagePrefix|] == ImagePrefix
       && p[|p| - |ImageSuffix|..] == ImageSuffix
    then ParseIdText(p[|ImagePrefix|..|p| - |ImageSuffix|])
    else None
  }

  /** getRepresentative(): issues the representative fetch and changes nothing yet. */
  function GetRepresentative(s: ChatState): (r: Step)
    ensures r.state == s
    ensures r.request == Some(FetchRepresentative)
  {
    Step(s, Some(FetchRepresentative))
  }

  /** loadRepresentativeImage(): sets the picture path unless the id is null.
      `undefined !== null` holds, so an undefined id still gets a path. */
  function LoadRepresentativeImage(s: ChatState): (r: ChatState)
    ensures s.representativeId.NullId? ==> r == s
    ensures !s.representativeId.NullId? ==>
              && r.representativeImage.Some?
              && ImageId(r.representativeImage.value) == Some(s.representativeId)
    ensures r.representativeName == s.representativeName && r.representativeId == s.representativeId
    ensures SameNavigation(s, r)
  {
    if s.representativeId != NullId then
      s.(representativeImage := Some(ImagePath(s.representativeId)))
    else
      s
  }

  /** The success handler of getRepresentative(): records name and id, derives
      the picture, and starts a topic load. A null id leaves whatever picture
      was shown before. */
  function OnRepresentativeLoaded(s: ChatState, rep: Representative): (r: Step)
    ensures r.state.representativeName == Some(rep.name)
    ensures r.state.representativeId == rep.id
    ensures rep.id.NullId? ==> r.state.representativeImage == s.representativeImage
    ensures !rep.id.NullId? ==>
              && r.state.representativeImage.Some?
              && ImageId(r.state.representativeImage.value) == Some(rep.id)
    ensures SameNavigation(s, r.state)
    ensures r.request == Some(FetchTopics)
  {
    var named := s.(representativeName := Some(rep.name), representativeId := rep.id);
    LoadTopics(LoadRepresentativeImage(named))
  }

  /** The error handler of getRepresentative(): only logs. */
  function OnRepresentativeFailed(s: ChatState, err: TransportError): (r: Step)
    ensures r.state == s && r.request.None?
  {
    Step(s, None)
  }

  // ---------------------------------------------------------------- topics

  /** loadTopics(): issues the topic fetch and changes nothing yet. */
  function LoadTopics(s: ChatState): (r: Step)
    ensures r.state == s
    ensures r.request == Some(FetchTopics)
  {
    Step(s, Some(FetchTopics))
  }

  /** resetState(): back to the root of whatever list is offered. */
  function ResetState(s: ChatState): (r: ChatState)
    ensures r.topicHistory == [] && r.selectedTopic.None?
    ensures !r.depthReached && r.atFirstLevel
    ensures r.topics == s.topics
    ensures SameRepresentative(s, r)
  {
    s.(topicHistory := [], selectedTopic := None, depthReached := false, atFirstLevel := true)
  }

  /** The success handler of loadTopics(): the response becomes the root list. */
  function OnTopicsLoaded(s: ChatState, response: seq<Topic>): (r: Step)
    ensures r.state.topics == response
    ensures r.state.topicHistory == [] && r.state.selectedTopic.None?
    ensures !r.state.depthReached && r.state.atFirstLevel
    ensures SameRepresentative(s, r.state)
    ensures r.request.None?
  {
    var loaded := s.(topics := response, topicHistory := [], selectedTopic := None,
                     depthReached := false, atFirstLevel := true);
    Step(ResetState(loaded), None)
  }

  /** The error handler of loadTopics(): only logs. */
  function OnTopicsFailed(s: ChatState, err: TransportError): (r: Step)
    ensures r.state == s && r.request.None?
  {
    Step(s, None)
  }

  // ---------------------------------------------------------------- navigation

  /** selectTopic(t): descends into `t`, saving the previous selection unless at the root. */
  function SelectTopic(s: ChatState, t: Topic): (r: ChatState)
    ensures r.selectedTopic == Some(t)
    ensures r.topics == Suggestions(t)
    ensures r.depthReached <==> IsLeaf(t)
    ensures !r.atFirstLevel
    ensures s.selectedTopic.Some? && !s.atFirstLevel ==>
              r.topicHistory == s.topicHistory + [s.selectedTopic.value]
    ensures s.selectedTopic.None? || s.atFirstLevel ==> r.topicHistory == s.topicHistory
    ensures SameRepresentative(s, r)
  {
    var history := if s.selectedTopic.Some? && !s.atFirstLevel
                   then s.topicHistory + [s.selectedTopic.value]
                   else s.topicHistory;
    var topics := Suggestions(t);
    s.(topicHistory := history, selectedTopic := Some(t), topics := topics,
       depthReached := |topics| == 0, atFirstLevel := false)
  }

  /** `xs[i]` in TypeScript: the element, or undefined (None) out of bounds. */
  function At(xs: seq<Topic>, i: int): (r: Option<Topic>)
    ensures r.Some? <==> 0 <= i < |xs|
    ensures r.Some? ==> r.value == xs[i]
  {
    if 0 <= i < |xs| then Some(xs[i]) else None
  }

  /** TypeScript's `==` on a topic-or-nullish value: null and undefined (both None)
      are loosely equal to each other and to nothing else. Two objects compare by
      identity in TypeScript; the model compares topics structurally. Because None
      stands for both nullish values, loose equality is then plain equality. */
  predicate LooseEquals(a: Option<Topic>, b: Option<Topic>)
    ensures LooseEquals(a, b) <==> a == b
  {
    match (a, b)
    case (None, None) => true
    case (Some(x), Some(y)) => x == y
    case _ => false
  }

  /** The atFirstLevel expression goBack() evaluates after popping `popped` off the
      history, written as the source writes it; it can never hold. */
  function FirstLevelAfterPop(history: seq<Topic>, popped: Topic): (atFirst: bool)
    ensures !atFirst
  {
    |history| == 0 && LooseEquals(At(history, 0), Some(popped))
  }

  /** goBack(): pops the previous selection, or reloads the topics when there is none. */
  function GoBack(s: ChatState): (r: Step)
    ensures |s.topicHistory| == 0 ==> r == Step(s, Some(FetchTopics))
    ensures |s.topicHistory| > 0 ==>
              && r.request.None?
              && r.state.selectedTopic == Some(s.topicHistory[|s.topicHistory| - 1])
              && r.state.topicHistory == s.topicHistory[..|s.topicHistory| - 1]
              && r.state.topics == Suggestions(r.state.selectedTopic.value)
              && (r.state.depthReached <==> r.state.topics == [])
              && !r.state.atFirstLevel
              && SameRepresentative(s, r.state)
  {
    if |s.topicHistory| > 0 then
      var popped := s.topicHistory[|s.topicHistory| - 1];
      var rest := s.topicHistory[..|s.topicHistory| - 1];
      var topics := Suggestions(popped);
      Step(s.(selectedTopic := Some(popped), topicHistory := rest, topics := topics,
              depthReached := |topics| == 0,
              atFirstLevel := FirstLevelAfterPop(rest, popped)), None)
    else
      LoadTopics(s)
  }

  /** startAgain(): forgets the representative's name and reloads the topics. */
  function StartAgain(s: ChatState): (r: Step)
    ensures r.state.representativeName.None?
    ensures r.state.representativeImage == s.representativeImage
    ensures r.state.representativeId == s.representativeId
    ensures SameNavigation(s, r.state)
    ensures r.request == Some(FetchTopics)
  {
    LoadTopics(s.(representativeName := None))
  }

  /** showBackButton(): hidden at a leaf and at the first level, shown otherwise. */
  function ShowBackButton(s: ChatState): (shown: bool)
    ensures s.depthReached ==> !shown
    ensures s.atFirstLevel ==> !shown
    ensures !s.depthReached && !s.atFirstLevel ==> shown
  {
    !s.depthReached && !s.atFirstLevel
  }

  // ---------------------------------------------------------------- events

  /** Everything that can happen to the component: a user action or a fetch outcome. */
  datatype Event =
    | AskRepresentative
    | RepresentativeLoaded(rep: Representative)
    | RepresentativeFailed(err: TransportError)
    | TopicsLoaded(response: seq<Topic>)
    | TopicsFailed(err: TransportError)
    | Select(topic: Topic)
    | Back
    | Restart

  function Apply(s: ChatState, e: Event): Step {
    match e
    case AskRepresentative => GetRepresentative(s)
    case RepresentativeLoaded(rep) => OnRepresentativeLoaded(s, rep)
    case RepresentativeFailed(err) => OnRepresentativeFailed(s, err)
    case TopicsLoaded(response) => OnTopicsLoaded(s, response)
    case TopicsFailed(err) => OnTopicsFailed(s, err)
    case Select(t) => Step(SelectTopic(s, t), None)
    case Back => GoBack(s)
    case Restart => StartAgain(s)
  }

  /** The state after a sequence of events. */
  function Run(s: ChatState, events: seq<Event>): ChatState
    decreases |events|
  {
    if |events| == 0 then s else Run(Apply(s, events[0]).state, events[1..])
  }

  // ---------------------------------------------------------------- lemmas

  /** The picture path determines the id it was built from. */
  lemma ImageRoundTrip(id: IdValue)
    ensures ImageId(ImagePrefix + IdText(id) + ImageSuffix) == Some(id)
  {
    var t := IdText(id);
    var p := ImagePrefix + t + ImageSuffix;
    assert p[..|ImagePrefix|] == ImagePrefix;
    assert p[|p| - |ImageSuffix|..] == ImageSuffix;
    assert p[|ImagePrefix|..|p| - |ImageSuffix|] == t;
    if id.NumId? {
      Decimal.IntRoundTrip(id.n);
      assert t != "null" && t != "undefined";
    }
  }

  /** Only picture paths are recognised: what ImageId accepts is ImagePath of its result. */
  lemma ImageIdOnlyPaths(p: string)
    ensures ImageId(p).Some? ==> ImagePath(ImageId(p).value) == p
  {
    if ImageId(p).None? {
      return;
    }
    var id := ImageId(p).value;
    var mid := p[|ImagePrefix|..|p| - |ImageSuffix|];
    if id.NumId? {
      assert mid != "null" && mid != "undefined";
      Decimal.ParseIntOnlyRenderings(mid, id.n);
    }
    assert IdText(id) == mid;
    assert p == p[..|ImagePrefix|] + mid + p[|p| - |ImageSuffix|..];
  }
}
