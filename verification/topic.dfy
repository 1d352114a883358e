/** The support-topic tree: a name and an optional ordered list of sub-topics. */
module Topics {
  import opened Wrappers

  /** A node of the tree; `suggestions` absent or empty means a leaf. */
  datatype Topic = Topic(name: string, suggestions: Option<seq<Topic>>)

  /** `topic.suggestions || []`: the children, with an absent list read as empty. */
  function Suggestions(t: Topic): (children: seq<Topic>)
    ensures t.suggestions.None? ==> children == []
    ensures t.suggestions.Some? ==> children == t.suggestions.value
  {
    match t.suggestions
    case None => []
    case Some(children) => children
  }

  predicate IsLeaf(t: Topic) {
    Suggestions(t) == []
  }
}
