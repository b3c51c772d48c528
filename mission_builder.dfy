/** The mission builder: a topic field, quick-suggestion and template buttons
    that fill it, and a Generate action (button or Enter key) that navigates
    to the result page only when the topic has visible text. Navigation is
    recorded as a list of destinations rather than performed. */
module MissionBuilder {
  import opened Wrappers
  import opened Text
  import Layout
  import MissionResult

  /** A client-side navigation target: the path and the `topic` query value.
      The value is carried as the router hands it back to the result page,
      i.e. after encodeURIComponent and the matching decoding. */
  datatype Destination = Destination(path: string, topic: string)

  const ResultPath: string := "/missions/result"

  const QuickTopics: seq<string> := [
    "Smart Contract Security",
    "Liquidity Pools",
    "DAO Governance",
    "Cross-chain Bridges",
    "Token Economics",
    "Gas Optimization"
  ]

  datatype Template = Template(title: string, description: string, difficulty: string)

  const Templates: seq<Template> := [
    Template("Smart Contract Fundamentals",
             "Introduction to writing and deploying smart contracts", "Beginner"),
    Template("DeFi Protocol Development", "Build decentralized finance applications", "Advanced"),
    Template("NFT Marketplace Creation", "Create and deploy NFT smart contracts", "Intermediate"),
    Template("Token Standards (ERC-20)", "Implement fungible token standards", "Intermediate")
  ]

  /** The guard of handleGenerate, `if (topic.trim())`: a string is truthy
      exactly when it is not empty, so the guard holds exactly when the topic
      has a character that is not white space. */
  predicate CanGenerate(topic: string): (b: bool)
    ensures b <==> !AllWhiteSpace(topic)
  {
    Trim(topic) != ""
  }

  /** The Generate button's `disabled={!topic.trim()}`: disabled exactly when
      the topic is all white space, the empty topic included. */
  predicate GenerateDisabled(topic: string): (b: bool)
    ensures b <==> AllWhiteSpace(topic)
  {
    !(Trim(topic) != "")
  }

  /** Where handleGenerate navigates, if anywhere: to the result page with the
      topic as typed (untrimmed), exactly when the topic has a character that
      is not white space. */
  function GenerateTarget(topic: string): (r: Option<Destination>)
    ensures r.Some? <==> !AllWhiteSpace(topic)
    ensures r.Some? ==> r.value.path == ResultPath && r.value.topic == topic
  {
    if CanGenerate(topic) then Some(Destination(ResultPath, topic)) else None
  }

  /** The button is disabled exactly when pressing it would do nothing. */
  lemma DisabledIffNoNavigation(topic: string)
    ensures GenerateDisabled(topic) <==> GenerateTarget(topic) == None
  {
  }

  /** A topic starting with a visible character can be generated. */
  lemma VisibleFirstCanGenerate(topic: string)
    requires topic != [] && !IsWhiteSpace(topic[0])
    ensures CanGenerate(topic)
  {
    assert !AllWhiteSpace(topic);
  }

  /** Every quick suggestion and every template title enables Generate. */
  lemma ShortcutsEnableGenerate()
    ensures forall i :: 0 <= i < |QuickTopics| ==> CanGenerate(QuickTopics[i])
    ensures forall i :: 0 <= i < |Templates| ==> CanGenerate(Templates[i].title)
  {
    forall i | 0 <= i < |QuickTopics| ensures CanGenerate(QuickTopics[i]) {
      VisibleFirstCanGenerate(QuickTopics[i]);
    }
    forall i | 0 <= i < |Templates| ensures CanGenerate(Templates[i].title) {
      VisibleFirstCanGenerate(Templates[i].title);
    }
  }

  /** Following a generated destination lands on the result page with the
      topic as typed, and the sidebar keeps Mission Builder highlighted. */
  lemma GenerateReachesResult(topic: string)
    requires GenerateTarget(topic).Some?
    ensures MissionResult.ResolveTopic(Some(GenerateTarget(topic).value.topic)) == topic
    ensures Layout.ActiveItems(GenerateTarget(topic).value.path) == [Layout.NavItems[2]]
  {
    Layout.RouteHighlightsOneItem(3);
  }

  /** The component's state: the topic field, and the navigations made. */
  class Builder {
    var topic: string
    var navigations: seq<Destination>

    /** The field starts empty, and nothing has been navigated to. */
    constructor ()
      ensures topic == "" && navigations == []
    {
      topic := "";
      navigations := [];
    }

    /** Typing in the field (onChange). */
    method SetTopic(value: string)
      modifies this
      ensures topic == value && navigations == old(navigations)
    {
      topic := value;
    }

    /** A click on quick suggestion `i`: the topic becomes that suggestion,
        which enables Generate. */
    method ChooseQuickTopic(i: nat)
      requires i < |QuickTopics|
      modifies this
      ensures topic == QuickTopics[i] && CanGenerate(topic)
      ensures navigations == old(navigations)
    {
      ShortcutsEnableGenerate();
      SetTopic(QuickTopics[i]);
    }

    /** A click on template `i`: the topic becomes the template's title, which
        enables Generate. */
    method ChooseTemplate(i: nat)
      requires i < |Templates|
      modifies this
      ensures topic == Templates[i].title && CanGenerate(topic)
      ensures navigations == old(navigations)
    {
      ShortcutsEnableGenerate();
      SetTopic(Templates[i].title);
    }

    function IsGenerateDisabled(): (b: bool)
      reads this
      ensures b <==> AllWhiteSpace(topic)
    {
      GenerateDisabled(topic)
    }

    /** handleGenerate: navigate to the result page when the trimmed topic is
        not empty; otherwise nothing happens. */
    method HandleGenerate()
      modifies this
      ensures topic == old(topic)
      ensures navigations == old(navigations)
                             + (if !AllWhiteSpace(topic) then [GenerateTarget(topic).value] else [])
    {
      var target := GenerateTarget(topic);
      if target.Some? {
        navigations := navigations + [target.value];
      }
    }

    /** A key press in the field: Enter runs the same guarded handleGenerate,
        any other key does nothing. */
    method HandleKeyDown(key: string)
      modifies this
      ensures topic == old(topic)
      ensures navigations == old(navigations)
                             + (if key == "Enter" && !AllWhiteSpace(topic)
                                then [GenerateTarget(topic).value] else [])
    {
      if key == "Enter" {
        HandleGenerate();
      }
    }
  }
}
