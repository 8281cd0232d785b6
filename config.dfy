/**
 * The two lookup tables of the `Initialize` configuration that the chat callbacks index:
 * the agent diagrams and the agent avatars. Both are Python dictionaries, so a lookup of a
 * name they do not list raises KeyError.
 */
module Config {
  import opened Wrappers
  import opened JsonValues

  /** `Initialize.diagrams`: the diagram shown while each agent (or tool) works. */
  const Diagrams: Dict<string> := [
    ("full", "0_fulll.jpg"),
    ("Human Input Agent", "1_human_inputt.jpg"),
    ("get_human_input", "get_human_input.jpg"),
    ("Input Matcher", "2_task_matcherr.jpg"),
    ("API Selector Agent", "3_api_selectorr.jpg"),
    ("Decision Validator Agent", "4_decision_validatorr.jpg"),
    ("api_caller", "api_tool.jpg")
  ]

  /** `self.avatar_images`: each agent's avatar, under the configured diagram directory. */
  function AvatarImages(diagramPath: string): Dict<string>
  {
    [
      ("Human Input Agent", diagramPath + "/human_input_agent.svg"),
      ("API Selector Agent", diagramPath + "/api_selector_agent.jpg"),
      ("Decision Validator Agent", diagramPath + "/decision_validator_agent.jpg"),
      ("Input Matcher", diagramPath + "/task_matcher_agent.jpg")
    ]
  }

  /** The diagram the configuration starts with: the full crew. */
  function InitialDiagram(diagramPath: string): (r: string)
    ensures Get(Diagrams, "full") == Some("0_fulll.jpg")
    ensures r == diagramPath + "/" + Get(Diagrams, "full").value
  {
    diagramPath + "/" + "0_fulll.jpg"
  }

  /** The names `avatar_images` lists, in order. */
  const AvatarNames: seq<string> := ["Human Input Agent", "API Selector Agent", "Decision Validator Agent", "Input Matcher"]

  /** The names `Initialize.diagrams` lists, in order. */
  lemma DiagramKeys()
    ensures Keys(Diagrams) == ["full", "Human Input Agent", "get_human_input", "Input Matcher",
      "API Selector Agent", "Decision Validator Agent", "api_caller"]
  {
  }

  /** The avatar table for any diagram directory has exactly those names. */
  lemma AvatarKeys(diagramPath: string)
    ensures Keys(AvatarImages(diagramPath)) == AvatarNames
  {
  }

  /** Exactly the names of `AvatarNames` have an avatar, and each of them has a diagram too. */
  lemma AgentTables(diagramPath: string, name: string)
    ensures name in AvatarNames ==> HasKey(Diagrams, name)
    ensures HasKey(AvatarImages(diagramPath), name) <==> name in AvatarNames
  {
    AvatarKeys(diagramPath);
    DiagramKeys();
  }
}
