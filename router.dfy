/**
 * The chat callbacks that route each task's start and end to the chat interface: they set the
 * agent name, show the agent's diagram, post event cards, warnings and notes, drive the spinner
 * and the reload button, and remember the specification file the agents picked.
 *
 * The callbacks are a state machine over the handler's agent name, the configuration's widgets
 * and the chat log. Each method is proved against a function on a `View` of that state; the
 * properties are lemmas about those functions.
 */
module Router {
  import opened Wrappers
  import JsonValues
  import Config
  import opened RouterText

  /** What the chat interface shows. */
  datatype Message =
    | Card(step: string, body: string, user: Option<string>, header: string, avatar: string)
    | Alert(text: string, user: Option<string>)
    | Note(text: string, user: Option<string>)

  /** The state the callbacks read and write, as one value. */
  datatype View = View(
    agentName: Option<string>,
    spinnerValue: bool,
    spinnerVisible: bool,
    reloadDisabled: bool,
    activeDiagram: string,
    selectedFile: Option<string>,
    log: seq<Message>)

  /** The state after a callback, and the exception it raised, if any. */
  type Step = (View, Option<Raised>)

  /** The configuration's fixed part: the diagram directory and the two tables the callbacks index. */
  datatype Tables = Tables(diagramPath: string, diagrams: JsonValues.Dict<string>, avatars: JsonValues.Dict<string>)

  /** The tables as `Initialize` sets them up for a diagram directory. */
  function Standard(diagramPath: string): Tables
  {
    Tables(diagramPath, Config.Diagrams, Config.AvatarImages(diagramPath))
  }

  /**
   * `send_event`: the spinner is switched off, the avatar is looked up (KeyError for a user
   * without one, `None` included), the card is posted, and the spinner is switched back on.
   */
  function SendEventStep(v: View, t: Tables, step: string, message: string, user: Option<string>): Step
  {
    var off := v.(spinnerValue := false, spinnerVisible := false);
    if user.None? || !JsonValues.HasKey(t.avatars, user.value) then (off, Some(KeyError(user)))
    else
      var card := Card(step, message, user, HeaderColour(user), JsonValues.Get(t.avatars, user.value).value);
      (off.(log := off.log + [card], spinnerValue := true, spinnerVisible := true), None)
  }

  /**
   * `CustomPanelCallbackHandler.on_chain_start`: the role in the agent's `repr` becomes the
   * agent name, its diagram is shown, a "Started Task" card is posted and the reload button is
   * enabled. A missing `repr` or `input`, a `repr` without `role=`, or a role without a diagram
   * or an avatar raises, leaving the updates made so far.
   */
  function ChainStartStep(v: View, t: Tables, serialized: JsonValues.Dict<string>, inputs: JsonValues.Dict<string>): Step
  {
    if !JsonValues.HasKey(serialized, "repr") then (v, Some(KeyError(Some("repr"))))
    else
      match RoleFromRepr(JsonValues.Get(serialized, "repr").value)
      case Err(e) => (v, Some(e))
      case Ok(user) => ChainStartAs(v, t, user, inputs)
  }

  /** `on_chain_start` once the agent's role has been read from the `repr`. */
  function ChainStartAs(v: View, t: Tables, user: string, inputs: JsonValues.Dict<string>): Step
  {
    var named := v.(agentName := Some(user));
    if !JsonValues.HasKey(t.diagrams, user) then (named, Some(KeyError(Some(user))))
    else
      var shown := named.(activeDiagram := t.diagramPath + "/" + JsonValues.Get(t.diagrams, user).value);
      if !JsonValues.HasKey(inputs, "input") then (shown, Some(KeyError(Some("input"))))
      else
        var sent := SendEventStep(shown, t, "Started Task", JsonValues.Get(inputs, "input").value, Some(user));
        if sent.1.Some? then sent else (sent.0.(reloadDisabled := false), None)
  }

  /** The report of `on_chain_end`: a retry warning when a limit was hit, an "Ended Task" card otherwise. */
  function ReportStep(v: View, t: Tables, output: string): Step
  {
    if LimitReached(output) then (v.(log := v.log + [Alert(RetryMessage(output), Some("System"))]), None)
    else SendEventStep(v, t, "Ended Task", output, v.agentName)
  }

  /** The end of `on_chain_end`: the reload note and spinner stop when asked, then the reload button. */
  function FinishStep(v: View, output: string): View
  {
    var w := if ReloadRequested(output) then
      v.(spinnerValue := false, spinnerVisible := false, log := v.log + [Note(ReloadMessage, v.agentName)])
    else v;
    w.(reloadDisabled := false)
  }

  /** Which test decides that an output announces a file: the handler's own, or the one it evidently means. */
  datatype Trigger = AsWritten | Intended

  predicate Announces(tr: Trigger, output: string)
  {
    match tr
    case AsWritten => FileMarkerAsWritten(output)
    case Intended => FileMarkerFound(output)
  }

  /** The file step of `on_chain_end`: when the trigger fires, the announced file is extracted. */
  function FileStep(tr: Trigger, v: View, output: string): Step
  {
    if !Announces(tr, output) then (v, None)
    else
      match SelectedFile(output)
      case Err(e) => (v, Some(e))
      case Ok(file) => (v.(selectedFile := Some(file)), None)
  }

  /**
   * The file step raises exactly when the trigger fires and the output has no `file_name` match,
   * and changes nothing but the selected file, which becomes the extracted file when there is one.
   */
  lemma FileStepEffect(tr: Trigger, v: View, output: string)
    ensures var (w, raised) := FileStep(tr, v, output);
      (raised.Some? <==> Announces(tr, output) && SelectedFile(output).Err?) &&
      (raised.Some? ==> raised.value == AttributeError) &&
      w == v.(selectedFile := w.selectedFile) &&
      w.selectedFile == (if Announces(tr, output) && SelectedFile(output).Ok? then Some(SelectedFile(output).value) else v.selectedFile)
  {
  }

  /**
   * `CustomPanelCallbackHandler.on_chain_end`, with the classifier's answer `role` as an input:
   * the agent name is attributed, the selected file is extracted when the trigger fires, the
   * output is reported, and the reload request is handled. The handler is
   * `ChainEndStep(AsWritten, ...)`; `ChainEndStep(Intended, ...)` is the corrected one.
   */
  function ChainEndStep(tr: Trigger, v: View, t: Tables, outputs: JsonValues.Dict<string>, role: string): Step
  {
    if !JsonValues.HasKey(outputs, "output") then (v, Some(KeyError(Some("output"))))
    else ChainEndOutput(tr, v, t, JsonValues.Get(outputs, "output").value, role)
  }

  /** `on_chain_end` once its `output` has been read. */
  function ChainEndOutput(tr: Trigger, v: View, t: Tables, output: string, role: string): Step
  {
    var filed := FileStep(tr, v.(agentName := AttributedRole(v.agentName, role)), output);
    if filed.1.Some? then filed
    else
      var reported := ReportStep(filed.0, t, output);
      if reported.1.Some? then reported else (FinishStep(reported.0, output), None)
  }

  /** The avatar a user's card carries. */
  function AvatarOf(avatars: JsonValues.Dict<string>, user: string): string
  {
    match JsonValues.Get(avatars, user)
    case Some(a) => a
    case None => ""
  }

  /**
   * `send_event` raises exactly for a user without an avatar, with the spinner left off and
   * nothing posted; otherwise it posts one card and leaves the spinner on. Nothing else changes.
   */
  lemma SendEventEffect(v: View, t: Tables, step: string, message: string, user: Option<string>)
    ensures var (w, raised) := SendEventStep(v, t, step, message, user);
      (raised.None? <==> user.Some? && JsonValues.HasKey(t.avatars, user.value)) &&
      (raised.Some? ==> raised.value == KeyError(user) && w.log == v.log && !w.spinnerValue && !w.spinnerVisible) &&
      (raised.None? ==> (w.log == v.log + [Card(step, message, user, HeaderColour(user), AvatarOf(t.avatars, user.value))] &&
        w.spinnerValue && w.spinnerVisible)) &&
      w.agentName == v.agentName && w.reloadDisabled == v.reloadDisabled &&
      w.activeDiagram == v.activeDiagram && w.selectedFile == v.selectedFile
  {
  }

  /** With the configured avatars, `send_event` raises exactly for a user outside the crew. */
  lemma SendEventRaises(v: View, diagramPath: string, step: string, message: string, user: Option<string>)
    ensures SendEventStep(v, Standard(diagramPath), step, message, user).1.None? <==>
      user.Some? && user.value in Config.AvatarNames
  {
    if user.Some? {
      Config.AgentTables(diagramPath, user.value);
    }
  }

  /** Every card of an accepted agent gets its own colour from the table, not the default. */
  lemma CrewColours(role: string)
    requires role in PossibleRoles
    ensures JsonValues.HasKey(Colours, role)
  {
    assert JsonValues.Keys(Colours)[0] == PossibleRoles[0] && JsonValues.Keys(Colours)[1] == PossibleRoles[1];
    assert JsonValues.Keys(Colours)[2] == PossibleRoles[2] && JsonValues.Keys(Colours)[4] == PossibleRoles[3];
  }

  /**
   * For a `repr` of the form `...role=<agent>,...` naming an agent of the crew, and an input,
   * `on_chain_start` names that agent, shows its diagram, posts one "Started Task" card with the
   * input and leaves the spinner on and the reload button enabled.
   */
  lemma ChainStartEffect(v: View, diagramPath: string, serialized: JsonValues.Dict<string>, inputs: JsonValues.Dict<string>,
                         pre: string, agent: string, rest: string)
    requires JsonValues.Get(serialized, "repr") == Some(pre + RoleMarker + agent + "," + rest)
    requires !Strings.Contains(pre, RoleMarker) && !Strings.Contains(agent, ",") && !Strings.Contains(agent, RoleMarker)
    requires agent in PossibleRoles && JsonValues.HasKey(inputs, "input")
    ensures var (w, raised) := ChainStartStep(v, Standard(diagramPath), serialized, inputs);
      raised.None? && w.agentName == Some(agent) &&
      w.activeDiagram == diagramPath + "/" + JsonValues.Get(Config.Diagrams, agent).value &&
      w.log == v.log + [Card("Started Task", JsonValues.Get(inputs, "input").value, Some(agent), HeaderColour(Some(agent)),
        AvatarOf(Config.AvatarImages(diagramPath), agent))] &&
      w.spinnerValue && w.spinnerVisible && !w.reloadDisabled && w.selectedFile == v.selectedFile
  {
    RoleOfRepr(pre, agent, rest);
    PossibleRolesHaveTables(diagramPath, agent);
    var shown := v.(agentName := Some(agent), activeDiagram := diagramPath + "/" + JsonValues.Get(Config.Diagrams, agent).value);
    SendEventEffect(shown, Standard(diagramPath), "Started Task", JsonValues.Get(inputs, "input").value, Some(agent));
  }

  /**
   * Where `on_chain_start` raises, and what it has changed by then: a missing `repr` (KeyError)
   * or a `repr` without `role=` (IndexError) change nothing; a role without a diagram raises
   * KeyError for it after naming the agent; a missing input raises KeyError after the diagram
   * is shown; a role without an avatar raises KeyError for it from `send_event`, with the
   * spinner off. For the configured tables it raises exactly in these cases.
   */
  lemma ChainStartFails(v: View, diagramPath: string, serialized: JsonValues.Dict<string>, inputs: JsonValues.Dict<string>)
    ensures var (w, raised) := ChainStartStep(v, Standard(diagramPath), serialized, inputs);
      !JsonValues.HasKey(serialized, "repr") ==> w == v && raised == Some(KeyError(Some("repr")))
    ensures var (w, raised) := ChainStartStep(v, Standard(diagramPath), serialized, inputs);
      JsonValues.HasKey(serialized, "repr") && !Strings.Contains(JsonValues.Get(serialized, "repr").value, RoleMarker) ==>
        w == v && raised == Some(IndexError)
    ensures var (w, raised) := ChainStartStep(v, Standard(diagramPath), serialized, inputs);
      JsonValues.HasKey(serialized, "repr") && RoleFromRepr(JsonValues.Get(serialized, "repr").value).Ok? ==>
        var role := RoleFromRepr(JsonValues.Get(serialized, "repr").value).value;
        var named := v.(agentName := Some(role));
        (!JsonValues.HasKey(Config.Diagrams, role) ==> w == named && raised == Some(KeyError(Some(role)))) &&
        (JsonValues.HasKey(Config.Diagrams, role) ==>
          var shown := named.(activeDiagram := diagramPath + "/" + JsonValues.Get(Config.Diagrams, role).value);
          (!JsonValues.HasKey(inputs, "input") ==> w == shown && raised == Some(KeyError(Some("input")))) &&
          (JsonValues.HasKey(inputs, "input") && role !in Config.AvatarNames ==>
            w == shown.(spinnerValue := false, spinnerVisible := false) && raised == Some(KeyError(Some(role)))))
    ensures ChainStartStep(v, Standard(diagramPath), serialized, inputs).1.Some? <==>
      !JsonValues.HasKey(serialized, "repr") ||
      (var repr := JsonValues.Get(serialized, "repr").value;
       !Strings.Contains(repr, RoleMarker) || !JsonValues.HasKey(inputs, "input") ||
       RoleFromRepr(repr).value !in Config.AvatarNames)
  {
    if JsonValues.HasKey(serialized, "repr") && RoleFromRepr(JsonValues.Get(serialized, "repr").value).Ok? {
      var role := RoleFromRepr(JsonValues.Get(serialized, "repr").value).value;
      assert ChainStartStep(v, Standard(diagramPath), serialized, inputs) == ChainStartAs(v, Standard(diagramPath), role, inputs);
      ChainStartAsFails(v, diagramPath, role, inputs);
    }
  }

  /** `ChainStartFails` once the role has been read. */
  lemma ChainStartAsFails(v: View, diagramPath: string, role: string, inputs: JsonValues.Dict<string>)
    ensures var (w, raised) := ChainStartAs(v, Standard(diagramPath), role, inputs);
      var named := v.(agentName := Some(role));
      (!JsonValues.HasKey(Config.Diagrams, role) ==> w == named && raised == Some(KeyError(Some(role)))) &&
      (JsonValues.HasKey(Config.Diagrams, role) ==>
        var shown := named.(activeDiagram := diagramPath + "/" + JsonValues.Get(Config.Diagrams, role).value);
        (!JsonValues.HasKey(inputs, "input") ==> w == shown && raised == Some(KeyError(Some("input")))) &&
        (JsonValues.HasKey(inputs, "input") && role !in Config.AvatarNames ==>
          w == shown.(spinnerValue := false, spinnerVisible := false) && raised == Some(KeyError(Some(role)))))
    ensures ChainStartAs(v, Standard(diagramPath), role, inputs).1.Some? <==>
      !JsonValues.HasKey(inputs, "input") || role !in Config.AvatarNames
  {
    Config.AgentTables(diagramPath, role);
    if JsonValues.HasKey(Config.Diagrams, role) {
      var shown := v.(agentName := Some(role), activeDiagram := diagramPath + "/" + JsonValues.Get(Config.Diagrams, role).value);
      if JsonValues.HasKey(inputs, "input") {
        SendEventEffect(shown, Standard(diagramPath), "Started Task", JsonValues.Get(inputs, "input").value, Some(role));
      }
    }
  }

  /**
   * The report of `on_chain_end` posts one warning when a limit was hit and one "Ended Task" card
   * for the current agent otherwise; only the card raises, and only the card turns the spinner on.
   */
  lemma ReportEffect(v: View, t: Tables, output: string)
    ensures var (w, raised) := ReportStep(v, t, output);
      (raised.Some? <==> !LimitReached(output) && !(v.agentName.Some? && JsonValues.HasKey(t.avatars, v.agentName.value))) &&
      (raised.None? ==>
        w.log == v.log +
          (if LimitReached(output) then [Alert(RetryMessage(output), Some("System"))]
           else [Card("Ended Task", output, v.agentName, HeaderColour(v.agentName), AvatarOf(t.avatars, v.agentName.value))]) &&
        w.spinnerValue == (if LimitReached(output) then v.spinnerValue else true) &&
        w.spinnerVisible == (if LimitReached(output) then v.spinnerVisible else true)) &&
      w.agentName == v.agentName && w.reloadDisabled == v.reloadDisabled &&
      w.activeDiagram == v.activeDiagram && w.selectedFile == v.selectedFile
  {
    SendEventEffect(v, t, "Ended Task", output, v.agentName);
  }

  /**
   * What `on_chain_end` leaves when it raises nothing: the attributed agent name, the extracted
   * file when the trigger fired, one warning when a limit was hit and one "Ended Task" card
   * otherwise, then the reload note when a reload was asked for; the spinner is off after a
   * reload request, on after a card and untouched otherwise; the reload button is enabled.
   */
  lemma ChainEndEffect(tr: Trigger, v: View, t: Tables, outputs: JsonValues.Dict<string>, role: string)
    ensures ChainEndStep(tr, v, t, outputs, role).1.None? ==> JsonValues.HasKey(outputs, "output")
    ensures ChainEndStep(tr, v, t, outputs, role).1.None? ==>
      EndedAs(tr, v, t, JsonValues.Get(outputs, "output").value, role, ChainEndStep(tr, v, t, outputs, role).0)
  {
    if JsonValues.HasKey(outputs, "output") {
      ChainEndOutputEffect(tr, v, t, JsonValues.Get(outputs, "output").value, role);
    }
  }

  /**
   * The view `on_chain_end` leaves for `output` when it raises nothing: the attributed name, the
   * extracted file when the trigger fired, the warning or the card, the reload note when asked,
   * the spinner as the last of them left it, and the reload button enabled.
   */
  predicate EndedAs(tr: Trigger, v: View, t: Tables, output: string, role: string, w: View)
  {
    var name := AttributedRole(v.agentName, role);
    w.agentName == name &&
    (Announces(tr, output) ==> SelectedFile(output).Ok?) &&
    w.selectedFile == (if Announces(tr, output) then Some(SelectedFile(output).value) else v.selectedFile) &&
    (!LimitReached(output) ==> name.Some?) &&
    w.log == v.log +
      (if LimitReached(output) then [Alert(RetryMessage(output), Some("System"))]
       else [Card("Ended Task", output, name, HeaderColour(name), AvatarOf(t.avatars, name.value))]) +
      (if ReloadRequested(output) then [Note(ReloadMessage, name)] else []) &&
    w.spinnerValue == (if ReloadRequested(output) then false else if !LimitReached(output) then true else v.spinnerValue) &&
    w.spinnerVisible == (if ReloadRequested(output) then false else if !LimitReached(output) then true else v.spinnerVisible) &&
    !w.reloadDisabled && w.activeDiagram == v.activeDiagram
  }

  /** `ChainEndEffect` once the output has been read. */
  lemma ChainEndOutputEffect(tr: Trigger, v: View, t: Tables, output: string, role: string)
    ensures ChainEndOutput(tr, v, t, output, role).1.None? ==>
      EndedAs(tr, v, t, output, role, ChainEndOutput(tr, v, t, output, role).0)
  {
    var name := AttributedRole(v.agentName, role);
    var filed := FileStep(tr, v.(agentName := name), output);
    FileStepEffect(tr, v.(agentName := name), output);
    if filed.1.None? {
      var reported := ReportStep(filed.0, t, output);
      ReportEffect(filed.0, t, output);
      if reported.1.None? {
        var w := FinishStep(reported.0, output);
        FinishEffect(reported.0, output);
        assert ChainEndOutput(tr, v, t, output, role) == (w, None);
        assert reported.0.agentName == name;
        assert EndedAs(tr, v, t, output, role, w);
      }
    }
  }

  /** The end of `on_chain_end` adds the reload note and stops the spinner only when asked, and enables reload. */
  lemma FinishEffect(v: View, output: string)
    ensures var w := FinishStep(v, output);
      w.log == v.log + (if ReloadRequested(output) then [Note(ReloadMessage, v.agentName)] else []) &&
      w.spinnerValue == (if ReloadRequested(output) then false else v.spinnerValue) &&
      w.spinnerVisible == (if ReloadRequested(output) then false else v.spinnerVisible) &&
      !w.reloadDisabled && w.agentName == v.agentName && w.selectedFile == v.selectedFile &&
      w.activeDiagram == v.activeDiagram
  {
  }

  /**
   * As written, the file step never runs: `on_chain_end` leaves the selected file alone, never
   * raises AttributeError, and does what it would do without the step.
   */
  lemma ChainEndAsWritten(v: View, t: Tables, outputs: JsonValues.Dict<string>, role: string)
    ensures ChainEndStep(AsWritten, v, t, outputs, role).0.selectedFile == v.selectedFile
    ensures ChainEndStep(AsWritten, v, t, outputs, role).1 != Some(AttributeError)
  {
    if JsonValues.HasKey(outputs, "output") {
      var output := JsonValues.Get(outputs, "output").value;
      FileMarkerNeverFires(output);
      var named := v.(agentName := AttributedRole(v.agentName, role));
      FileStepEffect(AsWritten, named, output);
      assert FileStep(AsWritten, named, output) == (named, None);
      ReportEffect(named, t, output);
    }
  }

  /**
   * `on_chain_end` as written raises exactly when the output is missing, or when no limit was
   * hit and the output is reported under a name outside the crew.
   */
  lemma ChainEndFails(v: View, diagramPath: string, outputs: JsonValues.Dict<string>, role: string)
    ensures var raised := ChainEndStep(AsWritten, v, Standard(diagramPath), outputs, role).1;
      raised.Some? <==>
        !JsonValues.HasKey(outputs, "output") ||
        (!LimitReached(JsonValues.Get(outputs, "output").value) &&
         !(AttributedRole(v.agentName, role).Some? && AttributedRole(v.agentName, role).value in Config.AvatarNames))
  {
    if JsonValues.HasKey(outputs, "output") {
      var output := JsonValues.Get(outputs, "output").value;
      FileMarkerNeverFires(output);
      var named := v.(agentName := AttributedRole(v.agentName, role));
      SendEventRaises(named, diagramPath, "Ended Task", output, named.agentName);
    }
  }

  /**
   * With the intended trigger, `on_chain_end` also raises AttributeError for an announcement
   * without a `file_name` match, before anything is reported.
   */
  lemma ChainEndIntendedFails(v: View, diagramPath: string, outputs: JsonValues.Dict<string>, role: string)
    ensures var raised := ChainEndStep(Intended, v, Standard(diagramPath), outputs, role).1;
      raised.Some? <==>
        !JsonValues.HasKey(outputs, "output") ||
        (var output := JsonValues.Get(outputs, "output").value;
         (FileMarkerFound(output) && SelectedFile(output).Err?) ||
         (!LimitReached(output) && !(AttributedRole(v.agentName, role).Some? && AttributedRole(v.agentName, role).value in Config.AvatarNames)))
  {
    if JsonValues.HasKey(outputs, "output") {
      var output := JsonValues.Get(outputs, "output").value;
      var named := v.(agentName := AttributedRole(v.agentName, role));
      FileStepEffect(Intended, named, output);
      var filed := FileStep(Intended, named, output);
      if filed.1.None? {
        SendEventRaises(filed.0, diagramPath, "Ended Task", output, filed.0.agentName);
      }
    }
  }

  /**
   * Once the classifier has named an agent of the crew, `on_chain_end` as written raises
   * exactly when the output is missing.
   */
  lemma CrewReportsSafely(v: View, diagramPath: string, outputs: JsonValues.Dict<string>, role: string)
    requires role in PossibleRoles
    ensures ChainEndStep(AsWritten, v, Standard(diagramPath), outputs, role).1.None? <==> JsonValues.HasKey(outputs, "output")
  {
    ChainEndFails(v, diagramPath, outputs, role);
    RoleAttribution(v.agentName, role);
    assert PossibleRoles == Config.AvatarNames;
  }

  /** The chat interface: an append-only log of messages. */
  class ChatInterface {
    var log: seq<Message>

    constructor ()
      ensures log == []
    {
      log := [];
    }

    /** `send`: the message is appended to the log. */
    method Send(m: Message)
      modifies this
      ensures log == old(log) + [m]
    {
      log := log + [m];
    }
  }

  /** The fields of the shared configuration that the callbacks update. */
  class Configuration {
    const diagramPath: string
    const diagrams: JsonValues.Dict<string>
    const avatarImages: JsonValues.Dict<string>
    var spinnerValue: bool
    var spinnerVisible: bool
    var reloadDisabled: bool
    var activeDiagram: string
    var selectedFile: Option<string>

    /** The configuration as set up: the full-crew diagram shown and no file selected yet. */
    constructor (diagramPath: string, spinnerValue: bool, spinnerVisible: bool, reloadDisabled: bool)
      ensures this.diagramPath == diagramPath && this.spinnerValue == spinnerValue
      ensures this.spinnerVisible == spinnerVisible && this.reloadDisabled == reloadDisabled
      ensures diagrams == Config.Diagrams && avatarImages == Config.AvatarImages(diagramPath)
      ensures activeDiagram == Config.InitialDiagram(diagramPath) && selectedFile == None
    {
      this.diagramPath := diagramPath;
      diagrams := Config.Diagrams;
      avatarImages := Config.AvatarImages(diagramPath);
      this.spinnerValue := spinnerValue;
      this.spinnerVisible := spinnerVisible;
      this.reloadDisabled := reloadDisabled;
      activeDiagram := Config.InitialDiagram(diagramPath);
      selectedFile := None;
    }
  }

  /** `CustomPanelCallbackHandler`: the agent name it remembers, with the interface and configuration it drives. */
  class PanelCallbackHandler {
    const chat: ChatInterface
    const config: Configuration
    var agentName: Option<string>

    constructor (chat: ChatInterface, config: Configuration)
      ensures this.chat == chat && this.config == config && agentName == None
    {
      this.chat := chat;
      this.config := config;
      agentName := None;
    }

    /** The configuration's fixed part. */
    function Fixed(): Tables
    {
      Tables(config.diagramPath, config.diagrams, config.avatarImages)
    }

    /** The state the callbacks act on. */
    function State(): View
      reads this, chat, config
    {
      View(agentName, config.spinnerValue, config.spinnerVisible, config.reloadDisabled,
        config.activeDiagram, config.selectedFile, chat.log)
    }

    method SendEvent(step: string, message: string, user: Option<string>) returns (raised: Option<Raised>)
      modifies chat, config
      ensures (State(), raised) == SendEventStep(old(State()), Fixed(), step, message, user)
    {
      var colour := HeaderColour(user);
      config.spinnerValue := false;
      config.spinnerVisible := false;
      var avatars := config.avatarImages;
      if user.None? || !JsonValues.HasKey(avatars, user.value) {
        return Some(KeyError(user));
      }
      chat.Send(Card(step, message, user, colour, JsonValues.Get(avatars, user.value).value));
      config.spinnerValue := true;
      config.spinnerVisible := true;
      return None;
    }

    method OnChainStart(serialized: JsonValues.Dict<string>, inputs: JsonValues.Dict<string>) returns (raised: Option<Raised>)
      modifies this, chat, config
      ensures (State(), raised) == ChainStartStep(old(State()), Fixed(), serialized, inputs)
    {
      if !JsonValues.HasKey(serialized, "repr") {
        return Some(KeyError(Some("repr")));
      }
      var user := RoleFromRepr(JsonValues.Get(serialized, "repr").value);
      if user.Err? {
        return Some(user.error);
      }
      agentName := Some(user.value);
      if !JsonValues.HasKey(config.diagrams, user.value) {
        return Some(KeyError(Some(user.value)));
      }
      config.activeDiagram := config.diagramPath + "/" + JsonValues.Get(config.diagrams, user.value).value;
      if !JsonValues.HasKey(inputs, "input") {
        return Some(KeyError(Some("input")));
      }
      raised := SendEvent("Started Task", JsonValues.Get(inputs, "input").value, Some(user.value));
      if raised.Some? {
        return raised;
      }
      config.reloadDisabled := false;
    }

    method OnChainEnd(outputs: JsonValues.Dict<string>, role: string) returns (raised: Option<Raised>)
      modifies this, chat, config
      ensures (State(), raised) == ChainEndStep(AsWritten, old(State()), Fixed(), outputs, role)
    {
      if !JsonValues.HasKey(outputs, "output") {
        return Some(KeyError(Some("output")));
      }
      var output := JsonValues.Get(outputs, "output").value;
      if role in PossibleRoles {
        agentName := Some(StripQuotes(role));
      }
      assert State() == old(State()).(agentName := AttributedRole(old(State()).agentName, role));
      raised := PickFile(output);
      if raised.Some? {
        return raised;
      }
      raised := Report(output);
      if raised.Some? {
        return raised;
      }
      Finish(output);
    }

    /** The file part of `on_chain_end`: the file an announcing output names becomes the selected file. */
    method PickFile(output: string) returns (raised: Option<Raised>)
      modifies config
      ensures (State(), raised) == FileStep(AsWritten, old(State()), output)
    {
      if FileMarkerAsWritten(output) {
        var file := SelectedFile(output);
        if file.Err? {
          return Some(file.error);
        }
        config.selectedFile := Some(file.value);
      }
      return None;
    }

    /** The report half of `on_chain_end`: a retry warning when a limit was hit, an "Ended Task" card otherwise. */
    method Report(output: string) returns (raised: Option<Raised>)
      modifies chat, config
      ensures (State(), raised) == ReportStep(old(State()), Fixed(), output)
    {
      if LimitReached(output) {
        chat.Send(Alert(RetryMessage(output), Some("System")));
        raised := None;
      } else {
        raised := SendEvent("Ended Task", output, agentName);
      }
    }

    /** The last part of `on_chain_end`: the reload note and spinner stop when asked, then the reload button. */
    method Finish(output: string)
      modifies chat, config
      ensures State() == FinishStep(old(State()), output)
    {
      if ReloadRequested(output) {
        config.spinnerValue := false;
        config.spinnerVisible := false;
        chat.Send(Note(ReloadMessage, agentName));
      }
      config.reloadDisabled := false;
    }
  }

  /** `CustomPanelSidebarHandler`: it only remembers the agent whose chain started. */
  class PanelSidebarHandler {
    var agentName: Option<string>

    constructor ()
      ensures agentName == None
    {
      agentName := None;
    }

    method OnChainStart(serialized: JsonValues.Dict<string>) returns (raised: Option<Raised>)
      modifies this
      ensures !JsonValues.HasKey(serialized, "repr") ==> raised == Some(KeyError(Some("repr"))) && agentName == old(agentName)
      ensures JsonValues.HasKey(serialized, "repr") ==>
        var user := RoleFromRepr(JsonValues.Get(serialized, "repr").value);
        (user.Err? ==> raised == Some(user.error) && agentName == old(agentName)) &&
        (user.Ok? ==> raised.None? && agentName == Some(user.value))
    {
      if !JsonValues.HasKey(serialized, "repr") {
        return Some(KeyError(Some("repr")));
      }
      var user := RoleFromRepr(JsonValues.Get(serialized, "repr").value);
      if user.Err? {
        return Some(user.error);
      }
      agentName := Some(user.value);
      return None;
    }
  }
}
