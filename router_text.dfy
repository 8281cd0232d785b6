/**
 * The string decisions of the chat callbacks: the role parsed out of an agent's `repr`, the
 * role labels the classifier may return, the limit, reload and file markers tested on a task's
 * output, the `file_name` extraction and the card header colours.
 */
module RouterText {
  import opened Wrappers
  import opened Strings
  import JsonValues
  import Config

  /** The Python exceptions the callbacks can raise; `KeyError(None)` is a lookup of `None`. */
  datatype Raised = KeyError(key: Option<string>) | IndexError | AttributeError

  /** The marker that precedes the role in an agent's `repr`. */
  const RoleMarker: string := "role="

  /**
   * `repr.split("role=")[1].split(",")[0]`: the text after the first `role=`, cut at the next
   * `role=` and then at the first comma; without any `role=` the index 1 is out of range.
   */
  function RoleFromRepr(repr: string): (r: Result<string, Raised>)
    ensures r.Err? <==> !Contains(repr, RoleMarker)
    ensures r.Err? ==> r.error == IndexError
    ensures r.Ok? ==> !Contains(r.value, ",") && !Contains(r.value, RoleMarker)
  {
    var parts := Split(repr, RoleMarker);
    if |parts| < 2 then Err(IndexError)
    else
      var name := Split(parts[1], ",");
      SplitHead(parts[1], ",");
      PrefixFree(parts[1], |name[0]|, RoleMarker);
      Ok(name[0])
  }

  /** A prefix of a text without `pat` has no `pat` either. */
  lemma PrefixFree(s: string, n: nat, pat: string)
    requires n <= |s| && !Contains(s, pat)
    ensures !Contains(s[..n], pat)
  {
    if Contains(s[..n], pat) {
      OccursInPrefix(s, n, pat, Find(s[..n], pat).value);
      ContainsIff(s, pat);
    }
  }

  /** `pat` occurs nowhere in `s`. */
  lemma NotOccurs(s: string, pat: string, j: nat)
    requires !Contains(s, pat)
    ensures !OccursAt(s, pat, j)
  {
    ContainsIff(s, pat);
  }

  /**
   * When the text before a `role=` holds none itself, that `role=` is the first one, since no
   * proper prefix of `role=` is also a suffix of it.
   */
  lemma FirstRoleMarker(pre: string, x: string)
    requires !Contains(pre, RoleMarker)
    ensures Find(pre + RoleMarker + x, RoleMarker) == Some(|pre|)
  {
    var s := pre + RoleMarker + x;
    assert s[|pre|..|pre| + 5] == RoleMarker;
    assert OccursAt(s, RoleMarker, |pre|);
    forall j: nat | j < |pre| ensures !OccursAt(s, RoleMarker, j) {
      if j + 5 <= |pre| {
        NotOccurs(pre, RoleMarker, j);
        assert s[j..j + 5] == pre[j..j + 5];
      } else {
        var d := |pre| - j;
        assert s[j..j + 5][d] == s[|pre|] == 'r';
        assert RoleMarker[d] != 'r';
      }
    }
  }

  /** When a name holds no comma and no `role=`, a `role=` in `x = name + "," + rest` starts after the comma. */
  lemma MarkerAfterName(name: string, rest: string)
    requires !Contains(name, ",") && !Contains(name, RoleMarker)
    ensures Contains(name + "," + rest, RoleMarker) ==> Find(name + "," + rest, RoleMarker).value > |name|
  {
    var x := name + "," + rest;
    forall j: nat | j <= |name| ensures !OccursAt(x, RoleMarker, j) {
      if j + 5 <= |name| {
        NotOccurs(name, RoleMarker, j);
        assert x[j..j + 5] == name[j..j + 5];
      } else if j + 5 <= |x| {
        assert x[j..j + 5][|name| - j] == x[|name|] == ',';
      }
    }
  }

  /**
   * The role of a `repr` shaped like `Agent(role=<name>, goal=...)` is `<name>`, for any name
   * without a comma or a `role=` and any text before it without a `role=`.
   */
  lemma RoleOfRepr(pre: string, name: string, rest: string)
    requires !Contains(pre, RoleMarker) && !Contains(name, ",") && !Contains(name, RoleMarker)
    ensures RoleFromRepr(pre + RoleMarker + name + "," + rest) == Ok(name)
  {
    var x := name + "," + rest;
    var repr := pre + RoleMarker + name + "," + rest;
    assert repr == pre + RoleMarker + x;
    SecondPiece(pre, x);
    NameBeforeComma(name, rest);
    RoleOfPieces(repr, x, name);
  }

  /** A `repr` whose second `role=` piece is the first piece of `x` has the role that piece starts with. */
  lemma RoleOfPieces(repr: string, x: string, name: string)
    requires |Split(repr, RoleMarker)| >= 2 && Split(repr, RoleMarker)[1] == Split(x, RoleMarker)[0]
    requires Split(Split(x, RoleMarker)[0], ",")[0] == name
    ensures RoleFromRepr(repr) == Ok(name)
  {
  }

  /** The piece after the first `role=` is the text up to the next one. */
  lemma SecondPiece(pre: string, x: string)
    requires !Contains(pre, RoleMarker)
    ensures |Split(pre + RoleMarker + x, RoleMarker)| >= 2
    ensures Split(pre + RoleMarker + x, RoleMarker)[1] == Split(x, RoleMarker)[0]
  {
    var s := pre + RoleMarker + x;
    FirstRoleMarker(pre, x);
    SplitSecond(s, RoleMarker);
    assert s[|pre| + 5..] == x;
  }

  /** The text up to the next `role=` starts with the name and the comma after it. */
  lemma NameBeforeComma(name: string, rest: string)
    requires !Contains(name, ",") && !Contains(name, RoleMarker)
    ensures Split(Split(name + "," + rest, RoleMarker)[0], ",")[0] == name
  {
    var x := name + "," + rest;
    var head := Split(x, RoleMarker)[0];
    SplitHead(x, RoleMarker);
    MarkerAfterName(name, rest);
    var tail := if Contains(x, RoleMarker) then rest[..Find(x, RoleMarker).value - |name| - 1] else rest;
    assert head == name + [','] + tail;
    ContainsChar(name, ',');
    SplitCons(name, tail, ',');
  }

  /** The labels `on_chain_end` accepts from the role classifier. */
  const PossibleRoles: seq<string> := ["Human Input Agent", "API Selector Agent", "Decision Validator Agent", "Input Matcher"]

  /** Every accepted label names an agent with a diagram and an avatar. */
  lemma PossibleRolesHaveTables(diagramPath: string, role: string)
    requires role in PossibleRoles
    ensures JsonValues.HasKey(Config.AvatarImages(diagramPath), role) && JsonValues.HasKey(Config.Diagrams, role)
  {
    assert PossibleRoles == Config.AvatarNames;
    Config.AgentTables(diagramPath, role);
  }

  /** `s.strip(c)`: nothing changes when neither end is `c`. */
  lemma StripAbsent(s: string, c: char)
    requires s != [] && s[0] != c && s[|s| - 1] != c
    ensures Strip(s, c) == s
  {
    var l := LStrip(s, c);
    assert |s| - |l| == 0;
    var r := RStrip(l, c);
    assert |r| == |l|;
  }

  /** `role.strip('"').strip("'")`, applied to an accepted label. */
  function StripQuotes(role: string): string
  {
    Strip(Strip(role, '"'), '\'')
  }

  /** No accepted label is quoted, so stripping quotes leaves it as it is. */
  lemma StripQuotesLabel(role: string)
    requires role in PossibleRoles
    ensures StripQuotes(role) == role
  {
    StripAbsent(role, '"');
    StripAbsent(role, '\'');
  }

  /** The agent name after the classifier answers `role`. */
  function AttributedRole(current: Option<string>, role: string): Option<string>
  {
    if role in PossibleRoles then Some(StripQuotes(role)) else current
  }

  /**
   * An accepted label becomes the agent name; any other answer, `"None"` included, keeps the
   * previous one, so the name never becomes a label outside the list.
   */
  lemma RoleAttribution(current: Option<string>, role: string)
    ensures AttributedRole(current, role) == if role in PossibleRoles then Some(role) else current
    ensures AttributedRole(current, role) == current || AttributedRole(current, role).value in PossibleRoles
  {
    if role in PossibleRoles {
      StripQuotesLabel(role);
    }
  }

  /** The classifier's fallback answer `"None"` keeps the previous agent name. */
  lemma NoneKeepsRole(current: Option<string>)
    ensures AttributedRole(current, "None") == current
  {
    var none := "None";
    assert none[0] == 'N';
    forall i | 0 <= i < |PossibleRoles| ensures PossibleRoles[i] != none {
      assert PossibleRoles[i][0] in "HADI";
    }
  }

  /** The output reports that the agent hit its iteration or time limit (case-sensitive). */
  predicate LimitReached(output: string)
  {
    Contains(output, "iteration limit") || Contains(output, "time limit")
  }

  /** The warning sent when a limit is reached. */
  function RetryMessage(output: string): (r: string)
    ensures |r| > |output| && r[..|output|] == output
  {
    output + "\U{1F635}\U{200D}\U{1F4AB} Retrying..."
  }

  /** The output asks for the crew to be reloaded, in any case. */
  predicate ReloadRequested(output: string)
  {
    Contains(Lower(output), "reload the crew")
  }

  /** The note sent after an output that asks for a reload. */
  const ReloadMessage: string := "If you have any other queries" + " or need further assistance," + " please Reload the Crew."

  /** The phrase that announces which specification file the agents picked. */
  const FileMarker: string := FileMarkerHead + FileMarkerTail

  const FileMarkerHead: string := "this output contains the appropriate "

  const FileMarkerTail: string := "API Specification" + " metadata file to use for the task at hand"

  /** The trigger as written: the phrase, capitals included, searched for in the lower-cased output. */
  predicate FileMarkerAsWritten(output: string)
  {
    Contains(Lower(output), FileMarker)
  }

  /** The trigger as written never fires: the phrase has a capital letter and a lower-cased text has none. */
  lemma FileMarkerNeverFires(output: string)
    ensures !FileMarkerAsWritten(output)
  {
    var h := |FileMarkerHead|;
    assert FileMarkerTail[0] == 'A';
    assert FileMarker[h] == FileMarkerTail[0];
    NoCapitalInLower(output, FileMarker, h);
  }

  /** A lower-cased text holds no phrase with a capital letter in it. */
  lemma NoCapitalInLower(output: string, phrase: string, j: nat)
    requires j < |phrase| && IsUpper(phrase[j])
    ensures !Contains(Lower(output), phrase)
  {
    if Contains(Lower(output), phrase) {
      ContainsIff(Lower(output), phrase);
      var i: nat :| OccursAt(Lower(output), phrase, i);
      assert Lower(output)[i..i + |phrase|][j] == Lower(output)[i + j];
    }
  }

  /** The announcement the task matcher is told to write (`aiagents/cml_agents/tasks.py`, lines 80, 84 and 104). */
  const TaskMarker: string := "This output contains the appropriate " + "swagger" + " metadata file to use for the task at hand"

  /** The trigger with only the letter case corrected: the phrase, lower-cased too, in the lower-cased output. */
  predicate FileMarkerCaseFixed(output: string)
  {
    Contains(Lower(output), Lower(FileMarker))
  }

  /**
   * The trigger as intended: an announcement in any letter case, either the phrase the handler
   * names or the one the task matcher is told to write.
   */
  predicate FileMarkerFound(output: string)
  {
    FileMarkerCaseFixed(output) || Contains(Lower(output), Lower(TaskMarker))
  }

  lemma LowerAppend(a: string, b: string)
    ensures Lower(a + b) == Lower(a) + Lower(b)
  {
    var l, r := Lower(a + b), Lower(a) + Lower(b);
    forall k | 0 <= k < |l| ensures l[k] == r[k] {
      if k < |a| {
        assert (a + b)[k] == a[k];
      } else {
        assert (a + b)[k] == b[k - |a|];
      }
    }
  }

  /** The lower-cased form of a text holds the lower-cased form of every piece of it. */
  lemma LowerOccurs(pre: string, phrase: string, post: string)
    ensures Contains(Lower(pre + phrase + post), Lower(phrase))
  {
    LowerAppend(pre + phrase, post);
    LowerAppend(pre, phrase);
    var l := Lower(pre + phrase + post);
    assert l == Lower(pre) + Lower(phrase) + Lower(post);
    assert l[|pre|..|pre| + |phrase|] == Lower(phrase);
    assert OccursAt(l, Lower(phrase), |pre|);
    ContainsIff(l, Lower(phrase));
  }

  /** The intended trigger fires on any output that holds either announcement, in whatever case it was written. */
  lemma FileMarkerFires(pre: string, phrase: string, post: string)
    requires Lower(phrase) == Lower(FileMarker) || Lower(phrase) == Lower(TaskMarker)
    ensures FileMarkerFound(pre + phrase + post)
  {
    LowerOccurs(pre, phrase, post);
  }

  /**
   * Correcting the letter case alone is not enough: that trigger does not fire on the task
   * matcher's announcement, which is shorter than the handler's phrase.
   */
  lemma CaseFixMissesTask()
    ensures !FileMarkerCaseFixed(TaskMarker)
  {
    assert |Lower(TaskMarker)| < |Lower(FileMarker)|;
    ContainsIff(Lower(TaskMarker), Lower(FileMarker));
  }

  /** Characters Python's `\s` matches in a `str` pattern. */
  predicate IsSpace(c: char)
  {
    c == ' ' || c == '\t' || c == '\n' || c == '\r' || c == '\U{0B}' || c == '\U{0C}' ||
    ('\U{1C}' <= c <= '\U{1F}') || c == '\U{85}' || c == '\U{A0}' || c == '\U{1680}' ||
    ('\U{2000}' <= c <= '\U{200A}') || c == '\U{2028}' || c == '\U{2029}' || c == '\U{202F}' ||
    c == '\U{205F}' || c == '\U{3000}'
  }

  /** The literal text the pattern `"file_name":\s*"([^"]+)"` starts with. */
  const FileNameKey: string := "\"file_name\":"

  /** The first index at or after `i` whose character is not a space. */
  function SkipSpaces(s: string, i: nat): (r: nat)
    requires i <= |s|
    ensures i <= r <= |s| && (r == |s| || !IsSpace(s[r]))
    ensures forall k :: i <= k < r ==> IsSpace(s[k])
    decreases |s| - i
  {
    if i == |s| || !IsSpace(s[i]) then i else SkipSpaces(s, i + 1)
  }

  /** The first index at or after `i` that holds a double quote, or the end of `s`. */
  function QuoteEnd(s: string, i: nat): (r: nat)
    requires i <= |s|
    ensures i <= r <= |s| && (r == |s| || s[r] == '"')
    ensures forall k :: i <= k < r ==> s[k] != '"'
    decreases |s| - i
  {
    if i == |s| || s[i] == '"' then i else QuoteEnd(s, i + 1)
  }

  /** A run of spaces ending before a non-space is the run `SkipSpaces` skips. */
  lemma {:induction false} SkipSpacesTo(s: string, i: nat, e: nat)
    requires i <= e < |s| && !IsSpace(s[e])
    requires forall k :: i <= k < e ==> IsSpace(s[k])
    ensures SkipSpaces(s, i) == e
    decreases e - i
  {
    if i < e {
      SkipSpacesTo(s, i + 1, e);
    }
  }

  /** A quote after a run of non-quotes is the quote `QuoteEnd` stops at. */
  lemma {:induction false} QuoteEndAt(s: string, i: nat, e: nat)
    requires i <= e < |s| && s[e] == '"'
    requires forall k :: i <= k < e ==> s[k] != '"'
    ensures QuoteEnd(s, i) == e
    decreases e - i
  {
    if i < e {
      QuoteEndAt(s, i + 1, e);
    }
  }

  /**
   * The pattern matched at index `i`, and its group. A maximal run of spaces and a maximal run
   * of non-quotes are the only runs the pattern can use (a space is not a quote, and a shorter
   * run of non-quotes is not followed by a quote), so no backtracking is needed.
   */
  function MatchAt(s: string, i: nat): Option<string>
  {
    if !OccursAt(s, FileNameKey, i) then None
    else
      var j := SkipSpaces(s, i + |FileNameKey|);
      if j == |s| || s[j] != '"' then None
      else
        var k := QuoteEnd(s, j + 1);
        if k == |s| || k == j + 1 then None else Some(s[j + 1..k])
  }

  /**
   * What the pattern means: at `i`, the key, `ws` spaces, a quote, a non-empty group without
   * quotes, and a closing quote.
   */
  ghost predicate MatchesWith(s: string, i: nat, ws: nat, group: string)
  {
    OccursAt(s, FileNameKey, i) &&
    i + |FileNameKey| + ws <= |s| &&
    (forall k :: i + |FileNameKey| <= k < i + |FileNameKey| + ws ==> IsSpace(s[k])) &&
    OccursAt(s, "\"" + group + "\"", i + |FileNameKey| + ws) &&
    |group| > 0 && (forall k :: 0 <= k < |group| ==> group[k] != '"')
  }

  /** A match found by `MatchAt` is a match of the pattern. */
  lemma MatchAtSound(s: string, i: nat)
    requires MatchAt(s, i).Some?
    ensures MatchesWith(s, i, SkipSpaces(s, i + |FileNameKey|) - i - |FileNameKey|, MatchAt(s, i).value)
  {
    var j := SkipSpaces(s, i + |FileNameKey|);
    assert j < |s| && s[j] == '"';
    var k := QuoteEnd(s, j + 1);
    assert k < |s| && s[k] == '"' && k > j + 1;
    var g := s[j + 1..k];
    assert MatchAt(s, i) == Some(g);
    var quoted := "\"" + g + "\"";
    assert s[j..k + 1] == quoted by {
      forall t | 0 <= t < |quoted| ensures s[j..k + 1][t] == quoted[t] {
        if 0 < t < |quoted| - 1 {
          assert quoted[t] == g[t - 1];
        }
      }
    }
    forall t | 0 <= t < |g| ensures g[t] != '"' {
      assert g[t] == s[j + 1 + t];
    }
  }

  /** Every match of the pattern at `i` is the one `MatchAt` finds, with the same group. */
  lemma MatchAtComplete(s: string, i: nat, ws: nat, group: string)
    requires MatchesWith(s, i, ws, group)
    ensures MatchAt(s, i) == Some(group)
  {
    var q := i + |FileNameKey| + ws;
    var w := s[q..q + |group| + 2];
    assert w == "\"" + group + "\"";
    assert s[q] == w[0] == '"';
    SkipSpacesTo(s, i + |FileNameKey|, q);
    forall t | 0 <= t < |group| ensures s[q + 1 + t] == group[t] {
      assert w[t + 1] == group[t];
    }
    assert s[q + 1 + |group|] == w[|group| + 1] == '"';
    QuoteEndAt(s, q + 1, q + 1 + |group|);
    assert s[q + 1..q + 1 + |group|] == group;
  }

  /** `re.search` from index `i` on: where the leftmost match starts. */
  function SearchFrom(s: string, i: nat): (r: Option<nat>)
    requires i <= |s|
    ensures r.Some? ==> i <= r.value <= |s| && MatchAt(s, r.value).Some?
    ensures forall m :: i <= m <= |s| && (r.None? || m < r.value) ==> MatchAt(s, m).None?
    decreases |s| - i
  {
    if MatchAt(s, i).Some? then Some(i)
    else if i == |s| then None
    else SearchFrom(s, i + 1)
  }

  /**
   * The first group of the leftmost `file_name` match with every `_metadata` removed: the file
   * the agents picked, or AttributeError when nothing matches and `.group` is called on `None`.
   */
  function SelectedFile(output: string): (r: Result<string, Raised>)
    ensures r.Err? <==> forall m :: 0 <= m <= |output| ==> MatchAt(output, m).None?
    ensures r.Err? ==> r.error == AttributeError
  {
    match SearchFrom(output, 0)
    case None => Err(AttributeError)
    case Some(m) => Ok(Replace(MatchAt(output, m).value, "_metadata", ""))
  }

  /** The file of the leftmost match is its group with every `_metadata` removed. */
  lemma SelectedFileOfMatch(output: string, i: nat, ws: nat, group: string)
    requires MatchesWith(output, i, ws, group)
    requires forall m :: 0 <= m < i ==> MatchAt(output, m).None?
    ensures SelectedFile(output) == Ok(Replace(group, "_metadata", ""))
    ensures !Contains(group, "_metadata") ==> SelectedFile(output) == Ok(group)
  {
    MatchAtComplete(output, i, ws, group);
    assert SearchFrom(output, 0) == Some(i);
    if !Contains(group, "_metadata") {
      ReplaceAbsent(group, "_metadata", "");
    }
  }

  /** `color`: the card header colour of each agent. */
  const Colours: JsonValues.Dict<string> := [
    ("Human Input Agent", "#e2fcfd"),
    ("API Selector Agent", "#fef6db"),
    ("Decision Validator Agent", "#fbe7dd"),
    ("API Caller Agent", "#ffe5f1"),
    ("Input Matcher", "#e6f3fd"),
    ("API Specification Description Summarizer", "#f3f9cf"),
    ("API_Specification_splitter", "#eedaff")
  ]

  /** The colour used for a user the table does not list, `None` included. */
  const DefaultColour: string := "#ffe5f1"

  /** `color.get(user, "#ffe5f1")`. */
  function HeaderColour(user: Option<string>): (r: string)
    ensures user.Some? && JsonValues.HasKey(Colours, user.value) ==> Some(r) == JsonValues.Get(Colours, user.value)
    ensures user.None? || !JsonValues.HasKey(Colours, user.value) ==> r == DefaultColour
  {
    if user.Some? && JsonValues.HasKey(Colours, user.value) then JsonValues.Get(Colours, user.value).value
    else DefaultColour
  }
}
