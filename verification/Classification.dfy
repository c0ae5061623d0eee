/** Classification of processes: fixed signals with scores, and user rules that override them. */
module Classification {
  import opened DiscoveryDomain
  import opened KeyOrder
  import opened Text

  const ALGORITHM_VERSION: nat := 1
  const MAX_CLASSIFICATION_RULES: nat := 4096
  const MAX_KNOWN_PROJECTS: nat := 4096
  const MAX_RULE_ID_BYTES: nat := 256
  const MAX_RULE_PATTERN_BYTES: nat := 4096
  const MAX_PROJECT_ID_BYTES: nat := 256
  const MAX_PROJECT_FEATURE_ID_BYTES: nat := 256
  const MAX_DEVELOPMENT_THRESHOLD: int := 1000
  const MAX_CLASSIFICATION_RULE_EVALUATIONS: nat := 4 * 1024 * 1024
  const MAX_CLASSIFICATION_PATTERN_WORK_BYTES: nat := 64 * 1024 * 1024

  const MANAGED_SCORE := 100
  const REGISTERED_PROJECT_SCORE := 50
  const KNOWN_FRAMEWORK_SCORE := 30
  const PROJECT_FEATURE_SCORE := 25
  const COMMON_DEVELOPMENT_PORT_SCORE := 10
  const KNOWN_RUNTIME_SCORE := 10

  const COMMON_DEVELOPMENT_PORTS: set<nat> :=
    {3000, 3001, 4000, 4200, 5000, 5173, 5174, 8000, 8001, 8080, 8081, 8888}

  const FRAMEWORK_TERMS: set<string> := {
    "vite", "webpack", "next dev", "nuxt", "react-scripts", "ng serve", "manage.py runserver",
    "flask run", "uvicorn", "fastapi", "spring-boot", "quarkus", "bootrun", "cargo run", "go run",
    "dotnet watch", "rails server", "artisan serve"}

  const RUNTIME_NAMES: set<string> := {
    "node", "nodejs", "deno", "bun", "java", "javaw", "go", "dotnet", "ruby", "php", "python", "pythonw"}

  datatype Matcher =
    | ExecutableNameExact(pattern: string)
    | ExecutablePathExact(pattern: string)
    | CommandLineContains(pattern: string)
    | WorkingDirectoryPrefix(pattern: string)

  datatype Rule = Rule(id: string, matcher: Matcher, action: Override, priority: int, enabled: bool)

  datatype RulesSnapshot = RulesSnapshot(threshold: int, projectIds: seq<string>, rules: seq<Rule>)

  /** Facts of project discovery, kept apart from classification output. */
  datatype Facts = Facts(projectId: Option<string>, featureId: Option<string>)

  const NO_FACTS := Facts(None, None)

  datatype Engine = Engine(threshold: int, known: set<string>, rules: seq<Rule>)

  const DEFAULT_ENGINE := Engine(40, {}, [])

  datatype Decision = Decision(result: Classification, projectId: Option<string>)

  // ----- Signals -----

  predicate IsPathRoot(path: string) {
    || path == "/" || path == "\\"
    || (|path| == 3 && IsAsciiAlphabetic(path[0]) && path[1] == ':' && IsSeparator(path[2]))
  }

  predicate PathHasPrefix(path: string, prefix: string) {
    if IsPathRoot(prefix) then prefix <= path
    else
      var trimmed := TrimEndSeparators(prefix);
      path == trimmed || (trimmed < path && IsSeparator(path[|trimmed|]))
  }

  predicate Matches(matcher: Matcher, process: ProcessRecord) {
    match matcher
    case ExecutableNameExact(pattern) => process.executableName == Known(pattern)
    case ExecutablePathExact(pattern) => process.executablePath == Known(pattern)
    case CommandLineContains(pattern) =>
      process.commandLine.Known? && Contains(process.commandLine.value, pattern)
    case WorkingDirectoryPrefix(pattern) =>
      process.workingDirectory.Known? && PathHasPrefix(process.workingDirectory.value, pattern)
  }

  predicate IsCommandWordCharacter(c: char) {
    IsAsciiAlphabetic(c) || IsAsciiDigit(c) || c == '_'
  }

  predicate ContainsCommandTerm(commandLine: string, term: string) {
    exists at: nat | at <= |commandLine| && OccursAt(commandLine, term, at) ::
      && (at > 0 ==> !IsCommandWordCharacter(commandLine[at - 1]))
      && (at + |term| < |commandLine| ==> !IsCommandWordCharacter(commandLine[at + |term|]))
  }

  predicate MatchesKnownFramework(process: ProcessRecord) {
    process.commandLine.Known?
    && var lower := ToAsciiLower(process.commandLine.value);
       exists term | term in FRAMEWORK_TERMS :: ContainsCommandTerm(lower, term)
  }

  predicate ListensOnCommonDevelopmentPort(process: ProcessRecord) {
    process.portBindings.Known?
    && exists i | 0 <= i < |process.portBindings.value| ::
         var binding := process.portBindings.value[i];
         binding.protocol.Tcp? && binding.state == Known(TcpListen) && binding.port in COMMON_DEVELOPMENT_PORTS
  }

  predicate IsPythonVersion(version: string) {
    && (exists i | 0 <= i < |version| :: IsAsciiDigit(version[i]))
    && (forall i | 0 <= i < |version| :: IsAsciiDigit(version[i]) || version[i] == '.')
  }

  predicate IsKnownRuntimeName(name: string) {
    var lower := ToAsciiLower(name);
    var base := if |lower| >= 4 && lower[|lower| - 4..] == ".exe" then lower[..|lower| - 4] else lower;
    base in RUNTIME_NAMES || ("python" < base && IsPythonVersion(base[6..]))
  }

  predicate IsKnownRuntime(process: ProcessRecord) {
    || (process.executableName.Known? && IsKnownRuntimeName(process.executableName.value))
    || (process.executablePath.Known? && FileName(process.executablePath.value) != ""
        && IsKnownRuntimeName(FileName(process.executablePath.value)))
  }

  function RegisteredProject(engine: Engine, process: ProcessRecord, facts: Facts): Option<string> {
    if facts.projectId.Some? && facts.projectId.value in engine.known && process.workingDirectory.Known?
    then facts.projectId else None
  }

  predicate HasProjectFeature(facts: Facts) {
    facts.featureId.Some? && NonEmptyBounded(facts.featureId.value, MAX_PROJECT_FEATURE_ID_BYTES)
  }

  function When(condition: bool, code: string, score: int): seq<Reason> {
    if condition then [Reason(code, score, None)] else []
  }

  function Signals(engine: Engine, process: ProcessRecord, facts: Facts): seq<Reason> {
    When(process.ownership.Managed?, "managed", MANAGED_SCORE)
    + When(RegisteredProject(engine, process, facts).Some?, "registeredProject", REGISTERED_PROJECT_SCORE)
    + When(MatchesKnownFramework(process), "knownFramework", KNOWN_FRAMEWORK_SCORE)
    + When(HasProjectFeature(facts), "projectFeature", PROJECT_FEATURE_SCORE)
    + When(ListensOnCommonDevelopmentPort(process), "commonDevelopmentPort", COMMON_DEVELOPMENT_PORT_SCORE)
    + When(IsKnownRuntime(process), "knownRuntime", KNOWN_RUNTIME_SCORE)
  }

  function TotalScore(reasons: seq<Reason>): int {
    if reasons == [] then 0 else TotalScore(reasons[..|reasons| - 1]) + reasons[|reasons| - 1].score
  }

  // ----- Rules -----

  /** Higher priority first, then by id. */
  predicate RuleBefore(a: Rule, b: Rule) {
    a.priority > b.priority || (a.priority == b.priority && StringLess(a.id, b.id))
  }

  function InsertRule(rule: Rule, rules: seq<Rule>): seq<Rule> {
    if rules == [] || RuleBefore(rule, rules[0]) then [rule] + rules
    else [rules[0]] + InsertRule(rule, rules[1..])
  }

  /** The enabled rules in evaluation order. */
  function SortRules(rules: seq<Rule>): seq<Rule> {
    if rules == [] then []
    else
      var rest := SortRules(rules[..|rules| - 1]);
      if rules[|rules| - 1].enabled then InsertRule(rules[|rules| - 1], rest) else rest
  }

  ghost predicate InRuleOrder(rules: seq<Rule>) {
    forall i, j | 0 <= i < j < |rules| :: RuleBefore(rules[i], rules[j])
  }

  ghost predicate DistinctIds(rules: seq<Rule>) {
    forall i, j | 0 <= i < j < |rules| :: rules[i].id != rules[j].id
  }

  lemma RuleTransitive(a: Rule, b: Rule, c: Rule)
    requires RuleBefore(a, b) && RuleBefore(b, c)
    ensures RuleBefore(a, c)
  {
    if a.priority == b.priority == c.priority {
      StringTransitive(a.id, b.id, c.id);
    }
  }

  lemma {:induction false} InsertRuleInOrder(rule: Rule, rules: seq<Rule>)
    requires InRuleOrder(rules)
    requires forall r | r in rules :: r.id != rule.id
    ensures InRuleOrder(InsertRule(rule, rules))
    ensures forall r :: r in InsertRule(rule, rules) <==> r == rule || r in rules
  {
    if rules != [] && !RuleBefore(rule, rules[0]) {
      InsertRuleInOrder(rule, rules[1..]);
      StringTrichotomy(rule.id, rules[0].id);
      var tail := InsertRule(rule, rules[1..]);
      forall j | 0 <= j < |tail| ensures RuleBefore(rules[0], tail[j]) {
        assert tail[j] in tail;
        if tail[j] != rule {
          var k :| 0 <= k < |rules[1..]| && rules[1..][k] == tail[j];
          assert rules[k + 1] == tail[j];
        }
      }
    } else if rules != [] {
      forall j | 0 <= j < |rules| ensures RuleBefore(rule, rules[j]) {
        if j > 0 {
          RuleTransitive(rule, rules[0], rules[j]);
        }
      }
    }
  }

  /** Sorting keeps exactly the enabled rules and puts them in evaluation order. */
  lemma {:induction false} SortRulesIsSorted(rules: seq<Rule>)
    requires DistinctIds(rules)
    ensures InRuleOrder(SortRules(rules))
    ensures forall r :: r in SortRules(rules) <==> r in rules && r.enabled
  {
    if rules != [] {
      var front, last := rules[..|rules| - 1], rules[|rules| - 1];
      SortRulesIsSorted(front);
      assert rules == front + [last];
      if last.enabled {
        InsertRuleInOrder(last, SortRules(front));
      }
    }
  }

  function FirstMatch(rules: seq<Rule>, process: ProcessRecord, exclusions: bool): Option<Rule> {
    if rules == [] then None
    else if Matches(rules[0].matcher, process) && rules[0].action.Exclude? == exclusions then Some(rules[0])
    else FirstMatch(rules[1..], process, exclusions)
  }

  ghost predicate IsBest(rule: Rule, rules: seq<Rule>, process: ProcessRecord, exclusions: bool) {
    && rule in rules && rule.enabled
    && Matches(rule.matcher, process) && rule.action.Exclude? == exclusions
    && forall r | r in rules && r.enabled && Matches(r.matcher, process) && r.action.Exclude? == exclusions ::
         r == rule || RuleBefore(rule, r)
  }

  lemma {:induction false} FirstMatchIsFirst(rules: seq<Rule>, process: ProcessRecord, exclusions: bool)
    requires InRuleOrder(rules)
    ensures match FirstMatch(rules, process, exclusions)
            case None => forall r | r in rules :: !(Matches(r.matcher, process) && r.action.Exclude? == exclusions)
            case Some(rule) =>
              && rule in rules && Matches(rule.matcher, process) && rule.action.Exclude? == exclusions
              && forall r | r in rules && Matches(r.matcher, process) && r.action.Exclude? == exclusions ::
                   r == rule || RuleBefore(rule, r)
  {
    if rules != [] {
      assert forall r :: r in rules <==> r == rules[0] || r in rules[1..];
      if Matches(rules[0].matcher, process) && rules[0].action.Exclude? == exclusions {
        forall r | r in rules && r != rules[0] ensures RuleBefore(rules[0], r) {
          var k :| 0 <= k < |rules| && rules[k] == r;
        }
      } else {
        FirstMatchIsFirst(rules[1..], process, exclusions);
      }
    }
  }

  /**
   The rule that decides is the best of the enabled matching rules, whatever the order in which the
   snapshot listed them; it is absent exactly when there is none.
   */
  lemma BestRuleDecides(rules: seq<Rule>, process: ProcessRecord, exclusions: bool)
    requires DistinctIds(rules)
    ensures match FirstMatch(SortRules(rules), process, exclusions)
            case None => forall r | r in rules && r.enabled ::
                !(Matches(r.matcher, process) && r.action.Exclude? == exclusions)
            case Some(rule) => IsBest(rule, rules, process, exclusions)
  {
    SortRulesIsSorted(rules);
    FirstMatchIsFirst(SortRules(rules), process, exclusions);
  }

  lemma BestRuleIsUnique(a: Rule, b: Rule, rules: seq<Rule>, process: ProcessRecord, exclusions: bool)
    requires IsBest(a, rules, process, exclusions) && IsBest(b, rules, process, exclusions)
    ensures a == b
  {
    if a != b {
      RuleTransitive(a, b, a);
      StringTrichotomy(a.id, a.id);
    }
  }

  // ----- The decision -----

  function RuleReason(rule: Rule): Reason {
    Reason(
      match rule.action
      case Exclude => "rule.exclude"
      case Include => "rule.include"
      case AssignProject(_) => "rule.assignProject",
      0, Some(rule.id))
  }

  function Classify(engine: Engine, process: ProcessRecord, facts: Facts): Decision {
    var signals := Signals(engine, process, facts);
    var score := TotalScore(signals);
    var registered := RegisteredProject(engine, process, facts);
    var excluding := FirstMatch(engine.rules, process, true);
    if excluding.Some? then
      Decision(
        Classification(
          score, ALGORITHM_VERSION, Excluded, signals + [RuleReason(excluding.value)], Some(Exclude), false),
        registered)
    else
      var winning := FirstMatch(engine.rules, process, false);
      var reasons := if winning.Some? then signals + [RuleReason(winning.value)] else signals;
      var userOverride := if winning.Some? then Some(winning.value.action) else None;
      var projectId :=
        if winning.Some? && winning.value.action.AssignProject? then Some(winning.value.action.project)
        else registered;
      var strongSignal := exists i :: 0 <= i < |signals| && signals[i].code != "knownRuntime";
      var isDevelopment := winning.Some? || (strongSignal && score >= engine.threshold);
      var category := if isDevelopment then Development
                      else if IsKnownRuntime(process) then Runtime else Unclassified;
      Decision(Classification(score, ALGORITHM_VERSION, category, reasons, userOverride, isDevelopment), projectId)
  }

  // ----- What a decision has to say -----

  /** The reason stands among the reasons, once and with its number, exactly under its condition. */
  predicate Gives(reasons: seq<Reason>, condition: bool, code: string, score: int) {
    && (condition <==> exists i :: 0 <= i < |reasons| && reasons[i].code == code)
    && (forall i | 0 <= i < |reasons| && reasons[i].code == code :: reasons[i] == Reason(code, score, None))
    && (forall i, j | 0 <= i < j < |reasons| && reasons[i].code == code :: reasons[j].code != code)
  }

  /** Each signal has its number. */
  predicate GivesSignals(engine: Engine, process: ProcessRecord, facts: Facts, reasons: seq<Reason>) {
    && Gives(reasons, process.ownership.Managed?, "managed", 100)
    && Gives(
         reasons,
         facts.projectId.Some? && facts.projectId.value in engine.known && process.workingDirectory.Known?,
         "registeredProject", 50)
    && Gives(reasons, MatchesKnownFramework(process), "knownFramework", 30)
    && Gives(
         reasons, facts.featureId.Some? && NonEmptyBounded(facts.featureId.value, MAX_PROJECT_FEATURE_ID_BYTES),
         "projectFeature", 25)
    && Gives(reasons, ListensOnCommonDevelopmentPort(process), "commonDevelopmentPort", 10)
    && Gives(reasons, IsKnownRuntime(process), "knownRuntime", 10)
  }

  /** What the signals count together. */
  function SignalScore(engine: Engine, process: ProcessRecord, facts: Facts): int {
    Points(process.ownership.Managed?, 100)
    + Points(
        facts.projectId.Some? && facts.projectId.value in engine.known && process.workingDirectory.Known?, 50)
    + Points(MatchesKnownFramework(process), 30)
    + Points(
        facts.featureId.Some? && NonEmptyBounded(facts.featureId.value, MAX_PROJECT_FEATURE_ID_BYTES), 25)
    + Points(ListensOnCommonDevelopmentPort(process), 10)
    + Points(IsKnownRuntime(process), 10)
  }

  const SIGNAL_CODES: set<string> := {
    "managed", "registeredProject", "knownFramework", "projectFeature", "commonDevelopmentPort", "knownRuntime"}

  /** A rule that matches, with none of its kind before it. */
  ghost predicate IsFirstMatch(rules: seq<Rule>, process: ProcessRecord, exclusions: bool, i: nat) {
    && i < |rules| && Matches(rules[i].matcher, process) && rules[i].action.Exclude? == exclusions
    && forall j | 0 <= j < i :: !(Matches(rules[j].matcher, process) && rules[j].action.Exclude? == exclusions)
  }

  ghost predicate NoneMatches(rules: seq<Rule>, process: ProcessRecord, exclusions: bool) {
    forall r | r in rules :: !(Matches(r.matcher, process) && r.action.Exclude? == exclusions)
  }

  /** The signals come first, and at most one reason of a rule, which counts nothing, comes last. */
  predicate SignalsThen(reasons: seq<Reason>, rule: Option<Reason>) {
    && (rule.Some? ==> reasons != [] && reasons[|reasons| - 1] == rule.value)
    && forall i | 0 <= i < |reasons| - (if rule.Some? then 1 else 0) :: reasons[i].code in SIGNAL_CODES
  }

  /** The project a process belongs to by what was discovered about it. */
  predicate IsRegistered(engine: Engine, process: ProcessRecord, facts: Facts, project: Option<string>) {
    project == if facts.projectId.Some? && facts.projectId.value in engine.known && process.workingDirectory.Known?
               then facts.projectId else None
  }

  /**
   What a decision has to say, field by field. An exclusion wins over any other rule, a rule over any score, and
   without a rule it takes another signal than the runtime and a score that reaches the threshold.
   */
  ghost predicate Decided(engine: Engine, process: ProcessRecord, facts: Facts, d: Decision) {
    var r := d.result;
    && r.version == 1 && GivesSignals(engine, process, facts, r.reasons)
    && r.score == SignalScore(engine, process, facts) == TotalScore(r.reasons)
    && (forall i: nat | IsFirstMatch(engine.rules, process, true, i) ::
          && r.category == Excluded && !r.isDevelopment && r.userOverride == Some(Exclude)
          && IsRegistered(engine, process, facts, d.projectId)
          && SignalsThen(r.reasons, Some(Reason("rule.exclude", 0, Some(engine.rules[i].id)))))
    && (NoneMatches(engine.rules, process, true) ==>
          forall i: nat | IsFirstMatch(engine.rules, process, false, i) ::
            var rule := engine.rules[i];
            && r.category == Development && r.isDevelopment && r.userOverride == Some(rule.action)
            && (if rule.action.AssignProject? then d.projectId == Some(rule.action.project)
                else IsRegistered(engine, process, facts, d.projectId))
            && SignalsThen(
                 r.reasons,
                 Some(Reason(
                   if rule.action.AssignProject? then "rule.assignProject" else "rule.include", 0, Some(rule.id)))))
    && (NoneMatches(engine.rules, process, true) && NoneMatches(engine.rules, process, false) ==>
          && (r.isDevelopment
              <==> && (exists i :: 0 <= i < |r.reasons| && r.reasons[i].code != "knownRuntime")
                   && r.score >= engine.threshold)
          && r.category == (if r.isDevelopment then Development
                            else if IsKnownRuntime(process) then Runtime else Unclassified)
          && r.userOverride.None? && IsRegistered(engine, process, facts, d.projectId)
          && SignalsThen(r.reasons, None))
  }

  lemma {:induction false} FirstMatchAt(rules: seq<Rule>, process: ProcessRecord, exclusions: bool)
    ensures match FirstMatch(rules, process, exclusions)
            case None => NoneMatches(rules, process, exclusions)
            case Some(rule) =>
              exists i: nat :: i < |rules| && rules[i] == rule && IsFirstMatch(rules, process, exclusions, i)
  {
    if rules != [] {
      if Matches(rules[0].matcher, process) && rules[0].action.Exclude? == exclusions {
        assert IsFirstMatch(rules, process, exclusions, 0);
      } else {
        var rest := rules[1..];
        FirstMatchAt(rest, process, exclusions);
        var first := FirstMatch(rest, process, exclusions);
        if first.Some? {
          var i: nat :| i < |rest| && rest[i] == first.value && IsFirstMatch(rest, process, exclusions, i);
          forall j | 0 <= j < i + 1
            ensures !(Matches(rules[j].matcher, process) && rules[j].action.Exclude? == exclusions)
          {
            if j > 0 {
              assert rules[j] == rest[j - 1];
            }
          }
          assert IsFirstMatch(rules, process, exclusions, i + 1);
        } else {
          forall r | r in rules ensures r == rules[0] || r in rest {
          }
        }
      }
    }
  }

  lemma FirstMatchIsUnique(rules: seq<Rule>, process: ProcessRecord, exclusions: bool, i: nat, j: nat)
    requires IsFirstMatch(rules, process, exclusions, i) && IsFirstMatch(rules, process, exclusions, j)
    ensures i == j
  {
  }

  datatype Signal = Signal(condition: bool, code: string, score: int)

  /** The reasons of the signals whose condition holds. */
  function Fired(signals: seq<Signal>): seq<Reason> {
    if signals == [] then []
    else
      var last := signals[|signals| - 1];
      Fired(signals[..|signals| - 1]) + When(last.condition, last.code, last.score)
  }

  ghost predicate DistinctCodes(signals: seq<Signal>) {
    forall i, j | 0 <= i < j < |signals| :: signals[i].code != signals[j].code
  }

  lemma {:induction false} FiredCodes(signals: seq<Signal>, i: nat)
    requires i < |Fired(signals)|
    ensures exists k :: 0 <= k < |signals| && signals[k].code == Fired(signals)[i].code
  {
    var front, last := signals[..|signals| - 1], signals[|signals| - 1];
    if i < |Fired(front)| {
      FiredCodes(front, i);
      var k :| 0 <= k < |front| && front[k].code == Fired(front)[i].code;
      assert signals[k].code == Fired(signals)[i].code;
    } else {
      assert signals[|signals| - 1].code == Fired(signals)[i].code;
    }
  }

  lemma {:induction false} FiredGives(signals: seq<Signal>, k: nat)
    requires DistinctCodes(signals) && k < |signals|
    ensures Gives(Fired(signals), signals[k].condition, signals[k].code, signals[k].score)
    decreases |signals|
  {
    var front, last := signals[..|signals| - 1], signals[|signals| - 1];
    forall i | 0 <= i < |Fired(front)| ensures k < |front| || Fired(front)[i].code != last.code {
      FiredCodes(front, i);
    }
    if k < |front| {
      FiredGives(front, k);
      StillGives(Fired(front), When(last.condition, last.code, last.score),
        signals[k].condition, signals[k].code, signals[k].score);
    } else if last.condition {
      assert Fired(signals)[|Fired(front)|].code == last.code;
    }
  }

  /** What was given stays given when reasons with another code follow. */
  lemma StillGives(reasons: seq<Reason>, more: seq<Reason>, condition: bool, code: string, score: int)
    requires Gives(reasons, condition, code, score)
    requires forall i | 0 <= i < |more| :: more[i].code != code
    ensures Gives(reasons + more, condition, code, score)
  {
    var all := reasons + more;
    if condition {
      var i :| 0 <= i < |reasons| && reasons[i].code == code;
      assert all[i].code == code;
    }
  }

  function SignalList(engine: Engine, process: ProcessRecord, facts: Facts): seq<Signal> {
    [ Signal(process.ownership.Managed?, "managed", MANAGED_SCORE),
      Signal(RegisteredProject(engine, process, facts).Some?, "registeredProject", REGISTERED_PROJECT_SCORE),
      Signal(MatchesKnownFramework(process), "knownFramework", KNOWN_FRAMEWORK_SCORE),
      Signal(HasProjectFeature(facts), "projectFeature", PROJECT_FEATURE_SCORE),
      Signal(ListensOnCommonDevelopmentPort(process), "commonDevelopmentPort", COMMON_DEVELOPMENT_PORT_SCORE),
      Signal(IsKnownRuntime(process), "knownRuntime", KNOWN_RUNTIME_SCORE) ]
  }

  lemma SignalsAreFired(engine: Engine, process: ProcessRecord, facts: Facts)
    ensures Signals(engine, process, facts) == Fired(SignalList(engine, process, facts))
  {
    hide RegisteredProject, MatchesKnownFramework, HasProjectFeature, ListensOnCommonDevelopmentPort, IsKnownRuntime,
      When, Fired;
    var all := SignalList(engine, process, facts);
    assert all[..6] == all;
    FiredStep(all, 1);
    FiredStep(all, 2);
    FiredStep(all, 3);
    FiredStep(all, 4);
    FiredStep(all, 5);
    FiredStep(all, 6);
    NothingFired(all);
  }

  lemma NothingFired(signals: seq<Signal>)
    ensures Fired(signals[..0]) == []
  {
  }

  lemma FiredStep(signals: seq<Signal>, n: nat)
    requires 0 < n <= |signals|
    ensures var last := signals[n - 1];
            Fired(signals[..n]) == Fired(signals[..n - 1]) + When(last.condition, last.code, last.score)
  {
    assert signals[..n][..n - 1] == signals[..n - 1];
  }

  lemma CodesDiffer(engine: Engine, process: ProcessRecord, facts: Facts)
    ensures DistinctCodes(SignalList(engine, process, facts))
    ensures forall k | 0 <= k < 6 :: SignalList(engine, process, facts)[k].code in SIGNAL_CODES
    ensures "rule.exclude" !in SIGNAL_CODES && "rule.include" !in SIGNAL_CODES && "rule.assignProject" !in SIGNAL_CODES
  {
    hide RegisteredProject, MatchesKnownFramework, HasProjectFeature, ListensOnCommonDevelopmentPort, IsKnownRuntime;
    assert "knownFramework"[0] != "projectFeature"[0];
    assert "knownRuntime"[0] != "rule.exclude"[0] && "knownRuntime"[0] != "rule.include"[0];
    assert |"managed"| == 7 && |"registeredProject"| == 17 && |"knownFramework"| == 14 && |"projectFeature"| == 14;
    assert |"commonDevelopmentPort"| == 21 && |"knownRuntime"| == 12;
    assert |"rule.exclude"| == 12 && |"rule.include"| == 12 && |"rule.assignProject"| == 18;
  }

  lemma SignalsAreGiven(engine: Engine, process: ProcessRecord, facts: Facts)
    ensures GivesSignals(engine, process, facts, Signals(engine, process, facts))
    ensures SignalsThen(Signals(engine, process, facts), None)
  {
    hide MatchesKnownFramework, ListensOnCommonDevelopmentPort, IsKnownRuntime, Fired, Gives, Signals;
    var all := SignalList(engine, process, facts);
    CodesDiffer(engine, process, facts);
    SignalsAreFired(engine, process, facts);
    FiredGives(all, 0);
    FiredGives(all, 1);
    FiredGives(all, 2);
    FiredGives(all, 3);
    FiredGives(all, 4);
    FiredGives(all, 5);
    forall i | 0 <= i < |Fired(all)| ensures Fired(all)[i].code in SIGNAL_CODES {
      FiredCodes(all, i);
    }
  }

  function Points(condition: bool, score: int): int {
    if condition then score else 0
  }

  lemma ScoreAdded(reasons: seq<Reason>, condition: bool, code: string, score: int)
    ensures TotalScore(reasons + When(condition, code, score)) == TotalScore(reasons) + Points(condition, score)
  {
    if condition {
      assert (reasons + When(condition, code, score))[..|reasons|] == reasons;
    } else {
      assert reasons + When(condition, code, score) == reasons;
    }
  }

  lemma ScoreOfSignals(engine: Engine, process: ProcessRecord, facts: Facts)
    ensures TotalScore(Signals(engine, process, facts)) == SignalScore(engine, process, facts)
  {
    hide RegisteredProject, MatchesKnownFramework, HasProjectFeature, ListensOnCommonDevelopmentPort, IsKnownRuntime,
      When, Fired, TotalScore, Signals, Points;
    var all := SignalList(engine, process, facts);
    assert all[..6] == all;
    ScoreStep(all, 1);
    ScoreStep(all, 2);
    ScoreStep(all, 3);
    ScoreStep(all, 4);
    ScoreStep(all, 5);
    ScoreStep(all, 6);
    NothingFired(all);
    NoScore();
    SignalsAreFired(engine, process, facts);
    RegisteredUnder(engine, process, facts);
  }

  lemma ScoreStep(signals: seq<Signal>, n: nat)
    requires 0 < n <= |signals|
    ensures TotalScore(Fired(signals[..n]))
            == TotalScore(Fired(signals[..n - 1])) + Points(signals[n - 1].condition, signals[n - 1].score)
  {
    FiredStep(signals, n);
    ScoreAdded(Fired(signals[..n - 1]), signals[n - 1].condition, signals[n - 1].code, signals[n - 1].score);
  }

  lemma NoScore()
    ensures TotalScore([]) == 0
  {
  }

  lemma RegisteredUnder(engine: Engine, process: ProcessRecord, facts: Facts)
    ensures RegisteredProject(engine, process, facts).Some?
            <==> facts.projectId.Some? && facts.projectId.value in engine.known && process.workingDirectory.Known?
    ensures HasProjectFeature(facts)
            <==> facts.featureId.Some? && NonEmptyBounded(facts.featureId.value, MAX_PROJECT_FEATURE_ID_BYTES)
  {
  }

  /** The reason of a rule counts nothing and is no signal. */
  lemma RuleReasonAdded(engine: Engine, process: ProcessRecord, facts: Facts, reasons: seq<Reason>, rule: Reason)
    requires GivesSignals(engine, process, facts, reasons) && SignalsThen(reasons, None)
    requires rule.code !in SIGNAL_CODES && rule.score == 0
    ensures GivesSignals(engine, process, facts, reasons + [rule]) && SignalsThen(reasons + [rule], Some(rule))
    ensures TotalScore(reasons + [rule]) == TotalScore(reasons)
  {
    hide MatchesKnownFramework, ListensOnCommonDevelopmentPort, IsKnownRuntime, Gives;
    assert (reasons + [rule])[..|reasons|] == reasons;
    StillGives(reasons, [rule], process.ownership.Managed?, "managed", 100);
    StillGives(
      reasons, [rule],
      facts.projectId.Some? && facts.projectId.value in engine.known && process.workingDirectory.Known?,
      "registeredProject", 50);
    StillGives(reasons, [rule], MatchesKnownFramework(process), "knownFramework", 30);
    StillGives(
      reasons, [rule],
      facts.featureId.Some? && NonEmptyBounded(facts.featureId.value, MAX_PROJECT_FEATURE_ID_BYTES),
      "projectFeature", 25);
    StillGives(reasons, [rule], ListensOnCommonDevelopmentPort(process), "commonDevelopmentPort", 10);
    StillGives(reasons, [rule], IsKnownRuntime(process), "knownRuntime", 10);
  }

  lemma ClassificationIsDecided(engine: Engine, process: ProcessRecord, facts: Facts)
    ensures Decided(engine, process, facts, Classify(engine, process, facts))
  {
    hide FirstMatch, GivesSignals, Signals, TotalScore, Matches, IsKnownRuntime, IsFirstMatch, NoneMatches, SignalScore;
    var signals := Signals(engine, process, facts);
    SignalsAreGiven(engine, process, facts);
    ScoreOfSignals(engine, process, facts);
    CodesDiffer(engine, process, facts);
    FirstMatchDecides(engine.rules, process, true);
    FirstMatchDecides(engine.rules, process, false);
    var excluding, winning := FirstMatch(engine.rules, process, true), FirstMatch(engine.rules, process, false);
    if excluding.Some? {
      RuleReasonAdded(engine, process, facts, signals, RuleReason(excluding.value));
    } else if winning.Some? {
      RuleReasonAdded(engine, process, facts, signals, RuleReason(winning.value));
    }
  }

  /** The rule found is the first match, and finding none means that there is none. */
  lemma FirstMatchDecides(rules: seq<Rule>, process: ProcessRecord, exclusions: bool)
    ensures FirstMatch(rules, process, exclusions).None? <==> NoneMatches(rules, process, exclusions)
    ensures forall i: nat | IsFirstMatch(rules, process, exclusions, i) ::
              FirstMatch(rules, process, exclusions) == Some(rules[i]) && rules[i].action.Exclude? == exclusions
  {
    hide FirstMatch, Matches;
    FirstMatchAt(rules, process, exclusions);
    forall i: nat | IsFirstMatch(rules, process, exclusions, i)
      ensures FirstMatch(rules, process, exclusions) == Some(rules[i])
    {
      assert rules[i] in rules;
      var found := FirstMatch(rules, process, exclusions);
      if found.Some? {
        var j: nat :| j < |rules| && rules[j] == found.value && IsFirstMatch(rules, process, exclusions, j);
        FirstMatchIsUnique(rules, process, exclusions, i, j);
      }
    }
  }

  /** The decision reads nothing of the bindings but what equality up to observation times keeps. */
  lemma ClassifyReadsInputsOnly(engine: Engine, left: ProcessRecord, right: ProcessRecord, facts: Facts)
    requires !ClassificationInputsDiffer(left, right)
    ensures Classify(engine, left, facts) == Classify(engine, right, facts)
  {
    SameMatches(engine.rules, left, right, true);
    SameMatches(engine.rules, left, right, false);
    SameSignals(engine, left, right, facts);
    assert IsKnownRuntime(left) == IsKnownRuntime(right);
    assert RegisteredProject(engine, left, facts) == RegisteredProject(engine, right, facts);
  }

  lemma SameSignals(engine: Engine, left: ProcessRecord, right: ProcessRecord, facts: Facts)
    requires !ClassificationInputsDiffer(left, right)
    ensures Signals(engine, left, facts) == Signals(engine, right, facts)
  {
    SameListening(left, right);
    assert RegisteredProject(engine, left, facts) == RegisteredProject(engine, right, facts);
    assert MatchesKnownFramework(left) == MatchesKnownFramework(right);
    assert IsKnownRuntime(left) == IsKnownRuntime(right);
  }

  lemma SameListening(left: ProcessRecord, right: ProcessRecord)
    requires SamePorts(left.portBindings, right.portBindings)
    ensures ListensOnCommonDevelopmentPort(left) == ListensOnCommonDevelopmentPort(right)
  {
    if left.portBindings.Known? {
      var a, b := left.portBindings.value, right.portBindings.value;
      assert |a| == |b| by {
        assert WithoutTimes(left.portBindings).value == WithoutTimes(right.portBindings).value;
      }
      forall i | 0 <= i < |a| ensures WithoutTime(a[i]) == WithoutTime(b[i]) {
        assert WithoutTimes(left.portBindings).value[i] == WithoutTimes(right.portBindings).value[i];
      }
    }
  }

  lemma {:induction false} SameMatches(rules: seq<Rule>, left: ProcessRecord, right: ProcessRecord, exclusions: bool)
    requires !ClassificationInputsDiffer(left, right)
    ensures FirstMatch(rules, left, exclusions) == FirstMatch(rules, right, exclusions)
  {
    if rules != [] {
      SameMatches(rules[1..], left, right, exclusions);
    }
  }

  method PushReason(reasons: seq<Reason>, score: int, condition: bool, code: string, weight: int)
    returns (nextReasons: seq<Reason>, nextScore: int)
    requires score == TotalScore(reasons)
    ensures nextReasons == reasons + When(condition, code, weight)
    ensures nextScore == TotalScore(nextReasons)
  {
    nextReasons, nextScore := reasons, score;
    if condition {
      nextReasons, nextScore := reasons + [Reason(code, weight, None)], score + weight;
      assert nextReasons[..|nextReasons| - 1] == reasons;
    }
  }

  /** Signals are pushed one by one together with their scores. */
  method CollectSignals(engine: Engine, process: ProcessRecord, facts: Facts)
    returns (reasons: seq<Reason>, score: int, runtime: bool, hasNonRuntimeSignal: bool)
    ensures reasons == Signals(engine, process, facts) && score == TotalScore(reasons)
    ensures runtime == IsKnownRuntime(process)
    ensures hasNonRuntimeSignal == HasNonRuntimeSignal(engine, process, facts)
  {
    reasons, score := [], 0;
    var managed := process.ownership.Managed?;
    reasons, score := PushReason(reasons, score, managed, "managed", MANAGED_SCORE);
    var registered := RegisteredProject(engine, process, facts).Some?;
    reasons, score := PushReason(reasons, score, registered, "registeredProject", REGISTERED_PROJECT_SCORE);
    var framework := MatchesKnownFramework(process);
    reasons, score := PushReason(reasons, score, framework, "knownFramework", KNOWN_FRAMEWORK_SCORE);
    var feature := HasProjectFeature(facts);
    reasons, score := PushReason(reasons, score, feature, "projectFeature", PROJECT_FEATURE_SCORE);
    var port := ListensOnCommonDevelopmentPort(process);
    reasons, score := PushReason(reasons, score, port, "commonDevelopmentPort", COMMON_DEVELOPMENT_PORT_SCORE);
    runtime := IsKnownRuntime(process);
    reasons, score := PushReason(reasons, score, runtime, "knownRuntime", KNOWN_RUNTIME_SCORE);
    hasNonRuntimeSignal := managed || registered || framework || feature || port;
  }

  /** The accumulating form of the decision: collect the signals, then make one pass over the rules. */
  method ClassifyProcess(engine: Engine, process: ProcessRecord, facts: Facts) returns (decision: Decision)
    ensures decision == Classify(engine, process, facts)
    ensures Decided(engine, process, facts, decision)
  {
    ClassificationIsDecided(engine, process, facts);
    hide Decided, FirstMatch, RegisteredProject, IsKnownRuntime, Signals, TotalScore, HasNonRuntimeSignal, RuleReason;
    var reasons, score, runtime, hasNonRuntimeSignal := CollectSignals(engine, process, facts);
    var registered := RegisteredProject(engine, process, facts);
    StrongSignal(engine, process, facts);
    var winning, excluding := ScanRules(engine.rules, process);
    if excluding.Some? {
      return Decision(
        Classification(
          score, ALGORITHM_VERSION, Excluded, reasons + [RuleReason(excluding.value)], Some(Exclude), false),
        registered);
    }
    var projectId := registered;
    var userOverride: Option<Override> := None;
    if winning.Some? {
      userOverride := Some(winning.value.action);
      if winning.value.action.AssignProject? {
        projectId := Some(winning.value.action.project);
      }
      reasons := reasons + [RuleReason(winning.value)];
    }
    var runtimeOnly := runtime && !hasNonRuntimeSignal;
    var isDevelopment := userOverride.Some? || (!runtimeOnly && hasNonRuntimeSignal && score >= engine.threshold);
    var category := if isDevelopment then Development else if runtime then Runtime else Unclassified;
    decision := Decision(
      Classification(score, ALGORITHM_VERSION, category, reasons, userOverride, isDevelopment), projectId);
  }

  /** One pass: the first non-excluding match wins unless any excluding match follows. */
  method ScanRules(rules: seq<Rule>, process: ProcessRecord)
    returns (winning: Option<Rule>, excluding: Option<Rule>)
    ensures excluding == FirstMatch(rules, process, true)
    ensures excluding.None? ==> winning == FirstMatch(rules, process, false)
  {
    winning, excluding := None, None;
    var i := 0;
    while i < |rules| && excluding.None?
      invariant 0 <= i <= |rules|
      invariant excluding.Some? ==> FirstMatch(rules, process, true) == excluding
      invariant excluding.None? ==> FirstMatch(rules, process, true) == FirstMatch(rules[i..], process, true)
      invariant winning.Some? ==> FirstMatch(rules, process, false) == winning
      invariant winning.None? ==> FirstMatch(rules, process, false) == FirstMatch(rules[i..], process, false)
      decreases |rules| - i, excluding.None?
    {
      assert rules[i..][0] == rules[i] && rules[i..][1..] == rules[i + 1..];
      if Matches(rules[i].matcher, process) {
        if rules[i].action.Exclude? {
          excluding := Some(rules[i]);
        } else if winning.None? {
          winning := Some(rules[i]);
        }
      }
      i := i + 1;
    }
    if i == |rules| {
      assert rules[i..] == [];
    }
  }

  predicate HasNonRuntimeSignal(engine: Engine, process: ProcessRecord, facts: Facts) {
    || process.ownership.Managed?
    || RegisteredProject(engine, process, facts).Some?
    || MatchesKnownFramework(process)
    || HasProjectFeature(facts)
    || ListensOnCommonDevelopmentPort(process)
  }

  lemma StrongSignal(engine: Engine, process: ProcessRecord, facts: Facts)
    ensures (exists i :: 0 <= i < |Signals(engine, process, facts)|
                         && Signals(engine, process, facts)[i].code != "knownRuntime")
            <==> HasNonRuntimeSignal(engine, process, facts)
  {
    var s := Signals(engine, process, facts);
    var strong :=
      When(process.ownership.Managed?, "managed", MANAGED_SCORE)
      + When(RegisteredProject(engine, process, facts).Some?, "registeredProject", REGISTERED_PROJECT_SCORE)
      + When(MatchesKnownFramework(process), "knownFramework", KNOWN_FRAMEWORK_SCORE)
      + When(HasProjectFeature(facts), "projectFeature", PROJECT_FEATURE_SCORE)
      + When(ListensOnCommonDevelopmentPort(process), "commonDevelopmentPort", COMMON_DEVELOPMENT_PORT_SCORE);
    assert s == strong + When(IsKnownRuntime(process), "knownRuntime", KNOWN_RUNTIME_SCORE);
    forall i | 0 <= i < |strong| ensures strong[i].code != "knownRuntime" {
      assert |strong[i].code| != |"knownRuntime"|;
    }
    if strong != [] {
      assert s[0] == strong[0];
    } else {
      assert s == When(IsKnownRuntime(process), "knownRuntime", KNOWN_RUNTIME_SCORE);
    }
  }

  // ----- Validation -----

  predicate ValidRule(rule: Rule, known: set<string>) {
    && NonEmptyBounded(rule.id, MAX_RULE_ID_BYTES)
    && NonEmptyBounded(rule.matcher.pattern, MAX_RULE_PATTERN_BYTES)
    && (rule.action.AssignProject? ==>
          NonEmptyBounded(rule.action.project, MAX_PROJECT_ID_BYTES) && rule.action.project in known)
  }

  ghost predicate ValidIds(ids: seq<string>) {
    && (forall i | 0 <= i < |ids| :: NonEmptyBounded(ids[i], MAX_PROJECT_ID_BYTES))
    && (forall i, j | 0 <= i < j < |ids| :: ids[i] != ids[j])
  }

  ghost predicate ValidRules(rules: seq<Rule>, known: set<string>) {
    DistinctIds(rules) && forall i | 0 <= i < |rules| :: ValidRule(rules[i], known)
  }

  ghost predicate ValidSnapshot(snapshot: RulesSnapshot) {
    && 0 <= snapshot.threshold <= MAX_DEVELOPMENT_THRESHOLD
    && |snapshot.projectIds| <= MAX_KNOWN_PROJECTS
    && |snapshot.rules| <= MAX_CLASSIFICATION_RULES
    && ValidIds(snapshot.projectIds)
    && ValidRules(snapshot.rules, Elements(snapshot.projectIds))
  }

  function Elements<T>(xs: seq<T>): set<T> {
    set x | x in xs
  }

  method CollectProjectIds(ids: seq<string>) returns (known: Option<set<string>>)
    ensures known == if ValidIds(ids) then Some(Elements(ids)) else None
  {
    var found: set<string> := {};
    for i := 0 to |ids|
      invariant found == Elements(ids[..i])
      invariant ValidIds(ids[..i])
    {
      if !NonEmptyBounded(ids[i], MAX_PROJECT_ID_BYTES) || ids[i] in found {
        if ids[i] in found {
          var j :| 0 <= j < i && ids[..i][j] == ids[i];
          assert ids[j] == ids[i];
        }
        return None;
      }
      forall j | 0 <= j < i ensures ids[j] != ids[i] {
        assert ids[j] in ids[..i];
      }
      found := found + {ids[i]};
      assert ids[..i + 1] == ids[..i] + [ids[i]];
    }
    assert ids[..|ids|] == ids;
    known := Some(found);
  }

  method CollectRules(rules: seq<Rule>, known: set<string>) returns (sorted: Option<seq<Rule>>)
    ensures sorted == if ValidRules(rules, known) then Some(SortRules(rules)) else None
  {
    hide ValidRule, InsertRule;
    var ids: set<string> := {};
    var found: seq<Rule> := [];
    for i := 0 to |rules|
      invariant found == SortRules(rules[..i])
      invariant ids == set k | 0 <= k < i :: rules[k].id
      invariant ValidRules(rules[..i], known)
    {
      if rules[i].id in ids || !ValidRule(rules[i], known) {
        return None;
      }
      forall k | 0 <= k < i ensures rules[k].id != rules[i].id {
        assert rules[k].id in ids;
      }
      ids := ids + {rules[i].id};
      assert rules[..i + 1][..i] == rules[..i];
      if rules[i].enabled {
        found := InsertRule(rules[i], found);
      }
    }
    assert rules[..|rules|] == rules;
    sorted := Some(found);
  }

  /** A valid snapshot, and no other, yields an engine with its rules filtered and sorted. */
  method NewEngine(snapshot: RulesSnapshot) returns (engine: Result<Engine>)
    ensures engine ==
            if ValidSnapshot(snapshot) then
              Ok(Engine(snapshot.threshold, Elements(snapshot.projectIds), SortRules(snapshot.rules)))
            else Err(InvalidArgument)
  {
    if !(0 <= snapshot.threshold <= MAX_DEVELOPMENT_THRESHOLD)
       || |snapshot.projectIds| > MAX_KNOWN_PROJECTS
       || |snapshot.rules| > MAX_CLASSIFICATION_RULES {
      return Err(InvalidArgument);
    }
    var known := CollectProjectIds(snapshot.projectIds);
    if known.None? {
      return Err(InvalidArgument);
    }
    var rules := CollectRules(snapshot.rules, known.value);
    if rules.None? {
      return Err(InvalidArgument);
    }
    engine := Ok(Engine(snapshot.threshold, known.value, rules.value));
  }

  predicate ValidFacts(engine: Engine, facts: Facts) {
    && (facts.projectId.Some? ==>
          NonEmptyBounded(facts.projectId.value, MAX_PROJECT_ID_BYTES) && facts.projectId.value in engine.known)
    && (facts.featureId.Some? ==> NonEmptyBounded(facts.featureId.value, MAX_PROJECT_FEATURE_ID_BYTES))
  }

  function PatternBytes(rules: seq<Rule>): nat {
    if rules == [] then 0
    else
      var bytes := ByteLength(rules[0].matcher.pattern);
      (if bytes < 8 then 8 else bytes) + PatternBytes(rules[1..])
  }

  predicate WithinWorkBudget(processCapacity: nat, engine: Engine) {
    && processCapacity * (|engine.rules| + 1) <= MAX_CLASSIFICATION_RULE_EVALUATIONS
    && processCapacity * (PatternBytes(engine.rules) + 16) <= MAX_CLASSIFICATION_PATTERN_WORK_BYTES
  }
}
