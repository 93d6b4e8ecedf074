/** The child-output sanitizer: of everything a child process prints, only diagnostics of a
    fixed language are kept, and every other line becomes a placeholder. */
module Redaction {
  import opened Basics
  import opened Text

  // Two long texts are joined from two parts: the verifier looks only at short literals letter by letter.
  const PLACEHOLDER: string := "[REDACTED CHILD OUTPUT]"
  const INITIALIZATION: string := "[CHILD INITIALIZATION ERROR]"
  const SQLITE_STATE: string := "[CHILD ERROR class=" + "sqlite_state_initialization_failed]"
  const TASK_PREFIX: string := "[CHILD TASK ERROR "
  const ADAPTER_PREFIX: string := "[CHILD ADAPTER ERROR code="
  const EXIT_PREFIX: string := "[CHILD PROCESS EXIT code="

  const REPORTED: string := "Agent reported error (code "
  const EXITED: string := "process has exited with code "
  const SQLITE_FAILED: string := "Error: failed to " + "initialize sqlite state runtime"

  // Fields of a structured task diagnostic.

  datatype Key = Class | Code | ExitCode | Action | Phase | Rule | RetryAt | RetryAfterSeconds

  /** The order in which a diagnostic prints its fields. */
  const ORDER: seq<Key> := [Class, Code, ExitCode, Action, Phase, Rule, RetryAt, RetryAfterSeconds]

  type Task = map<Key, string>

  function KeyName(key: Key): string {
    match key
    case Class => "class"
    case Code => "code"
    case ExitCode => "exit_code"
    case Action => "action"
    case Phase => "phase"
    case Rule => "rule"
    case RetryAt => "retry_at"
    case RetryAfterSeconds => "retry_after_seconds"
  }

  function KeyOf(name: string): Option<Key> {
    if name == "class" then Some(Class)
    else if name == "code" then Some(Code)
    else if name == "exit_code" then Some(ExitCode)
    else if name == "action" then Some(Action)
    else if name == "phase" then Some(Phase)
    else if name == "rule" then Some(Rule)
    else if name == "retry_at" then Some(RetryAt)
    else if name == "retry_after_seconds" then Some(RetryAfterSeconds)
    else None
  }

  predicate ValidErrorCode(value: string) { value != "" && |value| <= 11 && ParseI32(value).Some? }

  predicate ValidRetryAt(value: string) {
    && |value| == 20
    && forall i | 0 <= i < 20 ::
         if i == 4 || i == 7 then value[i] == '-'
         else if i == 10 then value[i] == 'T'
         else if i == 13 || i == 16 then value[i] == ':'
         else if i == 19 then value[i] == 'Z'
         else IsDigit(value[i])
  }

  predicate ValidRetryAfterSeconds(value: string) {
    ParseU32(value).Some? && ParseU32(value).value <= 604_800
  }

  predicate ValidValue(key: Key, value: string) {
    match key
    case Class => value == "unauthorized" || value == "usage_limit" || value == "no_session"
    case Code => ValidErrorCode(value)
    case ExitCode => ValidErrorCode(value)
    case Action => value == "reauthenticate" || value == "retry" || value == "reauthorize"
    case Phase => value == "task" || value == "pre_session" || value == "pre_turn"
    case Rule => value == "provider_unauthorized" || value == "provider_usage_limit" || value == "provider_no_session"
    case RetryAt => ValidRetryAt(value)
    case RetryAfterSeconds => ValidRetryAfterSeconds(value)
  }

  predicate Complete(task: Task) { Class in task && Action in task && Phase in task && Rule in task }

  ghost predicate ValidTask(task: Task) {
    Complete(task) && forall key | key in task :: ValidValue(key, task[key])
  }

  // The printer.

  function Field(key: Key, value: string): string { KeyName(key) + "=" + value }

  function Fields(task: Task, keys: seq<Key>): seq<string> {
    if keys == [] then []
    else if keys[0] in task then [Field(keys[0], task[keys[0]])] + Fields(task, keys[1..])
    else Fields(task, keys[1..])
  }

  function Print(task: Task): string { TASK_PREFIX + Join(Fields(task, ORDER)) + "]" }

  // The parser: `sanitized_structured_task_diagnostic` before it prints.

  function Collect(fields: seq<string>, found: Task): Option<Task> {
    if fields == [] then Some(found)
    else match SplitField(fields[0])
      case None => None
      case Some((name, value)) =>
        match KeyOf(name)
        case None => None
        case Some(key) =>
          if key !in found && ValidValue(key, value) then Collect(fields[1..], found[key := value]) else None
  }

  function Parse(line: string): Option<Task> {
    match StripPrefix(line, TASK_PREFIX)
    case None => None
    case Some(rest) =>
      match StripSuffix(rest, "]")
      case None => None
      case Some(body) =>
        match Collect(SplitWhitespace(body), map[])
        case None => None
        case Some(task) => if Complete(task) then Some(task) else None
  }

  // Extraction from free-form child output.

  predicate IsNumeralCharacter(c: char) { IsDigit(c) || c == '-' }

  function NumberAfter(line: string, marker: string): Option<string> {
    match After(line, marker)
    case None => None
    case Some(rest) =>
      var value := TakeWhile(rest, IsNumeralCharacter);
      if ValidErrorCode(value) then Some(value) else None
  }

  function RetryAtAfter(line: string, markers: seq<string>): Option<string> {
    if markers == [] then None
    else match After(line, markers[0])
      case Some(rest) =>
        if |rest| >= 20 && ValidRetryAt(rest[..20]) then Some(rest[..20]) else RetryAtAfter(line, markers[1..])
      case None => RetryAtAfter(line, markers[1..])
  }

  function RetryAfterAfter(line: string, markers: seq<string>): Option<string> {
    if markers == [] then None
    else match After(line, markers[0])
      case Some(rest) =>
        var value := TakeWhile(rest, IsDigit);
        if ValidRetryAfterSeconds(value) then Some(value) else RetryAfterAfter(line, markers[1..])
      case None => RetryAfterAfter(line, markers[1..])
  }

  predicate AdapterLine(line: string) {
    || Contains(line, REPORTED)
    || StartsWith(line, "agent task failed:")
    || StartsWith(line, "agent turn failed:")
    || StartsWith(line, "agent request failed:")
  }

  function Labels(class_: string, action: string, phase: string, rule: string): Task {
    map[Class := class_, Action := action, Phase := phase, Rule := rule]
  }

  function Classify(line: string): Option<Task> {
    var lower := ToAsciiLower(line);
    if ContainsAny(lower, ["unauthorized", "authentication failed", "refresh token", "reauthenticate"]) then
      Some(Labels("unauthorized", "reauthenticate", "task", "provider_unauthorized"))
    else if ContainsAny(lower, ["usage limit", "usage-limit", "rate limit", "quota", "too many requests"]) then
      Some(Labels("usage_limit", "retry", "task", "provider_usage_limit"))
    else if ContainsAny(lower, ["no codex session", "session has not been initialized", "failed to create session",
                                "session creation failed", "no active session", "pre-session", "presession",
                                "before turn", "pre-turn", "preturn"]) then
      Some(Labels("no_session", "retry", "pre_session", "provider_no_session"))
    else None
  }

  function WithOptional(task: Task, key: Key, value: Option<string>): Task {
    if value.Some? then task[key := value.value] else task
  }

  function ClassifiedTask(line: string): Option<Task> {
    if !AdapterLine(line) then None
    else match Classify(line)
      case None => None
      case Some(labels) =>
        var t1 := WithOptional(labels, Code, NumberAfter(line, REPORTED));
        var t2 := WithOptional(t1, ExitCode, NumberAfter(line, EXITED));
        var t3 := WithOptional(t2, RetryAt, RetryAtAfter(line, ["retry_at=", "retry at ", "retry after "]));
        Some(WithOptional(t3, RetryAfterSeconds,
                          RetryAfterAfter(line, ["retry_after_seconds=", "retry-after-seconds="])))
  }

  function AdapterError(code: string): string { ADAPTER_PREFIX + code + "]" }
  function ProcessExit(code: string): string { EXIT_PREFIX + code + "]" }

  function OptionalLine(code: Option<string>, show: string -> string): seq<string> {
    if code.Some? then [show(code.value)] else []
  }

  predicate IsCodeLine(line: string, prefix: string) {
    match StripPrefix(line, prefix)
    case None => false
    case Some(rest) =>
      match StripSuffix(rest, "]")
      case None => false
      case Some(code) => ValidErrorCode(code)
  }

  /** The diagnostic lines kept of one line of output; none if it is not a diagnostic. */
  function Diagnosis(raw: string): seq<string> {
    var line := Trim(raw);
    if line == INITIALIZATION || line == SQLITE_STATE then [line]
    else if Parse(line).Some? then [Print(Parse(line).value)]
    else if IsCodeLine(line, ADAPTER_PREFIX) || IsCodeLine(line, EXIT_PREFIX) then [line]
    else FreeForm(line)
  }

  function FreeForm(line: string): seq<string> {
    var reported, exited := NumberAfter(line, REPORTED), NumberAfter(line, EXITED);
    if StartsWith(line, "agent initialize failed:") then
      [INITIALIZATION] + OptionalLine(reported, AdapterError) + OptionalLine(exited, ProcessExit)
    else if ClassifiedTask(line).Some? then [Print(ClassifiedTask(line).value)]
    else if reported.Some? then [AdapterError(reported.value)] + OptionalLine(exited, ProcessExit)
    else if exited.Some? then [ProcessExit(exited.value)]
    else if StartsWith(line, SQLITE_FAILED) then [SQLITE_STATE]
    else []
  }

  function RedactLine(raw: string): seq<string> {
    if Diagnosis(raw) == [] then [PLACEHOLDER] else Diagnosis(raw)
  }

  function RedactLines(lines: seq<string>): seq<string> {
    if lines == [] then [] else RedactLine(lines[0]) + RedactLines(lines[1..])
  }

  /** `redact_log`. */
  function Redact(input: string): string { Unlines(RedactLines(Lines(input))) }

  // The language of output lines.

  ghost predicate InLanguage(line: string) {
    || line == PLACEHOLDER
    || line == INITIALIZATION
    || line == SQLITE_STATE
    || (exists code :: ValidErrorCode(code) && line == AdapterError(code))
    || (exists code :: ValidErrorCode(code) && line == ProcessExit(code))
    || (exists task :: ValidTask(task) && line == Print(task))
  }

  // The structured printer and parser undo each other.

  lemma KeyNames(key: Key)
    ensures KeyOf(KeyName(key)) == Some(key)
    ensures forall i | 0 <= i < |KeyName(key)| :: KeyName(key)[i] != '=' && !IsWhitespace(KeyName(key)[i])
  {
  }

  lemma ClassesAndActionsAreWords()
    ensures IsWord("unauthorized") && IsWord("usage_limit") && IsWord("no_session")
    ensures IsWord("reauthenticate") && IsWord("retry") && IsWord("reauthorize")
  {
  }

  lemma PhasesAndRulesAreWords()
    ensures IsWord("task") && IsWord("pre_session") && IsWord("pre_turn")
    ensures IsWord("provider_unauthorized") && IsWord("provider_usage_limit") && IsWord("provider_no_session")
  {
  }

  lemma RetryAtIsWord(value: string)
    requires ValidRetryAt(value)
    ensures IsWord(value)
  {
  }

  lemma ValuesAreWords(key: Key, value: string)
    requires ValidValue(key, value)
    ensures IsWord(value)
  {
    hide IsWord;
    match key
    case Class => ClassesAndActionsAreWords();
    case Action => ClassesAndActionsAreWords();
    case Phase => PhasesAndRulesAreWords();
    case Rule => PhasesAndRulesAreWords();
    case RetryAt => RetryAtIsWord(value);
    case _ => NumeralsAreWords(value);
  }

  lemma FieldsAreWords(key: Key, value: string)
    requires ValidValue(key, value)
    ensures IsWord(Field(key, value))
  {
    KeyNames(key);
    ValuesAreWords(key, value);
    hide KeyName, ValidValue;
    var field, name := Field(key, value), KeyName(key);
    forall i | 0 <= i < |field| ensures !IsWhitespace(field[i]) {
      if i < |name| {
        assert field[i] == name[i];
      } else if i > |name| {
        assert field[i] == value[i - |name| - 1];
      }
    }
  }

  lemma {:induction false} AllFieldsAreWords(task: Task, keys: seq<Key>)
    requires forall key | key in task :: ValidValue(key, task[key])
    ensures forall i | 0 <= i < |Fields(task, keys)| :: IsWord(Fields(task, keys)[i])
  {
    hide ValidValue, Field;
    if keys != [] {
      AllFieldsAreWords(task, keys[1..]);
      if keys[0] in task {
        FieldsAreWords(keys[0], task[keys[0]]);
      }
    }
  }

  predicate Distinct(keys: seq<Key>) { forall i, j | 0 <= i < j < |keys| :: keys[i] != keys[j] }

  function Restricted(task: Task, keys: seq<Key>): Task { map key | key in task && key in keys :: task[key] }

  lemma CollectField(key: Key, value: string, rest: seq<string>, found: Task)
    requires ValidValue(key, value) && key !in found
    ensures Collect([Field(key, value)] + rest, found) == Collect(rest, found[key := value])
  {
    KeyNames(key);
    hide ValidValue, KeyName, KeyOf;
    SplitOfField(KeyName(key), value);
    var fields := [Field(key, value)] + rest;
    assert fields[0] == Field(key, value) && fields[1..] == rest;
  }

  /** Reading back the printed fields of some keys adds exactly those keys. */
  lemma {:induction false} CollectOfFields(task: Task, keys: seq<Key>, found: Task)
    requires forall key | key in task :: ValidValue(key, task[key])
    requires Distinct(keys) && forall i | 0 <= i < |keys| :: keys[i] !in found
    ensures Collect(Fields(task, keys), found) == Some(found + Restricted(task, keys))
  {
    hide ValidValue, Collect, Field, Restricted;
    if keys == [] {
      RestrictedNone(task);
      assert found + map[] == found;
      CollectNone(found);
    } else {
      var key, rest := keys[0], keys[1..];
      assert keys == [key] + rest;
      if key in task {
        var value := task[key];
        CollectField(key, value, Fields(task, rest), found);
        CollectOfFields(task, rest, found[key := value]);
      } else {
        CollectOfFields(task, rest, found);
      }
      RestrictedStep(task, key, rest, found);
    }
  }

  lemma RestrictedStep(task: Task, key: Key, rest: seq<Key>, found: Task)
    requires key !in rest
    ensures Restricted(task, [key] + rest) ==
            if key in task then Restricted(task, rest)[key := task[key]] else Restricted(task, rest)
    ensures key in task ==>
              found[key := task[key]] + Restricted(task, rest) == found + Restricted(task, rest)[key := task[key]]
  {
  }

  lemma RestrictedNone(task: Task)
    ensures Restricted(task, []) == map[]
  {
  }

  lemma CollectNone(found: Task)
    ensures Collect([], found) == Some(found)
  {
  }

  lemma StripTask(body: string)
    ensures StripPrefix(TASK_PREFIX + body + "]", TASK_PREFIX) == Some(body + "]")
    ensures StripSuffix(body + "]", "]") == Some(body)
  {
    var line := TASK_PREFIX + body + "]";
    assert line[..|TASK_PREFIX|] == TASK_PREFIX && line[|TASK_PREFIX|..] == body + "]";
    var rest := body + "]";
    assert rest[|rest| - 1..] == "]" && rest[..|rest| - 1] == body;
  }

  /** Parsing undoes printing, for every valid diagnostic. */
  lemma ParseOfPrint(task: Task)
    requires ValidTask(task)
    ensures Parse(Print(task)) == Some(task)
  {
    hide Fields, Collect, Join, ValidValue, SplitWhitespace, StripPrefix, StripSuffix;
    var fields := Fields(task, ORDER);
    StripTask(Join(fields));
    AllFieldsAreWords(task, ORDER);
    SplitOfJoin(fields);
    CollectOfFields(task, ORDER, map[]);
    assert map[] + Restricted(task, ORDER) == task by {
      forall key ensures key in ORDER { InOrder(key); }
    }
  }

  lemma InOrder(key: Key)
    ensures key in ORDER
  {
    assert ORDER[0] == Class && ORDER[1] == Code && ORDER[2] == ExitCode && ORDER[3] == Action;
    assert ORDER[4] == Phase && ORDER[5] == Rule && ORDER[6] == RetryAt && ORDER[7] == RetryAfterSeconds;
  }

  lemma {:induction false} CollectIsValid(fields: seq<string>, found: Task)
    requires forall key | key in found :: ValidValue(key, found[key])
    ensures Collect(fields, found).Some? ==>
              forall key | key in Collect(fields, found).value :: ValidValue(key, Collect(fields, found).value[key])
  {
    hide ValidValue, KeyOf;
    if fields != [] && SplitField(fields[0]).Some? {
      var (name, value) := SplitField(fields[0]).value;
      if KeyOf(name).Some? && KeyOf(name).value !in found && ValidValue(KeyOf(name).value, value) {
        CollectIsValid(fields[1..], found[KeyOf(name).value := value]);
      }
    }
  }

  /** Whatever is parsed is valid. */
  lemma ParseIsValid(line: string)
    ensures Parse(line).Some? ==> ValidTask(Parse(line).value)
  {
    if Parse(line).Some? {
      var body := StripSuffix(StripPrefix(line, TASK_PREFIX).value, "]").value;
      CollectIsValid(SplitWhitespace(body), map[]);
    }
  }

  // Every output line is in the language.

  lemma OptionalInLanguage(line: string)
    ensures NumberAfter(line, REPORTED).Some? ==> InLanguage(AdapterError(NumberAfter(line, REPORTED).value))
    ensures NumberAfter(line, EXITED).Some? ==> InLanguage(ProcessExit(NumberAfter(line, EXITED).value))
  {
  }

  lemma {:induction false} RetryTimesAreValid(line: string, markers: seq<string>)
    ensures RetryAtAfter(line, markers).Some? ==> ValidRetryAt(RetryAtAfter(line, markers).value)
    ensures RetryAfterAfter(line, markers).Some? ==> ValidRetryAfterSeconds(RetryAfterAfter(line, markers).value)
  {
    if markers != [] {
      RetryTimesAreValid(line, markers[1..]);
    }
  }

  lemma WithOptionalIsValid(task: Task, key: Key, value: Option<string>)
    requires ValidTask(task) && (value.Some? ==> ValidValue(key, value.value))
    ensures ValidTask(WithOptional(task, key, value))
  {
    hide ValidValue;
  }

  lemma LabelsAreValid(line: string)
    ensures Classify(line).Some? ==> ValidTask(Classify(line).value)
  {
    hide ContainsAny, ToAsciiLower;
  }

  lemma ClassifiedIsValid(line: string)
    ensures ClassifiedTask(line).Some? ==> ValidTask(ClassifiedTask(line).value)
  {
    hide Classify, ContainsAny, ValidErrorCode, ValidRetryAt, ValidRetryAfterSeconds, WithOptional, ValidTask;
    if ClassifiedTask(line).Some? {
      LabelsAreValid(line);
      var ats, afters := ["retry_at=", "retry at ", "retry after "], ["retry_after_seconds=", "retry-after-seconds="];
      RetryTimesAreValid(line, ats);
      RetryTimesAreValid(line, afters);
      var labels := Classify(line).value;
      var t1 := WithOptional(labels, Code, NumberAfter(line, REPORTED));
      WithOptionalIsValid(labels, Code, NumberAfter(line, REPORTED));
      var t2 := WithOptional(t1, ExitCode, NumberAfter(line, EXITED));
      WithOptionalIsValid(t1, ExitCode, NumberAfter(line, EXITED));
      var t3 := WithOptional(t2, RetryAt, RetryAtAfter(line, ats));
      WithOptionalIsValid(t2, RetryAt, RetryAtAfter(line, ats));
      WithOptionalIsValid(t3, RetryAfterSeconds, RetryAfterAfter(line, afters));
    }
  }

  lemma CodeLineInLanguage(line: string)
    ensures IsCodeLine(line, ADAPTER_PREFIX) || IsCodeLine(line, EXIT_PREFIX) ==> InLanguage(line)
  {
    if IsCodeLine(line, ADAPTER_PREFIX) {
      var code := StripSuffix(StripPrefix(line, ADAPTER_PREFIX).value, "]").value;
      assert line == AdapterError(code);
    } else if IsCodeLine(line, EXIT_PREFIX) {
      var code := StripSuffix(StripPrefix(line, EXIT_PREFIX).value, "]").value;
      assert line == ProcessExit(code);
    }
  }

  lemma FreeFormInLanguage(line: string)
    ensures forall i | 0 <= i < |FreeForm(line)| :: InLanguage(FreeForm(line)[i])
  {
    OptionalInLanguage(line);
    ClassifiedIsValid(line);
    hide Print, ClassifiedTask, NumberAfter, AdapterError, ProcessExit, StartsWith, ValidTask;
  }

  /** Whatever the input line, what is kept of it is in the language. */
  lemma RedactLineInLanguage(raw: string)
    ensures forall i | 0 <= i < |RedactLine(raw)| :: InLanguage(RedactLine(raw)[i])
  {
    var line := Trim(raw);
    ParseIsValid(line);
    CodeLineInLanguage(line);
    FreeFormInLanguage(line);
    hide Print, Parse, FreeForm, IsCodeLine, ValidTask, AdapterError, ProcessExit;
  }

  lemma {:induction false} RedactLinesInLanguage(lines: seq<string>)
    ensures forall i | 0 <= i < |RedactLines(lines)| :: InLanguage(RedactLines(lines)[i])
  {
    hide RedactLine, InLanguage;
    if lines != [] {
      RedactLineInLanguage(lines[0]);
      RedactLinesInLanguage(lines[1..]);
    }
  }

  // Every line of the language is kept as it is.

  lemma BracketedIsTrimmed(line: string)
    requires |line| >= 2 && line[0] == '[' && line[|line| - 1] == ']'
    ensures Trim(line) == line
  {
    TrimOfTrimmed(line);
  }

  lemma PlaceholderIsKept()
    ensures RedactLine(PLACEHOLDER) == [PLACEHOLDER]
  {
    BracketedIsTrimmed(PLACEHOLDER);
    AfterShort(PLACEHOLDER, REPORTED);
    AfterShort(PLACEHOLDER, EXITED);
    assert PLACEHOLDER[1] == 'R';
    assert INITIALIZATION[1] == 'C' && SQLITE_STATE[1] == 'C';
    NotPrefix(PLACEHOLDER, TASK_PREFIX, 1);
    NotPrefix(PLACEHOLDER, ADAPTER_PREFIX, 1);
    NotPrefix(PLACEHOLDER, EXIT_PREFIX, 1);
    NotPrefix(PLACEHOLDER, "agent initialize failed:", 0);
    NotPrefix(PLACEHOLDER, "agent task failed:", 0);
    NotPrefix(PLACEHOLDER, "agent turn failed:", 0);
    NotPrefix(PLACEHOLDER, "agent request failed:", 0);
    NotPrefix(PLACEHOLDER, SQLITE_FAILED, 0);
    hide After, Trim, StartsWith, Collect, Classify;
  }

  lemma NotPrefix(s: string, p: string, i: nat)
    requires i < |p| && i < |s| && s[i] != p[i]
    ensures !StartsWith(s, p)
  {
    assert |p| <= |s| ==> s[..|p|][i] == s[i];
  }

  lemma LabelsAreKept()
    ensures RedactLine(INITIALIZATION) == [INITIALIZATION]
    ensures RedactLine(SQLITE_STATE) == [SQLITE_STATE]
  {
    BracketedIsTrimmed(INITIALIZATION);
    BracketedIsTrimmed(SQLITE_STATE);
    hide Trim;
  }

  lemma StripCode(prefix: string, code: string)
    ensures StripPrefix(prefix + code + "]", prefix) == Some(code + "]")
    ensures StripSuffix(code + "]", "]") == Some(code)
  {
    var line := prefix + code + "]";
    assert line[..|prefix|] == prefix && line[|prefix|..] == code + "]";
    var rest := code + "]";
    assert rest[|rest| - 1..] == "]" && rest[..|rest| - 1] == code;
  }

  lemma SeventhLetters()
    ensures |INITIALIZATION| > 7 && INITIALIZATION[7] == 'I'
    ensures |SQLITE_STATE| > 7 && SQLITE_STATE[7] == 'E'
    ensures |TASK_PREFIX| > 7 && TASK_PREFIX[7] == 'T' && TASK_PREFIX[0] == '['
    ensures |ADAPTER_PREFIX| > 7 && ADAPTER_PREFIX[7] == 'A' && ADAPTER_PREFIX[0] == '['
    ensures |EXIT_PREFIX| > 7 && EXIT_PREFIX[7] == 'P' && EXIT_PREFIX[0] == '['
  {
  }

  lemma CodeLineIsNoOtherLine(prefix: string, code: string)
    requires prefix == ADAPTER_PREFIX || prefix == EXIT_PREFIX
    ensures var line := prefix + code + "]";
      Trim(line) == line && line != INITIALIZATION && line != SQLITE_STATE && !StartsWith(line, TASK_PREFIX)
  {
    var line := prefix + code + "]";
    SeventhLetters();
    assert line[0] == prefix[0] && line[7] == prefix[7] && line[|line| - 1] == ']';
    BracketedIsTrimmed(line);
    NotPrefix(line, TASK_PREFIX, 7);
  }

  lemma CodeLineIsKept(prefix: string, code: string)
    requires prefix == ADAPTER_PREFIX || prefix == EXIT_PREFIX
    requires ValidErrorCode(code)
    ensures RedactLine(prefix + code + "]") == [prefix + code + "]"]
  {
    var line := prefix + code + "]";
    CodeLineIsNoOtherLine(prefix, code);
    StripCode(prefix, code);
    hide Trim, ValidErrorCode, StartsWith, StripSuffix, FreeForm;
    assert IsCodeLine(line, prefix);
  }

  lemma TaskIsKept(task: Task)
    requires ValidTask(task)
    ensures RedactLine(Print(task)) == [Print(task)]
  {
    var line := Print(task);
    ParseOfPrint(task);
    SeventhLetters();
    assert line[0] == TASK_PREFIX[0] && line[7] == TASK_PREFIX[7] && line[|line| - 1] == ']';
    BracketedIsTrimmed(line);
    hide Trim, Parse, Print, FreeForm, IsCodeLine;
  }

  lemma LanguageIsKept(line: string)
    requires InLanguage(line)
    ensures RedactLine(line) == [line]
  {
    hide RedactLine, ValidErrorCode, ValidTask, Print;
    PlaceholderIsKept();
    LabelsAreKept();
    if code :| ValidErrorCode(code) && line == AdapterError(code) {
      CodeLineIsKept(ADAPTER_PREFIX, code);
    } else if code :| ValidErrorCode(code) && line == ProcessExit(code) {
      CodeLineIsKept(EXIT_PREFIX, code);
    } else if task :| ValidTask(task) && line == Print(task) {
      TaskIsKept(task);
    }
  }

  lemma {:induction false} LanguageLinesAreKept(lines: seq<string>)
    requires forall i | 0 <= i < |lines| :: InLanguage(lines[i])
    ensures RedactLines(lines) == lines
  {
    hide RedactLine, InLanguage;
    if lines != [] {
      LanguageIsKept(lines[0]);
      LanguageLinesAreKept(lines[1..]);
    }
  }

  // Lines of the language are single lines.

  predicate NoLineFeed(s: string) { forall i | 0 <= i < |s| :: s[i] != '\n' }

  lemma WordHasNoLineFeed(s: string)
    requires IsWord(s)
    ensures NoLineFeed(s)
  {
  }

  lemma {:induction false} JoinHasNoLineFeed(words: seq<string>)
    requires forall i | 0 <= i < |words| :: IsWord(words[i])
    ensures NoLineFeed(Join(words))
  {
    if words != [] {
      WordHasNoLineFeed(words[0]);
      JoinHasNoLineFeed(words[1..]);
    }
  }

  lemma BracketedIsLine(prefix: string, body: string)
    requires NoLineFeed(prefix) && NoLineFeed(body)
    ensures IsLine(prefix + body + "]")
  {
  }

  lemma LabelsAreLines()
    ensures IsLine(PLACEHOLDER) && IsLine(INITIALIZATION) && IsLine(SQLITE_STATE)
    ensures NoLineFeed(TASK_PREFIX) && NoLineFeed(ADAPTER_PREFIX) && NoLineFeed(EXIT_PREFIX)
  {
  }

  lemma LanguageIsLine(line: string)
    requires InLanguage(line)
    ensures IsLine(line)
  {
    LabelsAreLines();
    hide IsLine, NoLineFeed, ValidValue;
    if code :| ValidErrorCode(code) && line == AdapterError(code) {
      NumeralsAreWords(code);
      WordHasNoLineFeed(code);
      BracketedIsLine(ADAPTER_PREFIX, code);
    } else if code :| ValidErrorCode(code) && line == ProcessExit(code) {
      NumeralsAreWords(code);
      WordHasNoLineFeed(code);
      BracketedIsLine(EXIT_PREFIX, code);
    } else if task :| ValidTask(task) && line == Print(task) {
      AllFieldsAreWords(task, ORDER);
      JoinHasNoLineFeed(Fields(task, ORDER));
      BracketedIsLine(TASK_PREFIX, Join(Fields(task, ORDER)));
    }
  }

  lemma LinesOfLanguage(lines: seq<string>)
    requires forall i | 0 <= i < |lines| :: InLanguage(lines[i])
    ensures Lines(Unlines(lines)) == lines
  {
    hide InLanguage, IsLine;
    forall i | 0 <= i < |lines| ensures IsLine(lines[i]) { LanguageIsLine(lines[i]); }
    LinesOfUnlines(lines);
  }

  // Main results.

  /** Every line of redacted output lies in the fixed language, whatever the child printed. */
  lemma RedactedOutputInLanguage(input: string)
    ensures Lines(Redact(input)) == RedactLines(Lines(input))
    ensures forall i | 0 <= i < |Lines(Redact(input))| :: InLanguage(Lines(Redact(input))[i])
  {
    hide InLanguage, RedactLines, Lines, Unlines;
    RedactLinesInLanguage(Lines(input));
    LinesOfLanguage(RedactLines(Lines(input)));
  }

  /** Only the empty text is redacted to nothing. */
  lemma RedactsToNothingExactly(text: string)
    ensures Redact(text) == "" <==> text == ""
  {
    hide Diagnosis;
    if text != "" {
      var lines := Lines(text);
      assert lines != [] && RedactLine(lines[0]) != [];
      assert RedactLines(lines) == RedactLine(lines[0]) + RedactLines(lines[1..]);
    }
  }

  lemma BlankLineIsRedacted(raw: string)
    requires Trim(raw) == ""
    ensures RedactLine(raw) == [PLACEHOLDER]
  {
    assert Diagnosis(raw) == Diagnosis("") == [];
  }

  lemma CarriageReturnIsRedacted()
    ensures Redact("\r") == PLACEHOLDER + "\n"
  {
    assert Lines("\r") == ["\r"];
    assert Trim("\r") == "";
    hide Diagnosis, Trim, RedactLine;
    BlankLineIsRedacted("\r");
    assert RedactLines(["\r"]) == RedactLine("\r") + RedactLines([]);
    assert Unlines([PLACEHOLDER]) == PLACEHOLDER + "\n" + Unlines([]);
  }

  /** Redaction is stable: reading a redacted log back and redacting it again changes nothing. */
  lemma RedactIsIdempotent(input: string)
    ensures Redact(Redact(input)) == Redact(input)
  {
    hide InLanguage, RedactLines, Lines, Unlines;
    RedactLinesInLanguage(Lines(input));
    RedactedOutputInLanguage(input);
    LanguageLinesAreKept(RedactLines(Lines(input)));
  }

  /** The texts redaction leaves alone are exactly the texts made of lines of the language. */
  lemma FixedPointsAreTheLanguage(text: string)
    ensures Redact(text) == text <==>
              exists lines :: text == Unlines(lines) && forall i | 0 <= i < |lines| :: InLanguage(lines[i])
  {
    hide InLanguage, RedactLines, Lines, Unlines;
    if Redact(text) == text {
      RedactLinesInLanguage(Lines(text));
      assert text == Unlines(RedactLines(Lines(text)));
    }
    forall lines | text == Unlines(lines) && forall i | 0 <= i < |lines| :: InLanguage(lines[i])
      ensures Redact(text) == text
    {
      LinesOfLanguage(lines);
      LanguageLinesAreKept(lines);
    }
  }

  // The loops of the source.

  /** The field loop of `sanitized_structured_task_diagnostic`. */
  method ParseTask(line: string) returns (r: Option<Task>)
    ensures r == Parse(line)
    ensures r.Some? ==> ValidTask(r.value)
  {
    ParseIsValid(line);
    hide ValidValue, KeyOf, SplitWhitespace, ValidTask;
    var rest := StripPrefix(line, TASK_PREFIX);
    if rest.None? { return None; }
    var body := StripSuffix(rest.value, "]");
    if body.None? { return None; }
    var fields := SplitWhitespace(body.value);
    var found: Task := map[];
    var next := 0;
    while next < |fields|
      invariant 0 <= next <= |fields|
      invariant Collect(fields, map[]) == Collect(fields[next..], found)
    {
      assert fields[next..][1..] == fields[next + 1..];
      var field := SplitField(fields[next]);
      if field.None? { return None; }
      var (name, value) := field.value;
      var key := KeyOf(name);
      if key.None? || key.value in found || !ValidValue(key.value, value) { return None; }
      found := found[key.value := value];
      next := next + 1;
    }
    r := if Complete(found) then Some(found) else None;
  }

  method PushLine(text: string, line: string, ghost kept: seq<string>) returns (longer: string)
    requires text + "\n" == Unlines(kept)
    ensures longer == text + "\n" + line
    ensures longer + "\n" == Unlines(kept + [line])
  {
    UnlinesAppend(kept, [line]);
    assert Unlines([line]) == line + "\n";
    longer := text + "\n" + line;
  }

  /** The pieces of `sanitized_child_diagnostic` that push further lines onto a diagnostic. */
  method FreeFormText(line: string) returns (diagnostic: Option<string>)
    ensures diagnostic.None? <==> FreeForm(line) == []
    ensures diagnostic.Some? ==> diagnostic.value + "\n" == Unlines(FreeForm(line))
  {
    hide NumberAfter, StartsWith, ClassifiedTask, AdapterError, ProcessExit, Print;
    var reported, exited := NumberAfter(line, REPORTED), NumberAfter(line, EXITED);
    if StartsWith(line, "agent initialize failed:") {
      var text := INITIALIZATION;
      ghost var kept := [INITIALIZATION];
      if reported.Some? {
        text := PushLine(text, AdapterError(reported.value), kept);
        kept := kept + [AdapterError(reported.value)];
      }
      if exited.Some? {
        text := PushLine(text, ProcessExit(exited.value), kept);
        kept := kept + [ProcessExit(exited.value)];
      }
      assert kept == FreeForm(line);
      return Some(text);
    }
    var task := ClassifiedTask(line);
    if task.Some? {
      return Some(Print(task.value));
    }
    if reported.Some? {
      var text := AdapterError(reported.value);
      if exited.Some? {
        text := PushLine(text, ProcessExit(exited.value), [text]);
      }
      return Some(text);
    }
    if exited.Some? {
      return Some(ProcessExit(exited.value));
    }
    if StartsWith(line, SQLITE_FAILED) {
      return Some(SQLITE_STATE);
    }
    return None;
  }

  method DiagnosticText(raw: string) returns (diagnostic: Option<string>)
    ensures diagnostic.None? <==> Diagnosis(raw) == []
    ensures diagnostic.Some? ==> diagnostic.value + "\n" == Unlines(Diagnosis(raw))
  {
    hide Trim, Parse, IsCodeLine, FreeForm, Print, ValidTask;
    var line := Trim(raw);
    if line == INITIALIZATION || line == SQLITE_STATE {
      return Some(line);
    }
    var task := ParseTask(line);
    if task.Some? {
      return Some(Print(task.value));
    }
    if IsCodeLine(line, ADAPTER_PREFIX) || IsCodeLine(line, EXIT_PREFIX) {
      return Some(line);
    }
    diagnostic := FreeFormText(line);
  }

  /** `redact_log`: one pass over the lines. */
  method RedactLog(input: string) returns (redacted: string)
    ensures redacted == Redact(input)
  {
    hide Diagnosis, Lines;
    redacted := "";
    var lines := Lines(input);
    for next := 0 to |lines|
      invariant redacted == Unlines(RedactLines(lines[..next]))
    {
      var diagnostic := DiagnosticText(lines[next]);
      RedactLinesLast(lines[..next], lines[next]);
      assert lines[..next + 1] == lines[..next] + [lines[next]];
      UnlinesAppend(RedactLines(lines[..next]), RedactLine(lines[next]));
      redacted := redacted + (if diagnostic.Some? then diagnostic.value else PLACEHOLDER);
      redacted := redacted + "\n";
    }
    assert lines[..|lines|] == lines;
  }

  lemma {:induction false} RedactLinesLast(lines: seq<string>, line: string)
    ensures RedactLines(lines + [line]) == RedactLines(lines) + RedactLine(line)
  {
    hide RedactLine;
    if lines == [] {
      assert lines + [line] == [line];
    } else {
      assert (lines + [line])[1..] == lines[1..] + [line];
      RedactLinesLast(lines[1..], line);
    }
  }
}
