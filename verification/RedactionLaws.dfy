/** What redaction makes of a line of child output, from the text of the line to the text of the
    diagnostic. The laws speak of where markers occur in the line, and not of the functions that
    look for them. */
module RedactionLaws {
  import opened Basics
  import opened Text
  import opened Redaction

  // Where a marker occurs.

  ghost predicate At(s: string, m: string, i: nat) { i + |m| <= |s| && s[i..i + |m|] == m }

  ghost predicate FirstAt(s: string, m: string, i: nat) { At(s, m, i) && forall j: nat | j < i :: !At(s, m, j) }

  lemma AtTail(s: string, m: string, i: nat)
    requires s != ""
    ensures At(s[1..], m, i) <==> At(s, m, i + 1)
  {
    if i + 1 + |m| <= |s| {
      assert s[1..][i..i + |m|] == s[i + 1..i + 1 + |m|];
    }
  }

  lemma {:induction false} AfterFirst(s: string, m: string, i: nat)
    requires FirstAt(s, m, i)
    ensures After(s, m) == Some(s[i + |m|..])
    decreases i
  {
    if i == 0 {
      assert s[..|m|] == s[0..|m|];
    } else {
      assert !At(s, m, 0);
      assert s[0..|m|] == s[..|m|];
      AtTail(s, m, i - 1);
      forall j: nat | j < i - 1 ensures !At(s[1..], m, j) {
        AtTail(s, m, j);
        assert !At(s, m, j + 1);
      }
      AfterFirst(s[1..], m, i - 1);
      assert s[1..][i - 1 + |m|..] == s[i + |m|..];
    }
  }

  lemma {:induction false} AfterNowhere(s: string, m: string)
    requires forall i: nat :: !At(s, m, i)
    ensures After(s, m) == None
  {
    assert !At(s, m, 0);
    if |m| <= |s| {
      assert s[0..|m|] == s[..|m|];
      if s != "" {
        forall i: nat ensures !At(s[1..], m, i) {
          AtTail(s, m, i);
          assert !At(s, m, i + 1);
        }
        AfterNowhere(s[1..], m);
      }
    }
  }

  lemma {:induction false} FirstExists(s: string, m: string, i: nat) returns (k: nat)
    requires At(s, m, i)
    ensures k <= i && FirstAt(s, m, k)
  {
    if j: nat :| j < i && At(s, m, j) {
      k := FirstExists(s, m, j);
    } else {
      k := i;
    }
  }

  lemma FirstIsUnique(s: string, m: string, i: nat, k: nat)
    requires FirstAt(s, m, i) && FirstAt(s, m, k)
    ensures i == k
  {
    assert !(i < k) && !(k < i);
  }

  lemma ContainsExactly(s: string, m: string)
    ensures Contains(s, m) <==> exists i: nat :: At(s, m, i)
  {
    hide After;
    if i: nat :| At(s, m, i) {
      var k := FirstExists(s, m, i);
      AfterFirst(s, m, k);
    } else {
      AfterNowhere(s, m);
    }
  }

  // Markers in any case.

  /** The same letter, whether upper or lower case in the line. */
  predicate SameLetter(c: char, lower: char) {
    if 'A' <= c <= 'Z' then lower as int == c as int + 32 else lower == c
  }

  ghost predicate MentionedAt(s: string, m: string, i: nat) {
    i + |m| <= |s| && forall j | 0 <= j < |m| :: SameLetter(s[i + j], m[j])
  }

  ghost predicate Mentions(s: string, ms: seq<string>) {
    exists k: nat, i: nat :: k < |ms| && MentionedAt(s, ms[k], i)
  }

  lemma LowerAt(s: string, m: string, i: nat)
    ensures At(ToAsciiLower(s), m, i) <==> MentionedAt(s, m, i)
  {
    var t := ToAsciiLower(s);
    if i + |m| <= |s| {
      forall j | 0 <= j < |m| ensures t[i..i + |m|][j] == m[j] <==> SameLetter(s[i + j], m[j]) {
      }
      assert t[i..i + |m|] == m <==> forall j | 0 <= j < |m| :: t[i..i + |m|][j] == m[j];
    }
  }

  lemma MentionsExactly(s: string, ms: seq<string>)
    ensures ContainsAny(ToAsciiLower(s), ms) <==> Mentions(s, ms)
  {
    hide Contains, ToAsciiLower, At, MentionedAt;
    var t := ToAsciiLower(s);
    if ContainsAny(t, ms) {
      var k :| 0 <= k < |ms| && Contains(t, ms[k]);
      ContainsExactly(t, ms[k]);
      var i: nat :| At(t, ms[k], i);
      LowerAt(s, ms[k], i);
    }
    if Mentions(s, ms) {
      var k: nat, i: nat :| k < |ms| && MentionedAt(s, ms[k], i);
      LowerAt(s, ms[k], i);
      ContainsExactly(t, ms[k]);
    }
  }

  // Numerals and times after a marker.

  /** From position i on, the text v is the longest run of characters that pass the test. */
  ghost predicate LongestRun(s: string, i: nat, v: string, test: char -> bool) {
    && At(s, v, i) && (forall j | 0 <= j < |v| :: test(v[j]))
    && (i + |v| == |s| || !test(s[i + |v|]))
  }

  lemma {:induction false} TakeWhileExactly(s: string, v: string, test: char -> bool)
    ensures LongestRun(s, 0, v, test) <==> TakeWhile(s, test) == v
  {
    if s == "" || !test(s[0]) {
      assert TakeWhile(s, test) == "";
      if v != "" && At(s, v, 0) {
        assert s[0..|v|][0] == v[0];
      }
    } else if v == "" {
      assert TakeWhile(s, test)[0] == s[0];
    } else {
      TakeWhileExactly(s[1..], v[1..], test);
      if LongestRun(s, 0, v, test) {
        assert s[0..|v|][0] == s[0] && s[1..][0..|v| - 1] == s[0..|v|][1..];
        assert v == [v[0]] + v[1..];
      }
      if TakeWhile(s, test) == v {
        assert v[1..] == TakeWhile(s[1..], test) && v[0] == s[0];
        assert s[0..|v|] == [s[0]] + s[1..][0..|v| - 1];
      }
    }
  }

  /** The marker's first occurrence is followed by the numeral v. */
  ghost predicate Numeral(s: string, m: string, v: string) {
    ValidErrorCode(v) && exists i: nat :: FirstAt(s, m, i) && LongestRun(s, i + |m|, v, IsNumeralCharacter)
  }

  lemma RunInTail(s: string, i: nat, v: string, test: char -> bool)
    requires i <= |s|
    ensures LongestRun(s, i, v, test) <==> LongestRun(s[i..], 0, v, test)
  {
    if i + |v| <= |s| {
      assert s[i..][0..|v|] == s[i..i + |v|];
    }
  }

  lemma NumberExactly(s: string, m: string, v: string)
    ensures NumberAfter(s, m) == Some(v) <==> Numeral(s, m, v)
  {
    hide After, TakeWhile, LongestRun, ValidErrorCode;
    if exists i: nat :: At(s, m, i) {
      var i: nat :| At(s, m, i);
      var k := FirstExists(s, m, i);
      AfterFirst(s, m, k);
      RunInTail(s, k + |m|, v, IsNumeralCharacter);
      TakeWhileExactly(s[k + |m|..], v, IsNumeralCharacter);
      forall i: nat | FirstAt(s, m, i) ensures i == k { FirstIsUnique(s, m, i, k); }
    } else {
      AfterNowhere(s, m);
    }
  }

  ghost predicate NumeralIs(s: string, m: string, v: Option<string>) {
    if v.Some? then Numeral(s, m, v.value) else forall u :: !Numeral(s, m, u)
  }

  lemma NumberIs(s: string, m: string, v: Option<string>)
    requires NumeralIs(s, m, v)
    ensures NumberAfter(s, m) == v
  {
    hide NumberAfter, Numeral;
    var found := NumberAfter(s, m);
    if v.Some? {
      NumberExactly(s, m, v.value);
    } else if found.Some? {
      NumberExactly(s, m, found.value);
    }
  }

  /** The marker's first occurrence is followed by the time v. */
  ghost predicate TimeAfter(s: string, m: string, v: string) {
    ValidRetryAt(v) && exists i: nat :: FirstAt(s, m, i) && At(s, v, i + |m|)
  }

  /** The marker's first occurrence is followed by the number of seconds v. */
  ghost predicate SecondsAfter(s: string, m: string, v: string) {
    ValidRetryAfterSeconds(v) && exists i: nat :: FirstAt(s, m, i) && LongestRun(s, i + |m|, v, IsDigit)
  }

  ghost predicate NoTimeAfter(s: string, m: string) { forall v :: !TimeAfter(s, m, v) }

  ghost predicate NoSecondsAfter(s: string, m: string) { forall v :: !SecondsAfter(s, m, v) }

  lemma TimeExactly(s: string, m: string, ms: seq<string>, v: string)
    ensures TimeAfter(s, m, v) ==> RetryAtAfter(s, [m] + ms) == Some(v)
    ensures NoTimeAfter(s, m) ==> RetryAtAfter(s, [m] + ms) == RetryAtAfter(s, ms)
  {
    hide After, ValidRetryAt;
    assert ([m] + ms)[1..] == ms;
    if i: nat :| At(s, m, i) {
      var k := FirstExists(s, m, i);
      AfterFirst(s, m, k);
      var rest := s[k + |m|..];
      forall i: nat | FirstAt(s, m, i) ensures i == k { FirstIsUnique(s, m, i, k); }
      if |rest| >= 20 {
        assert rest[..20] == s[k + |m|..k + |m| + 20];
        assert At(s, rest[..20], k + |m|);
        assert ValidRetryAt(rest[..20]) ==> TimeAfter(s, m, rest[..20]);
      }
      TimeLength(v);
    } else {
      AfterNowhere(s, m);
    }
  }

  lemma TimeLength(v: string)
    ensures ValidRetryAt(v) ==> |v| == 20
  {
  }

  lemma SecondsExactly(s: string, m: string, ms: seq<string>, v: string)
    ensures SecondsAfter(s, m, v) ==> RetryAfterAfter(s, [m] + ms) == Some(v)
    ensures NoSecondsAfter(s, m) ==> RetryAfterAfter(s, [m] + ms) == RetryAfterAfter(s, ms)
  {
    hide After, ValidRetryAfterSeconds, LongestRun;
    assert ([m] + ms)[1..] == ms;
    if i: nat :| At(s, m, i) {
      var k := FirstExists(s, m, i);
      AfterFirst(s, m, k);
      var rest := s[k + |m|..];
      var value := TakeWhile(rest, IsDigit);
      forall i: nat | FirstAt(s, m, i) ensures i == k { FirstIsUnique(s, m, i, k); }
      RunInTail(s, k + |m|, v, IsDigit);
      TakeWhileExactly(rest, v, IsDigit);
      RunInTail(s, k + |m|, value, IsDigit);
      TakeWhileExactly(rest, value, IsDigit);
      assert ValidRetryAfterSeconds(value) ==> SecondsAfter(s, m, value);
    } else {
      AfterNowhere(s, m);
    }
  }

  /** The time to retry at, by the first of three markers that is followed by one. */
  ghost predicate RetryTime(s: string, v: string) {
    || TimeAfter(s, "retry_at=", v)
    || (NoTimeAfter(s, "retry_at=") && TimeAfter(s, "retry at ", v))
    || (NoTimeAfter(s, "retry_at=") && NoTimeAfter(s, "retry at ") && TimeAfter(s, "retry after ", v))
  }

  ghost predicate RetrySeconds(s: string, v: string) {
    || SecondsAfter(s, "retry_after_seconds=", v)
    || (NoSecondsAfter(s, "retry_after_seconds=") && SecondsAfter(s, "retry-after-seconds=", v))
  }

  lemma RetryTimeIs(s: string, v: Option<string>)
    requires if v.Some? then RetryTime(s, v.value) else forall u :: !RetryTime(s, u)
    ensures RetryAtAfter(s, ["retry_at=", "retry at ", "retry after "]) == v
  {
    hide TimeAfter;
    var a, b, c := "retry_at=", "retry at ", "retry after ";
    assert [a] + [b, c] == [a, b, c] && [b] + [c] == [b, c] && [c] + [] == [c];
    var u := if v.Some? then v.value else "";
    TimeExactly(s, a, [b, c], u);
    TimeExactly(s, b, [c], u);
    TimeExactly(s, c, [], u);
    if v.None? {
      forall u ensures !TimeAfter(s, a, u) { assert !RetryTime(s, u); }
      forall u ensures !TimeAfter(s, b, u) { assert !RetryTime(s, u); }
      forall u ensures !TimeAfter(s, c, u) { assert !RetryTime(s, u); }
    }
  }

  lemma RetrySecondsIs(s: string, v: Option<string>)
    requires if v.Some? then RetrySeconds(s, v.value) else forall u :: !RetrySeconds(s, u)
    ensures RetryAfterAfter(s, ["retry_after_seconds=", "retry-after-seconds="]) == v
  {
    hide SecondsAfter;
    var a, b := "retry_after_seconds=", "retry-after-seconds=";
    assert [a] + [b] == [a, b] && [b] + [] == [b];
    var u := if v.Some? then v.value else "";
    SecondsExactly(s, a, [b], u);
    SecondsExactly(s, b, [], u);
    if v.None? {
      forall u ensures !SecondsAfter(s, a, u) { assert !RetrySeconds(s, u); }
      forall u ensures !SecondsAfter(s, b, u) { assert !RetrySeconds(s, u); }
    }
  }

  // The text of a task diagnostic.

  datatype TaskClass = Unauthorized | UsageLimit | NoSession

  /** What a line tells besides its class. */
  datatype Details = Details(code: Option<string>, exitCode: Option<string>, retryAt: Option<string>,
                             retryAfterSeconds: Option<string>)

  function Optional(name: string, v: Option<string>): string { if v.Some? then name + v.value else "" }

  function TaskText(class_: TaskClass, d: Details): string {
    match class_
    case Unauthorized => WithDetails("unauthorized", "reauthenticate", "task", "provider_unauthorized", d)
    case UsageLimit => WithDetails("usage_limit", "retry", "task", "provider_usage_limit", d)
    case NoSession => WithDetails("no_session", "retry", "pre_session", "provider_no_session", d)
  }

  function WithDetails(class_: string, action: string, phase: string, rule: string, d: Details): string {
    "[CHILD TASK ERROR " + ("class=" + class_ +
      (Optional(" code=", d.code) + (Optional(" exit_code=", d.exitCode) +
      (" action=" + action + (" phase=" + phase + (" rule=" + rule +
      (Optional(" retry_at=", d.retryAt) + Optional(" retry_after_seconds=", d.retryAfterSeconds)))))))) + "]"
  }

  function Spaced(words: seq<string>): string { if words == [] then "" else " " + words[0] + Spaced(words[1..]) }

  lemma {:induction false} JoinIsSpaced(words: seq<string>)
    requires words != []
    ensures Join(words) == words[0] + Spaced(words[1..])
  {
    if |words| > 1 {
      JoinIsSpaced(words[1..]);
      assert words[1..][0] == words[1];
    }
  }

  lemma {:induction false} SpacedAppend(a: seq<string>, b: seq<string>)
    ensures Spaced(a + b) == Spaced(a) + Spaced(b)
  {
    if a == [] {
      assert a + b == b;
    } else {
      assert (a + b)[1..] == a[1..] + b;
      SpacedAppend(a[1..], b);
    }
  }

  function FieldOf(task: Task, key: Key): seq<string> { if key in task then [Field(key, task[key])] else [] }

  function Lookup(task: Task, key: Key): Option<string> { if key in task then Some(task[key]) else None }

  lemma SpacedField(task: Task, key: Key, rest: seq<string>)
    ensures Spaced(FieldOf(task, key) + rest) == Optional(" " + KeyName(key) + "=", Lookup(task, key)) + Spaced(rest)
  {
    hide KeyName;
    SpacedAppend(FieldOf(task, key), rest);
    if key in task {
      var f := Field(key, task[key]);
      assert Spaced([f]) == " " + f + Spaced([]);
      assert " " + f == " " + KeyName(key) + "=" + task[key];
    }
  }

  lemma FieldsStep(task: Task, key: Key, rest: seq<Key>)
    ensures Fields(task, [key] + rest) == FieldOf(task, key) + Fields(task, rest)
  {
    hide Field;
    assert ([key] + rest)[1..] == rest;
  }

  /** The fields from the phase on, and all fields but the class, in order. */
  lemma LastFields(task: Task)
    ensures Spaced(Fields(task, [Phase, Rule, RetryAt, RetryAfterSeconds])) ==
      Optional(" " + KeyName(Phase) + "=", Lookup(task, Phase)) +
      (Optional(" " + KeyName(Rule) + "=", Lookup(task, Rule)) +
      (Optional(" " + KeyName(RetryAt) + "=", Lookup(task, RetryAt)) +
       Optional(" " + KeyName(RetryAfterSeconds) + "=", Lookup(task, RetryAfterSeconds))))
  {
    hide KeyName, FieldOf, Optional, Lookup;
    var k7: seq<Key> := [RetryAfterSeconds];
    var k6 := [RetryAt] + k7;
    var k5 := [Rule] + k6;
    assert [Phase, Rule, RetryAt, RetryAfterSeconds] == [Phase] + k5;
    FieldsStep(task, Phase, k5);
    FieldsStep(task, Rule, k6);
    FieldsStep(task, RetryAt, k7);
    FieldsStep(task, RetryAfterSeconds, []);
    assert [RetryAfterSeconds] + [] == k7;
    SpacedField(task, Phase, Fields(task, k5));
    SpacedField(task, Rule, Fields(task, k6));
    SpacedField(task, RetryAt, Fields(task, k7));
    SpacedField(task, RetryAfterSeconds, []);
    assert Spaced([]) == "";
  }

  lemma SpacedFields(task: Task)
    ensures Spaced(Fields(task, ORDER[1..])) ==
      Optional(" " + KeyName(Code) + "=", Lookup(task, Code)) +
      (Optional(" " + KeyName(ExitCode) + "=", Lookup(task, ExitCode)) +
      (Optional(" " + KeyName(Action) + "=", Lookup(task, Action)) +
       Spaced(Fields(task, [Phase, Rule, RetryAt, RetryAfterSeconds]))))
  {
    hide KeyName, FieldOf, Optional, Lookup;
    var k4: seq<Key> := [Phase, Rule, RetryAt, RetryAfterSeconds];
    var k3 := [Action] + k4;
    var k2 := [ExitCode] + k3;
    assert ORDER[1..] == [Code] + k2;
    FieldsStep(task, Code, k2);
    FieldsStep(task, ExitCode, k3);
    FieldsStep(task, Action, k4);
    SpacedField(task, Code, Fields(task, k2));
    SpacedField(task, ExitCode, Fields(task, k3));
    SpacedField(task, Action, Fields(task, k4));
  }

  lemma FieldLabels()
    ensures KeyName(Class) + "=" == "class=" && " " + KeyName(Code) + "=" == " code="
    ensures " " + KeyName(ExitCode) + "=" == " exit_code=" && " " + KeyName(Action) + "=" == " action="
    ensures " " + KeyName(Phase) + "=" == " phase=" && " " + KeyName(Rule) + "=" == " rule="
    ensures " " + KeyName(RetryAt) + "=" == " retry_at="
    ensures " " + KeyName(RetryAfterSeconds) + "=" == " retry_after_seconds="
  {
  }

  lemma PrintText(task: Task, d: Details)
    requires Complete(task)
    requires d == Details(Lookup(task, Code), Lookup(task, ExitCode), Lookup(task, RetryAt),
                          Lookup(task, RetryAfterSeconds))
    ensures Print(task) == WithDetails(task[Class], task[Action], task[Phase], task[Rule], d)
  {
    SpacedFields(task);
    LastFields(task);
    FieldLabels();
    hide KeyName, Optional, Join, Spaced;
    var fields := Fields(task, ORDER);
    assert ORDER == [Class] + ORDER[1..];
    FieldsStep(task, Class, ORDER[1..]);
    JoinIsSpaced(fields);
    assert fields[0] == Field(Class, task[Class]) && fields[1..] == Fields(task, ORDER[1..]);
    assert Field(Class, task[Class]) == "class=" + task[Class];
    Present(task, Action, " action=");
    Present(task, Phase, " phase=");
    Present(task, Rule, " rule=");
  }

  lemma Present(task: Task, key: Key, name: string)
    requires key in task
    ensures Optional(name, Lookup(task, key)) == name + task[key]
  {
  }

  // What the classes of a line are.

  const UNAUTHORIZED: seq<string> := ["unauthorized", "authentication failed", "refresh token", "reauthenticate"]
  const USAGE_LIMIT: seq<string> := ["usage limit", "usage-limit", "rate limit", "quota", "too many requests"]
  const NO_SESSION: seq<string> :=
    ["no codex session", "session has not been initialized", "failed to create session",
     "session creation failed", "no active session", "pre-session", "presession",
     "before turn", "pre-turn", "preturn"]

  ghost predicate IsAdapterText(text: string) {
    || StartsWith(text, "agent task failed:")
    || StartsWith(text, "agent turn failed:")
    || StartsWith(text, "agent request failed:")
    || exists i: nat :: At(text, "Agent reported error (code ", i)
  }

  /** The class of a line from the adapter; an earlier class goes before a later one. */
  ghost predicate ClassIs(text: string, class_: TaskClass) {
    IsAdapterText(text) &&
    match class_
    case Unauthorized => Mentions(text, UNAUTHORIZED)
    case UsageLimit => !Mentions(text, UNAUTHORIZED) && Mentions(text, USAGE_LIMIT)
    case NoSession => !Mentions(text, UNAUTHORIZED) && !Mentions(text, USAGE_LIMIT) && Mentions(text, NO_SESSION)
  }

  ghost predicate HasNoClass(text: string) { forall class_ :: !ClassIs(text, class_) }

  ghost predicate DetailsAre(text: string, d: Details) {
    && NumeralIs(text, "Agent reported error (code ", d.code)
    && NumeralIs(text, "process has exited with code ", d.exitCode)
    && (if d.retryAt.Some? then RetryTime(text, d.retryAt.value) else forall v :: !RetryTime(text, v))
    && (if d.retryAfterSeconds.Some? then RetrySeconds(text, d.retryAfterSeconds.value)
        else forall v :: !RetrySeconds(text, v))
  }

  function TaskLabels(class_: TaskClass): Task {
    match class_
    case Unauthorized => Labels("unauthorized", "reauthenticate", "task", "provider_unauthorized")
    case UsageLimit => Labels("usage_limit", "retry", "task", "provider_usage_limit")
    case NoSession => Labels("no_session", "retry", "pre_session", "provider_no_session")
  }

  lemma AdapterExactly(text: string)
    ensures AdapterLine(text) <==> IsAdapterText(text)
  {
    ContainsExactly(text, REPORTED);
    hide At, Contains, StartsWith;
  }

  lemma ClassExactly(text: string, class_: TaskClass)
    ensures ClassIs(text, class_) ==> Classify(text) == Some(TaskLabels(class_))
    ensures IsAdapterText(text) && HasNoClass(text) ==> Classify(text) == None
  {
    MentionsExactly(text, UNAUTHORIZED);
    MentionsExactly(text, USAGE_LIMIT);
    MentionsExactly(text, NO_SESSION);
    hide ContainsAny, ToAsciiLower, Mentions, IsAdapterText, Labels;
    if HasNoClass(text) {
      assert !ClassIs(text, Unauthorized) && !ClassIs(text, UsageLimit) && !ClassIs(text, NoSession);
    }
  }

  function Detailed(labels: Task, d: Details): Task {
    var t2 := WithOptional(WithOptional(labels, Code, d.code), ExitCode, d.exitCode);
    WithOptional(WithOptional(t2, RetryAt, d.retryAt), RetryAfterSeconds, d.retryAfterSeconds)
  }

  lemma DetailedText(class_: TaskClass, d: Details)
    ensures Print(Detailed(TaskLabels(class_), d)) == TaskText(class_, d)
  {
    hide Print, WithDetails;
    PrintText(Detailed(TaskLabels(class_), d), d);
  }

  lemma TaskExactly(text: string, class_: TaskClass, d: Details)
    requires ClassIs(text, class_) && DetailsAre(text, d)
    ensures ClassifiedTask(text) == Some(Detailed(TaskLabels(class_), d))
  {
    AdapterExactly(text);
    ClassExactly(text, class_);
    DetailsExactly(text, d);
    hide *;
    IsClassified(text, TaskLabels(class_), d);
  }

  lemma DetailsExactly(text: string, d: Details)
    requires DetailsAre(text, d)
    ensures NumberAfter(text, REPORTED) == d.code && NumberAfter(text, EXITED) == d.exitCode
    ensures RetryAtAfter(text, ["retry_at=", "retry at ", "retry after "]) == d.retryAt
    ensures RetryAfterAfter(text, ["retry_after_seconds=", "retry-after-seconds="]) == d.retryAfterSeconds
  {
    hide NumberAfter, RetryAtAfter, RetryAfterAfter, NumeralIs, RetryTime, RetrySeconds;
    NumberIs(text, REPORTED, d.code);
    NumberIs(text, EXITED, d.exitCode);
    RetryTimeIs(text, d.retryAt);
    RetrySecondsIs(text, d.retryAfterSeconds);
  }

  lemma IsClassified(text: string, labels: Task, d: Details)
    requires AdapterLine(text) && Classify(text) == Some(labels)
    requires NumberAfter(text, REPORTED) == d.code && NumberAfter(text, EXITED) == d.exitCode
    requires RetryAtAfter(text, ["retry_at=", "retry at ", "retry after "]) == d.retryAt
    requires RetryAfterAfter(text, ["retry_after_seconds=", "retry-after-seconds="]) == d.retryAfterSeconds
    ensures ClassifiedTask(text) == Some(Detailed(labels, d))
  {
    hide AdapterLine, Classify, NumberAfter, RetryAtAfter, RetryAfterAfter, WithOptional;
  }

  lemma Unclassified(text: string)
    requires HasNoClass(text)
    ensures ClassifiedTask(text) == None
  {
    AdapterExactly(text);
    ClassExactly(text, Unauthorized);
    hide AdapterLine, Classify, HasNoClass;
  }

  // The laws.

  /** Not a line that redaction itself wrote. */
  predicate Unstructured(text: string) {
    && text != INITIALIZATION && text != SQLITE_STATE && Parse(text).None?
    && !IsCodeLine(text, ADAPTER_PREFIX) && !IsCodeLine(text, EXIT_PREFIX)
  }

  lemma LineByLine(line: string, rest: string)
    requires IsLine(line)
    ensures Redact(line + "\n" + rest) == Unlines(RedactLine(line)) + Redact(rest)
  {
    hide RedactLine;
    var s := line + "\n" + rest;
    LineLengthOfLine(line, rest);
    assert s[..|line|] == line && s[|line| + 1..] == rest;
    assert Lines(s) == [line] + Lines(rest);
    assert RedactLines(Lines(s)) == RedactLine(line) + RedactLines(Lines(rest));
    UnlinesAppend(RedactLine(line), RedactLines(Lines(rest)));
  }

  lemma DiagnosticLines(line: string, rest: string, kept: seq<string>)
    requires IsLine(line) && Unstructured(Trim(line)) && FreeForm(Trim(line)) == kept
    ensures Redact(line + "\n" + rest) == Unlines(if kept == [] then [PLACEHOLDER] else kept) + Redact(rest)
  {
    hide Redact, FreeForm, Trim, Parse, IsCodeLine, IsLine, Unlines;
    LineByLine(line, rest);
  }

  lemma OneLine(out: string)
    ensures Unlines([out]) == out + "\n"
  {
    assert Unlines([out]) == out + "\n" + Unlines([]);
  }

  /** A failed task, turn or request, or a reported error, that mentions a class: its own action, phase
      and rule, the numeral after the report marker as code and after the exit marker as exit code. */
  lemma TaskLaw(line: string, rest: string, class_: TaskClass, d: Details)
    requires IsLine(line) && Unstructured(Trim(line)) && !StartsWith(Trim(line), "agent initialize failed:")
    requires ClassIs(Trim(line), class_) && DetailsAre(Trim(line), d)
    ensures Redact(line + "\n" + rest) == TaskText(class_, d) + "\n" + Redact(rest)
  {
    hide Redact, Trim, Unstructured, ClassIs, DetailsAre, TaskText, Print, ClassifiedTask, StartsWith;
    TaskExactly(Trim(line), class_, d);
    DetailedText(class_, d);
    DiagnosticLines(line, rest, [TaskText(class_, d)]);
    OneLine(TaskText(class_, d));
  }

  function AdapterErrorLine(code: Option<string>): string {
    if code.Some? then "[CHILD ADAPTER ERROR code=" + code.value + "]\n" else ""
  }

  function ProcessExitLine(code: Option<string>): string {
    if code.Some? then "[CHILD PROCESS EXIT code=" + code.value + "]\n" else ""
  }

  lemma CodeLines(reported: Option<string>, exited: Option<string>)
    ensures Unlines(OptionalLine(reported, AdapterError)) == AdapterErrorLine(reported)
    ensures Unlines(OptionalLine(exited, ProcessExit)) == ProcessExitLine(exited)
  {
    hide Unlines;
    if reported.Some? { OneLine(AdapterError(reported.value)); }
    if exited.Some? { OneLine(ProcessExit(exited.value)); }
    NoLines();
  }

  lemma NoLines()
    ensures Unlines([]) == ""
  {
  }

  /** A failed initialization: its label first, then the numerals it reports. */
  lemma InitializationLaw(line: string, rest: string, code: Option<string>, exitCode: Option<string>)
    requires IsLine(line) && Unstructured(Trim(line)) && StartsWith(Trim(line), "agent initialize failed:")
    requires NumeralIs(Trim(line), "Agent reported error (code ", code)
    requires NumeralIs(Trim(line), "process has exited with code ", exitCode)
    ensures Redact(line + "\n" + rest) ==
      "[CHILD INITIALIZATION ERROR]" + "\n" + AdapterErrorLine(code) + ProcessExitLine(exitCode) + Redact(rest)
  {
    NumberIs(Trim(line), REPORTED, code);
    NumberIs(Trim(line), EXITED, exitCode);
    hide Redact, Trim, Unstructured, StartsWith, NumberAfter, NumeralIs, Unlines, OptionalLine, IsLine;
    var a, b := OptionalLine(code, AdapterError), OptionalLine(exitCode, ProcessExit);
    DiagnosticLines(line, rest, [INITIALIZATION] + a + b);
    UnlinesAppend([INITIALIZATION] + a, b);
    UnlinesAppend([INITIALIZATION], a);
    OneLine(INITIALIZATION);
    CodeLines(code, exitCode);
  }

  /** A line of no class that reports numerals: one line for each. */
  lemma NumeralLaw(line: string, rest: string, code: Option<string>, exitCode: Option<string>)
    requires IsLine(line) && Unstructured(Trim(line)) && !StartsWith(Trim(line), "agent initialize failed:")
    requires HasNoClass(Trim(line)) && (code.Some? || exitCode.Some?)
    requires NumeralIs(Trim(line), "Agent reported error (code ", code)
    requires NumeralIs(Trim(line), "process has exited with code ", exitCode)
    ensures Redact(line + "\n" + rest) == AdapterErrorLine(code) + ProcessExitLine(exitCode) + Redact(rest)
  {
    NumberIs(Trim(line), REPORTED, code);
    NumberIs(Trim(line), EXITED, exitCode);
    Unclassified(Trim(line));
    hide Redact, Trim, Unstructured, StartsWith, NumberAfter, NumeralIs, Unlines, IsLine, ClassifiedTask, HasNoClass;
    var a, b := OptionalLine(code, AdapterError), OptionalLine(exitCode, ProcessExit);
    assert a + b == FreeForm(Trim(line));
    DiagnosticLines(line, rest, a + b);
    UnlinesAppend(a, b);
    CodeLines(code, exitCode);
  }

  /** Any other line: the state label if it starts with the state failure, and otherwise the placeholder. */
  lemma PlaceholderLaw(line: string, rest: string)
    requires IsLine(line) && Unstructured(Trim(line)) && !StartsWith(Trim(line), "agent initialize failed:")
    requires HasNoClass(Trim(line))
    requires NumeralIs(Trim(line), "Agent reported error (code ", None)
    requires NumeralIs(Trim(line), "process has exited with code ", None)
    ensures Redact(line + "\n" + rest) ==
      (if StartsWith(Trim(line), SQLITE_FAILED) then SQLITE_STATE else "[REDACTED CHILD OUTPUT]") + "\n" + Redact(rest)
  {
    NumberIs(Trim(line), REPORTED, None);
    NumberIs(Trim(line), EXITED, None);
    Unclassified(Trim(line));
    hide Redact, Trim, Unstructured, StartsWith, NumberAfter, NumeralIs, Unlines, IsLine, ClassifiedTask, HasNoClass;
    var kept := if StartsWith(Trim(line), SQLITE_FAILED) then [SQLITE_STATE] else [];
    DiagnosticLines(line, rest, kept);
    OneLine(SQLITE_STATE);
    OneLine(PLACEHOLDER);
  }

  /** The laws hold of every line that does not start as the diagnostics do. */
  lemma PlainIsUnstructured(text: string)
    requires !StartsWith(text, "[CHILD ")
    ensures Unstructured(text)
  {
    Prefixes();
    hide StripSuffix, Collect, SplitWhitespace, Complete, ValidErrorCode;
    NotStarted(text, TASK_PREFIX);
    NotStarted(text, ADAPTER_PREFIX);
    NotStarted(text, EXIT_PREFIX);
  }

  lemma Prefixes()
    ensures StartsWith(INITIALIZATION, "[CHILD ") && StartsWith(SQLITE_STATE, "[CHILD ")
    ensures StartsWith(TASK_PREFIX, "[CHILD ") && StartsWith(ADAPTER_PREFIX, "[CHILD ")
    ensures StartsWith(EXIT_PREFIX, "[CHILD ")
  {
  }

  lemma NotStarted(text: string, prefix: string)
    requires StartsWith(prefix, "[CHILD ")
    ensures StartsWith(text, prefix) ==> StartsWith(text, "[CHILD ")
  {
    if StartsWith(text, prefix) {
      assert text[..7] == text[..|prefix|][..7];
    }
  }

  lemma FailedTasksAreUnstructured(text: string)
    requires StartsWith(text, "agent task failed:")
    ensures Unstructured(text) && !StartsWith(text, "agent initialize failed:")
  {
    var marker := "agent task failed:";
    assert text[0] == text[..|marker|][0] && text[6] == text[..|marker|][6];
    NotPrefix(text, "[CHILD ", 0);
    NotPrefix(text, "agent initialize failed:", 6);
    hide StartsWith, Unstructured;
    PlainIsUnstructured(text);
  }

  /** So for one: a failed task that mentions "unauthorized" in any case, whatever else it says. */
  lemma UnauthorizedTask(line: string, rest: string, i: nat, d: Details)
    requires IsLine(line) && StartsWith(Trim(line), "agent task failed:") && DetailsAre(Trim(line), d)
    requires MentionedAt(Trim(line), "unauthorized", i)
    ensures Redact(line + "\n" + rest) ==
      WithDetails("unauthorized", "reauthenticate", "task", "provider_unauthorized", d) + "\n" + Redact(rest)
  {
    FailedTasksAreUnstructured(Trim(line));
    assert UNAUTHORIZED[0] == "unauthorized";
    hide Redact, Trim, Unstructured, StartsWith, DetailsAre, WithDetails, MentionedAt, IsLine;
    assert Mentions(Trim(line), UNAUTHORIZED);
    TaskLaw(line, rest, Unauthorized, d);
  }

  /** White space around a line is no part of it. */
  lemma {:induction false} TrimLaw(before: string, text: string, after: string)
    requires forall i | 0 <= i < |before| :: IsWhitespace(before[i])
    requires forall i | 0 <= i < |after| :: IsWhitespace(after[i])
    requires text != "" ==> !IsWhitespace(text[0]) && !IsWhitespace(text[|text| - 1])
    ensures Trim(before + text + after) == text
    decreases |before| + |after|
  {
    var s := before + text + after;
    if after != "" {
      var fewer := after[..|after| - 1];
      assert s[|s| - 1] == after[|after| - 1] && s[..|s| - 1] == before + text + fewer;
      TrimLaw(before, text, fewer);
    } else if text == "" {
      assert s == before;
      TrimBlank(before);
    } else {
      assert s == before + text && s[|s| - 1] == text[|text| - 1];
      TrimFront(before, text);
    }
  }

  lemma {:induction false} TrimFront(before: string, text: string)
    requires forall i | 0 <= i < |before| :: IsWhitespace(before[i])
    requires text == "" || !IsWhitespace(text[0])
    ensures TrimStart(before + text) == text
  {
    if before == "" {
      assert before + text == text;
    } else {
      assert (before + text)[1..] == before[1..] + text;
      TrimFront(before[1..], text);
    }
  }

  lemma {:induction false} TrimBlank(s: string)
    requires forall i | 0 <= i < |s| :: IsWhitespace(s[i])
    ensures Trim(s) == ""
  {
    if s != "" {
      TrimBlank(s[..|s| - 1]);
    }
  }
}
