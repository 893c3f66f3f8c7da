/** The per-field rule sets the dialogs validate with, and the error map
    their `catch` block builds from the failures with `forEach`.
    yup itself is not modelled: each rule is a predicate over one value,
    and yup's number coercion is passed in as a `NumberCast`. */
module Validation {
  import opened JsValues

  /** The two regular expressions the forms use. */
  datatype Pattern =
    | Digits          // /^\d+$/
    | LettersOrSpaces // /^[a-zA-Z\s]*$/

  datatype Rule =
    | Required(msg: string)               // `.required(msg)` on a string
    | MinLength(n: nat, msg: string)      // `.min(n, msg)` on a string
    | MaxLength(n: nat, msg: string)      // `.max(n, msg)` on a string
    | Matches(pattern: Pattern, msg: string)
    | NonNegativeNumber                   // `.number().typeError(..).min(0, ..)`

  datatype FieldRules = FieldRules(path: string, rules: seq<Rule>)

  /** A `yup.object().shape({...})`: its keys, in order, with their rules. */
  type Schema = seq<FieldRules>

  /** What yup's number cast makes of a value. */
  datatype Coerced = Absent | NotANumber | Numeric(x: real)

  type NumberCast = Value -> Coerced

  /** One entry of `validationErrors.inner`. */
  datatype Issue = Issue(path: string, message: string)

  const NotANumberMessage: string := "Deve ser um número"
  const NegativeMessage: string := "Deve ser maior ou igual a zero"
  const RequiredMessage: string := "Campo obrigatório"

  predicate IsDigit(c: char) {
    '0' <= c <= '9'
  }

  predicate IsLetter(c: char) {
    'a' <= c <= 'z' || 'A' <= c <= 'Z'
  }

  /** The characters JavaScript's `\s` matches. */
  predicate IsSpace(c: char) {
    c == ' ' || c == '\t' || c == '\n' || c == '\r' || c == '\U{0B}' || c == '\U{0C}' ||
    c == '\U{A0}' || c == '\U{1680}' || ('\U{2000}' <= c <= '\U{200A}') ||
    c == '\U{2028}' || c == '\U{2029}' || c == '\U{202F}' || c == '\U{205F}' ||
    c == '\U{3000}' || c == '\U{FEFF}'
  }

  predicate MatchesPattern(p: Pattern, s: string) {
    match p
    case Digits => |s| > 0 && forall i :: 0 <= i < |s| ==> IsDigit(s[i])
    case LettersOrSpaces => forall i :: 0 <= i < |s| ==> IsLetter(s[i]) || IsSpace(s[i])
  }

  /** The string a text rule sees; `undefined`, `null` and non-text values
      count as absent. */
  function TextOf(v: Value): Option<string> {
    if v.Text? then Some(v.s) else None
  }

  /** yup skips an `undefined` number; any other value goes through the cast. */
  function Coerce(cast: NumberCast, v: Value): Coerced {
    if v.Undefined? then Absent else cast(v)
  }

  /** The message a rule reports for `v`, or None when `v` passes it. */
  function Violation(cast: NumberCast, rule: Rule, v: Value): (r: Option<string>)
    ensures r.Some? && !rule.NonNegativeNumber? ==> r.value == rule.msg
    ensures r.Some? && rule.NonNegativeNumber? ==> r.value in {NotANumberMessage, NegativeMessage}
    ensures v.Undefined? ==> (r.Some? <==> rule.Required?)
  {
    match rule
    case Required(msg) =>
      if TextOf(v) == None || TextOf(v) == Some("") then Some(msg) else None
    case MinLength(n, msg) =>
      if TextOf(v).Some? && |TextOf(v).value| < n then Some(msg) else None
    case MaxLength(n, msg) =>
      if TextOf(v).Some? && |TextOf(v).value| > n then Some(msg) else None
    case Matches(p, msg) =>
      if TextOf(v).Some? && !MatchesPattern(p, TextOf(v).value) then Some(msg) else None
    case NonNegativeNumber =>
      match Coerce(cast, v)
      case Absent => None
      case NotANumber => Some(NotANumberMessage)
      case Numeric(x) => if x < 0.0 then Some(NegativeMessage) else None
  }

  /** The messages of the rules `v` fails, in rule order. */
  function RuleMessages(cast: NumberCast, rules: seq<Rule>, v: Value): seq<string> {
    if rules == [] then []
    else
      var rest := RuleMessages(cast, rules[1..], v);
      match Violation(cast, rules[0], v)
      case Some(msg) => [msg] + rest
      case None => rest
  }

  /** The issues one field contributes. */
  function FieldIssues(cast: NumberCast, field: FieldRules, r: Record): (issues: seq<Issue>)
    ensures |issues| == |RuleMessages(cast, field.rules, Get(r, field.path))|
    ensures forall k :: 0 <= k < |issues| ==>
      issues[k] == Issue(field.path, RuleMessages(cast, field.rules, Get(r, field.path))[k])
  {
    var msgs := RuleMessages(cast, field.rules, Get(r, field.path));
    seq(|msgs|, k requires 0 <= k < |msgs| => Issue(field.path, msgs[k]))
  }

  /** Every failure of `r` against `schema` (`abortEarly: false`). */
  function Issues(cast: NumberCast, schema: Schema, r: Record): (issues: seq<Issue>)
    ensures forall k :: 0 <= k < |issues| ==>
      exists j :: 0 <= j < |schema| && schema[j].path == issues[k].path
  {
    if schema == [] then []
    else
      var head := FieldIssues(cast, schema[0], r);
      var rest := Issues(cast, schema[1..], r);
      forall k | |head| <= k < |head| + |rest|
        ensures exists j :: 0 <= j < |schema| && schema[j].path == (head + rest)[k].path
      {
        var j :| 0 <= j < |schema[1..]| && schema[1..][j].path == rest[k - |head|].path;
        assert schema[j + 1] == schema[1..][j];
      }
      head + rest
  }

  /** The rules `schema` gives to `path` (none when it does not mention it). */
  function RulesFor(schema: Schema, path: string): seq<Rule> {
    if schema == [] then []
    else if schema[0].path == path then schema[0].rules
    else RulesFor(schema[1..], path)
  }

  /** The messages `path` fails with. */
  function FieldMessages(cast: NumberCast, schema: Schema, path: string, r: Record): seq<string> {
    RuleMessages(cast, RulesFor(schema, path), Get(r, path))
  }

  /** Object keys are unique: no path appears twice in a schema. */
  predicate DistinctPaths(schema: Schema) {
    forall i, j :: 0 <= i < j < |schema| ==> schema[i].path != schema[j].path
  }

  /** The map `forEach(error => errors[error.path] = error.message)` leaves
      behind: the last issue written for a path wins. */
  function ErrorMap(issues: seq<Issue>): (errors: Record)
    ensures forall p :: p in errors ==> errors[p].Text?
  {
    if issues == [] then map[]
    else
      var last := issues[|issues| - 1];
      ErrorMap(issues[..|issues| - 1])[last.path := Text(last.message)]
  }

  /** The `forEach` loop of the dialogs' `validateForm`. */
  method CollectErrors(issues: seq<Issue>) returns (errors: Record)
    ensures errors == ErrorMap(issues)
  {
    errors := map[];
    var i := 0;
    while i < |issues|
      invariant 0 <= i <= |issues|
      invariant errors == ErrorMap(issues[..i])
    {
      assert issues[..i + 1][..i] == issues[..i];
      errors := errors[issues[i].path := Text(issues[i].message)];
      i := i + 1;
    }
    assert issues[..i] == issues;
  }

  /** The error map has a key for exactly the paths some issue names. */
  lemma {:induction false} ErrorMapKeys(issues: seq<Issue>)
    ensures forall p :: p in ErrorMap(issues) <==> exists k :: 0 <= k < |issues| && issues[k].path == p
  {
    if issues != [] {
      var n := |issues| - 1;
      var front := issues[..n];
      ErrorMapKeys(front);
      forall p ensures p in ErrorMap(issues) <==> exists k :: 0 <= k < |issues| && issues[k].path == p {
        if p in ErrorMap(front) {
          var k :| 0 <= k < |front| && front[k].path == p;
          assert issues[k] == front[k];
        }
        if exists k :: 0 <= k < |issues| && issues[k].path == p {
          var k :| 0 <= k < |issues| && issues[k].path == p;
          if k < n {
            assert front[k] == issues[k];
          }
        }
      }
    }
  }

  /** A key of the error map holds the message of the last issue for it. */
  lemma {:induction false} ErrorMapLast(issues: seq<Issue>, p: string)
    requires p in ErrorMap(issues)
    ensures (exists k :: 0 <= k < |issues| && issues[k].path == p &&
               ErrorMap(issues)[p] == Text(issues[k].message) &&
               forall k' :: k < k' < |issues| ==> issues[k'].path != p)
  {
    assert issues != [];
    var n := |issues| - 1;
    var front := issues[..n];
    if p != issues[n].path {
      ErrorMapLast(front, p);
      var k :| 0 <= k < |front| && front[k].path == p &&
        ErrorMap(front)[p] == Text(front[k].message) &&
        forall k' :: k < k' < |front| ==> front[k'].path != p;
      assert issues[k] == front[k];
      forall k' | k < k' < |issues| ensures issues[k'].path != p {
        if k' < n {
          assert issues[k'] == front[k'];
        }
      }
    }
  }

  /** The error map has a key for exactly the paths that failed, and each
      key holds the message of the last issue for that path. */
  lemma {:induction false} ErrorMapMeaning(issues: seq<Issue>)
    ensures forall p :: p in ErrorMap(issues) <==> exists k :: 0 <= k < |issues| && issues[k].path == p
    ensures forall p :: p in ErrorMap(issues) ==>
      exists k :: 0 <= k < |issues| && issues[k].path == p &&
        ErrorMap(issues)[p] == Text(issues[k].message) &&
        forall k' :: k < k' < |issues| ==> issues[k'].path != p
  {
    ErrorMapKeys(issues);
    forall p | p in ErrorMap(issues)
      ensures (exists k :: 0 <= k < |issues| && issues[k].path == p &&
                 ErrorMap(issues)[p] == Text(issues[k].message) &&
                 forall k' :: k < k' < |issues| ==> issues[k'].path != p)
    {
      ErrorMapLast(issues, p);
    }
  }

  lemma {:induction false} RulesForMissing(schema: Schema, path: string)
    requires forall i :: 0 <= i < |schema| ==> schema[i].path != path
    ensures RulesFor(schema, path) == []
  {
    if schema != [] {
      RulesForMissing(schema[1..], path);
    }
  }

  lemma {:induction false} RulesForAt(schema: Schema, i: nat)
    requires DistinctPaths(schema) && i < |schema|
    ensures RulesFor(schema, schema[i].path) == schema[i].rules
  {
    if i > 0 {
      var rest := schema[1..];
      assert rest[i - 1] == schema[i];
      assert DistinctPaths(rest) by {
        forall a, b | 0 <= a < b < |rest| ensures rest[a].path != rest[b].path {
          assert rest[a] == schema[a + 1] && rest[b] == schema[b + 1];
        }
      }
      RulesForAt(rest, i - 1);
    }
  }

  /** A value reports no message iff it passes every rule. */
  lemma {:induction false} RuleMessagesEmpty(cast: NumberCast, rules: seq<Rule>, v: Value)
    ensures RuleMessages(cast, rules, v) == [] <==> forall k :: 0 <= k < |rules| ==> Violation(cast, rules[k], v).None?
  {
    if rules != [] {
      RuleMessagesEmpty(cast, rules[1..], v);
      assert forall k :: 1 <= k < |rules| ==> rules[k] == rules[1..][k - 1];
    }
  }

  /** The field at position `i` fails iff one of its rules does. */
  lemma FieldFailsAt(cast: NumberCast, schema: Schema, i: nat, r: Record)
    requires DistinctPaths(schema) && i < |schema|
    ensures FieldMessages(cast, schema, schema[i].path, r) != [] <==>
      exists k :: 0 <= k < |schema[i].rules| && Violation(cast, schema[i].rules[k], Get(r, schema[i].path)).Some?
  {
    RulesForAt(schema, i);
    RuleMessagesEmpty(cast, schema[i].rules, Get(r, schema[i].path));
  }

  /** An issue is reported exactly when its message is among those its
      path fails with. */
  lemma {:induction false} IssuesMembership(cast: NumberCast, schema: Schema, r: Record, issue: Issue)
    requires DistinctPaths(schema)
    ensures issue in Issues(cast, schema, r) <==> issue.message in FieldMessages(cast, schema, issue.path, r)
  {
    if schema != [] {
      var rest := schema[1..];
      assert DistinctPaths(rest) by {
        forall i, j | 0 <= i < j < |rest| ensures rest[i].path != rest[j].path {
          assert rest[i] == schema[i + 1] && rest[j] == schema[j + 1];
        }
      }
      IssuesMembership(cast, rest, r, issue);
      var own := FieldIssues(cast, schema[0], r);
      assert issue in own <==>
        issue.path == schema[0].path && issue.message in RuleMessages(cast, schema[0].rules, Get(r, issue.path))
      by {
        var msgs := RuleMessages(cast, schema[0].rules, Get(r, schema[0].path));
        if issue.path == schema[0].path && issue.message in msgs {
          var k :| 0 <= k < |msgs| && msgs[k] == issue.message;
          assert own[k] == issue;
        }
      }
      if issue.path == schema[0].path {
        forall i | 0 <= i < |rest| ensures rest[i].path != issue.path {
          assert rest[i] == schema[i + 1];
        }
        RulesForMissing(rest, issue.path);
      }
    }
  }

  /** A path is a key of the error map iff its field fails. */
  lemma ErrorKeyAt(cast: NumberCast, schema: Schema, r: Record, p: string)
    requires DistinctPaths(schema)
    ensures p in ErrorMap(Issues(cast, schema, r)) <==> FieldMessages(cast, schema, p, r) != []
  {
    var issues := Issues(cast, schema, r);
    ErrorMapKeys(issues);
    if FieldMessages(cast, schema, p, r) != [] {
      IssuesMembership(cast, schema, r, Issue(p, FieldMessages(cast, schema, p, r)[0]));
    }
    if p in ErrorMap(issues) {
      var k :| 0 <= k < |issues| && issues[k].path == p;
      IssuesMembership(cast, schema, r, issues[k]);
    }
  }

  /** A key of the error map holds one of the messages its field fails with. */
  lemma ErrorMessageAt(cast: NumberCast, schema: Schema, r: Record, p: string)
    requires DistinctPaths(schema) && p in ErrorMap(Issues(cast, schema, r))
    ensures ErrorMap(Issues(cast, schema, r))[p].Text?
    ensures ErrorMap(Issues(cast, schema, r))[p].s in FieldMessages(cast, schema, p, r)
  {
    var issues := Issues(cast, schema, r);
    ErrorMapLast(issues, p);
    var k :| 0 <= k < |issues| && issues[k].path == p && ErrorMap(issues)[p] == Text(issues[k].message);
    IssuesMembership(cast, schema, r, issues[k]);
  }

  /** No issue is reported iff no field of the schema fails. */
  lemma {:induction false} NoIssuesIff(cast: NumberCast, schema: Schema, r: Record)
    requires DistinctPaths(schema)
    ensures Issues(cast, schema, r) == [] <==>
      forall i :: 0 <= i < |schema| ==> FieldMessages(cast, schema, schema[i].path, r) == []
  {
    var issues := Issues(cast, schema, r);
    if issues != [] {
      IssuesMembership(cast, schema, r, issues[0]);
      var p := issues[0].path;
      var i :| 0 <= i < |schema| && schema[i].path == p by {
        if forall i :: 0 <= i < |schema| ==> schema[i].path != p {
          RulesForMissing(schema, p);
        }
      }
    } else {
      forall i | 0 <= i < |schema| ensures FieldMessages(cast, schema, schema[i].path, r) == [] {
        ErrorKeyAt(cast, schema, r, schema[i].path);
      }
    }
  }

  /** What `validateForm` decides for a schema with unique keys: the record
      is valid iff no field fails; the error map has a key for exactly the
      failing fields; and each key holds one of the messages its field fails
      with (which one depends on the order yup reports them in). */
  lemma ValidationMeaning(cast: NumberCast, schema: Schema, r: Record)
    requires DistinctPaths(schema)
    ensures Issues(cast, schema, r) == [] <==>
      forall i :: 0 <= i < |schema| ==> FieldMessages(cast, schema, schema[i].path, r) == []
    ensures forall p :: p in ErrorMap(Issues(cast, schema, r)) <==> FieldMessages(cast, schema, p, r) != []
    ensures forall p :: p in ErrorMap(Issues(cast, schema, r)) ==>
      ErrorMap(Issues(cast, schema, r))[p].Text? &&
      ErrorMap(Issues(cast, schema, r))[p].s in FieldMessages(cast, schema, p, r)
  {
    NoIssuesIff(cast, schema, r);
    forall p ensures p in ErrorMap(Issues(cast, schema, r)) <==> FieldMessages(cast, schema, p, r) != [] {
      ErrorKeyAt(cast, schema, r, p);
    }
    forall p | p in ErrorMap(Issues(cast, schema, r))
      ensures ErrorMap(Issues(cast, schema, r))[p].Text? &&
        ErrorMap(Issues(cast, schema, r))[p].s in FieldMessages(cast, schema, p, r)
    {
      ErrorMessageAt(cast, schema, r, p);
    }
  }
}
