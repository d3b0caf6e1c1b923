/** The contact page: the rule table of its form schema (trim, then per-field length and
    format checks) and the form's submission lifecycle (edit, submit, send another). */
module Contact {

  /** The four inputs of the form, in the order the schema declares them. */
  datatype Field = Name | Email | Subject | Message

  /** The raw text of the four inputs, as the user typed it. */
  datatype FormData = FormData(name: string, email: string, subject: string, message: string)
  {
    function Get(f: Field): string
    {
      match f
      case Name => name
      case Email => email
      case Subject => subject
      case Message => message
    }

    /** The record with one input overwritten: `{ ...prev, [name]: value }`. */
    function Set(f: Field, v: string): (d: FormData)
      ensures d.Get(f) == v
      ensures forall g :: g != f ==> d.Get(g) == Get(g)
    {
      match f
      case Name => this.(name := v)
      case Email => this.(email := v)
      case Subject => this.(subject := v)
      case Message => this.(message := v)
    }
  }

  const EmptyForm := FormData("", "", "", "")

  // ---------------------------------------------------------------------------
  // Trimming

  /** The characters String.prototype.trim removes: ECMAScript's WhiteSpace
      (tab, vertical tab, form feed, space, no-break space, byte order mark and the
      Unicode space separators) and LineTerminator (LF, CR, LS, PS). */
  predicate IsWhitespace(c: char)
  {
    || c in {'\t', '\n', '\U{000B}', '\U{000C}', '\r', ' ', '\U{00A0}', '\U{1680}',
             '\U{2028}', '\U{2029}', '\U{202F}', '\U{205F}', '\U{3000}', '\U{FEFF}'}
    || ('\U{2000}' <= c <= '\U{200A}')
  }

  predicate AllWhitespace(s: string)
  {
    forall k :: 0 <= k < |s| ==> IsWhitespace(s[k])
  }

  /** Drops the leading whitespace (TrimStartSpec says what is left). */
  function TrimStart(s: string): string
  {
    if s != [] && IsWhitespace(s[0]) then TrimStart(s[1..]) else s
  }

  /** Drops the trailing whitespace (TrimEndSpec says what is left). */
  function TrimEnd(s: string): string
  {
    if s != [] && IsWhitespace(s[|s| - 1]) then TrimEnd(s[..|s| - 1]) else s
  }

  /** String.prototype.trim, which the schema applies to every input before its checks. */
  function Trim(s: string): string
  {
    TrimEnd(TrimStart(s))
  }

  /** What TrimStart leaves is the suffix after a run of whitespace, and it does not start with whitespace. */
  lemma {:induction false} TrimStartSpec(s: string)
    ensures var r := TrimStart(s);
            && |r| <= |s| && r == s[|s| - |r|..]
            && AllWhitespace(s[..|s| - |r|])
            && (r == [] || !IsWhitespace(r[0]))
  {
    if s != [] && IsWhitespace(s[0]) {
      TrimStartSpec(s[1..]);
      var r := TrimStart(s[1..]);
      assert s[..|s| - |r|] == [s[0]] + s[1..][..|s| - 1 - |r|];
    }
  }

  /** What TrimEnd leaves is the prefix before a run of whitespace, and it does not end with whitespace. */
  lemma {:induction false} TrimEndSpec(s: string)
    ensures var r := TrimEnd(s);
            && |r| <= |s| && r == s[..|r|]
            && AllWhitespace(s[|r|..])
            && (r == [] || !IsWhitespace(r[|r| - 1]))
  {
    if s != [] && IsWhitespace(s[|s| - 1]) {
      TrimEndSpec(s[..|s| - 1]);
      var r := TrimEnd(s[..|s| - 1]);
      assert s[|r|..] == s[..|s| - 1][|r|..] + [s[|s| - 1]];
    }
  }

  /** Trim leaves the infix of `s` between two runs of whitespace, and that infix neither
      starts nor ends with whitespace. */
  lemma TrimSpec(s: string)
    ensures var r := Trim(s);
            && |r| <= |s|
            && (exists i :: 0 <= i <= |s| - |r| && r == s[i..i + |r|]
                           && AllWhitespace(s[..i]) && AllWhitespace(s[i + |r|..]))
            && (r == [] || (!IsWhitespace(r[0]) && !IsWhitespace(r[|r| - 1])))
  {
    var t := TrimStart(s);
    var r := TrimEnd(t);
    TrimStartSpec(s);
    TrimEndSpec(t);
    var i := |s| - |t|;
    assert r == s[i..i + |r|];
    assert s[i + |r|..] == t[|r|..];
  }

  /** The record `safeParse` hands back on success: every input trimmed. */
  function Trimmed(d: FormData): (r: FormData)
    ensures forall f :: r.Get(f) == Trim(d.Get(f))
  {
    FormData(Trim(d.name), Trim(d.email), Trim(d.subject), Trim(d.message))
  }

  /** A text made only of whitespace trims to the empty string. */
  lemma {:induction false} TrimWhitespaceOnly(s: string)
    requires AllWhitespace(s)
    ensures Trim(s) == []
  {
    TrimStartWhitespaceOnly(s);
  }

  lemma {:induction false} TrimStartWhitespaceOnly(s: string)
    requires AllWhitespace(s)
    ensures TrimStart(s) == []
  {
    if s != [] {
      TrimStartWhitespaceOnly(s[1..]);
    }
  }

  /** A text with no whitespace at either end is left as it is; in particular trimming is idempotent. */
  lemma TrimKeeps(s: string)
    requires s == [] || (!IsWhitespace(s[0]) && !IsWhitespace(s[|s| - 1]))
    ensures Trim(s) == s
  {
  }

  lemma TrimIdempotent(s: string)
    ensures Trim(Trim(s)) == Trim(s)
  {
    TrimSpec(s);
    TrimKeeps(Trim(s));
  }

  // ---------------------------------------------------------------------------
  // The rule table of the schema

  /** One check of a field's chain; lengths are taken after trimming. */
  datatype Check = MinLength(n: nat) | MaxLength(n: nat) | EmailFormat

  /** The messages of the schema's rules; Text gives the exact string the page shows. */
  datatype ErrorMessage =
    | NameRequired | NameTooLong
    | EmailInvalid | EmailTooLong
    | SubjectRequired | SubjectTooLong
    | MessageTooShort | MessageTooLong
  {
    function Text(): string
    {
      match this
      case NameRequired => "Name is required"
      case NameTooLong => "Name must be less than 100 characters"
      case EmailInvalid => "Please enter a valid email address"
      case EmailTooLong => "Email must be less than 255 characters"
      case SubjectRequired => "Subject is required"
      case SubjectTooLong => "Subject must be less than 200 characters"
      case MessageTooShort => "Message must be at least 10 characters"
      case MessageTooLong => "Message must be less than 2000 characters"
    }
  }

  datatype Rule = Rule(check: Check, message: ErrorMessage)

  /** Each field's checks, in the order the schema chains them after `.trim()`. */
  function Rules(f: Field): seq<Rule>
  {
    match f
    case Name => [Rule(MinLength(1), NameRequired), Rule(MaxLength(100), NameTooLong)]
    case Email => [Rule(EmailFormat, EmailInvalid), Rule(MaxLength(255), EmailTooLong)]
    case Subject => [Rule(MinLength(1), SubjectRequired), Rule(MaxLength(200), SubjectTooLong)]
    case Message => [Rule(MinLength(10), MessageTooShort), Rule(MaxLength(2000), MessageTooLong)]
  }

  function RuleMessages(f: Field): set<ErrorMessage>
  {
    set r | r in Rules(f) :: r.message
  }

  /** Whether trimmed text `t` passes check `c`; the email grammar is the predicate `isEmail`. */
  predicate Passes(c: Check, t: string, isEmail: string -> bool)
  {
    match c
    case MinLength(n) => |t| >= n
    case MaxLength(n) => |t| <= n
    case EmailFormat => isEmail(t)
  }

  /** A validation issue: the field it is about and the failing rule's message. */
  datatype Issue = Issue(field: Field, message: ErrorMessage)

  /** Runs every rule on `t` (no short-circuit) and reports, in rule order, one issue per
      failing rule (RunRulesSpec). */
  function RunRules(f: Field, rules: seq<Rule>, t: string, isEmail: string -> bool): seq<Issue>
    decreases |rules|
  {
    if rules == [] then
      []
    else
      var head := if Passes(rules[0].check, t, isEmail) then [] else [Issue(f, rules[0].message)];
      head + RunRules(f, rules[1..], t, isEmail)
  }

  /** At most one issue per rule, each about the field being checked, and none exactly when
      every rule passes. */
  lemma {:induction false} RunRulesSpec(f: Field, rules: seq<Rule>, t: string, isEmail: string -> bool)
    ensures var issues := RunRules(f, rules, t, isEmail);
            && |issues| <= |rules|
            && (forall k :: 0 <= k < |issues| ==> issues[k].field == f)
            && (issues == [] <==> forall j :: 0 <= j < |rules| ==> Passes(rules[j].check, t, isEmail))
    decreases |rules|
  {
    if rules != [] {
      RunRulesSpec(f, rules[1..], t, isEmail);
      assert forall j :: 1 <= j < |rules| ==> rules[j] == rules[1..][j - 1];
    }
  }

  /** The issues one field raises: its raw text is trimmed, then its rules run. */
  function FieldIssues(f: Field, raw: string, isEmail: string -> bool): seq<Issue>
  {
    RunRules(f, Rules(f), Trim(raw), isEmail)
  }

  /** The field's rule, written out: the trimmed text lies within the field's bounds
      (and, for the email, passes the format check). */
  predicate FieldAccepted(f: Field, raw: string, isEmail: string -> bool)
  {
    var t := Trim(raw);
    match f
    case Name => 1 <= |t| <= 100
    case Email => isEmail(t) && |t| <= 255
    case Subject => 1 <= |t| <= 200
    case Message => 10 <= |t| <= 2000
  }

  /** The message shown under a rejected field: the last of its failing rules, since later
      issues for the same field overwrite earlier ones. */
  function ExpectedError(f: Field, raw: string): (msg: ErrorMessage)
    ensures msg in RuleMessages(f)
  {
    var t := Trim(raw);
    assert Rules(f)[0] in Rules(f) && Rules(f)[1] in Rules(f);
    match f
    case Name => if |t| > 100 then NameTooLong else NameRequired
    case Email => if |t| > 255 then EmailTooLong else EmailInvalid
    case Subject => if |t| > 200 then SubjectTooLong else SubjectRequired
    case Message => if |t| > 2000 then MessageTooLong else MessageTooShort
  }

  /** The fields in the order the schema declares them, which is the order of its issues. */
  const SchemaOrder: seq<Field> := [Name, Email, Subject, Message]

  lemma SchemaCoversAllFields()
    ensures forall f :: f in SchemaOrder
  {
    forall f ensures f in SchemaOrder {
      match f
      case Name => assert SchemaOrder[0] == f;
      case Email => assert SchemaOrder[1] == f;
      case Subject => assert SchemaOrder[2] == f;
      case Message => assert SchemaOrder[3] == f;
    }
  }

  /** The issues of the given fields, field after field. */
  function IssuesOf(fields: seq<Field>, d: FormData, isEmail: string -> bool): seq<Issue>
    decreases |fields|
  {
    if fields == [] then []
    else FieldIssues(fields[0], d.Get(fields[0]), isEmail) + IssuesOf(fields[1..], d, isEmail)
  }

  /** Every issue of the whole form, in the schema's field order. */
  function Issues(d: FormData, isEmail: string -> bool): seq<Issue>
  {
    IssuesOf(SchemaOrder, d, isEmail)
  }

  /** No issue is raised exactly when every listed field is accepted. */
  lemma {:induction false} IssuesOfEmptyIff(fields: seq<Field>, d: FormData, isEmail: string -> bool)
    ensures IssuesOf(fields, d, isEmail) == [] <==> forall f :: f in fields ==> FieldAccepted(f, d.Get(f), isEmail)
    decreases |fields|
  {
    if fields != [] {
      FieldIssuesEmptyIff(fields[0], d.Get(fields[0]), isEmail);
      IssuesOfEmptyIff(fields[1..], d, isEmail);
      assert forall f :: f in fields <==> f == fields[0] || f in fields[1..];
    }
  }

  datatype ParseResult = Success(data: FormData) | Failure(issues: seq<Issue>)

  /** `contactSchema.safeParse`: the trimmed record when no rule fails, otherwise every issue
      (SafeParseSpec says when it succeeds). */
  function SafeParse(d: FormData, isEmail: string -> bool): ParseResult
  {
    var issues := Issues(d, isEmail);
    if issues == [] then
      Success(Trimmed(d))
    else
      Failure(issues)
  }

  /** Parsing succeeds exactly when every field is accepted; it then hands back every input
      trimmed, and otherwise a non-empty list of the form's issues. */
  lemma SafeParseSpec(d: FormData, isEmail: string -> bool)
    ensures SafeParse(d, isEmail).Success? <==> forall f :: FieldAccepted(f, d.Get(f), isEmail)
    ensures SafeParse(d, isEmail).Success? ==> forall f :: SafeParse(d, isEmail).data.Get(f) == Trim(d.Get(f))
    ensures SafeParse(d, isEmail).Failure? ==> SafeParse(d, isEmail).issues != [] && SafeParse(d, isEmail).issues == Issues(d, isEmail)
  {
    IssuesOfEmptyIff(SchemaOrder, d, isEmail);
    SchemaCoversAllFields();
  }

  /** The rule table and the written-out rule agree. */
  lemma FieldIssuesEmptyIff(f: Field, raw: string, isEmail: string -> bool)
    ensures FieldIssues(f, raw, isEmail) == [] <==> FieldAccepted(f, raw, isEmail)
  {
    var rules := Rules(f);
    RunRulesSpec(f, rules, Trim(raw), isEmail);
    assert Passes(rules[0].check, Trim(raw), isEmail) && Passes(rules[1].check, Trim(raw), isEmail)
       <==> FieldAccepted(f, raw, isEmail);
  }

  // ---------------------------------------------------------------------------
  // Collecting the errors the form shows

  /** A value of the page's errors record: the empty string an edit resets a field's error
      to, or a rule's message. */
  datatype ErrorText = Cleared | Shown(message: ErrorMessage)
  {
    function Text(): string
    {
      match this
      case Cleared => ""
      case Shown(m) => m.Text()
    }
  }

  /** The truthiness test `if (errors[name])` holds exactly for a shown message. */
  lemma TruthyIffShown(e: ErrorText)
    ensures e.Text() != "" <==> e.Shown?
  {
  }

  /** The error record the submit handler builds: each issue in turn writes its message under
      its field, so a later issue for a field overwrites an earlier one. */
  function FieldErrors(issues: seq<Issue>): (m: map<Field, ErrorText>)
  {
    if issues == [] then
      map[]
    else
      var n := |issues| - 1;
      FieldErrors(issues[..n])[issues[n].field := Shown(issues[n].message)]
  }

  /** The record holds a key for exactly the fields some issue is about. */
  lemma {:induction false} FieldErrorsKeys(issues: seq<Issue>)
    ensures FieldErrors(issues).Keys == set k | 0 <= k < |issues| :: issues[k].field
  {
    if issues != [] {
      var n := |issues| - 1;
      FieldErrorsKeys(issues[..n]);
      assert forall k :: 0 <= k < n ==> issues[..n][k] == issues[k];
    }
  }

  /** The message kept for a field is the one of the LAST issue about it. */
  lemma {:induction false} FieldErrorsLastWins(issues: seq<Issue>, k: nat)
    requires k < |issues|
    requires forall j :: k < j < |issues| ==> issues[j].field != issues[k].field
    ensures issues[k].field in FieldErrors(issues)
    ensures FieldErrors(issues)[issues[k].field] == Shown(issues[k].message)
  {
    var n := |issues| - 1;
    if k < n {
      assert issues[..n][k] == issues[k];
      FieldErrorsLastWins(issues[..n], k);
    }
  }

  /** Collecting two issue lists one after the other merges their records, the second winning. */
  lemma {:induction false} FieldErrorsAppend(a: seq<Issue>, b: seq<Issue>)
    ensures FieldErrors(a + b) == FieldErrors(a) + FieldErrors(b)
    decreases |b|
  {
    if b == [] {
      assert a + b == a;
    } else {
      var n := |b| - 1;
      assert (a + b)[..|a + b| - 1] == a + b[..n];
      FieldErrorsAppend(a, b[..n]);
    }
  }

  /** Two rules run on the same text: the record holds the second rule's message when it
      fails, otherwise the first's when that fails, otherwise nothing. */
  lemma TwoRuleErrors(f: Field, r0: Rule, r1: Rule, t: string, isEmail: string -> bool)
    ensures var p0, p1 := Passes(r0.check, t, isEmail), Passes(r1.check, t, isEmail);
            FieldErrors(RunRules(f, [r0, r1], t, isEmail)) ==
              if p0 && p1 then map[] else map[f := Shown(if !p1 then r1.message else r0.message)]
  {
    var first := if Passes(r0.check, t, isEmail) then [] else [Issue(f, r0.message)];
    var second := if Passes(r1.check, t, isEmail) then [] else [Issue(f, r1.message)];
    TwoRuleIssues(f, r0, r1, t, isEmail);
    FieldErrorsAppend(first, second);
    assert FieldErrors([]) == map[];
    SingleIssueErrors(f, r0.message);
    SingleIssueErrors(f, r1.message);
  }

  /** Two rules run on the same text raise the first rule's issue, if it fails, then the second's. */
  lemma TwoRuleIssues(f: Field, r0: Rule, r1: Rule, t: string, isEmail: string -> bool)
    ensures RunRules(f, [r0, r1], t, isEmail) ==
              (if Passes(r0.check, t, isEmail) then [] else [Issue(f, r0.message)])
              + (if Passes(r1.check, t, isEmail) then [] else [Issue(f, r1.message)])
  {
    assert [r0, r1][1..] == [r1];
    assert [r1][1..] == [];
    var second := if Passes(r1.check, t, isEmail) then [] else [Issue(f, r1.message)];
    assert RunRules(f, [r1], t, isEmail) == second + RunRules(f, [], t, isEmail);
    assert second + [] == second;
  }

  lemma SingleIssueErrors(f: Field, msg: ErrorMessage)
    ensures FieldErrors([Issue(f, msg)]) == map[f := Shown(msg)]
  {
    assert [Issue(f, msg)][..0] == [];
  }

  /** The record collected from one field's issues: empty when the field is accepted,
      otherwise that field alone, holding its expected message. */
  lemma FieldErrorsOfField(f: Field, raw: string, isEmail: string -> bool)
    ensures FieldErrors(FieldIssues(f, raw, isEmail)) ==
              if FieldAccepted(f, raw, isEmail) then map[] else map[f := Shown(ExpectedError(f, raw))]
  {
    var rules := Rules(f);
    assert rules == [rules[0], rules[1]];
    TwoRuleErrors(f, rules[0], rules[1], Trim(raw), isEmail);
  }

  /** The record collected from the issues of some fields names exactly those of them that
      fail their rule, each with the message of its last failing rule. */
  lemma {:induction false} IssuesOfErrors(fields: seq<Field>, d: FormData, isEmail: string -> bool)
    ensures forall f :: f in FieldErrors(IssuesOf(fields, d, isEmail)) <==> f in fields && !FieldAccepted(f, d.Get(f), isEmail)
    ensures forall f :: f in FieldErrors(IssuesOf(fields, d, isEmail)) ==> FieldErrors(IssuesOf(fields, d, isEmail))[f] == Shown(ExpectedError(f, d.Get(f)))
    decreases |fields|
  {
    if fields != [] {
      var g := fields[0];
      FieldErrorsAppend(FieldIssues(g, d.Get(g), isEmail), IssuesOf(fields[1..], d, isEmail));
      FieldErrorsOfField(g, d.Get(g), isEmail);
      IssuesOfErrors(fields[1..], d, isEmail);
      assert forall f :: f in fields <==> f == g || f in fields[1..];
    }
  }

  /** After a rejected submit, the errors record names exactly the fields that fail their
      rule, each with the message of its last failing rule. */
  lemma SubmitErrors(d: FormData, isEmail: string -> bool)
    ensures forall f :: f in FieldErrors(Issues(d, isEmail)) <==> !FieldAccepted(f, d.Get(f), isEmail)
    ensures forall f :: f in FieldErrors(Issues(d, isEmail)) ==> FieldErrors(Issues(d, isEmail))[f] == Shown(ExpectedError(f, d.Get(f)))
  {
    IssuesOfErrors(SchemaOrder, d, isEmail);
    SchemaCoversAllFields();
  }

  /** Every message the record shows under a field is one of that field's rule messages. */
  predicate MessagesFromRules(errors: map<Field, ErrorText>)
  {
    forall f :: f in errors && errors[f].Shown? ==> errors[f].message in RuleMessages(f)
  }

  /** A message is shown only under a field whose current text fails its rule. */
  predicate ShownOnlyWhenRejected(errors: map<Field, ErrorText>, d: FormData, isEmail: string -> bool)
  {
    forall f :: f in errors && errors[f].Shown? ==> !FieldAccepted(f, d.Get(f), isEmail)
  }

  /** Every value of the record collected from a failed parse is a shown message, one of its
      field's rule messages, under a field that fails its rule. */
  lemma RejectionMessagesFromRules(d: FormData, isEmail: string -> bool)
    requires SafeParse(d, isEmail).Failure?
    ensures var errors := FieldErrors(SafeParse(d, isEmail).issues);
            && (forall f :: f in errors ==> errors[f].Shown?)
            && MessagesFromRules(errors)
            && ShownOnlyWhenRejected(errors, d, isEmail)
  {
    SubmitErrors(d, isEmail);
  }

  /** An email that is both malformed and over 255 characters raises two issues; the record
      keeps the later one, the length message. */
  lemma LongMalformedEmail(d: FormData, isEmail: string -> bool)
    requires !isEmail(Trim(d.email)) && |Trim(d.email)| > 255
    ensures |FieldIssues(Email, d.email, isEmail)| == 2
    ensures Email in FieldErrors(Issues(d, isEmail))
    ensures FieldErrors(Issues(d, isEmail))[Email] == Shown(EmailTooLong)
  {
    var rules := Rules(Email);
    assert rules == [rules[0], rules[1]];
    TwoRuleIssues(Email, rules[0], rules[1], Trim(d.email), isEmail);
    SubmitErrors(d, isEmail);
  }

  /** The submit handler's `forEach` over the issues, writing into `fieldErrors` in place. */
  method CollectFieldErrors(issues: seq<Issue>) returns (fieldErrors: map<Field, ErrorText>)
    ensures fieldErrors == FieldErrors(issues)
  {
    fieldErrors := map[];
    var i := 0;
    while i < |issues|
      invariant 0 <= i <= |issues|
      invariant fieldErrors == FieldErrors(issues[..i])
    {
      assert issues[..i + 1][..i] == issues[..i];
      fieldErrors := fieldErrors[issues[i].field := Shown(issues[i].message)];
      i := i + 1;
    }
    assert issues[..i] == issues;
  }

  // ---------------------------------------------------------------------------
  // The form's state

  /** The notifications the page emits; it has only the one confirming a sent message. */
  datatype Toast = MessageSentToast
  {
    function Title(): string
    {
      "Message Sent"
    }

    function Description(): string
    {
      "Thank you for your inquiry. I will respond shortly."
    }
  }

  /** The state cells of the contact page and its event handlers. The email grammar is
      supplied at construction. Submission is split at its `await`: BeginSubmit runs up to
      the simulated delay, CompleteSubmit is the delay resolving. */
  class ContactForm {
    const isEmail: string -> bool
    var formData: FormData
    var errors: map<Field, ErrorText>
    var isSubmitting: bool
    var isSubmitted: bool
    ghost var toasts: seq<Toast>  // notifications emitted so far, in order

    ghost predicate Valid()
      reads this
    {
      && !(isSubmitting && isSubmitted)
      && (isSubmitting || isSubmitted ==> errors == map[])
      && MessagesFromRules(errors)
      && ShownOnlyWhenRejected(errors, formData, isEmail)
    }

    constructor (isEmail: string -> bool)
      ensures Valid() && this.isEmail == isEmail
      ensures formData == EmptyForm && errors == map[]
      ensures !isSubmitting && !isSubmitted && toasts == []
    {
      this.isEmail := isEmail;
      formData := EmptyForm;
      errors := map[];
      isSubmitting := false;
      isSubmitted := false;
      toasts := [];
    }

    /** An input's change event: store the value; a shown error under that field is cleared. */
    method HandleChange(f: Field, value: string)
      requires Valid()
      modifies this
      ensures Valid()
      ensures formData == old(formData).Set(f, value)
      ensures errors == if f in old(errors) && old(errors)[f].Shown? then old(errors)[f := Cleared] else old(errors)
      ensures isSubmitting == old(isSubmitting) && isSubmitted == old(isSubmitted) && toasts == old(toasts)
    {
      formData := formData.Set(f, value);
      if f in errors && errors[f].Shown? {
        errors := errors[f := Cleared];
      }
    }

    /** The submit event up to the simulated delay. The form is only on screen while not
        submitted, and its button is disabled while submitting. */
    method BeginSubmit() returns (accepted: bool)
      requires Valid() && !isSubmitted && !isSubmitting
      modifies this
      ensures Valid()
      ensures accepted == SafeParse(formData, isEmail).Success?
      ensures accepted ==> errors == map[] && isSubmitting
      ensures !accepted ==> errors == FieldErrors(SafeParse(formData, isEmail).issues) && !isSubmitting
      ensures formData == old(formData) && !isSubmitted && toasts == old(toasts)
    {
      errors := map[];
      var d := formData;
      var result := SafeParse(d, isEmail);
      assert d == formData;
      if result.Failure? {
        var fieldErrors := CollectFieldErrors(result.issues);
        RejectionMessagesFromRules(d, isEmail);
        assert MessagesFromRules(fieldErrors) && ShownOnlyWhenRejected(fieldErrors, d, isEmail);
        errors := fieldErrors;
        accepted := false;
      } else {
        isSubmitting := true;
        accepted := true;
      }
    }

    /** The simulated delay resolves: the form is submitted and one notification is shown. */
    method CompleteSubmit()
      requires Valid() && isSubmitting
      modifies this
      ensures Valid()
      ensures !isSubmitting && isSubmitted
      ensures toasts == old(toasts) + [MessageSentToast]
      ensures formData == old(formData) && errors == old(errors)
    {
      isSubmitting := false;
      isSubmitted := true;
      toasts := toasts + [MessageSentToast];
    }

    /** The "Send Another Message" button, shown only once submitted: back to an empty form.
        The errors record is left alone (it is already empty). */
    method SendAnother()
      requires Valid() && isSubmitted
      modifies this
      ensures Valid()
      ensures !isSubmitted && !isSubmitting && formData == EmptyForm
      ensures errors == old(errors) && errors == map[] && toasts == old(toasts)
    {
      isSubmitted := false;
      formData := EmptyForm;
    }
  }

  // ---------------------------------------------------------------------------
  // Worked examples

  /** A whitespace-only (or empty) input is rejected with its first rule's message: "is
      required" for the name and subject, the format message for the email (given that the
      email grammar rejects ""), and "at least 10 characters" for the message. */
  lemma BlankFieldRejected(d: FormData, f: Field, isEmail: string -> bool)
    requires !isEmail("")
    requires AllWhitespace(d.Get(f))
    ensures f in FieldErrors(Issues(d, isEmail))
    ensures FieldErrors(Issues(d, isEmail))[f] == Shown(Rules(f)[0].message)
  {
    TrimWhitespaceOnly(d.Get(f));
    SubmitErrors(d, isEmail);
  }

  /** When the name and subject pass and the email and message fail, the record holds the
      email's and the message's errors and nothing under the other two fields. */
  lemma EmailAndMessageRejected(d: FormData, isEmail: string -> bool)
    requires FieldAccepted(Name, d.name, isEmail) && FieldAccepted(Subject, d.subject, isEmail)
    requires !FieldAccepted(Email, d.email, isEmail) && !FieldAccepted(Message, d.message, isEmail)
    ensures var e := FieldErrors(Issues(d, isEmail));
            && Name !in e && Subject !in e
            && Email in e && e[Email] == Shown(ExpectedError(Email, d.email))
            && Message in e && e[Message] == Shown(ExpectedError(Message, d.message))
  {
    SubmitErrors(d, isEmail);
  }

  /** The record {"Jo", "jo@x", "Hi", "short"}, given that the email grammar rejects "jo@x":
      the short name and subject pass, the email fails its format and the message its minimum
      length; by EmailAndMessageRejected those two errors are the only ones. */
  lemma ShortMessageExample(d: FormData, isEmail: string -> bool)
    requires d == FormData("Jo", "jo@x", "Hi", "short") && !isEmail("jo@x")
    ensures FieldAccepted(Name, d.name, isEmail) && FieldAccepted(Subject, d.subject, isEmail)
    ensures !FieldAccepted(Email, d.email, isEmail) && ExpectedError(Email, d.email) == EmailInvalid
    ensures !FieldAccepted(Message, d.message, isEmail) && ExpectedError(Message, d.message) == MessageTooShort
  {
    TrimKeeps(d.name);
    TrimKeeps(d.email);
    TrimKeeps(d.subject);
    TrimKeeps(d.message);
  }

  /** Filling the inputs with an acceptable message and submitting goes Idle, Submitting,
      Submitted, with one notification; "Send Another Message" restores the empty form. */
  method SubmissionExample(isEmail: string -> bool, d: FormData)
    requires forall f :: FieldAccepted(f, d.Get(f), isEmail)
  {
    SafeParseSpec(d, isEmail);
    var form := new ContactForm(isEmail);
    form.HandleChange(Name, d.name);
    form.HandleChange(Email, d.email);
    form.HandleChange(Subject, d.subject);
    form.HandleChange(Message, d.message);
    assert form.formData == d;
    var accepted := form.BeginSubmit();
    assert accepted && form.isSubmitting && form.errors == map[];
    form.CompleteSubmit();
    assert form.isSubmitted && form.toasts == [MessageSentToast];
    form.SendAnother();
    assert !form.isSubmitted && form.formData == EmptyForm;
  }
}
