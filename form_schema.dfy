/** The contact form's checks in `formZodSchema.js`: `validateSecurity`, an ordered
    chain of pattern tests answering with the first one that fires, and the zod
    schema that trims each field, bounds its length and pipes it into that chain. */
module FormSchema {
  import opened Wrappers
  import opened Strings

  // ---------------------------------------------------------------- the patterns

  /** `\w` and the word characters of `\b` in a regular expression without the `u` flag. */
  predicate IsWordChar(c: char) {
    ('a' <= c <= 'z') || ('A' <= c <= 'Z') || ('0' <= c <= '9') || c == '_'
  }

  /** `\b` at position `i`: a word character on exactly one side. */
  predicate WordBoundary(s: string, i: nat)
    requires i <= |s|
  {
    (i > 0 && IsWordChar(s[i - 1])) != (i < |s| && IsWordChar(s[i]))
  }

  /** `/<name\b/i` matches at `i`. */
  predicate TagAt(s: string, i: nat, name: string) {
    MatchesAtFolded(s, i, "<" + name) && WordBoundary(s, i + |name| + 1)
  }

  predicate HasTag(s: string, name: string) {
    exists i :: 0 <= i < |s| && TagAt(s, i, name)
  }

  /** `/<script\b/gi`. */
  predicate HasScript(s: string) {
    HasTag(s, "script")
  }

  const DangerousTags: seq<string> := ["iframe", "object", "embed", "form", "input", "link", "meta", "style"]

  /** `/<(iframe|object|embed|form|input|link|meta|style)\b/gi`. */
  predicate HasDangerousTag(s: string) {
    exists k :: 0 <= k < |DangerousTags| && HasTag(s, DangerousTags[k])
  }

  /** `/[<>{}]/g`. */
  predicate HasBracket(s: string) {
    exists i :: 0 <= i < |s| && s[i] in {'<', '>', '{', '}'}
  }

  predicate IsSymbol(c: char) {
    c in {'%', '$', '#', '@', '!', '*', '&', '^'}
  }

  predicate SymbolRunAt(s: string, i: nat, n: nat) {
    i + n <= |s| && forall k :: i <= k < i + n ==> IsSymbol(s[k])
  }

  /** `new RegExp('[%$#@!*&^]{n,}')`: `n` symbols in a row somewhere (for `n = 0`
      the empty match at the start). */
  predicate HasSymbolRun(s: string, n: nat) {
    exists i :: 0 <= i <= |s| && SymbolRunAt(s, i, n)
  }

  /** The keyword pairs of the SQL pattern, in the order of its alternatives. */
  const SqlPairs: seq<(string, string)> := [("union", "select"), ("drop", "table"), ("delete", "from"), ("insert", "into")]

  /** `first\s+second` matches at `i`, ignoring ASCII case, with `gap` white-space
      characters between the words. */
  predicate SqlAt(s: string, i: nat, first: string, second: string, gap: nat) {
    && gap >= 1
    && MatchesAtFolded(s, i, first)
    && i + |first| + gap <= |s|
    && (forall k :: i + |first| <= k < i + |first| + gap ==> IsJsSpace(s[k]))
    && MatchesAtFolded(s, i + |first| + gap, second)
  }

  /** `/(union\s+select|drop\s+table|delete\s+from|insert\s+into)/gi`. */
  predicate HasSqlCommand(s: string) {
    exists p, i, gap :: 0 <= p < |SqlPairs| && 0 <= i < |s| && 0 < gap <= |s| && SqlAt(s, i, SqlPairs[p].0, SqlPairs[p].1, gap)
  }

  // ---------------------------------------------------------------- validateSecurity

  datatype SecurityOptions = SecurityOptions(allowBrackets: bool, allowSymbols: bool, maxSymbolSequence: nat)

  /** The defaults of the destructuring: brackets refused, symbols allowed, runs of 3. */
  const DefaultOptions := SecurityOptions(false, true, 3)

  datatype Verdict = Valid | Invalid(message: string)

  const UnsafeContent := "Contains potentially unsafe content"
  const UnsafeTags := "Contains potentially unsafe HTML tags"
  const InvalidCharacters := "Contains invalid characters"
  const TooManySymbols := "Contains too many consecutive special characters"
  const UnsafeDatabase := "Contains potentially unsafe database commands"

  /** `validateSecurity(value, options)`, check by check with early returns. */
  function ValidateSecurity(value: string, opts: SecurityOptions): (r: Verdict)
    ensures r.Invalid? ==> r.message in {UnsafeContent, UnsafeTags, InvalidCharacters, TooManySymbols, UnsafeDatabase}
  {
    if HasScript(value) then Invalid(UnsafeContent)
    else if HasDangerousTag(value) then Invalid(UnsafeTags)
    else if !opts.allowBrackets && HasBracket(value) then Invalid(InvalidCharacters)
    else if !opts.allowSymbols && HasSymbolRun(value, opts.maxSymbolSequence) then Invalid(TooManySymbols)
    else if HasSqlCommand(value) then Invalid(UnsafeDatabase)
    else Valid
  }

  // ---------------------------------------------------------------- the checks as a list

  /** The checks of `validateSecurity` as data, so that the chain can be stated as
      "the first one that fires". */
  datatype Check = ScriptTag | DangerousTag | Brackets | SymbolRun | SqlCommand

  /** Which of the five patterns match a value, for the run length `maxRun`. */
  datatype Signals = Signals(script: bool, tag: bool, bracket: bool, run: bool, sql: bool)

  function SignalsOf(value: string, maxRun: nat): Signals {
    Signals(HasScript(value), HasDangerousTag(value), HasBracket(value), HasSymbolRun(value, maxRun),
            HasSqlCommand(value))
  }

  predicate Fires(c: Check, s: Signals) {
    match c
    case ScriptTag => s.script
    case DangerousTag => s.tag
    case Brackets => s.bracket
    case SymbolRun => s.run
    case SqlCommand => s.sql
  }

  function Message(c: Check): string {
    match c
    case ScriptTag => UnsafeContent
    case DangerousTag => UnsafeTags
    case Brackets => InvalidCharacters
    case SymbolRun => TooManySymbols
    case SqlCommand => UnsafeDatabase
  }

  /** The checks the options switch on, in source order. */
  function Enabled(opts: SecurityOptions): (r: seq<Check>)
    ensures ScriptTag in r && DangerousTag in r && SqlCommand in r
    ensures Brackets in r <==> !opts.allowBrackets
    ensures SymbolRun in r <==> !opts.allowSymbols
  {
    [ScriptTag] + ([DangerousTag] + LaterChecks(opts))
  }

  /** The message of the first check in `checks` that fires, if any: valid exactly
      when none fires. */
  function FirstFailure(checks: seq<Check>, s: Signals): (r: Verdict)
    ensures r.Valid? <==> forall k :: 0 <= k < |checks| ==> !Fires(checks[k], s)
    ensures r.Invalid? ==>
              exists k :: (0 <= k < |checks| && Fires(checks[k], s)
                           && r.message == Message(checks[k])
                           && forall j :: 0 <= j < k ==> !Fires(checks[j], s))
    decreases |checks|
  {
    if checks == [] then Valid
    else if Fires(checks[0], s) then Invalid(Message(checks[0]))
    else
      var rest := FirstFailure(checks[1..], s);
      assert forall k :: 1 <= k < |checks| ==> checks[k] == checks[1..][k - 1];
      if rest.Invalid? then
        var k :| 0 <= k < |checks[1..]| && Fires(checks[1..][k], s)
                 && rest.message == Message(checks[1..][k])
                 && forall j :: 0 <= j < k ==> !Fires(checks[1..][j], s);
        assert Fires(checks[k + 1], s) && rest.message == Message(checks[k + 1]);
        assert forall j :: 0 <= j < k + 1 ==> !Fires(checks[j], s);
        rest
      else
        rest
  }

  lemma FirstFailureCons(c: Check, rest: seq<Check>, s: Signals)
    ensures FirstFailure([c] + rest, s) == if Fires(c, s) then Invalid(Message(c)) else FirstFailure(rest, s)
  {
    assert ([c] + rest)[0] == c && ([c] + rest)[1..] == rest;
  }

  /** The chain of early returns answers with the message of the first enabled check
      that fires, and is valid when none does. */
  lemma ValidateIsFirstFailure(value: string, opts: SecurityOptions)
    ensures ValidateSecurity(value, opts) == FirstFailure(Enabled(opts), SignalsOf(value, opts.maxSymbolSequence))
  {
    EnabledFirstFailure(SignalsOf(value, opts.maxSymbolSequence), opts);
  }

  /** The first enabled check that fires, for any outcome of the five tests. */
  lemma EnabledFirstFailure(s: Signals, opts: SecurityOptions)
    ensures FirstFailure(Enabled(opts), s)
         == if s.script then Invalid(UnsafeContent)
            else if s.tag then Invalid(UnsafeTags)
            else if !opts.allowBrackets && s.bracket then Invalid(InvalidCharacters)
            else if !opts.allowSymbols && s.run then Invalid(TooManySymbols)
            else if s.sql then Invalid(UnsafeDatabase)
            else Valid
  {
    var t2 := LaterChecks(opts);
    LaterFirstFailure(s, opts);
    FirstFailureCons(DangerousTag, t2, s);
    FirstFailureCons(ScriptTag, [DangerousTag] + t2, s);
  }

  /** The checks after the two tag checks: brackets and symbol runs when they are
      refused, then the SQL pattern. */
  function LaterChecks(opts: SecurityOptions): seq<Check> {
    (if opts.allowBrackets then [] else [Brackets]) + ((if opts.allowSymbols then [] else [SymbolRun]) + [SqlCommand])
  }

  lemma LaterFirstFailure(s: Signals, opts: SecurityOptions)
    ensures FirstFailure(LaterChecks(opts), s)
         == if !opts.allowBrackets && s.bracket then Invalid(InvalidCharacters)
            else if !opts.allowSymbols && s.run then Invalid(TooManySymbols)
            else if s.sql then Invalid(UnsafeDatabase)
            else Valid
  {
    var t0: seq<Check> := [SqlCommand];
    FirstFailureCons(SqlCommand, [], s);
    assert t0 == [SqlCommand] + [];
    var t1 := (if opts.allowSymbols then [] else [SymbolRun]) + t0;
    if !opts.allowSymbols {
      FirstFailureCons(SymbolRun, t0, s);
    }
    if !opts.allowBrackets {
      FirstFailureCons(Brackets, t1, s);
    }
  }

  // ---------------------------------------------------------------- properties

  /** The SQL pattern is refused whatever the options. */
  lemma SqlAlwaysRefused(value: string, opts: SecurityOptions)
    requires HasSqlCommand(value)
    ensures ValidateSecurity(value, opts).Invalid?
  {
  }

  /** With symbols allowed the run length is never read: the message field's 5 has
      the same effect as the default 3. */
  lemma RunLengthIgnoredWhenSymbolsAllowed(value: string, allowBrackets: bool, n: nat, m: nat)
    ensures ValidateSecurity(value, SecurityOptions(allowBrackets, true, n))
         == ValidateSecurity(value, SecurityOptions(allowBrackets, true, m))
  {
  }

  /** A longer run contains a shorter one, so raising the run length only accepts more. */
  lemma SymbolRunShorter(s: string, n: nat, m: nat)
    requires m <= n && HasSymbolRun(s, n)
    ensures HasSymbolRun(s, m)
  {
    var i :| 0 <= i <= |s| && SymbolRunAt(s, i, n);
    assert SymbolRunAt(s, i, m);
  }

  /** A script tag gives the first message, whatever else the value holds. */
  lemma ScriptComesFirst(value: string, opts: SecurityOptions)
    requires HasScript(value)
    ensures ValidateSecurity(value, opts) == Invalid(UnsafeContent)
  {
  }

  /** `\b` after the tag name: `<script>` is caught, `<scripts` is not a script tag. */
  lemma ScriptBoundaryExamples()
    ensures HasScript("<SCRIPT>")
    ensures !TagAt("<scripts", 0, "script")
  {
    assert TagAt("<SCRIPT>", 0, "script") by {
      assert MatchesAtFolded("<SCRIPT>", 0, "<script");
    }
  }

  // ---------------------------------------------------------------- zodFormSchema

  /** The raw fields of the contact form; `phone` may be absent. */
  datatype ContactForm = ContactForm(firstName: string, lastName: string, email: string,
                                     message: string, phone: Option<string>)

  /** The options each field's refinement passes. */
  const NameOptions := SecurityOptions(false, false, 3)
  const EmailOptions := SecurityOptions(false, true, 3)
  const MessageOptions := SecurityOptions(false, true, 5)
  const PhoneOptions := SecurityOptions(false, false, 3)

  const PhoneInvalid := "Phone number contains invalid characters"
  const PhoneTooLong := "Phone number too long"

  /** A string schema's checks: each failing bound adds its message, in order. */
  function Bounds(n: nat, min: nat, minMessage: string, max: nat, maxMessage: string): (r: seq<string>)
    ensures r == [] <==> min <= n <= max
  {
    (if n < min then [minMessage] else []) + (if n > max then [maxMessage] else [])
  }

  /** `.pipe(securityRefine(opts))`: the refinement runs only when the string's own
      checks passed, and then reports the first failing check's message. */
  function Piped(value: string, issues: seq<string>, opts: SecurityOptions): (r: seq<string>)
    ensures r == [] <==> issues == [] && ValidateSecurity(value, opts).Valid?
    ensures issues != [] ==> r == issues
  {
    if issues != [] then issues
    else match ValidateSecurity(value, opts)
      case Valid => []
      case Invalid(message) => [message]
  }

  /** The issues of a name field: trimmed, 1 to 50 UTF-16 units, then the checks. */
  function NameIssues(value: string, emptyMessage: string, longMessage: string): seq<string> {
    var t := Trim(value);
    Piped(t, Bounds(Utf16Len(t), 1, emptyMessage, 50, longMessage), NameOptions)
  }

  /** The issues of `email`; whether the trimmed value is an email address is zod's
      own test and comes in as `formatOk`. */
  function EmailIssues(value: string, formatOk: bool): seq<string> {
    var t := Trim(value);
    var issues := (if formatOk then [] else ["Field must be a valid email address"])
                  + (if Utf16Len(t) > 254 then ["Email cannot exceed 254 characters"] else []);
    Piped(t, issues, EmailOptions)
  }

  function MessageIssues(value: string): seq<string> {
    var t := Trim(value);
    Piped(t, Bounds(Utf16Len(t), 10, "Message must be at least 10 characters", 6000, "Message is too long"), MessageOptions)
  }

  /** `phone`: absent, or trimmed and at most 25 units long, or the literal `''`;
      then a refinement that lets an empty value through and otherwise runs the
      checks with brackets and symbols refused. A too-long phone is kept as a
      failed first alternative of the union, so the refinement still runs on it. */
  function PhoneIssues(phone: Option<string>): (r: seq<string>)
    ensures phone.None? ==> r == []
  {
    if phone.None? then []
    else
      var t := Trim(phone.value);
      (if Utf16Len(t) > 25 then [PhoneTooLong] else [])
      + (if t != "" && ValidateSecurity(t, PhoneOptions).Invalid? then [PhoneInvalid] else [])
  }

  datatype FormIssues = FormIssues(firstName: seq<string>, lastName: seq<string>, email: seq<string>,
                                   message: seq<string>, phone: seq<string>)

  function CheckForm(form: ContactForm, emailFormatOk: bool): FormIssues {
    FormIssues(
      NameIssues(form.firstName, "First name cannot be empty", "First name cannot exceed 50 characters"),
      NameIssues(form.lastName, "Last name cannot be empty", "Last name cannot exceed 50 characters"),
      EmailIssues(form.email, emailFormatOk),
      MessageIssues(form.message),
      PhoneIssues(form.phone))
  }

  predicate NoIssues(f: FormIssues) {
    f.firstName == [] && f.lastName == [] && f.email == [] && f.message == [] && f.phone == []
  }

  /** A name field passes when it is 1 to 50 units long once trimmed and passes the
      checks with brackets and symbol runs refused. */
  predicate NameAccepted(value: string) {
    1 <= Utf16Len(Trim(value)) <= 50 && ValidateSecurity(Trim(value), NameOptions).Valid?
  }

  /** An empty or absent phone passes; any other must be at most 25 units long and
      pass the checks with brackets and symbols refused. */
  predicate PhoneAccepted(phone: Option<string>) {
    phone.None? || Trim(phone.value) == ""
    || (Utf16Len(Trim(phone.value)) <= 25 && ValidateSecurity(Trim(phone.value), PhoneOptions).Valid?)
  }

  /** The schema accepts a form exactly when every field meets its rule. */
  lemma FormAcceptedIff(form: ContactForm, emailFormatOk: bool)
    ensures NoIssues(CheckForm(form, emailFormatOk)) <==>
      && NameAccepted(form.firstName) && NameAccepted(form.lastName)
      && emailFormatOk && Utf16Len(Trim(form.email)) <= 254 && ValidateSecurity(Trim(form.email), EmailOptions).Valid?
      && 10 <= Utf16Len(Trim(form.message)) <= 6000 && ValidateSecurity(Trim(form.message), MessageOptions).Valid?
      && PhoneAccepted(form.phone)
  {
    NameAcceptedIff(form.firstName, "First name cannot be empty", "First name cannot exceed 50 characters");
    NameAcceptedIff(form.lastName, "Last name cannot be empty", "Last name cannot exceed 50 characters");
    EmailAcceptedIff(form.email, emailFormatOk);
    MessageAcceptedIff(form.message);
    PhoneAcceptedIff(form.phone);
  }

  lemma NameAcceptedIff(value: string, emptyMessage: string, longMessage: string)
    ensures NameIssues(value, emptyMessage, longMessage) == [] <==> NameAccepted(value)
  {
  }

  lemma EmailAcceptedIff(value: string, formatOk: bool)
    ensures EmailIssues(value, formatOk) == [] <==>
      formatOk && Utf16Len(Trim(value)) <= 254 && ValidateSecurity(Trim(value), EmailOptions).Valid?
  {
  }

  lemma MessageAcceptedIff(value: string)
    ensures MessageIssues(value) == [] <==>
      10 <= Utf16Len(Trim(value)) <= 6000 && ValidateSecurity(Trim(value), MessageOptions).Valid?
  {
  }

  lemma PhoneAcceptedIff(phone: Option<string>)
    ensures PhoneIssues(phone) == [] <==> PhoneAccepted(phone)
  {
    if phone.Some? && Trim(phone.value) == "" {
      assert Utf16Len(Trim(phone.value)) == 0;
    }
  }

  /** Fields are trimmed first: surrounding white space never changes a verdict. */
  lemma TrimmedFirst(form: ContactForm, emailFormatOk: bool)
    ensures CheckForm(form, emailFormatOk)
         == CheckForm(ContactForm(Trim(form.firstName), Trim(form.lastName), Trim(form.email), Trim(form.message),
                                  if form.phone.Some? then Some(Trim(form.phone.value)) else None), emailFormatOk)
  {
    NameTrimmed(form.firstName, "First name cannot be empty", "First name cannot exceed 50 characters");
    NameTrimmed(form.lastName, "Last name cannot be empty", "Last name cannot exceed 50 characters");
    EmailTrimmed(form.email, emailFormatOk);
    MessageTrimmed(form.message);
    PhoneTrimmed(form.phone);
  }

  lemma NameTrimmed(value: string, emptyMessage: string, longMessage: string)
    ensures NameIssues(value, emptyMessage, longMessage) == NameIssues(Trim(value), emptyMessage, longMessage)
  {
    TrimIdempotent(value);
  }

  lemma EmailTrimmed(value: string, formatOk: bool)
    ensures EmailIssues(value, formatOk) == EmailIssues(Trim(value), formatOk)
  {
    TrimIdempotent(value);
  }

  lemma MessageTrimmed(value: string)
    ensures MessageIssues(value) == MessageIssues(Trim(value))
  {
    TrimIdempotent(value);
  }

  lemma PhoneTrimmed(phone: Option<string>)
    ensures PhoneIssues(phone) == PhoneIssues(if phone.Some? then Some(Trim(phone.value)) else None)
  {
    if phone.Some? {
      TrimIdempotent(phone.value);
    }
  }
}
