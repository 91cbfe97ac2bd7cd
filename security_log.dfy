/** The security log of `security.js`: `securityLogger` turns a rejected request's
    validation issues into simple records and a one-line summary, and `writeToLog`
    frames the serialized record between rules of `=` and `-`. The JSON
    serialization and the append to the log file are not part of this model; the
    serialized text is an input to the framing. */
module SecurityLog {
  import opened Wrappers
  import opened Strings
  import opened DateStamp

  /** One segment of a zod issue path: an object key or an array index. */
  datatype PathKey = Key(name: string) | Index(i: nat)

  /** A zod issue as the logger reads it. `received` is the offending value's text,
      `None` when it is absent or any other falsy value. */
  datatype Issue = Issue(path: seq<PathKey>, code: string, message: string, received: Option<string>)

  /** One entry of `validationErrors`. */
  datatype SimpleError = SimpleError(field: string, issue: string, message: string, received: string)

  /** How `join` renders a path segment. */
  function KeyText(k: PathKey): string {
    match k
    case Key(name) => name
    case Index(i) => NatStr(i)
  }

  function KeyTexts(path: seq<PathKey>): (r: seq<string>)
    ensures |r| == |path| && forall k :: 0 <= k < |path| ==> r[k] == KeyText(path[k])
  {
    if path == [] then [] else [KeyText(path[0])] + KeyTexts(path[1..])
  }

  /** `err.path.join('.')`. */
  function FieldName(path: seq<PathKey>): string {
    Join(KeyTexts(path), ".")
  }

  /** The mapping of one issue; a falsy `received` is logged as `N/A`. */
  function Simplify(e: Issue): SimpleError {
    SimpleError(FieldName(e.path), e.code, e.message, if Truthy(e.received) then e.received.value else "N/A")
  }

  /** `error?.errors?.map(…) || []`: no list of issues gives no entries. */
  function SimpleErrors(errors: Option<seq<Issue>>): (r: seq<SimpleError>)
    ensures errors.None? ==> r == []
    ensures errors.Some? ==> |r| == |errors.value| && r == SimplifyAll(errors.value)
  {
    if errors.None? then [] else SimplifyAll(errors.value)
  }

  function SimplifyAll(es: seq<Issue>): (r: seq<SimpleError>)
    ensures |r| == |es|
    ensures forall k :: 0 <= k < |es| ==> r[k] == Simplify(es[k])
  {
    if es == [] then [] else [Simplify(es[0])] + SimplifyAll(es[1..])
  }

  /** `field: issue`, one pair of the summary. */
  function Pair(e: SimpleError): string {
    e.field + ": " + e.issue
  }

  function Pairs(es: seq<SimpleError>): (r: seq<string>)
    ensures |r| == |es| && forall k :: 0 <= k < |es| ==> r[k] == Pair(es[k])
  {
    if es == [] then [] else [Pair(es[0])] + Pairs(es[1..])
  }

  /** `errorSummary`: the pairs in order, separated by `, `. */
  function ErrorSummary(es: seq<SimpleError>): string {
    Join(Pairs(es), ", ")
  }

  /** The request facts the record keeps besides the issues. */
  datatype RequestInfo = RequestInfo(ip: Option<string>, userAgent: Option<string>)

  /** `logObj`, without `originalBody`. */
  datatype LogRecord = LogRecord(timestamp: string, ip: string, userAgent: string,
                                 validationErrors: seq<SimpleError>, errorSummary: string)

  /** The record `securityLogger` builds at local time `t`; a falsy ip or user agent
      is logged as `unknown`. */
  function Record(req: RequestInfo, errors: Option<seq<Issue>>, t: LocalTime): (r: LogRecord)
    requires ValidTime(t)
    ensures r.timestamp == NormalDateTime(t)
    ensures r.ip == "unknown" <==> !Truthy(req.ip) || req.ip.value == "unknown"
    ensures r.userAgent == "unknown" <==> !Truthy(req.userAgent) || req.userAgent.value == "unknown"
    ensures r.errorSummary == ErrorSummary(r.validationErrors)
    ensures |r.validationErrors| == (if errors.Some? then |errors.value| else 0)
    ensures r.validationErrors == SimpleErrors(errors)
    ensures Truthy(req.ip) ==> r.ip == req.ip.value
    ensures Truthy(req.userAgent) ==> r.userAgent == req.userAgent.value
  {
    var simple := SimpleErrors(errors);
    LogRecord(NormalDateTime(t),
              if Truthy(req.ip) then req.ip.value else "unknown",
              if Truthy(req.userAgent) then req.userAgent.value else "unknown",
              simple, ErrorSummary(simple))
  }

  // ---------------------------------------------------------------- properties of the mapping

  /** Each entry keeps its issue's code and message, and its received value unless
      that was falsy. */
  lemma SimplifyKeeps(e: Issue)
    ensures Simplify(e).issue == e.code && Simplify(e).message == e.message
    ensures Simplify(e).received == "N/A" <==> !Truthy(e.received) || e.received.value == "N/A"
    ensures Truthy(e.received) ==> Simplify(e).received == e.received.value
    ensures Simplify(e).field == FieldName(e.path)
  {
  }

  /** The field name reads back as the path when no key contains a dot. */
  lemma FieldNameReadsBack(path: seq<PathKey>)
    requires |path| >= 1
    requires forall k :: 0 <= k < |path| && path[k].Key? ==> '.' !in path[k].name
    ensures Split(FieldName(path), '.') == KeyTexts(path)
  {
    var texts := KeyTexts(path);
    forall k | 0 <= k < |texts| ensures '.' !in texts[k] {
      if path[k].Index? {
        DigitsHaveNo(NatStr(path[k].i), '.');
      }
    }
    SplitJoin(texts, '.');
  }

  /** The summary is empty exactly when there are no issues: every pair holds `: `. */
  lemma SummaryEmptyIff(es: seq<SimpleError>)
    ensures ErrorSummary(es) == "" <==> es == []
  {
    if |es| == 1 {
      assert |Pair(es[0])| >= 2;
    } else if |es| > 1 {
      assert |ErrorSummary(es)| >= |Pair(es[0])|;
    }
  }

  /** No issue list at all gives no entries and an empty summary. */
  lemma MissingErrorsLogNothing(req: RequestInfo, t: LocalTime)
    requires ValidTime(t)
    ensures Record(req, None, t).validationErrors == [] && Record(req, None, t).errorSummary == ""
  {
  }

  /** One more issue appends `, ` and its pair to the summary, so the pairs stay in
      the order of the issues. */
  lemma SummarySnoc(es: seq<SimpleError>, e: SimpleError)
    requires es != []
    ensures ErrorSummary(es + [e]) == ErrorSummary(es) + ", " + Pair(e)
  {
    assert Pairs(es + [e]) == Pairs(es) + [Pair(e)];
    JoinSnoc(Pairs(es), Pair(e), ", ");
  }

  // ---------------------------------------------------------------- log entry framing

  const ThickRule := Repeat('=', 80)
  const ThinRule := Repeat('-', 80)

  /** The heading line of an entry. */
  function EventLine(t: LocalTime): string
    requires ValidTime(t)
  {
    "SECURITY EVENT - " + NormalDateTime(t)
  }

  /** `logEntry`: a blank line, a rule of `=`, the heading, another rule, the
      content, a rule of `-`, and the template's closing indentation. */
  function LogEntry(t: LocalTime, content: string): string
    requires ValidTime(t)
  {
    "\n" + ThickRule + "\n" + EventLine(t) + "\n" + ThickRule + "\n" + content + "\n" + ThinRule + "\n    "
  }

  lemma StampHasNoNewline(t: LocalTime)
    requires ValidTime(t)
    ensures '\n' !in NormalDateTime(t)
  {
    DateHasNoNewline(t);
    ClockHasNoNewline(t);
  }

  lemma DateHasNoNewline(t: LocalTime)
    requires ValidTime(t)
    ensures '\n' !in NormalDate(t)
  {
    var f := DateFields(t);
    DateFieldsHaveNoUnderscore(t);
    DigitsHaveNo(f[0], '\n');
    DigitsHaveNo(f[1], '\n');
    DigitsHaveNo(f[2], '\n');
  }

  lemma ClockHasNoNewline(t: LocalTime)
    requires ValidTime(t)
    ensures '\n' !in ClockField(t)
  {
    PadTwoField(t.hours);
    PadTwoField(t.minutes);
    DigitsHaveNo(PadTwo(t.hours), '\n');
    DigitsHaveNo(PadTwo(t.minutes), '\n');
  }

  /** A rule of one repeated character holds no other character. */
  lemma RuleFree(c: char, n: nat, x: char)
    requires x != c
    ensures x !in Repeat(c, n)
  {
  }

  /** The entry's text regrouped line by line. */
  lemma FrameNesting(rule: string, h: string, content: string, close: string)
    ensures "\n" + rule + "\n" + h + "\n" + rule + "\n" + content + "\n" + close + "\n    "
         == "" + "\n" + (rule + "\n" + (h + "\n" + (rule + "\n" + (content + "\n" + (close + "\n" + "    ")))))
  {
  }

  /** The lines of text framed like an entry, for any separator-free frame lines. */
  lemma FrameLines(rule: string, h: string, content: string, close: string)
    requires '\n' !in rule && '\n' !in h && '\n' !in close
    ensures Split("\n" + rule + "\n" + h + "\n" + rule + "\n" + content + "\n" + close + "\n    ", '\n')
         == ["", rule, h, rule] + Split(content, '\n') + [close, "    "]
  {
    var r5 := close + "\n" + "    ";
    LineThen(close, "    ");
    SplitLine("    ", '\n');
    var r4 := content + "\n" + r5;
    SplitAround(content, r5, '\n');
    var r3 := rule + "\n" + r4;
    LineThen(rule, r4);
    var r2 := h + "\n" + r3;
    LineThen(h, r3);
    var r1 := rule + "\n" + r2;
    LineThen(rule, r2);
    LineThen("", r1);
    FrameNesting(rule, h, content, close);
  }

  /** The lines of an entry are four frame lines, the content's own lines, the
      closing rule and the trailing indentation, whatever the content holds. */
  lemma LogEntryLines(t: LocalTime, content: string)
    requires ValidTime(t)
    ensures Split(LogEntry(t, content), '\n')
         == ["", ThickRule, EventLine(t), ThickRule] + Split(content, '\n') + [ThinRule, "    "]
  {
    StampHasNoNewline(t);
    RuleFree('=', 80, '\n');
    RuleFree('-', 80, '\n');
    FrameLines(ThickRule, EventLine(t), content, ThinRule);
  }
}
