/** The client-side field validators of the input component: the preset rules
    `required`, `minLength`, `maxLength`, `email` and `strongPassword`, and the
    loop that runs a field's rules on its (non-null) value and splits the failures
    into errors and warnings. Characters are Unicode scalar values; a JavaScript
    `length` counts UTF-16 code units, which `Utf16Length` makes explicit. */
module ValidationRules {

  import opened Common

  /** The characters JavaScript's `\s` and `String.prototype.trim` treat as white space. */
  predicate IsJsSpace(c: char)
  {
    || ('\U{9}' <= c <= '\U{D}') || c == ' ' || c == '\U{A0}' || c == '\U{1680}'
    || ('\U{2000}' <= c <= '\U{200A}') || c == '\U{2028}' || c == '\U{2029}' || c == '\U{202F}'
    || c == '\U{205F}' || c == '\U{3000}' || c == '\U{FEFF}'
  }

  /** `s.length`: characters outside the Basic Multilingual Plane take two code units. */
  function Utf16Length(s: string): (n: nat)
    ensures |s| <= n <= 2 * |s|
  {
    if |s| == 0 then 0 else (if s[0] as int >= 0x10000 then 2 else 1) + Utf16Length(s[1..])
  }

  function TrimStart(s: string): string
  {
    if |s| > 0 && IsJsSpace(s[0]) then TrimStart(s[1..]) else s
  }

  function TrimEnd(s: string): string
  {
    if |s| > 0 && IsJsSpace(s[|s| - 1]) then TrimEnd(s[..|s| - 1]) else s
  }

  /** `s.trim()` */
  function Trim(s: string): string
  {
    TrimEnd(TrimStart(s))
  }

  /** Some character of the value is not white space. */
  predicate HasNonSpace(s: string)
  {
    exists i :: 0 <= i < |s| && !IsJsSpace(s[i])
  }

  lemma {:induction false} TrimStartNonEmpty(s: string)
    ensures |TrimStart(s)| > 0 <==> HasNonSpace(s)
    ensures |TrimStart(s)| > 0 ==> !IsJsSpace(TrimStart(s)[0])
    ensures HasNonSpace(TrimStart(s)) <==> HasNonSpace(s)
    decreases |s|
  {
    if |s| > 0 && IsJsSpace(s[0]) {
      TrimStartNonEmpty(s[1..]);
      if HasNonSpace(s) {
        var i :| 0 <= i < |s| && !IsJsSpace(s[i]);
        assert s[1..][i - 1] == s[i];
      }
      if HasNonSpace(s[1..]) {
        var i :| 0 <= i < |s[1..]| && !IsJsSpace(s[1..][i]);
        assert s[i + 1] == s[1..][i];
      }
    }
  }

  lemma {:induction false} TrimEndKeepsFirst(s: string)
    requires |s| > 0 && !IsJsSpace(s[0])
    ensures |TrimEnd(s)| > 0 && TrimEnd(s)[0] == s[0]
    decreases |s|
  {
    if IsJsSpace(s[|s| - 1]) {
      TrimEndKeepsFirst(s[..|s| - 1]);
    }
  }

  /** A value trims to something non-empty exactly when it has a character that is
      not white space. */
  lemma TrimNonEmpty(s: string)
    ensures |Trim(s)| > 0 <==> HasNonSpace(s)
  {
    TrimStartNonEmpty(s);
    if |TrimStart(s)| > 0 {
      TrimEndKeepsFirst(TrimStart(s));
    }
  }

  /** A character that is neither white space nor `@` (the class `[^\s@]`). */
  predicate EmailChar(c: char)
  {
    !IsJsSpace(c) && c != '@'
  }

  predicate EmailRun(s: string)
  {
    forall i :: 0 <= i < |s| ==> EmailChar(s[i])
  }

  /** The language of `^[^\s@]+@[^\s@]+\.[^\s@]+$`: three non-empty runs, the
      first two joined by `@` and the last two by `.`. */
  predicate EmailRegexMatches(v: string)
  {
    exists at, dot :: 0 < at && at + 1 < dot && dot + 1 < |v|
      && v[at] == '@' && v[dot] == '.'
      && EmailRun(v[..at]) && EmailRun(v[at + 1..dot]) && EmailRun(v[dot + 1..])
  }

  /** A `.` with at least one character on each side. */
  predicate HasInnerDot(d: string)
  {
    exists k :: 0 < k < |d| - 1 && d[k] == '.'
  }

  /** The shape of an address: a non-empty local part and a domain, separated by
      `@`, neither holding white space or `@`, the domain holding a `.` with at
      least one character on each side. */
  predicate EmailShape(v: string)
  {
    exists at :: 0 < at < |v| && v[at] == '@' && EmailRun(v[..at]) && EmailRun(v[at + 1..]) && HasInnerDot(v[at + 1..])
  }

  lemma RegexMatchHasShape(v: string, at: int, dot: int)
    requires 0 < at && at + 1 < dot && dot + 1 < |v| && v[at] == '@' && v[dot] == '.'
    requires EmailRun(v[..at]) && EmailRun(v[at + 1..dot]) && EmailRun(v[dot + 1..])
    ensures EmailShape(v)
  {
    var d, mid, tail := v[at + 1..], v[at + 1..dot], v[dot + 1..];
    assert d == mid + [v[dot]] + tail;
    forall i | 0 <= i < |d| ensures EmailChar(d[i]) {
      if i < |mid| {
        assert d[i] == mid[i];
      } else if i > |mid| {
        assert d[i] == tail[i - |mid| - 1];
      }
    }
    assert d[|mid|] == '.';
    assert HasInnerDot(d);
  }

  lemma ShapeMatchesRegex(v: string, at: int, k: int)
    requires 0 < at < |v| && v[at] == '@' && EmailRun(v[..at]) && EmailRun(v[at + 1..])
    requires 0 < k < |v[at + 1..]| - 1 && v[at + 1..][k] == '.'
    ensures EmailRegexMatches(v)
  {
    var d := v[at + 1..];
    var dot := at + 1 + k;
    var mid, tail := v[at + 1..dot], v[dot + 1..];
    assert d == mid + [v[dot]] + tail;
    forall i | 0 <= i < |mid| ensures EmailChar(mid[i]) {
      assert mid[i] == d[i];
    }
    forall i | 0 <= i < |tail| ensures EmailChar(tail[i]) {
      assert tail[i] == d[k + 1 + i];
    }
  }

  /** The regular expression accepts exactly the addresses of that shape. */
  lemma EmailRegexIff(v: string)
    ensures EmailRegexMatches(v) <==> EmailShape(v)
  {
    if EmailRegexMatches(v) {
      var at, dot :| 0 < at && at + 1 < dot && dot + 1 < |v|
        && v[at] == '@' && v[dot] == '.'
        && EmailRun(v[..at]) && EmailRun(v[at + 1..dot]) && EmailRun(v[dot + 1..]);
      RegexMatchHasShape(v, at, dot);
    }
    if EmailShape(v) {
      var at :| 0 < at < |v| && v[at] == '@' && EmailRun(v[..at]) && EmailRun(v[at + 1..]) && HasInnerDot(v[at + 1..]);
      var k :| 0 < k < |v[at + 1..]| - 1 && v[at + 1..][k] == '.';
      ShapeMatchesRegex(v, at, k);
    }
  }

  /** `/\d/`: an ASCII digit. */
  predicate HasDigit(v: string)
  {
    exists i :: 0 <= i < |v| && '0' <= v[i] <= '9'
  }

  /** `/[a-zA-Z]/`: an ASCII letter. */
  predicate HasLetter(v: string)
  {
    exists i :: 0 <= i < |v| && ('a' <= v[i] <= 'z' || 'A' <= v[i] <= 'Z')
  }

  /** The decimal digits of a natural number. */
  function NatDigits(n: nat): string
    decreases n
  {
    var d := ['0' + (n % 10) as char];
    if n < 10 then d else NatDigits(n / 10) + d
  }

  /** An integer as a template literal prints it. */
  function IntText(n: int): string
  {
    if n < 0 then "-" + NatDigits(-n) else NatDigits(n)
  }

  /** A preset rule with its arguments; `None` is an argument left out. */
  datatype Rule =
    | Required(message: Option<string>)
    | MinLength(min: int, message: Option<string>)
    | MaxLength(max: int, message: Option<string>)
    | Email(message: Option<string>)
    | StrongPassword(message: Option<string>)

  /** What awaiting one rule gives: valid, a failure with its message and severity,
      or an exception. */
  datatype Outcome = Passed | Failed(message: string, severity: string) | Threw

  /** A default parameter: used only when the argument is left out. */
  function OrDefault(message: Option<string>, default: string): string
  {
    if message.Some? then message.value else default
  }

  /** `message || default`: an empty message falls back to the default too. */
  function OrElse(message: Option<string>, default: string): string
  {
    if message.Some? && message.value != "" then message.value else default
  }

  /** The message a rule reports when it fails. */
  function MessageOf(rule: Rule): string
  {
    match rule
    case Required(m) => OrDefault(m, "Поле обязательно для заполнения")
    case MinLength(min, m) => OrElse(m, "Минимум " + IntText(min) + " символов")
    case MaxLength(max, m) => OrElse(m, "Максимум " + IntText(max) + " символов")
    case Email(m) => OrDefault(m, "Введите корректный email")
    case StrongPassword(m) => OrDefault(m, "Пароль должен содержать минимум 8 символов, включая цифры и буквы")
  }

  /** The preset rule's `validate`, on a value that is neither `undefined` nor `null`. */
  function Check(rule: Rule, value: string): Outcome
  {
    var ok := match rule
      case Required(_) => |Trim(value)| > 0
      case MinLength(min, _) => value == "" || Utf16Length(value) >= min
      case MaxLength(max, _) => value == "" || Utf16Length(value) <= max
      case Email(_) => value == "" || EmailRegexMatches(value)
      case StrongPassword(_) => value == "" || (Utf16Length(value) >= 8 && HasDigit(value) && HasLetter(value));
    if ok then Passed else Failed(MessageOf(rule), "error")
  }

  /** What each preset rule accepts, stated without the implementation's trimming
      and regular expression: `required` wants a character that is not white space;
      the others accept the empty value and otherwise the length bound, the address
      shape, or eight code units with an ASCII digit and an ASCII letter. */
  predicate Accepts(rule: Rule, value: string)
  {
    match rule
    case Required(_) => HasNonSpace(value)
    case MinLength(min, _) => value == "" || Utf16Length(value) >= min
    case MaxLength(max, _) => value == "" || Utf16Length(value) <= max
    case Email(_) => value == "" || EmailShape(value)
    case StrongPassword(_) => value == "" || (Utf16Length(value) >= 8 && HasDigit(value) && HasLetter(value))
  }

  /** A preset rule passes exactly when it accepts the value, and otherwise fails
      as an error with its message; it never throws. */
  lemma CheckIff(rule: Rule, value: string)
    ensures Check(rule, value).Passed? <==> Accepts(rule, value)
    ensures !Check(rule, value).Passed? ==> Check(rule, value) == Failed(MessageOf(rule), "error")
  {
    match rule
    case Required(_) => TrimNonEmpty(value);
    case MinLength(_, _) =>
    case MaxLength(_, _) =>
    case Email(_) => EmailRegexIff(value);
    case StrongPassword(_) =>
  }

  /** The messages one outcome adds to the error list. */
  function ErrorOf(o: Outcome): seq<string>
  {
    match o
    case Passed => []
    case Failed(m, severity) => if severity == "warning" then [] else [m]
    case Threw => ["Ошибка валидации"]
  }

  /** The messages one outcome adds to the warning list. */
  function WarningOf(o: Outcome): seq<string>
  {
    match o
    case Failed(m, severity) => if severity == "warning" then [m] else []
    case _ => []
  }

  /** The error list after the rules with these outcomes, in rule order. */
  function Errors(os: seq<Outcome>): seq<string>
  {
    if |os| == 0 then [] else Errors(os[..|os| - 1]) + ErrorOf(os[|os| - 1])
  }

  /** The warning list after the rules with these outcomes, in rule order. */
  function Warnings(os: seq<Outcome>): seq<string>
  {
    if |os| == 0 then [] else Warnings(os[..|os| - 1]) + WarningOf(os[|os| - 1])
  }

  /** The number of rules that did not pass. */
  function Failures(os: seq<Outcome>): nat
  {
    if |os| == 0 then 0 else Failures(os[..|os| - 1]) + (if os[|os| - 1].Passed? then 0 else 1)
  }

  /** An outcome that leaves the field valid: a pass or a warning. */
  predicate Harmless(o: Outcome)
  {
    o.Passed? || (o.Failed? && o.severity == "warning")
  }

  /** The loop of `validateAsync`: each rule's outcome, in order, adds its message
      to the warnings when its severity is "warning" and to the errors otherwise;
      the field is valid when no error was collected. */
  method Aggregate(outcomes: seq<Outcome>) returns (isValid: bool, errors: seq<string>, warnings: seq<string>)
    ensures errors == Errors(outcomes) && warnings == Warnings(outcomes)
    ensures isValid <==> |errors| == 0
  {
    errors := [];
    warnings := [];
    for i := 0 to |outcomes|
      invariant errors == Errors(outcomes[..i])
      invariant warnings == Warnings(outcomes[..i])
    {
      assert outcomes[..i + 1][..i] == outcomes[..i];
      match outcomes[i]
      case Passed =>
      case Failed(message, severity) =>
        if severity == "warning" {
          warnings := warnings + [message];
        } else {
          errors := errors + [message];
        }
      case Threw =>
        errors := errors + ["Ошибка валидации"];
    }
    assert outcomes[..|outcomes|] == outcomes;
    isValid := |errors| == 0;
  }

  /** Rule order is kept: the error lists of two runs of rules concatenate. */
  lemma {:induction false} ErrorsConcatenate(a: seq<Outcome>, b: seq<Outcome>)
    ensures Errors(a + b) == Errors(a) + Errors(b)
    decreases |b|
  {
    if |b| == 0 {
      assert a + b == a;
    } else {
      var init, last := b[..|b| - 1], b[|b| - 1];
      assert (a + b)[..|a + b| - 1] == a + init;
      assert (a + b)[|a + b| - 1] == last;
      ErrorsConcatenate(a, init);
      calc {
        Errors(a + b);
        Errors(a + init) + ErrorOf(last);
        Errors(a) + Errors(init) + ErrorOf(last);
        Errors(a) + (Errors(init) + ErrorOf(last));
      }
    }
  }

  /** Rule order is kept: the warning lists of two runs of rules concatenate. */
  lemma {:induction false} WarningsConcatenate(a: seq<Outcome>, b: seq<Outcome>)
    ensures Warnings(a + b) == Warnings(a) + Warnings(b)
    decreases |b|
  {
    if |b| == 0 {
      assert a + b == a;
    } else {
      var init, last := b[..|b| - 1], b[|b| - 1];
      assert (a + b)[..|a + b| - 1] == a + init;
      assert (a + b)[|a + b| - 1] == last;
      WarningsConcatenate(a, init);
      calc {
        Warnings(a + b);
        Warnings(a + init) + WarningOf(last);
        Warnings(a) + Warnings(init) + WarningOf(last);
        Warnings(a) + (Warnings(init) + WarningOf(last));
      }
    }
  }

  /** Every failing rule lands in exactly one of the two lists. */
  lemma {:induction false} ListsPartitionFailures(os: seq<Outcome>)
    ensures |Errors(os)| + |Warnings(os)| == Failures(os)
    decreases |os|
  {
    if |os| > 0 {
      ListsPartitionFailures(os[..|os| - 1]);
    }
  }

  /** The field is valid exactly when every rule passed or only warned. */
  lemma {:induction false} ValidIff(os: seq<Outcome>)
    ensures |Errors(os)| == 0 <==> forall i :: 0 <= i < |os| ==> Harmless(os[i])
    decreases |os|
  {
    if |os| > 0 {
      var init := os[..|os| - 1];
      ValidIff(init);
      forall i | 0 <= i < |init| ensures init[i] == os[i] { }
    }
  }

  /** The outcomes of a field's preset rules on its value, in order. */
  function Outcomes(rules: seq<Rule>, value: string): seq<Outcome>
  {
    seq(|rules|, i requires 0 <= i < |rules| => Check(rules[i], value))
  }

  /** With preset rules only, the field is valid exactly when every rule accepts the
      value, and no warning is ever collected. */
  lemma PresetRulesValidIff(rules: seq<Rule>, value: string)
    ensures |Errors(Outcomes(rules, value))| == 0 <==> forall i :: 0 <= i < |rules| ==> Accepts(rules[i], value)
    ensures Warnings(Outcomes(rules, value)) == []
  {
    var os := Outcomes(rules, value);
    ValidIff(os);
    forall i | 0 <= i < |rules| ensures Harmless(os[i]) <==> Accepts(rules[i], value) {
      CheckIff(rules[i], value);
    }
    NoWarnings(os);
  }

  lemma {:induction false} NoWarnings(os: seq<Outcome>)
    requires forall i :: 0 <= i < |os| ==> os[i].Passed? || (os[i].Failed? && os[i].severity == "error")
    ensures Warnings(os) == []
    decreases |os|
  {
    if |os| > 0 {
      var init := os[..|os| - 1];
      forall i | 0 <= i < |init| ensures init[i] == os[i] { }
      NoWarnings(init);
    }
  }
}
