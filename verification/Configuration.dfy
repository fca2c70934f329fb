/** A box's runtime configuration: the normal form of a value and of a whole
  * submission, the secrets a page cannot send back, and what saving does. */
module Configuration {
  import opened Tables

  datatype FieldKind =
    | Boolean
    | Number(min: int, max: int)
    | Choice(options: seq<string>)
    | Text(maxLength: nat, isSecret: bool)

  const MAX_VALUE_LENGTH: nat := 2048
  const LOG_LEVELS: seq<string> := ["trace", "debug", "info", "warn", "error"]
  const SESSION_LIFETIMES: seq<string> := ["browser", "8h", "1d", "7d", "30d"]

  /** The variables an owner may set, and what each takes. */
  function FieldOf(key: string): Option<FieldKind> {
    if key in {"COMPOSERY_DISABLE_AUTH", "COMPOSERY_DISABLE_FILE_DOWNLOADS", "COMPOSERY_DISABLE_FILE_UPLOADS",
               "COMPOSERY_DISABLE_PROXY", "COMPOSERY_DISABLE_API", "COMPOSERY_DISABLE_GETTING_STARTED_OVERRIDE"}
    then Some(Boolean)
    else if key == "COMPOSERY_LOG_LEVEL" then Some(Choice(LOG_LEVELS))
    else if key == "COMPOSERY_SESSION_LIFETIME" then Some(Choice(SESSION_LIFETIMES))
    else if key in {"COMPOSERY_PROXY_URI", "HTTPS_PROXY", "HTTP_PROXY"} then Some(Text(512, false))
    else if key == "COMPOSERY_EXTENSIONS_GALLERY" then Some(Text(MAX_VALUE_LENGTH, false))
    else if key == "COMPOSERY_GITHUB_TOKEN" then Some(Text(512, true))
    else if key == "COMPOSERY_COOKIE_SUFFIX" then Some(Text(128, false))
    else if key == "LANG" then Some(Text(64, false))
    else if key in {"COMPOSERY_RECONNECTION_GRACE_TIME", "COMPOSERY_IDLE_TIMEOUT_SECONDS"} then Some(Number(0, 86_400))
    else if key == "COMPOSERY_API_TERMINAL_TIMEOUT" then Some(Number(1, 86_400))
    else if key == "COMPOSERY_API_TERMINAL_MAX_OUTPUT" then Some(Number(1, 67_108_864))
    else if key in {"COMPOSERY_API_RATE_RPS", "COMPOSERY_API_AUTH_FAIL_PER_MIN"} then Some(Number(1, 1000))
    else if key == "COMPOSERY_API_RATE_BURST" then Some(Number(1, 10_000))
    else if key == "COMPOSERY_API_MAX_SESSIONS" then Some(Number(1, 500))
    else None
  }

  predicate IsSecretKey(key: string) {
    FieldOf(key).Some? && FieldOf(key).value.Text? && FieldOf(key).value.isSecret
  }

  const SECRET_CONFIG_KEYS: seq<string> := ["COMPOSERY_GITHUB_TOKEN"]

  // ---- Text ----

  /** What `trim` takes off: the white space and line terminators of ECMAScript. */
  predicate IsSpace(c: char) {
    || '\U{9}' <= c <= '\U{D}' || c == ' ' || c == '\U{A0}' || c == '\U{1680}' || '\U{2000}' <= c <= '\U{200A}'
    || c == '\U{2028}' || c == '\U{2029}' || c == '\U{202F}' || c == '\U{205F}' || c == '\U{3000}' || c == '\U{FEFF}'
  }

  function TrimStart(s: string): (r: string)
    ensures r == "" || !IsSpace(r[0])
    ensures |r| <= |s| && r == s[|s| - |r|..]
  {
    if s == "" || !IsSpace(s[0]) then s else TrimStart(s[1..])
  }

  function TrimEnd(s: string): (r: string)
    ensures r == "" || !IsSpace(r[|r| - 1])
    ensures |r| <= |s| && r == s[..|r|]
  {
    if s == "" || !IsSpace(s[|s| - 1]) then s else TrimEnd(s[..|s| - 1])
  }

  function Trim(s: string): string {
    TrimEnd(TrimStart(s))
  }

  /** No white space at either end. */
  predicate IsTrimmed(s: string) {
    s == "" || (!IsSpace(s[0]) && !IsSpace(s[|s| - 1]))
  }

  /** Length as the program measures it, in UTF-16 code units. */
  function Utf16Length(s: string): nat {
    if s == "" then 0 else Utf16Length(s[..|s| - 1]) + if s[|s| - 1] > '\U{FFFF}' then 2 else 1
  }

  predicate BreaksQuoting(c: char) {
    c == '\r' || c == '\n' || c == '\''
  }

  predicate IsQuotable(s: string) {
    forall i :: 0 <= i < |s| ==> !BreaksQuoting(s[i])
  }

  // ---- Whole numbers ----

  const MAX_SAFE_INTEGER: int := 9_007_199_254_740_991

  predicate IsDigit(c: char) {
    '0' <= c <= '9'
  }

  predicate AllDigits(s: string) {
    forall i :: 0 <= i < |s| ==> IsDigit(s[i])
  }

  /** `-?\d+`, the whole of it. */
  predicate IsWholeNumber(s: string) {
    if s != "" && s[0] == '-' then |s| > 1 && AllDigits(s[1..]) else s != "" && AllDigits(s)
  }

  function ParseDigits(s: string): nat
    requires AllDigits(s)
  {
    if s == "" then 0 else ParseDigits(s[..|s| - 1]) * 10 + (s[|s| - 1] as int - '0' as int)
  }

  function ParseWhole(s: string): int
    requires IsWholeNumber(s)
  {
    if s[0] == '-' then 0 - ParseDigits(s[1..]) else ParseDigits(s)
  }

  function PrintDigits(n: nat): (s: string)
    ensures s != "" && AllDigits(s)
  {
    var digit := ('0' as int + n % 10) as char;
    if n < 10 then [digit] else PrintDigits(n / 10) + [digit]
  }

  function PrintWhole(n: int): string {
    if n < 0 then "-" + PrintDigits(-n) else PrintDigits(n)
  }

  // ---- One value ----

  datatype ValueError = NotTrueOrFalse | NotWhole | OutOfRange | NotAnOption | TooLong | Unquotable
  datatype Normalized = Ok(value: string) | Rejected(error: ValueError)

  function NormalizeNumber(min: int, max: int, value: string): Normalized {
    if !IsWholeNumber(value) then Rejected(NotWhole)
    else
      var parsed := ParseWhole(value);
      if !(-MAX_SAFE_INTEGER <= parsed <= MAX_SAFE_INTEGER) then Rejected(NotWhole)
      else if parsed < min || parsed > max then Rejected(OutOfRange)
      else Ok(PrintWhole(parsed))
  }

  function NormalizeValue(kind: FieldKind, raw: string): Normalized {
    var value := Trim(raw);
    match kind
    case Boolean =>
      if value == "1" || value == "true" then Ok("1")
      else if value == "0" || value == "false" || value == "" then Ok("0")
      else Rejected(NotTrueOrFalse)
    case Number(min, max) => NormalizeNumber(min, max, value)
    case Choice(options) => if value in options then Ok(value) else Rejected(NotAnOption)
    case Text(maxLength, isSecret) =>
      if Utf16Length(value) > maxLength then Rejected(TooLong)
      else if !IsQuotable(value) then Rejected(Unquotable)
      else Ok(value)
  }

  // ---- A whole submission ----

  type Config = map<string, string>

  predicate EntryAccepted(key: string, raw: string) {
    FieldOf(key).Some? && NormalizeValue(FieldOf(key).value, raw).Ok?
  }

  function NormalForm(key: string, raw: string): string
    requires EntryAccepted(key, raw)
  {
    NormalizeValue(FieldOf(key).value, raw).value
  }

  /** An empty value of anything but a boolean means unset. */
  predicate IsKept(key: string, raw: string)
    requires EntryAccepted(key, raw)
  {
    FieldOf(key).value.Boolean? || NormalForm(key, raw) != ""
  }

  predicate Accepted(input: Config) {
    forall key :: key in input ==> EntryAccepted(key, input[key])
  }

  function NormalizeRuntimeConfig(input: Config): Option<Config> {
    if !Accepted(input) then None
    else Some(map key | key in input && IsKept(key, input[key]) :: NormalForm(key, input[key]))
  }

  /** The secrets a submission says nothing about, where the box has one. */
  function KeptSecrets(stored: Config, submitted: set<string>): Config {
    map key | key in stored && IsSecretKey(key) && key !in submitted && stored[key] != "" :: stored[key]
  }

  function ApplySecretIntent(normalized: Config, stored: Config, submitted: set<string>): Config {
    normalized + KeptSecrets(stored, submitted)
  }

  /** What the page is given: every value but the secrets, which it gets blank. */
  function Get(stored: Config): Config {
    map key | key in stored :: if IsSecretKey(key) then "" else stored[key]
  }

  function Save(stored: Config, submitted: Config): Option<Config> {
    var normalized := NormalizeRuntimeConfig(submitted);
    if normalized.None? then None else Some(ApplySecretIntent(normalized.value, stored, submitted.Keys))
  }

  // ---- Runs ----

  /** The configuration the box last booted with, and the one being applied. */
  datatype World = World(stored: Config, applying: Option<Config>)

  datatype Action = Submit(config: Config) | Applied | ApplyFailed

  /** A save starts an operation, and a box runs one at a time; the stored
    * configuration advances only when the box has answered on the new one. */
  function Apply(w: World, a: Action): World {
    match a
    case Submit(config) =>
      if w.applying.Some? then w else w.(applying := Save(w.stored, config))
    case Applied => if w.applying.None? then w else World(w.applying.value, None)
    case ApplyFailed => w.(applying := None)
  }

  function Exec(w: World, actions: seq<Action>): World {
    if actions == [] then w else Apply(Exec(w, actions[..|actions| - 1]), actions[|actions| - 1])
  }

  const FRESH := World(map[], None)
}

/** Normal forms are fixed points, and a page that saves back what it was given
  * changes nothing it was not given. */
module ConfigurationRoundTrip {
  import opened Tables
  import opened Configuration

  // ---- Trimming ----

  lemma TrimmedIsTrimmed(s: string)
    ensures IsTrimmed(Trim(s))
    ensures IsTrimmed(s) ==> Trim(s) == s
  {}

  predicate AllSpace(s: string) {
    forall i :: 0 <= i < |s| ==> IsSpace(s[i])
  }

  /** Nothing but white space around it. */
  predicate IsPadded(raw: string, value: string) {
    exists i, j :: 0 <= i <= j <= |raw| && raw[i..j] == value && AllSpace(raw[..i]) && AllSpace(raw[j..])
  }

  lemma SpacesAdd(a: string, b: string)
    requires AllSpace(a) && AllSpace(b)
    ensures AllSpace(a + b)
  {
    hide IsSpace;
  }

  lemma {:induction false} TrimStartTakesSpace(s: string)
    ensures AllSpace(s[..|s| - |TrimStart(s)|])
  {
    hide IsSpace;
    if s != "" && IsSpace(s[0]) {
      var rest := s[1..];
      TrimStartTakesSpace(rest);
      var taken := rest[..|rest| - |TrimStart(rest)|];
      SpacesAdd([s[0]], taken);
      hide AllSpace;
      assert s[..|taken| + 1] == [s[0]] + taken;
    }
  }

  lemma {:induction false} TrimEndTakesSpace(s: string)
    ensures AllSpace(s[|TrimEnd(s)|..])
  {
    hide IsSpace;
    if s != "" && IsSpace(s[|s| - 1]) {
      var rest := s[..|s| - 1];
      TrimEndTakesSpace(rest);
      var taken := rest[|TrimEnd(rest)|..];
      SpacesAdd(taken, [s[|s| - 1]]);
      hide AllSpace;
      assert s[|TrimEnd(rest)|..] == taken + [s[|s| - 1]];
    }
  }

  lemma TrimStartStep(c: char, rest: string)
    requires IsSpace(c)
    ensures TrimStart([c] + rest) == TrimStart(rest)
  {
    hide IsSpace;
    assert ([c] + rest)[1..] == rest;
  }

  lemma {:induction false} TrimStartSkips(space: string, rest: string)
    requires AllSpace(space)
    ensures TrimStart(space + rest) == TrimStart(rest)
  {
    hide IsSpace, TrimStart;
    if space == "" {
      assert space + rest == rest;
    } else {
      TrimStartSkips(space[1..], rest);
      TrimStartStep(space[0], space[1..] + rest);
      assert space + rest == [space[0]] + (space[1..] + rest);
    }
  }

  lemma {:induction false} TrimEndSkips(text: string, space: string)
    requires AllSpace(space)
    ensures TrimEnd(text + space) == TrimEnd(text)
  {
    hide IsSpace;
    if space == "" {
      assert text + space == text;
    } else {
      TrimEndSkips(text, space[..|space| - 1]);
      assert (text + space)[..|text + space| - 1] == text + space[..|space| - 1];
    }
  }

  lemma TrimIsPadded(raw: string)
    ensures IsPadded(raw, Trim(raw))
  {
    hide IsSpace, TrimStart, TrimEnd, AllSpace;
    var start, value := TrimStart(raw), Trim(raw);
    TrimStartTakesSpace(raw);
    TrimEndTakesSpace(start);
    var i, j := |raw| - |start|, |raw| - |start| + |value|;
    assert raw[i..j] == value && raw[j..] == start[|value|..];
  }

  lemma PaddedIsTrimmed(raw: string, value: string)
    requires IsTrimmed(value) && IsPadded(raw, value)
    ensures Trim(raw) == value
  {
    hide AllSpace, Trim, IsTrimmed;
    var i, j :| 0 <= i <= j <= |raw| && raw[i..j] == value && AllSpace(raw[..i]) && AllSpace(raw[j..]);
    PaddingGoes(raw[..i], value, raw[j..]);
    assert raw == raw[..i] + (value + raw[j..]);
  }

  /** What trimming is: the one trimmed text that white space surrounds. */
  lemma TrimExactly(raw: string, value: string)
    ensures Trim(raw) == value <==> IsTrimmed(value) && IsPadded(raw, value)
  {
    hide Trim, IsTrimmed, IsPadded;
    TrimmedIsTrimmed(raw);
    TrimIsPadded(raw);
    if IsTrimmed(value) && IsPadded(raw, value) {
      PaddedIsTrimmed(raw, value);
    }
  }

  lemma PaddingGoes(before: string, value: string, after: string)
    requires IsTrimmed(value) && AllSpace(before) && AllSpace(after)
    ensures Trim(before + (value + after)) == value
  {
    hide IsSpace;
    TrimStartSkips(before, value + after);
    if value == "" {
      TrimStartSkips(after, "");
      assert value + after == after && after + "" == after;
    } else {
      assert (value + after)[0] == value[0];
      TrimEndSkips(value, after);
    }
  }

  // ---- Decimal ----

  lemma {:induction false} ParsePrintDigits(n: nat)
    ensures ParseDigits(PrintDigits(n)) == n
  {
    var digit := ('0' as int + n % 10) as char;
    if n < 10 {
      assert [digit][..0] == "";
    } else {
      ParsePrintDigits(n / 10);
      assert (PrintDigits(n / 10) + [digit])[..|PrintDigits(n / 10)|] == PrintDigits(n / 10);
    }
  }

  /** Printing a number and reading it back, over all the integers. */
  lemma ParsePrintWhole(n: int)
    ensures IsWholeNumber(PrintWhole(n)) && ParseWhole(PrintWhole(n)) == n
  {
    if n < 0 {
      ParsePrintDigits(-n);
      assert PrintWhole(n)[1..] == PrintDigits(-n);
    } else {
      ParsePrintDigits(n);
      assert PrintWhole(n)[0] != '-';
    }
  }

  /** A whole number is one or more digits, with or without a minus before them. */
  lemma WholeExactly(s: string)
    ensures IsWholeNumber(s) <==> exists digits :: digits != "" && AllDigits(digits) && (s == digits || s == "-" + digits)
  {
    if IsWholeNumber(s) {
      var digits := if s[0] == '-' then s[1..] else s;
      assert s == digits || s == "-" + digits;
    }
    if digits :| digits != "" && AllDigits(digits) && s == "-" + digits {
      assert s[1..] == digits;
    }
  }

  lemma WholeIsPlain(s: string)
    requires IsWholeNumber(s)
    ensures IsTrimmed(s) && IsQuotable(s) && s != ""
  {}

  // ---- One value ----

  predicate OptionsPlain(options: seq<string>) {
    forall i :: 0 <= i < |options| ==> IsPlainOption(options[i])
  }

  predicate FieldPlain(kind: FieldKind) {
    kind.Choice? ==> OptionsPlain(kind.options)
  }

  predicate IsPlainOption(s: string) {
    IsTrimmed(s) && IsQuotable(s) && s != ""
  }

  lemma LogLevelsArePlain()
    ensures OptionsPlain(LOG_LEVELS)
  {
    assert IsPlainOption("trace") && IsPlainOption("debug") && IsPlainOption("info");
    assert IsPlainOption("warn") && IsPlainOption("error");
  }

  lemma SessionLifetimesArePlain()
    ensures OptionsPlain(SESSION_LIFETIMES)
  {}

  lemma ChoicesListed(key: string)
    requires FieldOf(key).Some? && FieldOf(key).value.Choice?
    ensures FieldOf(key).value.options == LOG_LEVELS || FieldOf(key).value.options == SESSION_LIFETIMES
  {}

  lemma FieldsArePlain(key: string)
    requires FieldOf(key).Some?
    ensures FieldPlain(FieldOf(key).value)
  {
    if FieldOf(key).value.Choice? {
      ChoicesListed(key);
      LogLevelsArePlain();
      SessionLifetimesArePlain();
    }
  }

  lemma BooleanIsFixed(raw: string)
    requires NormalizeValue(Boolean, raw).Ok?
    ensures var value := NormalizeValue(Boolean, raw).value;
            IsQuotable(value) && IsTrimmed(value) && NormalizeValue(Boolean, value) == Ok(value)
  {
    hide Trim;
    TrimmedIsTrimmed("1");
    TrimmedIsTrimmed("0");
  }

  lemma NumberIsFixed(min: int, max: int, raw: string)
    requires NormalizeValue(Number(min, max), raw).Ok?
    ensures var value := NormalizeValue(Number(min, max), raw).value;
            IsQuotable(value) && IsTrimmed(value) && NormalizeValue(Number(min, max), value) == Ok(value)
  {
    hide ParseDigits, PrintDigits, Trim;
    var value := NormalizeValue(Number(min, max), raw).value;
    ParsePrintWhole(ParseWhole(Trim(raw)));
    WholeIsPlain(value);
    TrimmedIsTrimmed(value);
  }

  lemma ChoiceIsFixed(options: seq<string>, raw: string)
    requires OptionsPlain(options) && NormalizeValue(Choice(options), raw).Ok?
    ensures var value := NormalizeValue(Choice(options), raw).value;
            IsQuotable(value) && IsTrimmed(value) && NormalizeValue(Choice(options), value) == Ok(value)
  {}

  lemma TextIsFixed(maxLength: nat, isSecret: bool, raw: string)
    requires NormalizeValue(Text(maxLength, isSecret), raw).Ok?
    ensures var value := NormalizeValue(Text(maxLength, isSecret), raw).value;
            IsQuotable(value) && IsTrimmed(value) && NormalizeValue(Text(maxLength, isSecret), value) == Ok(value)
  {}

  /** A normal form is quotable, and normalising it again leaves it as it is. */
  lemma NormalFormIsFixed(kind: FieldKind, raw: string)
    requires FieldPlain(kind) && NormalizeValue(kind, raw).Ok?
    ensures var value := NormalizeValue(kind, raw).value;
            IsQuotable(value) && IsTrimmed(value) && NormalizeValue(kind, value) == Ok(value)
  {
    match kind
    case Boolean => BooleanIsFixed(raw);
    case Number(min, max) => NumberIsFixed(min, max, raw);
    case Choice(options) => ChoiceIsFixed(options, raw);
    case Text(maxLength, isSecret) => TextIsFixed(maxLength, isSecret, raw);
  }

  /** A number is accepted exactly when it is written as a whole number in range, and
    * is stored as the shortest way to write that same number. */
  lemma NumberAcceptedExactly(min: int, max: int, raw: string)
    requires -MAX_SAFE_INTEGER <= min && max <= MAX_SAFE_INTEGER
    ensures var result := NormalizeValue(Number(min, max), raw);
            && (result.Ok? <==> IsWholeNumber(Trim(raw)) && min <= ParseWhole(Trim(raw)) <= max)
            && (result.Ok? ==> IsWholeNumber(result.value) && ParseWhole(result.value) == ParseWhole(Trim(raw))
                               && result.value == PrintWhole(ParseWhole(result.value)))
  {
    hide ParseDigits, PrintDigits, Trim;
    if IsWholeNumber(Trim(raw)) {
      ParsePrintWhole(ParseWhole(Trim(raw)));
    }
  }

  /** Text and choices are stored as they were written but for the space around them:
    * a trimmed text that fits and cannot end its quotes, or one of the options. */
  lemma TextAcceptedExactly(kind: FieldKind, raw: string, value: string)
    requires kind.Text? || kind.Choice?
    ensures NormalizeValue(kind, raw) == Ok(value) <==>
            && IsTrimmed(value) && IsPadded(raw, value)
            && (kind.Text? ==> Utf16Length(value) <= kind.maxLength && IsQuotable(value))
            && (kind.Choice? ==> value in kind.options)
  {
    hide Trim;
    TrimExactly(raw, value);
  }

  /** A boolean is on or off in two words each, off when blank, and nothing else. */
  lemma BooleanAcceptedExactly(raw: string)
    ensures var value, result := Trim(raw), NormalizeValue(Boolean, raw);
            && (result == Ok("1") <==> value in {"1", "true"})
            && (result == Ok("0") <==> value in {"0", "false", ""})
            && (result == Rejected(NotTrueOrFalse) <==> value !in {"1", "true", "0", "false", ""})
  {
    hide Trim;
    assert "1" != "0";
  }

  /** The characters that could end a quoted value: the quote and the line breaks. */
  predicate EndsQuotes(s: string) {
    '\'' in s || '\n' in s || '\r' in s
  }

  /** Each refusal by its own fault, the first that a value has. */
  lemma RejectedExactly(kind: FieldKind, raw: string)
    ensures var value, result := Trim(raw), NormalizeValue(kind, raw);
            && (result == Rejected(NotTrueOrFalse) <==> kind.Boolean? && value !in {"1", "true", "0", "false", ""})
            && (result == Rejected(NotWhole) <==>
                  kind.Number? && !(IsWholeNumber(value) && -MAX_SAFE_INTEGER <= ParseWhole(value) <= MAX_SAFE_INTEGER))
            && (result == Rejected(OutOfRange) <==>
                  kind.Number? && IsWholeNumber(value) && -MAX_SAFE_INTEGER <= ParseWhole(value) <= MAX_SAFE_INTEGER
                  && (ParseWhole(value) < kind.min || kind.max < ParseWhole(value)))
            && (result == Rejected(NotAnOption) <==> kind.Choice? && value !in kind.options)
            && (result == Rejected(TooLong) <==> kind.Text? && Utf16Length(value) > kind.maxLength)
            && (result == Rejected(Unquotable) <==> kind.Text? && Utf16Length(value) <= kind.maxLength && EndsQuotes(value))
  {
    hide Trim, Utf16Length, ParseWhole, IsWholeNumber, PrintWhole;
    var value := Trim(raw);
    QuotableExactly(value);
    if kind.Boolean? {
      BooleanAcceptedExactly(raw);
    }
  }

  lemma QuotableExactly(s: string)
    ensures IsQuotable(s) <==> !EndsQuotes(s)
  {
    forall i | 0 <= i < |s| ensures s[i] in s {}
  }

  /** Where the characters beyond the sixteen-bit plane are. */
  function WideAt(s: string): set<nat> {
    set i: nat | i < |s| && s[i] as int > 0xFFFF
  }

  lemma WideAtLast(s: string)
    requires s != ""
    ensures var last := |s| - 1;
            WideAt(s) == WideAt(s[..last]) + (if s[last] as int > 0xFFFF then {last} else {}) && last !in WideAt(s[..last])
  {}

  /** They count twice, every other character once. */
  lemma {:induction false} Utf16Exactly(s: string)
    ensures Utf16Length(s) == |s| + |WideAt(s)|
  {
    if s == "" {
      assert WideAt(s) == {};
    } else {
      WideAtLast(s);
      Utf16Exactly(s[..|s| - 1]);
      hide WideAt;
    }
  }

  /** White space, one code point after the other. */
  lemma SpacesListed(c: char)
    ensures IsSpace(c) <==>
            c as int in {0x9, 0xA, 0xB, 0xC, 0xD, 0x20, 0xA0, 0x1680, 0x2000, 0x2001, 0x2002, 0x2003, 0x2004, 0x2005, 0x2006,
                         0x2007, 0x2008, 0x2009, 0x200A, 0x2028, 0x2029, 0x202F, 0x205F, 0x3000, 0xFEFF}
  {}

  // ---- A configuration ----

  /** Allow-listed keys, each with its value in normal form, quotable, and set. */
  predicate IsNormalEntry(key: string, value: string) {
    && EntryAccepted(key, value)
    && NormalForm(key, value) == value
    && IsQuotable(value)
    && IsKept(key, value)
  }

  predicate IsNormal(config: Config) {
    forall key :: key in config ==> IsNormalEntry(key, config[key])
  }

  lemma NormalEntry(key: string, raw: string)
    requires EntryAccepted(key, raw) && IsKept(key, raw)
    ensures IsNormalEntry(key, NormalForm(key, raw))
  {
    FieldsArePlain(key);
    NormalFormIsFixed(FieldOf(key).value, raw);
  }

  /** Normalisation yields a normal configuration, and is the identity on those. */
  lemma NormalizationIsIdempotent(input: Config)
    requires NormalizeRuntimeConfig(input).Some?
    ensures IsNormal(NormalizeRuntimeConfig(input).value)
    ensures NormalizeRuntimeConfig(NormalizeRuntimeConfig(input).value) == NormalizeRuntimeConfig(input)
  {
    var config := NormalizeRuntimeConfig(input).value;
    forall key | key in config ensures IsNormalEntry(key, config[key]) {
      NormalEntry(key, input[key]);
    }
    NormalIsFixed(config);
  }

  lemma NormalIsFixed(config: Config)
    requires IsNormal(config)
    ensures NormalizeRuntimeConfig(config) == Some(config)
  {
    assert Accepted(config) by {
      forall key | key in config ensures EntryAccepted(key, config[key]) {
        assert IsNormalEntry(key, config[key]);
      }
    }
    var again := NormalizeRuntimeConfig(config).value;
    forall key | key in config ensures key in again && again[key] == config[key] {
      assert IsNormalEntry(key, config[key]);
    }
    assert again == config;
  }

  // ---- Runs ----

  lemma SaveIsNormal(stored: Config, submitted: Config)
    requires IsNormal(stored) && Save(stored, submitted).Some?
    ensures IsNormal(Save(stored, submitted).value)
  {
    NormalizationIsIdempotent(submitted);
    var saved := Save(stored, submitted).value;
    forall key | key in saved ensures IsNormalEntry(key, saved[key]) {
      if key in KeptSecrets(stored, submitted.Keys) {
        assert IsNormalEntry(key, stored[key]);
      }
    }
  }

  /** Over every run of saves, what is stored and what is being applied is a fixed
    * point of normalisation: allow-listed keys, no quotes, no line breaks. */
  lemma {:induction false} RunsStayNormal(actions: seq<Action>)
    ensures var w := Exec(FRESH, actions);
            && IsNormal(w.stored) && NormalizeRuntimeConfig(w.stored) == Some(w.stored)
            && (w.applying.Some? ==> IsNormal(w.applying.value))
  {
    if actions == [] {
      NormalIsFixed(map[]);
    } else {
      var before, a := Exec(FRESH, actions[..|actions| - 1]), actions[|actions| - 1];
      RunsStayNormal(actions[..|actions| - 1]);
      if a.Submit? && before.applying.None? && Save(before.stored, a.config).Some? {
        SaveIsNormal(before.stored, a.config);
      }
      NormalIsFixed(Exec(FRESH, actions).stored);
    }
  }

  // ---- Round trips ----

  function WithoutSecrets(config: Config): Config {
    map key | key in config && !IsSecretKey(key) :: config[key]
  }

  /** The page is given every variable stored, each as it is but for the secret, which is
    * blank. */
  lemma PageSeesNoSecret(stored: Config, key: string)
    ensures key in Get(stored) <==> key in stored
    ensures key in stored ==> Get(stored)[key] == if key == "COMPOSERY_GITHUB_TOKEN" then "" else stored[key]
  {
    SecretsListed(key);
    assert SECRET_CONFIG_KEYS == ["COMPOSERY_GITHUB_TOKEN"];
  }

  lemma PartIsNormal(config: Config, part: Config)
    requires IsNormal(config) && forall key :: key in part ==> key in config && part[key] == config[key]
    ensures IsNormal(part)
  {}

  /** In every run: saving back what the page was given, its blank secrets left out,
    * stores exactly what was stored. */
  lemma SavingBackChangesNothing(actions: seq<Action>)
    ensures var stored := Exec(FRESH, actions).stored;
            Save(stored, WithoutSecrets(Get(stored))) == Some(stored)
  {
    var stored := Exec(FRESH, actions).stored;
    RunsStayNormal(actions);
    SavedBack(stored);
  }

  /** The secrets a normal configuration holds are the ones a silent save keeps. */
  lemma SecretsAreKept(stored: Config)
    requires IsNormal(stored)
    ensures WithoutSecrets(stored) + KeptSecrets(stored, WithoutSecrets(stored).Keys) == stored
  {}

  lemma SavedBack(stored: Config)
    requires IsNormal(stored)
    ensures Save(stored, WithoutSecrets(Get(stored))) == Some(stored)
  {
    var submitted := WithoutSecrets(Get(stored));
    assert submitted == WithoutSecrets(stored);
    PartIsNormal(stored, submitted);
    NormalIsFixed(submitted);
    SecretsAreKept(stored);
  }

  lemma BlankIsUnset(key: string)
    requires IsSecretKey(key)
    ensures EntryAccepted(key, "") && !IsKept(key, "")
  {}

  lemma BlankedIsAccepted(stored: Config)
    requires IsNormal(stored)
    ensures NormalizeRuntimeConfig(Get(stored)) == Some(WithoutSecrets(stored))
  {
    var submitted := Get(stored);
    forall key | key in submitted ensures EntryAccepted(key, submitted[key]) {
      if IsSecretKey(key) {
        BlankIsUnset(key);
      } else {
        assert IsNormalEntry(key, stored[key]);
      }
    }
    var normalized := NormalizeRuntimeConfig(submitted).value;
    forall key ensures key in normalized <==> key in WithoutSecrets(stored) {
      if key in stored {
        if IsSecretKey(key) {
          BlankIsUnset(key);
        } else {
          assert IsNormalEntry(key, stored[key]);
        }
      }
    }
    forall key | key in normalized ensures normalized[key] == WithoutSecrets(stored)[key] {
      assert IsNormalEntry(key, stored[key]);
    }
    assert normalized == WithoutSecrets(stored);
  }

  /** Saving back everything, blanks included, clears exactly the secrets. */
  lemma BlanksClearTheSecrets(actions: seq<Action>)
    ensures var stored := Exec(FRESH, actions).stored;
            Save(stored, Get(stored)) == Some(WithoutSecrets(stored))
  {
    RunsStayNormal(actions);
    BlanksClear(Exec(FRESH, actions).stored);
  }

  lemma BlanksClear(stored: Config)
    requires IsNormal(stored)
    ensures Save(stored, Get(stored)) == Some(WithoutSecrets(stored))
  {
    hide NormalizeRuntimeConfig, IsSecretKey, IsNormal;
    BlankedIsAccepted(stored);
    assert KeptSecrets(stored, Get(stored).Keys) == map[];
    assert WithoutSecrets(stored) + map[] == WithoutSecrets(stored);
  }

  /** The three intentions of a save, key by key: an absent secret is kept, an absent
    * variable is unset, a submitted one takes its normal form or is unset by a blank. */
  lemma SaveMeans(stored: Config, submitted: Config, key: string)
    requires IsNormal(stored) && Save(stored, submitted).Some?
    ensures var saved := Save(stored, submitted).value;
            if key in submitted then
              var blank := NormalForm(key, submitted[key]) == "" && !FieldOf(key).value.Boolean?;
              if blank then key !in saved else key in saved && saved[key] == NormalForm(key, submitted[key])
            else if IsSecretKey(key) && key in stored then key in saved && saved[key] == stored[key]
            else key !in saved
  {}

  /** Whatever is stored, and however it got there: a secret kept is one that is set. */
  lemma KeptAreSet(stored: Config, submitted: set<string>, key: string)
    ensures key in KeptSecrets(stored, submitted) <==>
            key in stored && key == "COMPOSERY_GITHUB_TOKEN" && key !in submitted && stored[key] != ""
  {
    SecretsListed(key);
    assert SECRET_CONFIG_KEYS == ["COMPOSERY_GITHUB_TOKEN"];
  }

  // ---- What is stored ----

  /** The last configuration the box answered on; none before the first. */
  function LastApplied(actions: seq<Action>): Config {
    if actions == [] then map[] else
      var before, a := Exec(FRESH, actions[..|actions| - 1]), actions[|actions| - 1];
      if a.Applied? && before.applying.Some? then before.applying.value else LastApplied(actions[..|actions| - 1])
  }

  /** In every run the stored configuration is the last one the box answered on: a save
    * under way, a refused one and a failed one leave it. */
  lemma {:induction false} StoredIsLastApplied(actions: seq<Action>)
    ensures Exec(FRESH, actions).stored == LastApplied(actions)
  {
    hide Save, Apply;
    if actions != [] {
      var a := actions[|actions| - 1];
      StoredIsLastApplied(actions[..|actions| - 1]);
      OneSaveAtATime(Exec(FRESH, actions[..|actions| - 1]), if a.Submit? then a.config else map[]);
    }
  }

  /** A save is taken up only when none is under way, as what it means for what is stored
    * then; it ends by being answered on or by failing, and only then may the next begin. */
  lemma OneSaveAtATime(w: World, config: Config)
    ensures Apply(w, Submit(config)) ==
            if w.applying.Some? || NormalizeRuntimeConfig(config).None? then w else w.(applying := Save(w.stored, config))
    ensures Apply(w, Applied) == if w.applying.None? then w else World(w.applying.value, None)
    ensures Apply(w, ApplyFailed) == w.(applying := None)
  {}

  // ---- As the program performs it ----

  datatype Result = Normalised(config: Config) | UnknownKey(key: string) | InvalidValue(key: string, error: ValueError)

  /** The loop over a submission's entries, in whatever order they are listed: it
    * accepts exactly what has a normal form, and otherwise names an entry at fault. */
  method NormalizeEntries(input: Config, entries: seq<string>) returns (result: Result)
    requires (forall key :: key in input <==> key in entries) && forall j, k :: 0 <= j < k < |entries| ==> entries[j] != entries[k]
    ensures result.Normalised? <==> NormalizeRuntimeConfig(input).Some?
    ensures result.Normalised? ==> result.config == NormalizeRuntimeConfig(input).value
    ensures result.UnknownKey? ==> result.key in input && FieldOf(result.key).None?
    ensures result.InvalidValue? ==>
              result.key in input && FieldOf(result.key).Some?
              && NormalizeValue(FieldOf(result.key).value, input[result.key]) == Rejected(result.error)
  {
    hide FieldOf, NormalizeValue;
    var config: Config := map[];
    for k := 0 to |entries|
      invariant forall key :: key in entries[..k] ==> key in input && EntryAccepted(key, input[key])
      invariant forall key :: key in config <==> key in entries[..k] && IsKept(key, input[key])
      invariant forall key :: key in config ==> config[key] == NormalForm(key, input[key])
    {
      var key := entries[k];
      assert key in entries && entries[..k + 1] == entries[..k] + [key];
      var field := FieldOf(key);
      if field.None? {
        return UnknownKey(key);
      }
      var normalized := NormalizeValue(field.value, input[key]);
      if normalized.Rejected? {
        return InvalidValue(key, normalized.error);
      }
      if field.value.Boolean? || normalized.value != "" {
        config := config[key := normalized.value];
      }
    }
    assert entries[..|entries|] == entries;
    assert config == NormalizeRuntimeConfig(input).value;
    result := Normalised(config);
  }

  /** The secrets listed are the fields declared secret. */
  lemma SecretsListed(key: string)
    ensures key in SECRET_CONFIG_KEYS <==> IsSecretKey(key)
  {
    assert SECRET_CONFIG_KEYS[0] == "COMPOSERY_GITHUB_TOKEN";
  }

  method KeepSecrets(normalized: Config, stored: Config, submitted: set<string>) returns (config: Config)
    ensures config == ApplySecretIntent(normalized, stored, submitted)
  {
    hide FieldOf;
    var secrets := SECRET_CONFIG_KEYS;
    forall key ensures key in secrets <==> IsSecretKey(key) {
      SecretsListed(key);
    }
    config := normalized;
    for k := 0 to |secrets|
      invariant forall key :: key in config <==>
                  key in normalized || (key in secrets[..k] && key in KeptSecrets(stored, submitted))
      invariant forall key :: key in config ==>
                  config[key] == if key in secrets[..k] && key in KeptSecrets(stored, submitted) then stored[key] else normalized[key]
    {
      var key := secrets[k];
      assert key in secrets && secrets[..k + 1] == secrets[..k] + [key];
      if key !in submitted && key in stored && stored[key] != "" {
        config := config[key := stored[key]];
      }
    }
    assert secrets[..|secrets|] == secrets;
  }

  /** What the configuration page's server side holds of one box. */
  class BoxConfig {
    var stored: Config
    var applying: Option<Config>

    constructor ()
      ensures State() == FRESH && Valid()
    {
      stored, applying := map[], None;
    }

    function State(): World
      reads this
    {
      World(stored, applying)
    }

    /** What is stored, and what is on its way there, is in normal form. */
    ghost predicate Valid()
      reads this
    {
      IsNormal(stored) && (applying.Some? ==> IsNormal(applying.value))
    }

    /** Normalise, then merge the secrets, then start applying. */
    method Save(submitted: Config, entries: seq<string>) returns (result: Result)
      requires Valid() && applying.None?
      requires (forall key :: key in submitted <==> key in entries) && forall j, k :: 0 <= j < k < |entries| ==> entries[j] != entries[k]
      modifies `applying
      ensures State() == Apply(old(State()), Submit(submitted))
      ensures result.Normalised? <==> applying.Some?
      ensures Valid()
    {
      result := NormalizeEntries(submitted, entries);
      if !result.Normalised? {
        return;
      }
      SaveIsNormal(stored, submitted);
      var config := KeepSecrets(result.config, stored, submitted.Keys);
      applying := Some(config);
    }

    /** What was applied is stored, as a normal configuration that the page can save
      * back unchanged. */
    method MarkConfigApplied()
      requires Valid() && applying.Some?
      modifies this
      ensures State() == Apply(old(State()), Applied)
      ensures Valid()
      ensures NormalizeRuntimeConfig(stored) == Some(stored)
      ensures Configuration.Save(stored, WithoutSecrets(Get(stored))) == Some(stored)
    {
      stored := applying.value;
      applying := None;
      NormalIsFixed(stored);
      SavedBack(stored);
    }
  }
}
