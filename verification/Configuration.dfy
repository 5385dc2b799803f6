/** The watchdog's configuration files: what is rendered is read back as it was, and whatever is
    read is within bounds. */
module Configuration {
  import opened Common
  import opened Decimal

  datatype Param = CheckInterval | PingTimeout | FailureThreshold | SuccessThreshold | RecoveryHold | RecoveryJitterMax

  datatype Timing = Timing(interval: nat, timeout: nat, failures: nat, successes: nat, hold: nat, jitterMax: nat) {
    function Of(p: Param): nat {
      match p
      case CheckInterval => interval
      case PingTimeout => timeout
      case FailureThreshold => failures
      case SuccessThreshold => successes
      case RecoveryHold => hold
      case RecoveryJitterMax => jitterMax
    }
  }

  datatype GlobalConfig = GlobalConfig(checkMode: string, timing: Timing)
  datatype ProfileConfig = ProfileConfig(mode: string, timing: Timing)

  const DEFAULTS := Timing(2, 1, 10, 10, 10, 10)

  function KeyOf(p: Param): string {
    match p
    case CheckInterval => "CHECK_INTERVAL_SECONDS"
    case PingTimeout => "PING_TIMEOUT_SECONDS"
    case FailureThreshold => "FAILURE_THRESHOLD"
    case SuccessThreshold => "SUCCESS_THRESHOLD"
    case RecoveryHold => "RECOVERY_HOLD_SECONDS"
    case RecoveryJitterMax => "RECOVERY_JITTER_MAX_SECONDS"
  }

  function ParamKeys(): seq<string> {
    [KeyOf(CheckInterval), KeyOf(PingTimeout), KeyOf(FailureThreshold), KeyOf(SuccessThreshold),
     KeyOf(RecoveryHold), KeyOf(RecoveryJitterMax)]
  }

  function GlobalKeys(): seq<string> {
    ["CHECK_MODE"] + ParamKeys()
  }

  function ProfileKeys(): seq<string> {
    ["MODE"] + ParamKeys()
  }

  predicate InBounds(p: Param, n: nat) {
    match p
    case CheckInterval => 1 <= n <= 300
    case PingTimeout => 1 <= n <= 60
    case FailureThreshold => 1 <= n <= 1000
    case SuccessThreshold => 1 <= n <= 1000
    case RecoveryHold => n <= 3600
    case RecoveryJitterMax => n <= 300
  }

  predicate ValidTiming(t: Timing) {
    (forall p: Param :: InBounds(p, t.Of(p))) && t.timeout <= t.interval
  }

  predicate ValidMode(mode: string) {
    mode == "disabled" || mode == "monitor" || mode == "auto"
  }

  // ----- Lines --------------------------------------------------------------------------

  /** The characters at which text is split into lines; a carriage return never gets that far. */
  predicate Breaks(c: char) {
    || '\n' <= c <= '\U{0C}' || '\U{1C}' <= c <= '\U{1E}' || c == '\U{85}' || c == '\U{2028}' || c == '\U{2029}'
  }

  predicate Space(c: char) {
    '\t' <= c <= '\r' || '\U{1C}' <= c <= '\U{20}'
  }

  function FirstBreak(text: string): (i: nat)
    ensures i <= |text|
  {
    if text == [] || Breaks(text[0]) then 0 else 1 + FirstBreak(text[1..])
  }

  function Lines(text: string): seq<string>
    decreases |text|
  {
    if text == [] then []
    else
      var i := FirstBreak(text);
      if i == |text| then [text] else [text[..i]] + Lines(text[i + 1..])
  }

  function Count(text: string, c: char): nat {
    if text == [] then 0 else (if text[0] == c then 1 else 0) + Count(text[1..], c)
  }

  function FirstEquals(text: string): (i: nat)
    ensures i <= |text|
    ensures Count(text, '=') > 0 ==> i < |text|
  {
    if text == [] || text[0] == '=' then 0 else 1 + FirstEquals(text[1..])
  }

  predicate SafeValue(v: string) {
    v != [] && forall c <- v :: c <= '\U{7F}' && !Space(c)
  }

  // ----- Parsing ------------------------------------------------------------------------

  /** One line added to the values read so far; `None` is a configuration error. */
  function ParseLine(line: string, allowed: seq<string>, values: map<string, string>): Option<map<string, string>> {
    if line == [] || Count(line, '=') != 1 then None
    else
      var i := FirstEquals(line);
      var key, value := line[..i], line[i + 1..];
      if key !in allowed || key in values || !SafeValue(value) then None else Some(values[key := value])
  }

  function ParseLines(lines: seq<string>, allowed: seq<string>, values: map<string, string>)
    : Option<map<string, string>>
  {
    if lines == [] then Some(values)
    else
      var next := ParseLine(lines[0], allowed, values);
      if next.None? then None else ParseLines(lines[1..], allowed, next.value)
  }

  function ParseText(text: string, allowed: seq<string>, requireAll: bool): Option<map<string, string>> {
    if text == [] || '\0' in text || '\r' in text then None
    else
      var values := ParseLines(Lines(text), allowed, map[]);
      if values.Some? && requireAll && exists key <- allowed :: key !in values.value then None else values
  }

  /** The reader of a configuration file, line by line. */
  method ReadText(text: string, allowed: seq<string>, requireAll: bool) returns (r: Option<map<string, string>>)
    ensures r == ParseText(text, allowed, requireAll)
  {
    if text == [] || '\0' in text || '\r' in text {
      return None;
    }
    var lines := Lines(text);
    var values: map<string, string> := map[];
    for n := 0 to |lines|
      invariant ParseLines(lines[n..], allowed, values) == ParseLines(lines, allowed, map[])
    {
      var line := lines[n];
      assert lines[n..][0] == line && lines[n..][1..] == lines[n + 1..];
      if line == [] || Count(line, '=') != 1 {
        return None;
      }
      var i := FirstEquals(line);
      var key, value := line[..i], line[i + 1..];
      if key !in allowed {
        return None;
      }
      if key in values {
        return None;
      }
      if !SafeValue(value) {
        return None;
      }
      values := values[key := value];
    }
    if requireAll && exists key <- allowed :: key !in values {
      return None;
    }
    return Some(values);
  }

  function Integer(values: map<string, string>, p: Param, default: nat): Option<nat> {
    var raw := if KeyOf(p) in values then values[KeyOf(p)] else Digits(default);
    if Numeral(raw) && InBounds(p, Number(raw)) then Some(Number(raw)) else None
  }

  function TimingFrom(values: map<string, string>, defaults: Timing): Option<Timing> {
    var interval, timeout := Integer(values, CheckInterval, defaults.interval),
      Integer(values, PingTimeout, defaults.timeout);
    var failures, successes := Integer(values, FailureThreshold, defaults.failures),
      Integer(values, SuccessThreshold, defaults.successes);
    var hold, jitterMax := Integer(values, RecoveryHold, defaults.hold),
      Integer(values, RecoveryJitterMax, defaults.jitterMax);
    if interval.None? || timeout.None? || timeout.value > interval.value then None
    else if failures.None? || successes.None? || hold.None? || jitterMax.None? then None
    else Some(Timing(interval.value, timeout.value, failures.value, successes.value, hold.value, jitterMax.value))
  }

  function GlobalFrom(values: map<string, string>): Option<GlobalConfig> {
    var mode := if "CHECK_MODE" in values then values["CHECK_MODE"] else "ping";
    var timing := TimingFrom(values, DEFAULTS);
    if (exists key <- values :: key !in GlobalKeys()) || mode != "ping" || timing.None? then None
    else Some(GlobalConfig(mode, timing.value))
  }

  function ProfileFrom(values: map<string, string>, global: GlobalConfig): Option<ProfileConfig> {
    var mode := if "MODE" in values then values["MODE"] else "disabled";
    var timing := TimingFrom(values, global.timing);
    if (exists key <- values :: key !in ProfileKeys()) || !ValidMode(mode) || timing.None? then None
    else Some(ProfileConfig(mode, timing.value))
  }

  function ParseGlobal(text: string): Option<GlobalConfig> {
    var values := ParseText(text, GlobalKeys(), true);
    if values.None? then None else GlobalFrom(values.value)
  }

  // ----- Rendering ----------------------------------------------------------------------

  function RenderKeys(values: map<string, string>, keys: seq<string>): string {
    if keys == [] then []
    else if keys[0] in values then keys[0] + ['='] + values[keys[0]] + ['\n'] + RenderKeys(values, keys[1..])
    else RenderKeys(values, keys[1..])
  }

  function GlobalValues(c: GlobalConfig): map<string, string> {
    map["CHECK_MODE" := c.checkMode,
        KeyOf(CheckInterval) := Digits(c.timing.interval),
        KeyOf(PingTimeout) := Digits(c.timing.timeout),
        KeyOf(FailureThreshold) := Digits(c.timing.failures),
        KeyOf(SuccessThreshold) := Digits(c.timing.successes),
        KeyOf(RecoveryHold) := Digits(c.timing.hold),
        KeyOf(RecoveryJitterMax) := Digits(c.timing.jitterMax)]
  }

  function RenderGlobal(c: GlobalConfig): string {
    RenderKeys(GlobalValues(c), GlobalKeys())
  }

  function RenderProfile(values: map<string, string>, global: GlobalConfig): Option<string> {
    if ProfileFrom(values, global).None? then None else Some(RenderKeys(values, ProfileKeys()))
  }

  // ----- Rendered text is read back -----------------------------------------------------

  predicate PlainKey(key: string) {
    key != [] && forall c <- key :: 'A' <= c <= 'Z' || c == '_'
  }

  predicate PlainValue(v: string) {
    v != [] && forall c <- v :: 'a' <= c <= 'z' || Digit(c)
  }

  predicate Distinct(keys: seq<string>) {
    forall i, j :: 0 <= i < j < |keys| ==> keys[i] != keys[j]
  }

  lemma {:induction false} FirstBreakIs(line: string, rest: string)
    requires forall c <- line :: !Breaks(c)
    ensures FirstBreak(line + ['\n'] + rest) == |line|
  {
    if line != [] {
      assert line[0] in line && (line + ['\n'] + rest)[1..] == line[1..] + ['\n'] + rest;
      FirstBreakIs(line[1..], rest);
    }
  }

  lemma LinesOne(line: string, rest: string)
    requires forall c <- line :: !Breaks(c)
    ensures Lines(line + ['\n'] + rest) == [line] + Lines(rest)
  {
    var text := line + ['\n'] + rest;
    FirstBreakIs(line, rest);
    assert text[..|line|] == line && text[|line| + 1..] == rest;
  }

  lemma {:induction false} EqualsIs(key: string, value: string)
    requires '=' !in key && '=' !in value
    ensures Count(key + ['='] + value, '=') == 1 && FirstEquals(key + ['='] + value) == |key|
  {
    var line := key + ['='] + value;
    if key == [] {
      assert line[1..] == value;
      NoEquals(value);
    } else {
      assert key[0] in key && line[1..] == key[1..] + ['='] + value;
      EqualsIs(key[1..], value);
    }
  }

  lemma {:induction false} NoEquals(text: string)
    requires '=' !in text
    ensures Count(text, '=') == 0
  {
    if text != [] {
      assert text[0] in text;
      NoEquals(text[1..]);
    }
  }

  lemma LineIsRead(key: string, value: string, allowed: seq<string>, values: map<string, string>)
    requires PlainKey(key) && PlainValue(value) && key in allowed && key !in values
    ensures ParseLine(key + ['='] + value, allowed, values) == Some(values[key := value])
  {
    var line := key + ['='] + value;
    EqualsIs(key, value);
    assert line[..|key|] == key && line[|key| + 1..] == value;
  }

  lemma PlainLine(key: string, value: string)
    requires PlainKey(key) && PlainValue(value)
    ensures forall c <- key + ['='] + value :: !Breaks(c) && c != '\0' && c != '\r'
  {
    assert forall c <- key + ['='] + value :: c in key || c == '=' || c in value;
  }

  lemma ReadOne(key: string, value: string, rest: string, allowed: seq<string>, seen: map<string, string>)
    requires PlainKey(key) && PlainValue(value) && key in allowed && key !in seen
    ensures ParseLines(Lines(key + ['='] + value + ['\n'] + rest), allowed, seen) ==
              ParseLines(Lines(rest), allowed, seen[key := value])
  {
    hide PlainKey, PlainValue, Lines, ParseLine;
    var line := key + ['='] + value;
    PlainLine(key, value);
    LinesOne(line, rest);
    LineIsRead(key, value, allowed, seen);
    assert ([line] + Lines(rest))[1..] == Lines(rest);
  }

  /** The entries of a map under a list of keys. */
  function Chosen(values: map<string, string>, keys: seq<string>): map<string, string> {
    map key | key in keys && key in values :: values[key]
  }

  lemma {:induction false} RenderedIsRead(values: map<string, string>, keys: seq<string>, allowed: seq<string>,
                                          seen: map<string, string>)
    requires Distinct(keys) && forall key <- keys :: PlainKey(key) && key in allowed && key !in seen
    requires forall key <- keys :: key in values ==> PlainValue(values[key])
    ensures ParseLines(Lines(RenderKeys(values, keys)), allowed, seen) == Some(seen + Chosen(values, keys))
  {
    if keys == [] {
      assert seen + Chosen(values, keys) == seen;
    } else {
      hide Lines, ParseLines, PlainKey, PlainValue, Chosen, Distinct;
      var key, rest := keys[0], keys[1..];
      ChosenStep(values, keys, seen);
      RestIsDistinct(keys);
      if key in values {
        ReadOne(key, values[key], RenderKeys(values, rest), allowed, seen);
        RenderedIsRead(values, rest, allowed, seen[key := values[key]]);
      } else {
        RenderedIsRead(values, rest, allowed, seen);
      }
    }
  }

  lemma RestIsDistinct(keys: seq<string>)
    requires keys != [] && Distinct(keys)
    ensures keys[0] in keys && Distinct(keys[1..]) && forall other <- keys[1..] :: other != keys[0] && other in keys
  {
  }

  lemma ChosenStep(values: map<string, string>, keys: seq<string>, seen: map<string, string>)
    requires keys != [] && keys[0] !in seen
    ensures seen + Chosen(values, keys) ==
            if keys[0] in values then seen[keys[0] := values[keys[0]]] + Chosen(values, keys[1..])
            else seen + Chosen(values, keys[1..])
  {
    var key, rest := keys[0], keys[1..];
    assert forall k :: k in keys <==> k == key || k in rest;
    var all, few := Chosen(values, keys), Chosen(values, rest);
    assert forall k :: k in all <==> k in few || (k == key && key in values);
    assert forall k <- few :: all[k] == few[k];
    assert key in values ==> all[key] == values[key];
    hide Chosen;
    if key in values {
      assert few.Keys + {key} == all.Keys;
      assert key in few ==> few[key] == all[key];
      assert (seen[key := values[key]] + few).Keys == (seen + all).Keys;
      assert seen[key := values[key]] + few == seen + all;
    } else {
      assert few == all;
    }
  }

  lemma {:induction false} RenderedText(values: map<string, string>, keys: seq<string>)
    requires forall key <- keys :: PlainKey(key) && (key in values ==> PlainValue(values[key]))
    ensures '\0' !in RenderKeys(values, keys) && '\r' !in RenderKeys(values, keys)
    ensures RenderKeys(values, keys) == [] <==> forall key <- keys :: key !in values
  {
    if keys != [] {
      assert keys == [keys[0]] + keys[1..];
      RenderedText(values, keys[1..]);
    }
  }

  lemma WithFirstKey(key: string, keys: seq<string>)
    requires PlainKey(key) && |key| <= 10 && Distinct(keys) && forall k <- keys :: PlainKey(k) && |k| > 10
    ensures Distinct([key] + keys) && forall k <- [key] + keys :: PlainKey(k)
  {
    forall i, j | 0 <= i < j < |[key] + keys|
      ensures ([key] + keys)[i] != ([key] + keys)[j]
    {
      assert keys[j - 1] in keys;
    }
  }

  lemma FirstKeysArePlain()
    ensures PlainKey("CHECK_MODE") && |"CHECK_MODE"| == 10 && PlainKey("MODE") && |"MODE"| == 4
  {
  }

  lemma KeysArePlain()
    ensures Distinct(GlobalKeys()) && forall key <- GlobalKeys() :: PlainKey(key)
    ensures Distinct(ProfileKeys()) && forall key <- ProfileKeys() :: PlainKey(key)
  {
    hide PlainKey, Distinct, ParamKeys;
    ParamKeysArePlain();
    FirstKeysArePlain();
    WithFirstKey("CHECK_MODE", ParamKeys());
    WithFirstKey("MODE", ParamKeys());
  }

  lemma ParamKeysArePlain()
    ensures Distinct(ParamKeys()) && forall key <- ParamKeys() :: PlainKey(key) && |key| > 10
  {
    hide KeyOf, PlainKey;
    var params := [CheckInterval, PingTimeout, FailureThreshold, SuccessThreshold, RecoveryHold, RecoveryJitterMax];
    forall i, j | 0 <= i < j < 6
      ensures ParamKeys()[i] != ParamKeys()[j]
    {
      assert ParamKeys()[i] == KeyOf(params[i]) && ParamKeys()[j] == KeyOf(params[j]) && params[i] != params[j];
      KeysDiffer(params[i], params[j]);
    }
    forall p: Param
      ensures PlainKey(KeyOf(p)) && |KeyOf(p)| > 10
    {
      KeyIsPlain(p);
    }
  }

  lemma KeyIsPlain(p: Param)
    ensures PlainKey(KeyOf(p)) && |KeyOf(p)| > 10
  {
  }

  lemma KeysDiffer(p: Param, q: Param)
    ensures (KeyOf(p) == KeyOf(q) <==> p == q) && KeyOf(p) in ParamKeys() && |KeyOf(p)| > 10
  {
  }

  lemma {:induction false} KeyHasParam(key: string) returns (p: Param)
    requires key in ParamKeys()
    ensures key == KeyOf(p)
  {
    p :| KeyOf(p) == key;
  }

  // ----- Round trips --------------------------------------------------------------------

  /** Whatever is read is within bounds, with a timeout no longer than the interval. */
  lemma ParsedIsValid(values: map<string, string>, defaults: Timing)
    requires TimingFrom(values, defaults).Some?
    ensures ValidTiming(TimingFrom(values, defaults).value)
  {
    hide Number, Numeral, Digits;
  }

  lemma NumeralIsPlain(s: string)
    requires Numeral(s)
    ensures PlainValue(s)
  {
  }

  lemma GlobalValueOf(c: GlobalConfig, p: Param)
    ensures KeyOf(p) in GlobalValues(c) && GlobalValues(c)[KeyOf(p)] == Digits(c.timing.Of(p))
    ensures "CHECK_MODE" in GlobalValues(c) && GlobalValues(c)["CHECK_MODE"] == c.checkMode
    ensures GlobalValues(c).Keys == set key <- GlobalKeys()
  {
    hide Digits;
    forall q: Param
      ensures (KeyOf(p) == KeyOf(q) <==> p == q) && |KeyOf(q)| > 10
    {
      KeysDiffer(p, q);
    }
    assert |"CHECK_MODE"| == 10;
    hide KeyOf;
  }

  lemma IntegerIsRead(c: GlobalConfig, p: Param, default: nat)
    requires ValidTiming(c.timing)
    ensures Integer(GlobalValues(c), p, default) == Some(c.timing.Of(p))
  {
    hide Digits, Number, GlobalValues, KeyOf;
    GlobalValueOf(c, p);
    NumberOfDigits(c.timing.Of(p));
  }

  lemma GlobalIsRead(c: GlobalConfig)
    requires ValidTiming(c.timing) && c.checkMode == "ping"
    ensures GlobalFrom(GlobalValues(c)) == Some(c)
  {
    hide GlobalValues, KeyOf, Integer, InBounds;
    IntegerIsRead(c, CheckInterval, DEFAULTS.interval);
    IntegerIsRead(c, PingTimeout, DEFAULTS.timeout);
    IntegerIsRead(c, FailureThreshold, DEFAULTS.failures);
    IntegerIsRead(c, SuccessThreshold, DEFAULTS.successes);
    IntegerIsRead(c, RecoveryHold, DEFAULTS.hold);
    IntegerIsRead(c, RecoveryJitterMax, DEFAULTS.jitterMax);
    GlobalValueOf(c, CheckInterval);
  }

  /** Every valid global configuration survives being written and read. */
  lemma GlobalRoundTrip(c: GlobalConfig)
    requires ValidTiming(c.timing) && c.checkMode == "ping"
    ensures ParseGlobal(RenderGlobal(c)) == Some(c)
  {
    hide GlobalValues, GlobalKeys, PlainKey, PlainValue, Distinct, RenderKeys, Lines, ParseLines, GlobalFrom,
      ValidTiming;
    var values := GlobalValues(c);
    KeysArePlain();
    GlobalValuesArePlain(c);
    GlobalIsRead(c);
    GlobalValueOf(c, CheckInterval);
    RenderedText(values, GlobalKeys());
    RenderedIsRead(values, GlobalKeys(), GlobalKeys(), map[]);
    assert map[] + Chosen(values, GlobalKeys()) == values;
  }

  lemma GlobalValuesArePlain(c: GlobalConfig)
    requires c.checkMode == "ping"
    ensures forall key <- GlobalKeys() :: key in GlobalValues(c) && PlainValue(GlobalValues(c)[key])
  {
    assert PlainValue("ping");
    hide Digits, PlainValue, GlobalValues;
    forall key | key in GlobalKeys()
      ensures key in GlobalValues(c) && PlainValue(GlobalValues(c)[key])
    {
      GlobalValueOf(c, CheckInterval);
      if key in ParamKeys() {
        var p := KeyHasParam(key);
        GlobalValueOf(c, p);
        DigitsAreNumerals(c.timing.Of(p));
        NumeralIsPlain(Digits(c.timing.Of(p)));
      }
    }
  }

  /** What was read from any text is what is read again after it was rendered. */
  lemma ReadRenderRead(text: string)
    requires ParseGlobal(text).Some?
    ensures ParseGlobal(RenderGlobal(ParseGlobal(text).value)) == ParseGlobal(text)
  {
    var values := ParseText(text, GlobalKeys(), true).value;
    ParsedIsValid(values, DEFAULTS);
    GlobalRoundTrip(ParseGlobal(text).value);
  }

  lemma AcceptedIsPlain(values: map<string, string>, global: GlobalConfig, key: string)
    requires ProfileFrom(values, global).Some? && key in values
    ensures key in ProfileKeys() && PlainValue(values[key])
  {
    hide PlainValue, ParamKeys, TimingFrom;
    ModesArePlain();
    if key in ParamKeys() {
      var p := KeyHasParam(key);
      AcceptedNumeral(values, global.timing, p);
      NumeralIsPlain(values[key]);
    }
  }

  lemma ModesArePlain()
    ensures PlainValue("disabled") && PlainValue("monitor") && PlainValue("auto")
  {
  }

  lemma AcceptedNumeral(values: map<string, string>, defaults: Timing, p: Param)
    requires TimingFrom(values, defaults).Some? && KeyOf(p) in values
    ensures Numeral(values[KeyOf(p)])
  {
    hide KeyOf, Number, Digits, InBounds;
  }

  /** The accepted settings of a profile survive being written and read, except that no settings
      at all are written as an empty file, which is refused when it is read. */
  lemma ProfileRoundTrip(values: map<string, string>, global: GlobalConfig)
    requires RenderProfile(values, global).Some?
    ensures ParseText(RenderProfile(values, global).value, ProfileKeys(), false) ==
            if values == map[] then None else Some(values)
  {
    hide ProfileFrom, ProfileKeys, PlainKey, PlainValue, Distinct, RenderKeys, Lines, ParseLines;
    KeysArePlain();
    forall key | key in values
      ensures key in ProfileKeys() && PlainValue(values[key])
    {
      AcceptedIsPlain(values, global, key);
    }
    RenderedText(values, ProfileKeys());
    RenderedIsRead(values, ProfileKeys(), ProfileKeys(), map[]);
    assert map[] + Chosen(values, ProfileKeys()) == values;
  }

  /** That empty file is something the code writes: no settings at all are accepted under every valid
      global configuration. */
  lemma NoSettingsAreAccepted(global: GlobalConfig)
    requires ValidTiming(global.timing)
    ensures RenderProfile(map[], global) == Some([])
    ensures ParseText([], ProfileKeys(), false).None?
  {
    var none: map<string, string> := map[];
    forall p: Param
      ensures Integer(none, p, global.timing.Of(p)) == Some(global.timing.Of(p))
    {
      NumberOfDigits(global.timing.Of(p));
    }
    DefaultTiming(global.timing);
    RenderNothing(ProfileKeys());
    hide RenderKeys, ProfileKeys, TimingFrom;
  }

  lemma DefaultTiming(t: Timing)
    requires ValidTiming(t) && forall p: Param :: Integer(map[], p, t.Of(p)) == Some(t.Of(p))
    ensures TimingFrom(map[], t) == Some(t)
  {
    hide Integer, InBounds;
    assert Integer(map[], CheckInterval, t.Of(CheckInterval)).Some?
      && Integer(map[], PingTimeout, t.Of(PingTimeout)).Some?;
    assert Integer(map[], FailureThreshold, t.Of(FailureThreshold)).Some?;
    assert Integer(map[], SuccessThreshold, t.Of(SuccessThreshold)).Some?;
    assert Integer(map[], RecoveryHold, t.Of(RecoveryHold)).Some?;
    assert Integer(map[], RecoveryJitterMax, t.Of(RecoveryJitterMax)).Some?;
  }

  lemma {:induction false} RenderNothing(keys: seq<string>)
    ensures RenderKeys(map[], keys) == []
  {
    if keys != [] {
      RenderNothing(keys[1..]);
    }
  }
}
