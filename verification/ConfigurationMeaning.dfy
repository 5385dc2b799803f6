/** What a configuration file means, with its keys, bounds and defaults written out. */
module ConfigurationMeaning {
  import opened Common
  import opened Decimal
  import opened Configuration

  // ----- Lines --------------------------------------------------------------------------

  /** The characters that end a line. */
  const ENDINGS := ['\n', '\U{0B}', '\U{0C}', '\U{1C}', '\U{1D}', '\U{1E}', '\U{85}', '\U{2028}', '\U{2029}']

  lemma EndingsBreak(c: char)
    ensures Breaks(c) <==> c in ENDINGS
  {
  }

  lemma {:induction false} FirstEnding(line: string, end: char, rest: string)
    requires end in ENDINGS && forall c <- line :: c !in ENDINGS
    ensures FirstBreak(line + [end] + rest) == |line| && FirstBreak(line) == |line|
  {
    hide Breaks;
    var text := line + [end] + rest;
    if line == [] {
      EndingsBreak(end);
    } else {
      EndingsBreak(line[0]);
      assert line[0] in line && text[1..] == line[1..] + [end] + rest;
      FirstEnding(line[1..], end, rest);
    }
  }

  /** A line goes up to the first character that ends lines; the last line needs none. */
  lemma LinesSplit(line: string, end: char, rest: string)
    requires end in ENDINGS && forall c <- line :: c !in ENDINGS
    ensures Lines(line + [end] + rest) == [line] + Lines(rest)
    ensures Lines(line) == if line == "" then [] else [line]
  {
    hide Breaks, FirstBreak;
    var text := line + [end] + rest;
    FirstEnding(line, end, rest);
    assert text[..|line|] == line && text[|line| + 1..] == rest;
  }

  // ----- Settings -----------------------------------------------------------------------

  const BLANKS := ['\t', '\n', '\U{0B}', '\U{0C}', '\r', '\U{1C}', '\U{1D}', '\U{1E}', '\U{1F}', ' ']

  /** An allowed key with a value that is ASCII without blanks. */
  predicate Clean(key: string, value: string, allowed: seq<string>) {
    && key in allowed && '=' !in key && '=' !in value
    && value != "" && forall c <- value :: c as int < 128 && c !in BLANKS
  }

  /** Each line gives one new key its value, and with what was given before that is everything. */
  predicate Gives(seen: map<string, string>, lines: seq<string>, keys: seq<string>, allowed: seq<string>,
                  values: map<string, string>)
  {
    && |keys| == |lines| && Distinct(keys)
    && (forall i :: 0 <= i < |keys| ==>
          && keys[i] !in seen && keys[i] in values && lines[i] == keys[i] + "=" + values[keys[i]]
          && Clean(keys[i], values[keys[i]], allowed))
    && (forall key <- seen :: key in values && values[key] == seen[key])
    && (forall key <- values :: key in seen || key in keys)
  }

  lemma SafeIsClean(value: string)
    ensures SafeValue(value) <==> value != "" && forall c <- value :: c as int < 128 && c !in BLANKS
  {
    forall c | c in value
      ensures c <= '\U{7F}' && !Space(c) <==> c as int < 128 && c !in BLANKS
    {
    }
  }

  lemma {:induction false} EqualsSplit(line: string)
    requires Count(line, '=') == 1
    ensures var i := FirstEquals(line);
            line == line[..i] + "=" + line[i + 1..] && '=' !in line[..i] && '=' !in line[i + 1..]
  {
    var rest := line[1..];
    assert line == [line[0]] + rest;
    if line[0] == '=' {
      NoneCounted(rest);
      assert line[..0] == [];
    } else {
      EqualsSplit(rest);
      var i := FirstEquals(rest);
      hide Count;
      assert line[..i + 1] == [line[0]] + rest[..i];
      assert line[i + 2..] == rest[i + 1..];
      assert rest == rest[..i] + "=" + rest[i + 1..];
      hide FirstEquals;
    }
  }

  lemma {:induction false} NoneCounted(text: string)
    requires Count(text, '=') == 0
    ensures '=' !in text
  {
    if text != [] {
      NoneCounted(text[1..]);
    }
  }

  /** A line is read as a key and a value in the only way it can be. */
  lemma LineMeans(line: string, allowed: seq<string>, seen: map<string, string>, key: string, value: string)
    ensures line == key + "=" + value && Clean(key, value, allowed) && key !in seen ==>
              ParseLine(line, allowed, seen) == Some(seen[key := value])
  {
    hide SafeValue, Count, FirstEquals;
    if line == key + "=" + value && Clean(key, value, allowed) && key !in seen {
      EqualsIs(key, value);
      SafeIsClean(value);
      assert line[..|key|] == key && line[|key| + 1..] == value;
    }
  }

  lemma LineHas(line: string, allowed: seq<string>, seen: map<string, string>) returns (key: string, value: string)
    requires ParseLine(line, allowed, seen).Some?
    ensures line == key + "=" + value && Clean(key, value, allowed) && key !in seen
    ensures ParseLine(line, allowed, seen) == Some(seen[key := value])
  {
    hide SafeValue, Count, FirstEquals;
    EqualsSplit(line);
    var i := FirstEquals(line);
    key, value := line[..i], line[i + 1..];
    SafeIsClean(value);
  }

  lemma {:induction false} GivenIsRead(seen: map<string, string>, lines: seq<string>, keys: seq<string>,
                                       allowed: seq<string>, values: map<string, string>)
    requires Gives(seen, lines, keys, allowed, values)
    ensures ParseLines(lines, allowed, seen) == Some(values)
    decreases |lines|
  {
    hide Clean, ParseLine;
    if lines == [] {
      assert seen == values;
    } else {
      LineMeans(lines[0], allowed, seen, keys[0], values[keys[0]]);
      GivesRest(seen, lines, keys, allowed, values);
      GivenIsRead(seen[keys[0] := values[keys[0]]], lines[1..], keys[1..], allowed, values);
    }
  }

  lemma GivesRest(seen: map<string, string>, lines: seq<string>, keys: seq<string>, allowed: seq<string>,
                  values: map<string, string>)
    requires Gives(seen, lines, keys, allowed, values) && lines != []
    ensures Gives(seen[keys[0] := values[keys[0]]], lines[1..], keys[1..], allowed, values)
  {
    hide Clean;
    assert forall i :: 0 <= i < |keys| - 1 ==> keys[1..][i] == keys[i + 1] && lines[1..][i] == lines[i + 1];
    assert forall key <- keys :: key == keys[0] || key in keys[1..];
  }

  lemma {:induction false} ReadIsGiven(lines: seq<string>, allowed: seq<string>, seen: map<string, string>)
    returns (keys: seq<string>)
    requires ParseLines(lines, allowed, seen).Some?
    ensures Gives(seen, lines, keys, allowed, ParseLines(lines, allowed, seen).value)
    decreases |lines|
  {
    hide Clean, ParseLine;
    keys := [];
    if lines != [] {
      var key, value := LineHas(lines[0], allowed, seen);
      var rest := ReadIsGiven(lines[1..], allowed, seen[key := value]);
      keys := [key] + rest;
      GivesMore(seen, lines, key, value, rest, allowed, ParseLines(lines, allowed, seen).value);
    }
  }

  lemma GivesMore(seen: map<string, string>, lines: seq<string>, key: string, value: string, rest: seq<string>,
                  allowed: seq<string>, values: map<string, string>)
    requires lines != [] && key !in seen && lines[0] == key + "=" + value && Clean(key, value, allowed)
    requires Gives(seen[key := value], lines[1..], rest, allowed, values)
    ensures Gives(seen, lines, [key] + rest, allowed, values)
  {
    hide Clean;
    assert values[key] == value;
    assert forall i :: 0 < i < |lines| ==> ([key] + rest)[i] == rest[i - 1] && lines[i] == lines[1..][i - 1];
  }

  /** A text is accepted, and read as `values`, exactly when it is neither empty nor has a null or a
      carriage return, each of its lines gives a different allowed key a clean value, these are all the
      values, and every key that must be there is. */
  lemma TextMeans(text: string, allowed: seq<string>, requireAll: bool, values: map<string, string>)
    ensures ParseText(text, allowed, requireAll) == Some(values) <==>
              && text != "" && '\0' !in text && '\r' !in text
              && (exists keys :: Gives(map[], Lines(text), keys, allowed, values))
              && (requireAll ==> forall key <- allowed :: key in values)
  {
    hide Gives, Lines, ParseLines;
    var lines, none: map<string, string> := Lines(text), map[];
    if ParseLines(lines, allowed, none) == Some(values) {
      var keys := ReadIsGiven(lines, allowed, none);
      assert Gives(none, lines, keys, allowed, values);
      assert exists keys :: Gives(map[], Lines(text), keys, allowed, values);
      assert (exists key <- allowed :: key !in values) <==> !forall key <- allowed :: key in values;
    } else {
      forall keys
        ensures !Gives(none, lines, keys, allowed, values)
      {
        if Gives(none, lines, keys, allowed, values) {
          GivenIsRead(none, lines, keys, allowed, values);
        }
      }
    }
  }

  // ----- Values -------------------------------------------------------------------------

  /** A key's number: the one given, or the default if the key is not there. */
  predicate Sets(values: map<string, string>, key: string, default: nat, n: nat) {
    if key in values then Numeral(values[key]) && Number(values[key]) == n else n == default
  }

  /** Every key with its bounds, and the timeout no longer than the interval. */
  predicate SetsTiming(values: map<string, string>, defaults: Timing, t: Timing) {
    && Sets(values, "CHECK_INTERVAL_SECONDS", defaults.interval, t.interval) && 1 <= t.interval <= 300
    && Sets(values, "PING_TIMEOUT_SECONDS", defaults.timeout, t.timeout) && 1 <= t.timeout <= 60
    && Sets(values, "FAILURE_THRESHOLD", defaults.failures, t.failures) && 1 <= t.failures <= 1000
    && Sets(values, "SUCCESS_THRESHOLD", defaults.successes, t.successes) && 1 <= t.successes <= 1000
    && Sets(values, "RECOVERY_HOLD_SECONDS", defaults.hold, t.hold) && 0 <= t.hold <= 3600
    && Sets(values, "RECOVERY_JITTER_MAX_SECONDS", defaults.jitterMax, t.jitterMax) && 0 <= t.jitterMax <= 300
    && t.timeout <= t.interval
  }

  lemma IntegerMeans(values: map<string, string>, p: Param, default: nat, n: nat)
    ensures Integer(values, p, default) == Some(n) <==> Sets(values, KeyOf(p), default, n) && InBounds(p, n)
  {
    hide KeyOf, InBounds, Number, Digits;
    NumberOfDigits(default);
  }

  /** The timing read from settings is the one they set, and there is one just when it is in bounds. */
  lemma TimingMeans(values: map<string, string>, defaults: Timing, t: Timing)
    ensures TimingFrom(values, defaults) == Some(t) <==> SetsTiming(values, defaults, t)
  {
    hide Integer, Sets;
    IntegerMeans(values, CheckInterval, defaults.interval, t.interval);
    IntegerMeans(values, PingTimeout, defaults.timeout, t.timeout);
    IntegerMeans(values, FailureThreshold, defaults.failures, t.failures);
    IntegerMeans(values, SuccessThreshold, defaults.successes, t.successes);
    IntegerMeans(values, RecoveryHold, defaults.hold, t.hold);
    IntegerMeans(values, RecoveryJitterMax, defaults.jitterMax, t.jitterMax);
  }

  const TIMING_KEYS := ["CHECK_INTERVAL_SECONDS", "PING_TIMEOUT_SECONDS", "FAILURE_THRESHOLD", "SUCCESS_THRESHOLD",
                        "RECOVERY_HOLD_SECONDS", "RECOVERY_JITTER_MAX_SECONDS"]

  /** The global configuration a set of values stands for. */
  lemma GlobalMeans(values: map<string, string>, c: GlobalConfig)
    ensures GlobalFrom(values) == Some(c) <==>
              && (forall key <- values :: key == "CHECK_MODE" || key in TIMING_KEYS)
              && ("CHECK_MODE" in values ==> values["CHECK_MODE"] == "ping") && c.checkMode == "ping"
              && SetsTiming(values, Timing(2, 1, 10, 10, 10, 10), c.timing)
  {
    hide TimingFrom, SetsTiming;
    TimingMeans(values, DEFAULTS, c.timing);
    assert forall key :: key in GlobalKeys() <==> key == "CHECK_MODE" || key in TIMING_KEYS;
  }

  /** The configuration of a profile: what its settings leave out is taken from the global one. */
  lemma ProfileMeans(values: map<string, string>, global: GlobalConfig, c: ProfileConfig)
    ensures ProfileFrom(values, global) == Some(c) <==>
              && (forall key <- values :: key == "MODE" || key in TIMING_KEYS)
              && c.mode == (if "MODE" in values then values["MODE"] else "disabled")
              && (c.mode == "disabled" || c.mode == "monitor" || c.mode == "auto")
              && SetsTiming(values, global.timing, c.timing)
  {
    hide TimingFrom, SetsTiming;
    TimingMeans(values, global.timing, c.timing);
    assert forall key :: key in ProfileKeys() <==> key == "MODE" || key in TIMING_KEYS;
  }

  // ----- Text ---------------------------------------------------------------------------

  function LineOf(values: map<string, string>, key: string): string {
    if key in values then key + "=" + values[key] + "\n" else ""
  }

  lemma {:induction false} RenderOneMore(values: map<string, string>, keys: seq<string>, key: string)
    ensures RenderKeys(values, keys + [key]) == RenderKeys(values, keys) + LineOf(values, key)
  {
    if keys == [] {
      assert (keys + [key])[1..] == [];
    } else {
      assert (keys + [key])[1..] == keys[1..] + [key];
      RenderOneMore(values, keys[1..], key);
    }
  }

  lemma RenderTo(values: map<string, string>, keys: seq<string>, n: nat)
    requires n < |keys|
    ensures RenderKeys(values, keys[..n + 1]) == RenderKeys(values, keys[..n]) + LineOf(values, keys[n])
  {
    RenderOneMore(values, keys[..n], keys[n]);
    assert keys[..n + 1] == keys[..n] + [keys[n]];
  }

  lemma RenderNone(values: map<string, string>, keys: seq<string>)
    ensures RenderKeys(values, keys[..0]) == ""
  {
  }

  /** A rendered file: the given keys in their fixed order, one line each. */
  lemma RenderedLines(values: map<string, string>, first: string)
    ensures RenderKeys(values, [first] + ParamKeys()) ==
            LineOf(values, first) + LineOf(values, "CHECK_INTERVAL_SECONDS") + LineOf(values, "PING_TIMEOUT_SECONDS")
            + LineOf(values, "FAILURE_THRESHOLD") + LineOf(values, "SUCCESS_THRESHOLD")
            + LineOf(values, "RECOVERY_HOLD_SECONDS") + LineOf(values, "RECOVERY_JITTER_MAX_SECONDS")
  {
    hide LineOf, RenderKeys;
    var keys := [first] + TIMING_KEYS;
    RenderTo(values, keys, 0);
    RenderNone(values, keys);
    RenderTo(values, keys, 1);
    RenderTo(values, keys, 2);
    RenderTo(values, keys, 3);
    RenderTo(values, keys, 4);
    RenderTo(values, keys, 5);
    RenderTo(values, keys, 6);
    assert keys[..7] == keys == [first] + ParamKeys();
  }

  function NumberLine(key: string, n: nat): string {
    key + "=" + Digits(n) + "\n"
  }

  /** The text of a global configuration file, which is also what such a text is read as. */
  lemma GlobalText(c: GlobalConfig)
    requires c.checkMode == "ping" && SetsTiming(map[], c.timing, c.timing)
    ensures var t := c.timing;
            var text := "CHECK_MODE=" + "ping" + "\n"
              + NumberLine("CHECK_INTERVAL_SECONDS", t.interval) + NumberLine("PING_TIMEOUT_SECONDS", t.timeout)
              + NumberLine("FAILURE_THRESHOLD", t.failures) + NumberLine("SUCCESS_THRESHOLD", t.successes)
              + NumberLine("RECOVERY_HOLD_SECONDS", t.hold) + NumberLine("RECOVERY_JITTER_MAX_SECONDS", t.jitterMax);
            RenderGlobal(c) == text && ParseGlobal(text) == Some(c)
  {
    RenderedLines(GlobalValues(c), "CHECK_MODE");
    ModeLine(c);
    ParamLine(c, CheckInterval);
    ParamLine(c, PingTimeout);
    ParamLine(c, FailureThreshold);
    ParamLine(c, SuccessThreshold);
    ParamLine(c, RecoveryHold);
    ParamLine(c, RecoveryJitterMax);
    hide LineOf, NumberLine, RenderKeys, GlobalValues, ParseGlobal, SetsTiming, ParamKeys;
    TimingIsValid(c.timing);
    GlobalRoundTrip(c);
  }

  lemma TimingIsValid(t: Timing)
    ensures SetsTiming(map[], t, t) <==> ValidTiming(t)
  {
    if ValidTiming(t) {
      assert InBounds(CheckInterval, t.Of(CheckInterval)) && InBounds(PingTimeout, t.Of(PingTimeout));
      assert InBounds(FailureThreshold, t.Of(FailureThreshold)) && InBounds(SuccessThreshold, t.Of(SuccessThreshold));
      assert InBounds(RecoveryHold, t.Of(RecoveryHold)) && InBounds(RecoveryJitterMax, t.Of(RecoveryJitterMax));
    }
  }

  lemma ModeLine(c: GlobalConfig)
    ensures LineOf(GlobalValues(c), "CHECK_MODE") == "CHECK_MODE=" + c.checkMode + "\n"
  {
    hide GlobalValues;
    GlobalValueOf(c, CheckInterval);
    assert "CHECK_MODE" + "=" == "CHECK_MODE=";
  }

  lemma ParamLine(c: GlobalConfig, p: Param)
    ensures LineOf(GlobalValues(c), KeyOf(p)) == NumberLine(KeyOf(p), c.timing.Of(p))
  {
    hide GlobalValues, KeyOf, Digits;
    GlobalValueOf(c, p);
  }

  /** The text of a profile's settings file: its settings, one line each, in the fixed order. */
  lemma ProfileText(values: map<string, string>, global: GlobalConfig)
    ensures RenderProfile(values, global).Some? <==> ProfileFrom(values, global).Some?
    ensures RenderProfile(values, global).Some? ==>
              RenderProfile(values, global).value ==
              LineOf(values, "MODE") + LineOf(values, "CHECK_INTERVAL_SECONDS") + LineOf(values, "PING_TIMEOUT_SECONDS")
              + LineOf(values, "FAILURE_THRESHOLD") + LineOf(values, "SUCCESS_THRESHOLD")
              + LineOf(values, "RECOVERY_HOLD_SECONDS") + LineOf(values, "RECOVERY_JITTER_MAX_SECONDS")
  {
    RenderedLines(values, "MODE");
    hide LineOf, RenderKeys, ProfileFrom, ParamKeys;
  }
}
