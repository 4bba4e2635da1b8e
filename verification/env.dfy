/**
 Reading the `.env` file (`load_env`, identical in app.py and
 anomaly_detection.py): a line without `=` is skipped; otherwise the line is
 stripped, split at its first `=`, and the stripped halves become a
 setting. Settings are applied in file order; a setting `os.environ` refuses
 (an empty name, a NUL character) raises and ends the load. The environment
 is a map here; reading the file is not modelled.
 */
module Env {
  import opened Results
  import opened Text

  /** One line as the file iterator yields it, line terminator included. */
  function ParseLine(line: string): (r: Option<(string, string)>)
    ensures r.None? <==> '=' !in line
    ensures r.Some? ==> '=' !in r.value.0 && Trimmed(r.value.0) && Trimmed(r.value.1)
  {
    if '=' !in line then None
    else
      StripChars(line);
      Some(SplitStripped(Strip(line)))
  }

  /** `line.strip().split('=', 1)` with both halves stripped again. */
  function SplitStripped(t: string): (kv: (string, string))
    requires '=' in t
    ensures '=' !in kv.0 && Trimmed(kv.0) && Trimmed(kv.1)
    ensures kv.0 == Strip(t[..FirstIndexOf(t, '=')])
  {
    var i := FirstIndexOf(t, '=');
    StripChars(t[..i]);
    (Strip(t[..i]), Strip(t[i + 1..]))
  }

  /** A line holding `=` is split after stripping. */
  lemma ParseLineSplits(line: string)
    requires '=' in line
    ensures '=' in Strip(line)
    ensures ParseLine(line) == Some(SplitStripped(Strip(line)))
  {
    StripChars(line);
  }

  /** Stripping `k + "=" + v` trims only the front of `k` and the back of `v`. */
  lemma StripAroundEquals(k: string, v: string)
    ensures Strip(k + "=" + v) == TrimStart(k) + "=" + TrimEnd(v)
  {
    assert "=" == ['='];
    StripAround(k, '=', v);
  }

  /** The first `=` of `ks + "=" + ve` is the one after `ks` when `ks` has none, so the
      split gives back the two sides. */
  lemma SplitAfterFirst(ks: string, ve: string)
    requires '=' !in ks
    ensures SplitStripped(ks + "=" + ve) == (Strip(ks), Strip(ve))
  {
    var t := ks + "=" + ve;
    assert t[|ks|] == '=';
    assert FirstIndexOf(t, '=') == |ks|;
    assert t[..|ks|] == ks;
    assert t[|ks| + 1..] == ve;
  }

  /** Splitting the raw line at its first `=` and stripping both halves gives the same
      setting: stripping the whole line first changes nothing, and a value may itself
      contain `=`. */
  lemma ParseSplitsRaw(k: string, v: string)
    requires '=' !in k
    ensures ParseLine(k + "=" + v) == Some((Strip(k), Strip(v)))
  {
    var line := k + "=" + v;
    assert line[|k|] == '=';
    ParseLineSplits(line);
    StripAroundEquals(k, v);
    TrimStartKeeps(k, '=');
    SplitAfterFirst(TrimStart(k), TrimEnd(v));
    StripAfterTrimStart(k);
    StripAfterTrimEnd(v);
  }

  /** A key and a value written with any whitespace around them and around the `=`
      come back exactly. */
  lemma ParseRoundTrip(a: string, k: string, b: string, c: string, v: string, d: string)
    requires AllSpace(a) && AllSpace(b) && AllSpace(c) && AllSpace(d)
    requires Trimmed(k) && Trimmed(v) && '=' !in k
    ensures ParseLine(a + k + b + "=" + c + v + d) == Some((k, v))
  {
    var key := a + k + b;
    var value := c + v + d;
    assert '=' !in a && '=' !in b;
    assert '=' !in key;
    assert a + k + b + "=" + c + v + d == key + "=" + value;
    ParseSplitsRaw(key, value);
    StripPadded(a, k, b);
    StripPadded(c, v, d);
  }

  type Environment = map<string, string>

  /** A parsed line: a key and its value, or nothing for a skipped line. */
  type Setting = Option<(string, string)>

  /** The lines parsed one by one, in file order. */
  function ParseAll(lines: seq<string>): (s: seq<Setting>)
    ensures |s| == |lines|
    ensures forall i :: 0 <= i < |lines| ==> s[i] == ParseLine(lines[i])
  {
    seq(|lines|, i requires 0 <= i < |lines| => ParseLine(lines[i]))
  }

  /** What the setting gives `key`, if it sets it. */
  function ValueFor(s: Setting, key: string): Option<string>
  {
    if s.Some? && s.value.0 == key then Some(s.value.1) else None
  }

  /** Reference: the value of the last setting of `key`, if there is one. */
  function LastSetting(settings: seq<Setting>, key: string): (r: Option<string>)
    ensures r.None? <==> forall i :: 0 <= i < |settings| ==> ValueFor(settings[i], key).None?
    ensures r.Some? ==> exists i :: 0 <= i < |settings| && ValueFor(settings[i], key) == r
  {
    if settings == [] then None
    else
      var later := LastSetting(settings[1..], key);
      assert forall i :: 1 <= i < |settings| ==> settings[1..][i - 1] == settings[i];
      if later.Some? then later else ValueFor(settings[0], key)
  }

  /** The setting that decides a key is the last one for it: every later one leaves the
      key alone. */
  lemma {:induction false} LastSettingWins(settings: seq<Setting>, key: string, i: nat)
    requires i < |settings| && ValueFor(settings[i], key).Some?
    requires forall j :: i < j < |settings| ==> ValueFor(settings[j], key).None?
    ensures LastSetting(settings, key) == ValueFor(settings[i], key)
  {
    if i > 0 {
      assert forall j :: i - 1 < j < |settings[1..]| ==> settings[1..][j] == settings[j + 1];
      LastSettingWins(settings[1..], key, i - 1);
    } else {
      assert forall j :: 0 <= j < |settings[1..]| ==> settings[1..][j] == settings[j + 1];
    }
  }

  function Lookup(env: Environment, key: string): Option<string>
  {
    if key in env then Some(env[key]) else None
  }

  /** The first value when there is one, else the second. */
  function Prefer(a: Option<string>, b: Option<string>): Option<string>
  {
    if a.Some? then a else b
  }

  /** Whether `os.environ[key] = value` accepts a setting: the name must be non-empty and
      hold no `=`, and neither part may hold a NUL character. A skipped line sets nothing
      and is always accepted. */
  predicate Settable(s: Setting)
  {
    s.None? || (s.value.0 != "" && '=' !in s.value.0 && '\0' !in s.value.0 && '\0' !in s.value.1)
  }

  /** `load_env` stopped by an exception: the position of the refused line, and the
      environment as the lines before it left it. */
  datatype EnvError = Refused(line: nat, applied: Environment)

  /** One setting applied to the environment (`os.environ[key] = value`), or nothing when
      the assignment raises. */
  function Apply(env: Environment, s: Setting): (r: Option<Environment>)
    ensures r.None? <==> !Settable(s)
    ensures r.Some? ==> forall key :: Lookup(r.value, key) == Prefer(ValueFor(s, key), Lookup(env, key))
  {
    if !Settable(s) then None
    else if s.Some? then Some(env[s.value.0 := s.value.1])
    else Some(env)
  }

  /** The settings applied in order. When all are accepted, for each key the last setting
      wins and a key no setting names keeps its previous value (or stays unset). Otherwise
      the first refused setting raises: the ones before it have been applied, and none
      after it is. */
  function ApplyAll(env: Environment, settings: seq<Setting>): (r: Result<Environment, EnvError>)
    ensures r.Success? <==> forall i :: 0 <= i < |settings| ==> Settable(settings[i])
    ensures r.Success? ==> forall key :: Lookup(r.value, key) == Prefer(LastSetting(settings, key), Lookup(env, key))
    ensures r.Failure? ==>
      && r.error.line < |settings|
      && !Settable(settings[r.error.line])
      && (forall j :: 0 <= j < r.error.line ==> Settable(settings[j]))
      && forall key :: Lookup(r.error.applied, key) == Prefer(LastSetting(settings[..r.error.line], key), Lookup(env, key))
    decreases |settings|
  {
    if settings == [] then Success(env)
    else
      var rest := settings[1..];
      assert forall i :: 1 <= i < |settings| ==> settings[i] == rest[i - 1];
      match Apply(env, settings[0])
      case None => Failure(Refused(0, env))
      case Some(next) =>
        match ApplyAll(next, rest)
        case Success(e) => Success(e)
        case Failure(Refused(k, applied)) =>
          assert settings[..k + 1][1..] == rest[..k];
          Failure(Refused(k + 1, applied))
  }

  /** `load_env` on the lines of the file. */
  function LoadEnv(env: Environment, lines: seq<string>): (r: Result<Environment, EnvError>)
    ensures r.Success? <==> forall i :: 0 <= i < |lines| ==> Settable(ParseLine(lines[i]))
    ensures r.Success? ==> forall key :: Lookup(r.value, key) == Prefer(LastSetting(ParseAll(lines), key), Lookup(env, key))
    ensures r.Failure? ==>
      && r.error.line < |lines|
      && !Settable(ParseLine(lines[r.error.line]))
      && (forall j :: 0 <= j < r.error.line ==> Settable(ParseLine(lines[j])))
      && forall key :: Lookup(r.error.applied, key) == Prefer(LastSetting(ParseAll(lines)[..r.error.line], key), Lookup(env, key))
  {
    ApplyAll(env, ParseAll(lines))
  }

  /** A line whose text before the first `=` is blank (such as `=x`) sets the empty name,
      which `os.environ` refuses. */
  lemma BlankKeyLine(k: string, v: string)
    requires AllSpace(k)
    ensures ParseLine(k + "=" + v) == Some(("", Strip(v)))
    ensures !Settable(ParseLine(k + "=" + v))
  {
    BlankKeySplits(k, v);
    BlankStrips(k);
  }

  lemma BlankKeySplits(k: string, v: string)
    requires AllSpace(k)
    ensures ParseLine(k + "=" + v) == Some((Strip(k), Strip(v)))
  {
    assert '=' !in k by {
      assert !IsSpace('=');
    }
    ParseSplitsRaw(k, v);
  }

  lemma BlankStrips(k: string)
    requires AllSpace(k)
    ensures Strip(k) == ""
  {
  }

  /** Such a line ends `load_env`: it raises there, with exactly the lines before it
      applied and none after it. */
  lemma EmptyKeyRefused(env: Environment, before: seq<string>, k: string, v: string, after: seq<string>)
    requires LoadEnv(env, before).Success?
    requires AllSpace(k)
    ensures LoadEnv(env, before + [k + "=" + v] + after).Failure?
    ensures LoadEnv(env, before + [k + "=" + v] + after).error.line == |before|
    ensures forall key :: Lookup(LoadEnv(env, before + [k + "=" + v] + after).error.applied, key)
                       == Lookup(LoadEnv(env, before).value, key)
  {
    var line := k + "=" + v;
    var pre, s, post := ParseAll(before), ParseLine(line), ParseAll(after);
    assert !Settable(s) by {
      BlankKeyLine(k, v);
    }
    assert ParseAll(before + [line] + after) == pre + [s] + post by {
      ParseAllConcat(before, [line]);
      ParseAllConcat(before + [line], after);
      assert ParseAll([line]) == [s];
    }
    RefusedStops(env, pre, s, post);
  }

  lemma ParseAllConcat(a: seq<string>, b: seq<string>)
    ensures ParseAll(a + b) == ParseAll(a) + ParseAll(b)
  {
  }

  /** A refused setting ends the load: the settings before it are applied, those after it
      are not. */
  lemma RefusedStops(env: Environment, pre: seq<Setting>, s: Setting, post: seq<Setting>)
    requires ApplyAll(env, pre).Success? && !Settable(s)
    ensures ApplyAll(env, pre + [s] + post).Failure?
    ensures ApplyAll(env, pre + [s] + post).error.line == |pre|
    ensures forall key :: Lookup(ApplyAll(env, pre + [s] + post).error.applied, key)
                       == Lookup(ApplyAll(env, pre).value, key)
  {
    var all := pre + [s] + post;
    LineBetween(pre, s, post);
    var r := ApplyAll(env, all);
    assert r.Failure?;
    assert r.error.line == |pre|;
  }

  lemma LineBetween<T>(before: seq<T>, line: T, after: seq<T>)
    ensures (before + [line] + after)[|before|] == line
    ensures (before + [line] + after)[..|before|] == before
    ensures forall i :: 0 <= i < |before| ==> (before + [line] + after)[i] == before[i]
  {
  }

  /** A key set on line `i` and on no later line ends with the value from line `i`, if the
      load gets past line `i`. */
  lemma LaterLineOverrides(env: Environment, lines: seq<string>, key: string, i: nat, v: string)
    requires i < |lines| && ParseLine(lines[i]) == Some((key, v))
    requires forall j :: i < j < |lines| ==> ParseLine(lines[j]).None? || ParseLine(lines[j]).value.0 != key
    ensures LoadEnv(env, lines).Success? ==> Lookup(LoadEnv(env, lines).value, key) == Some(v)
    ensures LoadEnv(env, lines).Failure? && i < LoadEnv(env, lines).error.line ==>
              Lookup(LoadEnv(env, lines).error.applied, key) == Some(v)
  {
    LaterLinesSilent(lines, key, i);
    LastSettingApplied(env, ParseAll(lines), key, i, v);
  }

  /** The same on parsed settings: the last setting of a key is the value left in the
      environment, whether the load completes or stops after it. */
  lemma LastSettingApplied(env: Environment, settings: seq<Setting>, key: string, i: nat, v: string)
    requires i < |settings| && ValueFor(settings[i], key) == Some(v)
    requires forall j :: i < j < |settings| ==> ValueFor(settings[j], key).None?
    ensures ApplyAll(env, settings).Success? ==> Lookup(ApplyAll(env, settings).value, key) == Some(v)
    ensures ApplyAll(env, settings).Failure? && i < ApplyAll(env, settings).error.line ==>
              Lookup(ApplyAll(env, settings).error.applied, key) == Some(v)
  {
    LastSettingWins(settings, key, i);
    var r := ApplyAll(env, settings);
    if r.Failure? && i < r.error.line {
      var pre := settings[..r.error.line];
      assert forall j :: 0 <= j < |pre| ==> pre[j] == settings[j];
      LastSettingWins(pre, key, i);
    }
  }

  lemma LaterLinesSilent(lines: seq<string>, key: string, i: nat)
    requires forall j :: i < j < |lines| ==> ParseLine(lines[j]).None? || ParseLine(lines[j]).value.0 != key
    ensures forall j :: i < j < |lines| ==> ValueFor(ParseAll(lines)[j], key).None?
  {
  }

  /** A key that no line sets keeps its previous value, or stays unset, whether or not the
      load completes. */
  lemma UnmentionedKeyKept(env: Environment, lines: seq<string>, key: string)
    requires forall j :: 0 <= j < |lines| ==> ParseLine(lines[j]).None? || ParseLine(lines[j]).value.0 != key
    ensures LoadEnv(env, lines).Success? ==> Lookup(LoadEnv(env, lines).value, key) == Lookup(env, key)
    ensures LoadEnv(env, lines).Failure? ==> Lookup(LoadEnv(env, lines).error.applied, key) == Lookup(env, key)
  {
    var settings := ParseAll(lines);
    assert forall j :: 0 <= j < |settings| ==> ValueFor(settings[j], key).None?;
    UnsetKeyKept(env, settings, key);
  }

  /** The same on parsed settings. */
  lemma UnsetKeyKept(env: Environment, settings: seq<Setting>, key: string)
    requires forall j :: 0 <= j < |settings| ==> ValueFor(settings[j], key).None?
    ensures ApplyAll(env, settings).Success? ==> Lookup(ApplyAll(env, settings).value, key) == Lookup(env, key)
    ensures ApplyAll(env, settings).Failure? ==> Lookup(ApplyAll(env, settings).error.applied, key) == Lookup(env, key)
  {
  }
}
