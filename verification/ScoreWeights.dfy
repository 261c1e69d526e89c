/** The ten component weights and their configuration string. */
module ScoreWeights {
  import opened Prelude
  import opened Texts

  const DEFAULTS: map<string, real> := map[
    "skills" := 25.0, "role_alignment" := 20.0, "seniority" := 10.0, "years_experience" := 10.0, "domain" := 10.0,
    "industry" := 5.0, "leadership" := 5.0, "location" := 5.0, "work_mode" := 5.0, "compensation" := 5.0]

  /** How the configuration reads spaces and finite numbers. */
  datatype Ops = Ops(isSpace: char -> bool, parse: string -> Option<real>)

  function Find(s: string, c: char): Option<nat> {
    if s == "" then None
    else if s[0] == c then Some(0)
    else match Find(s[1..], c)
      case None => None
      case Some(i) => Some(i + 1)
  }

  lemma FindInside(s: string, c: char)
    ensures Find(s, c).Some? ==> Find(s, c).value < |s| && s[Find(s, c).value] == c
    ensures Find(s, c).None? <==> c !in s
  {
  }

  datatype Setting = Setting(name: string, weight: real)

  /** The weight one part of the string sets: a known name, and a number clamped at zero. */
  function SettingOf(ops: Ops, part: string): Option<Setting> {
    match Find(part, '=')
    case None => None
    case Some(i) =>
      FindInside(part, '=');
      var key := Strip(part[..i], ops.isSpace);
      var value := Strip(part[i + 1..], ops.isSpace);
      if key !in DEFAULTS || value == "" then None
      else match ops.parse(value)
        case None => None
        case Some(w) => Some(Setting(key, if w < 0.0 then 0.0 else w))
  }

  predicate Sets(ops: Ops, part: string, name: string) {
    SettingOf(ops, part).Some? && SettingOf(ops, part).value.name == name
  }

  /** The weight of a name is the one set last, or its default when no part sets it. */
  ghost predicate LastWins(ops: Ops, parts: seq<string>, name: string, weight: real)
    requires name in DEFAULTS
  {
    || ((forall i :: 0 <= i < |parts| ==> !Sets(ops, parts[i], name)) && weight == DEFAULTS[name])
    || (exists i :: 0 <= i < |parts| && Sets(ops, parts[i], name) && weight == SettingOf(ops, parts[i]).value.weight
                    && forall j :: i < j < |parts| ==> !Sets(ops, parts[j], name))
  }

  function WithSetting(values: map<string, real>, s: Option<Setting>): map<string, real> {
    if s.Some? then values[s.value.name := s.value.weight] else values
  }

  /** Apply one part of the string; anything unreadable is skipped. */
  method ApplyPart(ops: Ops, part: string, values: map<string, real>) returns (next: map<string, real>)
    requires values.Keys == DEFAULTS.Keys
    ensures next == WithSetting(values, SettingOf(ops, part))
  {
    next := values;
    var at := Find(part, '=');
    if at.None? {
      return;
    }
    FindInside(part, '=');
    hide Find, Strip;
    var key := Strip(part[..at.value], ops.isSpace);
    var value := Strip(part[at.value + 1..], ops.isSpace);
    if key in values && value != "" {
      var parsed := ops.parse(value);
      if parsed.Some? {
        next := values[key := if parsed.value < 0.0 then 0.0 else parsed.value];
      }
    }
  }

  /** Read a configuration string: the same ten names, none of them negative, the last setting of each winning. */
  method FromWeightsString(ops: Ops, raw: string) returns (values: map<string, real>)
    ensures values.Keys == DEFAULTS.Keys
    ensures forall name :: name in values ==> values[name] >= 0.0
    ensures forall name :: name in values ==> LastWins(ops, Split(raw, ','), name, values[name])
  {
    values := DEFAULTS;
    var parts := Split(raw, ',');
    assert forall name :: name in DEFAULTS ==> LastWins(ops, parts[..0], name, DEFAULTS[name]);
    for k := 0 to |parts|
      invariant values.Keys == DEFAULTS.Keys
      invariant forall name :: name in values ==> values[name] >= 0.0
      invariant forall name :: name in values ==> LastWins(ops, parts[..k], name, values[name])
    {
      hide Split, LastWins, SettingOf;
      ghost var before := values;
      values := ApplyPart(ops, parts[k], values);
      forall name | name in values ensures LastWins(ops, parts[..k + 1], name, values[name]) {
        NextPart(ops, parts, k, name, before[name]);
      }
    }
    assert parts[..|parts|] == parts;
  }

  lemma NextPart(ops: Ops, parts: seq<string>, k: nat, name: string, weight: real)
    requires k < |parts| && name in DEFAULTS && LastWins(ops, parts[..k], name, weight)
    ensures LastWins(ops, parts[..k + 1], name, if Sets(ops, parts[k], name) then SettingOf(ops, parts[k]).value.weight else weight)
  {
    hide SettingOf;
    var now := parts[..k + 1];
    assert forall i :: 0 <= i < k ==> now[i] == parts[..k][i];
    assert now[k] == parts[k];
    if Sets(ops, parts[k], name) {
      assert Sets(ops, now[k], name);
    } else if exists i :: 0 <= i < k && Sets(ops, parts[..k][i], name) {
      var i :| 0 <= i < k && Sets(ops, parts[..k][i], name) && weight == SettingOf(ops, parts[..k][i]).value.weight
               && forall j :: i < j < k ==> !Sets(ops, parts[..k][j], name);
      assert Sets(ops, now[i], name);
    }
  }

  /** The defaults are these ten, and add up to 100. */
  lemma DefaultsAddUp()
    ensures DEFAULTS.Keys == {"skills", "role_alignment", "seniority", "years_experience", "domain", "industry", "leadership",
                              "location", "work_mode", "compensation"}
    ensures DEFAULTS["skills"] == 25.0 && DEFAULTS["role_alignment"] == 20.0
    ensures DEFAULTS["seniority"] == DEFAULTS["years_experience"] == DEFAULTS["domain"] == 10.0
    ensures DEFAULTS["industry"] == DEFAULTS["leadership"] == DEFAULTS["location"] == DEFAULTS["work_mode"]
            == DEFAULTS["compensation"] == 5.0
    ensures DEFAULTS["skills"] + DEFAULTS["role_alignment"] + DEFAULTS["seniority"] + DEFAULTS["years_experience"]
            + DEFAULTS["domain"] + DEFAULTS["industry"] + DEFAULTS["leadership"] + DEFAULTS["location"]
            + DEFAULTS["work_mode"] + DEFAULTS["compensation"] == 100.0
  {
  }

  /** A name and a number written around an equals sign are read back, a negative number as zero. */
  lemma WrittenIsRead(ops: Ops, name: string, number: string)
    requires '=' !in name && Strip(name, ops.isSpace) == name && Strip(number, ops.isSpace) == number
    ensures var part := name + "=" + number;
            SettingOf(ops, part) ==
            if name in DEFAULTS && number != "" && ops.parse(number).Some?
            then Some(Setting(name, if ops.parse(number).value < 0.0 then 0.0 else ops.parse(number).value))
            else None
  {
    FindAfter(name, number);
    hide Find, Strip;
    var part := name + "=" + number;
    assert part[..|name|] == name && part[|name| + 1..] == number;
  }

  lemma {:induction false} FindAfter(name: string, number: string)
    requires '=' !in name
    ensures Find(name + "=" + number, '=') == Some(|name|)
  {
    if name != "" {
      assert (name + "=" + number)[1..] == name[1..] + "=" + number;
      FindAfter(name[1..], number);
    }
  }

  /** A part without an equals sign sets nothing. */
  lemma WithoutEqualsNothing(ops: Ops, part: string)
    requires '=' !in part
    ensures SettingOf(ops, part).None?
  {
    FindInside(part, '=');
  }
}
