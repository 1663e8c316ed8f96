/** The settings of a timetable as the settings query hands them out: the
    stored settings over a set of defaults. */
module SettingsApi {
  import opened Common

  /** A settings value. */
  datatype Value = Num(n: int) | Str(s: string) | Flag(b: bool)

  /** The stored timetable document; `settings` is absent on a timetable that
      never had any. */
  datatype Doc = Doc(settings: Option<map<string, Value>>)

  /** Fifteen minutes, in milliseconds. */
  const DefaultTimeStep: int := 15 * 60 * 1000
  const DefaultWidth: int := 100
  const DefaultTimetableLayoutVersion: string := "v1"

  const Defaults: map<string, Value> :=
    map["timeStep" := Num(DefaultTimeStep),
        "width" := Num(DefaultWidth),
        "timetableLayoutVersion" := Str(DefaultTimetableLayoutVersion)]

  /** The stored settings, or none when there is no document or it has no
      settings. */
  function Stored(data: Option<Doc>): map<string, Value>
  {
    if data.Some? && data.value.settings.Some? then data.value.settings.value else map[]
  }

  /** `addDefaults`: every stored key with its stored value, and every default
      key the stored settings lack with its default value. */
  function AddDefaults(data: Option<Doc>): (r: map<string, Value>)
    ensures r.Keys == Defaults.Keys + Stored(data).Keys
    ensures forall k :: k in Stored(data) ==> r[k] == Stored(data)[k]
    ensures forall k :: k in Defaults && k !in Stored(data) ==> r[k] == Defaults[k]
  {
    Defaults + Stored(data)
  }

  /** The three defaults are always present. */
  lemma DefaultsPresent(data: Option<Doc>)
    ensures "timeStep" in AddDefaults(data) && "width" in AddDefaults(data)
    ensures "timetableLayoutVersion" in AddDefaults(data)
  {
  }

  /** Without stored settings the result is exactly the defaults. */
  lemma NoSettingsGivesDefaults(data: Option<Doc>)
    requires data.None? || data.value.settings.None?
    ensures AddDefaults(data) == map["timeStep" := Num(900000), "width" := Num(100),
                                     "timetableLayoutVersion" := Str("v1")]
  {
  }

  /** Applying the defaults to settings that already have them changes
      nothing. */
  lemma AddDefaultsIdempotent(data: Option<Doc>)
    ensures AddDefaults(Some(Doc(Some(AddDefaults(data))))) == AddDefaults(data)
  {
    var once := AddDefaults(data);
    var twice := AddDefaults(Some(Doc(Some(once))));
    assert twice.Keys == once.Keys;
  }
}
