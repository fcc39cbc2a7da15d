/** The settings document: defaults, and the merge load_settings performs
    (app.py:37-55). JSON decoding itself is not modelled: the file is given
    as what decoding it yields. */
module Settings {
  import opened Basics

  /** A JSON scalar as it can appear as a settings value. */
  datatype Value = Text(s: string) | Flag(b: bool) | Number(n: int) | Null

  type Settings = map<string, Value>

  const Defaults: Settings := map[
    "training_time" := Text("09:00"),
    "timezone" := Text("Africa/Lagos"),
    "reminder_enabled" := Flag(true),
    "sound_enabled" := Flag(true),
    "theme" := Text("light")
  ]

  /** The top-level JSON value of a decodable settings file. */
  datatype Document = Object(fields: Settings) | NotObject

  /** The settings file: absent; present but reading it raises (its bytes
      are not text in the locale's encoding, or the open or read fails);
      read but not valid JSON; or decoded. */
  datatype SettingsFile = Missing | Unreadable | NotJson | Decoded(doc: Document)

  /** Why load_settings raises. Only JSONDecodeError is caught, so a read
      error (UnicodeDecodeError, OSError) propagates; and
      {**DEFAULT_SETTINGS, **settings} raises TypeError when the document
      is not a JSON object. */
  datatype LoadError = ReadFailed | NotAMapping

  function Load(file: SettingsFile): (r: Result<Settings, LoadError>)
    ensures file.Missing? || file.NotJson? ==> r == Success(Defaults)
    ensures file.Unreadable? ==> r == Failure(ReadFailed)
    ensures file.Decoded? ==> (r.Failure? <==> file.doc.NotObject?)
    ensures r.Success? ==> Defaults.Keys <= r.value.Keys
    ensures r.Success? && file.Decoded? ==>
      && r.value.Keys == Defaults.Keys + file.doc.fields.Keys
      && (forall k :: k in file.doc.fields ==> r.value[k] == file.doc.fields[k])
      && (forall k :: k in Defaults && k !in file.doc.fields ==> r.value[k] == Defaults[k])
  {
    match file
    case Missing => Success(Defaults)
    case Unreadable => Failure(ReadFailed)
    case NotJson => Success(Defaults)
    case Decoded(Object(fields)) => Success(Defaults + fields)
    case Decoded(NotObject) => Failure(NotAMapping)
  }

  /** Saving a settings map that already holds every default key and
      loading it back gives the same map. */
  lemma SaveThenLoad(s: Settings)
    requires Defaults.Keys <= s.Keys
    ensures Load(Decoded(Object(s))) == Success(s)
  {
    assert Defaults + s == s;
  }

  /** Loading is idempotent: saving what was loaded and loading again
      changes nothing. */
  lemma LoadIdempotent(file: SettingsFile)
    requires Load(file).Success?
    ensures Load(Decoded(Object(Load(file).value))) == Load(file)
  {
    SaveThenLoad(Load(file).value);
  }

  /** settings.get('training_time', '09:00') */
  function TrainingTime(s: Settings): (v: Value)
    ensures "training_time" in s ==> v == s["training_time"]
    ensures "training_time" !in s ==> v == Text("09:00")
  {
    if "training_time" in s then s["training_time"] else Text("09:00")
  }

  /** After a successful load the lookup never falls back: the value is
      the stored one, or the default "09:00" when the file has none. */
  lemma LoadedTrainingTime(file: SettingsFile)
    requires Load(file).Success?
    ensures TrainingTime(Load(file).value) ==
      if file.Decoded? && "training_time" in file.doc.fields
      then file.doc.fields["training_time"] else Text("09:00")
  {
  }
}
