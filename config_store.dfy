/** The uploader's configuration: the default document and how a loaded
    document is completed with defaults for its missing keys. */
module ConfigStore {
  import opened JsonValues

  const CredentialsFileKey := "credentials_file"
  const SourceDirectoryKey := "source_directory"
  const DriveFolderKey := "drive_folder"
  const UpdateIntervalKey := "update_interval"
  const AutoStartKey := "auto_start"
  const MinimizeToTrayKey := "minimize_to_tray"

  const DefaultFolderName := "NFes_XML"
  const DefaultInterval := 300

  /** `default_config` of the uploader. */
  const DefaultConfig: map<string, Value> := map[
    CredentialsFileKey := Str(""),
    SourceDirectoryKey := Str(""),
    DriveFolderKey := Str(DefaultFolderName),
    UpdateIntervalKey := Num(DefaultInterval),
    AutoStartKey := Flag(false),
    MinimizeToTrayKey := Flag(false)
  ]

  /** The keys of `default_config`, in the order of its literal. */
  const DefaultKeys: seq<string> := [
    CredentialsFileKey, SourceDirectoryKey, DriveFolderKey,
    UpdateIntervalKey, AutoStartKey, MinimizeToTrayKey
  ]

  /** The key list and the default document name the same keys. */
  lemma DefaultKeysListDefaults()
    ensures forall k :: k in DefaultConfig <==> k in DefaultKeys
  {
  }

  /** A configuration carries every key of the default document. */
  predicate HasDefaults(config: map<string, Value>) {
    DefaultConfig.Keys <= config.Keys
  }

  /** What reading `config.json` yields: no file, a file that cannot be opened
      or parsed, or a parsed JSON object. */
  datatype ConfigFile = Absent | Unreadable | Parsed(doc: map<string, Value>)

  /** The loaded document completed with the defaults it lacks. */
  function Merged(loaded: map<string, Value>): (config: map<string, Value>)
    ensures config.Keys == loaded.Keys + DefaultConfig.Keys
    ensures forall k :: k in loaded ==> config[k] == loaded[k]
    ensures forall k :: k in DefaultConfig && k !in loaded ==> config[k] == DefaultConfig[k]
  {
    DefaultConfig + loaded
  }

  /** The configuration `load_config` produces for a given file. */
  function LoadedConfig(file: ConfigFile): (config: map<string, Value>)
    ensures HasDefaults(config)
    ensures file.Parsed? ==> config == Merged(file.doc)
    ensures !file.Parsed? ==> config == DefaultConfig
  {
    match file
    case Parsed(doc) => Merged(doc)
    case _ => DefaultConfig
  }

  /** Saving a loaded configuration and loading it again changes nothing. */
  lemma ReloadIsStable(loaded: map<string, Value>)
    ensures LoadedConfig(Parsed(Merged(loaded))) == Merged(loaded)
  {
  }

  /** A file holding exactly the defaults loads as the defaults. */
  lemma DefaultsAreStable()
    ensures LoadedConfig(Parsed(DefaultConfig)) == LoadedConfig(Absent)
  {
  }
}
