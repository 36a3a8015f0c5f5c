/**
  The application configuration (`Config`): a working directory and the four per-type file
  lists. Adding files dispatches on the type name; loading fills each missing entry with
  its default. The JSON file itself is not modelled: loading starts from the decoded map,
  saving stops at the dictionary handed to the encoder.
*/
module Config {
  import opened Wrappers

  /** The four kinds of frame the application keeps lists of. */
  const Lights := "lights"
  const Darks := "darks"
  const BiasType := "bias"
  const Flats := "flats"
  const FileTypes: set<string> := {Lights, Darks, BiasType, Flats}

  /** The per-type file lists. */
  datatype FileLists = FileLists(lights: seq<string>, darks: seq<string>, bias: seq<string>, flats: seq<string>)
  {
    /** The list a type name selects; any other name selects nothing. */
    function Get(fileType: string): (files: seq<string>)
      ensures fileType == Lights ==> files == lights
      ensures fileType == Darks ==> files == darks
      ensures fileType == BiasType ==> files == bias
      ensures fileType == Flats ==> files == flats
      ensures fileType !in FileTypes ==> files == []
    {
      if fileType == Lights then lights
      else if fileType == Darks then darks
      else if fileType == BiasType then bias
      else if fileType == Flats then flats
      else []
    }

    /**
      `add_files(file_type, files)`: the selected list is extended by `files` in order and the
      others are left alone; an unknown type name changes nothing.
    */
    function Extend(fileType: string, files: seq<string>): (r: FileLists)
      ensures forall t :: t in FileTypes ==> r.Get(t) == Get(t) + (if t == fileType then files else [])
      ensures fileType !in FileTypes ==> r == this
    {
      if fileType == Lights then this.(lights := lights + files)
      else if fileType == Darks then this.(darks := darks + files)
      else if fileType == BiasType then this.(bias := bias + files)
      else if fileType == Flats then this.(flats := flats + files)
      else this
    }
  }

  const NoFiles := FileLists([], [], [], [])

  /** The list fields of two records agree exactly when every type name selects the same list. */
  lemma ListsDetermineRecord(a: FileLists, b: FileLists)
    requires forall t :: t in FileTypes ==> a.Get(t) == b.Get(t)
    ensures a == b
  {
    assert a.Get(Lights) == b.Get(Lights);
    assert a.Get(Darks) == b.Get(Darks);
    assert a.Get(BiasType) == b.Get(BiasType);
    assert a.Get(Flats) == b.Get(Flats);
  }

  datatype Config = Config(workingDirectory: string, files: FileLists)

  /** `Config()`: no files, and the working directory is the process's current directory `cwd`. */
  function New(cwd: string): (c: Config)
    ensures c.workingDirectory == cwd
    ensures forall t :: t in FileTypes ==> c.files.Get(t) == []
  {
    Config(cwd, NoFiles)
  }

  /** `set_working_directory(directory)`: only the directory changes. */
  function SetWorkingDirectory(c: Config, directory: string): (r: Config)
    ensures r.workingDirectory == directory && r.files == c.files
  {
    c.(workingDirectory := directory)
  }

  function AddFiles(c: Config, fileType: string, files: seq<string>): (r: Config)
    ensures r.workingDirectory == c.workingDirectory
    ensures forall t :: t in FileTypes ==> r.files.Get(t) == c.files.Get(t) + (if t == fileType then files else [])
    ensures fileType !in FileTypes ==> r == c
  {
    c.(files := c.files.Extend(fileType, files))
  }

  /** The keys of the dictionary `get_file_counts` returns. */
  const CountKeys: set<string> := {"lights_count", "darks_count", "bias_count", "flats_count"}

  /** The count key of a type: its name followed by "_count". */
  function CountKey(t: string): (k: string)
    requires t in FileTypes
    ensures k == t + "_count"
  {
    if t == Lights then "lights_count"
    else if t == Darks then "darks_count"
    else if t == BiasType then "bias_count"
    else "flats_count"
  }

  /** `get_file_counts()`: exactly four entries, each the length of one list. */
  function FileCounts(c: Config): (m: map<string, nat>)
    ensures m.Keys == CountKeys
    ensures forall t :: t in FileTypes ==> m[CountKey(t)] == |c.files.Get(t)|
  {
    map["lights_count" := |c.files.lights|, "darks_count" := |c.files.darks|,
        "bias_count" := |c.files.bias|, "flats_count" := |c.files.flats|]
  }

  /** Adding files to one list raises its count by their number and leaves the other counts. */
  lemma CountsAfterAdd(c: Config, fileType: string, files: seq<string>)
    requires fileType in FileTypes
    ensures FileCounts(AddFiles(c, fileType, files))[CountKey(fileType)] == FileCounts(c)[CountKey(fileType)] + |files|
    ensures forall t :: t in FileTypes && t != fileType ==>
              FileCounts(AddFiles(c, fileType, files))[CountKey(t)] == FileCounts(c)[CountKey(t)]
  {
  }

  /** A decoded JSON value, as far as the configuration reads it. */
  datatype Json = JText(text: string) | JTextList(items: seq<string>) | JOther

  /** The key of the working directory in the saved dictionary. */
  const DirectoryKey := "working_directory"

  /** Why a configuration map could not be taken over. */
  datatype LoadError = WrongType(key: string)

  /** `config_data.get(key, [])` for a list entry. */
  function ListEntry(data: map<string, Json>, key: string): (r: Result<seq<string>, LoadError>)
    ensures key !in data ==> r == Ok([])
    ensures key in data && data[key].JTextList? ==> r == Ok(data[key].items)
    ensures r.Err? <==> key in data && !data[key].JTextList?
  {
    if key !in data then Ok([])
    else match data[key]
      case JTextList(items) => Ok(items)
      case _ => Err(WrongType(key))
  }

  /**
    The assignments of `load_config` over the decoded map: each missing list becomes empty
    and a missing directory becomes the current directory `cwd`. An entry of the wrong JSON
    type is an error here (the source would store it as it is).
  */
  function LoadConfig(data: map<string, Json>, cwd: string): (r: Result<Config, LoadError>)
    ensures r.Ok? <==> (DirectoryKey in data ==> data[DirectoryKey].JText?) &&
                       forall t :: t in FileTypes && t in data ==> data[t].JTextList?
    ensures r.Ok? ==> r.value.workingDirectory == (if DirectoryKey in data then data[DirectoryKey].text else cwd)
    ensures r.Ok? ==> forall t :: t in FileTypes ==> r.value.files.Get(t) == (if t in data then data[t].items else [])
  {
    var directory :=
      if DirectoryKey !in data then Ok(cwd)
      else if data[DirectoryKey].JText? then Ok(data[DirectoryKey].text)
      else Err(WrongType(DirectoryKey));
    match (directory, ListEntry(data, Lights), ListEntry(data, Darks), ListEntry(data, BiasType), ListEntry(data, Flats))
    case (Ok(d), Ok(l), Ok(k), Ok(b), Ok(f)) => Ok(Config(d, FileLists(l, k, b, f)))
    case (Err(e), _, _, _, _) => Err(e)
    case (_, Err(e), _, _, _) => Err(e)
    case (_, _, Err(e), _, _) => Err(e)
    case (_, _, _, Err(e), _) => Err(e)
    case (_, _, _, _, Err(e)) => Err(e)
  }

  /** The dictionary `save_config` writes. */
  function SaveConfig(c: Config): (data: map<string, Json>)
    ensures data.Keys == FileTypes + {DirectoryKey}
  {
    map[DirectoryKey := JText(c.workingDirectory),
        Lights := JTextList(c.files.lights), Darks := JTextList(c.files.darks),
        BiasType := JTextList(c.files.bias), Flats := JTextList(c.files.flats)]
  }

  /** Saving and loading again restores the configuration, whatever the current directory. */
  lemma SaveThenLoad(c: Config, cwd: string)
    ensures LoadConfig(SaveConfig(c), cwd) == Ok(c)
  {
    var r := LoadConfig(SaveConfig(c), cwd);
    assert r.Ok?;
    ListsDetermineRecord(r.value.files, c.files);
  }

  /** Loading an empty map gives the configuration of a fresh start in `cwd`. */
  lemma LoadEmptyIsNew(cwd: string)
    ensures LoadConfig(map[], cwd) == Ok(New(cwd))
  {
    var r := LoadConfig(map[], cwd);
    ListsDetermineRecord(r.value.files, NoFiles);
  }
}
