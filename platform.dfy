/** The configuration part of src/DOS/Platform.cpp: the `PlatformConfig` read from
    `microweb.ini` by `LoadConfig` through `ConfigHandler`, written back by `SaveConfig`,
    and the choice of video mode by index in `Platform::Init`. The ini file is the sequence
    of pairs `ini_parse` hands over, each with its section. */
module Platform {
  import opened Wrappers
  import opened Ini
  import opened CString

  /** The four settings of `Platform::config`. */
  datatype Config = Config(vidMode: int, enableCache: bool, cacheSize: int, cachePath: string)

  /** What `LoadConfig` sets before it reads the file. */
  function Defaults(): (c: Config)
    ensures c.vidMode == -1 && !c.enableCache && c.cacheSize == 0 && c.cachePath == "cache"
  {
    Config(-1, false, 0, "cache")
  }

  /** One pair through `ConfigHandler`: exactly video/mode, cache/enabled, cache/size and
      cache/path are recognised; `enabled` is on only for the word `true`. */
  function Handled(c: Config, line: IniLine): (r: Config)
    ensures line.section == "video" && line.name == "mode" ==> r == c.(vidMode := Atoi(line.value))
    ensures line.section == "cache" && line.name == "enabled" ==> r == c.(enableCache := line.value == "true")
    ensures line.section == "cache" && line.name == "size" ==> r == c.(cacheSize := Atoi(line.value))
    ensures line.section == "cache" && line.name == "path" ==> r == c.(cachePath := line.value)
    ensures !IsConfigKey(line) ==> r == c
  {
    if line.section == "video" && line.name == "mode" then c.(vidMode := Atoi(line.value))
    else if line.section == "cache" && line.name == "enabled" then c.(enableCache := line.value == "true")
    else if line.section == "cache" && line.name == "size" then c.(cacheSize := Atoi(line.value))
    else if line.section == "cache" && line.name == "path" then c.(cachePath := line.value)
    else c
  }

  predicate IsConfigKey(line: IniLine)
  {
    (line.section == "video" && line.name == "mode")
    || (line.section == "cache" && line.name in {"enabled", "size", "path"})
  }

  /** The pairs of a file through `ConfigHandler`, in order. */
  function HandledAll(c: Config, lines: seq<IniLine>): Config
    decreases |lines|
  {
    if lines == [] then c else HandledAll(Handled(c, lines[0]), lines[1..])
  }

  /** What `SaveConfig` writes. */
  function Saved(c: Config): seq<IniLine>
  {
    [ IniLine("video", "mode", IntToDecimal(c.vidMode)),
      IniLine("cache", "enabled", if c.enableCache then "true" else "false"),
      IniLine("cache", "size", IntToDecimal(c.cacheSize)),
      IniLine("cache", "path", c.cachePath) ]
  }

  /** The global `Platform::config`. */
  class PlatformConfig {
    var vidMode: int
    var enableCache: bool
    var cacheSize: int
    var cachePath: string

    function State(): Config
      reads this
    {
      Config(vidMode, enableCache, cacheSize, cachePath)
    }

    constructor (c: Config)
      ensures State() == c
    {
      vidMode := c.vidMode;
      enableCache := c.enableCache;
      cacheSize := c.cacheSize;
      cachePath := c.cachePath;
    }

    /** `ConfigHandler`: always asks `ini_parse` to go on. */
    method ConfigHandler(section: string, name: string, value: string) returns (r: int)
      modifies this
      ensures r == 1
      ensures State() == Handled(old(State()), IniLine(section, name, value))
    {
      if section == "video" && name == "mode" {
        vidMode := Atoi(value);
      } else if section == "cache" && name == "enabled" {
        enableCache := value == "true";
      } else if section == "cache" && name == "size" {
        cacheSize := Atoi(value);
      } else if section == "cache" && name == "path" {
        cachePath := value;
      }
      r := 1;
    }

    /** `LoadConfig`: the defaults, then every pair of the file. */
    method LoadConfig(file: seq<IniLine>)
      modifies this
      ensures State() == HandledAll(Defaults(), file)
    {
      vidMode := -1;
      enableCache := false;
      cacheSize := 0;
      cachePath := "cache";
      var i := 0;
      while i < |file|
        invariant 0 <= i <= |file|
        invariant HandledAll(State(), file[i..]) == HandledAll(Defaults(), file)
      {
        assert file[i..][1..] == file[i + 1..];
        var _ := ConfigHandler(file[i].section, file[i].name, file[i].value);
        i := i + 1;
      }
    }

    /** `SaveConfig`: the pairs written to the file. */
    method SaveConfig() returns (file: seq<IniLine>)
      ensures file == Saved(State())
    {
      file := [IniLine("video", "mode", IntToDecimal(vidMode))];
      file := file + [IniLine("cache", "enabled", if enableCache then "true" else "false")];
      file := file + [IniLine("cache", "size", IntToDecimal(cacheSize))];
      file := file + [IniLine("cache", "path", cachePath)];
    }
  }

  /** What `SaveConfig` writes, `LoadConfig` reads back, whatever the settings were before. */
  lemma SavedConfigReadsBack(c: Config, before: Config)
    ensures HandledAll(before, Saved(c)) == c
    ensures HandledAll(Defaults(), Saved(c)) == c
  {
    AtoiOfDecimal(c.vidMode);
    AtoiOfDecimal(c.cacheSize);
    SavedConfigFrom(c, before);
    SavedConfigFrom(c, Defaults());
  }

  lemma SavedConfigFrom(c: Config, before: Config)
    requires Atoi(IntToDecimal(c.vidMode)) == c.vidMode && Atoi(IntToDecimal(c.cacheSize)) == c.cacheSize
    ensures HandledAll(before, Saved(c)) == c
  {
    var s := Saved(c);
    HandledAllOfFour(before, s[0], s[1], s[2], s[3]);
    assert s == [s[0], s[1], s[2], s[3]];
    var c1 := Handled(before, s[0]);
    assert c1 == before.(vidMode := c.vidMode);
    var c2 := Handled(c1, s[1]);
    assert c2 == c1.(enableCache := c.enableCache);
    var c3 := Handled(c2, s[2]);
    assert c3 == c2.(cacheSize := c.cacheSize);
    var c4 := Handled(c3, s[3]);
    assert c4 == c3.(cachePath := c.cachePath);
  }

  lemma HandledAllOfFour(c: Config, a: IniLine, b: IniLine, d: IniLine, e: IniLine)
    ensures HandledAll(c, [a, b, d, e]) == Handled(Handled(Handled(Handled(c, a), b), d), e)
  {
    HandledAllCons(c, a, [b, d, e]);
    HandledAllCons(Handled(c, a), b, [d, e]);
    HandledAllCons(Handled(Handled(c, a), b), d, [e]);
    HandledAllCons(Handled(Handled(Handled(c, a), b), d), e, []);
    assert [a] + [b, d, e] == [a, b, d, e];
    assert [b] + [d, e] == [b, d, e];
    assert [d] + [e] == [d, e];
    assert [e] + [] == [e];
  }

  lemma HandledAllCons(c: Config, line: IniLine, rest: seq<IniLine>)
    ensures HandledAll(c, [line] + rest) == HandledAll(Handled(c, line), rest)
  {
    assert ([line] + rest)[1..] == rest;
  }

  /** Pairs other than the four keys leave the settings alone, wherever they appear. */
  lemma {:induction false} UnknownKeysIgnored(c: Config, lines: seq<IniLine>)
    requires forall i :: 0 <= i < |lines| ==> !IsConfigKey(lines[i])
    ensures HandledAll(c, lines) == c
    decreases |lines|
  {
    if lines != [] {
      UnknownKeysIgnored(c, lines[1..]);
    }
  }

  // ---------------------------------------------------------------- video mode selection

  /** An entry of `VideoModeList`; the list ends with an entry without a name. */
  datatype VideoModeInfo = VideoModeInfo(name: Option<string>, biosVideoMode: int)

  /** The position of the terminating entry. */
  function Terminator(modes: seq<VideoModeInfo>): (t: int)
    ensures -1 <= t < |modes|
    ensures t >= 0 ==> modes[t].name.None? && forall j :: 0 <= j < t ==> modes[j].name.Some?
    ensures t == -1 ==> forall j :: 0 <= j < |modes| ==> modes[j].name.Some?
  {
    if modes == [] then -1
    else if modes[0].name.None? then 0
    else var t := Terminator(modes[1..]); if t < 0 then -1 else t + 1
  }

  /** How `Init` picks a video mode: the interactive picker (which runs detection) when no
      mode is configured, otherwise the entry at the configured index, none when the index
      is at or past the terminator. */
  datatype ModeChoice = Picker | Mode(index: int) | NoMode

  method SelectVideoMode(modes: array<VideoModeInfo>, vidMode: int) returns (choice: ModeChoice)
    requires Terminator(modes[..]) >= 0
    ensures vidMode < 0 ==> choice == Picker
    ensures vidMode >= 0 && vidMode < Terminator(modes[..]) ==> choice == Mode(vidMode)
    ensures vidMode >= Terminator(modes[..]) ==> choice == NoMode
  {
    if vidMode < 0 {
      return Picker;
    }
    ghost var t := Terminator(modes[..]);
    choice := NoMode;
    var i := 0;
    while true
      invariant 0 <= i <= t
      invariant choice == if vidMode < i then Mode(vidMode) else NoMode
      decreases t - i
    {
      if modes[i].name.None? {
        break;
      }
      if i == vidMode {
        choice := Mode(i);
      }
      i := i + 1;
    }
  }
}
