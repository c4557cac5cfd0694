/**
 * The persisted filter settings: a text file of `key=value` lines, read into a
 * key/value map (the last line for a key wins) and then applied field by field
 * over the current settings, and the writer that produces such a file. Number
 * parsing and formatting are the C library's; they enter as parameters.
 */
module FilterSettings {
  import opened Wrappers
  import opened Signals
  import opened HotasReader
  import opened HotasFilter

  // ---------------------------------------------------------------------------
  // The key/value parser.
  // ---------------------------------------------------------------------------

  /** `s.find(c)`: the first position of `c`, if any. */
  function FindChar(s: string, c: char): (r: Option<nat>)
    ensures r.Some? ==> r.value < |s| && s[r.value] == c && forall i :: 0 <= i < r.value ==> s[i] != c
    ensures r.None? ==> forall i :: 0 <= i < |s| ==> s[i] != c
  {
    if s == [] then None
    else if s[0] == c then Some(0)
    else match FindChar(s[1..], c)
      case None => None
      case Some(p) => Some(p + 1)
  }

  /** The entry a line contributes: none for an empty line, a `#` comment or a line without `=`; else the text before and after the first `=`. */
  function LineEntry(line: string): Option<(string, string)>
  {
    if line == [] || line[0] == '#' then None
    else match FindChar(line, '=')
      case None => None
      case Some(pos) => Some((line[..pos], line[pos + 1..]))
  }

  /** The map the read loop builds: entries in file order, a later one overwriting an earlier one. */
  function ParseKv(lines: seq<string>): map<string, string>
  {
    if lines == [] then map[]
    else
      var kv := ParseKv(lines[..|lines| - 1]);
      match LineEntry(lines[|lines| - 1])
      case None => kv
      case Some(e) => kv[e.0 := e.1]
  }

  /**
   * A key is present exactly when some line carries it, and its value is the
   * one on the last such line.
   */
  lemma {:induction false} ParseKvSpec(lines: seq<string>, k: string)
    ensures k in ParseKv(lines) <==> exists j :: 0 <= j < |lines| && LineEntry(lines[j]).Some? && LineEntry(lines[j]).value.0 == k
    ensures forall j ::
      (0 <= j < |lines| && LineEntry(lines[j]).Some? && LineEntry(lines[j]).value.0 == k &&
       forall j' :: j < j' < |lines| ==> LineEntry(lines[j']).None? || LineEntry(lines[j']).value.0 != k) ==>
        k in ParseKv(lines) && ParseKv(lines)[k] == LineEntry(lines[j]).value.1
  {
    if lines != [] {
      var front := lines[..|lines| - 1];
      ParseKvSpec(front, k);
      assert forall j :: 0 <= j < |front| ==> front[j] == lines[j];
    }
  }

  /** The `getline` loop of the loader. */
  method ParseLines(lines: seq<string>) returns (kv: map<string, string>)
    ensures kv == ParseKv(lines)
  {
    kv := map[];
    var i := 0;
    while i < |lines|
      invariant 0 <= i <= |lines|
      invariant kv == ParseKv(lines[..i])
    {
      assert lines[..i + 1][..i] == lines[..i];
      var line := lines[i];
      if line == [] || line[0] == '#' {
      } else {
        var pos := FindChar(line, '=');
        if pos.Some? {
          kv := kv[line[..pos.value] := line[pos.value + 1..]];
        }
      }
      i := i + 1;
    }
    assert lines[..i] == lines;
  }

  // ---------------------------------------------------------------------------
  // Typed lookups.
  // ---------------------------------------------------------------------------

  /** A flag reads true only as "1", "true" or "TRUE"; a missing key keeps the default. */
  function GetBool(kv: map<string, string>, k: string, d: bool): (b: bool)
    ensures k !in kv ==> b == d
    ensures k in kv ==> (b <==> kv[k] in {"1", "true", "TRUE"})
  {
    if k !in kv then d else kv[k] == "1" || kv[k] == "true" || kv[k] == "TRUE"
  }

  /** A number through the C library's parser; a missing key or a parse failure keeps the default. */
  function GetReal(kv: map<string, string>, k: string, d: real, parse: string -> Option<real>): (r: real)
    ensures k !in kv ==> r == d
    ensures k in kv && parse(kv[k]).Some? ==> r == parse(kv[k]).value
    ensures k in kv && parse(kv[k]).None? ==> r == d
  {
    if k !in kv then d else parse(kv[k]).GetOr(d)
  }

  /** Filter-mode text: "digital" is 1, "analog" is 2, anything else 0. */
  function ModeOfText(v: string): (m: int)
    ensures 0 <= m <= 2
  {
    if v == "digital" then 1 else if v == "analog" then 2 else 0
  }

  /** The writer's text for a mode: 1 and 2 by name, every other value "none". */
  function ModeText(m: int): string
  {
    if m == 1 then "digital" else if m == 2 then "analog" else "none"
  }

  /** Modes 0, 1 and 2 survive writing and reading; any other value reads back as 0. */
  lemma ModeTextRoundTrip(m: int)
    ensures ModeOfText(ModeText(m)) == if m == 1 || m == 2 then m else 0
  {
  }

  // ---------------------------------------------------------------------------
  // The settings and their load.
  // ---------------------------------------------------------------------------

  /** The keys of the file, one per setting. */
  const KeyEnabled: string := "enabled"
  const KeyAnalogDelta: string := "analog_delta"
  const KeyAnalogReturn: string := "analog_return"
  const KeyDigitalMaxMs: string := "digital_max_ms"
  const KeyWindowSeconds: string := "window_seconds"
  const KeyVirtualOutput: string := "virtual_output"
  const KeyLeftTriggerDigital: string := "left_trigger_digital"
  const KeyRightTriggerDigital: string := "right_trigger_digital"

  datatype Settings = Settings(
    enabled: bool, analogDelta: real, analogReturn: real, digitalMaxMs: real,
    leftTriggerDigital: bool, rightTriggerDigital: bool,
    perSignalMode: seq<int>)  // 0 none, 1 digital, 2 analog; one per signal

  /** The settings plus the two application-wide values stored in the same file. */
  datatype Config = Config(fs: Settings, windowSeconds: real, virtualOutput: bool)

  const DefaultConfig: Config :=
    Config(Settings(false, 0.25, 0.15, 5.0, false, false, seq(SignalCount, _ => 0)), 30.0, false)

  /** The key of a signal's mode: "filter_" followed by its name. */
  function ModeKey(i: nat): string
    requires i < SignalCount
  {
    "filter_" + SignalMetaTable()[i].name
  }

  /** Mode `i` after loading: the key's mode when the key is present, else unchanged. */
  function LoadedMode(kv: map<string, string>, modes: seq<int>, i: nat): int
    requires i < SignalCount == |modes|
  {
    if ModeKey(i) in kv then ModeOfText(kv[ModeKey(i)]) else modes[i]
  }

  /** All twenty modes after loading. */
  function LoadedModes(kv: map<string, string>, modes: seq<int>): (r: seq<int>)
    requires |modes| == SignalCount
    ensures |r| == SignalCount && forall i :: 0 <= i < SignalCount ==> r[i] == LoadedMode(kv, modes, i)
  {
    seq(SignalCount, i requires 0 <= i < SignalCount => LoadedMode(kv, modes, i))
  }

  /** The per-signal loop of the loader. */
  method LoadModes(kv: map<string, string>, modes: seq<int>) returns (modes': seq<int>)
    requires |modes| == SignalCount
    ensures |modes'| == SignalCount
    ensures forall i :: 0 <= i < SignalCount ==> modes'[i] == LoadedMode(kv, modes, i)
  {
    modes' := modes;
    var i := 0;
    while i < SignalCount
      invariant 0 <= i <= SignalCount && |modes'| == SignalCount
      invariant forall j :: 0 <= j < i ==> modes'[j] == LoadedMode(kv, modes, j)
      invariant forall j :: i <= j < SignalCount ==> modes'[j] == modes[j]
    {
      var key := "filter_" + SignalMetaTable()[i].name;
      if key in kv {
        var v := kv[key];
        if v == "digital" {
          modes' := modes'[i := 1];
        } else if v == "analog" {
          modes' := modes'[i := 2];
        } else {
          modes' := modes'[i := 0];
        }
      }
      i := i + 1;
    }
  }

  /** Every field applied from the map over `cfg`, with the modes as loaded. */
  function ApplyKv(kv: map<string, string>, cfg: Config, modes: seq<int>, parse: string -> Option<real>): Config
  {
    Config(
      Settings(
        GetBool(kv, KeyEnabled, cfg.fs.enabled),
        GetReal(kv, KeyAnalogDelta, cfg.fs.analogDelta, parse),
        GetReal(kv, KeyAnalogReturn, cfg.fs.analogReturn, parse),
        GetReal(kv, KeyDigitalMaxMs, cfg.fs.digitalMaxMs, parse),
        GetBool(kv, KeyLeftTriggerDigital, cfg.fs.leftTriggerDigital),
        GetBool(kv, KeyRightTriggerDigital, cfg.fs.rightTriggerDigital),
        modes),
      GetReal(kv, KeyWindowSeconds, cfg.windowSeconds, parse),
      GetBool(kv, KeyVirtualOutput, cfg.virtualOutput))
  }

  /** The whole load: `cfg` after applying the file, or `cfg` itself when the file cannot be opened. */
  function Loaded(file: Option<seq<string>>, cfg: Config, parse: string -> Option<real>): Config
    requires |cfg.fs.perSignalMode| == SignalCount
  {
    match file
    case None => cfg
    case Some(lines) =>
      var kv := ParseKv(lines);
      ApplyKv(kv, cfg, LoadedModes(kv, cfg.fs.perSignalMode), parse)
  }

  /** `LoadFilterSettings`: false, nothing changed, when the file is missing; otherwise every present key applied. */
  method LoadFilterSettings(file: Option<seq<string>>, cfg: Config, parse: string -> Option<real>)
    returns (ok: bool, cfg': Config)
    requires |cfg.fs.perSignalMode| == SignalCount
    ensures ok <==> file.Some?
    ensures cfg' == Loaded(file, cfg, parse)
    ensures |cfg'.fs.perSignalMode| == SignalCount
  {
    if file.None? {
      return false, cfg;
    }
    var kv := ParseLines(file.value);
    var modes := LoadModes(kv, cfg.fs.perSignalMode);
    assert modes == LoadedModes(kv, cfg.fs.perSignalMode);
    cfg' := ApplyKv(kv, cfg, modes, parse);
    ok := true;
  }

  /** A file without any recognised key leaves the configuration as it was. */
  lemma LoadWithoutKeys(lines: seq<string>, cfg: Config, parse: string -> Option<real>)
    requires |cfg.fs.perSignalMode| == SignalCount
    requires forall j :: 0 <= j < |lines| ==> LineEntry(lines[j]).None?
    ensures Loaded(Some(lines), cfg, parse) == cfg
  {
    forall k: string ensures k !in ParseKv(lines) {
      ParseKvSpec(lines, k);
    }
  }

  // ---------------------------------------------------------------------------
  // The writer.
  // ---------------------------------------------------------------------------

  function FlagText(b: bool): string
  {
    if b then "1" else "0"
  }

  /** The mode entries of signals `i` onward. */
  function ModeEntries(modes: seq<int>, i: nat): (es: seq<(string, string)>)
    requires |modes| == SignalCount && i <= SignalCount
    ensures |es| == SignalCount - i
    ensures forall j :: 0 <= j < |es| ==> es[j] == (ModeKey(i + j), ModeText(modes[i + j]))
    decreases SignalCount - i
  {
    if i == SignalCount then [] else [(ModeKey(i), ModeText(modes[i]))] + ModeEntries(modes, i + 1)
  }

  /** The eight fixed key/value pairs the writer emits first. */
  function FixedEntries(cfg: Config, format: real -> string): (es: seq<(string, string)>)
    ensures |es| == 8
  {
    [ (KeyEnabled, FlagText(cfg.fs.enabled)),
      (KeyAnalogDelta, format(cfg.fs.analogDelta)),
      (KeyAnalogReturn, format(cfg.fs.analogReturn)),
      (KeyDigitalMaxMs, format(cfg.fs.digitalMaxMs)),
      (KeyWindowSeconds, format(cfg.windowSeconds)),
      (KeyVirtualOutput, FlagText(cfg.virtualOutput)),
      (KeyLeftTriggerDigital, FlagText(cfg.fs.leftTriggerDigital)),
      (KeyRightTriggerDigital, FlagText(cfg.fs.rightTriggerDigital)) ]
  }

  /** The key/value pairs the writer emits, in file order. */
  function SavedEntries(cfg: Config, format: real -> string): (es: seq<(string, string)>)
    requires |cfg.fs.perSignalMode| == SignalCount
    ensures |es| == 8 + SignalCount
  {
    FixedEntries(cfg, format) + ModeEntries(cfg.fs.perSignalMode, 0)
  }

  function EntryLines(es: seq<(string, string)>): (lines: seq<string>)
    ensures |lines| == |es|
    ensures forall j :: 0 <= j < |es| ==> lines[j] == es[j].0 + "=" + es[j].1
  {
    if es == [] then [] else EntryLines(es[..|es| - 1]) + [es[|es| - 1].0 + "=" + es[|es| - 1].1]
  }

  /** `SaveFilterSettings`: a comment header, then one `key=value` line per setting. */
  function SaveLines(cfg: Config, format: real -> string): seq<string>
    requires |cfg.fs.perSignalMode| == SignalCount
  {
    ["# Filter settings"] + EntryLines(SavedEntries(cfg, format))
  }

  /** A key the parser gives back unchanged: non-empty, not a comment, no `=`. */
  predicate PlainKey(k: string)
  {
    k != [] && k[0] != '#' && forall i :: 0 <= i < |k| ==> k[i] != '='
  }

  lemma LineEntryOfPair(k: string, v: string)
    requires PlainKey(k)
    ensures LineEntry(k + "=" + v) == Some((k, v))
  {
    var line := k + "=" + v;
    assert line[0] == k[0];
    var pos := FindChar(line, '=');
    assert line[|k|] == '=';
    assert pos.Some? && pos.value == |k|;
    assert line[..|k|] == k;
    assert line[|k| + 1..] == v;
  }

  /** Every key plain and no key twice. */
  predicate DistinctPlainKeys(es: seq<(string, string)>)
  {
    (forall j :: 0 <= j < |es| ==> PlainKey(es[j].0)) &&
    (forall i, j :: 0 <= i < j < |es| ==> es[i].0 != es[j].0)
  }

  /** Lines of plain, pairwise distinct keys read back as exactly those pairs. */
  lemma {:induction false} ParseEntryLines(es: seq<(string, string)>)
    requires DistinctPlainKeys(es)
    ensures forall j :: 0 <= j < |es| ==> es[j].0 in ParseKv(EntryLines(es)) && ParseKv(EntryLines(es))[es[j].0] == es[j].1
  {
    if es != [] {
      var front := es[..|es| - 1];
      var x := es[|es| - 1];
      ParseEntryLines(front);
      assert EntryLines(es)[..|es| - 1] == EntryLines(front);
      LineEntryOfPair(x.0, x.1);
      assert ParseKv(EntryLines(es)) == ParseKv(EntryLines(front))[x.0 := x.1];
    }
  }

  /** Dropping a comment line in front changes nothing. */
  lemma {:induction false} ParseKvSkipsComment(c: string, lines: seq<string>)
    requires c != [] && c[0] == '#'
    ensures ParseKv([c] + lines) == ParseKv(lines)
  {
    if lines != [] {
      var front := lines[..|lines| - 1];
      ParseKvSkipsComment(c, front);
      assert ([c] + lines)[..|lines|] == [c] + front;
    }
  }

  /** The twenty signal names are pairwise distinct, and so are their mode keys. */
  lemma ModeKeysDistinct()
    ensures forall i, j :: 0 <= i < j < SignalCount ==> ModeKey(i) != ModeKey(j)
  {
    var t := SignalMetaTable();
    forall i, j | 0 <= i < j < SignalCount
      ensures ModeKey(i) != ModeKey(j)
    {
      assert t[i].name != t[j].name;
      assert ModeKey(i)[7..] == t[i].name && ModeKey(j)[7..] == t[j].name;
    }
  }

  /** No signal name contains '='. */
  lemma NameWithoutEquals(i: nat)
    requires i < SignalCount
    ensures forall c :: 0 <= c < |SignalMetaTable()[i].name| ==> SignalMetaTable()[i].name[c] != '='
  {
  }

  lemma ModeKeyPlain(i: nat)
    requires i < SignalCount
    ensures PlainKey(ModeKey(i)) && ModeKey(i)[0] == 'f'
  {
    var name := SignalMetaTable()[i].name;
    NameWithoutEquals(i);
    assert ModeKey(i) == "filter_" + name;
  }

  lemma FixedKeysPlainAndDistinct(cfg: Config, format: real -> string)
    ensures var es := FixedEntries(cfg, format);
      (forall j :: 0 <= j < 8 ==> PlainKey(es[j].0) && es[j].0[0] != 'f') &&
      (forall i, j :: 0 <= i < j < 8 ==> es[i].0 != es[j].0)
  {
    var es := FixedEntries(cfg, format);
    forall i, j | 0 <= i < j < 8
      ensures es[i].0 != es[j].0
    {
      assert es[i].0[0] != es[j].0[0] || |es[i].0| != |es[j].0|;
    }
  }

  /** The saved pair at position `j` past the eight fixed ones carries the mode key of signal `j - 8`. */
  lemma SavedModeEntry(cfg: Config, format: real -> string, j: nat)
    requires |cfg.fs.perSignalMode| == SignalCount && 8 <= j < 8 + SignalCount
    ensures SavedEntries(cfg, format)[j].0 == ModeKey(j - 8)
    ensures PlainKey(SavedEntries(cfg, format)[j].0) && SavedEntries(cfg, format)[j].0[0] == 'f'
  {
    var modes := ModeEntries(cfg.fs.perSignalMode, 0);
    assert SavedEntries(cfg, format)[j] == modes[j - 8];
    ModeKeyPlain(j - 8);
  }

  lemma SavedKeysPlainAndDistinct(cfg: Config, format: real -> string)
    requires |cfg.fs.perSignalMode| == SignalCount
    ensures DistinctPlainKeys(SavedEntries(cfg, format))
  {
    var es := SavedEntries(cfg, format);
    FixedKeysPlainAndDistinct(cfg, format);
    ModeKeysDistinct();
    forall j | 0 <= j < |es|
      ensures PlainKey(es[j].0)
    {
      if j >= 8 {
        SavedModeEntry(cfg, format, j);
      } else {
        assert es[j] == FixedEntries(cfg, format)[j];
      }
    }
    forall i, j | 0 <= i < j < |es|
      ensures es[i].0 != es[j].0
    {
      if j >= 8 {
        SavedModeEntry(cfg, format, j);
        if i < 8 {
          assert es[i] == FixedEntries(cfg, format)[i];
        } else {
          SavedModeEntry(cfg, format, i);
        }
      } else {
        assert es[i] == FixedEntries(cfg, format)[i] && es[j] == FixedEntries(cfg, format)[j];
      }
    }
  }

  /** The modes with every value other than 1 and 2 replaced by 0 (none). */
  function KnownModes(modes: seq<int>): (r: seq<int>)
    ensures |r| == |modes|
    ensures forall i :: 0 <= i < |modes| ==> r[i] == if modes[i] == 1 || modes[i] == 2 then modes[i] else 0
  {
    seq(|modes|, i requires 0 <= i < |modes| => if modes[i] == 1 || modes[i] == 2 then modes[i] else 0)
  }

  /**
   * Save then load restores every field, whatever was loaded before, provided
   * the number formatter and parser agree on the four numeric fields; a mode
   * other than 0, 1 or 2 comes back as 0.
   */
  lemma SaveLoadRoundTrip(cfg: Config, before: Config, format: real -> string, parse: string -> Option<real>)
    requires |cfg.fs.perSignalMode| == SignalCount && |before.fs.perSignalMode| == SignalCount
    requires forall x :: x in {cfg.fs.analogDelta, cfg.fs.analogReturn, cfg.fs.digitalMaxMs, cfg.windowSeconds} ==>
      parse(format(x)) == Some(x)
    ensures Loaded(Some(SaveLines(cfg, format)), before, parse) == cfg.(fs := cfg.fs.(perSignalMode := KnownModes(cfg.fs.perSignalMode)))
  {
    var kv := ParseKv(SaveLines(cfg, format));
    SavedKv(cfg, format);
    SavedModesLoad(cfg, kv, before.fs.perSignalMode);
    var x := cfg.fs.analogDelta;
    assert x in {cfg.fs.analogDelta, cfg.fs.analogReturn, cfg.fs.digitalMaxMs, cfg.windowSeconds};
    x := cfg.fs.analogReturn;
    assert x in {cfg.fs.analogDelta, cfg.fs.analogReturn, cfg.fs.digitalMaxMs, cfg.windowSeconds};
    x := cfg.fs.digitalMaxMs;
    assert x in {cfg.fs.analogDelta, cfg.fs.analogReturn, cfg.fs.digitalMaxMs, cfg.windowSeconds};
    x := cfg.windowSeconds;
    assert x in {cfg.fs.analogDelta, cfg.fs.analogReturn, cfg.fs.digitalMaxMs, cfg.windowSeconds};
  }

  /** Loading the saved mode texts over any previous modes gives the known modes back. */
  lemma SavedModesLoad(cfg: Config, kv: map<string, string>, modes: seq<int>)
    requires |cfg.fs.perSignalMode| == SignalCount == |modes|
    requires forall i :: 0 <= i < SignalCount ==> ModeKey(i) in kv && kv[ModeKey(i)] == ModeText(cfg.fs.perSignalMode[i])
    ensures LoadedModes(kv, modes) == KnownModes(cfg.fs.perSignalMode)
  {
    forall i | 0 <= i < SignalCount
      ensures LoadedMode(kv, modes, i) == KnownModes(cfg.fs.perSignalMode)[i]
    {
      ModeTextRoundTrip(cfg.fs.perSignalMode[i]);
    }
  }

  /** What the parser reads back from a saved file, key by key. */
  lemma SavedKv(cfg: Config, format: real -> string)
    requires |cfg.fs.perSignalMode| == SignalCount
    ensures var kv := ParseKv(SaveLines(cfg, format));
      KeyEnabled in kv && KeyAnalogDelta in kv && KeyAnalogReturn in kv && KeyDigitalMaxMs in kv &&
      KeyWindowSeconds in kv && KeyVirtualOutput in kv && KeyLeftTriggerDigital in kv && KeyRightTriggerDigital in kv &&
      kv[KeyEnabled] == FlagText(cfg.fs.enabled) &&
      kv[KeyAnalogDelta] == format(cfg.fs.analogDelta) &&
      kv[KeyAnalogReturn] == format(cfg.fs.analogReturn) &&
      kv[KeyDigitalMaxMs] == format(cfg.fs.digitalMaxMs) &&
      kv[KeyWindowSeconds] == format(cfg.windowSeconds) &&
      kv[KeyVirtualOutput] == FlagText(cfg.virtualOutput) &&
      kv[KeyLeftTriggerDigital] == FlagText(cfg.fs.leftTriggerDigital) &&
      kv[KeyRightTriggerDigital] == FlagText(cfg.fs.rightTriggerDigital) &&
      forall i :: 0 <= i < SignalCount ==> ModeKey(i) in kv && kv[ModeKey(i)] == ModeText(cfg.fs.perSignalMode[i])
  {
    var es := SavedEntries(cfg, format);
    var kv := ParseKv(SaveLines(cfg, format));
    SavedLinesParse(cfg, format);
    SavedEntriesAt(cfg, format);
    assert es[0].0 in kv && es[1].0 in kv && es[2].0 in kv && es[3].0 in kv;
    assert es[4].0 in kv && es[5].0 in kv && es[6].0 in kv && es[7].0 in kv;
    forall i | 0 <= i < SignalCount
      ensures ModeKey(i) in kv && kv[ModeKey(i)] == ModeText(cfg.fs.perSignalMode[i])
    {
      assert es[8 + i].0 in kv;
    }
  }

  /** The saved file parses back to every saved pair. */
  lemma SavedLinesParse(cfg: Config, format: real -> string)
    requires |cfg.fs.perSignalMode| == SignalCount
    ensures var es, kv := SavedEntries(cfg, format), ParseKv(SaveLines(cfg, format));
      forall j :: 0 <= j < |es| ==> es[j].0 in kv && kv[es[j].0] == es[j].1
  {
    var es := SavedEntries(cfg, format);
    SavedKeysPlainAndDistinct(cfg, format);
    ParseEntryLines(es);
    ParseKvSkipsComment("# Filter settings", EntryLines(es));
  }

  /** The saved pairs: the eight fixed ones in order, then one mode pair per signal. */
  lemma SavedEntriesAt(cfg: Config, format: real -> string)
    requires |cfg.fs.perSignalMode| == SignalCount
    ensures var es := SavedEntries(cfg, format);
      es[0] == (KeyEnabled, FlagText(cfg.fs.enabled)) &&
      es[1] == (KeyAnalogDelta, format(cfg.fs.analogDelta)) &&
      es[2] == (KeyAnalogReturn, format(cfg.fs.analogReturn)) &&
      es[3] == (KeyDigitalMaxMs, format(cfg.fs.digitalMaxMs)) &&
      es[4] == (KeyWindowSeconds, format(cfg.windowSeconds)) &&
      es[5] == (KeyVirtualOutput, FlagText(cfg.virtualOutput)) &&
      es[6] == (KeyLeftTriggerDigital, FlagText(cfg.fs.leftTriggerDigital)) &&
      es[7] == (KeyRightTriggerDigital, FlagText(cfg.fs.rightTriggerDigital)) &&
      forall i :: 0 <= i < SignalCount ==> es[8 + i] == (ModeKey(i), ModeText(cfg.fs.perSignalMode[i]))
  {
    var es := SavedEntries(cfg, format);
    var fixed := FixedEntries(cfg, format);
    var modes := ModeEntries(cfg.fs.perSignalMode, 0);
    assert es == fixed + modes;
    assert es[0] == fixed[0] && es[1] == fixed[1] && es[2] == fixed[2] && es[3] == fixed[3];
    assert es[4] == fixed[4] && es[5] == fixed[5] && es[6] == fixed[6] && es[7] == fixed[7];
    forall i | 0 <= i < SignalCount
      ensures es[8 + i] == (ModeKey(i), ModeText(cfg.fs.perSignalMode[i]))
    {
      assert es[8 + i] == modes[i];
    }
  }



  // ---------------------------------------------------------------------------
  // Clamps and the HOTAS modes read from the same file.
  // ---------------------------------------------------------------------------

  /** The plot window after loading: between 1 and 60 seconds. */
  function ClampWindow(w: real): (r: real)
    ensures 1.0 <= r <= 60.0
    ensures 1.0 <= w <= 60.0 ==> r == w
    ensures w < 1.0 ==> r == 1.0
    ensures w > 60.0 ==> r == 60.0
  {
    if w < 1.0 then 1.0 else if w > 60.0 then 60.0 else w
  }

  /** The device-scoped mode key of a HOTAS signal, "filter_stick_<name>", and its legacy form "filter_<name>". */
  function DeviceModeKey(sd: DeviceSignal): string
  {
    "filter_" + DevicePrefix(sd.device) + "_" + sd.desc.name
  }

  function LegacyModeKey(sd: DeviceSignal): string
  {
    "filter_" + sd.desc.name
  }

  /** A HOTAS signal's mode: the device-scoped key when present, else the legacy key, else 0. */
  function HotasMode(kv: map<string, string>, sd: DeviceSignal): (m: int)
    ensures 0 <= m <= 2
    ensures DeviceModeKey(sd) in kv ==> m == ModeOfText(kv[DeviceModeKey(sd)])
    ensures DeviceModeKey(sd) !in kv && LegacyModeKey(sd) in kv ==> m == ModeOfText(kv[LegacyModeKey(sd)])
    ensures DeviceModeKey(sd) !in kv && LegacyModeKey(sd) !in kv ==> m == 0
  {
    var key := if DeviceModeKey(sd) in kv then DeviceModeKey(sd) else LegacyModeKey(sd);
    if key in kv then ModeOfText(kv[key]) else 0
  }

  /** The mode table over the signal list, a later signal with the same key overwriting an earlier one. */
  function HotasModes(kv: map<string, string>, sigs: seq<DeviceSignal>): map<string, int>
  {
    if sigs == [] then map[]
    else HotasModes(kv, sigs[..|sigs| - 1])[MapKey(sigs[|sigs| - 1]) := HotasMode(kv, sigs[|sigs| - 1])]
  }

  /** A key has an entry exactly when some signal maps to it. */
  lemma {:induction false} HotasModesDomain(kv: map<string, string>, sigs: seq<DeviceSignal>, k: string)
    ensures k in HotasModes(kv, sigs) <==> exists j :: 0 <= j < |sigs| && MapKey(sigs[j]) == k
  {
    ModesKeys(kv, sigs);
    KeySetMembers(sigs, k);
  }

  /** The keys of the signal list. */
  function KeySet(sigs: seq<DeviceSignal>): set<string>
  {
    if sigs == [] then {} else KeySet(sigs[..|sigs| - 1]) + {MapKey(sigs[|sigs| - 1])}
  }

  lemma {:induction false} ModesKeys(kv: map<string, string>, sigs: seq<DeviceSignal>)
    ensures HotasModes(kv, sigs).Keys == KeySet(sigs)
  {
    if sigs != [] {
      ModesKeys(kv, sigs[..|sigs| - 1]);
    }
  }

  lemma {:induction false} KeySetMembers(sigs: seq<DeviceSignal>, k: string)
    ensures k in KeySet(sigs) <==> exists j :: 0 <= j < |sigs| && MapKey(sigs[j]) == k
  {
    if sigs != [] {
      var front := sigs[..|sigs| - 1];
      KeySetMembers(front, k);
      if k in KeySet(front) {
        var j :| 0 <= j < |front| && MapKey(front[j]) == k;
        assert sigs[j] == front[j];
      }
      if exists j :: 0 <= j < |sigs| && MapKey(sigs[j]) == k {
        var j :| 0 <= j < |sigs| && MapKey(sigs[j]) == k;
        if j < |front| {
          assert front[j] == sigs[j];
        }
      }
    }
  }

  /** An entry holds the mode of the last signal with that key. */
  lemma {:induction false} HotasModesLookup(kv: map<string, string>, sigs: seq<DeviceSignal>, j: nat)
    requires j < |sigs| && forall j' :: j < j' < |sigs| ==> MapKey(sigs[j']) != MapKey(sigs[j])
    ensures MapKey(sigs[j]) in HotasModes(kv, sigs) && HotasModes(kv, sigs)[MapKey(sigs[j])] == HotasMode(kv, sigs[j])
  {
    if j < |sigs| - 1 {
      var front := sigs[..|sigs| - 1];
      assert front[j] == sigs[j];
      HotasModesLookup(kv, front, j);
    }
  }

  /** The start-up block that builds the HOTAS mode table: empty when the file cannot be opened. */
  method LoadHotasModes(file: Option<seq<string>>, sigs: seq<DeviceSignal>) returns (modes: map<string, int>)
    ensures file.None? ==> modes == map[]
    ensures file.Some? ==> modes == HotasModes(ParseKv(file.value), sigs)
  {
    modes := map[];
    if file.None? {
      return;
    }
    var kv := ParseLines(file.value);
    var i := 0;
    while i < |sigs|
      invariant 0 <= i <= |sigs|
      invariant modes == HotasModes(kv, sigs[..i])
    {
      assert sigs[..i + 1][..i] == sigs[..i];
      var sd := sigs[i];
      var devKey := "filter_" + DevicePrefix(sd.device) + "_" + sd.desc.name;
      var legacyKey := "filter_" + sd.desc.name;
      assert devKey == DeviceModeKey(sd) && legacyKey == LegacyModeKey(sd);
      var key := if devKey in kv then devKey else legacyKey;
      var mode := 0;
      if key in kv {
        var v := kv[key];
        if v == "digital" { mode := 1; } else if v == "analog" { mode := 2; } else { mode := 0; }
      }
      assert mode == HotasMode(kv, sd);
      modes := modes[DevicePrefix(sd.device) + ":" + sd.desc.id := mode];
      i := i + 1;
    }
    assert sigs[..i] == sigs;
  }
}
