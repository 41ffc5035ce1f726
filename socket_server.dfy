/** The device's reading of the host's one-line video configuration: `key=value` parts
    joined by `&`; a known key with an integer value overrides the default. */
module SocketServer {
  import opened Base
  import opened Text
  import opened Numbers

  const DEFAULT_BITRATE: int := 8_000_000
  const DEFAULT_MAX_RESOLUTION: int := 1080

  datatype Config = Config(bitrate: int, maxResolution: int)

  const DEFAULTS: Config := Config(DEFAULT_BITRATE, DEFAULT_MAX_RESOLUTION)

  /** What the first read of a new video connection produced within its 500 ms timeout. */
  datatype HandshakeInput = Received(data: string) | ReadTimedOut

  /** The value a part assigns to key: a part of exactly two `=`-separated fields whose
      first is key and whose second is a 32-bit decimal integer. */
  function Setting(part: string, key: string): Option<int>
  {
    var kv := Split(part, '=');
    if |kv| == 2 && kv[0] == key then ToIntOrNull(kv[1]) else None
  }

  function ApplyPart(part: string, c: Config): Config
  {
    var kv := Split(part, '=');
    if |kv| != 2 then c
    else if kv[0] == "bitrate" then c.(bitrate := ToIntOrNull(kv[1]).GetOr(c.bitrate))
    else if kv[0] == "max_size" then c.(maxResolution := ToIntOrNull(kv[1]).GetOr(c.maxResolution))
    else c
  }

  /** The parts applied left to right. */
  function ApplyParts(parts: seq<string>, c: Config): Config
  {
    if parts == [] then c else ApplyParts(parts[1..], ApplyPart(parts[0], c))
  }

  /** The configuration a connection starts its session with. */
  function ConfigOf(input: HandshakeInput): Config
  {
    match input
    case ReadTimedOut => DEFAULTS
    case Received(data) =>
      match ReadLine(data)
      case None => DEFAULTS
      case Some(line) => ApplyParts(Split(line, '&'), DEFAULTS)
  }

  method ReadConfig(input: HandshakeInput) returns (config: Config)
    ensures config == ConfigOf(input)
  {
    config := DEFAULTS;
    if input.ReadTimedOut? {
      return;
    }
    var line := ReadLine(input.data);
    if line.None? {
      return;
    }
    var parts := Split(line.value, '&');
    var i := 0;
    while i < |parts|
      invariant 0 <= i <= |parts|
      invariant ApplyParts(parts[i..], config) == ApplyParts(parts, DEFAULTS)
    {
      var kv := Split(parts[i], '=');
      if |kv| == 2 {
        if kv[0] == "bitrate" {
          config := config.(bitrate := ToIntOrNull(kv[1]).GetOr(config.bitrate));
        } else if kv[0] == "max_size" {
          config := config.(maxResolution := ToIntOrNull(kv[1]).GetOr(config.maxResolution));
        }
      }
      assert parts[i..][1..] == parts[i + 1..];
      i := i + 1;
    }
  }

  /** Reference reading: the value of the last part that sets key, else the default. */
  function LastSetting(parts: seq<string>, key: string, default: int): int
  {
    if parts == [] then default
    else match Setting(parts[|parts| - 1], key)
      case Some(v) => v
      case None => LastSetting(parts[..|parts| - 1], key, default)
  }

  lemma {:induction false} ApplyPartsSnoc(parts: seq<string>, p: string, c: Config)
    ensures ApplyParts(parts + [p], c) == ApplyPart(p, ApplyParts(parts, c))
  {
    if parts != [] {
      assert (parts + [p])[1..] == parts[1..] + [p];
      ApplyPartsSnoc(parts[1..], p, ApplyPart(parts[0], c));
    }
  }

  /** Each field ends up with the value of the last part that sets it; malformed parts,
      unknown keys and non-integer values change nothing. */
  lemma {:induction false} LastSettingWins(parts: seq<string>, c: Config)
    ensures ApplyParts(parts, c).bitrate == LastSetting(parts, "bitrate", c.bitrate)
    ensures ApplyParts(parts, c).maxResolution == LastSetting(parts, "max_size", c.maxResolution)
  {
    if parts != [] {
      var init, p := parts[..|parts| - 1], parts[|parts| - 1];
      assert parts == init + [p];
      ApplyPartsSnoc(init, p, c);
      LastSettingWins(init, c);
    }
  }
}
