/** Choice of the playback backend for a media file, from its extension, the
    ForceSDL and LegacyMediaOutputs settings and whether the build targets a
    Raspberry Pi (the PLATFORM_PI compile-time switch). */
module BackendSelection {
  import opened Wrappers
  import opened MediaPath

  datatype BackendKind = Mpg123 | Ogg123 | SDL | OmxPlayer

  /** Integer values of the two settings, as getSettingInt returns them. */
  datatype Settings = Settings(forceSDL: int, legacyMediaOutputs: int)

  /** The legacy branch: ForceSDL unset (zero) or LegacyMediaOutputs set. */
  predicate LegacyOutputs(s: Settings) {
    s.forceSDL == 0 || s.legacyMediaOutputs != 0
  }

  predicate IsVideoExtension(ext: string) {
    ext == "mp4" || ext == "mkv"
  }

  /** Reference table, independent of the order of the tests: the
      extensions each backend is used for. */
  predicate Plays(k: BackendKind, ext: string) {
    match k
    case Mpg123 => ext == "mp3"
    case Ogg123 => ext == "ogg"
    case SDL => IsAudioExtension(ext)
    case OmxPlayer => IsVideoExtension(ext)
  }

  /** Reference table: the backends a given configuration offers at all. */
  predicate Offered(k: BackendKind, s: Settings, isPi: bool) {
    match k
    case Mpg123 => LegacyOutputs(s)
    case Ogg123 => LegacyOutputs(s)
    case SDL => !LegacyOutputs(s)
    case OmxPlayer => !LegacyOutputs(s) && isPi
  }

  /** The selection made by OpenMediaOutput. It picks a backend exactly when
      that backend is offered and plays the extension, and answers `None`
      exactly when no offered backend plays it. */
  function SelectBackend(ext: string, s: Settings, isPi: bool): (r: Option<BackendKind>)
    ensures forall k :: r == Some(k) <==> Offered(k, s, isPi) && Plays(k, ext)
    ensures r.None? <==> forall k :: !(Offered(k, s, isPi) && Plays(k, ext))
  {
    if LegacyOutputs(s) then
      if ext == "mp3" then Some(Mpg123)
      else if ext == "ogg" then Some(Ogg123)
      else None
    else if IsAudioExtension(ext) then Some(SDL)
    else if isPi && IsVideoExtension(ext) then Some(OmxPlayer)
    else None
  }

  /** The final `else` of the selection: not the legacy branch, and neither
      the SDL nor (on a Pi) the omxplayer test matched. This is the path
      that returns without releasing the output lock. */
  predicate FallsToElse(ext: string, s: Settings, isPi: bool) {
    !LegacyOutputs(s) && !IsAudioExtension(ext) && !(isPi && IsVideoExtension(ext))
  }

  /** No backend comes in exactly two ways: the legacy branch sees something
      other than mp3/ogg and leaves the slot empty, or the final `else` is
      reached. */
  lemma NoBackendCases(ext: string, s: Settings, isPi: bool)
    ensures SelectBackend(ext, s, isPi).None? <==>
      (LegacyOutputs(s) && ext != "mp3" && ext != "ogg") || FallsToElse(ext, s, isPi)
    ensures !(LegacyOutputs(s) && FallsToElse(ext, s, isPi))
  {
  }

  /** Video is reachable only with ForceSDL on, legacy outputs off, on a Pi. */
  lemma VideoNeedsForceSdlOnPi(ext: string, s: Settings, isPi: bool)
    requires SelectBackend(ext, s, isPi) == Some(OmxPlayer)
    ensures s.forceSDL != 0 && s.legacyMediaOutputs == 0 && isPi
    ensures IsVideoExtension(ext)
  {
  }

  /** The legacy branch does not fall through: m4a, mp4 and mkv get no
      backend there even though SDL or omxplayer would play them. */
  lemma LegacyHasNoFallThrough(ext: string, s: Settings, isPi: bool)
    requires LegacyOutputs(s)
    requires ext != "mp3" && ext != "ogg"
    ensures SelectBackend(ext, s, isPi).None?
    ensures ext == "m4a" ==> Offered(SDL, Settings(1, 0), isPi) && Plays(SDL, ext)
  {
  }
}
