/**
  Properties of the preset factory manager that relate several of its
  operations: lookup against the handled-extension predicate, the gating by
  initialize, what initialize registers, and the scheme dispatch of
  CreatePresetFromFile.
 */
module ManagerProperties {
  import opened Exceptions
  import opened Urls
  import opened Registry
  import opened Manager

  /** An extension is handled exactly when looking up its factory succeeds. */
  lemma HandledIffFactoryFound(m: PresetFactoryManager, extension: string)
    requires m.Valid()
    ensures m.ExtensionHandled(extension) <==> m.Factory(extension).Ok?
    ensures !m.ExtensionHandled(extension) ==> m.Factory(extension).Err?
  {
  }

  /** A factory handed out by lookup is owned by the list, so the manager can release it. */
  lemma FoundFactoryIsOwned(m: PresetFactoryManager, extension: string)
    requires m.Valid() && m.Factory(extension).Ok?
    ensures m.Factory(extension).value in m.factoryList
  {
  }

  /** Before initialize, no extension is handled and every lookup and load fails as uninitialized. */
  lemma UninitializedRejectsAll(m: PresetFactoryManager, extension: string, filename: string,
                                data: StreamToken, open: string -> Option<StreamToken>,
                                parse: (FactoryId, StreamToken) -> ParseOutcome)
    requires m.Valid() && !m.initialized
    ensures !m.ExtensionHandled(extension)
    ensures m.Factory(extension).Err? && m.Factory(extension).error.kind == NotInitialized
    ensures m.CreatePresetFromStream(extension, data, parse).Err?
    ensures m.CreatePresetFromStream(extension, data, parse).error.kind == NotInitialized
    ensures m.CreatePresetFromFile(filename, open, parse).Err?
    ensures m.CreatePresetFromFile(filename, open, parse).error.kind == NotInitialized
  {
  }

  /** "idle://" followed by anything loads the idle preset, without consulting the registry, the file system or a factory. */
  lemma IdleUrlLoadsIdlePreset(m: PresetFactoryManager, rest: string,
                               open: string -> Option<StreamToken>,
                               parse: (FactoryId, StreamToken) -> ParseOutcome)
    requires m.initialized
    ensures m.CreatePresetFromFile(IDLE_SCHEME + SEPARATOR + rest, open, parse) == Ok(IdlePreset)
  {
    NoColonNoSeparator(IDLE_SCHEME);
    SplitJoined(IDLE_SCHEME, rest);
  }

  /** "file://" followed by a path loads that path by its extension. */
  lemma FileUrlLoadsPath(m: PresetFactoryManager, path: string,
                         open: string -> Option<StreamToken>,
                         parse: (FactoryId, StreamToken) -> ParseOutcome)
    requires m.initialized
    ensures m.CreatePresetFromFile(FILE_SCHEME + SEPARATOR + path, open, parse) == m.LoadPath(path, open, parse)
  {
    NoColonNoSeparator(FILE_SCHEME);
    SplitJoined(FILE_SCHEME, path);
  }

  /** A bare path, with no "://" in it, is loaded exactly as the same path behind "file://". */
  lemma BarePathLoadsLikeFileUrl(m: PresetFactoryManager, path: string,
                                 open: string -> Option<StreamToken>,
                                 parse: (FactoryId, StreamToken) -> ParseOutcome)
    requires m.initialized && !HasSeparator(path)
    ensures m.CreatePresetFromFile(path, open, parse) == m.LoadPath(path, open, parse)
    ensures m.CreatePresetFromFile(path, open, parse) ==
            m.CreatePresetFromFile(FILE_SCHEME + SEPARATOR + path, open, parse)
  {
    SplitBarePath(path);
    FileUrlLoadsPath(m, path, open, parse);
  }

  /** Any scheme other than "idle" and "file" is rejected, and the message names the URL. */
  lemma OtherSchemeRejected(m: PresetFactoryManager, scheme: string, rest: string,
                            open: string -> Option<StreamToken>,
                            parse: (FactoryId, StreamToken) -> ParseOutcome)
    requires m.initialized && !HasSeparator(scheme)
    requires scheme != IDLE_SCHEME && scheme != FILE_SCHEME
    ensures m.CreatePresetFromFile(scheme + SEPARATOR + rest, open, parse).Err?
    ensures m.CreatePresetFromFile(scheme + SEPARATOR + rest, open, parse).error.kind == UnsupportedScheme
    ensures EndsWith(m.CreatePresetFromFile(scheme + SEPARATOR + rest, open, parse).error.message,
                     scheme + SEPARATOR + rest)
  {
    SplitJoined(scheme, rest);
  }

  /**
    Loading "file://<stem>.<ext>" selects the factory registered for <ext>,
    hands it the stream opened for the path, and returns what it parsed.
   */
  lemma FileUrlSelectsRegisteredFactory(m: PresetFactoryManager, stem: string, extension: string,
                                        stream: StreamToken, preset: PresetId,
                                        open: string -> Option<StreamToken>,
                                        parse: (FactoryId, StreamToken) -> ParseOutcome)
    requires m.initialized && extension in m.factoryMap
    requires extension != [] && '.' !in extension
    requires open(stem + "." + extension) == Some(stream)
    requires parse(m.factoryMap[extension], stream) == Parsed(preset)
    ensures m.CreatePresetFromFile(FILE_SCHEME + SEPARATOR + stem + "." + extension, open, parse) ==
            Ok(FactoryPreset(m.factoryMap[extension], extension, stream, preset))
  {
    assert FILE_SCHEME + SEPARATOR + stem + "." + extension == FILE_SCHEME + SEPARATOR + (stem + "." + extension);
    FileUrlLoadsPath(m, stem + "." + extension, open, parse);
    ExtensionOfJoined(stem, extension);
  }

  /**
    A path whose extension has no factory fails with the lookup's error and
    never reaches the file: the outcome is the same whatever `open` does.
   */
  lemma UnhandledExtensionNeverOpens(m: PresetFactoryManager, stem: string, extension: string,
                                     open1: string -> Option<StreamToken>,
                                     open2: string -> Option<StreamToken>,
                                     parse: (FactoryId, StreamToken) -> ParseOutcome)
    requires m.initialized && extension !in m.factoryMap
    requires extension != [] && '.' !in extension
    ensures m.LoadPath(stem + "." + extension, open1, parse).Err?
    ensures m.LoadPath(stem + "." + extension, open1, parse).error.kind == UnknownExtension
    ensures m.LoadPath(stem + "." + extension, open1, parse) == m.LoadPath(stem + "." + extension, open2, parse)
  {
    ExtensionOfJoined(stem, extension);
  }
}
