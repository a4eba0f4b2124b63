/**
  The preset factory manager: a registry from preset file extensions to the
  factories that load them, and the dispatcher that turns a file name, URL or
  stream into a loaded preset through that registry.
 */
module Manager {
  import opened Exceptions
  import opened Urls
  import opened Registry

  /** An input stream handed to a factory; it is passed through untouched. */
  type StreamToken = nat

  /** What a factory's parse produced; the preset itself is opaque. */
  type PresetId = nat

  /** The outcome a factory reports for a stream: a preset, or a rejection with its message. */
  datatype ParseOutcome = Parsed(preset: PresetId) | Rejected(message: string)

  /** A loaded preset, recording which branch of the dispatch produced it. */
  datatype Preset =
    | IdlePreset
    | FactoryPreset(factory: FactoryId, extension: string, stream: StreamToken, preset: PresetId)

  const IDLE_SCHEME: string := "idle"
  const FILE_SCHEME: string := "file"

  class PresetFactoryManager {
    /** The factories the implementation builds on every initialize, with the extensions each handles. */
    const builtins: seq<Registration>

    var meshX: int
    var meshY: int
    var initialized: bool
    var factoryMap: map<string, FactoryId>
    var factoryList: seq<FactoryId>

    /** The extension map and the owning list as one value. */
    function Tables(): Tables
      reads this
    {
      Registry.Tables(factoryMap, factoryList)
    }

    /** The object invariant: ownership holds, and nothing is registered before initialize. */
    predicate Valid()
      reads this
    {
      && Owned(Tables())
      && (!initialized ==> factoryMap == map[] && factoryList == [])
    }

    /** A fresh manager: uninitialized, mesh size (0, 0), no factories. */
    constructor (builtins: seq<Registration>)
      ensures Valid() && this.builtins == builtins
      ensures !initialized && meshX == 0 && meshY == 0
      ensures factoryMap == map[] && factoryList == []
    {
      this.builtins := builtins;
      meshX, meshY := 0, 0;
      initialized := false;
      factoryMap, factoryList := map[], [];
    }

    /**
      Initializes the manager with a mesh size. The first call moves it to the
      initialized state; a later call is allowed and rebuilds every factory for
      the new size. Either way the outcome does not depend on the old state.
     */
    method Initialize(meshX: int, meshY: int)
      requires Valid()
      modifies this
      ensures Valid() && initialized
      ensures this.meshX == meshX && this.meshY == meshY
      ensures Tables() == RegisterAll(builtins)
      ensures forall e :: ExtensionHandled(e) <==> e in Extensions(builtins)
      ensures forall f :: f in factoryList <==> f in Factories(builtins)
    {
      this.meshX, this.meshY := meshX, meshY;
      if !initialized {
        initialized := true;
      } else {
        // the factories built for the previous mesh size are released and rebuilt
        factoryMap, factoryList := map[], [];
      }
      var i := 0;
      while i < |builtins|
        invariant 0 <= i <= |builtins|
        invariant Valid() && initialized
        invariant this.meshX == meshX && this.meshY == meshY
        invariant Tables() == RegisterAll(builtins[..i])
      {
        assert builtins[..i + 1][..i] == builtins[..i];
        RegisterFactory(builtins[i].extension, builtins[i].factory);
        i := i + 1;
      }
      assert builtins[..i] == builtins;
      RegisterAllKeys(builtins);
      RegisterAllFactories(builtins);
    }

    /**
      Registers `factory` under `extension`, overwriting an earlier entry for
      that extension; the list takes ownership of the factory once.
     */
    method RegisterFactory(extension: string, factory: FactoryId)
      requires Valid() && initialized
      modifies this
      ensures Valid() && initialized
      ensures Tables() == Register(old(Tables()), extension, factory)
      ensures meshX == old(meshX) && meshY == old(meshY)
    {
      factoryMap := factoryMap[extension := factory];
      if factory !in factoryList {
        factoryList := factoryList + [factory];
      }
    }

    /** The factory registered for `extension`, or an exception when there is none. */
    function Factory(extension: string): (r: Result<FactoryId>)
      reads this
      ensures r.Ok? <==> initialized && extension in factoryMap
      ensures r.Ok? ==> r.value == factoryMap[extension]
      ensures r.Err? && !initialized ==> r.error.kind == NotInitialized
      ensures r.Err? && initialized ==> r.error.kind == UnknownExtension && EndsWith(r.error.message, extension)
    {
      if !initialized then
        Err(PresetFactoryException(NotInitialized, "The preset factory manager is not initialized."))
      else if extension !in factoryMap then
        AppendedEndsWith("No preset factory associated with extension ", extension);
        Err(PresetFactoryException(UnknownExtension, "No preset factory associated with extension " + extension))
      else
        Ok(factoryMap[extension])
    }

    /** Whether a factory is registered for `extension`; it never fails. */
    function ExtensionHandled(extension: string): (handled: bool)
      reads this
      ensures handled <==> extension in factoryMap
      ensures initialized ==> (handled <==> Factory(extension).Ok?)
    {
      extension in factoryMap
    }

    /** Every extension that has a factory, each exactly once. */
    method ExtensionsHandled() returns (extensions: seq<string>)
      ensures forall e :: e in extensions <==> ExtensionHandled(e)
      ensures NoDuplicates(extensions)
    {
      extensions := [];
      var remaining := factoryMap.Keys;
      while remaining != {}
        invariant remaining <= factoryMap.Keys
        invariant forall e :: e in extensions <==> e in factoryMap && e !in remaining
        invariant NoDuplicates(extensions)
        decreases remaining
      {
        var e :| e in remaining;
        extensions := extensions + [e];
        remaining := remaining - {e};
      }
    }

    /**
      Loads a preset from a stream: the factory for `extension` parses `data`.
      A lookup failure propagates unchanged; a rejection by the factory becomes
      a parse failure whose message keeps the factory's message.
     */
    function CreatePresetFromStream(extension: string, data: StreamToken,
                                    parse: (FactoryId, StreamToken) -> ParseOutcome): (r: Result<Preset>)
      reads this
      ensures Factory(extension).Err? ==> r == Err(Factory(extension).error)
      ensures r.Ok? ==> Factory(extension).Ok? && parse(Factory(extension).value, data).Parsed?
      ensures r.Ok? ==> r.value == FactoryPreset(factoryMap[extension], extension, data,
                                                 parse(factoryMap[extension], data).preset)
      ensures Factory(extension).Ok? && parse(Factory(extension).value, data).Rejected? ==>
        r.Err? && r.error.kind == PresetParseFailure &&
        StartsWith(r.error.message, extension) &&
        EndsWith(r.error.message, parse(Factory(extension).value, data).message)
      ensures Factory(extension).Ok? && parse(Factory(extension).value, data).Parsed? ==> r.Ok?
    {
      match Factory(extension)
      case Err(e) => Err(e)
      case Ok(f) =>
        match parse(f, data)
        case Parsed(p) => Ok(FactoryPreset(f, extension, data, p))
        case Rejected(message) =>
          AppendedEndsWith(extension + ": ", message);
          AppendedEndsWith(extension, ": ");
          assert (extension + ": " + message)[..|extension|] == extension;
          Err(PresetFactoryException(PresetParseFailure, extension + ": " + message))
    }

    /**
      Loads the file at `path` by its extension: a path without an extension
      or with an unhandled one fails before the file is opened; a file that
      cannot be opened fails; otherwise the opened stream is loaded.
     */
    function LoadPath(path: string, open: string -> Option<StreamToken>,
                      parse: (FactoryId, StreamToken) -> ParseOutcome): (r: Result<Preset>)
      reads this
      ensures ParseExtension(path).None? ==> r.Err? && r.error.kind == MissingExtension
      ensures ParseExtension(path).Some? && Factory(ParseExtension(path).value).Err? ==>
        r == Err(Factory(ParseExtension(path).value).error)
      ensures ParseExtension(path).Some? && Factory(ParseExtension(path).value).Ok? && open(path).None? ==>
        r.Err? && r.error.kind == StreamOpenFailure && EndsWith(r.error.message, path)
      ensures ParseExtension(path).Some? && Factory(ParseExtension(path).value).Ok? && open(path).Some? ==>
        r == CreatePresetFromStream(ParseExtension(path).value, open(path).value, parse)
    {
      match ParseExtension(path)
      case None =>
        Err(PresetFactoryException(MissingExtension, "No file extension in " + path))
      case Some(extension) =>
        match Factory(extension)
        case Err(e) => Err(e)
        case Ok(_) =>
          match open(path)
          case None =>
            AppendedEndsWith("Could not open preset file ", path);
            Err(PresetFactoryException(StreamOpenFailure, "Could not open preset file " + path))
          case Some(stream) => CreatePresetFromStream(extension, stream, parse)
    }

    /**
      Loads a preset by file name or URL. "idle://" gives the idle preset;
      "file://" and a bare path load the file by its extension; any other
      scheme fails, naming the URL.
     */
    function CreatePresetFromFile(filename: string, open: string -> Option<StreamToken>,
                                  parse: (FactoryId, StreamToken) -> ParseOutcome): (r: Result<Preset>)
      reads this
      ensures !initialized ==> r.Err? && r.error.kind == NotInitialized
      ensures r.Ok? && r.value.IdlePreset? ==> StartsWith(filename, IDLE_SCHEME + SEPARATOR)
    {
      if !initialized then
        Err(PresetFactoryException(NotInitialized, "The preset factory manager is not initialized."))
      else
        var url := SplitUrl(filename);
        match url.scheme
        case None => LoadPath(filename, open, parse)
        case Some(scheme) =>
          if scheme == IDLE_SCHEME then
            assert filename[..|IDLE_SCHEME + SEPARATOR|] == IDLE_SCHEME + SEPARATOR;
            Ok(IdlePreset)
          else if scheme == FILE_SCHEME then
            LoadPath(url.rest, open, parse)
          else
            AppendedEndsWith("Unsupported URL scheme in ", filename);
            Err(PresetFactoryException(UnsupportedScheme, "Unsupported URL scheme in " + filename))
    }
  }
}
