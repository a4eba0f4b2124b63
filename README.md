# Preset factory manager of projectM, modelled in Dafny

projectM loads visual presets through a `PresetFactoryManager`. The manager owns one
factory per preset format. It maps each file extension to the factory that parses it,
and it keeps a separate list of the factories it owns so that it can release them.
`CreatePresetFromFile` takes a file name or URL. `idle://` yields the built-in idle
preset. `file://` and bare paths are loaded through the factory for the path's
extension. Any other scheme is an error. `CreatePresetFromStream` hands a stream to
the factory for a given extension. Every failure is a `PresetFactoryException`, which
carries a message.

The model follows the header `src/libprojectM/PresetFactoryManager.hpp`: its
declarations, its fields and its doc comments. The implementation file is not part of
this model. Where the model needs behaviour that the header only implies, it states it
as an assumption (see "Assumptions" below).

Files:

- `exceptions.dfy` (module `Exceptions`): the exception as a value
  `PresetFactoryException(kind, message)` and `Result<T> = Ok | Err`, used in place of
  stack unwinding. The `kind` field is added by the model. The source class carries only
  the message. The kind lets the contracts say which failure happened.
- `urls.dfy` (module `Urls`): pure string functions. `SplitUrl` splits a URL at the first
  `://`. `ParseExtension` takes the text after the last `.` of a path. Both come with
  their round trips.
- `registry.dfy` (module `Registry`): the extension map and the owning list as a value.
  `Register` is the specification of `registerFactory`. `RegisterAll` registers a whole
  table in order. `Owned` is the ownership invariant.
- `manager.dfy` (module `Manager`): the class `PresetFactoryManager` with the source's
  fields (`meshX`, `meshY`, `initialized`, `factoryMap`, `factoryList`). `Initialize` and
  `RegisterFactory` are methods that update those fields in place. `ExtensionsHandled`
  is a method with a loop that changes nothing. `Factory`, `ExtensionHandled` and the two
  load entry points are functions that only read the object. `LoadPath` is a helper
  function of the model: it is the shared "load a path by its extension" step of
  `CreatePresetFromFile`, and the header declares no such member.
- `properties.dfy` (module `ManagerProperties`): lemmas that relate the operations. They
  cover lookup against the predicate, gating by initialization, and scheme dispatch.

Assumptions (not shown by the header):

- The factories built in `initialize` are a fixed registration table, `builtins`, given
  when the manager is built. Re-initializing clears both tables and registers the same
  table again, so the result never depends on earlier state: on every later
  `initialize` the factories are cleared and registered anew.
- `registerFactory` overwrites the map entry for its extension. It appends the factory to
  the list only if the list does not already own it. So a factory registered under
  several extensions is owned once.
- Extensions are compared exactly: no case folding. An extension is written without its
  dot. It is the non-empty text after the last `.` of the path.
- `Factory`, `CreatePresetFromStream` and `CreatePresetFromFile` fail with
  `NotInitialized` before the first `initialize`. The header says only that `initialize`
  must be called first. `ExtensionHandled` never fails: it is false then, because nothing
  is registered.
- `CreatePresetFromFile` looks up the extension's factory before it opens the file.
- When a factory rejects a stream, the message is the extension, then `": "`, then the
  factory's own message.

## Model

| member | source | states |
|---|---|---|
| `Exceptions.MessagePreserved` | src/libprojectM/PresetFactoryManager.hpp:11-21 | the message an exception is built with is the message it hands back, also when it travels in an `Err` |
| `Urls.FindSeparator` | src/libprojectM/PresetFactoryManager.hpp:56-59 | finds the FIRST `://` at or after a position: that index holds a separator and none comes before it; `None` means no separator at all |
| `Urls.SplitUrl` | src/libprojectM/PresetFactoryManager.hpp:56-66 | a URL is the scheme, then `://`, then the rest, where the scheme holds no separator; no scheme means the string holds no `://` and is the bare path itself |
| `Urls.SplitBarePath` | src/libprojectM/PresetFactoryManager.hpp:56-66 | a string without `://` splits into no scheme plus the whole string |
| `Urls.SplitJoined` | src/libprojectM/PresetFactoryManager.hpp:56-66 | splitting `scheme + "://" + rest` gives back `scheme` and `rest` whenever the scheme holds no separator (inverse of joining) |
| `Urls.NoColonNoSeparator` | src/libprojectM/PresetFactoryManager.hpp:58-59 | a scheme without `:`, such as `idle` or `file`, holds no separator |
| `Urls.LastDot` | src/libprojectM/PresetFactoryManager.hpp:61-66 | gives the index of the last `.` of a string (no later `.`), or `None` exactly when the string has no `.` |
| `Urls.ParseExtension` | src/libprojectM/PresetFactoryManager.hpp:61-66 | the extension is a non-empty, dot-free suffix of the path that follows a `.`; there is none only when the path has no `.` or ends in one |
| `Urls.ExtensionOfJoined` | src/libprojectM/PresetFactoryManager.hpp:61-66 | `ParseExtension(stem + "." + ext)` is `ext` for every non-empty, dot-free `ext` (inverse of joining) |
| `Registry.Register` | src/libprojectM/PresetFactoryManager.hpp:82-89 | registering sends the extension to the factory; other keys keep their factories; the key set grows by that extension only; the list keeps its old content as a prefix and then owns the factory; ownership is preserved |
| `Registry.RegisterAll` | src/libprojectM/PresetFactoryManager.hpp:36-42 | registering a table in order, from empty tables, ends in tables where every mapped factory is owned and none is owned twice |
| `Registry.RegisterAllKeys` | src/libprojectM/PresetFactoryManager.hpp:36-42 | after registering a table, the handled extensions are exactly the extensions of its entries |
| `Registry.RegisterAllLastWins` | src/libprojectM/PresetFactoryManager.hpp:82-88 | an extension registered several times is served by the factory of its last registration |
| `Registry.RegisterAllFactories` | src/libprojectM/PresetFactoryManager.hpp:88-89 | after registering a table, the list owns exactly the factories of its entries |
| `Manager.PresetFactoryManager.constructor` | src/libprojectM/PresetFactoryManager.hpp:32 | a new manager is uninitialized, with mesh size (0, 0), an empty map and an empty list, and the invariant holds |
| `Manager.PresetFactoryManager.Initialize` | src/libprojectM/PresetFactoryManager.hpp:36-42 | afterwards the manager is initialized and stores the given mesh size, and its tables are exactly those of the built-in table, so it handles exactly the table's extensions and owns exactly its factories; this holds from either state, so a second call replaces the size and leaves no stale registrations |
| `Manager.PresetFactoryManager.RegisterFactory` | src/libprojectM/PresetFactoryManager.hpp:82 | the new tables are `Register` of the old ones; the mesh size and the flag are unchanged; the ownership invariant is kept |
| `Manager.PresetFactoryManager.Factory` | src/libprojectM/PresetFactoryManager.hpp:44-48 | succeeds exactly when initialized and the extension is a key, with the factory the map holds; otherwise it is a `NotInitialized` error, or an `UnknownExtension` error whose message ends with the extension |
| `Manager.PresetFactoryManager.ExtensionHandled` | src/libprojectM/PresetFactoryManager.hpp:50-53 | holds exactly when the extension is a key of the map, and once initialized exactly when `Factory` succeeds; it only reads the object and never fails |
| `Manager.PresetFactoryManager.ExtensionsHandled` | src/libprojectM/PresetFactoryManager.hpp:78 | returns each extension for which `ExtensionHandled` holds, exactly once and nothing else, and changes no state |
| `Manager.PresetFactoryManager.CreatePresetFromStream` | src/libprojectM/PresetFactoryManager.hpp:68-76 | a lookup error is passed on unchanged; on success the result records the mapped factory, the extension, the untouched stream and what the factory parsed; a found factory that parses the stream always yields `Ok`, a valid preset; a rejection becomes a `PresetParseFailure` whose message starts with the extension and ends with the factory's message |
| `Manager.PresetFactoryManager.LoadPath` | src/libprojectM/PresetFactoryManager.hpp:55-66 | no extension gives `MissingExtension`; an unhandled one gives the lookup's error before any open; a file that does not open gives `StreamOpenFailure` naming the path; otherwise loading the path is loading its opened stream |
| `Manager.PresetFactoryManager.CreatePresetFromFile` | src/libprojectM/PresetFactoryManager.hpp:55-66 | fails with `NotInitialized` before initialize; the idle preset comes only from a name that starts with `idle://` |
| `ManagerProperties.HandledIffFactoryFound` | src/libprojectM/PresetFactoryManager.hpp:44-53 | `ExtensionHandled(e)` holds if and only if `Factory(e)` succeeds |
| `ManagerProperties.FoundFactoryIsOwned` | src/libprojectM/PresetFactoryManager.hpp:34 | every factory that lookup hands out is in the owning list, so the destructor can release it |
| `ManagerProperties.UninitializedRejectsAll` | src/libprojectM/PresetFactoryManager.hpp:38 | before initialize no extension is handled, and lookup, stream loading and file loading all fail with `NotInitialized` |
| `ManagerProperties.IdleUrlLoadsIdlePreset` | src/libprojectM/PresetFactoryManager.hpp:58 | `idle://` followed by anything gives the idle preset, whatever the file system and the factories would do |
| `ManagerProperties.FileUrlLoadsPath` | src/libprojectM/PresetFactoryManager.hpp:58 | `file://` followed by a path loads that path by its extension |
| `ManagerProperties.BarePathLoadsLikeFileUrl` | src/libprojectM/PresetFactoryManager.hpp:56-61 | a bare path without `://` loads exactly as the same path behind `file://` |
| `ManagerProperties.OtherSchemeRejected` | src/libprojectM/PresetFactoryManager.hpp:58-63 | any scheme other than `idle` and `file` fails with `UnsupportedScheme`, and the message ends with the whole URL (and so names the scheme) |
| `ManagerProperties.FileUrlSelectsRegisteredFactory` | src/libprojectM/PresetFactoryManager.hpp:55-76 | `file://<stem>.<ext>` loads through the factory mapped to `<ext>`, passes it the stream opened for the path, and returns what it parsed |
| `ManagerProperties.UnhandledExtensionNeverOpens` | src/libprojectM/PresetFactoryManager.hpp:44-48 | a path whose extension has no factory fails with `UnknownExtension`, and the outcome does not depend on the file system |

Every failure of every operation is a `PresetFactoryException` by type: `Result<T>`
carries nothing else on its error side.

## Left out

- Opening files and reading `std::istream` data are I/O. `open` is a parameter from a path to an optional stream token. The stream is an opaque token that the dispatcher passes on untouched.
- The concrete factories and the `Preset` object are in `PresetFactory.hpp`, which is not part of this model. The parse is a parameter from a factory id and a stream to `Parsed(preset)` or `Rejected(message)`. Factories are `nat` identities.
- Which factories `initialize` creates is decided in the implementation file, which is not part of this model. The `builtins` table stands for them.
- `Initialize`: re-initializing rebuilds the factories, but the model reuses the same identities instead of allocating new ones. Releasing the old factories is not modelled.
- The destructor and memory ownership (`unique_ptr`, raw pointers). Only the invariant that the list owns every mapped factory once (`Owned`) is kept.
- Passing the mesh size on to the factories happens inside the factories, which are not visible. The manager only stores the size.
- Thread safety: the class has no synchronization, and the model is sequential.
- Case folding of extensions is not shown in the header. Lookups compare exact strings.
- `ExtensionsHandled`: promises no order for the result. The header does not state one.
- Exception messages are worded by the model. Only what they contain (the extension, the path, the URL, the factory's message) is stated.
- `int` mesh sizes are stored with no arithmetic, so their 32-bit width does not matter.
