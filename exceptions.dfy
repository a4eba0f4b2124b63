/**
  The error side of the preset factory manager. Every failure of the manager
  surfaces as a PresetFactoryException carrying a human-readable message; the
  model adds a kind that classifies the failure, so that properties about
  which branch failed can be stated without parsing messages.
 */
module Exceptions {

  /** The conventional optional value. */
  datatype Option<+T> = None | Some(value: T)

  /** The failure categories the manager distinguishes. */
  datatype ErrorKind =
    | NotInitialized      // an operation used before initialize
    | UnknownExtension    // no factory registered for the extension
    | UnsupportedScheme   // a URL scheme other than idle:// or file://
    | MissingExtension    // a path with no extension to dispatch on
    | StreamOpenFailure   // the file behind a path could not be opened
    | PresetParseFailure  // the selected factory rejected the data

  /** The exception value: a kind and the message handed back unchanged. */
  datatype PresetFactoryException = PresetFactoryException(kind: ErrorKind, message: string)

  /** The outcome of every fallible operation: a value, or the exception in place of unwinding. */
  datatype Result<+T> = Ok(value: T) | Err(error: PresetFactoryException)

  /** `suffix` is the final part of `s`. */
  predicate EndsWith(s: string, suffix: string) {
    |suffix| <= |s| && s[|s| - |suffix|..] == suffix
  }

  /** `prefix` is the initial part of `s`. */
  predicate StartsWith(s: string, prefix: string) {
    |prefix| <= |s| && s[..|prefix|] == prefix
  }

  /** The message given when the exception is built is the message it hands back. */
  lemma MessagePreserved(kind: ErrorKind, message: string)
    ensures PresetFactoryException(kind, message).message == message
    ensures Result<int>.Err(PresetFactoryException(kind, message)).error.message == message
  {
  }

  /** A message built by appending a subject to a fixed text ends with that subject. */
  lemma AppendedEndsWith(text: string, subject: string)
    ensures EndsWith(text + subject, subject)
    ensures StartsWith(text + subject, text)
  {
    assert (text + subject)[|text|..] == subject;
    assert (text + subject)[..|text|] == text;
  }
}
