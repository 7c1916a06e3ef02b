/**
 * The failures the library throws (as std::string values) and the text it throws.
 * The model returns them instead of throwing.
 */
module Errors {
  import opened Text

  datatype LogError =
    | OpenFailure(path: Str)                  // file_helper::open ran out of attempts
    | NotOpenedBefore                         // file_helper::reopen with no file name yet
    | NotOpen(path: Str)                      // file_helper::size on a closed handle
    | WriteFailure(path: Str)                 // file_helper::write accepted fewer bytes
    | RotationFailure(src: Str, target: Str)  // rotating_file_sink::rotate_ could not rename

  /** The text of the thrown string. */
  function Message(e: LogError): Str
  {
    match e
    case OpenFailure(p) => "Failed opening file " + p + " for writing"
    case NotOpenedBefore => "Failed re opening file - was not opened before"
    case NotOpen(p) => "Cannot use size() on closed file " + p
    case WriteFailure(p) => "Failed writing to file " + p
    case RotationFailure(s, t) => "rotating_file_sink: failed renaming " + s + " to " + t
  }
}
