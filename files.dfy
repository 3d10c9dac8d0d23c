/**
 The file under analysis, as the analyzer's reads see it. The model does not
 open anything: the outcome of reading the file is an input. Each of the
 source's functions opens the file on its own; the model gives them all the
 same outcome.
 */
module Files {

  /** `Missing`: `open` raises FileNotFoundError (and `os.path.exists` is
      false). `Unreadable`: reading raises some other exception, a decoding
      error included. `Readable`: the lines that iterating over the open file
      yields, each with its line terminator. */
  datatype FileState =
    | Missing
    | Unreadable
    | Readable(lines: seq<string>)

  const ErrorPrefix := "Error: "
  const FileNotFoundMessage := ErrorPrefix + "File not found."
  const ReadFailedMessage := ErrorPrefix + "Failed to read file."

  /** The list every analysis returns when reading the file raises: one
      error, which tells a missing file from any other failure. */
  function ReadError(file: FileState): (r: seq<string>)
    requires !file.Readable?
    ensures |r| == 1 && ErrorPrefix <= r[0]
    ensures r[0] == FileNotFoundMessage <==> file.Missing?
  {
    if file.Missing? then [FileNotFoundMessage] else [ReadFailedMessage]
  }
}
