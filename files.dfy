/** Text files as the converters see them: a sequence of lines, without their terminators. */
module Files {

  /** The files that can be opened, by path. */
  type Disk = map<string, seq<string>>

  /** A file opened for writing: it starts empty and each write appends one line. */
  class OutputFile {
    var lines: seq<string>

    constructor ()
      ensures lines == []
    {
      lines := [];
    }

    method WriteLine(line: string)
      modifies this
      ensures lines == old(lines) + [line]
    {
      lines := lines + [line];
    }
  }
}
