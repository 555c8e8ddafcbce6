/** The generator's standard output, seen as the sequence of script lines it
    has printed so far. */
module Output {

  class Script {
    var lines: seq<string>

    constructor ()
      ensures lines == []
    {
      lines := [];
    }

    /** `print(line)`: one more line at the end of the script. */
    method Emit(line: string)
      modifies this
      ensures lines == old(lines) + [line]
    {
      lines := lines + [line];
    }
  }
}
