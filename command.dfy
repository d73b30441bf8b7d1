/**
 * A parsed player command: a command word and an optional second word
 * (the thing the command is about). Parsing the typed line is not part of
 * this model.
 */
module Commands {

  import opened Wrappers

  datatype Command = Command(commandWord: string, secondWord: Option<string>) {

    predicate HasSecondWord() {
      secondWord.Some?
    }

    /** The second word, or None where the Java code would return null. */
    function GetSecondWord(): Option<string> {
      secondWord
    }
  }
}
