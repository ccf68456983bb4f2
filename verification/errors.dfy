/** The error taxonomy of the parser: every NanoArgsParserException the
    source can throw, one constructor per error code. Options are referred
    to by their position in the option table, so "which option" is a plain
    index rather than a Java object reference. */
module Errors {

  datatype ParseError =
    | Unrecognized(token: string)                 // code 22, no option reference
    | Duplicated(index: nat, key: string)         // code 33
    | MissingValue(index: nat, key: string)       // code 44
    | MissingRequired(index: nat, key: string)    // code 55
    | NotAFlag(key: string)                       // code 66, thrown by isOn()
  {
    /** The numeric error code carried by the exception. */
    function Code(): (code: int)
      ensures code in {22, 33, 44, 55, 66}
      ensures code == 22 <==> !RefersToOption()
    {
      match this
      case Unrecognized(_) => 22
      case Duplicated(_, _) => 33
      case MissingValue(_, _) => 44
      case MissingRequired(_, _) => 55
      case NotAFlag(_) => 66
    }

    /** True when the exception carries a reference to an option. */
    predicate RefersToOption()
    {
      !Unrecognized?
    }

    /** The exception's message text. */
    function Message(): string
    {
      match this
      case Unrecognized(token) => "Unrecognized option " + token
      case Duplicated(_, key) => "Duplicated option -" + key
      case MissingValue(_, key) => "The value of option -" + key + " (next argument) is missing"
      case MissingRequired(_, key) => "Required option -" + key + " is missing"
      case NotAFlag(_) => "isOn() is applicable only for flag option"
    }
  }
}
