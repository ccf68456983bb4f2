/** One declared command-line option (the source's nested class Option):
    its key, its current value, whether the parser has met it, and the help
    line computed when it was constructed. */
module Options {
  import opened Wrappers
  import opened Errors

  /** The option's value cell. The source stores a string and recognises two
      reserved sentinel objects by reference; here they are distinct tags, so
      no user string can ever be taken for a sentinel. */
  datatype Value =
    | Flag            // a switch without value; its presence is `processed`
    | Required        // a value option without default that must be supplied
    | Text(text: string)   // a default, or (after parsing) the supplied value

  datatype CliOption = CliOption(key: string, value: Value, processed: bool, synopsis: string)

  /** The help line of an option, fixed when the option is constructed: the
      dashed key, then (for a value option) what the value means, then the
      description, then whether the option is required or what its default
      is, then a line break. */
  function SynopsisLine(key: string, value: Value, valueMeaning: string, description: string): string
  {
    var extra := match value
      case Flag => ""
      case Required => " (required option)"
      case Text(d) => " (default is '" + d + "')";
    var head := if value.Flag? then "\t-" + key else "\t-" + key + [' '] + valueMeaning;
    head + " - " + description + extra + ['\n']
  }

  /** The three formats of a help line, one per kind of option. A value
      option with a default shows that default, quoted. */
  lemma SynopsisLineFormats(key: string, value: Value, valueMeaning: string, description: string)
    ensures value == Flag ==>
      SynopsisLine(key, value, valueMeaning, description) == "\t-" + key + " - " + description + "\n"
    ensures value == Required ==>
      SynopsisLine(key, value, valueMeaning, description) ==
        "\t-" + key + " " + valueMeaning + " - " + description + " (required option)\n"
    ensures value.Text? ==>
      SynopsisLine(key, value, valueMeaning, description) ==
        "\t-" + key + " " + valueMeaning + " - " + description + " (default is '" + value.text + "')\n"
  {
  }

  /** The constructor: the option starts unprocessed, holding its declared
      value, with its help line computed from that declared value; a fresh
      flag reads as off, and any other option refuses isOn(). */
  function NewOption(key: string, defaultValue: Value, valueMeaning: string, description: string): (o: CliOption)
    ensures o.key == key && o.value == defaultValue && !o.processed
    ensures o.synopsis == SynopsisLine(key, defaultValue, valueMeaning, description)
    ensures IsOn(o) == if defaultValue == Flag then Success(false) else Failure(NotAFlag(key))
  {
    CliOption(key, defaultValue, false, SynopsisLine(key, defaultValue, valueMeaning, description))
  }

  /** isOn(): the presence of a flag option; any other option is an error. */
  function IsOn(o: CliOption): (r: Result<bool, ParseError>)
    ensures r.Success? <==> o.value.Flag?
    ensures r.Success? ==> r.value == o.processed
    ensures r.Failure? ==> r.error.Code() == 66 && r.error == NotAFlag(o.key)
  {
    if o.value != Flag then Failure(NotAFlag(o.key)) else Success(o.processed)
  }
}
