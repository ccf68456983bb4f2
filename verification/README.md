# NanoArgsParser in Dafny

A model of `NanoArgsParser`, a small command-line argument scanner written as
a single Java class. The caller declares a table of options. Each option has
a key (written without its dash), an initial value and a help text. The
initial value is one of three things:

- the `FLAG` sentinel, for a switch without a value;
- the `REQUIRED` sentinel, for a value option that must be supplied;
- any other string, which is that option's default.

`parse(args)` walks the arguments left to right:

- A token starting with `-` names an option. The rest of the token is the
  key, and the first declared option with that key is used.
- A flag option is marked processed.
- A value option takes the next token verbatim as its value.
- Every other token is copied to the output.
- After a complete scan, parse fails if an option still holds `REQUIRED`.

Errors are exceptions with codes:

- 22: unknown key;
- 33: an option given twice;
- 44: a value option with nothing after it;
- 55: a required option never given;
- 66: `isOn()` called on an option that is not a flag.

`argsSynopsis()` concatenates the per-option help lines. Each line is
computed once, when the option is constructed.

Modules:

- `Wrappers`: `Option` and `Result`.
- `Errors`: `ParseError`, one constructor per error code, with `Code()` and
  the exception's `Message()`. The parse errors for codes 33, 44 and 55 refer
  to an option by its index in the table and its key. Code 22 carries only
  the unrecognized token, and code 66 (`NotAFlag`) carries only the key.
- `Options`: the nested class `Option`, here `CliOption`. The Java sentinels
  are compared by reference, so they become the tags `Flag` and `Required`
  of `Value`. Any string is `Text(s)`. The module also holds the
  constructor, the help line and `isOn()`.
- `Parser`: `Lookup` and `FirstRequired` (the two `findFirst` streams),
  `Scan` (the loop), `Parse`, `ArgsSynopsis`, and `ParseLoop`. `ParseLoop`
  is the Java index loop written imperatively and proved equal to `Parse`.
  `Evolves` is what any parse can do to a table.
- `Invocation`: a command line described by what it means, as a list of
  items. An item is `Positional(arg)`, `FlagUse(key)` or
  `ValueUse(key, value)`. `Render` writes the items out as argument tokens.
  `WellFormed` holds when every key is declared, not yet processed, of the
  right kind and used once. `Apply` is the table such an invocation
  prescribes.
- `ParserProperties`: `Parse` against `Render` in both directions, the error
  cases, and the synopsis.
- `Scenarios`: the project's JUnit cases.

The table is threaded through a pure `Scan`. `Parse` returns the final
table with its result, so the updates made before an error are kept. The
Java code keeps them too.

Two behaviours of the code a reader might not expect, both modelled as written:

- An unknown key (or a duplicate, or a missing value) does not undo updates
  already made to earlier options. `ParseUnrecognized` returns
  `Apply(table, items)` for the valid prefix, not the original table.
- `parse` accepts any table, including one that has already been parsed. An
  option processed in an earlier run is reported as a duplicate (code 33) on
  its first appearance.

## Model

| member | source | states |
|---|---|---|
| Options.NewOption | src/main/java/net/nenko/lib/NanoArgsParser.java:108-112 | A new option is unprocessed and holds its declared value. Its help line is computed from the declared value. A new flag reads as off, and any other kind refuses `isOn()` |
| Options.IsOn | src/main/java/net/nenko/lib/NanoArgsParser.java:114-119 | `isOn()` succeeds exactly for a flag and then returns `processed`. For any other option it fails with code 66, naming the option |
| Options.SynopsisLineFormats | src/main/java/net/nenko/lib/NanoArgsParser.java:121-130 | Gives the three help-line formats. A flag's line is `\t-key - desc\n`. A required option's line is `\t-key meaning - desc (required option)\n`. An option with a default ends in `(default is 'd')\n` |
| Errors.ParseError.Code | src/main/java/net/nenko/lib/NanoArgsParser.java:48-74 | Every error has one of the codes 22, 33, 44, 55 and 66. Only code 22 (unknown option) carries no option reference |
| Parser.Lookup | src/main/java/net/nenko/lib/NanoArgsParser.java:46-50 | Finds the first declared option whose key equals the token minus its dash. The result is none exactly when no option has that key |
| Parser.FirstRequired | src/main/java/net/nenko/lib/NanoArgsParser.java:71-72 | Finds the first option in declaration order that still holds `REQUIRED`. The result is none exactly when no option does |
| Parser.Scan | src/main/java/net/nenko/lib/NanoArgsParser.java:42-68 | The scan keeps the table's size. On success it returns at most as many tokens as it was given, none starting with a dash. Its errors have codes 22, 33 or 44 |
| Parser.Parse | src/main/java/net/nenko/lib/NanoArgsParser.java:41-76 | On success no option still holds `REQUIRED`, and the output is no longer than the input. Its errors have codes 22, 33, 44 or 55 |
| Parser.ScanEvolves | src/main/java/net/nenko/lib/NanoArgsParser.java:52-64 | Keys and help lines never change. A flag stays a flag and a value option stays one. A processed option is never touched again. Every option that changes becomes processed. Nothing gains `REQUIRED` |
| Parser.ParseEvolves | src/main/java/net/nenko/lib/NanoArgsParser.java:41-76 | The same invariant for the whole of `parse`, on success and on every error |
| Parser.ParseLoop | src/main/java/net/nenko/lib/NanoArgsParser.java:41-76 | The index loop with early returns (and `args[++ix]` for a value) computes exactly the table and result of the recursive model |
| Invocation.Apply | src/main/java/net/nenko/lib/NanoArgsParser.java:55-60 | Applying an invocation keeps the table's size and every key |
| Invocation.ApplyUsed | src/main/java/net/nenko/lib/NanoArgsParser.java:55-60 | A used flag becomes processed with its value unchanged. A used value option holds its given token and becomes processed |
| Invocation.ApplyUntouched | src/main/java/net/nenko/lib/NanoArgsParser.java:44-68 | An option that no item names is left exactly as it was |
| ParserProperties.ScanStep | src/main/java/net/nenko/lib/NanoArgsParser.java:44-67 | The scan consumes an accepted item whole: one token for a positional or a flag, two for a value option. It then continues from the updated table |
| ParserProperties.ScanRenderPrefix | src/main/java/net/nenko/lib/NanoArgsParser.java:44-68 | A well-formed prefix never stops the scan and is never looked at again. Its positionals come first in the output, and the rest is scanned from the table the prefix leaves |
| ParserProperties.ParseRender | src/main/java/net/nenko/lib/NanoArgsParser.java:42-75 | Round trip: parsing the rendering of a well-formed invocation that names every required option succeeds. It returns exactly the positional arguments, in order, and the prescribed table |
| ParserProperties.ParseSound | src/main/java/net/nenko/lib/NanoArgsParser.java:42-75 | Converse: every successful parse has a well-formed invocation behind it. That invocation renders to the arguments, its positionals are the output and it prescribes the final table |
| ParserProperties.ParseUnrecognized | src/main/java/net/nenko/lib/NanoArgsParser.java:45-50 | A dash token whose key is not declared stops the parse with code 22 and no option reference, whatever follows. The option `-` alone looks up the empty key |
| ParserProperties.ParseDuplicated | src/main/java/net/nenko/lib/NanoArgsParser.java:51-54 | Naming an already used option again, flag or value option, stops the parse with code 33 for that option, whatever follows |
| ParserProperties.ParseMissingValue | src/main/java/net/nenko/lib/NanoArgsParser.java:57-63 | A value option as the last token stops the parse with code 44 for that option. Earlier updates are kept |
| ParserProperties.ParseMissingRequired | src/main/java/net/nenko/lib/NanoArgsParser.java:70-74 | After a full error-free scan, the first option in declaration order that is required and never named is reported with code 55 |
| ParserProperties.RequiredSupplied | src/main/java/net/nenko/lib/NanoArgsParser.java:70-75 | After a successful parse, every option declared required is processed and holds a supplied value |
| ParserProperties.ValueAfterParse | src/main/java/net/nenko/lib/NanoArgsParser.java:57-60 | A value option holds exactly the token that followed it, even one starting with a dash, and is processed |
| ParserProperties.IsOnAfterParse | src/main/java/net/nenko/lib/NanoArgsParser.java:55-56 | After a successful parse, `isOn()` of a flag is true exactly when the flag was named or was already processed |
| ParserProperties.ParseNoDash | src/main/java/net/nenko/lib/NanoArgsParser.java:44-75 | With no dash token and no required option, parse returns the arguments unchanged and the table untouched |
| ParserProperties.ArgsSynopsisAppend | src/main/java/net/nenko/lib/NanoArgsParser.java:78-80 | The synopsis of two tables laid end to end is the two synopses laid end to end |
| ParserProperties.ArgsSynopsisLine | src/main/java/net/nenko/lib/NanoArgsParser.java:78-80 | Option i's help line sits in the synopsis after the lines of all options declared before it |
| ParserProperties.SynopsisUnchangedByParse | src/main/java/net/nenko/lib/NanoArgsParser.java:106-111 | The help lines are fixed at construction. `argsSynopsis()` is the same before and after any parse, on success or on error |
| Scenarios.HappyPath | src/test/java/net/nenko/lib/NanoArgsParserTest.java:27-39 | The unit test's happy path yields `command input output` and sets `-p` and `-d` |
| Scenarios.HappyValues | src/test/java/net/nenko/lib/NanoArgsParserTest.java:36-38 | After the happy path `-p` holds `abracadabra`, `-rev` is on, `-d` holds `another directory`, and `-x` is unchanged |
| Scenarios.UnknownOption | src/test/java/net/nenko/lib/NanoArgsParserTest.java:41-53 | `-Z` fails with code 22 and no option reference, leaving the table unchanged |
| Scenarios.MissingRequiredOption | src/test/java/net/nenko/lib/NanoArgsParserTest.java:55-67 | Without `-p` the parse fails with code 55, naming option 0 (`p`) |
| Scenarios.DuplicateOption | src/test/java/net/nenko/lib/NanoArgsParserTest.java:69-82 | `-p` given twice fails with code 33, naming option 0 |
| Scenarios.MissingOptionValue | src/test/java/net/nenko/lib/NanoArgsParserTest.java:84-96 | A trailing `-d` fails with code 44, naming option 2 (`d`) |
| Scenarios.Messages | src/test/java/net/nenko/lib/NanoArgsParserTest.java:50-79 | The messages of codes 22, 55 and 33 are the texts the tests expect |
| Scenarios.MissingValueMessage | src/test/java/net/nenko/lib/NanoArgsParserTest.java:93 | The message of code 44 for `-d` is the text the test expects |

## Left out

- `NanoArgsParserException.toString()` (NanoArgsParser.java:93-97) is not
  modelled. It formats a message and dereferences the option, which is null
  for code 22. The error is modelled as its kind, code, option index and
  message.
- NanoArgsParserDemoMainApp.java (console printing) is not part of this
  model.
- Java object identity and aliasing are not modelled. The caller's
  references to its `Option` objects become the table that `Parse` returns.
  A thrown exception becomes a `Failure` outcome.
- `Options.SynopsisLineFormats`: a `null` value meaning or default, which
  Java prints as `null`, is not modelled; all texts are strings.
- Parser.ScanEvolves: Java compares the `FLAG` and `REQUIRED` sentinels by
  reference (NanoArgsParser.java:55, :71, :115, :124-126), and the model keeps
  them as distinct tags, so string identity and interning are not modelled.
  In Java a string that is the very interned constant acts as the sentinel,
  whether it is given as a default or supplied as a value (line 59 stores
  `args[++ix]` by reference). Supplying `REQUIRED` (or the same literal) as
  the value of `-d` makes parse fail with code 55 naming `d`, where the model
  succeeds. Supplying `FLAG` turns `d` into a flag whose `isOn()` is true,
  where the model reports code 66. For such inputs "a value option stays one"
  and "nothing gains `REQUIRED`" (`Parser.ScanEvolves`,
  `Parser.ParseEvolves`) do not hold of the Java. The model follows the evident
  intent: a supplied value is always text.
- Parser.ParseEvolves: the same sentinel-identity caveat as
  `Parser.ScanEvolves` above.
- The unit test's literal help-line strings are not restated character by
  character. `Options.SynopsisLineFormats` gives the same three formats for
  every key, meaning and description.
