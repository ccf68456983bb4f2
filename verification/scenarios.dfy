/** The cases of the project's unit tests, stated as lemmas about the model.
    They hold for any table with the tests' declarations, whatever the help
    lines; `TestTable` builds that table with the constructor. */
module Scenarios {
  import opened Wrappers
  import opened Errors
  import opened Options
  import opened Parser
  import opened Invocation

  /** The four options the unit tests declare. */
  function TestTable(): seq<CliOption>
  {
    [ NewOption("p", Required, "<password>", "sets the password for encryption"),
      NewOption("rev", Flag, "", "if set, activates reverse order of processing"),
      NewOption("d", Text("."), "<directory>", "sets current directory for processing"),
      NewOption("x", Text("some default value"), "<arg-value-meaning>",
                "explanation of the option for autogeneration command line format") ]
  }

  /** The declarations of the test table, freshly constructed. */
  predicate Declares(t: seq<CliOption>)
  {
    && |t| == 4
    && t[0].key == "p" && t[0].value == Required && !t[0].processed
    && t[1].key == "rev" && t[1].value == Flag && !t[1].processed
    && t[2].key == "d" && t[2].value == Text(".") && !t[2].processed
    && t[3].key == "x" && t[3].value == Text("some default value") && !t[3].processed
  }

  lemma TestTableDeclares()
    ensures Declares(TestTable())
  {
  }

  lemma Lookups(t: seq<CliOption>)
    requires Declares(t)
    ensures Lookup(t, "p") == Some(0)
    ensures Lookup(t, "rev") == Some(1)
    ensures Lookup(t, "d") == Some(2)
    ensures Lookup(t, "Z") == None
  {
    assert "-p"[1..] == "p" && "-rev"[1..] == "rev" && "-d"[1..] == "d" && "-Z"[1..] == "Z";
  }

  lemma HappyPath(t: seq<CliOption>, args: seq<string>)
    requires Declares(t)
    requires args == ["command", "-p", "abracadabra", "-rev", "input", "output", "-d", "another directory"]
    ensures Parse(t, args) == Outcome(HappyTable(t), Success(["command", "input", "output"]))
  {
    HappyScan(t, args);
    var t3 := HappyTable(t);
    assert t3[0].value == Text("abracadabra") && t3[1].value == Flag;
    assert t3[2].value == Text("another directory") && t3[3].value == t[3].value;
    assert forall i :: 0 <= i < |t3| ==> !t3[i].value.Required?;
    ParseAfterCleanScan(t, args);
  }

  /** A successful scan that leaves no Required option is the parse's outcome. */
  lemma ParseAfterCleanScan(t: seq<CliOption>, args: seq<string>)
    requires Scan(t, args).result.Success?
    requires forall i :: 0 <= i < |Scan(t, args).table| ==> !Scan(t, args).table[i].value.Required?
    ensures Parse(t, args) == Scan(t, args)
  {
  }

  /** What the unit test reads back after the happy path. */
  lemma HappyValues(t: seq<CliOption>)
    requires Declares(t)
    ensures HappyTable(t)[0].value == Text("abracadabra")
    ensures IsOn(HappyTable(t)[1]) == Success(true)
    ensures HappyTable(t)[2].value == Text("another directory")
    ensures HappyTable(t)[3] == t[3]
  {
  }

  /** The table the happy path leaves behind. */
  function HappyTable(t: seq<CliOption>): seq<CliOption>
    requires |t| == 4
  {
    var t2 := HappyPrefixTable(t);
    t2[2 := t2[2].(value := Text("another directory"), processed := true)]
  }

  /** The table after `-p abracadabra -rev`. */
  function HappyPrefixTable(t: seq<CliOption>): seq<CliOption>
    requires |t| == 4
  {
    var t1 := t[0 := t[0].(value := Text("abracadabra"), processed := true)];
    t1[1 := t1[1].(processed := true)]
  }

  lemma HappyScan(t: seq<CliOption>, args: seq<string>)
    requires Declares(t)
    requires args == ["command", "-p", "abracadabra", "-rev", "input", "output", "-d", "another directory"]
    ensures Scan(t, args) == Outcome(HappyTable(t), Success(["command", "input", "output"]))
  {
    var t1 := t[0 := t[0].(value := Text("abracadabra"), processed := true)];
    var t2 := HappyPrefixTable(t);
    var t3 := HappyTable(t);
    Lookups(t);
    LookupSameKeys(t, t1, "rev");
    var a3 := args[4..];
    HappyScanTail(t, a3);
    var a2 := args[3..];
    var a1 := args[1..];
    assert a2[0][1..] == "rev" && a2[1..] == a3;
    assert a1[0][1..] == "p" && a1[1] == "abracadabra" && a1[2..] == a2;
    assert Scan(t, a1) == Outcome(t3, Success(["input", "output"]));
    assert args == ["command"] + a1;
    ScanPositional(t, "command", a1);
    assert ["command"] + ["input", "output"] == ["command", "input", "output"];
  }

  /** The second half of the happy path, from the table `-p` and `-rev` leave. */
  lemma HappyScanTail(t: seq<CliOption>, args: seq<string>)
    requires Declares(t)
    requires args == ["input", "output", "-d", "another directory"]
    ensures Scan(HappyPrefixTable(t), args) == Outcome(HappyTable(t), Success(["input", "output"]))
  {
    var t2 := HappyPrefixTable(t);
    var t3 := HappyTable(t);
    Lookups(t);
    LookupSameKeys(t, t2, "d");
    var a5 := args[2..];
    var a4 := args[1..];
    assert a5[0][1..] == "d" && a5[2..] == [];
    assert Scan(t2, a5) == Outcome(t3, Success([]));
    assert a4 == ["output"] + a5;
    ScanPositional(t2, "output", a5);
    assert args == ["input"] + a4;
    ScanPositional(t2, "input", a4);
    assert ["input"] + (["output"] + []) == ["input", "output"];
  }

  lemma UnknownOption(t: seq<CliOption>)
    requires Declares(t)
    ensures var o := Parse(t, ["command", "-Z", "abracadabra", "-rev", "input", "output", "-d", "another directory"]);
      && o.result == Failure(Unrecognized("-Z"))
      && o.result.error.Code() == 22
      && !o.result.error.RefersToOption()
      && o.table == t
  {
    Lookups(t);
    var a1 := ["-Z", "abracadabra", "-rev", "input", "output", "-d", "another directory"];
    var a0 := ["command"] + a1;
    assert a0 == ["command", "-Z", "abracadabra", "-rev", "input", "output", "-d", "another directory"];
    assert a1[0][1..] == "Z";
    assert Scan(t, a1) == Outcome(t, Failure(Unrecognized("-Z")));
    ScanPositional(t, "command", a1);
  }

  lemma MissingRequiredOption(t: seq<CliOption>)
    requires Declares(t)
    ensures var o := Parse(t, ["command", "-rev", "input", "output", "-d", "another directory"]);
      && o.result == Failure(MissingRequired(0, "p"))
      && o.result.error.Code() == 55
  {
    var t1 := t[1 := t[1].(processed := true)];
    var t2 := t1[2 := t1[2].(value := Text("another directory"), processed := true)];
    Lookups(t);
    LookupSameKeys(t, t1, "d");
    var a4 := ["-d", "another directory"];
    var a3 := ["output"] + a4;
    var a2 := ["input"] + a3;
    var a1 := ["-rev"] + a2;
    var a0 := ["command"] + a1;
    assert a0 == ["command", "-rev", "input", "output", "-d", "another directory"];
    assert a4[0][1..] == "d" && a4[2..] == [];
    assert Scan(t1, a4) == Outcome(t2, Success([]));
    ScanPositional(t1, "output", a4);
    ScanPositional(t1, "input", a3);
    assert a1[0][1..] == "rev" && a1[1..] == a2;
    assert Scan(t, a1).table == t2;
    ScanPositional(t, "command", a1);
    assert Scan(t, a0).result.Success? && Scan(t, a0).table == t2;
    assert FirstRequired(t2) == Some(0);
  }

  lemma DuplicateOption(t: seq<CliOption>)
    requires Declares(t)
    ensures var o := Parse(t, ["command", "-p", "first-occurance", "-rev", "-p", "duplicate (appear 2nd time)",
                               "input", "output", "-d", "another directory"]);
      && o.result == Failure(Duplicated(0, "p"))
      && o.result.error.Code() == 33
  {
    var t1 := t[0 := t[0].(value := Text("first-occurance"), processed := true)];
    var t2 := t1[1 := t1[1].(processed := true)];
    Lookups(t);
    LookupSameKeys(t, t1, "rev");
    LookupSameKeys(t, t2, "p");
    var a3 := ["-p", "duplicate (appear 2nd time)", "input", "output", "-d", "another directory"];
    var a2 := ["-rev"] + a3;
    var a1 := ["-p", "first-occurance"] + a2;
    var a0 := ["command"] + a1;
    assert a0 == ["command", "-p", "first-occurance", "-rev", "-p", "duplicate (appear 2nd time)",
                  "input", "output", "-d", "another directory"];
    assert a3[0][1..] == "p";
    assert Scan(t2, a3) == Outcome(t2, Failure(Duplicated(0, "p")));
    assert a2[0][1..] == "rev" && a2[1..] == a3;
    assert a1[0][1..] == "p" && a1[1] == "first-occurance" && a1[2..] == a2;
    assert Scan(t, a1) == Outcome(t2, Failure(Duplicated(0, "p")));
    ScanPositional(t, "command", a1);
  }

  lemma MissingOptionValue(t: seq<CliOption>)
    requires Declares(t)
    ensures var o := Parse(t, ["command", "-p", "abracadabra", "-rev", "input", "output", "-d"]);
      && o.result == Failure(MissingValue(2, "d"))
      && o.result.error.Code() == 44
  {
    var t1 := t[0 := t[0].(value := Text("abracadabra"), processed := true)];
    var t2 := t1[1 := t1[1].(processed := true)];
    Lookups(t);
    LookupSameKeys(t, t1, "rev");
    LookupSameKeys(t, t2, "d");
    var a5 := ["-d"];
    var a4 := ["output"] + a5;
    var a3 := ["input"] + a4;
    var a2 := ["-rev"] + a3;
    var a1 := ["-p", "abracadabra"] + a2;
    var a0 := ["command"] + a1;
    assert a0 == ["command", "-p", "abracadabra", "-rev", "input", "output", "-d"];
    assert a5[0][1..] == "d";
    assert Scan(t2, a5) == Outcome(t2, Failure(MissingValue(2, "d")));
    ScanPositional(t2, "output", a5);
    ScanPositional(t2, "input", a4);
    assert a2[0][1..] == "rev" && a2[1..] == a3;
    assert a1[0][1..] == "p" && a1[1] == "abracadabra" && a1[2..] == a2;
    assert Scan(t, a1) == Outcome(t2, Failure(MissingValue(2, "d")));
    ScanPositional(t, "command", a1);
  }

  /** The messages the unit tests expect. */
  lemma Messages()
    ensures Unrecognized("-Z").Message() == "Unrecognized option -Z"
    ensures MissingRequired(0, "p").Message() == "Required option -p is missing"
    ensures Duplicated(0, "p").Message() == "Duplicated option -p"
  {
  }

  /** The message the unit test expects for a missing value. */
  lemma MissingValueMessage()
    ensures MissingValue(2, "d").Message() == "The value of option -d (next argument) is missing"
  {
    var m := MissingValue(2, "d").Message();
    var expected := "The value of option -d (next argument) is missing";
    assert m == "The value of option -" + "d" + " (next argument) is missing";
    assert |m| == |expected|;
    forall i | 0 <= i < |m|
      ensures m[i] == expected[i]
    {
    }
  }

}
