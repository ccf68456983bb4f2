/** Properties of parse() and argsSynopsis(), stated against the
    `Invocation` description of a command line. */
module ParserProperties {
  import opened Wrappers
  import opened Errors
  import opened Options
  import opened Parser
  import opened Invocation

  /** The positional arguments an item contributes. */
  function ItemPositionals(x: Item): seq<string>
  {
    if x.Positional? then [x.arg] else []
  }

  /** One step of the scan: an item the table accepts is consumed whole. */
  lemma {:induction false} ScanStep(table: seq<CliOption>, x: Item, later: seq<string>)
    requires Fits(table, x)
    ensures Scan(table, x.Tokens() + later) == Prepend(ItemPositionals(x), Scan(Record(table, x), later))
  {
    var args := x.Tokens() + later;
    match x
    case Positional(a) =>
      assert args[0] == a && args[1..] == later;
    case FlagUse(k) =>
      assert args[0][1..] == k;
      assert args[1..] == later;
      PrependNothing(Scan(Record(table, x), later));
    case ValueUse(k, v) =>
      assert args[0][1..] == k;
      assert args[1] == v;
      assert args[2..] == later;
      PrependNothing(Scan(Record(table, x), later));
  }

  /** Scanning a well-formed invocation followed by anything else is the same
      as scanning the rest from the table the invocation leaves behind: the
      scan never looks back and never stops inside a well-formed prefix. */
  lemma {:induction false} ScanRenderPrefix(table: seq<CliOption>, items: seq<Item>, rest: seq<string>)
    requires WellFormed(table, items)
    ensures Scan(table, Render(items) + rest) == Prepend(Positionals(items), Scan(Apply(table, items), rest))
    decreases |items|
  {
    if |items| == 0 {
      assert Render(items) + rest == rest;
      PrependNothing(Scan(table, rest));
    } else {
      var x, tail := items[0], items[1..];
      WellFormedStep(table, items);
      var t := Record(table, x);
      assert Render(items) + rest == x.Tokens() + (Render(tail) + rest);
      assert Fits(table, x);
      ScanStep(table, x, Render(tail) + rest);
      ScanRenderPrefix(t, tail, rest);
      PrependPrepend(ItemPositionals(x), Positionals(tail), Scan(Apply(t, tail), rest));
      assert Positionals(items) == ItemPositionals(x) + Positionals(tail);
    }
  }

  /** Scanning the rendering of a well-formed invocation succeeds. */
  lemma {:induction false} ScanRender(table: seq<CliOption>, items: seq<Item>)
    requires WellFormed(table, items)
    ensures Scan(table, Render(items)) == Outcome(Apply(table, items), Success(Positionals(items)))
  {
    ScanRenderPrefix(table, items, []);
    assert Render(items) + [] == Render(items);
    assert Positionals(items) + [] == Positionals(items);
  }

  /** After a well-formed invocation, an option holds Required exactly when
      it was declared Required and no item names it. */
  lemma {:induction false} ApplyRequired(table: seq<CliOption>, items: seq<Item>, j: nat)
    requires WellFormed(table, items) && j < |table|
    ensures Apply(table, items)[j].value.Required? <==> table[j].value.Required? && !Supplied(table, items, j)
  {
    if Supplied(table, items, j) {
      var n :| 0 <= n < |items| && items[n].IsUse() && Lookup(table, items[n].key) == Some(j);
      ApplyUsed(table, items, n, j);
    } else {
      ApplyUntouched(table, items, j);
    }
  }

  /** Round trip: parsing the rendering of a well-formed invocation in which
      every Required option is named returns exactly its positional
      arguments, in order, and leaves the table as the invocation prescribes. */
  lemma {:induction false} ParseRender(table: seq<CliOption>, items: seq<Item>)
    requires WellFormed(table, items)
    requires forall i :: 0 <= i < |table| && table[i].value.Required? ==> Supplied(table, items, i)
    ensures Parse(table, Render(items)) == Outcome(Apply(table, items), Success(Positionals(items)))
  {
    ScanRender(table, items);
    var after := Apply(table, items);
    forall i | 0 <= i < |table|
      ensures !after[i].value.Required?
    {
      ApplyRequired(table, items, i);
    }
  }

  /** The required check: after a well-formed invocation, the first option in
      declaration order that is Required and not named is reported, code 55,
      and the table keeps the invocation's updates. */
  lemma {:induction false} ParseMissingRequired(table: seq<CliOption>, items: seq<Item>, i: nat)
    requires WellFormed(table, items)
    requires i < |table| && table[i].value.Required? && !Supplied(table, items, i)
    requires forall j :: 0 <= j < i && table[j].value.Required? ==> Supplied(table, items, j)
    ensures Parse(table, Render(items)) ==
              Outcome(Apply(table, items), Failure(MissingRequired(i, table[i].key)))
    ensures Parse(table, Render(items)).result.error.Code() == 55
  {
    ScanRender(table, items);
    var after := Apply(table, items);
    forall j | 0 <= j <= i
      ensures after[j].value.Required? <==> j == i
    {
      ApplyRequired(table, items, j);
    }
    FirstRequiredIs(after, i);
  }

  /** The first Required option is the one its contract describes. */
  lemma {:induction false} FirstRequiredIs(table: seq<CliOption>, i: nat)
    requires i < |table| && table[i].value.Required?
    requires forall j :: 0 <= j < i ==> !table[j].value.Required?
    ensures FirstRequired(table) == Some(i)
  {
  }

  /** An unknown key (a dash token whose remainder is no declared key; "-"
      alone stands for the empty key) stops the parse with code 22 and no
      option reference; the tokens after it are never examined. */
  lemma {:induction false} ParseUnrecognized(table: seq<CliOption>, items: seq<Item>, token: string, rest: seq<string>)
    requires WellFormed(table, items)
    requires IsDash(token) && forall j :: 0 <= j < |table| ==> table[j].key != token[1..]
    ensures Parse(table, Render(items) + [token] + rest) ==
              Outcome(Apply(table, items), Failure(Unrecognized(token)))
    ensures Parse(table, Render(items) + [token] + rest).result.error.Code() == 22
  {
    assert Render(items) + [token] + rest == Render(items) + ([token] + rest);
    ScanRenderPrefix(table, items, [token] + rest);
    LookupRecordAll(table, items, token[1..]);
  }

  /** Naming an option a second time stops the parse with code 33, referring
      to that option; later tokens are never examined. */
  lemma {:induction false} ParseDuplicated(table: seq<CliOption>, items: seq<Item>, n: nat, rest: seq<string>)
    requires WellFormed(table, items)
    requires n < |items| && items[n].IsUse()
    ensures var i := Lookup(table, items[n].key).value;
      Parse(table, Render(items) + ["-" + items[n].key] + rest) ==
        Outcome(Apply(table, items), Failure(Duplicated(i, items[n].key)))
  {
    var k := items[n].key;
    var i := Lookup(table, k).value;
    assert Fits(table, items[n]);
    assert Render(items) + ["-" + k] + rest == Render(items) + (["-" + k] + rest);
    ScanRenderPrefix(table, items, ["-" + k] + rest);
    ApplyUsed(table, items, n, i);
    LookupRecordAll(table, items, k);
    assert (["-" + k] + rest)[0][1..] == k;
  }

  /** A value option given as the very last token, with nothing left to
      consume, stops the parse with code 44, referring to that option. */
  lemma {:induction false} ParseMissingValue(table: seq<CliOption>, items: seq<Item>, key: string)
    requires WellFormed(table, items)
    requires Lookup(table, key).Some?
    requires var i := Lookup(table, key).value;
      !table[i].value.Flag? && !table[i].processed && !Supplied(table, items, i)
    ensures var i := Lookup(table, key).value;
      Parse(table, Render(items) + ["-" + key]) ==
        Outcome(Apply(table, items), Failure(MissingValue(i, key)))
  {
    var i := Lookup(table, key).value;
    ScanRenderPrefix(table, items, ["-" + key]);
    ApplyUntouched(table, items, i);
    LookupRecordAll(table, items, key);
    assert ["-" + key][0][1..] == key;
  }

  /** Applying an invocation changes no key, so lookups are unaffected. */
  lemma {:induction false} LookupRecordAll(table: seq<CliOption>, items: seq<Item>, key: string)
    requires WellFormed(table, items)
    ensures Lookup(Apply(table, items), key) == Lookup(table, key)
  {
    LookupSameKeys(table, Apply(table, items), key);
  }

  /** Soundness: whatever parse accepts is the rendering of a well-formed
      invocation whose positional arguments are the result, and the final
      table is the one that invocation prescribes. */
  lemma {:induction false} ParseSound(table: seq<CliOption>, args: seq<string>)
    requires Parse(table, args).result.Success?
    ensures exists items :: && WellFormed(table, items)
                            && Render(items) == args
                            && Positionals(items) == Parse(table, args).result.value
                            && Apply(table, items) == Parse(table, args).table
  {
    ScanSound(table, args);
  }

  lemma {:induction false} ScanSound(table: seq<CliOption>, args: seq<string>)
    requires Scan(table, args).result.Success?
    ensures exists items :: && WellFormed(table, items)
                            && Render(items) == args
                            && Positionals(items) == Scan(table, args).result.value
                            && Apply(table, items) == Scan(table, args).table
    decreases |args|
  {
    if args == [] {
      var items: seq<Item> := [];
      assert WellFormed(table, items) && Render(items) == args;
    } else {
      var x := FirstItem(table, args);
      var later := args[|x.Tokens()|..];
      assert args == x.Tokens() + later;
      ScanStep(table, x, later);
      var t := Record(table, x);
      ScanSound(t, later);
      var tail :| && WellFormed(t, tail) && Render(tail) == later
                  && Positionals(tail) == Scan(t, later).result.value
                  && Apply(t, tail) == Scan(t, later).table;
      ConsWellFormed(table, x, tail);
    }
  }

  /** The item a successful scan reads first from a non-empty argument
      sequence. */
  function FirstItem(table: seq<CliOption>, args: seq<string>): (x: Item)
    requires args != [] && Scan(table, args).result.Success?
    ensures Fits(table, x)
    ensures |x.Tokens()| <= |args| && x.Tokens() == args[..|x.Tokens()|]
  {
    if !IsDash(args[0]) then Positional(args[0])
    else
      var k := args[0][1..];
      assert args[0] == "-" + k;
      var i := Lookup(table, k).value;
      if table[i].value.Flag? then FlagUse(k) else ValueUse(k, args[1])
  }

  /** Putting an accepted item in front of an invocation that is well formed
      for the table the item leaves behind gives a well-formed invocation. */
  lemma {:induction false} ConsWellFormed(table: seq<CliOption>, x: Item, tail: seq<Item>)
    requires Fits(table, x) && WellFormed(Record(table, x), tail)
    ensures WellFormed(table, [x] + tail)
    ensures Render([x] + tail) == x.Tokens() + Render(tail)
    ensures Positionals([x] + tail) == ItemPositionals(x) + Positionals(tail)
    ensures Apply(table, [x] + tail) == Apply(Record(table, x), tail)
  {
    var items := [x] + tail;
    var t := Record(table, x);
    assert items[1..] == tail;
    LookupRecord(table, x);
    forall n | 0 <= n < |items|
      ensures Fits(table, items[n])
    {
      if n > 0 {
        assert items[n] == tail[n - 1];
        assert Fits(t, tail[n - 1]);
      }
    }
    forall n, m | 0 <= n < m < |items| && items[n].IsUse() && items[m].IsUse()
      ensures items[n].key != items[m].key
    {
      assert items[m] == tail[m - 1];
      if n > 0 {
        assert items[n] == tail[n - 1];
      } else {
        assert Fits(t, tail[m - 1]);
      }
    }
  }

  /** A value option takes the token after it verbatim (even a token that
      starts with a dash): after a successful parse it holds that token and
      is processed. */
  lemma {:induction false} ValueAfterParse(table: seq<CliOption>, items: seq<Item>, n: nat)
    requires WellFormed(table, items)
    requires forall i :: 0 <= i < |table| && table[i].value.Required? ==> Supplied(table, items, i)
    requires n < |items| && items[n].ValueUse?
    ensures var i := Lookup(table, items[n].key).value;
      && Parse(table, Render(items)).table[i].value == Text(items[n].arg)
      && Parse(table, Render(items)).table[i].processed
  {
    assert Fits(table, items[n]);
    ParseRender(table, items);
    ApplyUsed(table, items, n, Lookup(table, items[n].key).value);
  }

  /** isOn() after a successful parse: true exactly for a flag that was
      already processed or that the command line names. */
  lemma {:induction false} IsOnAfterParse(table: seq<CliOption>, items: seq<Item>, i: nat)
    requires WellFormed(table, items)
    requires forall j :: 0 <= j < |table| && table[j].value.Required? ==> Supplied(table, items, j)
    requires i < |table| && table[i].value.Flag?
    ensures IsOn(Parse(table, Render(items)).table[i]) == Success(table[i].processed || Supplied(table, items, i))
  {
    ParseRender(table, items);
    if Supplied(table, items, i) {
      var n :| 0 <= n < |items| && items[n].IsUse() && Lookup(table, items[n].key) == Some(i);
      assert Fits(table, items[n]);
      ApplyUsed(table, items, n, i);
    } else {
      ApplyUntouched(table, items, i);
    }
  }

  /** With no dash token on the command line and no Required option, parse
      returns the arguments unchanged and leaves the table as it was. */
  lemma {:induction false} ParseNoDash(table: seq<CliOption>, args: seq<string>)
    requires forall k :: 0 <= k < |args| ==> !IsDash(args[k])
    requires forall i :: 0 <= i < |table| ==> !table[i].value.Required?
    ensures Parse(table, args) == Outcome(table, Success(args))
  {
    ScanNoDash(table, args);
    FirstRequiredNone(table);
  }

  lemma {:induction false} FirstRequiredNone(table: seq<CliOption>)
    requires forall i :: 0 <= i < |table| ==> !table[i].value.Required?
    ensures FirstRequired(table) == None
  {
  }

  lemma {:induction false} ScanNoDash(table: seq<CliOption>, args: seq<string>)
    requires forall k :: 0 <= k < |args| ==> !IsDash(args[k])
    ensures Scan(table, args) == Outcome(table, Success(args))
    decreases |args|
  {
    if args != [] {
      assert forall k :: 0 <= k < |args[1..]| ==> args[1..][k] == args[k + 1];
      ScanNoDash(table, args[1..]);
      assert [args[0]] + args[1..] == args;
    }
  }

  /** The synopsis of two tables laid end to end is the two synopses laid
      end to end. */
  lemma {:induction false} ArgsSynopsisAppend(a: seq<CliOption>, b: seq<CliOption>)
    ensures ArgsSynopsis(a + b) == ArgsSynopsis(a) + ArgsSynopsis(b)
    decreases |a|
  {
    if |a| > 0 {
      assert (a + b)[1..] == a[1..] + b;
      ArgsSynopsisAppend(a[1..], b);
    } else {
      assert a + b == b;
    }
  }

  /** The synopsis lists every option's line, in declaration order: option
      `i`'s line sits after the lines of the options before it. */
  lemma {:induction false} ArgsSynopsisLine(table: seq<CliOption>, i: nat)
    requires i < |table|
    ensures ArgsSynopsis(table) == ArgsSynopsis(table[..i]) + table[i].synopsis + ArgsSynopsis(table[i + 1..])
  {
    assert table == table[..i] + table[i..];
    ArgsSynopsisAppend(table[..i], table[i..]);
    assert table[i..][1..] == table[i + 1..];
  }

  /** The synopsis depends on the help lines alone. */
  lemma {:induction false} ArgsSynopsisSameLines(a: seq<CliOption>, b: seq<CliOption>)
    requires |a| == |b| && forall i :: 0 <= i < |a| ==> a[i].synopsis == b[i].synopsis
    ensures ArgsSynopsis(a) == ArgsSynopsis(b)
    decreases |a|
  {
    if |a| > 0 {
      ArgsSynopsisSameLines(a[1..], b[1..]);
    }
  }

  /** The help lines are fixed at construction: argsSynopsis() gives the same
      text after parse() as before, whatever parse() returned. */
  lemma {:induction false} SynopsisUnchangedByParse(table: seq<CliOption>, args: seq<string>)
    ensures ArgsSynopsis(Parse(table, args).table) == ArgsSynopsis(table)
  {
    ParseEvolves(table, args);
    ArgsSynopsisSameLines(Parse(table, args).table, table);
  }

  /** After a successful parse every option declared Required has been
      supplied: it is processed and holds a value. */
  lemma {:induction false} RequiredSupplied(table: seq<CliOption>, args: seq<string>, i: nat)
    requires Parse(table, args).result.Success?
    requires i < |table| && table[i].value.Required?
    ensures Parse(table, args).table[i].processed
    ensures Parse(table, args).table[i].value.Text?
  {
    ParseEvolves(table, args);
  }
}
