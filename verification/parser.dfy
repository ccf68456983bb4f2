/** The parser (the source's class NanoArgsParser): one left-to-right pass
    over the argument sequence that threads the option table, followed by the
    check that every required option was supplied; and the usage synopsis. */
module Parser {
  import opened Wrappers
  import opened Errors
  import opened Options

  /** A token that names an option: it starts with a dash. */
  predicate IsDash(token: string)
  {
    |token| > 0 && token[0] == '-'
  }

  /** The first option, in declaration order, whose key equals `key`. */
  function Lookup(table: seq<CliOption>, key: string): (r: Option<nat>)
    ensures r.Some? ==> r.value < |table| && table[r.value].key == key
    ensures r.Some? ==> forall j :: 0 <= j < r.value ==> table[j].key != key
    ensures r.None? <==> forall j :: 0 <= j < |table| ==> table[j].key != key
    decreases |table|
  {
    if |table| == 0 then None
    else if table[0].key == key then Some(0)
    else match Lookup(table[1..], key)
      case None => None
      case Some(j) => Some(j + 1)
  }

  /** The first option, in declaration order, still holding the Required tag. */
  function FirstRequired(table: seq<CliOption>): (r: Option<nat>)
    ensures r.Some? ==> r.value < |table| && table[r.value].value.Required?
    ensures r.Some? ==> forall j :: 0 <= j < r.value ==> !table[j].value.Required?
    ensures r.None? <==> forall j :: 0 <= j < |table| ==> !table[j].value.Required?
    decreases |table|
  {
    if |table| == 0 then None
    else if table[0].value.Required? then Some(0)
    else match FirstRequired(table[1..])
      case None => None
      case Some(j) => Some(j + 1)
  }

  /** The option table after a parse call, together with its result: the
      positional arguments, or the error that stopped it. On an error the
      table keeps every update made before the error (nothing is undone). */
  datatype Outcome = Outcome(table: seq<CliOption>, result: Result<seq<string>, ParseError>)

  /** Positional arguments found before `o` was reached, put in front of its
      own; an error passes through untouched. */
  function Prepend(found: seq<string>, o: Outcome): Outcome
  {
    match o.result
    case Success(out) => Outcome(o.table, Success(found + out))
    case Failure(_) => o
  }

  lemma {:induction false} PrependNothing(o: Outcome)
    ensures Prepend([], o) == o
  {
    if o.result.Success? {
      assert [] + o.result.value == o.result.value;
    }
  }

  lemma {:induction false} PrependPrepend(p: seq<string>, q: seq<string>, o: Outcome)
    ensures Prepend(p, Prepend(q, o)) == Prepend(p + q, o)
  {
    if o.result.Success? {
      assert p + (q + o.result.value) == (p + q) + o.result.value;
    }
  }

  /** A token without a dash goes straight to the output. */
  lemma {:induction false} ScanPositional(table: seq<CliOption>, token: string, rest: seq<string>)
    requires !IsDash(token)
    ensures Scan(table, [token] + rest) == Prepend([token], Scan(table, rest))
  {
    assert ([token] + rest)[1..] == rest;
  }

  /** What parsing can do to an option table: keys and help lines never
      change, a flag stays a flag and a value option stays a value option, an
      option already processed is left alone, any option that changes becomes
      processed, and no option acquires the Required tag. */
  ghost predicate Evolves(before: seq<CliOption>, after: seq<CliOption>)
  {
    && |after| == |before|
    && forall i :: 0 <= i < |before| ==>
         && after[i].key == before[i].key
         && after[i].synopsis == before[i].synopsis
         && (after[i].value.Flag? <==> before[i].value.Flag?)
         && (before[i].processed ==> after[i] == before[i])
         && (after[i] != before[i] ==> after[i].processed)
         && (after[i].value.Required? ==> before[i].value.Required?)
  }

  /** The scanning loop of parse(): positional tokens are collected in order,
      a flag option is marked processed, a value option takes the next token
      verbatim as its value. */
  function Scan(table: seq<CliOption>, args: seq<string>): (o: Outcome)
    ensures |o.table| == |table|
    ensures o.result.Success? ==> |o.result.value| <= |args|
    ensures o.result.Success? ==> forall k :: 0 <= k < |o.result.value| ==> !IsDash(o.result.value[k])
    ensures o.result.Failure? ==> o.result.error.Code() in {22, 33, 44}
    decreases |args|
  {
    if args == [] then Outcome(table, Success([]))
    else if !IsDash(args[0]) then
      Prepend([args[0]], Scan(table, args[1..]))
    else
      match Lookup(table, args[0][1..])
      case None => Outcome(table, Failure(Unrecognized(args[0])))
      case Some(i) =>
        if table[i].processed then Outcome(table, Failure(Duplicated(i, table[i].key)))
        else if table[i].value.Flag? then
          Scan(table[i := table[i].(processed := true)], args[1..])
        else if |args| == 1 then Outcome(table, Failure(MissingValue(i, table[i].key)))
        else Scan(table[i := table[i].(value := Text(args[1]), processed := true)], args[2..])
  }

  /** parse(): the scan, then the check that no option still holds Required;
      the first such option in declaration order is reported. */
  function Parse(table: seq<CliOption>, args: seq<string>): (o: Outcome)
    ensures |o.table| == |table|
    ensures o.result.Success? ==> forall i :: 0 <= i < |o.table| ==> !o.table[i].value.Required?
    ensures o.result.Success? ==> |o.result.value| <= |args|
    ensures o.result.Failure? ==> o.result.error.Code() in {22, 33, 44, 55}
  {
    var s := Scan(table, args);
    if s.result.Failure? then s
    else match FirstRequired(s.table)
      case Some(i) => Outcome(s.table, Failure(MissingRequired(i, s.table[i].key)))
      case None => s
  }

  /** argsSynopsis(): the help lines of all options, in declaration order. */
  function ArgsSynopsis(table: seq<CliOption>): string
    decreases |table|
  {
    if |table| == 0 then "" else table[0].synopsis + ArgsSynopsis(table[1..])
  }

  /** Evolves is transitive. */
  lemma {:induction false} EvolvesTrans(a: seq<CliOption>, b: seq<CliOption>, c: seq<CliOption>)
    requires Evolves(a, b) && Evolves(b, c)
    ensures Evolves(a, c)
  {
  }

  /** The scan only ever evolves the table: it is the invariant every step
      keeps, whatever the outcome. */
  lemma {:induction false} ScanEvolves(table: seq<CliOption>, args: seq<string>)
    ensures Evolves(table, Scan(table, args).table)
    decreases |args|
  {
    if args == [] {
    } else if !IsDash(args[0]) {
      ScanEvolves(table, args[1..]);
    } else {
      match Lookup(table, args[0][1..])
      case None =>
      case Some(i) =>
        if table[i].processed {
        } else if table[i].value.Flag? {
          var t := table[i := table[i].(processed := true)];
          ScanEvolves(t, args[1..]);
          EvolvesTrans(table, t, Scan(t, args[1..]).table);
        } else if |args| == 1 {
        } else {
          var t := table[i := table[i].(value := Text(args[1]), processed := true)];
          ScanEvolves(t, args[2..]);
          EvolvesTrans(table, t, Scan(t, args[2..]).table);
        }
    }
  }

  /** parse() keeps every key and help line, never turns a flag into a value
      option or back, never touches an option already processed, marks every
      option it changes as processed, and never introduces Required. */
  lemma {:induction false} ParseEvolves(table: seq<CliOption>, args: seq<string>)
    ensures Evolves(table, Parse(table, args).table)
  {
    ScanEvolves(table, args);
  }

  /** The imperative loop of parse(), index by index, as the source writes
      it; it computes exactly the functional model. */
  method ParseLoop(options: seq<CliOption>, args: seq<string>)
    returns (table: seq<CliOption>, result: Result<seq<string>, ParseError>)
    ensures Outcome(table, result) == Parse(options, args)
  {
    table := options;
    var out: seq<string> := [];
    var ix := 0;
    assert args[ix..] == args;
    PrependNothing(Scan(options, args));
    while ix < |args|
      invariant 0 <= ix <= |args|
      invariant Prepend(out, Scan(table, args[ix..])) == Scan(options, args)
      decreases |args| - ix
    {
      var token := args[ix];
      assert args[ix..][0] == token && args[ix..][1..] == args[ix + 1..];
      if IsDash(token) {
        var key := token[1..];
        var opt := Lookup(table, key);
        if opt.None? {
          result := Failure(Unrecognized(token));
          return;
        }
        var i := opt.value;
        if table[i].processed {
          result := Failure(Duplicated(i, table[i].key));
          return;
        }
        if table[i].value == Flag {
          table := table[i := table[i].(processed := true)];
        } else {
          if ix < |args| - 1 {
            assert args[ix..][2..] == args[ix + 2..];
            ix := ix + 1;
            table := table[i := table[i].(value := Text(args[ix]), processed := true)];
          } else {
            result := Failure(MissingValue(i, table[i].key));
            return;
          }
        }
      } else {
        PrependPrepend(out, [token], Scan(table, args[ix + 1..]));
        out := out + [token];
      }
      ix := ix + 1;
    }
    assert Scan(table, args[ix..]) == Outcome(table, Success([]));
    assert out + [] == out;
    var missing := FirstRequired(table);
    if missing.Some? {
      result := Failure(MissingRequired(missing.value, table[missing.value].key));
    } else {
      result := Success(out);
    }
  }
}
