/** A command line described by what it means: a list of items, each a
    positional argument, a use of a flag option, or a use of a value option
    with its value. `Render` writes such a description out as the argument
    sequence a user would type; it is the inverse partner of `Parser.Parse`. */
module Invocation {
  import opened Wrappers
  import opened Options
  import opened Parser

  datatype Item =
    | Positional(arg: string)
    | FlagUse(key: string)
    | ValueUse(key: string, arg: string)
  {
    predicate IsUse()
    {
      !Positional?
    }

    /** The tokens this item occupies on the command line. */
    function Tokens(): seq<string>
    {
      match this
      case Positional(a) => [a]
      case FlagUse(k) => ["-" + k]
      case ValueUse(k, v) => ["-" + k, v]
    }
  }

  function Render(items: seq<Item>): seq<string>
    decreases |items|
  {
    if |items| == 0 then [] else items[0].Tokens() + Render(items[1..])
  }

  /** The positional arguments of an invocation, in order. */
  function Positionals(items: seq<Item>): seq<string>
    decreases |items|
  {
    if |items| == 0 then []
    else if items[0].Positional? then [items[0].arg] + Positionals(items[1..])
    else Positionals(items[1..])
  }

  /** An item the table accepts: a positional argument does not start with a
      dash; a use names a declared key whose (first) option is not yet
      processed and has the matching kind. The value of a value option is
      unconstrained: it may start with a dash. */
  predicate Fits(table: seq<CliOption>, item: Item)
  {
    match item
    case Positional(a) => !IsDash(a)
    case FlagUse(k) =>
      var r := Lookup(table, k);
      r.Some? && !table[r.value].processed && table[r.value].value.Flag?
    case ValueUse(k, _) =>
      var r := Lookup(table, k);
      r.Some? && !table[r.value].processed && !table[r.value].value.Flag?
  }

  /** Every item fits, and no option key is used twice. */
  predicate WellFormed(table: seq<CliOption>, items: seq<Item>)
  {
    && (forall n :: 0 <= n < |items| ==> Fits(table, items[n]))
    && (forall n, m :: 0 <= n < m < |items| && items[n].IsUse() && items[m].IsUse() ==>
          items[n].key != items[m].key)
  }

  /** Option `i` of the table is named by some use in the invocation. */
  predicate Supplied(table: seq<CliOption>, items: seq<Item>, i: nat)
  {
    exists n :: 0 <= n < |items| && items[n].IsUse() && Lookup(table, items[n].key) == Some(i)
  }

  /** The effect of one item on the table. */
  function Record(table: seq<CliOption>, item: Item): seq<CliOption>
  {
    match item
    case Positional(_) => table
    case FlagUse(k) =>
      (match Lookup(table, k)
       case Some(i) => table[i := table[i].(processed := true)]
       case None => table)
    case ValueUse(k, v) =>
      (match Lookup(table, k)
       case Some(i) => table[i := table[i].(value := Text(v), processed := true)]
       case None => table)
  }

  /** The table once every item of a well-formed invocation has taken
      effect, item by item (see ApplyContents for what it holds). */
  function Apply(table: seq<CliOption>, items: seq<Item>): (after: seq<CliOption>)
    requires WellFormed(table, items)
    ensures |after| == |table|
    ensures forall i :: 0 <= i < |table| ==> after[i].key == table[i].key
    decreases |items|
  {
    if |items| == 0 then table
    else
      WellFormedStep(table, items);
      Apply(Record(table, items[0]), items[1..])
  }

  /** An option that no item of a well-formed invocation names is left as
      it was. */
  lemma {:induction false} ApplyUntouched(table: seq<CliOption>, items: seq<Item>, i: nat)
    requires WellFormed(table, items)
    requires i < |table| && !Supplied(table, items, i)
    ensures Apply(table, items)[i] == table[i]
    decreases |items|
  {
    if |items| > 0 {
      var rest := items[1..];
      WellFormedStep(table, items);
      var t := Record(table, items[0]);
      LookupRecord(table, items[0]);
      forall m | 0 <= m < |rest| && rest[m].IsUse()
        ensures Lookup(t, rest[m].key) != Some(i)
      {
        assert items[m + 1] == rest[m];
      }
      ApplyUntouched(t, rest, i);
      assert !(items[0].IsUse() && Lookup(table, items[0].key) == Some(i));
    }
  }

  /** An option named by a use of a well-formed invocation ends up processed
      and, for a value option, holding the value the use gives it. */
  lemma {:induction false} ApplyUsed(table: seq<CliOption>, items: seq<Item>, n: nat, i: nat)
    requires WellFormed(table, items)
    requires n < |items| && items[n].IsUse() && Lookup(table, items[n].key) == Some(i)
    ensures items[n].FlagUse? ==> Apply(table, items)[i] == table[i].(processed := true)
    ensures items[n].ValueUse? ==>
              Apply(table, items)[i] == table[i].(value := Text(items[n].arg), processed := true)
    decreases |items|
  {
    var rest := items[1..];
    WellFormedStep(table, items);
    var t := Record(table, items[0]);
    LookupRecord(table, items[0]);
    if n == 0 {
      forall m | 0 <= m < |rest| && rest[m].IsUse()
        ensures Lookup(t, rest[m].key) != Some(i)
      {
        assert items[m + 1] == rest[m];
      }
      ApplyUntouched(t, rest, i);
    } else {
      assert rest[n - 1] == items[n];
      assert items[0].IsUse() ==> items[0].key != items[n].key;
      ApplyUsed(t, rest, n - 1, i);
    }
  }

  /** Recording an item changes no key, so lookups are unaffected. */
  lemma {:induction false} LookupRecord(table: seq<CliOption>, x: Item)
    ensures |Record(table, x)| == |table|
    ensures forall k :: Lookup(Record(table, x), k) == Lookup(table, k)
  {
    forall k {
      LookupSameKeys(table, Record(table, x), k);
    }
  }

  /** Lookup depends on the keys alone. */
  lemma {:induction false} LookupSameKeys(a: seq<CliOption>, b: seq<CliOption>, key: string)
    requires |a| == |b|
    requires forall i :: 0 <= i < |a| ==> a[i].key == b[i].key
    ensures Lookup(a, key) == Lookup(b, key)
  {
  }

  /** Recording the first item of a well-formed invocation leaves the rest
      well formed, and the option it touched is not touched again. */
  lemma {:induction false} WellFormedStep(table: seq<CliOption>, items: seq<Item>)
    requires |items| > 0 && WellFormed(table, items)
    ensures WellFormed(Record(table, items[0]), items[1..])
  {
    var t := Record(table, items[0]);
    var rest := items[1..];
    forall m | 0 <= m < |rest|
      ensures Fits(t, rest[m])
    {
      assert rest[m] == items[m + 1];
      assert Fits(table, items[m + 1]);
      LookupSameKeys(table, t, if rest[m].IsUse() then rest[m].key else "");
      if rest[m].IsUse() && items[0].IsUse() {
        assert items[0].key != rest[m].key;
        LookupSameKeys(table, t, items[0].key);
      }
    }
    assert forall n, m :: 0 <= n < m < |rest| ==> rest[n] == items[n + 1] && rest[m] == items[m + 1];
  }
}
