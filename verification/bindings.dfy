/** Adding options, and the invariant that ties bound variables to their options over every
    sequence of operations on a parser. */
module Bindings {
  import opened Basics
  import opened Popl
  import opened CommandLine
  import opened ScanLaws
  import opened Ini

  /** What the constructors of Value, Implicit and Switch can set up: a switch defaults to false, an
      implicit option always has a value, and a value option without default is bound to nothing. */
  predicate Constructible(c: Config, fallback: Option<Datum>, target: Option<Address>) {
    match c.kind
    case SwitchOption => fallback == Some(Truth(false))
    case ImplicitOption => fallback.Some?
    case ValueOption => fallback.Some? || target == None
  }

  predicate HasBadName(c: Config) {
    |c.shortName| > 1 || (c.shortName == "" && c.longName == "")
  }

  ghost predicate IsDuplicate(c: Config, entries: seq<Entry>) {
    exists i :: 0 <= i < |entries| && SameName(c, entries[i].config)
  }

  /** add(): whether it succeeds, and the parser afterwards. The option is constructed, and so writes
      its default to its variable, before its names are compared with those of the others. */
  ghost function Add(p: Parser, c: Config, fallback: Option<Datum>, target: Option<Address>): (bool, Parser) {
    var e := Entry(c, fallback, [], target);
    var written := p.(memory := WriteBack(e, p.memory));
    if HasBadName(c) then (false, p)
    else if IsDuplicate(c, p.entries) then (false, written)
    else (true, written.(entries := p.entries + [e]))
  }

  datatype Operation =
    | AddOption(config: Config, fallback: Option<Datum>, target: Option<Address>)
    | ParseCommandLine(args: seq<string>)
    | ParseIniFile(content: string)
    | SetValue(option: nat, datum: Datum)
    | SetDefault(option: nat, datum: Datum)
    | AssignTo(option: nat, target: Option<Address>)
    | ResetAll

  ghost function Apply(p: Parser, op: Operation): (q: Parser)
    ensures |p.entries| <= |q.entries|
  {
    match op
    case AddOption(c, fallback, target) => Add(p, c, fallback, target).1
    case ParseCommandLine(args) => ParseArgs(p, args).parser
    case ParseIniFile(content) => ParseIni(p, content).parser
    case SetValue(k, d) => if k < |p.entries| then AddValue(Clear(p, k), k, d) else p
    case SetDefault(k, d) => if k < |p.entries| then SetEntry(p, k, p.entries[k].(fallback := Some(d))) else p
    case AssignTo(k, target) => if k < |p.entries| then SetEntry(p, k, p.entries[k].(target := target)) else p
    case ResetAll => Reset(p)
  }

  ghost function ApplyAll(p: Parser, ops: seq<Operation>): (q: Parser)
    ensures |p.entries| <= |q.entries|
  {
    if ops == [] then p else Apply(ApplyAll(p, Front(ops)), Last(ops))
  }

  /** A rejected `add` does not touch the variable of option `k`, or writes to it what it holds. */
  ghost predicate Spares(p: Parser, c: Config, fallback: Option<Datum>, target: Option<Address>, k: nat)
    requires k < |p.entries|
  {
    var e := p.entries[k];
    || HasBadName(c) || fallback == None || target == None || target != e.target
    || Current(e) == None || fallback == Current(e)
  }

  /** Every `add` among the operations that fails for its name spares the variable of option `k`. */
  ghost predicate RejectionsSpare(p: Parser, ops: seq<Operation>, k: nat)
    requires k < |p.entries|
  {
    ops == []
    || (RejectionsSpare(p, Front(ops), k)
        && var q, op := ApplyAll(p, Front(ops)), Last(ops);
        op.AddOption? && !Add(q, op.config, op.fallback, op.target).0 ==>
          Spares(q, op.config, op.fallback, op.target, k))
  }

  /** No other option is bound to the variable of option `k`, at any point. */
  ghost predicate StaysUnaliased(p: Parser, ops: seq<Operation>, k: nat)
    requires k < |p.entries|
  {
    Unaliased(ApplyAll(p, ops), k) && (ops == [] || StaysUnaliased(p, Front(ops), k))
  }

  /** The variable of option `k` is in step at every point. */
  ghost predicate StaysBound(p: Parser, ops: seq<Operation>, k: nat)
    requires k < |p.entries|
  {
    BindingHolds(ApplyAll(p, ops), k) && (ops == [] || StaysBound(p, Front(ops), k))
  }

  /** Exactly which options are refused: those whose short name is longer than one letter, those
      without a name, and those that share a short or a long name with an option added before. */
  lemma AddFailsExactlyWhen(p: Parser, c: Config, fallback: Option<Datum>, target: Option<Address>)
    requires c.shortName != [NUL]
    ensures !Add(p, c, fallback, target).0
            <==> || |c.shortName| > 1
                 || (c.shortName == "" && c.longName == "")
                 || (exists i :: 0 <= i < |p.entries| && SharesName(c, p.entries[i].config))
  {
    if |c.shortName| <= 1 {
      forall i | 0 <= i < |p.entries|
        ensures SameName(c, p.entries[i].config) <==> SharesName(c, p.entries[i].config)
      {
      }
    }
  }

  ghost predicate SharesName(c: Config, other: Config) {
    || (c.shortName != "" && other.shortName != "" && c.shortName[0] == other.shortName[0])
    || (c.longName != "" && c.longName == other.longName)
  }

  /** A new option starts with its variable in step, and with distinct names the names stay distinct. */
  lemma AddBinds(p: Parser, c: Config, fallback: Option<Datum>, target: Option<Address>)
    requires Add(p, c, fallback, target).0
    ensures var q := Add(p, c, fallback, target).1;
            && q.entries == p.entries + [Entry(c, fallback, [], target)] && BindingHolds(q, |p.entries|)
            && q.unknown == p.unknown && q.nonOptions == p.nonOptions
            && (DistinctNames(Configs(p.entries)) ==> DistinctNames(Configs(q.entries)))
  {
    var q := Add(p, c, fallback, target).1;
    if DistinctNames(Configs(p.entries)) {
      forall i, j | 0 <= i < j < |q.entries|
        ensures !SameName(Configs(q.entries)[j], Configs(q.entries)[i])
      {
        if j < |p.entries| {
          assert !SameName(Configs(p.entries)[j], Configs(p.entries)[i]);
        } else {
          assert q.entries[i] == p.entries[i];
        }
      }
    }
  }

  lemma SettersBind(p: Parser, op: Operation, k: nat)
    requires k < |p.entries| && BindingHolds(p, k) && Unaliased(p, k)
    requires op.SetValue? || op.SetDefault? || op.AssignTo?
    requires Unaliased(Apply(p, op), k)
    ensures BindingHolds(Apply(p, op), k)
  {
    if op.option < |p.entries| {
      match op
      case SetValue(j, d) =>
        SetEntryBinds(p, j, p.entries[j].(values := []), k);
        var q := Clear(p, j);
        SetEntryBinds(q, j, q.entries[j].(values := q.entries[j].values + [d]), k);
      case SetDefault(j, d) => SetEntryBinds(p, j, p.entries[j].(fallback := Some(d)), k);
      case AssignTo(j, target) => SetEntryBinds(p, j, p.entries[j].(target := target), k);
    }
  }

  lemma OperationBinds(p: Parser, op: Operation, k: nat)
    requires k < |p.entries| && BindingHolds(p, k) && Unaliased(p, k)
    requires op.AddOption? ==> Add(p, op.config, op.fallback, op.target).0
    requires Unaliased(Apply(p, op), k)
    ensures BindingHolds(Apply(p, op), k)
  {
    match op
    case AddOption(c, fallback, target) =>
      var q := Apply(p, op);
      assert q.entries[|p.entries|].target == target && q.entries[k] == p.entries[k];
    case ParseCommandLine(args) => ScanBinds(p, Events(Configs(p.entries), args), k);
    case ParseIniFile(content) => GiveAllBinds(p, Deliveries("", Lines(content)), k);
    case ResetAll => ClearFirstBinds(p.(unknown := [], nonOptions := []), |p.entries|, k);
    case _ => SettersBind(p, op, k);
  }

  /** An `add` that fails leaves a bound variable in step if and only if it spares the variable. */
  lemma RejectedAddBindsExactlyWhen(p: Parser, c: Config, fallback: Option<Datum>, target: Option<Address>, k: nat)
    requires k < |p.entries| && BindingHolds(p, k) && !Add(p, c, fallback, target).0
    ensures BindingHolds(Add(p, c, fallback, target).1, k) <==> Spares(p, c, fallback, target, k)
  {
  }

  /** An `add` that fails leaves the parser and the variables as they were if and only if it writes
      nothing, or writes to its variable what the variable holds. */
  lemma RejectedAddChangesNothingExactlyWhen(p: Parser, c: Config, fallback: Option<Datum>, target: Option<Address>)
    requires !Add(p, c, fallback, target).0
    ensures Add(p, c, fallback, target).1 == p
            <==> HasBadName(c) || fallback == None || target == None
                 || (target.value in p.memory && p.memory[target.value] == fallback.value)
  {
    if !HasBadName(c) && fallback.Some? && target.Some? {
      var written := p.memory[target.value := fallback.value];
      assert target.value in p.memory && p.memory[target.value] == fallback.value ==> written == p.memory;
      assert written == p.memory ==> target.value in p.memory && p.memory[target.value] == fallback.value;
    }
  }

  /** Over every sequence of operations, including those that end with an exception: the variable of
      an option that no other option is bound to holds at every point the last value of the option,
      or its default if it has no value, if and only if every `add` that fails spares it. */
  lemma {:induction false} BindingInvariant(p: Parser, ops: seq<Operation>, k: nat)
    requires k < |p.entries| && BindingHolds(p, k) && StaysUnaliased(p, ops, k)
    ensures StaysBound(p, ops, k) <==> RejectionsSpare(p, ops, k)
  {
    if ops == [] {
    } else {
      BindingInvariant(p, Front(ops), k);
      if StaysBound(p, Front(ops), k) {
        var q, op := ApplyAll(p, Front(ops)), Last(ops);
        StaysAtEnd(p, Front(ops), k);
        if op.AddOption? && !Add(q, op.config, op.fallback, op.target).0 {
          RejectedAddBindsExactlyWhen(q, op.config, op.fallback, op.target, k);
        } else {
          OperationBinds(q, op, k);
        }
      }
    }
  }

  lemma StaysAtEnd(p: Parser, ops: seq<Operation>, k: nat)
    requires k < |p.entries| && StaysUnaliased(p, ops, k) && StaysBound(p, ops, k)
    ensures Unaliased(ApplyAll(p, ops), k) && BindingHolds(ApplyAll(p, ops), k)
  {
  }

  /** Reset forgets every value and both lists of arguments; each unaliased variable whose option has
      a default holds that default again. */
  lemma ResetForgets(p: Parser, k: nat)
    requires k < |p.entries| && Unaliased(p, k) && BindingHolds(p, k)
    ensures var q := Reset(p);
            && q.unknown == [] && q.nonOptions == [] && |q.entries| == |p.entries|
            && q.entries[k].values == []
            && (p.entries[k].target.Some? && p.entries[k].fallback.Some? ==>
                  var a := p.entries[k].target.value;
                  a in q.memory && q.memory[a] == p.entries[k].fallback.value)
  {
    var start := p.(unknown := [], nonOptions := []);
    ClearFirstBinds(start, |p.entries|, k);
    assert Reset(p).entries[k] == start.entries[k].(values := Reset(p).entries[k].values);
  }

  /** The case that is not spared: this `add` fails and yet changes the variable bound to the option
      that owns the name. */
  lemma RejectedOptionOverwritesVariable()
    ensures var c := Config("", "level", ValueOption, Optional, ReadTruth);
            var owner := Entry(c, Some(Truth(true)), [], Some(0));
            var p := Parser([owner], [], [], map[0 := Truth(true)]);
            var (added, q) := Add(p, c, Some(Truth(false)), Some(0));
            && BindingHolds(p, 0) && Unaliased(p, 0) && !added && q.entries == p.entries
            && !Spares(p, c, Some(Truth(false)), Some(0), 0) && !BindingHolds(q, 0)
  {
    var c := Config("", "level", ValueOption, Optional, ReadTruth);
    var owner := Entry(c, Some(Truth(true)), [], Some(0));
    var p := Parser([owner], [], [], map[0 := Truth(true)]);
    assert SameName(c, p.entries[0].config);
    RejectedAddBindsExactlyWhen(p, c, Some(Truth(false)), Some(0), 0);
  }
}
