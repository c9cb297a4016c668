/** The option model of src/popl.hpp on values: what an option and a parser hold, and what each
    operation does to them. The classes in option_parser.dfy are proved against it. */
module Popl {
  import opened Basics

  datatype Argument = NoArgument | RequiredArgument | OptionalArgument

  datatype Attribute = Inactive | Hidden | Required | Optional | Advanced | Expert

  datatype OptionName = Unspecified | ShortName | LongName

  /** A value of one of the template's types T. */
  datatype Datum = Text(text: string) | Truth(truth: bool) | Other(code: int)

  datatype Conversion = Converted(datum: Datum) | Unreadable | Overfull

  /** How Value<T>::parse reads its text: the specialisations for std::string and bool, and the
      stream extraction of any other T, which is a parameter. */
  datatype Reader = ReadText | ReadTruth | ReadStream(convert: string -> Conversion)

  datatype Kind = ValueOption | ImplicitOption | SwitchOption

  datatype Config = Config(shortName: string, longName: string, kind: Kind, attribute: Attribute, reader: Reader)

  datatype ErrorKind = MissingArgument | InvalidArgument | TooManyArguments | MissingOption

  datatype InvalidOption = InvalidOption(option: nat, error: ErrorKind, name: OptionName, value: string)

  /** A variable of the program, as the pointer given to an option denotes it. */
  type Address = nat

  type Memory = map<Address, Datum>

  datatype Entry = Entry(config: Config, fallback: Option<Datum>, values: seq<Datum>, target: Option<Address>)

  datatype Parser = Parser(entries: seq<Entry>, nonOptions: seq<string>, unknown: seq<string>, memory: Memory)

  datatype Outcome = Outcome(parser: Parser, error: Option<InvalidOption>)

  const NUL: char := '\0'

  function ArgumentType(c: Config): Argument {
    match c.kind
    case ValueOption => RequiredArgument
    case ImplicitOption => OptionalArgument
    case SwitchOption => NoArgument
  }

  function ShortNameOf(c: Config): char {
    if c.shortName == "" then NUL else c.shortName[0]
  }

  /** What c_str() hands on. */
  function CString(s: string): (c: string)
    ensures c <= s && NUL !in c && (c == s || s[|c|] == NUL)
  {
    s[..Find(s, NUL, 0)]
  }

  function Configs(entries: seq<Entry>): seq<Config> {
    seq(|entries|, i requires 0 <= i < |entries| => entries[i].config)
  }

  // ----- Values and references -----

  /** The value an option stands for: the last one given, or the default. */
  function Current(e: Entry): Option<Datum> {
    if e.values != [] then Some(Last(e.values)) else e.fallback
  }

  /** update_reference() */
  function WriteBack(e: Entry, memory: Memory): Memory {
    if e.target.Some? && Current(e).Some? then memory[e.target.value := Current(e).value] else memory
  }

  function ReadValue(reader: Reader, value: string): (r: (Option<Datum>, Option<ErrorKind>))
    ensures r.0.Some? <==> r.1.None?
  {
    match reader
    case ReadText => if value == "" then (None, Some(MissingArgument)) else (Some(Text(value)), None)
    case ReadTruth => (Some(Truth(value in ["1", "true", "True", "TRUE"])), None)
    case ReadStream(convert) =>
      if value == "" then (None, Some(MissingArgument))
      else match convert(value)
        case Converted(d) => (Some(d), None)
        case Unreadable => (None, Some(InvalidArgument))
        case Overfull => (None, Some(TooManyArguments))
  }

  /** What parse(what_name, value) of the option adds to its values, or the exception it throws. */
  function Interpret(e: Entry, value: string): (r: (Option<Datum>, Option<ErrorKind>))
    ensures r.0.Some? <==> r.1.None?
  {
    match e.config.kind
    case ValueOption => ReadValue(e.config.reader, value)
    case ImplicitOption =>
      if value != "" then ReadValue(e.config.reader, value)
      else if e.fallback.Some? then (e.fallback, None)
      else (None, Some(MissingArgument))
    case SwitchOption => (Some(Truth(true)), None)
  }

  function SetEntry(p: Parser, k: nat, e: Entry): Parser
    requires k < |p.entries|
  {
    p.(entries := p.entries[k := e], memory := WriteBack(e, p.memory))
  }

  function AddValue(p: Parser, k: nat, d: Datum): Parser
    requires k < |p.entries|
  {
    SetEntry(p, k, p.entries[k].(values := p.entries[k].values + [d]))
  }

  function Clear(p: Parser, k: nat): Parser
    requires k < |p.entries|
  {
    SetEntry(p, k, p.entries[k].(values := []))
  }

  function ClearFirst(p: Parser, n: nat): Parser
    requires n <= |p.entries|
    ensures |ClearFirst(p, n).entries| == |p.entries|
  {
    if n == 0 then p else Clear(ClearFirst(p, n - 1), n - 1)
  }

  function Reset(p: Parser): Parser {
    ClearFirst(p.(unknown := [], nonOptions := []), |p.entries|)
  }

  // ----- Looking options up -----

  function FindLong(configs: seq<Config>, name: string): (k: nat)
    ensures k <= |configs| && (k < |configs| ==> configs[k].longName == name)
    ensures forall j :: 0 <= j < k ==> configs[j].longName != name
  {
    if configs == [] || configs[0].longName == name then 0 else 1 + FindLong(configs[1..], name)
  }

  function FindShort(configs: seq<Config>, c: char): (k: nat)
    ensures k <= |configs| && (k < |configs| ==> ShortNameOf(configs[k]) == c)
    ensures forall j :: 0 <= j < k ==> ShortNameOf(configs[j]) != c
  {
    if configs == [] || ShortNameOf(configs[0]) == c then 0 else 1 + FindShort(configs[1..], c)
  }

  /** An inactive option is treated as if it did not exist. */
  function Active(configs: seq<Config>, k: nat): Option<nat> {
    if k < |configs| && configs[k].attribute != Inactive then Some(k) else None
  }

  ghost predicate SameName(a: Config, b: Config) {
    (ShortNameOf(a) != NUL && ShortNameOf(a) == ShortNameOf(b)) || (a.longName != "" && a.longName == b.longName)
  }

  ghost predicate DistinctNames(configs: seq<Config>) {
    forall i, j :: 0 <= i < j < |configs| ==> !SameName(configs[j], configs[i])
  }

  /** With distinct names an option is found under each of its names. */
  lemma FoundByName(configs: seq<Config>, k: nat)
    requires DistinctNames(configs) && k < |configs|
    ensures configs[k].longName != "" ==> FindLong(configs, configs[k].longName) == k
    ensures ShortNameOf(configs[k]) != NUL ==> FindShort(configs, ShortNameOf(configs[k])) == k
  {
    if configs[k].longName != "" {
      var j := FindLong(configs, configs[k].longName);
      assert j < k ==> SameName(configs[k], configs[j]);
    }
    if ShortNameOf(configs[k]) != NUL {
      var j := FindShort(configs, ShortNameOf(configs[k]));
      assert j < k ==> SameName(configs[k], configs[j]);
    }
  }

  // ----- Delivering an argument to an option -----

  /** Option `option` is given `argument`. */
  datatype Hit = Hit(option: nat, argument: string)

  function Deliver(p: Parser, hit: Hit, name: OptionName): (r: Outcome)
    requires hit.option < |p.entries|
    ensures |r.parser.entries| == |p.entries|
  {
    var value := CString(hit.argument);
    var (datum, error) := Interpret(p.entries[hit.option], value);
    if error.Some? then Outcome(p, Some(InvalidOption(hit.option, error.value, name, value)))
    else Outcome(AddValue(p, hit.option, datum.value), None)
  }

  ghost function Targets(entries: seq<Entry>): set<Address> {
    set e | e in entries && e.target.Some? :: e.target.value
  }

  /** The variables that no option is bound to. */
  ghost function Unbound(p: Parser): Memory {
    p.memory - Targets(p.entries)
  }

  /** Adding or removing values changes neither the options' configurations nor their defaults or
      targets, and no variable that is not bound to an option. */
  ghost predicate SameShape(p: Parser, q: Parser) {
    |p.entries| == |q.entries| && Unbound(p) == Unbound(q)
    && forall k :: 0 <= k < |p.entries| ==> q.entries[k] == p.entries[k].(values := q.entries[k].values)
  }

  lemma SameConfigs(p: Parser, q: Parser)
    requires SameShape(p, q)
    ensures Configs(p.entries) == Configs(q.entries)
  {
    forall k | 0 <= k < |p.entries|
      ensures p.entries[k].config == q.entries[k].config
    {
      assert q.entries[k] == p.entries[k].(values := q.entries[k].values);
    }
  }

  lemma SameShapeTwice(p: Parser, q: Parser, r: Parser)
    requires SameShape(p, q) && SameShape(q, r)
    ensures SameShape(p, r)
  {
    forall k | 0 <= k < |p.entries|
      ensures r.entries[k] == p.entries[k].(values := r.entries[k].values)
    {
      assert q.entries[k] == p.entries[k].(values := q.entries[k].values);
    }
  }

  lemma SameTargets(p: seq<Entry>, q: seq<Entry>)
    requires |p| == |q| && forall k :: 0 <= k < |p| ==> q[k].target == p[k].target
    ensures Targets(p) == Targets(q)
  {
    forall a | a in Targets(p)
      ensures a in Targets(q)
    {
      var k :| 0 <= k < |p| && p[k].target == Some(a);
      assert q[k] in q;
    }
    forall a | a in Targets(q)
      ensures a in Targets(p)
    {
      var k :| 0 <= k < |q| && q[k].target == Some(a);
      assert p[k] in p;
    }
  }

  lemma SetValuesKeepsShape(p: Parser, k: nat, values: seq<Datum>)
    requires k < |p.entries|
    ensures SameShape(p, SetEntry(p, k, p.entries[k].(values := values)))
  {
    var e := p.entries[k].(values := values);
    var q := SetEntry(p, k, e);
    SameTargets(p.entries, q.entries);
    assert p.entries[k] in p.entries;
    assert Unbound(p) == Unbound(q);
  }

  // ----- Binding -----

  /** The variable bound to option `k` holds what the option stands for. */
  ghost predicate BindingHolds(p: Parser, k: nat)
    requires k < |p.entries|
  {
    var e := p.entries[k];
    e.target.Some? && Current(e).Some? ==>
      e.target.value in p.memory && p.memory[e.target.value] == Current(e).value
  }

  /** No other option writes to the variable of option `k`. */
  ghost predicate Unaliased(p: Parser, k: nat)
    requires k < |p.entries|
  {
    p.entries[k].target.Some? ==>
      forall j :: 0 <= j < |p.entries| && j != k ==> p.entries[j].target != p.entries[k].target
  }

  lemma SetEntryBinds(p: Parser, j: nat, e: Entry, k: nat)
    requires j < |p.entries| && k < |p.entries|
    requires BindingHolds(p, k) || k == j
    requires Unaliased(SetEntry(p, j, e), k)
    ensures BindingHolds(SetEntry(p, j, e), k)
  {
    var q := SetEntry(p, j, e);
    if k != j && q.entries[k].target.Some? {
      assert q.entries[j].target != q.entries[k].target;
    }
  }

  lemma {:induction false} ClearFirstBinds(p: Parser, n: nat, k: nat)
    requires n <= |p.entries| && k < |p.entries| && Unaliased(p, k) && BindingHolds(p, k)
    ensures SameShape(p, ClearFirst(p, n)) && Unaliased(ClearFirst(p, n), k) && BindingHolds(ClearFirst(p, n), k)
    ensures forall j :: 0 <= j < n ==> ClearFirst(p, n).entries[j].values == []
    ensures ClearFirst(p, n).unknown == p.unknown && ClearFirst(p, n).nonOptions == p.nonOptions
  {
    if n == 0 {
    } else {
      ClearFirstBinds(p, n - 1, k);
      var q := ClearFirst(p, n - 1);
      SetEntryBinds(q, n - 1, q.entries[n - 1].(values := []), k);
      SetValuesKeepsShape(q, n - 1, []);
    }
  }

  lemma DeliverBinds(p: Parser, hit: Hit, name: OptionName, k: nat)
    requires hit.option < |p.entries| && k < |p.entries| && Unaliased(p, k) && BindingHolds(p, k)
    ensures var q := Deliver(p, hit, name).parser;
            SameShape(p, q) && Unaliased(q, k) && BindingHolds(q, k)
  {
    var q := Deliver(p, hit, name).parser;
    if Deliver(p, hit, name).error.None? {
      SetEntryBinds(p, hit.option, q.entries[hit.option], k);
      SetValuesKeepsShape(p, hit.option, q.entries[hit.option].values);
    }
  }

  /** value(idx): the default if no value was given, the value at the index, or std::out_of_range. */
  function ValueAt(e: Entry, idx: nat): Option<Datum> {
    if e.values == [] && e.fallback.Some? then e.fallback
    else if idx < |e.values| then Some(e.values[idx])
    else None
  }

  /** value() is the first value given and the bound variable the last one; they agree exactly when
      those are equal, in particular when at most one was given. */
  lemma FirstValueLastBinding(p: Parser, k: nat)
    requires k < |p.entries| && BindingHolds(p, k) && p.entries[k].target.Some? && Current(p.entries[k]).Some?
    ensures var e := p.entries[k];
            && e.target.value in p.memory
            && (ValueAt(e, 0) == Some(p.memory[e.target.value]) <==> e.values == [] || e.values[0] == Last(e.values))
  {
  }
}
