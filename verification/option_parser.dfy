/** The classes of src/popl.hpp: options and the parser update their fields and the program's
    variables in place. Each method is proved against the function of the same purpose on values. */
module OptionParser {
  import opened Basics
  import opened Popl
  import opened CommandLine
  import opened ScanLaws
  import opened Ini
  import opened Bindings

  /** The variables that options can be bound to. */
  class Variables {
    var cells: Memory

    constructor (cells: Memory)
      ensures this.cells == cells
    {
      this.cells := cells;
    }
  }

  /** Value<T>, Implicit<T> and Switch. */
  class ProgramOption {
    const config: Config
    const variables: Variables
    var fallback: Option<Datum>
    var values: seq<Datum>
    var target: Option<Address>

    ghost function View(): Entry
      reads this
    {
      Entry(config, fallback, values, target)
    }

    constructor (config: Config, fallback: Option<Datum>, target: Option<Address>, variables: Variables)
      modifies variables
      ensures View() == Entry(config, fallback, [], target) && this.variables == variables
      ensures variables.cells == WriteBack(View(), old(variables.cells))
    {
      this.config := config;
      this.variables := variables;
      this.fallback := fallback;
      this.values := [];
      this.target := target;
      new;
      UpdateReference();
    }

    method UpdateReference()
      modifies variables
      ensures variables.cells == WriteBack(View(), old(variables.cells))
    {
      if target.Some? {
        if values == [] && fallback.Some? {
          variables.cells := variables.cells[target.value := fallback.value];
        } else if values != [] {
          variables.cells := variables.cells[target.value := values[|values| - 1]];
        }
      }
    }

    method AddValue(d: Datum)
      modifies this, variables
      ensures View() == old(View()).(values := old(values) + [d])
      ensures variables.cells == WriteBack(View(), old(variables.cells))
    {
      values := values + [d];
      UpdateReference();
    }

    method Clear()
      modifies this, variables
      ensures View() == old(View()).(values := [])
      ensures variables.cells == WriteBack(View(), old(variables.cells))
    {
      values := [];
      UpdateReference();
    }

    method SetValue(d: Datum)
      modifies this, variables
      ensures View() == old(View()).(values := [d])
      ensures variables.cells == WriteBack(View(), WriteBack(old(View()).(values := []), old(variables.cells)))
    {
      Clear();
      AddValue(d);
    }

    method SetDefault(d: Datum)
      modifies this, variables
      ensures View() == old(View()).(fallback := Some(d))
      ensures variables.cells == WriteBack(View(), old(variables.cells))
    {
      fallback := Some(d);
      UpdateReference();
    }

    method AssignTo(target: Option<Address>)
      modifies this, variables
      ensures View() == old(View()).(target := target)
      ensures variables.cells == WriteBack(View(), old(variables.cells))
    {
      this.target := target;
      UpdateReference();
    }

    /** parse(what_name, value), with the exception as result. */
    method Parse(value: string) returns (error: Option<ErrorKind>)
      modifies this, variables
      ensures error == Interpret(old(View()), value).1
      ensures error.Some? ==> View() == old(View()) && variables.cells == old(variables.cells)
      ensures error.None? ==>
                && View() == old(View()).(values := old(values) + [Interpret(old(View()), value).0.value])
                && variables.cells == WriteBack(View(), old(variables.cells))
      ensures config.kind == SwitchOption ==> error == None && values == old(values) + [Truth(true)]
      ensures config.kind == ImplicitOption && value == "" && fallback.Some? ==>
                error == None && values == old(values) + [fallback.value]
      ensures config.kind == ValueOption && value == "" && config.reader != ReadTruth ==>
                error == Some(MissingArgument)
    {
      if config.kind == SwitchOption {
        AddValue(Truth(true));
        return None;
      }
      if config.kind == ImplicitOption && value == "" {
        if fallback.None? {
          return Some(MissingArgument);
        }
        AddValue(fallback.value);
        return None;
      }
      var read := ReadValue(config.reader, value);
      if read.1.Some? {
        return read.1;
      }
      AddValue(read.0.value);
      return None;
    }
  }

  ghost function ConfigsOf(options: seq<ProgramOption>): seq<Config> {
    seq(|options|, i requires 0 <= i < |options| => options[i].config)
  }

  ghost function Views(options: seq<ProgramOption>): seq<Entry>
    reads options
  {
    seq(|options|, i requires 0 <= i < |options| reads options => options[i].View())
  }

  class OptionParser {
    const variables: Variables
    var options: seq<ProgramOption>
    var nonOptions: seq<string>
    var unknown: seq<string>

    ghost predicate Valid()
      reads this
    {
      && (forall i, j :: 0 <= i < j < |options| ==> options[i] != options[j])
      && (forall i :: 0 <= i < |options| ==> options[i].variables == variables)
    }

    ghost function Contents(): Parser
      reads this, options, variables
    {
      Parser(Views(options), nonOptions, unknown, variables.cells)
    }

    constructor (variables: Variables)
      ensures Valid() && this.variables == variables
      ensures Contents() == Parser([], [], [], variables.cells)
    {
      this.variables := variables;
      options, nonOptions, unknown := [], [], [];
    }

    ghost function OptionConfigs(): seq<Config>
      reads `options
    {
      ConfigsOf(options)
    }

    /** find_option(const std::string&), as an index */
    method FindByLongName(name: string) returns (k: nat)
      ensures k == FindLong(OptionConfigs(), name)
    {
      k := 0;
      while k < |options| && options[k].config.longName != name
        invariant k <= |options|
        invariant FindLong(OptionConfigs(), name) == k + FindLong(OptionConfigs()[k..], name)
      {
        assert OptionConfigs()[k..][1..] == OptionConfigs()[k + 1..];
        k := k + 1;
      }
    }

    /** find_option(char), as an index */
    method FindByShortName(c: char) returns (k: nat)
      ensures k == FindShort(OptionConfigs(), c)
    {
      k := 0;
      while k < |options| && ShortNameOf(options[k].config) != c
        invariant k <= |options|
        invariant FindShort(OptionConfigs(), c) == k + FindShort(OptionConfigs()[k..], c)
      {
        assert OptionConfigs()[k..][1..] == OptionConfigs()[k + 1..];
        k := k + 1;
      }
    }

    method AddOption(config: Config, fallback: Option<Datum>, target: Option<Address>)
      returns (added: bool)
      requires Valid() && Constructible(config, fallback, target)
      modifies this, variables
      ensures Valid()
      ensures (added, Contents()) == Add(old(Contents()), config, fallback, target)
    {
      if HasBadName(config) {
        return false;
      }
      var option := new ProgramOption(config, fallback, target, variables);
      for i := 0 to |options|
        invariant options == old(options) && nonOptions == old(nonOptions) && unknown == old(unknown)
        invariant variables.cells == WriteBack(Entry(config, fallback, [], target), old(variables.cells))
        invariant forall j :: 0 <= j < i ==> !SameName(config, options[j].config)
      {
        var o := options[i];
        if (ShortNameOf(config) != NUL && ShortNameOf(config) == ShortNameOf(o.config))
           || (config.longName != "" && config.longName == o.config.longName) {
          assert SameName(config, old(Contents()).entries[i].config);
          return false;
        }
      }
      assert !IsDuplicate(config, old(Contents()).entries);
      options := options + [option];
      assert Contents().entries == old(Contents()).entries + [option.View()];
      return true;
    }

    /** Hands an argument to option `k`. */
    method DeliverTo(k: nat, argument: string, name: OptionName) returns (error: Option<InvalidOption>)
      requires Valid() && k < |options|
      modifies options[k], variables
      ensures Valid() && Outcome(Contents(), error) == Deliver(old(Contents()), Hit(k, argument), name)
    {
      var value := CString(argument);
      var kind := options[k].Parse(value);
      if kind.Some? {
        assert Contents() == old(Contents());
        return Some(InvalidOption(k, kind.value, name, value));
      }
      assert Contents().entries == old(Contents()).entries[k := options[k].View()];
      return None;
    }

    method Reset()
      requires Valid()
      modifies this, options, variables
      ensures Valid() && options == old(options)
      ensures Contents() == Popl.Reset(old(Contents()))
    {
      unknown := [];
      nonOptions := [];
      ghost var start := Contents();
      for i := 0 to |options|
        invariant Valid() && options == old(options)
        invariant Contents() == ClearFirst(start, i)
      {
        ghost var before := Contents();
        options[i].Clear();
        assert Contents().entries == before.entries[i := options[i].View()];
      }
    }

    /** Which option a long argument names and what it gives it; `last` is the last position used. */
    method RecogniseLong(argv: seq<string>, n: nat) returns (hit: Option<Hit>, last: nat)
      requires n < |argv| && IsPrefix(DASHES, argv[n])
      ensures n <= last < |argv|
      ensures LongEvent(OptionConfigs(), argv[n..]) == Long(argv[n], hit, argv[n + 1..last + 1])
    {
      assert argv[n..][0] == argv[n] && (n + 1 < |argv| ==> argv[n..][1] == argv[n + 1]);
      last := n;
      var opt := argv[n][2..];
      var optarg := "";
      var eq := Find(opt, '=', 0);
      if eq < |opt| {
        optarg := opt[eq + 1..];
      }
      var k := FindByLongName(opt[..eq]);
      if k == |options| || options[k].config.attribute == Inactive {
        return None, last;
      }
      if ArgumentType(options[k].config) == NoArgument && optarg != "" {
        return None, last;
      }
      if ArgumentType(options[k].config) == RequiredArgument && optarg == "" && last < |argv| - 1 {
        last := last + 1;
        optarg := argv[last];
      }
      hit := Some(Hit(k, optarg));
    }

    method LongOption(argv: seq<string>, n: nat) returns (last: nat, error: Option<InvalidOption>)
      requires Valid() && n < |argv| && IsPrefix(DASHES, argv[n])
      modifies this, options, variables
      ensures Valid() && options == old(options) && n <= last < |argv|
      ensures var e := LongEvent(OptionConfigs(), argv[n..]);
              Outcome(Contents(), error) == Execute(old(Contents()), e) && last == n + |Tokens(e)| - 1
    {
      var hit;
      hit, last := RecogniseLong(argv, n);
      assert |argv[n + 1..last + 1]| == last - n;
      if hit.Some? {
        error := DeliverTo(hit.value.option, hit.value.argument, LongName);
      } else {
        unknown := unknown + [argv[n]];
        assert Contents().entries == old(Contents()).entries;
        error := None;
      }
    }

    /** What is still to come of a cluster when its letters from `m` on are left. */
    ghost function LettersFrom(token: string, opt: string, m: nat, rest: seq<string>): Event
      reads `options
    {
      Letters(OptionConfigs(), token, if m <= |opt| then opt[m..] else "", rest)
    }

    /** What letter `m` of the cluster `opt` at position `n` gives to which option; `next` is the
        letter to go on with and `last` the last position used. */
    method RecogniseShort(argv: seq<string>, n: nat, opt: string, m: nat)
      returns (hit: Option<Hit>, next: nat, last: nat)
      requires n < |argv| && m < |opt|
      ensures n <= last < |argv| && m < next && (last > n ==> next >= |opt|)
      ensures hit.Some? ==> hit.value.option < |options|
      ensures var now := LettersFrom(argv[n], opt, m, argv[n + 1..]);
              var later := LettersFrom(argv[n], opt, next, argv[n + 1..]);
              && now.hits == (if hit.Some? then [hit.value] else []) + later.hits
              && now.unknown == (hit.None? || later.unknown)
              && |now.taken| == last - n + |later.taken|
    {
      last, next := n, m;
      var optarg := "";
      assert opt[m..] == [opt[m]] + opt[m + 1..];
      var k := FindByShortName(opt[m]);
      if k < |options| && options[k].config.attribute != Inactive {
        if ArgumentType(options[k].config) == RequiredArgument {
          optarg := opt[m + 1..];
          if optarg == "" && n < |argv| - 1 {
            last := n + 1;
            optarg := argv[last];
          }
          next := |opt|;
        } else if ArgumentType(options[k].config) == OptionalArgument {
          optarg := opt[m + 1..];
          next := |opt|;
        }
        hit := Some(Hit(k, optarg));
      } else {
        hit := None;
      }
      next := next + 1;
    }

    /** The loop over the letters of the cluster at position `n`. */
    method ClusterLetters(argv: seq<string>, n: nat) returns (isUnknown: bool, last: nat, error: Option<InvalidOption>)
      requires Valid() && n < |argv| && argv[n] != ""
      modifies this, options, variables
      ensures Valid() && options == old(options) && unknown == old(unknown) && n <= last < |argv|
      ensures var e := Letters(OptionConfigs(), argv[n], argv[n][1..], argv[n + 1..]);
              && Outcome(Contents(), error) == DeliverAll(old(Contents()), e.hits, ShortName)
              && (error.None? ==> isUnknown == e.unknown && last == n + |e.taken|)
    {
      isUnknown, last, error := false, n, None;
      var opt := argv[n][1..];
      ghost var whole := LettersFrom(argv[n], opt, 0, argv[n + 1..]);
      assert opt[0..] == opt;
      var m := 0;
      while m < |opt|
        invariant Valid() && options == old(options) && unknown == old(unknown) && error.None?
        invariant n <= last < |argv| && (m < |opt| ==> last == n)
        invariant var left := LettersFrom(argv[n], opt, m, argv[n + 1..]);
                  && DeliverAll(Contents(), left.hits, ShortName) == DeliverAll(old(Contents()), whole.hits, ShortName)
                  && whole.unknown == (isUnknown || left.unknown)
                  && |whole.taken| == last - n + |left.taken|
        decreases |opt| - m
      {
        ghost var left := LettersFrom(argv[n], opt, m, argv[n + 1..]);
        var hit, next;
        hit, next, last := RecogniseShort(argv, n, opt, m);
        ghost var later := LettersFrom(argv[n], opt, next, argv[n + 1..]);
        ghost var before := Contents();
        if hit.Some? {
          assert left.hits[0] == hit.value && left.hits[1..] == later.hits;
          error := DeliverTo(hit.value.option, hit.value.argument, ShortName);
          assert Outcome(Contents(), error) == Deliver(before, left.hits[0], ShortName);
          if error.Some? {
            return;
          }
          assert DeliverAll(before, left.hits, ShortName) == DeliverAll(Contents(), later.hits, ShortName);
        } else {
          assert left.hits == later.hits;
          isUnknown := true;
        }
        m := next;
      }
    }

    /** A cluster of one-letter options at position `n`. */
    method ShortOptions(argv: seq<string>, n: nat) returns (last: nat, error: Option<InvalidOption>)
      requires Valid() && n < |argv| && argv[n] != ""
      modifies this, options, variables
      ensures Valid() && options == old(options) && n <= last < |argv|
      ensures var e := Letters(OptionConfigs(), argv[n], argv[n][1..], argv[n + 1..]);
              Outcome(Contents(), error) == Execute(old(Contents()), e)
              && (error.None? ==> last == n + |Tokens(e)| - 1)
    {
      var isUnknown;
      isUnknown, last, error := ClusterLetters(argv, n);
      if error.None? && isUnknown {
        ghost var entries := Contents().entries;
        unknown := unknown + [argv[n]];
        assert Contents().entries == entries;
      }
    }

    /** parse(argc, argv) */
    method ParseArgs(argv: seq<string>) returns (error: Option<InvalidOption>)
      requires Valid()
      modifies this, options, variables
      ensures Valid() && options == old(options)
      ensures Outcome(Contents(), error) == CommandLine.ParseArgs(old(Contents()), ArgumentsFrom(argv, 1))
    {
      ghost var scanned := Scan(Contents(), ArgumentsFrom(argv, 1));
      var n := 1;
      error := None;
      while n < |argv|
        invariant Valid() && options == old(options) && error.None?
        invariant Scan(Contents(), ArgumentsFrom(argv, n)) == scanned
      {
        n, error := ScanArgument(argv, n);
        if error.Some? {
          return;
        }
      }
      error := CheckRequiredOptions();
    }

    /** One round of the scan; returns the position to go on with. */
    method ScanArgument(argv: seq<string>, n: nat) returns (next: nat, error: Option<InvalidOption>)
      requires Valid() && n < |argv|
      modifies this, options, variables
      ensures Valid() && options == old(options) && n < next <= |argv|
      ensures Scan(old(Contents()), ArgumentsFrom(argv, n))
              == if error.Some? then Outcome(Contents(), error) else Scan(Contents(), ArgumentsFrom(argv, next))
    {
      ghost var before := Contents();
      ghost var e := First(OptionConfigs(), argv[n..]);
      SameOptionConfigs();
      ScanStep(before, argv[n..]);
      next, error := Argument(argv, n);
      assert Outcome(Contents(), error) == Execute(before, e);
      next := next + 1;
      assert error.None? ==> argv[n..][|Tokens(e)|..] == ArgumentsFrom(argv, next);
    }

    lemma SameOptionConfigs()
      ensures Configs(Contents().entries) == OptionConfigs()
    {
    }

    /** The body of the scan for the argument at position `n`; returns the last position it has used. */
    method Argument(argv: seq<string>, n: nat) returns (last: nat, error: Option<InvalidOption>)
      requires Valid() && n < |argv|
      modifies this, options, variables
      ensures Valid() && options == old(options) && n <= last < |argv|
      ensures var e := First(OptionConfigs(), argv[n..]);
              && Outcome(Contents(), error) == Execute(old(Contents()), e)
              && (error.None? ==> last == n + |Tokens(e)| - 1 && argv[n..][|Tokens(e)|..] == argv[last + 1..])
    {
      var arg := argv[n];
      assert argv[n..][0] == arg && argv[n..][1..] == argv[n + 1..];
      last, error := n, None;
      if arg == DASHES {
        for m := n + 1 to |argv|
          invariant Valid() && options == old(options)
          invariant Contents() == old(Contents()).(nonOptions := old(nonOptions) + argv[n + 1..m])
        {
          AppendArgument(argv[m]);
          assert argv[n + 1..m + 1] == argv[n + 1..m] + [argv[m]];
        }
        assert argv[n + 1..|argv|] == argv[n + 1..];
      } else if IsPrefix(DASHES, arg) {
        last, error := LongOption(argv, n);
      } else if IsPrefix("-", arg) {
        last, error := ShortOptions(argv, n);
      } else {
        AppendArgument(arg);
      }
    }

    method AppendArgument(arg: string)
      requires Valid()
      modifies this
      ensures Valid() && options == old(options)
      ensures Contents() == old(Contents()).(nonOptions := old(nonOptions) + [arg])
    {
      nonOptions := nonOptions + [arg];
      assert Contents().entries == old(Contents()).entries;
    }

    /** The loop behind the scan that throws for a required option that is not set. */
    method CheckRequiredOptions() returns (error: Option<InvalidOption>)
      requires Valid()
      ensures Outcome(Contents(), error) == CheckRequired(Outcome(Contents(), None))
    {
      var k := 0;
      while k < |options|
        invariant k <= |options|
        invariant FirstMissing(Contents().entries) == k + FirstMissing(Contents().entries[k..])
      {
        assert Contents().entries[k..][1..] == Contents().entries[k + 1..];
        if options[k].config.attribute == Required && options[k].values == [] {
          return Some(InvalidOption(k, MissingOption, Unspecified, ""));
        }
        k := k + 1;
      }
      return None;
    }

    /** parse(ini_filename) for a file with the given contents. */
    method ParseIniFile(content: string) returns (error: Option<InvalidOption>)
      requires Valid()
      modifies this, options, variables
      ensures Valid() && options == old(options)
      ensures Outcome(Contents(), error) == ParseIni(old(Contents()), content)
    {
      error := None;
      var section := "";
      var pos := 0;
      while pos < |content|
        invariant Valid() && options == old(options) && pos <= |content| && error.None?
        invariant GiveAll(Contents(), Deliveries(section, LinesFrom(content, pos)))
                  == ParseIni(old(Contents()), content)
      {
        var next := NextLine(content, pos);
        section, error := IniLine(section, content[pos..LineEnd(content, pos)], LinesFrom(content, next));
        if error.Some? {
          return;
        }
        pos := next;
      }
    }

    /** The body of the ini loop for one line; `rest` are the lines after it. */
    method IniLine(section: string, line: string, ghost rest: seq<string>)
      returns (next: string, error: Option<InvalidOption>)
      requires Valid()
      modifies this, options, variables
      ensures Valid() && options == old(options)
      ensures GiveAll(old(Contents()), Deliveries(section, [line] + rest))
              == if error.Some? then Outcome(Contents(), error) else GiveAll(Contents(), Deliveries(next, rest))
    {
      IniStep(Contents(), section, line, rest);
      next, error := section, None;
      match Classify(line) {
        case Nothing =>
        case Section(name) => next := name;
        case KeyValue(key, value) => error := GivePair(FullKey(section, key), value);
      }
    }

    /** The part of the ini loop that looks the key up. */
    method GivePair(key: string, value: string) returns (error: Option<InvalidOption>)
      requires Valid()
      modifies this, options, variables
      ensures Valid() && options == old(options)
      ensures Outcome(Contents(), error) == Give(old(Contents()), (key, value))
    {
      assert Configs(Contents().entries) == OptionConfigs();
      var k := FindByLongName(key);
      if k < |options| && options[k].config.attribute != Inactive {
        error := DeliverTo(k, value, LongName);
      } else {
        unknown := unknown + [key];
        assert Contents().entries == old(Contents()).entries;
        error := None;
      }
    }
  }

  /** The arguments from position `n` on; there are none if argc is 0. */
  function ArgumentsFrom(argv: seq<string>, n: nat): seq<string> {
    if n < |argv| then argv[n..] else []
  }

  lemma ScanStep(p: Parser, args: seq<string>)
    requires args != []
    ensures var e := First(Configs(p.entries), args);
            var r := Execute(p, e);
            Scan(p, args) == if r.error.Some? then r else Scan(r.parser, args[|Tokens(e)|..])
  {
    var configs := Configs(p.entries);
    var e := First(configs, args);
    var rest := Events(configs, args[|Tokens(e)|..]);
    EventsUnfold(configs, args);
    assert ([e] + rest)[1..] == rest;
    ExecuteGains(p, e);
    if Execute(p, e).error.None? {
      SameConfigs(p, Execute(p, e).parser);
    }
  }

  lemma IniStep(p: Parser, section: string, line: string, rest: seq<string>)
    ensures var meaning := Classify(line);
            var all := GiveAll(p, Deliveries(section, [line] + rest));
            if meaning.KeyValue? then
              var r := Give(p, (FullKey(section, meaning.key), meaning.value));
              all == if r.error.Some? then r else GiveAll(r.parser, Deliveries(section, rest))
            else all == GiveAll(p, Deliveries(if meaning.Section? then meaning.name else section, rest))
  {
    assert ([line] + rest)[1..] == rest;
    var meaning := Classify(line);
    if meaning.KeyValue? {
      var pair := (FullKey(section, meaning.key), meaning.value);
      assert ([pair] + Deliveries(section, rest))[1..] == Deliveries(section, rest);
    }
  }
}
