/** Scanning a command line (OptionParser::parse(argc, argv)). The specification works in two
    phases that the program does not have: the arguments are first cut into events, which depends
    only on the options' configurations, and the events are then executed one by one. */
module CommandLine {
  import opened Basics
  import opened Popl

  /** One step of the scan with the tokens it consumes: `taken` is the next argument if an option
      used it up as its own, and `hit` and `hits` are the options recognised. */
  datatype Event =
    | Positional(token: string)
    | Terminator(tail: seq<string>)
    | Long(token: string, hit: Option<Hit>, taken: seq<string>)
    | Cluster(token: string, hits: seq<Hit>, unknown: bool, taken: seq<string>)

  ghost predicate HitsInRange(e: Event, n: nat) {
    && (e.Long? && e.hit.Some? ==> e.hit.value.option < n)
    && (e.Cluster? ==> forall h :: h in e.hits ==> h.option < n)
  }

  const DASHES := "--"

  function IsPrefix(prefix: string, s: string): bool {
    |prefix| <= |s| && s[..|prefix|] == prefix
  }

  function Tokens(e: Event): (ts: seq<string>)
    ensures ts != []
  {
    match e
    case Positional(token) => [token]
    case Terminator(_) => [DASHES]
    case Long(token, _, taken) => [token] + taken
    case Cluster(token, _, _, taken) => [token] + taken
  }

  /** --name or --name=value; a required value is taken from the next argument if it is empty. */
  function LongEvent(configs: seq<Config>, args: seq<string>): (e: Event)
    requires args != [] && IsPrefix(DASHES, args[0])
    ensures HitsInRange(e, |configs|)
    ensures e.Long? && e.token == args[0] && Tokens(e) <= args
  {
    var opt := args[0][2..];
    var eq := Find(opt, '=', 0);
    var optarg := if eq < |opt| then opt[eq + 1..] else "";
    match Active(configs, FindLong(configs, opt[..eq]))
    case None => Long(args[0], None, [])
    case Some(k) =>
      match ArgumentType(configs[k])
      case NoArgument => Long(args[0], if optarg == "" then Some(Hit(k, "")) else None, [])
      case RequiredArgument =>
        if optarg == "" && |args| > 1 then Long(args[0], Some(Hit(k, args[1])), [args[1]])
        else Long(args[0], Some(Hit(k, optarg)), [])
      case OptionalArgument => Long(args[0], Some(Hit(k, optarg)), [])
  }

  /** The letters of a cluster; the first option with a value ends it. */
  function Letters(configs: seq<Config>, token: string, opt: string, rest: seq<string>): (e: Event)
    ensures HitsInRange(e, |configs|)
    ensures e.Cluster? && e.token == token && |e.taken| <= 1 && (e.taken != [] ==> rest != [] && e.taken[0] == rest[0])
  {
    if opt == "" then Cluster(token, [], false, [])
    else
      match Active(configs, FindShort(configs, opt[0]))
      case None =>
        var more := Letters(configs, token, opt[1..], rest);
        Cluster(token, more.hits, true, more.taken)
      case Some(k) =>
        match ArgumentType(configs[k])
        case NoArgument =>
          var more := Letters(configs, token, opt[1..], rest);
          Cluster(token, [Hit(k, "")] + more.hits, more.unknown, more.taken)
        case RequiredArgument =>
          if opt[1..] == "" && rest != [] then Cluster(token, [Hit(k, rest[0])], false, [rest[0]])
          else Cluster(token, [Hit(k, opt[1..])], false, [])
        case OptionalArgument => Cluster(token, [Hit(k, opt[1..])], false, [])
  }

  function First(configs: seq<Config>, args: seq<string>): (e: Event)
    requires args != []
    ensures Tokens(e) <= args && HitsInRange(e, |configs|)
  {
    var arg := args[0];
    if arg == DASHES then Terminator(args[1..])
    else if IsPrefix(DASHES, arg) then LongEvent(configs, args)
    else if IsPrefix("-", arg) then Letters(configs, arg, arg[1..], args[1..])
    else Positional(arg)
  }

  function Events(configs: seq<Config>, args: seq<string>): (events: seq<Event>)
    ensures forall e :: e in events ==> HitsInRange(e, |configs|)
  {
    if args == [] then []
    else var e := First(configs, args); [e] + Events(configs, args[|Tokens(e)|..])
  }

  // ----- Executing events -----

  function DeliverAll(p: Parser, hits: seq<Hit>, name: OptionName): (r: Outcome)
    requires forall h :: h in hits ==> h.option < |p.entries|
    ensures |r.parser.entries| == |p.entries|
    decreases |hits|
  {
    if hits == [] then Outcome(p, None)
    else
      var r := Deliver(p, hits[0], name);
      if r.error.Some? then r else DeliverAll(r.parser, hits[1..], name)
  }

  function Execute(p: Parser, e: Event): (r: Outcome)
    requires HitsInRange(e, |p.entries|)
    ensures |r.parser.entries| == |p.entries|
  {
    match e
    case Positional(token) => Outcome(p.(nonOptions := p.nonOptions + [token]), None)
    case Terminator(tail) => Outcome(p.(nonOptions := p.nonOptions + tail), None)
    case Long(token, hit, _) =>
      if hit.Some? then Deliver(p, hit.value, LongName)
      else Outcome(p.(unknown := p.unknown + [token]), None)
    case Cluster(token, hits, unknown, _) =>
      var r := DeliverAll(p, hits, ShortName);
      if r.error.None? && unknown then r.(parser := r.parser.(unknown := r.parser.unknown + [token])) else r
  }

  /** An exception ends the scan with the state reached so far. */
  function ExecuteAll(p: Parser, events: seq<Event>): (r: Outcome)
    requires forall e :: e in events ==> HitsInRange(e, |p.entries|)
    ensures |r.parser.entries| == |p.entries|
    decreases |events|
  {
    if events == [] then Outcome(p, None)
    else
      var r := Execute(p, events[0]);
      if r.error.Some? then r else ExecuteAll(r.parser, events[1..])
  }

  function Scan(p: Parser, args: seq<string>): Outcome {
    ExecuteAll(p, Events(Configs(p.entries), args))
  }

  /** The first required option that is not set, or |entries|. */
  function FirstMissing(entries: seq<Entry>): (k: nat)
    ensures k <= |entries|
    ensures k < |entries| ==> entries[k].config.attribute == Required && entries[k].values == []
    ensures forall j :: 0 <= j < k ==> !(entries[j].config.attribute == Required && entries[j].values == [])
  {
    if entries == [] || (entries[0].config.attribute == Required && entries[0].values == []) then 0
    else 1 + FirstMissing(entries[1..])
  }

  function CheckRequired(r: Outcome): Outcome {
    var k := FirstMissing(r.parser.entries);
    if r.error.None? && k < |r.parser.entries|
    then r.(error := Some(InvalidOption(k, MissingOption, Unspecified, ""))) else r
  }

  /** parse(argc, argv) for the arguments after the program name. */
  function ParseArgs(p: Parser, args: seq<string>): Outcome {
    CheckRequired(Scan(p, args))
  }

  // ----- Accounting -----

  function AllTokens(events: seq<Event>): seq<string> {
    if events == [] then [] else Tokens(events[0]) + AllTokens(events[1..])
  }

  /** Every argument is claimed exactly once and in order: as a positional, a terminator, the head of
      an option or a cluster, or the value of the option just before it. */
  lemma {:induction false} EveryArgumentClaimedOnce(configs: seq<Config>, args: seq<string>)
    ensures AllTokens(Events(configs, args)) == args
  {
    if args == [] {
    } else {
      var e := First(configs, args);
      var rest := args[|Tokens(e)|..];
      EveryArgumentClaimedOnce(configs, rest);
      assert Events(configs, args)[1..] == Events(configs, rest);
      assert args == Tokens(e) + rest;
    }
  }

  function NonOptionsOf(e: Event): seq<string> {
    match e
    case Positional(token) => [token]
    case Terminator(tail) => tail
    case _ => []
  }

  function UnknownOf(e: Event): seq<string> {
    match e
    case Long(token, None, _) => [token]
    case Cluster(token, _, true, _) => [token]
    case _ => []
  }

  function NonOptionTokens(events: seq<Event>): seq<string> {
    if events == [] then [] else NonOptionsOf(events[0]) + NonOptionTokens(events[1..])
  }

  function UnknownTokens(events: seq<Event>): seq<string> {
    if events == [] then [] else UnknownOf(events[0]) + UnknownTokens(events[1..])
  }

  function HitsOf(e: Event): seq<Hit> {
    match e
    case Long(_, Some(hit), _) => [hit]
    case Cluster(_, hits, _, _) => hits
    case _ => []
  }

  function AllHits(events: seq<Event>): seq<Hit> {
    if events == [] then [] else HitsOf(events[0]) + AllHits(events[1..])
  }

  /** What a hit adds to the values of option `k`. */
  function DatumFor(entries: seq<Entry>, k: nat, hit: Hit): seq<Datum>
    requires k < |entries|
  {
    var datum := Interpret(entries[k], CString(hit.argument)).0;
    if hit.option == k && datum.Some? then [datum.value] else []
  }

  function DataFor(entries: seq<Entry>, k: nat, hits: seq<Hit>): seq<Datum>
    requires k < |entries|
  {
    if hits == [] then [] else DatumFor(entries, k, hits[0]) + DataFor(entries, k, hits[1..])
  }

  ghost predicate Readable(entries: seq<Entry>, hits: seq<Hit>) {
    forall h :: h in hits ==> h.option < |entries| && Interpret(entries[h.option], CString(h.argument)).0.Some?
  }

  /** `q` is `p` with the values that `hits` add. */
  ghost predicate Gained(p: Parser, q: Parser, hits: seq<Hit>) {
    SameShape(p, q)
    && forall k :: 0 <= k < |p.entries| ==> q.entries[k].values == p.entries[k].values + DataFor(p.entries, k, hits)
  }

  lemma {:induction false} DataForSameShape(p: Parser, q: Parser, k: nat, hits: seq<Hit>)
    requires SameShape(p, q) && k < |p.entries|
    ensures DataFor(p.entries, k, hits) == DataFor(q.entries, k, hits)
  {
    if hits == [] {
    } else {
      DataForSameShape(p, q, k, hits[1..]);
      assert q.entries[k] == p.entries[k].(values := q.entries[k].values);
    }
  }

  lemma {:induction false} DataForConcat(entries: seq<Entry>, k: nat, a: seq<Hit>, b: seq<Hit>)
    requires k < |entries|
    ensures DataFor(entries, k, a + b) == DataFor(entries, k, a) + DataFor(entries, k, b)
  {
    if a == [] {
      assert a + b == b;
      assert DataFor(entries, k, a) == [];
    } else {
      var c := a + b;
      assert c[0] == a[0] && c[1..] == a[1..] + b;
      DataForConcat(entries, k, a[1..], b);
      var first, more, rest := DatumFor(entries, k, a[0]), DataFor(entries, k, a[1..]), DataFor(entries, k, b);
      assert DataFor(entries, k, c) == first + (more + rest) == (first + more) + rest;
    }
  }

  lemma GainedNothing(p: Parser)
    ensures Gained(p, p, [])
  {
    forall k | 0 <= k < |p.entries|
      ensures p.entries[k].values == p.entries[k].values + DataFor(p.entries, k, [])
    {
      assert p.entries[k].values + [] == p.entries[k].values;
    }
  }

  lemma GainedTwice(p: Parser, q: Parser, r: Parser, a: seq<Hit>, b: seq<Hit>)
    requires Gained(p, q, a) && Gained(q, r, b)
    ensures Gained(p, r, a + b)
  {
    SameShapeTwice(p, q, r);
    forall k | 0 <= k < |p.entries|
      ensures r.entries[k].values == p.entries[k].values + DataFor(p.entries, k, a + b)
    {
      GainedTwiceBy(p, q, r, a, b, k);
    }
  }

  lemma GainedTwiceBy(p: Parser, q: Parser, r: Parser, a: seq<Hit>, b: seq<Hit>, k: nat)
    requires SameShape(p, q) && k < |p.entries| && |r.entries| == |p.entries|
    requires q.entries[k].values == p.entries[k].values + DataFor(p.entries, k, a)
    requires r.entries[k].values == q.entries[k].values + DataFor(q.entries, k, b)
    ensures r.entries[k].values == p.entries[k].values + DataFor(p.entries, k, a + b)
  {
    DataForConcat(p.entries, k, a, b);
    DataForSameShape(p, q, k, b);
    ConcatAssociates(p.entries[k].values, DataFor(p.entries, k, a), DataFor(p.entries, k, b));
  }

  lemma {:induction false} DeliverAllGains(p: Parser, hits: seq<Hit>, name: OptionName)
    requires forall h :: h in hits ==> h.option < |p.entries|
    ensures var r := DeliverAll(p, hits, name);
            && (r.error.None? <==> Readable(p.entries, hits))
            && (r.error.None? ==> Gained(p, r.parser, hits))
            && r.parser.unknown == p.unknown && r.parser.nonOptions == p.nonOptions
    decreases |hits|
  {
    if hits == [] {
      GainedNothing(p);
    } else {
      var h, rest := hits[0], hits[1..];
      assert hits == [h] + rest;
      DeliverGains(p, h, name);
      var r1 := Deliver(p, h, name);
      if r1.error.None? {
        DeliverAllGains(r1.parser, rest, name);
        GainsAddUp(p, r1.parser, DeliverAll(r1.parser, rest, name).parser, [h], rest);
      } else {
        assert h in hits;
      }
    }
  }

  lemma DeliverGains(p: Parser, h: Hit, name: OptionName)
    requires h.option < |p.entries|
    ensures var r := Deliver(p, h, name);
            && (r.error.None? <==> Readable(p.entries, [h]))
            && (r.error.None? ==> Gained(p, r.parser, [h]))
            && r.parser.unknown == p.unknown && r.parser.nonOptions == p.nonOptions
  {
    var r := Deliver(p, h, name);
    forall k | 0 <= k < |p.entries|
      ensures DataFor(p.entries, k, [h]) == DatumFor(p.entries, k, h)
    {
      assert DataFor(p.entries, k, [h]) == DatumFor(p.entries, k, h) + [];
    }
    assert h in [h];
    if r.error.None? {
      SetValuesKeepsShape(p, h.option, r.parser.entries[h.option].values);
    }
  }

  lemma GainedIsReadable(p: Parser, q: Parser, hits: seq<Hit>)
    requires SameShape(p, q)
    ensures Readable(p.entries, hits) <==> Readable(q.entries, hits)
  {
    forall h | h in hits && h.option < |p.entries|
      ensures Interpret(p.entries[h.option], CString(h.argument)) == Interpret(q.entries[h.option], CString(h.argument))
    {
      assert q.entries[h.option] == p.entries[h.option].(values := q.entries[h.option].values);
    }
  }

  lemma GainsAddUp(p: Parser, q: Parser, r: Parser, a: seq<Hit>, b: seq<Hit>)
    requires Gained(p, q, a) && Readable(p.entries, a)
    ensures Readable(p.entries, a + b) <==> Readable(q.entries, b)
    ensures Gained(q, r, b) ==> Gained(p, r, a + b)
  {
    GainedIsReadable(p, q, b);
    assert Readable(p.entries, a + b) <==> Readable(p.entries, b) by {
      assert forall h :: h in a + b <==> h in a || h in b;
    }
    if Gained(q, r, b) {
      GainedTwice(p, q, r, a, b);
    }
  }

  ghost predicate InLedger(p: Parser, r: Outcome, events: seq<Event>) {
    && (r.error.None? <==> Readable(p.entries, AllHits(events)))
    && (r.error.None? ==>
          && Gained(p, r.parser, AllHits(events))
          && r.parser.nonOptions == p.nonOptions + NonOptionTokens(events)
          && r.parser.unknown == p.unknown + UnknownTokens(events))
  }

  lemma LedgerAddsUp(p: Parser, q: Parser, r: Outcome, e: Event, rest: seq<Event>)
    requires Gained(p, q, HitsOf(e)) && Readable(p.entries, HitsOf(e))
    requires q.nonOptions == p.nonOptions + NonOptionsOf(e) && q.unknown == p.unknown + UnknownOf(e)
    requires InLedger(q, r, rest)
    ensures InLedger(p, r, [e] + rest)
  {
    assert ([e] + rest)[1..] == rest;
    GainsAddUp(p, q, r.parser, HitsOf(e), AllHits(rest));
    ConcatAssociates(p.nonOptions, NonOptionsOf(e), NonOptionTokens(rest));
    ConcatAssociates(p.unknown, UnknownOf(e), UnknownTokens(rest));
  }

  lemma LedgerStops(p: Parser, r: Outcome, e: Event, rest: seq<Event>)
    requires r.error.Some? && !Readable(p.entries, HitsOf(e))
    ensures InLedger(p, r, [e] + rest)
  {
    assert ([e] + rest)[1..] == rest;
    assert forall h :: h in HitsOf(e) ==> h in HitsOf(e) + AllHits(rest);
  }

  /** The ledger of a scan: it succeeds exactly if every argument given to an option can be read, and
      then the parser has gained exactly the positionals and tails, the unknown tokens, and, option
      by option and in order, the values of the claims. */
  lemma {:induction false} Ledger(p: Parser, events: seq<Event>)
    requires forall e :: e in events ==> HitsInRange(e, |p.entries|)
    ensures InLedger(p, ExecuteAll(p, events), events)
    decreases |events|
  {
    if events == [] {
      GainedNothing(p);
      assert p.nonOptions + [] == p.nonOptions && p.unknown + [] == p.unknown;
    } else {
      var e, rest := events[0], events[1..];
      var r := Execute(p, e);
      assert events == [e] + rest;
      ExecuteGains(p, e);
      if r.error.None? {
        Ledger(r.parser, rest);
        LedgerAddsUp(p, r.parser, ExecuteAll(r.parser, rest), e, rest);
      } else {
        LedgerStops(p, r, e, rest);
      }
    }
  }

  lemma ExecuteGains(p: Parser, e: Event)
    requires HitsInRange(e, |p.entries|)
    ensures var r := Execute(p, e);
            && (r.error.None? <==> Readable(p.entries, HitsOf(e)))
            && (r.error.None? ==>
                  && Gained(p, r.parser, HitsOf(e))
                  && r.parser.nonOptions == p.nonOptions + NonOptionsOf(e)
                  && r.parser.unknown == p.unknown + UnknownOf(e))
  {
    match e
    case Long(_, Some(hit), _) =>
      DeliverGains(p, hit, LongName);
    case Cluster(_, hits, _, _) => DeliverAllGains(p, hits, ShortName);
    case _ =>
  }
}
