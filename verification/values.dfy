/** What options make of the text they are given, and what a whole command line adds to them. Stated
    through the parser's state before and after only. */
module Values {
  import opened Basics
  import opened Popl
  import opened CommandLine
  import opened ScanLaws
  import Ini
  import Recognition
  import RoundTrip

  // ----- One argument -----

  /** Option `k` has gained the value `d`, its variable holds it, and nothing else has changed. */
  ghost predicate Gets(p: Parser, r: Outcome, k: nat, d: Datum)
    requires k < |p.entries|
  {
    var e := p.entries[k];
    && r.error == None
    && r.parser.entries == p.entries[k := e.(values := e.values + [d])]
    && r.parser.memory == (if e.target.Some? then p.memory[e.target.value := d] else p.memory)
    && r.parser.unknown == p.unknown && r.parser.nonOptions == p.nonOptions
  }

  /** An exception that names the option, the name by which it was given and the text. */
  ghost predicate Refuses(p: Parser, r: Outcome, hit: Hit, name: OptionName, error: ErrorKind) {
    r == Outcome(p, Some(InvalidOption(hit.option, error, name, CString(hit.argument))))
  }

  lemma GetsValue(p: Parser, hit: Hit, name: OptionName, d: Datum)
    requires hit.option < |p.entries|
    requires Interpret(p.entries[hit.option], CString(hit.argument)) == (Some(d), None)
    ensures Gets(p, Deliver(p, hit, name), hit.option, d)
  {
    var e := p.entries[hit.option];
    assert Last(e.values + [d]) == d;
  }

  /** A switch gains true, whatever it is given. */
  lemma SwitchGetsTrue(p: Parser, hit: Hit, name: OptionName)
    requires hit.option < |p.entries| && p.entries[hit.option].config.kind == SwitchOption
    ensures Gets(p, Deliver(p, hit, name), hit.option, Truth(true))
  {
    GetsValue(p, hit, name, Truth(true));
  }

  /** An implicit option without a value gains its default. */
  lemma ImplicitGetsDefault(p: Parser, hit: Hit, name: OptionName)
    requires hit.option < |p.entries| && p.entries[hit.option].config.kind == ImplicitOption
    requires CString(hit.argument) == "" && p.entries[hit.option].fallback.Some?
    ensures Gets(p, Deliver(p, hit, name), hit.option, p.entries[hit.option].fallback.value)
  {
    GetsValue(p, hit, name, p.entries[hit.option].fallback.value);
  }

  /** Whether the option reads the text it is given with its type's reader. */
  ghost predicate ReadsText(e: Entry, text: string) {
    e.config.kind == ValueOption || (e.config.kind == ImplicitOption && text != "")
  }

  /** A bool option gains true exactly for four texts, and false for any other, also for none. */
  lemma TruthIsRead(p: Parser, hit: Hit, name: OptionName)
    requires hit.option < |p.entries| && p.entries[hit.option].config.reader == ReadTruth
    requires ReadsText(p.entries[hit.option], CString(hit.argument))
    ensures var text := CString(hit.argument);
            Gets(p, Deliver(p, hit, name), hit.option,
                 Truth(text == "1" || text == "true" || text == "True" || text == "TRUE"))
  {
    var text := CString(hit.argument);
    GetsValue(p, hit, name, Truth(text == "1" || text == "true" || text == "True" || text == "TRUE"));
  }

  /** A string option refuses the empty text and gains any other as it is. */
  lemma TextIsRead(p: Parser, hit: Hit, name: OptionName)
    requires hit.option < |p.entries| && p.entries[hit.option].config.reader == ReadText
    requires ReadsText(p.entries[hit.option], CString(hit.argument))
    ensures var r := Deliver(p, hit, name);
            if CString(hit.argument) == "" then Refuses(p, r, hit, name, MissingArgument)
            else Gets(p, r, hit.option, Text(CString(hit.argument)))
  {
    if CString(hit.argument) != "" {
      GetsValue(p, hit, name, Text(CString(hit.argument)));
    }
  }

  /** Any other option refuses the empty text, and what its type cannot read. */
  lemma StreamIsRead(p: Parser, hit: Hit, name: OptionName)
    requires hit.option < |p.entries| && p.entries[hit.option].config.reader.ReadStream?
    requires ReadsText(p.entries[hit.option], CString(hit.argument))
    ensures var r := Deliver(p, hit, name);
            var text := CString(hit.argument);
            if text == "" then Refuses(p, r, hit, name, MissingArgument)
            else match p.entries[hit.option].config.reader.convert(text)
              case Converted(d) => Gets(p, r, hit.option, d)
              case Unreadable => Refuses(p, r, hit, name, InvalidArgument)
              case Overfull => Refuses(p, r, hit, name, TooManyArguments)
  {
    var text := CString(hit.argument);
    if text != "" && p.entries[hit.option].config.reader.convert(text).Converted? {
      GetsValue(p, hit, name, p.entries[hit.option].config.reader.convert(text).datum);
    }
  }

  /** A pair of an ini file goes to the active option of that long name, as a long option would; if
      there is none, its key is recorded as unknown and nothing else changes. */
  lemma PairIsGiven(p: Parser, key: string, value: string, k: nat)
    ensures Recognition.HasLong(Configs(p.entries), k, key) ==>
              Ini.Give(p, (key, value)) == Deliver(p, Hit(k, value), LongName)
    ensures (forall j: nat :: !Recognition.HasLong(Configs(p.entries), j, key)) ==>
              Ini.Give(p, (key, value)) == Outcome(p.(unknown := p.unknown + [key]), None)
  {
    var configs := Configs(p.entries);
    if Recognition.HasLong(configs, k, key) {
      Recognition.LongFound(configs, k, key);
    }
    if forall j: nat :: !Recognition.HasLong(configs, j, key) {
      Recognition.LongMissing(configs, key);
    }
  }

  // ----- A command line -----

  /** How often option `k` is given. */
  function Times(k: nat, hits: seq<Hit>): nat {
    if hits == [] then 0 else (if hits[0].option == k then 1 else 0) + Times(k, hits[1..])
  }

  /** The arguments option `k` is given, in order. */
  function Arguments(k: nat, hits: seq<Hit>): seq<string> {
    if hits == [] then []
    else (if hits[0].option == k then [hits[0].argument] else []) + Arguments(k, hits[1..])
  }

  function Repeated(d: Datum, n: nat): seq<Datum> {
    seq(n, i => d)
  }

  function Texts(arguments: seq<string>): seq<Datum> {
    seq(|arguments|, i requires 0 <= i < |arguments| => Text(CString(arguments[i])))
  }

  lemma {:induction false} SwitchData(entries: seq<Entry>, k: nat, hits: seq<Hit>)
    requires k < |entries| && entries[k].config.kind == SwitchOption
    ensures DataFor(entries, k, hits) == Repeated(Truth(true), Times(k, hits))
    decreases |hits|
  {
    if hits == [] {
    } else {
      SwitchData(entries, k, hits[1..]);
      var n := Times(k, hits[1..]);
      assert [Truth(true)] + Repeated(Truth(true), n) == Repeated(Truth(true), n + 1);
    }
  }

  lemma {:induction false} TextData(entries: seq<Entry>, k: nat, hits: seq<Hit>)
    requires k < |entries| && entries[k].config.kind == ValueOption && entries[k].config.reader == ReadText
    requires Readable(entries, hits)
    ensures DataFor(entries, k, hits) == Texts(Arguments(k, hits))
    decreases |hits|
  {
    if hits == [] {
    } else {
      var rest := hits[1..];
      assert hits[0] in hits && forall h :: h in rest ==> h in hits;
      TextData(entries, k, rest);
      var later := Arguments(k, rest);
      if hits[0].option == k {
        assert Texts([hits[0].argument] + later) == [Text(CString(hits[0].argument))] + Texts(later);
      } else {
        assert [] + later == later;
      }
    }
  }

  /** A switch that a command line gives n times has gained exactly n values, each of them true, and its
      unaliased bound variable is true. */
  lemma SwitchGivenTimes(p: Parser, args: seq<string>, k: nat)
    requires Scan(p, args).error.None? && k < |p.entries| && p.entries[k].config.kind == SwitchOption
    ensures var q := Scan(p, args).parser;
            var n := Times(k, AllHits(Events(Configs(p.entries), args)));
            && |q.entries| == |p.entries|
            && q.entries[k].values == p.entries[k].values + Repeated(Truth(true), n)
            && (n > 0 && Unaliased(p, k) && BindingHolds(p, k) && p.entries[k].target.Some? ==>
                  p.entries[k].target.value in q.memory && q.memory[p.entries[k].target.value] == Truth(true))
  {
    var events := Events(Configs(p.entries), args);
    var q := Scan(p, args).parser;
    Ledger(p, events);
    SwitchData(p.entries, k, AllHits(events));
    assert q.entries[k] == p.entries[k].(values := q.entries[k].values);
    if Unaliased(p, k) && BindingHolds(p, k) {
      ScanBinds(p, events, k);
    }
  }

  /** The same for a command line that a user renders. */
  lemma RenderedSwitch(p: Parser, items: seq<RoundTrip.Item>, k: nat)
    requires DistinctNames(Configs(p.entries)) && forall i :: i in items ==> RoundTrip.Valid(Configs(p.entries), i)
    requires k < |p.entries| && p.entries[k].config.kind == SwitchOption
    requires Scan(p, RoundTrip.RenderAll(Configs(p.entries), items)).error.None?
    ensures var q := Scan(p, RoundTrip.RenderAll(Configs(p.entries), items)).parser;
            && |q.entries| == |p.entries|
            && q.entries[k].values
               == p.entries[k].values + Repeated(Truth(true), Times(k, RoundTrip.Assignments(items)))
  {
    RoundTrip.RenderedItemsScan(Configs(p.entries), items);
    SwitchGivenTimes(p, RoundTrip.RenderAll(Configs(p.entries), items), k);
  }

  /** A string option has gained exactly the texts it was given, in order. */
  lemma TextsGiven(p: Parser, args: seq<string>, k: nat)
    requires Scan(p, args).error.None? && k < |p.entries|
    requires p.entries[k].config.kind == ValueOption && p.entries[k].config.reader == ReadText
    ensures var q := Scan(p, args).parser;
            && |q.entries| == |p.entries|
            && q.entries[k].values
               == p.entries[k].values + Texts(Arguments(k, AllHits(Events(Configs(p.entries), args))))
  {
    var events := Events(Configs(p.entries), args);
    Ledger(p, events);
    TextData(p.entries, k, AllHits(events));
  }

  // ----- A scan that throws -----

  /** The scan has executed the first `n` events and the first `j` hits of the next one, whose hit `j`
      cannot be read. */
  ghost predicate StopsIn(p: Parser, r: Outcome, events: seq<Event>, n: nat, j: nat) {
    && r.error.Some? && n < |events| && j < |HitsOf(events[n])|
    && var done := AllHits(events[..n]) + HitsOf(events[n])[..j];
    && var bad := HitsOf(events[n])[j];
    && Readable(p.entries, done) && !Readable(p.entries, [bad]) && Gained(p, r.parser, done)
    && r.error.value.option == bad.option && r.error.value.value == CString(bad.argument)
    && r.parser.nonOptions == p.nonOptions + NonOptionTokens(events[..n])
    && r.parser.unknown == p.unknown + UnknownTokens(events[..n])
  }

  /** The same for hits: the first `j` are delivered, the next one cannot be read. */
  ghost predicate HitsStop(p: Parser, r: Outcome, hits: seq<Hit>, j: nat) {
    && r.error.Some? && j < |hits|
    && Readable(p.entries, hits[..j]) && !Readable(p.entries, [hits[j]]) && Gained(p, r.parser, hits[..j])
    && r.error.value.option == hits[j].option && r.error.value.value == CString(hits[j].argument)
    && r.parser.unknown == p.unknown && r.parser.nonOptions == p.nonOptions
  }

  lemma HitsStopLater(p: Parser, q: Parser, r: Outcome, hits: seq<Hit>, j: nat)
    requires hits != [] && HitsStop(q, r, hits[1..], j)
    requires Gained(p, q, [hits[0]]) && Readable(p.entries, [hits[0]])
    requires q.unknown == p.unknown && q.nonOptions == p.nonOptions
    ensures HitsStop(p, r, hits, j + 1)
  {
    var rest := hits[1..];
    assert rest[j] == hits[j + 1] && hits[..j + 1] == [hits[0]] + rest[..j];
    GainsAddUp(p, q, r.parser, [hits[0]], rest[..j]);
    GainedIsReadable(p, q, [rest[j]]);
  }

  lemma DeliverStops(p: Parser, hit: Hit, name: OptionName)
    requires hit.option < |p.entries| && Deliver(p, hit, name).error.Some?
    ensures HitsStop(p, Deliver(p, hit, name), [hit], 0)
  {
    DeliverGains(p, hit, name);
    GainedNothing(p);
    assert [hit][..0] == [];
  }

  lemma {:induction false} DeliverAllStops(p: Parser, hits: seq<Hit>, name: OptionName) returns (j: nat)
    requires (forall h :: h in hits ==> h.option < |p.entries|) && DeliverAll(p, hits, name).error.Some?
    ensures HitsStop(p, DeliverAll(p, hits, name), hits, j)
    decreases |hits|
  {
    var h, rest := hits[0], hits[1..];
    var r1 := Deliver(p, h, name);
    if r1.error.Some? {
      DeliverStops(p, h, name);
      assert hits[..0] == [h][..0];
      return 0;
    } else {
      DeliverGains(p, h, name);
      var i := DeliverAllStops(r1.parser, rest, name);
      HitsStopLater(p, r1.parser, DeliverAll(r1.parser, rest, name), hits, i);
      return i + 1;
    }
  }

  lemma EventStops(p: Parser, e: Event) returns (j: nat)
    requires HitsInRange(e, |p.entries|) && Execute(p, e).error.Some?
    ensures HitsStop(p, Execute(p, e), HitsOf(e), j)
  {
    match e
    case Long(_, Some(hit), _) =>
      DeliverStops(p, hit, LongName);
      return 0;
    case Cluster(_, hits, _, _) => j := DeliverAllStops(p, hits, ShortName);
  }

  /** A scan that throws has executed everything before the argument that could not be read, and
      nothing after it. */
  lemma {:induction false} ErrorStopsScan(p: Parser, events: seq<Event>)
    requires (forall e :: e in events ==> HitsInRange(e, |p.entries|)) && ExecuteAll(p, events).error.Some?
    ensures exists n, j :: StopsIn(p, ExecuteAll(p, events), events, n, j)
    decreases |events|
  {
    var e, rest := events[0], events[1..];
    var r1 := Execute(p, e);
    if r1.error.Some? {
      var j := EventStops(p, e);
      assert events[..0] == [] && [] + HitsOf(e)[..j] == HitsOf(e)[..j];
      assert p.nonOptions + [] == p.nonOptions && p.unknown + [] == p.unknown;
      assert StopsIn(p, r1, events, 0, j);
    } else {
      ErrorStopsScan(r1.parser, rest);
      var n, j :| StopsIn(r1.parser, ExecuteAll(r1.parser, rest), rest, n, j);
      ExecuteGains(p, e);
      StopsLater(p, r1.parser, ExecuteAll(p, events), events, n, j);
    }
  }

  lemma StopsLater(p: Parser, q: Parser, r: Outcome, events: seq<Event>, n: nat, j: nat)
    requires events != [] && StopsIn(q, r, events[1..], n, j)
    requires Gained(p, q, HitsOf(events[0])) && Readable(p.entries, HitsOf(events[0]))
    requires q.nonOptions == p.nonOptions + NonOptionsOf(events[0]) && q.unknown == p.unknown + UnknownOf(events[0])
    ensures StopsIn(p, r, events, n + 1, j)
  {
    var e, rest := events[0], events[1..];
    var later, some := AllHits(rest[..n]), HitsOf(rest[n])[..j];
    assert rest[n] == events[n + 1];
    assert events[..n + 1][0] == e && events[..n + 1][1..] == rest[..n];
    GainsAddUp(p, q, r.parser, HitsOf(e), later + some);
    ConcatAssociates(HitsOf(e), later, some);
    GainedIsReadable(p, q, [HitsOf(rest[n])[j]]);
    ConcatAssociates(p.nonOptions, NonOptionsOf(e), NonOptionTokens(rest[..n]));
    ConcatAssociates(p.unknown, UnknownOf(e), UnknownTokens(rest[..n]));
  }

  /** parse() succeeds exactly if the scan does and every required option has a value; otherwise the
      exception is that of the scan, or names the first required option without one. */
  lemma RequiredAreChecked(p: Parser, args: seq<string>)
    ensures var r, s := ParseArgs(p, args), Scan(p, args);
            && r.parser == s.parser
            && (s.error.Some? ==> r.error == s.error)
            && (r.error == None <==>
                  s.error == None
                  && forall e :: e in s.parser.entries && e.config.attribute == Required ==> e.values != [])
            && (s.error == None && r.error.Some? ==>
                  var k := r.error.value.option;
                  && k < |s.parser.entries| && r.error.value == InvalidOption(k, MissingOption, Unspecified, "")
                  && s.parser.entries[k].config.attribute == Required && s.parser.entries[k].values == []
                  && forall j :: 0 <= j < k && s.parser.entries[j].config.attribute == Required ==>
                       s.parser.entries[j].values != [])
  {
  }
}
